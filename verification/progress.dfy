/** The cosmetic progress counter shared by the home page and the results
    page: a timer that adds a random step on every tick and stops at a cap,
    and the status line shown for a given percentage. */
module Progress {

  /** The value at which the ticker stops. */
  const Cap := 95
  /** `Math.floor(Math.random() * 15)` lies in `[0, MaxStep]`. */
  const MaxStep := 14
  /** The cap is checked before the step is added, so one step can overshoot it. */
  const Ceiling := Cap - 1 + MaxStep

  /** One random increment. */
  predicate IsStep(k: int)
  {
    0 <= k <= MaxStep
  }

  /** The counter and whether its interval timer is still set. */
  datatype Ticker = Ticker(value: int, running: bool)

  /** One tick of the interval. At or above the cap the timer clears itself
      and the value is pinned to the cap; below it the step is added without
      any further check. */
  function Tick(prev: int, k: int): (t: Ticker)
    requires IsStep(k)
    ensures prev >= Cap <==> !t.running
    ensures !t.running ==> t.value == Cap
    ensures t.running ==> prev <= t.value <= prev + MaxStep && t.value < Cap + MaxStep
    ensures prev < Cap ==> t == Ticker(prev + k, true)
  {
    if prev >= Cap then Ticker(Cap, false) else Ticker(prev + k, true)
  }

  /** The ticker after a series of ticks; once the timer is cleared further
      ticks never fire. */
  function Run(t: Ticker, ks: seq<int>): (r: Ticker)
    requires forall i :: 0 <= i < |ks| ==> IsStep(ks[i])
    ensures t.value <= Ceiling ==> r.value <= Ceiling
    ensures r.running ==> t.running && t.value <= r.value
    ensures t.running && !r.running ==> r.value == Cap
    ensures !t.running ==> r == t
    decreases |ks|
  {
    if |ks| == 0 || !t.running then t
    else Run(Tick(t.value, ks[0]), ks[1..])
  }

  /** Starting from zero the counter never exceeds 108. */
  lemma FromZeroBounded(ks: seq<int>)
    requires forall i :: 0 <= i < |ks| ==> IsStep(ks[i])
    ensures 0 <= Run(Ticker(0, true), ks).value <= 108
  {
    RunNonNegative(Ticker(0, true), ks);
  }

  lemma {:induction false} RunNonNegative(t: Ticker, ks: seq<int>)
    requires forall i :: 0 <= i < |ks| ==> IsStep(ks[i])
    requires t.value >= 0
    ensures Run(t, ks).value >= 0
    decreases |ks|
  {
    if |ks| > 0 && t.running {
      RunNonNegative(Tick(t.value, ks[0]), ks[1..]);
    }
  }

  /** The bound 108 is reached: eight ticks take the counter from 0 to 94
      and then past the cap. */
  lemma OvershootReachable()
    ensures Run(Ticker(0, true), [14, 14, 14, 14, 14, 10, 14, 14]) == Ticker(108, true)
  {
    var ks := [14, 14, 14, 14, 14, 10, 14, 14];
    var t := Ticker(0, true);
    assert Run(t, ks) == Run(Ticker(14, true), ks[1..]);
    assert ks[1..] == [14, 14, 14, 14, 10, 14, 14];
    assert Run(Ticker(14, true), [14, 14, 14, 14, 10, 14, 14]) == Run(Ticker(28, true), [14, 14, 14, 10, 14, 14]);
    assert Run(Ticker(28, true), [14, 14, 14, 10, 14, 14]) == Run(Ticker(42, true), [14, 14, 10, 14, 14]);
    assert Run(Ticker(42, true), [14, 14, 10, 14, 14]) == Run(Ticker(56, true), [14, 10, 14, 14]);
    assert Run(Ticker(56, true), [14, 10, 14, 14]) == Run(Ticker(70, true), [10, 14, 14]);
    assert Run(Ticker(70, true), [10, 14, 14]) == Run(Ticker(80, true), [14, 14]);
    assert Run(Ticker(80, true), [14, 14]) == Run(Ticker(94, true), [14]);
    assert Run(Ticker(94, true), [14]) == Run(Ticker(108, true), []);
  }

  /** A counter that overshot drops back to the cap on the next tick and the
      timer stops. */
  lemma OvershootSettles(t: Ticker, k: int)
    requires t.running && t.value > Cap && IsStep(k)
    ensures Run(t, [k]) == Ticker(Cap, false)
  {
  }

  // ---------------------------------------------------------------------------
  // Status line
  // ---------------------------------------------------------------------------

  const StageTexts := [
    "[STATUS] Scanning repository structure...",
    "[STATUS] Identifying potential vulnerabilities...",
    "[STATUS] Analyzing security patterns...",
    "[STATUS] Preparing security report..."]

  /** How many of the thresholds 30, 60 and 90 the progress has reached. */
  function Stage(p: int): (s: nat)
    ensures s < |StageTexts|
  {
    (if p >= 30 then 1 else 0) + (if p >= 60 then 1 else 0) + (if p >= 90 then 1 else 0)
  }

  /** The four guarded status lines, each rendered when its own range
      condition holds. */
  function StageLines(p: int): (lines: seq<string>)
    ensures lines == [StageTexts[Stage(p)]]
  {
    (if p < 30 then [StageTexts[0]] else [])
    + (if p >= 30 && p < 60 then [StageTexts[1]] else [])
    + (if p >= 60 && p < 90 then [StageTexts[2]] else [])
    + (if p >= 90 then [StageTexts[3]] else [])
  }

  /** The status line only moves forward as progress grows. */
  lemma StageMonotone(p: int, q: int)
    requires p <= q
    ensures Stage(p) <= Stage(q)
  {
  }
}
