/** The stand-alone loading panel: a headline that reads the percentage
    until it reaches 100, and a growing list of step lines. */
module LoadingState {
  /** The headline under the bar: the running percentage, or the completion
      notice. */
  datatype Headline = ScanningAt(percent: int) | ScanComplete

  /** The headline for a percentage: the percentage while below 100. */
  function HeadlineFor(progress: int): (h: Headline)
    ensures h.ScanComplete? <==> progress >= 100
    ensures h.ScanningAt? ==> h.percent == progress && h.percent < 100
  {
    if progress < 100 then ScanningAt(progress) else ScanComplete
  }

  /** The steps in the order they appear. */
  const StepTexts := [
    "Cloning repository...",
    "Analyzing code structure...",
    "Identifying vulnerabilities...",
    "Generating report..."]

  /** The progress at which each step line appears. */
  const Thresholds := [20, 40, 60, 80]

  /** How many thresholds the progress has reached. */
  function Reached(progress: int): (n: nat)
    ensures n <= |Thresholds|
    ensures forall i :: 0 <= i < |Thresholds| ==> (i < n <==> progress >= Thresholds[i])
  {
    if progress >= 80 then 4
    else if progress >= 60 then 3
    else if progress >= 40 then 2
    else if progress >= 20 then 1
    else 0
  }

  /** The step lines, each rendered on its own guard. */
  function StepLines(progress: int): (lines: seq<string>)
    ensures lines == StepTexts[..Reached(progress)]
  {
    (if progress >= 20 then [StepTexts[0]] else [])
    + (if progress >= 40 then [StepTexts[1]] else [])
    + (if progress >= 60 then [StepTexts[2]] else [])
    + (if progress >= 80 then [StepTexts[3]] else [])
  }

  /** Step lines only accumulate: what is shown at a lower progress stays
      shown, in the same place, at any higher one. */
  lemma StepsCumulative(p: int, q: int)
    requires p <= q
    ensures |StepLines(p)| <= |StepLines(q)|
    ensures StepLines(p) == StepLines(q)[..|StepLines(p)|]
  {
    assert Reached(p) <= Reached(q);
  }

  /** Below the first threshold the list is empty; from 80 on it holds all
      four steps. */
  lemma StepExtremes(p: int)
    ensures p < 20 ==> StepLines(p) == []
    ensures p >= 80 ==> StepLines(p) == StepTexts
  {
  }
}
