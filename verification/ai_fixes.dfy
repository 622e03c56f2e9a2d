/** The AI fixes page: the expand/collapse map over the fix cards, the
    recommendation total, the severity tabs and their counts, the severity
    badge, and the share of detected issues that have a fix. The fixes are
    a given report; its fixed delay is not modelled. */
module AiFixes {
  import opened Wrappers
  import Seqs
  import ResultsPage
  import SeverityChart

  datatype Fix = Fix(
    id: int,
    file: string,
    line: int,
    severity: string,
    vulnerability: string,
    cveId: Option<string>,
    additionalRecommendations: Option<seq<string>>)

  datatype FixReport = FixReport(
    repoName: string,
    totalIssuesDetected: nat,
    fixes: seq<Fix>)

  // ---------------------------------------------------------------------------
  // Expanded cards
  // ---------------------------------------------------------------------------

  /** The expanded-state object, keyed by fix id. A missing key reads as
      `undefined`. */
  type Expanded = map<int, bool>

  /** Whether a card is open: a missing key is falsy, like `false`. */
  predicate IsExpanded(m: Expanded, id: int)
  {
    id in m && m[id]
  }

  /** The state set after loading: every fix id present and collapsed, and
      no other key. */
  function InitialExpanded(fixes: seq<Fix>): (m: Expanded)
    ensures forall i :: 0 <= i < |fixes| ==> fixes[i].id in m
    ensures forall id :: id in m ==> exists i :: 0 <= i < |fixes| && fixes[i].id == id
    ensures forall id :: id in m ==> !m[id]
    decreases |fixes|
  {
    if |fixes| == 0 then map[]
    else
      var rest := InitialExpanded(fixes[..|fixes| - 1]);
      assert forall id :: id in rest ==> exists i :: 0 <= i < |fixes| && fixes[i].id == id by {
        forall id | id in rest
          ensures exists i :: 0 <= i < |fixes| && fixes[i].id == id
        {
          var i :| 0 <= i < |fixes| - 1 && fixes[..|fixes| - 1][i].id == id;
          assert fixes[i].id == id;
        }
      }
      rest[fixes[|fixes| - 1].id := false]
  }

  /** `toggleExpand`: the entry for `id` becomes the negation of what it
      read; the other entries are copied. */
  function ToggleExpand(m: Expanded, id: int): (r: Expanded)
    ensures id in r && IsExpanded(r, id) == !IsExpanded(m, id)
    ensures r.Keys == m.Keys + {id}
    ensures forall k :: k in m && k != id ==> r[k] == m[k]
  {
    m[id := !IsExpanded(m, id)]
  }

  /** Toggling twice restores an entry that was already defined, and
      otherwise leaves a collapsed entry that reads like the missing one. */
  lemma ToggleTwice(m: Expanded, id: int)
    ensures id in m ==> ToggleExpand(ToggleExpand(m, id), id) == m
    ensures forall k :: IsExpanded(ToggleExpand(ToggleExpand(m, id), id), k) == IsExpanded(m, k)
  {
    var r := ToggleExpand(ToggleExpand(m, id), id);
    if id in m {
      assert r.Keys == m.Keys;
    }
  }

  /** Opening one card after loading leaves exactly that card open. */
  lemma OpenOneCard(fixes: seq<Fix>, id: int)
    requires exists i :: 0 <= i < |fixes| && fixes[i].id == id
    ensures forall k :: IsExpanded(ToggleExpand(InitialExpanded(fixes), id), k) <==> k == id
  {
  }

  // ---------------------------------------------------------------------------
  // Recommendation total
  // ---------------------------------------------------------------------------

  /** The recommendations of one fix; a missing list contributes none. */
  function RecommendationsOf(f: Fix): seq<string>
  {
    if f.additionalRecommendations.Some? then f.additionalRecommendations.value else []
  }

  /** All recommendations, fix by fix. */
  function AllRecommendations(fixes: seq<Fix>): seq<string>
  {
    if |fixes| == 0 then [] else RecommendationsOf(fixes[0]) + AllRecommendations(fixes[1..])
  }

  lemma {:induction false} AllRecommendationsAppend(xs: seq<Fix>, ys: seq<Fix>)
    ensures AllRecommendations(xs + ys) == AllRecommendations(xs) + AllRecommendations(ys)
  {
    if |xs| == 0 {
      assert xs + ys == ys;
    } else {
      assert (xs + ys)[1..] == xs[1..] + ys;
      AllRecommendationsAppend(xs[1..], ys);
    }
  }

  /** The `reduce` that sums the list lengths, a missing list counting 0:
      the number of recommendations the page lists in all. */
  method RecommendationTotal(fixes: seq<Fix>) returns (sum: nat)
    ensures sum == |AllRecommendations(fixes)|
  {
    sum := 0;
    var i := 0;
    while i < |fixes|
      invariant 0 <= i <= |fixes|
      invariant sum == |AllRecommendations(fixes[..i])|
    {
      AllRecommendationsAppend(fixes[..i], [fixes[i]]);
      assert fixes[..i + 1] == fixes[..i] + [fixes[i]];
      assert AllRecommendations([fixes[i]]) == RecommendationsOf(fixes[i]);
      sum := sum + |RecommendationsOf(fixes[i])|;
      i := i + 1;
    }
    assert fixes[..i] == fixes;
  }

  // ---------------------------------------------------------------------------
  // Severity tabs
  // ---------------------------------------------------------------------------

  /** The fixes under a severity tab, in list order. */
  function Tab(fixes: seq<Fix>, severity: string): (items: seq<Fix>)
    ensures |items| <= |fixes|
    ensures forall i :: 0 <= i < |items| ==> items[i].severity == severity
  {
    Seqs.Filter(fixes, (f: Fix) => f.severity == severity)
  }

  /** A tab holds exactly the fixes of its severity. */
  lemma TabMembership(fixes: seq<Fix>, severity: string, f: Fix)
    ensures f in Tab(fixes, severity) <==> f in fixes && f.severity == severity
  {
    Seqs.FilterMembership(fixes, (f: Fix) => f.severity == severity, f);
  }

  /** A tab keeps list order. */
  lemma TabOrder(xs: seq<Fix>, ys: seq<Fix>, severity: string)
    ensures Tab(xs + ys, severity) == Tab(xs, severity) + Tab(ys, severity)
  {
    Seqs.FilterAppend(xs, ys, (f: Fix) => f.severity == severity);
  }

  predicate KnownSeverity(f: Fix)
  {
    f.severity == "high" || f.severity == "medium" || f.severity == "low"
  }

  /** The three tab counts and the fixes of any other severity account for
      every fix exactly once. */
  lemma {:induction false} TabCountsPartition(fixes: seq<Fix>)
    ensures |Tab(fixes, "high")| + |Tab(fixes, "medium")| + |Tab(fixes, "low")|
            + |Seqs.Filter(fixes, (f: Fix) => !KnownSeverity(f))| == |fixes|
  {
    if |fixes| > 0 {
      TabCountsPartition(fixes[1..]);
    }
  }

  // ---------------------------------------------------------------------------
  // Badge and summary
  // ---------------------------------------------------------------------------

  /** What a fix card's badge shows for a severity. */
  datatype SeverityData = SeverityData(color: string, bgColor: string, borderColor: string, badge: string)

  /** `getSeverityData`: three known severities and a grey default. */
  function GetSeverityData(severity: string): (d: SeverityData)
    ensures d.badge == "HIGH" <==> severity == "high"
    ensures d.badge == "MEDIUM" <==> severity == "medium"
    ensures d.badge == "LOW" <==> severity == "low"
    ensures d.badge == "UNKNOWN" <==> severity !in {"high", "medium", "low"}
  {
    match severity
    case "high" => SeverityData("text-red-400", "bg-red-900/30", "border-red-500/30", "HIGH")
    case "medium" => SeverityData("text-yellow-400", "bg-yellow-900/30", "border-yellow-500/30", "MEDIUM")
    case "low" => SeverityData("text-blue-400", "bg-blue-900/30", "border-blue-500/30", "LOW")
    case _ => SeverityData("text-gray-400", "bg-gray-900/30", "border-gray-500/30", "UNKNOWN")
  }

  /** This page and the results table recognise the same three severities:
      a severity is unknown to one exactly when it is unknown to the other. */
  lemma BadgesAgree(severity: string)
    ensures GetSeverityData(severity).badge == "UNKNOWN" <==> ResultsPage.SeverityLabel(severity) == "UNKNOWN"
  {
  }

  /** The share of detected issues that have a fix. With nothing detected
      the division gives NaN or Infinity, which the page prints as is;
      `None` stands for that. */
  function AddressedPercent(fixed: nat, detected: nat): (p: Option<nat>)
    ensures p.None? <==> detected == 0
    ensures p.Some? ==> 2 * detected * p.value <= 200 * fixed + detected < 2 * detected * p.value + 2 * detected
  {
    if detected == 0 then None else Some(SeverityChart.Percent(fixed, detected))
  }

  // ---------------------------------------------------------------------------
  // Page
  // ---------------------------------------------------------------------------

  /** The page's state. */
  datatype PageState = PageState(loading: bool, error: string, report: Option<FixReport>, expanded: Expanded)

  const Initial := PageState(true, "", None, map[])

  /** The load: `Some` report on success, `None` when the load throws. */
  function Load(outcome: Option<FixReport>): (st: PageState)
    ensures !st.loading
    ensures outcome.Some? ==> st.report == outcome && st.error == "" && st.expanded == InitialExpanded(outcome.value.fixes)
    ensures outcome.None? ==> st.error == "Failed to load AI fixes" && st.report.None?
  {
    match outcome
    case Some(r) => PageState(false, "", Some(r), InitialExpanded(r.fixes))
    case None => Initial.(loading := false, error := "Failed to load AI fixes")
  }

  /** A loaded page opens with every card collapsed. */
  lemma LoadedCardsCollapsed(r: FixReport)
    ensures forall k :: !IsExpanded(Load(Some(r)).expanded, k)
  {
  }
}
