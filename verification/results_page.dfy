/** The results page: reading the repository from the query string, loading
    and reloading the results behind a progress ticker, and the pure view
    helpers (score colour, severity tabs, severity labels). The fetch is a
    given `ScanResults` value; its one-and-a-half-second delay is not
    modelled. */
module ResultsPage {
  import opened Wrappers
  import Progress
  import Seqs
  import Text
  import HomePage

  const NoRepoError := "No repository specified"
  const FetchFailedError := "Failed to load scan results"

  datatype Vulnerability = Vulnerability(
    id: int,
    file: string,
    line: int,
    severity: string,
    description: string,
    impact: string,
    cveId: Option<string>)

  datatype Severities = Severities(high: int, medium: int, low: int)

  datatype ScanResults = ScanResults(
    repoName: string,
    securityScore: int,
    totalIssues: int,
    severities: Severities,
    vulnerabilities: seq<Vulnerability>)

  /** The page's state. `fetching` is true while a fetch is outstanding. */
  datatype PageState = PageState(
    results: Option<ScanResults>,
    error: string,
    loading: bool,
    progress: int,
    tickerRunning: bool,
    fetching: bool)

  // ---------------------------------------------------------------------------
  // Query string
  // ---------------------------------------------------------------------------

  /** The raw value of the first `name=value` pair whose name is `key`. */
  function Lookup(pairs: seq<string>, key: string): Option<string>
  {
    if |pairs| == 0 then None
    else
      var (name, value) := Text.SplitFirst(pairs[0], '=');
      if name == key then Some(value) else Lookup(pairs[1..], key)
  }

  /** `searchParams.get(key)` for a location `path?query`, before the value
      is percent-decoded. */
  function SearchParam(location: string, key: string): Option<string>
  {
    Lookup(Text.Split(Text.SplitFirst(location, '?').1, '&'), key)
  }

  /** The route the home page navigates to gives the results page back the
      encoded repository under `repo`, provided neither parameter contains
      `&` (which `encodeURIComponent` always escapes). The route also
      carries the scan id, which the results page never reads. */
  lemma TargetRoundTrip(scanId: string, encodedRepo: string)
    requires '&' !in scanId && '&' !in encodedRepo
    ensures SearchParam(HomePage.ResultsTarget(scanId, encodedRepo), "repo") == Some(encodedRepo)
  {
    var first, second := "scanId" + "=" + scanId, "repo" + "=" + encodedRepo;
    var target := HomePage.ResultsTarget(scanId, encodedRepo);
    TargetQuery(scanId, encodedRepo);
    assert '&' !in first && '&' !in second;
    TargetPairs(first, second);
    assert Text.Split(Text.SplitFirst(target, '?').1, '&') == [first, second];
    LookupTwo("scanId", scanId, "repo", encodedRepo);
  }

  /** In two `name=value` pairs with distinct `=`-free names, each name finds
      its own value. */
  lemma LookupTwo(k1: string, v1: string, k2: string, v2: string)
    requires '=' !in k1 && '=' !in k2 && k1 != k2
    ensures Lookup([k1 + "=" + v1, k2 + "=" + v2], k1) == Some(v1)
    ensures Lookup([k1 + "=" + v1, k2 + "=" + v2], k2) == Some(v2)
  {
    var pairs := [k1 + "=" + v1, k2 + "=" + v2];
    PairValue(k1, v1);
    PairValue(k2, v2);
    assert pairs[1..] == [k2 + "=" + v2];
  }

  /** The query of the route is everything after `/results?`. */
  lemma TargetQuery(scanId: string, encodedRepo: string)
    ensures Text.SplitFirst(HomePage.ResultsTarget(scanId, encodedRepo), '?').1
            == ("scanId" + "=" + scanId) + ['&'] + ("repo" + "=" + encodedRepo)
  {
    var query := ("scanId" + "=" + scanId) + ['&'] + ("repo" + "=" + encodedRepo);
    assert HomePage.ResultsTarget(scanId, encodedRepo) == "/results" + ['?'] + query;
    Text.SplitFirstJoin("/results", '?', query);
  }

  /** Two `&`-free pairs joined by `&` split back into those pairs. */
  lemma TargetPairs(first: string, second: string)
    requires '&' !in first && '&' !in second
    ensures Text.Split(first + ['&'] + second, '&') == [first, second]
  {
    Text.SplitCons(first, '&', second);
    Text.SplitNone(second, '&');
  }

  /** `key=value` with an `=`-free key splits back into its key and value. */
  lemma PairValue(key: string, value: string)
    requires '=' !in key
    ensures Text.SplitFirst(key + "=" + value, '=') == (key, value)
  {
    assert key + "=" + value == key + ['='] + value;
    Text.SplitFirstJoin(key, '=', value);
  }

  // ---------------------------------------------------------------------------
  // Loading and reloading
  // ---------------------------------------------------------------------------

  /** The page as first rendered: loading, nothing fetched. */
  const Fresh := PageState(None, "", true, 0, false, false)

  /** The fetch under way: the ticker runs until the results arrive. */
  function StartFetch(st: PageState): PageState
  {
    st.(tickerRunning := true, fetching := true)
  }

  /** The mount effect. A missing or empty `repo` parameter is an error and
      nothing is fetched; otherwise the fetch starts. */
  function Mount(repo: Option<string>): (st: PageState)
    ensures st.fetching <==> repo.Some? && repo.value != ""
    ensures !st.fetching ==> st.error == NoRepoError && !st.loading && !st.tickerRunning
    ensures st.fetching ==> st.error == "" && st.loading && st.results.None?
                            && st.progress == 0 && st.tickerRunning
  {
    if repo.Some? && repo.value != "" then StartFetch(Fresh)
    else Fresh.(error := NoRepoError, loading := false)
  }

  /** One tick of the loading ticker, which fires only while it is set. */
  function TickPage(st: PageState, k: int): (next: PageState)
    requires Progress.IsStep(k)
    ensures !st.tickerRunning ==> next == st
    ensures st.tickerRunning ==> next.progress == Progress.Tick(st.progress, k).value
                                 && next.tickerRunning == Progress.Tick(st.progress, k).running
    ensures next.results == st.results && next.error == st.error && next.loading == st.loading
            && next.fetching == st.fetching
  {
    if st.tickerRunning then
      var t := Progress.Tick(st.progress, k);
      st.(progress := t.value, tickerRunning := t.running)
    else st
  }

  /** The fetch completes: the new results replace the old ones wholesale,
      progress is forced to 100, the ticker stops and loading ends. */
  function FetchDone(st: PageState, data: ScanResults): (next: PageState)
    ensures next.results == Some(data)
    ensures next.progress == 100 && !next.tickerRunning && !next.loading && !next.fetching
    ensures next.error == st.error
  {
    PageState(Some(data), st.error, false, 100, false, false)
  }

  /** The mount fetch's `catch` and `finally`: the message is set and loading
      ends, but the interval is not cleared, so the ticker keeps running.
      With the mock load this branch cannot be reached; it is modelled as
      the outcome of a load that throws. The rescan's own fetch has no
      `catch`. */
  function FetchFailed(st: PageState): (next: PageState)
    ensures next.error == FetchFailedError && !next.loading && !next.fetching
    ensures next.results == st.results && next.progress == st.progress && next.tickerRunning == st.tickerRunning
  {
    st.(error := FetchFailedError, loading := false, fetching := false)
  }

  /** A failed mount fetch ends on the error screen with its message. */
  lemma FetchFailedShowsError(st: PageState)
    ensures Render(FetchFailed(st)) == ErrorScreen(FetchFailedError)
  {
  }

  /** `handleRescan`: back to loading with progress and error cleared, then
      the fetch starts again. The old results stay until the new ones arrive.
      The `repo` parameter is not consulted. */
  function Rescan(st: PageState): (next: PageState)
    ensures next.loading && next.progress == 0 && next.error == ""
    ensures next.fetching && next.tickerRunning
    ensures next.results == st.results
  {
    StartFetch(st.(loading := true, progress := 0, error := ""))
  }

  /** After a rescan the page shows exactly the newly fetched results, with
      no trace of an earlier error or earlier results. */
  lemma RescanReplaces(st: PageState, data: ScanResults, ticks: seq<int>)
    requires forall i :: 0 <= i < |ticks| ==> Progress.IsStep(ticks[i])
    ensures var next := FetchDone(TickAll(Rescan(st), ticks), data);
      next.results == Some(data) && next.error == "" && next.progress == 100 && Render(next) == Report(data)
  {
    TickAllKeepsError(Rescan(st), ticks);
  }

  /** Several ticks in a row. */
  function TickAll(st: PageState, ks: seq<int>): PageState
    requires forall i :: 0 <= i < |ks| ==> Progress.IsStep(ks[i])
    decreases |ks|
  {
    if |ks| == 0 then st else TickAll(TickPage(st, ks[0]), ks[1..])
  }

  lemma {:induction false} TickAllKeepsError(st: PageState, ks: seq<int>)
    requires forall i :: 0 <= i < |ks| ==> Progress.IsStep(ks[i])
    ensures TickAll(st, ks).error == st.error
    decreases |ks|
  {
    if |ks| > 0 {
      TickAllKeepsError(TickPage(st, ks[0]), ks[1..]);
    }
  }

  /** What the page renders. */
  datatype Screen =
    | Loading(progress: int, statusLine: string)
    | ErrorScreen(message: string)
    | Blank
    | Report(results: ScanResults)

  /** Loading first, then an error, then the results. */
  function Render(st: PageState): (v: Screen)
    ensures v.Loading? <==> st.loading
    ensures v.ErrorScreen? <==> !st.loading && st.error != ""
    ensures v.Report? <==> !st.loading && st.error == "" && st.results.Some?
    ensures v.Loading? ==> v.statusLine in Progress.StageTexts
    ensures v.Loading? ==> v.progress == st.progress && v.statusLine == Progress.StageTexts[Progress.Stage(st.progress)]
    ensures v.ErrorScreen? ==> v.message == st.error
    ensures v.Report? ==> v.results == st.results.value
  {
    if st.loading then Loading(st.progress, Progress.StageLines(st.progress)[0])
    else if st.error != "" then ErrorScreen(st.error)
    else if st.results.None? then Blank
    else Report(st.results.value)
  }

  /** Without a usable `repo` parameter the page shows the error screen with
      "No repository specified" at once. */
  lemma MissingRepoShowsError(repo: Option<string>)
    requires repo.None? || repo.value == ""
    ensures Render(Mount(repo)) == ErrorScreen(NoRepoError)
  {
  }

  /** Following the home page's route, the results page receives the
      repository the user typed and starts fetching, when decoding undoes
      the encoding. */
  lemma HomeRouteFetches(scanId: string, repoUrl: string, encode: string -> string, decode: string -> string)
    requires repoUrl != ""
    requires '&' !in scanId && '&' !in encode(repoUrl)
    requires decode(encode(repoUrl)) == repoUrl
    ensures var raw := SearchParam(HomePage.ResultsTarget(scanId, encode(repoUrl)), "repo");
      raw.Some? && decode(raw.value) == repoUrl && Mount(Some(decode(raw.value))).fetching
  {
    TargetRoundTrip(scanId, encode(repoUrl));
  }

  // ---------------------------------------------------------------------------
  // Score colour
  // ---------------------------------------------------------------------------

  /** The score's text colour. */
  function ScoreColor(score: int): (c: string)
    ensures c == "text-green-400" <==> score >= 80
    ensures c == "text-yellow-400" <==> 60 <= score < 80
    ensures c == "text-red-400" <==> score < 60
  {
    if score >= 80 then "text-green-400"
    else if score >= 60 then "text-yellow-400"
    else "text-red-400"
  }

  /** The score ring's gradient. */
  function ScoreGradient(score: int): (g: string)
    ensures g == "from-green-500 to-green-400" <==> score >= 80
    ensures g == "from-yellow-500 to-yellow-400" <==> 60 <= score < 80
    ensures g == "from-red-500 to-red-400" <==> score < 60
  {
    if score >= 80 then "from-green-500 to-green-400"
    else if score >= 60 then "from-yellow-500 to-yellow-400"
    else "from-red-500 to-red-400"
  }

  /** The colour and the gradient are chosen by the same thresholds, so the
      text and the ring always share a hue. */
  lemma ColorMatchesGradient(score: int)
    ensures ScoreColor(score) == "text-green-400" <==> ScoreGradient(score) == "from-green-500 to-green-400"
    ensures ScoreColor(score) == "text-yellow-400" <==> ScoreGradient(score) == "from-yellow-500 to-yellow-400"
    ensures ScoreColor(score) == "text-red-400" <==> ScoreGradient(score) == "from-red-500 to-red-400"
  {
  }

  // ---------------------------------------------------------------------------
  // Severity tabs and table
  // ---------------------------------------------------------------------------

  /** The list under a tab: everything under "all", otherwise the entries
      whose severity string equals the tab's key. */
  function TabItems(vs: seq<Vulnerability>, tab: string): (items: seq<Vulnerability>)
    ensures tab == "all" ==> items == vs
    ensures |items| <= |vs|
    ensures tab != "all" ==> forall i :: 0 <= i < |items| ==> items[i].severity == tab
  {
    if tab == "all" then vs else Seqs.Filter(vs, (v: Vulnerability) => v.severity == tab)
  }

  /** A severity tab holds exactly the entries of its severity. */
  lemma TabMembership(vs: seq<Vulnerability>, tab: string, v: Vulnerability)
    requires tab != "all"
    ensures v in TabItems(vs, tab) <==> v in vs && v.severity == tab
  {
    Seqs.FilterMembership(vs, (v: Vulnerability) => v.severity == tab, v);
  }

  /** A tab keeps its entries in list order: the tab of a concatenation is
      the concatenation of the tabs. */
  lemma TabOrder(vs: seq<Vulnerability>, ws: seq<Vulnerability>, tab: string)
    ensures TabItems(vs + ws, tab) == TabItems(vs, tab) + TabItems(ws, tab)
  {
    if tab != "all" {
      Seqs.FilterAppend(vs, ws, (v: Vulnerability) => v.severity == tab);
    }
  }

  /** An entry whose severity is none of the three keys appears only under
      "all". */
  lemma OtherSeveritiesOnlyUnderAll(vs: seq<Vulnerability>, v: Vulnerability)
    requires v in vs && v.severity != "high" && v.severity != "medium" && v.severity != "low"
    ensures v in TabItems(vs, "all")
    ensures v !in TabItems(vs, "high") && v !in TabItems(vs, "medium") && v !in TabItems(vs, "low")
  {
    TabMembership(vs, "high", v);
    TabMembership(vs, "medium", v);
    TabMembership(vs, "low", v);
  }

  /** The label of a severity in the table. */
  function SeverityLabel(severity: string): (badge: string)
    ensures badge == "CRITICAL" <==> severity == "high"
    ensures badge == "WARNING" <==> severity == "medium"
    ensures badge == "NOTICE" <==> severity == "low"
    ensures badge == "UNKNOWN" <==> severity !in {"high", "medium", "low"}
  {
    match severity
    case "high" => "CRITICAL"
    case "medium" => "WARNING"
    case "low" => "NOTICE"
    case _ => "UNKNOWN"
  }

  datatype Row = Row(badge: string, vulnerability: Vulnerability)

  /** The table under a tab: the "SECURE" notice for an empty list, otherwise
      one labelled row per entry in order. */
  datatype Table = SecureNotice | Rows(rows: seq<Row>)

  function VulnerabilityTable(vs: seq<Vulnerability>): (t: Table)
    ensures t.SecureNotice? <==> |vs| == 0
    ensures t.Rows? ==> |t.rows| == |vs|
    ensures t.Rows? ==> forall i :: 0 <= i < |vs| ==> t.rows[i] == Row(SeverityLabel(vs[i].severity), vs[i])
  {
    if |vs| == 0 then SecureNotice
    else Rows(seq(|vs|, i requires 0 <= i < |vs| => Row(SeverityLabel(vs[i].severity), vs[i])))
  }
}
