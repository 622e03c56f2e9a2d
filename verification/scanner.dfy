/** The backend's SecurityScanner: where a scan keeps its files, how the
    Bandit and Semgrep reports are merged into one list of findings, and the
    early exits of a complete scan. Cloning, the two subprocesses and the
    file writes are abstracted into a `ScanEnv` describing their outcomes. */
module Scanner {
  import opened Wrappers
  import opened Json

  /** Directory settings the scanner derives its paths from. */
  const RepoCloneDir := "temp_repos"
  const ScanResultsDir := "scan_results"

  const CloneFailedMessage := "Failed to clone repository"

  datatype SecurityScanner = SecurityScanner(repoUrl: string, scanId: string)

  /** One normalised finding. The values are copied from the tool's report
      verbatim, so they keep whatever JSON type the tool gave them. */
  datatype Finding = Finding(
    tool: string,
    severity: Value,
    filePath: Value,
    lineNumber: Value,
    description: Value,
    code: Value)

  /** What `scan` returns: the normalised report, or an error dictionary
      `{"status": "error", "message": ...}`. */
  datatype ScanReply =
    | Report(scanId: string, repoUrl: string, vulnerabilities: seq<Finding>)
    | ErrorReply(message: string)

  /** The outcomes of the scan's side effects. `setupFailure` and
      `writeFailure` carry the text of an exception raised while creating the
      directories or writing the results file. A tool whose run or JSON
      decoding fails contributes an empty list, as the source does. The
      entries of a tool's list are arbitrary JSON values: one that is not an
      object makes the normaliser raise. */
  datatype ScanEnv = ScanEnv(
    setupFailure: Option<string>,
    cloned: bool,
    banditResults: seq<Value>,
    semgrepResults: seq<Value>,
    writeFailure: Option<string>)

  // ---------------------------------------------------------------------------
  // Paths
  // ---------------------------------------------------------------------------

  predicate Absolute(p: string)
  {
    |p| > 0 && p[0] == '/'
  }

  /** POSIX `os.path.join(a, b)`: an absolute `b` replaces `a`, otherwise a
      separator is inserted unless `a` is empty or already ends in one. */
  function PathJoin(a: string, b: string): (p: string)
    ensures Absolute(b) ==> p == b
    ensures !Absolute(b) && a != "" && a[|a| - 1] != '/' ==> p == a + "/" + b
    ensures !Absolute(b) && (a == "" || a[|a| - 1] == '/') ==> p == a + b
  {
    if Absolute(b) then b
    else if a == "" || a[|a| - 1] == '/' then a + b
    else a + "/" + b
  }

  /** The checkout directory of a scan, named after its scan id. */
  function ClonePath(s: SecurityScanner): (p: string)
    ensures !Absolute(s.scanId) ==> p == RepoCloneDir + "/" + s.scanId
    ensures Absolute(s.scanId) <==> Absolute(p)
  {
    PathJoin(RepoCloneDir, s.scanId)
  }

  /** The JSON report file of a scan, named `<scan id>.json`. */
  function ResultsPath(s: SecurityScanner): (p: string)
    ensures !Absolute(s.scanId) ==> p == ScanResultsDir + "/" + s.scanId + ".json"
    ensures |p| >= 5 && p[|p| - 5..] == ".json"
  {
    PathJoin(ScanResultsDir, s.scanId + ".json")
  }

  /** Two scans with different ids never share a checkout directory. */
  lemma ClonePathsDistinct(s: SecurityScanner, t: SecurityScanner)
    requires s.scanId != t.scanId
    ensures ClonePath(s) != ClonePath(t)
  {
    var pre := RepoCloneDir + "/";
    if !Absolute(s.scanId) && !Absolute(t.scanId) {
      assert ClonePath(s)[|pre|..] == s.scanId;
      assert ClonePath(t)[|pre|..] == t.scanId;
    } else if !Absolute(s.scanId) {
      assert ClonePath(s)[0] == 't';
    } else if !Absolute(t.scanId) {
      assert ClonePath(t)[0] == 't';
    }
  }

  /** Two scans with different ids never share a results file. */
  lemma ResultsPathsDistinct(s: SecurityScanner, t: SecurityScanner)
    requires s.scanId != t.scanId
    ensures ResultsPath(s) != ResultsPath(t)
  {
    var p, q := ResultsPath(s), ResultsPath(t);
    var pre := ScanResultsDir + "/";
    if !Absolute(s.scanId) && !Absolute(t.scanId) {
      assert p[|pre|..|p| - 5] == s.scanId;
      assert q[|pre|..|q| - 5] == t.scanId;
    } else if !Absolute(s.scanId) {
      assert p[0] == 's';
      assert q == t.scanId + ".json";
    } else if !Absolute(t.scanId) {
      assert q[0] == 's';
      assert p == s.scanId + ".json";
    } else {
      assert p[..|p| - 5] == s.scanId;
      assert q[..|q| - 5] == t.scanId;
    }
  }

  // ---------------------------------------------------------------------------
  // Normalisation
  // ---------------------------------------------------------------------------

  const UnknownText := Str("unknown")
  const EmptyText := Str("")
  const NoLine := Int(0)

  /** One Bandit result as a uniform finding: each field comes from its own
      top-level key, with a default when the key is missing. */
  function NormalizeBandit(r: Dict): (f: Finding)
    ensures f.tool == "bandit"
    ensures "issue_severity" in r ==> f.severity == r["issue_severity"]
    ensures "issue_severity" !in r ==> f.severity == UnknownText
    ensures "filename" in r ==> f.filePath == r["filename"]
    ensures "filename" !in r ==> f.filePath == UnknownText
    ensures "line_number" in r ==> f.lineNumber == r["line_number"]
    ensures "line_number" !in r ==> f.lineNumber == NoLine
    ensures "issue_text" in r ==> f.description == r["issue_text"]
    ensures "issue_text" !in r ==> f.description == EmptyText
    ensures "code" in r ==> f.code == r["code"]
    ensures "code" !in r ==> f.code == EmptyText
  {
    Finding(
      "bandit",
      Get(r, "issue_severity", UnknownText),
      Get(r, "filename", UnknownText),
      Get(r, "line_number", NoLine),
      Get(r, "issue_text", EmptyText),
      Get(r, "code", EmptyText))
  }

  /** A Semgrep result is well shaped for the normaliser when its `extra` and
      `start` entries are absent or are objects. */
  predicate SemgrepShaped(r: Dict)
  {
    Gettable(r, "extra") && Gettable(r, "start")
  }

  /** One Semgrep result as a uniform finding. Severity, message and code
      sit under `extra`, the line under `start`, each with its own default
      when the outer or the inner key is missing; the fields are read in
      dictionary-literal order, so a malformed `extra` is reported before a
      malformed `start`. */
  function NormalizeSemgrep(r: Dict): (res: Result<Finding, string>)
    ensures res.Ok? <==> SemgrepShaped(r)
    ensures !Gettable(r, "extra") ==> res == Err(NoGetMessage(r["extra"]))
    ensures Gettable(r, "extra") && !Gettable(r, "start") ==> res == Err(NoGetMessage(r["start"]))
    ensures res.Ok? ==> res.value.tool == "semgrep"
    ensures res.Ok? ==> res.value.filePath == Get(r, "path", UnknownText)
    ensures res.Ok? && "extra" !in r ==>
      res.value.severity == UnknownText && res.value.description == EmptyText && res.value.code == EmptyText
    ensures res.Ok? && "start" !in r ==> res.value.lineNumber == NoLine
    ensures res.Ok? && "extra" in r && "severity" in r["extra"].fields ==>
      res.value.severity == r["extra"].fields["severity"]
    ensures res.Ok? && "extra" in r && "severity" !in r["extra"].fields ==> res.value.severity == UnknownText
    ensures res.Ok? && "extra" in r && "message" in r["extra"].fields ==>
      res.value.description == r["extra"].fields["message"]
    ensures res.Ok? && "extra" in r && "message" !in r["extra"].fields ==> res.value.description == EmptyText
    ensures res.Ok? && "extra" in r && "lines" in r["extra"].fields ==>
      res.value.code == r["extra"].fields["lines"]
    ensures res.Ok? && "extra" in r && "lines" !in r["extra"].fields ==> res.value.code == EmptyText
    ensures res.Ok? && "start" in r && "line" in r["start"].fields ==>
      res.value.lineNumber == r["start"].fields["line"]
    ensures res.Ok? && "start" in r && "line" !in r["start"].fields ==> res.value.lineNumber == NoLine
  {
    var severity := GetNested(r, "extra", "severity", UnknownText);
    if severity.Err? then Err(severity.error)
    else
      var line := GetNested(r, "start", "line", NoLine);
      if line.Err? then Err(line.error)
      else
        Ok(Finding(
          "semgrep",
          severity.value,
          Get(r, "path", UnknownText),
          line.value,
          GetNested(r, "extra", "message", EmptyText).value,
          GetNested(r, "extra", "lines", EmptyText).value))
  }

  /** The two tools whose reports are merged, with the tag each finding
      carries. */
  datatype Tool = Bandit | Semgrep
  {
    function Name(): string
    {
      match this
      case Bandit => "bandit"
      case Semgrep => "semgrep"
    }
  }

  /** An entry of a tool's list the normaliser gets through: a dict, and for
      Semgrep one whose `extra` and `start` can be read. */
  predicate EntryShaped(tool: Tool, v: Value)
  {
    v.Object? && (tool == Semgrep ==> SemgrepShaped(v.fields))
  }

  /** One list entry of either tool. The first thing the loop body does is
      call `result.get`, which raises on anything but a dict. */
  function NormalizeEntry(tool: Tool, v: Value): (res: Result<Finding, string>)
    ensures res.Ok? <==> EntryShaped(tool, v)
    ensures !v.Object? ==> res == Err(NoGetMessage(v))
    ensures res.Ok? ==> res.value.tool == tool.Name()
  {
    match v
    case Object(r) => if tool == Bandit then Ok(NormalizeBandit(r)) else NormalizeSemgrep(r)
    case _ => Err(NoGetMessage(v))
  }

  /** A tool's list normalised entry by entry, in order; the first entry
      that raises aborts the whole list with its exception text. */
  function NormalizeAll(tool: Tool, rs: seq<Value>): (res: Result<seq<Finding>, string>)
    ensures res.Ok? <==> forall i :: 0 <= i < |rs| ==> EntryShaped(tool, rs[i])
    ensures res.Ok? ==> |res.value| == |rs|
    ensures res.Ok? ==> forall i :: 0 <= i < |rs| ==> NormalizeEntry(tool, rs[i]) == Ok(res.value[i])
    ensures res.Err? ==> exists i :: 0 <= i < |rs| && NormalizeEntry(tool, rs[i]) == Err(res.error)
                                  && forall j :: 0 <= j < i ==> EntryShaped(tool, rs[j])
  {
    if |rs| == 0 then Ok([])
    else
      match NormalizeEntry(tool, rs[0])
      case Err(e) => Err(e)
      case Ok(f) =>
        var rest := NormalizeAll(tool, rs[1..]);
        if rest.Err? then
          assert forall j :: 0 <= j < |rs[1..]| ==> rs[1..][j] == rs[j + 1];
          Err(rest.error)
        else
          assert forall j :: 0 < j < |rs| ==> rs[j] == rs[1..][j - 1];
          Ok([f] + rest.value)
  }

  /** `normalize_results`: the envelope of this scan holding every Bandit
      finding followed by every Semgrep finding. The Bandit loop runs first,
      so a bad Bandit entry is the one reported. */
  function NormalizeResults(s: SecurityScanner, bandit: seq<Value>, semgrep: seq<Value>): (res: Result<ScanReply, string>)
    ensures res.Ok? <==> (forall i :: 0 <= i < |bandit| ==> bandit[i].Object?)
                         && (forall j :: 0 <= j < |semgrep| ==> EntryShaped(Semgrep, semgrep[j]))
    ensures res.Ok? ==> res.value.Report?
    ensures res.Ok? ==> res.value.scanId == s.scanId && res.value.repoUrl == s.repoUrl
    ensures res.Ok? ==> |res.value.vulnerabilities| == |bandit| + |semgrep|
    ensures res.Ok? ==> forall i :: 0 <= i < |bandit| ==>
      res.value.vulnerabilities[i] == NormalizeBandit(bandit[i].fields)
    ensures res.Ok? ==> forall j :: 0 <= j < |semgrep| ==>
      NormalizeSemgrep(semgrep[j].fields) == Ok(res.value.vulnerabilities[|bandit| + j])
    ensures res.Ok? ==> forall i :: 0 <= i < |res.value.vulnerabilities| ==>
      res.value.vulnerabilities[i].tool == (if i < |bandit| then "bandit" else "semgrep")
    ensures res.Err? && (exists i :: 0 <= i < |bandit| && !bandit[i].Object?) ==>
      exists i :: 0 <= i < |bandit| && !bandit[i].Object? && res.error == NoGetMessage(bandit[i])
                  && forall k :: 0 <= k < i ==> bandit[k].Object?
    ensures res.Err? && (forall i :: 0 <= i < |bandit| ==> bandit[i].Object?) ==>
      exists j :: 0 <= j < |semgrep| && NormalizeEntry(Semgrep, semgrep[j]) == Err(res.error)
                  && forall k :: 0 <= k < j ==> EntryShaped(Semgrep, semgrep[k])
  {
    var fromBandit := NormalizeAll(Bandit, bandit);
    if fromBandit.Err? then Err(fromBandit.error)
    else
      var fromSemgrep := NormalizeAll(Semgrep, semgrep);
      if fromSemgrep.Err? then Err(fromSemgrep.error)
      else
        var all := fromBandit.value + fromSemgrep.value;
        assert forall i :: 0 <= i < |bandit| ==> all[i] == fromBandit.value[i];
        assert forall j :: 0 <= j < |semgrep| ==> all[|bandit| + j] == fromSemgrep.value[j];
        Ok(Report(s.scanId, s.repoUrl, all))
  }

  /** `scan`: set up, clone, run both tools, normalise, save. Any exception
      along the way is turned into an error reply, so a scan never raises. */
  function Scan(s: SecurityScanner, env: ScanEnv): (r: ScanReply)
    ensures env.setupFailure.Some? ==> r == ErrorReply(env.setupFailure.value)
    ensures env.setupFailure.None? && !env.cloned ==> r == ErrorReply(CloneFailedMessage)
    ensures r.Report? <==>
      env.setupFailure.None? && env.cloned && env.writeFailure.None?
      && NormalizeResults(s, env.banditResults, env.semgrepResults).Ok?
    ensures r.Report? ==> r == NormalizeResults(s, env.banditResults, env.semgrepResults).value
    ensures env.setupFailure.None? && env.cloned && NormalizeResults(s, env.banditResults, env.semgrepResults).Err? ==>
      r == ErrorReply(NormalizeResults(s, env.banditResults, env.semgrepResults).error)
    ensures env.setupFailure.None? && env.cloned && env.writeFailure.Some?
            && NormalizeResults(s, env.banditResults, env.semgrepResults).Ok?
            ==> r == ErrorReply(env.writeFailure.value)
  {
    if env.setupFailure.Some? then ErrorReply(env.setupFailure.value)
    else if !env.cloned then ErrorReply(CloneFailedMessage)
    else
      match NormalizeResults(s, env.banditResults, env.semgrepResults)
      case Err(e) => ErrorReply(e)
      case Ok(report) =>
        if env.writeFailure.Some? then ErrorReply(env.writeFailure.value) else report
  }

  // ---------------------------------------------------------------------------
  // Properties relating several calls
  // ---------------------------------------------------------------------------

  /** A failed clone answers before either tool is consulted: the reply does
      not depend on the tool reports or on the results file. */
  lemma CloneFailureSkipsTools(s: SecurityScanner, env: ScanEnv, other: ScanEnv)
    requires !env.cloned && !other.cloned
    requires env.setupFailure == other.setupFailure
    ensures Scan(s, env) == Scan(s, other)
  {
  }

  /** The Bandit dictionary a finding would have come from. */
  function BanditSource(f: Finding): Dict
  {
    map["issue_severity" := f.severity, "filename" := f.filePath, "line_number" := f.lineNumber,
        "issue_text" := f.description, "code" := f.code]
  }

  /** The Semgrep dictionary a finding would have come from. */
  function SemgrepSource(f: Finding): Dict
  {
    map["path" := f.filePath,
        "start" := Object(map["line" := f.lineNumber]),
        "extra" := Object(map["severity" := f.severity, "message" := f.description, "lines" := f.code])]
  }

  /** Normalising loses nothing: a Bandit finding is recovered exactly from
      the report entry it describes. */
  lemma BanditRoundTrip(f: Finding)
    requires f.tool == "bandit"
    ensures NormalizeBandit(BanditSource(f)) == f
  {
  }

  /** Normalising loses nothing: a Semgrep finding is recovered exactly from
      the report entry it describes, through the nested `extra` and `start`. */
  lemma SemgrepRoundTrip(f: Finding)
    requires f.tool == "semgrep"
    ensures NormalizeSemgrep(SemgrepSource(f)) == Ok(f)
  {
  }

  /** Normalising the concatenation of two lists of one tool is the
      concatenation of their normalisations. */
  lemma {:induction false} NormalizeAllAppend(tool: Tool, xs: seq<Value>, ys: seq<Value>)
    requires NormalizeAll(tool, xs).Ok? && NormalizeAll(tool, ys).Ok?
    ensures NormalizeAll(tool, xs + ys) == Ok(NormalizeAll(tool, xs).value + NormalizeAll(tool, ys).value)
  {
    var all := NormalizeAll(tool, xs + ys);
    assert forall i :: 0 <= i < |xs + ys| ==> EntryShaped(tool, (xs + ys)[i]) by {
      forall i | 0 <= i < |xs + ys|
        ensures EntryShaped(tool, (xs + ys)[i])
      {
        if i < |xs| {
          assert (xs + ys)[i] == xs[i];
        } else {
          assert (xs + ys)[i] == ys[i - |xs|];
        }
      }
    }
    assert all.Ok?;
    var expected := NormalizeAll(tool, xs).value + NormalizeAll(tool, ys).value;
    assert |all.value| == |expected|;
    forall i | 0 <= i < |expected|
      ensures all.value[i] == expected[i]
    {
      if i < |xs| {
        assert (xs + ys)[i] == xs[i];
        assert NormalizeEntry(tool, xs[i]) == Ok(all.value[i]);
        assert NormalizeEntry(tool, xs[i]) == Ok(NormalizeAll(tool, xs).value[i]);
      } else {
        assert (xs + ys)[i] == ys[i - |xs|];
        assert NormalizeEntry(tool, ys[i - |xs|]) == Ok(all.value[i]);
        assert NormalizeEntry(tool, ys[i - |xs|]) == Ok(NormalizeAll(tool, ys).value[i - |xs|]);
      }
    }
    assert all.value == expected;
  }
}
