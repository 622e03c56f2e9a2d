/** The scan endpoints: creating a job, the background task that runs it, and
    the read endpoint that reports on it. The database session is a `Store`
    value threaded through the calls; the scanner is the abstract outcome of
    one call to `scan`. */
module ScanApi {
  import opened Wrappers
  import opened ScanModel
  import Scanner

  const InitiatedMessage := "Scan initiated successfully"
  const NotFoundDetail := "Scan not found"

  /** An HTTP error answer: status code and detail text. */
  datatype HttpError = HttpError(statusCode: int, detail: string)

  /** The answer to a scan submission. */
  datatype ScanResponse = ScanResponse(scanId: string, status: ScanStatus, message: string)

  /** What the call to the scanner did: returned a reply dictionary, or raised. */
  datatype ScanCall = Returned(reply: Scanner.ScanReply) | Raised(message: string)

  /** The read endpoint's answer. */
  datatype ResultsView = ResultsView(
    scanId: string,
    status: ScanStatus,
    results: Option<Scanner.ScanReply>,
    error: Option<string>,
    createdAt: int,
    completedAt: Option<int>)

  /** `create_scan`: store a pending record under the fresh id and answer with
      it. The id column is unique, so an id already in the table makes the
      commit fail and the request ends in a server error. */
  function CreateScan(db: Store, freshId: string, repoUrl: string, now: int): (r: Result<(Store, ScanResponse), HttpError>)
    ensures r.Err? <==> freshId in db
    ensures r.Err? ==> r.error.statusCode == 500
    ensures r.Ok? ==> r.value.1 == ScanResponse(freshId, Pending, InitiatedMessage)
    ensures r.Ok? ==> r.value.0.Keys == db.Keys + {freshId}
    ensures r.Ok? ==> forall k :: k in db ==> r.value.0[k] == db[k]
    ensures r.Ok? ==> var rec := r.value.0[freshId];
      rec.scanId == freshId && rec.repoUrl == repoUrl && rec.status == Pending && rec.createdAt == now
    ensures r.Ok? && Valid(db) ==> Valid(r.value.0)
  {
    if freshId in db then Err(HttpError(500, "Internal Server Error"))
    else Ok((db[freshId := NewRecord(freshId, repoUrl, now)], ScanResponse(freshId, Pending, InitiatedMessage)))
  }

  /** First half of `run_scan`: mark the record in progress before the
      scanner is called. A missing record makes the background job fail before any
      write, leaving the table as it was. */
  function BeginScan(db: Store, id: string): (r: Store)
    ensures r.Keys == db.Keys
    ensures forall k :: k in db && k != id ==> r[k] == db[k]
    ensures id in db ==> r[id].status == InProgress
    ensures id in db ==> r[id] == db[id].(status := r[id].status)
  {
    if id in db then db[id := db[id].(status := InProgress)] else db
  }

  /** Second half of `run_scan`: record what the scanner did. A returned
      dictionary completes the job, whatever the dictionary says; an
      exception fails it with the exception's text. */
  function FinishScan(db: Store, id: string, call: ScanCall, now: int): (r: Store)
    ensures r.Keys == db.Keys
    ensures forall k :: k in db && k != id ==> r[k] == db[k]
    ensures id in db ==> r[id].status == (if call.Returned? then Completed else Failed)
    ensures id in db ==> r[id].completedAt == Some(now)
    ensures id in db && call.Returned? ==>
      r[id].results == Some(call.reply) && r[id].errorMessage == db[id].errorMessage
    ensures id in db && call.Raised? ==>
      r[id].errorMessage == Some(call.message) && r[id].results == db[id].results
    ensures id in db ==> r[id].scanId == db[id].scanId && r[id].repoUrl == db[id].repoUrl
                          && r[id].createdAt == db[id].createdAt
  {
    if id !in db then db
    else match call
      case Returned(reply) =>
        db[id := db[id].(status := Completed, completedAt := Some(now), results := Some(reply))]
      case Raised(msg) =>
        db[id := db[id].(status := Failed, errorMessage := Some(msg), completedAt := Some(now))]
  }

  /** `run_scan`: in progress, then the scanner, then completed or failed. */
  function RunScan(db: Store, id: string, call: ScanCall, now: int): (r: Store)
    ensures r.Keys == db.Keys
    ensures forall k :: k in db && k != id ==> r[k] == db[k]
    ensures id in db ==> r[id].status.IsTerminal()
    ensures id in db ==> (r[id].status == Completed <==> call.Returned?)
    ensures id in db && db[id].status == Pending && Valid(db) ==> Valid(r)
  {
    FinishScan(BeginScan(db, id), id, call, now)
  }

  /** The scanner's answer as `run_scan` receives it: `scan` catches its own
      errors, so the call always returns. */
  function CallScanner(id: string, repoUrl: string, env: Scanner.ScanEnv): (c: ScanCall)
    ensures c.Returned?
  {
    Returned(Scanner.Scan(Scanner.SecurityScanner(repoUrl, id), env))
  }

  /** A scan whose clone fails still ends `completed`, with the scanner's
      error dictionary stored as its results; it never ends `failed`. */
  lemma CloneFailureEndsCompleted(db: Store, id: string, env: Scanner.ScanEnv, now: int)
    requires id in db
    requires env.setupFailure.None? && !env.cloned
    ensures var r := RunScan(db, id, CallScanner(id, db[id].repoUrl, env), now);
      r[id].status == Completed && r[id].results == Some(Scanner.ErrorReply(Scanner.CloneFailedMessage))
  {
  }

  /** `get_scan_results`: 404 for an unknown id; otherwise the record, with
      `results` shown only when completed and `error` only when failed. */
  function GetScanResults(db: Store, id: string): (r: Result<ResultsView, HttpError>)
    ensures r.Err? <==> id !in db
    ensures r.Err? ==> r.error == HttpError(404, NotFoundDetail)
    ensures r.Ok? ==> r.value.scanId == db[id].scanId && r.value.status == db[id].status
    ensures r.Ok? ==> r.value.createdAt == db[id].createdAt && r.value.completedAt == db[id].completedAt
    ensures r.Ok? ==> r.value.results == (if db[id].status == Completed then db[id].results else None)
    ensures r.Ok? ==> r.value.error == (if db[id].status == Failed then db[id].errorMessage else None)
  {
    if id !in db then Err(HttpError(404, NotFoundDetail))
    else
      var rec := db[id];
      Ok(ResultsView(
        rec.scanId,
        rec.status,
        if rec.status == Completed then rec.results else None,
        if rec.status == Failed then rec.errorMessage else None,
        rec.createdAt,
        rec.completedAt))
  }

  /** In a valid store the read endpoint shows results exactly when the job
      completed and an error exactly when it failed; neither while it runs. */
  lemma ViewMatchesStatus(db: Store, id: string)
    requires Valid(db) && id in db
    ensures var v := GetScanResults(db, id).value;
      && (v.results.Some? <==> v.status == Completed)
      && (v.error.Some? <==> v.status == Failed)
      && (!v.status.IsTerminal() ==> v.results.None? && v.error.None? && v.completedAt.None?)
  {
  }

  /** The whole life of one job: created pending, moved to in progress, then
      to a terminal status. Every write moves the status forward, every
      intermediate table is valid, and `run_scan` is exactly the last two
      writes. */
  lemma Lifecycle(db: Store, id: string, repoUrl: string, created: int, call: ScanCall, finished: int)
    requires Valid(db) && id !in db
    ensures CreateScan(db, id, repoUrl, created).Ok?
    ensures var s0 := CreateScan(db, id, repoUrl, created).value.0;
            var s1 := BeginScan(s0, id);
            var s2 := FinishScan(s1, id, call, finished);
      && Valid(s0) && Valid(s1) && Valid(s2)
      && s0[id].status == Pending
      && Advances(s0[id].status, s1[id].status)
      && Advances(s1[id].status, s2[id].status)
      && s2 == RunScan(s0, id, call, finished)
  {
    var s0 := CreateScan(db, id, repoUrl, created).value.0;
    var s1 := BeginScan(s0, id);
    assert Valid(s1) by {
      forall k | k in s1
        ensures s1[k].scanId == k && WellFormed(s1[k])
      {
        if k != id {
          assert s1[k] == s0[k];
        }
      }
    }
    var s2 := FinishScan(s1, id, call, finished);
    assert Valid(s2) by {
      forall k | k in s2
        ensures s2[k].scanId == k && WellFormed(s2[k])
      {
        if k != id {
          assert s2[k] == s1[k];
        }
      }
    }
  }
}
