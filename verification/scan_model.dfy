/** The persisted scan record: its status enumeration, its columns and
    defaults, and the store of records keyed by scan id. */
module ScanModel {
  import opened Wrappers
  import Scanner

  /** The four states of a scan job. */
  datatype ScanStatus = Pending | InProgress | Completed | Failed
  {
    /** The string each member stands for, as sent to clients. The table
        column itself persists the member's name. */
    function Value(): string
    {
      match this
      case Pending => "pending"
      case InProgress => "in_progress"
      case Completed => "completed"
      case Failed => "failed"
    }

    /** `completed` and `failed` end a job. */
    predicate IsTerminal()
    {
      Completed? || Failed?
    }

    /** Position in the lifecycle order `pending < in_progress < completed|failed`. */
    function Rank(): nat
    {
      match this
      case Pending => 0
      case InProgress => 1
      case Completed => 2
      case Failed => 2
    }
  }

  /** Looking a status up by its value, as `ScanStatus("...")` does; any other
      string is rejected. */
  function ParseStatus(s: string): (r: Option<ScanStatus>)
    ensures r.Some? ==> r.value.Value() == s
    ensures r.None? ==> s !in {"pending", "in_progress", "completed", "failed"}
  {
    if s == "pending" then Some(Pending)
    else if s == "in_progress" then Some(InProgress)
    else if s == "completed" then Some(Completed)
    else if s == "failed" then Some(Failed)
    else None
  }

  /** Every status survives the trip to its string value and back, so the
      four values are pairwise distinct. */
  lemma StatusValueRoundTrip(st: ScanStatus)
    ensures ParseStatus(st.Value()) == Some(st)
  {
  }

  /** One status may follow another: the rank strictly increases and nothing
      follows a terminal status. */
  predicate Advances(from: ScanStatus, to: ScanStatus)
  {
    !from.IsTerminal() && from.Rank() < to.Rank()
  }

  /** A row of the scan table. Times are abstract instants. */
  datatype ScanRecord = ScanRecord(
    scanId: string,
    repoUrl: string,
    status: ScanStatus,
    createdAt: int,
    completedAt: Option<int>,
    results: Option<Scanner.ScanReply>,
    errorMessage: Option<string>)

  /** A record inserted with only its id, url and creation time: every other
      column takes its default. */
  function NewRecord(scanId: string, repoUrl: string, now: int): ScanRecord
  {
    ScanRecord(scanId, repoUrl, Pending, now, None, None, None)
  }

  /** The optional columns agree with the status: nothing is set while the job
      runs, a completion time and results once completed, a completion time and
      an error once failed. */
  predicate WellFormed(r: ScanRecord)
  {
    match r.status
    case Pending => r.completedAt.None? && r.results.None? && r.errorMessage.None?
    case InProgress => r.completedAt.None? && r.results.None? && r.errorMessage.None?
    case Completed => r.completedAt.Some? && r.results.Some? && r.errorMessage.None?
    case Failed => r.completedAt.Some? && r.results.None? && r.errorMessage.Some?
  }

  /** A fresh record is pending, with no completion time, results or error. */
  lemma NewRecordDefaults(scanId: string, repoUrl: string, now: int)
    ensures NewRecord(scanId, repoUrl, now).status == Pending
    ensures WellFormed(NewRecord(scanId, repoUrl, now))
    ensures !NewRecord(scanId, repoUrl, now).status.IsTerminal()
  {
  }

  /** The table, indexed by its unique `scan_id` column. */
  type Store = map<string, ScanRecord>

  /** Each record sits under its own scan id and is well formed. */
  predicate Valid(db: Store)
  {
    forall k :: k in db ==> db[k].scanId == k && WellFormed(db[k])
  }
}
