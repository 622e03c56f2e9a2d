/** The home page's scan handler: the input check, the progress ticker, the
    submission, the status poll loop, and the reset on a transport error.
    The transport is a scripted sequence of answers, the ticker's random
    steps are a sequence of increments, and `encodeURIComponent` is an
    opaque function parameter. */
module HomePage {
  import opened Wrappers
  import Progress
  import ScanModel

  const MissingUrlError := "Please enter a repository URL"
  const ScanFailedError := "Failed to scan repository. Please try again."

  /** The answer to the submission request. */
  datatype SubmitReply = Submitted(scanId: string) | SubmitFailed

  /** The answer to one status request: the job's status string, or a thrown
      transport error (network failure or an error status code). */
  datatype StatusReply = StatusBody(status: string) | FetchFailed

  /** The page's state. `destination` is the route the page has scheduled a
      navigation to. */
  datatype HomeState = HomeState(
    isScanning: bool,
    progress: int,
    error: string,
    tickerRunning: bool,
    destination: Option<string>)

  /** The loop keeps waiting on exactly these two status strings. */
  predicate Waiting(status: string)
  {
    status == "pending" || status == "in_progress"
  }

  predicate KeepsPolling(r: StatusReply)
  {
    r.StatusBody? && Waiting(r.status)
  }

  /** Where the loop stops: the first answer that is not a waiting status,
      or the end of the script when every answer says to wait. */
  function Settle(replies: seq<StatusReply>): (i: nat)
    ensures i <= |replies|
    ensures forall j :: 0 <= j < i ==> KeepsPolling(replies[j])
    ensures i < |replies| ==> !KeepsPolling(replies[i])
    decreases |replies|
  {
    if |replies| == 0 || !KeepsPolling(replies[0]) then 0
    else 1 + Settle(replies[1..])
  }

  /** How the poll loop ended: on a final status, on a thrown error, or not
      yet (the script ran out while the job was still waiting). */
  datatype PollOutcome = Settled(status: string) | Broken | StillPolling

  /** The poll loop: one fetch after the submission, then one more after
      each wait while the status is `pending` or `in_progress`. */
  method Poll(replies: seq<StatusReply>) returns (outcome: PollOutcome, fetches: nat)
    ensures var i := Settle(replies);
      && (outcome.Settled? <==> i < |replies| && replies[i].StatusBody?)
      && (outcome.Broken? <==> i < |replies| && replies[i].FetchFailed?)
      && (outcome.Settled? ==> replies[i] == StatusBody(outcome.status) && !Waiting(outcome.status))
      && fetches == (if i < |replies| then i + 1 else |replies|)
  {
    var i := 0;
    while i < |replies|
      invariant 0 <= i <= |replies|
      invariant forall j :: 0 <= j < i ==> KeepsPolling(replies[j])
    {
      var reply := replies[i];
      if reply.FetchFailed? {
        SettleAt(replies, i);
        return Broken, i + 1;
      }
      if !Waiting(reply.status) {
        SettleAt(replies, i);
        return Settled(reply.status), i + 1;
      }
      i := i + 1;
    }
    SettleAt(replies, i);
    return StillPolling, i;
  }

  /** The loop stops at the first non-waiting answer and nowhere else. */
  lemma SettleAt(replies: seq<StatusReply>, i: nat)
    requires i <= |replies|
    requires forall j :: 0 <= j < i ==> KeepsPolling(replies[j])
    requires i < |replies| ==> !KeepsPolling(replies[i])
    ensures Settle(replies) == i
  {
  }

  /** The route of the results page for a scan. */
  function ResultsTarget(scanId: string, encodedRepo: string): string
  {
    "/results?scanId=" + scanId + "&repo=" + encodedRepo
  }

  /** The state after a thrown transport error: timer cleared, scanning off,
      progress back to zero, and the generic message. */
  function ErrorReset(st: HomeState): HomeState
  {
    HomeState(false, 0, ScanFailedError, false, st.destination)
  }

  /** `handleScan`. An empty URL only sets the message. Otherwise the error
      is cleared, scanning starts with the ticker, and the job is submitted
      and polled; either final status navigates to the results page, and any
      thrown error resets the page. `ticks` are the ticker steps that fired
      while the loop was still waiting. */
  method HandleScan(st: HomeState, repoUrl: string, submit: SubmitReply, replies: seq<StatusReply>,
                    ticks: seq<int>, encode: string -> string)
    returns (next: HomeState, fetches: nat)
    requires forall i :: 0 <= i < |ticks| ==> Progress.IsStep(ticks[i])
    ensures repoUrl == "" ==> next == st.(error := MissingUrlError) && fetches == 0
    ensures repoUrl != "" && submit.SubmitFailed? ==> next == ErrorReset(st) && fetches == 0
    ensures repoUrl != "" && submit.Submitted? ==> var i := Settle(replies);
      && (i < |replies| && replies[i].StatusBody? ==>
            next == HomeState(true, 100, "", false, Some(ResultsTarget(submit.scanId, encode(repoUrl))))
            && fetches == i + 1)
      && (i < |replies| && replies[i].FetchFailed? ==> next == ErrorReset(st) && fetches == i + 1)
      && (i == |replies| ==>
            next.isScanning && next.error == "" && next.destination == st.destination
            && fetches == |replies|
            && (0 <= st.progress <= Progress.Ceiling ==> 0 <= next.progress <= Progress.Ceiling))
  {
    if repoUrl == "" {
      return st.(error := MissingUrlError), 0;
    }
    var ticker := Progress.Run(Progress.Ticker(st.progress, true), ticks);
    if submit.SubmitFailed? {
      return ErrorReset(st), 0;
    }
    var outcome;
    outcome, fetches := Poll(replies);
    match outcome
    case Settled(_) =>
      next := HomeState(true, 100, "", false, Some(ResultsTarget(submit.scanId, encode(repoUrl))));
    case Broken =>
      next := ErrorReset(st);
    case StillPolling =>
      if st.progress >= 0 {
        Progress.RunNonNegative(Progress.Ticker(st.progress, true), ticks);
      }
      next := HomeState(true, ticker.value, "", ticker.running, st.destination);
  }

  /** A status the backend can send ends the loop exactly when it is
      terminal, so a `failed` job is treated like a completed one. */
  lemma BackendStatusEndsPoll(s: ScanModel.ScanStatus)
    ensures !Waiting(s.Value()) <==> s.IsTerminal()
  {
  }
}
