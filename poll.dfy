/**
 * The status poller (`poll_for_result`): read status replies one after the
 * other, wait after every non-terminal one, and stop at the first terminal
 * one. The real loop is unbounded; here the replies received are a finite
 * sequence, and running out of them before a terminal reply ends the run
 * with StillPolling.
 */
module Poll {
  import opened Wrappers
  import opened Replies
  import opened Paths
  import opened Download

  const ResultUrlPrefix := "https://api.upstage.ai/v1/document-ai/requests/"

  /** The status URL polled for `requestId`. */
  function ResultUrl(requestId: string): string {
    ResultUrlPrefix + requestId
  }

  /** A 200 reply whose status is neither `completed` nor `failed`: the
      poller waits and asks again. */
  predicate Waiting(reply: StatusReply) {
    reply.code == 200 && reply.status != Some(Completed) && reply.status != Some(Failed)
  }

  /** A reply that ends the loop. */
  predicate IsTerminal(reply: StatusReply) {
    !Waiting(reply)
  }

  /** A 200 `completed` reply whose first batch has a download URL. */
  predicate Downloadable(reply: StatusReply) {
    reply.code == 200 && reply.status == Some(Completed)
    && |reply.batches| > 0 && reply.batches[0].downloadUrl.Some?
  }

  /** The index of the first terminal reply, or the length when there is none. */
  function FirstTerminal(statuses: seq<StatusReply>): (k: nat)
    ensures k <= |statuses|
    ensures forall j :: 0 <= j < k ==> Waiting(statuses[j])
    ensures k < |statuses| ==> IsTerminal(statuses[k])
  {
    if statuses == [] then 0
    else if IsTerminal(statuses[0]) then 0
    else 1 + FirstTerminal(statuses[1..])
  }

  /** The first terminal index is the only index meeting FirstTerminal's contract. */
  lemma FirstTerminalUnique(statuses: seq<StatusReply>, k: nat)
    requires k <= |statuses|
    requires forall j :: 0 <= j < k ==> Waiting(statuses[j])
    requires k < |statuses| ==> IsTerminal(statuses[k])
    ensures FirstTerminal(statuses) == k
  {
  }

  /** What the poller ends with when it stops at terminal reply `reply`. */
  function Finish(outputFile: string, reply: StatusReply, fetch: string -> DownloadReply): (Outcome, Option<string>)
  {
    if reply.code != 200 then (TransportError(reply.code), None)
    else if reply.status == Some(Completed) then
      if Downloadable(reply) then
        var url := reply.batches[0].downloadUrl.value;
        (DownloadSpec(outputFile, fetch(url)), Some(url))
      else (Aborted(DownloadUrlKey), None)
    else (RemoteFailed(reply.failureMessage), None)
  }

  /** The run of the poller on the replies `statuses`. */
  function PollSpec(requestId: string, outputFile: string, statuses: seq<StatusReply>,
                    fetch: string -> DownloadReply): (r: Run)
    // it polls the URL of this request id
    ensures r.pollUrl == Some(ResultUrl(requestId))
    // every reply before the stopping one is a waiting reply, followed by exactly one wait
    ensures r.waits <= |statuses|
    ensures forall j :: 0 <= j < r.waits ==> Waiting(statuses[j])
    // it stops at the first terminal reply, or runs out of replies if there is none
    ensures r.outcome == StillPolling <==> forall j :: 0 <= j < |statuses| ==> Waiting(statuses[j])
    ensures r.outcome == StillPolling ==> r.queries == r.waits == |statuses| && r.downloadUrl == None
    ensures r.outcome != StillPolling ==>
      r.waits < |statuses| && IsTerminal(statuses[r.waits]) && r.queries == r.waits + 1
    // a non-200 status reply is a transport error, a `failed` one a remote failure
    ensures r.outcome != StillPolling && statuses[r.waits].code != 200 ==>
      r.outcome == TransportError(statuses[r.waits].code)
    ensures r.outcome != StillPolling && statuses[r.waits].code == 200 && statuses[r.waits].status == Some(Failed) ==>
      r.outcome == RemoteFailed(statuses[r.waits].failureMessage)
    // a `completed` reply without a first-batch URL aborts the task
    ensures r.outcome != StillPolling && statuses[r.waits].code == 200 &&
            statuses[r.waits].status == Some(Completed) && !Downloadable(statuses[r.waits]) ==>
      r.outcome == Aborted(DownloadUrlKey)
    // one download at most, only of the first batch of a `completed` reply
    ensures r.downloadUrl.Some? <==> r.outcome != StillPolling && Downloadable(statuses[r.waits])
    ensures r.downloadUrl.Some? ==>
      r.downloadUrl.value == statuses[r.waits].batches[0].downloadUrl.value &&
      r.outcome == DownloadSpec(outputFile, fetch(r.downloadUrl.value))
    // a file is written only after a download
    ensures r.outcome.Written? ==> r.downloadUrl.Some?
  {
    var k := FirstTerminal(statuses);
    var url := ResultUrl(requestId);
    if k == |statuses| then Run(StillPolling, Some(url), k, k, None)
    else
      var (outcome, downloaded) := Finish(outputFile, statuses[k], fetch);
      Run(outcome, Some(url), k + 1, k, downloaded)
  }

  /** The poll loop of main.py over the replies received. */
  method PollForResult(requestId: string, outputFile: string, statuses: seq<StatusReply>,
                       fetch: string -> DownloadReply) returns (r: Run)
    ensures r == PollSpec(requestId, outputFile, statuses, fetch)
  {
    var url := ResultUrl(requestId);
    var i := 0;
    var waits := 0;
    while i < |statuses|
      invariant i <= |statuses|
      invariant waits == i
      invariant forall j :: 0 <= j < i ==> Waiting(statuses[j])
    {
      var reply := statuses[i];
      if reply.code == 200 {
        var status := reply.status;
        if status == Some(Completed) {
          FirstTerminalUnique(statuses, i);
          if |reply.batches| == 0 || reply.batches[0].downloadUrl.None? {
            return Run(Aborted(DownloadUrlKey), Some(url), i + 1, waits, None);
          }
          var downloadUrl := reply.batches[0].downloadUrl.value;
          var outcome := DownloadInferenceResult(outputFile, fetch(downloadUrl));
          return Run(outcome, Some(url), i + 1, waits, Some(downloadUrl));
        } else if status == Some(Failed) {
          FirstTerminalUnique(statuses, i);
          return Run(RemoteFailed(reply.failureMessage), Some(url), i + 1, waits, None);
        } else {
          waits := waits + 1;  // time.sleep(5)
        }
      } else {
        FirstTerminalUnique(statuses, i);
        return Run(TransportError(reply.code), Some(url), i + 1, waits, None);
      }
      i := i + 1;
    }
    FirstTerminalUnique(statuses, i);
    r := Run(StillPolling, Some(url), i, waits, None);
  }

  /** Replies after the first terminal one are never read: extending the
      trace does not change the first terminal index. */
  lemma {:induction false} FirstTerminalPrefix(statuses: seq<StatusReply>, later: seq<StatusReply>)
    requires FirstTerminal(statuses) < |statuses|
    ensures FirstTerminal(statuses + later) == FirstTerminal(statuses)
  {
    if IsTerminal(statuses[0]) {
      assert (statuses + later)[0] == statuses[0];
    } else {
      assert (statuses + later)[1..] == statuses[1..] + later;
      FirstTerminalPrefix(statuses[1..], later);
    }
  }

  /** Terminal states are final: once the poller has stopped, no later reply
      changes what it did. */
  lemma PollIgnoresLaterReplies(requestId: string, outputFile: string, statuses: seq<StatusReply>,
                                later: seq<StatusReply>, fetch: string -> DownloadReply)
    requires PollSpec(requestId, outputFile, statuses, fetch).outcome != StillPolling
    ensures PollSpec(requestId, outputFile, statuses + later, fetch)
         == PollSpec(requestId, outputFile, statuses, fetch)
  {
    FirstTerminalPrefix(statuses, later);
    var k := FirstTerminal(statuses);
    assert (statuses + later)[k] == statuses[k];
  }

  /** One turn of `while True`: a waiting reply costs one query and one
      wait, and the poller then continues on the remaining replies. */
  lemma PollAfterWait(requestId: string, outputFile: string, statuses: seq<StatusReply>,
                       fetch: string -> DownloadReply)
    requires |statuses| > 0 && Waiting(statuses[0])
    ensures var r := PollSpec(requestId, outputFile, statuses, fetch);
            var rest := PollSpec(requestId, outputFile, statuses[1..], fetch);
            r == rest.(queries := rest.queries + 1, waits := rest.waits + 1)
  {
  }
}
