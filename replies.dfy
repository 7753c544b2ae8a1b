/**
 * Abstract replies of the remote document-parsing service, and what one
 * document's pipeline ends with. Each reply keeps only its HTTP status code
 * and the JSON fields that main.py reads; a field that the code reads with
 * `.get` or guards with `in` is an Option, a list is a sequence.
 */
module Replies {
  import opened Wrappers

  /** Reply to the document upload (POST to the parse endpoint). */
  datatype SubmitReply = SubmitReply(code: int, requestId: Option<string>)

  /** One element of the `batches` list of a status reply. */
  datatype ResultBatch = ResultBatch(downloadUrl: Option<string>)

  /** Reply to one status query (GET .../requests/<request_id>). A missing
      `batches` key is represented by the empty list: the code fails the
      same way on both. */
  datatype StatusReply = StatusReply(
    code: int,
    status: Option<string>,
    batches: seq<ResultBatch>,
    failureMessage: Option<string>)

  /** The `content` object of a download reply. */
  datatype ContentBlock = ContentBlock(html: Option<string>)

  /** Reply to the result download (GET <download_url>). */
  datatype DownloadReply = DownloadReply(code: int, content: Option<ContentBlock>)

  /** Everything the remote service answers to one document's pipeline: the
      upload reply, the successive status replies in the order they are
      received, and the reply to a download of each URL. */
  datatype Service = Service(
    submit: SubmitReply,
    statuses: seq<StatusReply>,
    fetch: string -> DownloadReply)

  /** How one document's pipeline ends. */
  datatype Outcome =
    | Rejected(submitCode: int)         // upload reply other than 202
    | Aborted(missingKey: string)       // a key indexed with [] was absent; the task raises
    | TransportError(statusCode: int)   // a status reply other than 200
    | RemoteFailed(message: Option<string>)
    | DownloadFailed(downloadCode: int) // a download reply other than 200
    | Written(path: string, content: string)
    | StillPolling                      // every status reply received so far was non-terminal

  /** The observable record of one pipeline run: its outcome, the status URL
      it polled (if any), how many status queries and waits it made, and the
      URL it downloaded (if any). */
  datatype Run = Run(
    outcome: Outcome,
    pollUrl: Option<string>,
    queries: nat,
    waits: nat,
    downloadUrl: Option<string>)

  const RequestIdKey := "request_id"
  const DownloadUrlKey := "batches[0].download_url"
  const Completed := "completed"
  const Failed := "failed"
}
