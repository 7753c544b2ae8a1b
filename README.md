# Upload, poll and download pipeline of the Upstage OCR client, in Dafny

This project models the decision logic of `main.py` in the `upstage_ocr`
client. The client sends every regular file of `input_data` to the Upstage
document-parse service. For each file it polls the job's status until the
service reports `completed` or `failed`, or a status query fails. After
`completed` it downloads the result and writes
the `content.html` part to `output_data/<name>_parsed.html`.

Every network reply is an abstract record: its HTTP status code plus the
JSON fields the code reads (`replies.dfy`). One document's service is a
`Service`, made of three parts:
- the upload reply;
- the finite sequence of status replies, in the order they arrive;
- a function from URL to download reply, so the URL that is fetched matters.

A run ends in an `Outcome`: `Rejected`, `Aborted` (a key read with `[]` was
missing, so the background task raises), `TransportError`, `RemoteFailed`,
`DownloadFailed`, `Written(path, content)`, or `StillPolling`. The last one
means the finite trace ran out before any terminal reply. A `Run` also
records:
- the status URL that was polled;
- the number of status queries and of waits;
- the URL that was downloaded.

Modules, following the functions of `main.py`:
- `Paths`: POSIX `os.path.join`, `str.endswith`, the `_parsed` output name and the `.html` target rule.
- `Download`: `download_inference_result`. The method keeps the source's list of HTML parts, its `"\n".join` and the in-place extension of the target name. It is proved equal to `DownloadSpec`.
- `Poll`: `poll_for_result`. The method is a `while` loop over the status replies. It is proved equal to `PollSpec`, which is defined through `FirstTerminal`, the index of the first terminal reply.
- `Submit`: `call_upstage_api`, the 202 gate, proved equal to `ExpectedRun`.
- `Batch`: `parse_documents`, a `for` loop that calls a `BackgroundTasks.AddTask` method. It is proved to schedule `Schedule(listing)`. `RunJob` runs one scheduled task and applies its write to an `OutputStore`.

Facts about the code that shape the model:
- `main.py` has no chunker and no size threshold: every regular file becomes one job.
- An upload reply of 202 without `request_id` raises instead of polling, so the gate is "202 and a request id".
- A `completed` reply without `batches[0].download_url` also raises.

## Model

| member | source | states |
|---|---|---|
| `Paths.WithHtmlSuffix` | main.py:124-125 | the target always ends with `.html`; the original target is kept as a prefix; nothing is added exactly when it already ends with `.html`; at most five characters are added |
| `Paths.AppendsHtmlOnce` | main.py:124-125 | a target not ending in `.html` becomes that target followed by exactly one `.html` |
| `Paths.HtmlSuffixIdempotent` | main.py:124-125 | applying the suffix rule twice gives the same target as applying it once |
| `Paths.OutputPathSpelled` | main.py:37-38 | for a listed name, the input path is `input_data/<name>` and the output path is `output_data/<name>_parsed` |
| `Paths.FinalTargetSpelled` | main.py:124-125 | `_parsed` never ends in `.html`, so the file written for a listed name is `output_data/<name>_parsed.html` |
| `Paths.FinalTargetInjective` | main.py:38 | two listed names whose final targets are equal are the same name |
| `Download.DownloadSpec` | main.py:108-133 | a file is written exactly when the download reply is 200; otherwise the outcome is a download failure with that code; the path is the `.html`-suffixed target; the content is `content.html` when both keys are present and the empty string otherwise |
| `Download.DownloadInferenceResult` | main.py:105-133 | the parts list, the join and the target reassignment compute exactly `DownloadSpec` (the parts list never holds more than one element) |
| `Poll.FirstTerminal` | main.py:80-103 | the returned index is at most the trace length; every earlier reply is a 200 with a status other than `completed`/`failed`; the reply at the index, if any, is terminal |
| `Poll.PollSpec` | main.py:80-103 | polls the URL of the request id; every reply before the stopping one is waiting and is counted as one wait; the run stops at the first terminal reply with one query more than waits, or uses up the trace when no reply is terminal; a non-200 reply is a transport error; `failed` gives the remote failure with `failure_message`; a `completed` reply without `batches[0].download_url` aborts; a download happens at most once, exactly when the stopping reply is a 200 `completed` reply with a first-batch URL, and it uses that URL; a file is written only after a download |
| `Poll.PollForResult` | main.py:72-103 | the `while` loop with its early exits computes exactly `PollSpec` |
| `Poll.FirstTerminalPrefix` | main.py:80-103 | appending replies after a terminal one does not move the first terminal index |
| `Poll.PollIgnoresLaterReplies` | main.py:90-103 | once the poller has stopped, replies after the stopping one change nothing: terminal states are final |
| `Poll.PollAfterWait` | main.py:98-100 | a leading waiting reply costs one query and one wait; the poller then goes on with the rest of the trace |
| `Submit.ExpectedRun` | main.py:62-70 | a poll happens exactly when the upload reply is 202 with a `request_id`, and it polls that id; any other code is the error outcome with no query, no download and no file; 202 without an id aborts; a file is written exactly when the download made is answered 200, at the `.html` target, with `content.html` or empty content |
| `Submit.CallUpstageApi` | main.py:44-70 | the task computes exactly `ExpectedRun` |
| `Submit.WrittenExactly` | main.py:62-108 | end to end, a file is written if and only if all of these hold: the upload is accepted with an id; the first terminal status reply is `completed` with a first-batch URL; the download of that URL answers 200 |
| `Submit.HelloScenario` | main.py:105-133 | a job that completes after one pending reply, with `content.html` = `<p>hello</p>`, writes exactly `<p>hello</p>` to `output_data/doc.pdf_parsed.html` after two queries and one wait |
| `Submit.CorruptFileScenario` | main.py:95-97 | a `failed` reply with message `corrupt file` ends with that remote failure, one query and no download |
| `Batch.RegularFiles` | main.py:33 | the filtered file list is no longer than the listing |
| `Batch.RegularFilesMembers` | main.py:33 | a name is kept if and only if some listing entry of that name is a regular file |
| `Batch.RegularFilesAppend` | main.py:33 | the filter distributes over concatenation, so listing order is kept |
| `Batch.RegularFilesDistinct` | main.py:33 | distinct names in the listing stay distinct after filtering |
| `Batch.ScheduledJobs` | main.py:36-39 | exactly one job per file, in the same order, with that file's input and output paths |
| `Batch.BackgroundTasks.AddTask` | main.py:39 | appends the job to the task list |
| `Batch.ParseDocuments` | main.py:27-41 | the task list gains exactly `Schedule(listing)`: one task per regular file, in listing order; the reply is `Processing initiated` |
| `Batch.ScheduledPaths` | main.py:36-39 | the k-th scheduled task reads `input_data/<name>` and writes `output_data/<name>_parsed.html`, where name is the k-th regular file |
| `Batch.DistinctFinalTargets` | main.py:36-39 | with distinct listed names, no two scheduled tasks write the same file |
| `Batch.OutputStore.Save` | main.py:128-129 | opening in `w` mode replaces earlier content of that path and touches no other path |
| `Batch.RunJob` | main.py:128-130 | a task run gives `ExpectedRun` for its output path; the store changes, at the written path only, exactly when the outcome is `Written` |

## Left out

- FastAPI routing, the `/` redirect, the Pydantic models and the `uvicorn` start-up (main.py:1-28, 135-137): web-framework wiring.
- `requests.post`/`requests.get`, the bearer headers, the multipart form fields and `response.json()`: network I/O. A body that is not JSON, or a field of an unexpected JSON type, is not modelled.
- `os.getenv`, `os.listdir`/`os.path.isfile` and `open(input_file, "rb")`: environment and filesystem I/O. The listing is an input sequence of entries. A file that cannot be opened is not modelled.
- The `aiofiles` write is modelled as a `Written` outcome (path and content), applied to an `OutputStore` map by `RunJob`. Write errors are not modelled.
- `BackgroundTasks` execution order, `async`/`await` and `time.sleep(5)`: scheduling and concurrency. A wait is a counter. Tasks run one at a time in `RunJob`, with no interleaving.
- `print` logging, including the response text of the error branches.
- `Poll.PollSpec`: the source loop is unbounded. The model reads a finite trace and reports `StillPolling` when the trace ends before any terminal reply.
- `Paths.Join`: models `posixpath.join` only. Windows path rules are not modelled.
- A missing `batches` key and an empty `batches` list are represented the same way. Both raise in the source, and both give `Aborted`.
- `main.py` contains no document splitting, so none is modelled.
- Exceptions raised by the HTTP calls (a connection error, say) and hangs of a call with no timeout are not modelled: every call returns a reply. `TransportError` covers only a non-200 status reply.
- A task that raises (`Aborted`) is assumed not to stop the tasks scheduled after it: `RunJob` runs each task on its own, while FastAPI runs background tasks one after another, so an exception there also skips the later ones.
- The uniqueness of `request_id` across jobs is a promise of the remote service, not of this code, so it is not modelled.
