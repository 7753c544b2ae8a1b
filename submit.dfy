/**
 * The per-document task (`call_upstage_api`): upload, and poll only when
 * the upload was accepted with 202 and a request id.
 */
module Submit {
  import opened Wrappers
  import opened Replies
  import opened Paths
  import opened Download
  import opened Poll

  /** The run of one document's pipeline, asked to write `outputFile`,
      against the replies of `svc`. */
  function ExpectedRun(outputFile: string, svc: Service): (r: Run)
    // the 202 gate: a poll happens exactly when the upload is accepted with a request id ...
    ensures r.pollUrl.Some? <==> svc.submit.code == 202 && svc.submit.requestId.Some?
    // ... and it polls that request id
    ensures r.pollUrl.Some? ==> r.pollUrl.value == ResultUrl(svc.submit.requestId.value)
    // any other upload code is the error branch: no query, no download, no file
    ensures svc.submit.code != 202 ==> r == Run(Rejected(svc.submit.code), None, 0, 0, None)
    ensures svc.submit.code == 202 && svc.submit.requestId.None? ==>
      r == Run(Aborted(RequestIdKey), None, 0, 0, None)
    ensures r.queries > 0 || r.downloadUrl.Some? ==> r.pollUrl.Some?
    // a file is written exactly when a download was made and answered 200,
    // at the target with `.html` enforced
    ensures r.outcome.Written? <==> r.downloadUrl.Some? && svc.fetch(r.downloadUrl.value).code == 200
    ensures r.outcome.Written? ==>
      r.outcome.path == WithHtmlSuffix(outputFile) &&
      r.outcome.content == (if HasHtml(svc.fetch(r.downloadUrl.value))
                            then svc.fetch(r.downloadUrl.value).content.value.html.value else "")
  {
    if svc.submit.code != 202 then Run(Rejected(svc.submit.code), None, 0, 0, None)
    else if svc.submit.requestId.None? then Run(Aborted(RequestIdKey), None, 0, 0, None)
    else PollSpec(svc.submit.requestId.value, outputFile, svc.statuses, svc.fetch)
  }

  /** The task as main.py runs it. */
  method CallUpstageApi(outputFile: string, svc: Service) returns (r: Run)
    ensures r == ExpectedRun(outputFile, svc)
  {
    var response := svc.submit;
    if response.code == 202 {
      if response.requestId.None? {
        return Run(Aborted(RequestIdKey), None, 0, 0, None);
      }
      var requestId := response.requestId.value;
      r := PollForResult(requestId, outputFile, svc.statuses, svc.fetch);
    } else {
      r := Run(Rejected(response.code), None, 0, 0, None);
    }
  }

  /** End to end: the pipeline writes a file exactly when the upload is
      accepted, the first terminal status reply is `completed` with a first
      batch URL, and the download of that URL answers 200. */
  lemma WrittenExactly(outputFile: string, svc: Service)
    ensures var r := ExpectedRun(outputFile, svc);
            var k := FirstTerminal(svc.statuses);
            r.outcome.Written? <==>
              svc.submit.code == 202 && svc.submit.requestId.Some? &&
              k < |svc.statuses| && Downloadable(svc.statuses[k]) &&
              svc.fetch(svc.statuses[k].batches[0].downloadUrl.value).code == 200
  {
  }

  /** Scenario: a job completes and its result holds the HTML `<p>hello</p>`;
      the file written holds exactly that HTML. */
  lemma HelloScenario(requestId: string, url: string)
    ensures var svc := Service(
              SubmitReply(202, Some(requestId)),
              [StatusReply(200, Some("pending"), [], None),
               StatusReply(200, Some(Completed), [ResultBatch(Some(url))], None)],
              u => if u == url then DownloadReply(200, Some(ContentBlock(Some("<p>hello</p>"))))
                   else DownloadReply(404, None));
            ExpectedRun("output_data/doc.pdf_parsed", svc)
              == Run(Written("output_data/doc.pdf_parsed.html", "<p>hello</p>"),
                     Some(ResultUrl(requestId)), 2, 1, Some(url))
  {
    var statuses := [StatusReply(200, Some("pending"), [], None),
                     StatusReply(200, Some(Completed), [ResultBatch(Some(url))], None)];
    assert Waiting(statuses[0]) && !Waiting(statuses[1]);
    FirstTerminalUnique(statuses, 1);
    var p := "output_data/doc.pdf_parsed";
    assert p[|p| - |HtmlExt|..][|HtmlExt| - 1] == p[|p| - 1];
    AppendsHtmlOnce(p);
    assert WithHtmlSuffix(p) == "output_data/doc.pdf_parsed.html";
  }

  /** Scenario: the service reports `failed` with message "corrupt file";
      there is no download and no file. */
  lemma CorruptFileScenario(requestId: string, fetch: string -> DownloadReply)
    ensures var svc := Service(
              SubmitReply(202, Some(requestId)),
              [StatusReply(200, Some(Failed), [], Some("corrupt file"))],
              fetch);
            var r := ExpectedRun("output_data/x_parsed", svc);
            r.outcome == RemoteFailed(Some("corrupt file")) && r.downloadUrl == None && r.queries == 1
  {
  }
}
