/**
 * The result writer (`download_inference_result`): given the reply to the
 * download request, decide whether a file is written, with what content and
 * under which name.
 */
module Download {
  import opened Wrappers
  import opened Replies
  import opened Paths

  /** Python's `sep.join(parts)`. */
  function JoinWith(sep: string, parts: seq<string>): string {
    if parts == [] then ""
    else if |parts| == 1 then parts[0]
    else parts[0] + sep + JoinWith(sep, parts[1..])
  }

  /** The download reply carries `content.html`. */
  predicate HasHtml(reply: DownloadReply) {
    reply.content.Some? && reply.content.value.html.Some?
  }

  /** What the writer does with a download reply for target `outputFile`. */
  function DownloadSpec(outputFile: string, reply: DownloadReply): (o: Outcome)
    ensures o.Written? <==> reply.code == 200
    ensures !o.Written? ==> o == DownloadFailed(reply.code)
    ensures o.Written? ==> o.path == WithHtmlSuffix(outputFile) && EndsWith(o.path, HtmlExt)
    ensures o.Written? && HasHtml(reply) ==> o.content == reply.content.value.html.value
    ensures o.Written? && !HasHtml(reply) ==> o.content == ""
  {
    if reply.code != 200 then DownloadFailed(reply.code)
    else
      var html := if HasHtml(reply) then reply.content.value.html.value else "";
      Written(WithHtmlSuffix(outputFile), html)
  }

  /** The writer as main.py runs it: the list of HTML parts, the join, and
      the in-place extension of the target name. */
  method DownloadInferenceResult(outputFile: string, reply: DownloadReply) returns (o: Outcome)
    ensures o == DownloadSpec(outputFile, reply)
  {
    if reply.code == 200 {
      var cleanHtmlParts: seq<string> := [];
      if HasHtml(reply) {
        var htmlContent := reply.content.value.html.value;
        if htmlContent !in cleanHtmlParts {
          cleanHtmlParts := cleanHtmlParts + [htmlContent];
        }
      }
      // the de-duplication list never holds more than one part
      assert |cleanHtmlParts| <= 1;
      var cleanHtml := JoinWith("\n", cleanHtmlParts);
      var target := outputFile;
      if !EndsWith(target, HtmlExt) {
        target := target + HtmlExt;
      }
      o := Written(target, cleanHtml);
    } else {
      o := DownloadFailed(reply.code);
    }
  }
}
