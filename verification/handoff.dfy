/** The job message is the one contract between the web application, which
    writes `${id},${url}` (web/src/actions/submission.ts), and the worker,
    which splits it at the comma (queue/src/main.py). */
module Handoff {
  import opened Base
  import Text
  import Worker
  import WebSubmission

  /** The worker recovers the submission key and the image URL from the job
      exactly when the URL has no comma; a URL with one makes the split
      fail, and the job is never processed. */
  lemma {:induction false} JobMessageParses(id: nat, url: string)
    ensures Worker.ParseBody(WebSubmission.JobMessage(id, url)).Ok? <==> ',' !in url
    ensures ',' !in url ==> Worker.ParseBody(WebSubmission.JobMessage(id, url)) == Ok((Text.Decimal(id), url))
  {
    var m := WebSubmission.JobMessage(id, url);
    Text.DecimalHasNoComma(id);
    if ',' !in url {
      Worker.ParseBodyRoundTrip(Text.Decimal(id), url);
    } else {
      CountConcat(Text.Decimal(id) + ",", url);
      CountConcat(Text.Decimal(id), ",");
      assert Text.Count(url, ',') > 0;
    }
  }

  /** The id text the worker forwards names the same submission key. */
  lemma ForwardedIdIsKey(id: nat, url: string)
    requires ',' !in url
    ensures var parsed := Worker.ParseBody(WebSubmission.JobMessage(id, url));
      parsed.Ok? && Text.AllDigits(parsed.value.0) && Text.DecimalValue(parsed.value.0) == id
  {
    JobMessageParses(id, url);
    Text.DecimalRoundTrip(id);
  }

  lemma {:induction false} CountConcat(a: string, b: string)
    ensures Text.Count(a + b, ',') == Text.Count(a, ',') + Text.Count(b, ',')
    decreases |a|
  {
    if |a| > 0 {
      assert (a + b)[1..] == a[1..] + b;
      CountConcat(a[1..], b);
    } else {
      assert a + b == b;
    }
  }
}
