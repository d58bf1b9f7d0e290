/**
 * The two submission channels and the quota query, reduced to what the
 * plugin does with their answers: the outbound request it sends, and the
 * uniform result (success flag, message, code) it makes of the reply.
 * The HTTP transport itself is outside the model: a reply is an input.
 */
module Channels {

  import opened Wrappers
  import opened Text

  /**
   * What an endpoint answers to one request: a transport-level failure
   * (`is_wp_error`: timeout, DNS or connection failure) with its message, or
   * an HTTP response with its status code.
   */
  datatype HttpReply = TransportError(message: string) | Reply(code: nat)

  /** An outbound request, as the endpoint sees it. */
  datatype Request =
    | BingSubmit(apiKey: string, urls: seq<string>)  // POST .../SubmitUrlbatch?apikey=...
    | IndexNowPush(key: string, urls: seq<string>)   // POST https://api.indexnow.org/indexnow
    | QuotaQuery(apiKey: string)                     // GET .../GetUrlSubmissionQuota?...&apikey=...

  /** The array `call_bing_api` returns. */
  datatype BingResult = BingResult(success: bool, msg: string, code: nat)

  /** The array `submit_to_indexnow` returns. */
  datatype IndexNowResult = IndexNowResult(success: bool, msg: string)

  const NoIndexNowKeyMsg := "无 IndexNow Key"

  // ---------------------------------------------------------------------------
  // Bing Webmaster API

  /**
   * `call_bing_api`: only HTTP 200 is a success; a transport error becomes
   * code 0 with the transport's message; any other status is reported as
   * "Err <code>", from which the code can be read back.
   */
  function BingApiResult(reply: HttpReply): (r: BingResult)
    ensures r.success <==> reply == Reply(200)
    ensures r.success ==> r.code == 200 && r.msg == "OK"
    ensures reply.TransportError? ==> r.code == 0 && r.msg == reply.message
    ensures reply.Reply? ==> r.code == reply.code
    ensures reply.Reply? && !r.success ==> StartsWith(r.msg, "Err ") && ParseNat(r.msg[4..]) == r.code
    ensures reply.Reply? && !r.success ==> r.msg == "Err " + NatToString(reply.code)
  {
    match reply
    case TransportError(m) => BingResult(false, m, 0)
    case Reply(code) =>
      if code == 200 then BingResult(true, "OK", 200)
      else
        var msg := "Err " + NatToString(code);
        ParseNatToString(code);
        assert msg[4..] == NatToString(code);
        BingResult(false, msg, code)
  }

  /**
   * The failure codes after which both submit paths retry through IndexNow:
   * 400 (bad request), 402 (quota exceeded), 429 (rate limited) and 0
   * (transport failure).
   */
  predicate IsFallbackCode(code: nat) {
    code == 400 || code == 402 || code == 429 || code == 0
  }

  // ---------------------------------------------------------------------------
  // IndexNow

  /**
   * The requests `submit_to_indexnow` sends: one push carrying the whole list
   * when an IndexNow key is configured, none otherwise.
   */
  function IndexNowRequests(key: Option<string>, urls: seq<string>): (r: seq<Request>)
    ensures |r| == (if Truthy(key) then 1 else 0)
    ensures Truthy(key) ==> r[0] == IndexNowPush(key.value, urls)
  {
    if Truthy(key) then [IndexNowPush(key.value, urls)] else []
  }

  /**
   * `submit_to_indexnow`: without a key it fails before any request; with
   * one, only HTTP 200 and 202 are a success, a transport error carries its
   * own message and any other status is reported as "IndexNow Err <code>".
   */
  function IndexNowResultOf(key: Option<string>, reply: HttpReply): (r: IndexNowResult)
    ensures !Truthy(key) ==> r == IndexNowResult(false, NoIndexNowKeyMsg)
    ensures r.success <==> Truthy(key) && (reply == Reply(200) || reply == Reply(202))
    ensures r.success ==> r.msg == "OK"
    ensures Truthy(key) && reply.TransportError? ==> r.msg == reply.message
    ensures Truthy(key) && reply.Reply? && !r.success ==>
      StartsWith(r.msg, "IndexNow Err ") && ParseNat(r.msg[13..]) == reply.code
    ensures Truthy(key) && reply.Reply? && !r.success ==> r.msg == "IndexNow Err " + NatToString(reply.code)
  {
    if !Truthy(key) then IndexNowResult(false, NoIndexNowKeyMsg)
    else match reply
      case TransportError(m) => IndexNowResult(false, m)
      case Reply(code) =>
        if code == 200 || code == 202 then IndexNowResult(true, "OK")
        else
          var msg := "IndexNow Err " + NatToString(code);
          ParseNatToString(code);
          assert msg[13..] == NatToString(code);
          IndexNowResult(false, msg)
  }

  // ---------------------------------------------------------------------------
  // Quota

  /**
   * What the quota endpoint answers: a transport error, or a body; `d` is the
   * body's `d.DailyQuota` when the decoded body has a `d` field, None when it
   * has none (including a body that is not JSON). The HTTP status is not
   * looked at.
   */
  datatype QuotaReply = QuotaTransportError | QuotaBody(d: Option<int>)

  /** The array `fetch_quota` returns. */
  datatype QuotaResult = QuotaFailed | QuotaOk(daily: int, limit: int)

  /**
   * `fetch_quota`: a reply without `d` (or no reply) fails; otherwise the
   * remaining daily quota is reported as given and the limit is inferred from
   * it: 10000 when it exceeds 100, 100 otherwise.
   */
  function FetchQuotaResult(reply: QuotaReply): (r: QuotaResult)
    ensures r.QuotaOk? <==> reply.QuotaBody? && reply.d.Some?
    ensures r.QuotaOk? ==> r.daily == reply.d.value
    ensures r.QuotaOk? ==> (r.limit == 10000 <==> r.daily > 100) && (r.limit == 100 <==> r.daily <= 100)
  {
    match reply
    case QuotaTransportError => QuotaFailed
    case QuotaBody(d) =>
      match d
      case None => QuotaFailed
      case Some(daily) => QuotaOk(daily, if daily > 100 then 10000 else 100)
  }

  /** The `quota` object of the dashboard data. */
  datatype QuotaPanel = QuotaPanel(daily: int, limit: int, monthly: string, text: string)

  const QuotaPending := QuotaPanel(0, 100, "-", "检查中...")

  /**
   * The quota part of `ajax_get_data`: without an API key the placeholder
   * (daily 0, limit 100); with one, a successful query shows its numbers as
   * "daily / limit", and a failed one shows daily -1 with "API Err", so that
   * an unreachable service is never displayed as an exhausted quota.
   */
  function QuotaPanelOf(apiKey: Option<string>, reply: QuotaReply): (p: QuotaPanel)
    ensures !Truthy(apiKey) ==> p == QuotaPending
    ensures Truthy(apiKey) && FetchQuotaResult(reply).QuotaFailed? ==> p.daily == -1 && p.limit == 100 && p.text == "API Err"
    ensures Truthy(apiKey) && FetchQuotaResult(reply).QuotaOk? ==>
      var q := FetchQuotaResult(reply);
      p.daily == q.daily && p.limit == q.limit && p.text == IntToString(q.daily) + " / " + IntToString(q.limit)
    ensures p.limit == 100 || p.limit == 10000
  {
    if !Truthy(apiKey) then QuotaPending
    else match FetchQuotaResult(reply)
      case QuotaOk(daily, limit) => QuotaPending.(daily := daily, limit := limit, text := IntToString(daily) + " / " + IntToString(limit))
      case QuotaFailed => QuotaPending.(daily := -1, text := "API Err")
  }
}
