/**
 * The submission policy of the two entry points, as functions of their
 * inputs: which URLs a manual request carries, which channel is used, when
 * the IndexNow fallback is taken, and the one status/message/method triple
 * that every log row of the batch shares.
 */
module Submission {

  import opened Wrappers
  import opened Text
  import opened Channels
  import opened Logs

  /**
   * The outcome of one submission, computed once for the whole batch, with
   * the requests sent to reach it, in order.
   */
  datatype Attempt = Attempt(success: bool, msg: string, via: Method, requests: seq<Request>)

  function StatusOf(success: bool): Status {
    if success then Success else Failed
  }

  /** A request to the Bing API is among `rs`. */
  ghost predicate CallsBing(rs: seq<Request>) {
    exists i :: 0 <= i < |rs| && rs[i].BingSubmit?
  }

  /** An IndexNow push is among `rs`. */
  ghost predicate PushesIndexNow(rs: seq<Request>) {
    exists i :: 0 <= i < |rs| && rs[i].IndexNowPush?
  }

  // ---------------------------------------------------------------------------
  // Manual submission: the URL list

  /** Every textarea line passed through `trim`. */
  function TrimAll(lines: seq<string>): (r: seq<string>)
    ensures |r| == |lines|
    ensures forall i :: 0 <= i < |lines| ==> r[i] == Trim(lines[i])
  {
    if lines == [] then [] else TrimAll(lines[..|lines| - 1]) + [Trim(lines[|lines| - 1])]
  }

  /**
   * The URL list built from the trimmed lines: each one PHP does not consider
   * `empty` (that is, other than "" and "0"), passed through the URL
   * sanitizer, in order.
   */
  function KeptUrls(trimmed: seq<string>, sanitize: string -> string): (urls: seq<string>)
    ensures |urls| <= |trimmed|
  {
    if trimmed == [] then []
    else
      var last := trimmed[|trimmed| - 1];
      KeptUrls(trimmed[..|trimmed| - 1], sanitize) + (if !PhpEmpty(last) then [sanitize(last)] else [])
  }

  /**
   * The URL list is empty exactly when every trimmed line is "" or "0"; every
   * other line contributes its sanitized text, and nothing else is in the
   * list.
   */
  lemma {:induction false} KeptUrlsSpec(trimmed: seq<string>, sanitize: string -> string)
    ensures KeptUrls(trimmed, sanitize) == [] <==> forall i :: 0 <= i < |trimmed| ==> PhpEmpty(trimmed[i])
    ensures forall i :: 0 <= i < |trimmed| && !PhpEmpty(trimmed[i]) ==> sanitize(trimmed[i]) in KeptUrls(trimmed, sanitize)
    ensures forall u :: u in KeptUrls(trimmed, sanitize) ==>
      exists i :: 0 <= i < |trimmed| && !PhpEmpty(trimmed[i]) && u == sanitize(trimmed[i])
  {
    if trimmed != [] {
      var n := |trimmed| - 1;
      var init := trimmed[..n];
      var last := trimmed[n];
      KeptUrlsSpec(init, sanitize);
      var urls := KeptUrls(trimmed, sanitize);
      var before := KeptUrls(init, sanitize);
      var added := if !PhpEmpty(last) then [sanitize(last)] else [];
      assert urls == before + added;
      assert forall i :: 0 <= i < n ==> init[i] == trimmed[i];
      forall u | u in urls ensures exists i :: 0 <= i < |trimmed| && !PhpEmpty(trimmed[i]) && u == sanitize(trimmed[i]) {
        if u in before {
          var i :| 0 <= i < n && !PhpEmpty(init[i]) && u == sanitize(init[i]);
          assert trimmed[i] == init[i];
        } else {
          assert u in added;
          assert !PhpEmpty(trimmed[n]) && u == sanitize(trimmed[n]);
        }
      }
    }
  }

  /** Reading one more line adds its sanitized text, unless it trims to "" or "0". */
  lemma KeptUrlsStep(lines: seq<string>, i: nat, sanitize: string -> string)
    requires i < |lines|
    ensures var u := Trim(lines[i]);
      KeptUrls(TrimAll(lines[..i + 1]), sanitize)
        == KeptUrls(TrimAll(lines[..i]), sanitize) + (if !PhpEmpty(u) then [sanitize(u)] else [])
  {
    assert lines[..i + 1][..i] == lines[..i];
    var t := TrimAll(lines[..i + 1]);
    assert t == TrimAll(lines[..i]) + [Trim(lines[i])];
    assert t[..|t| - 1] == TrimAll(lines[..i]);
  }

  /** The URL list of a manual submission, from the raw textarea text. */
  function ManualUrls(raw: string, sanitize: string -> string): seq<string>
  {
    KeptUrls(TrimAll(SplitLines(raw)), sanitize)
  }

  /** Every line trims to "" or "0", so none gives a URL. */
  predicate AllBlank(lines: seq<string>) {
    forall i :: 0 <= i < |lines| ==> PhpEmpty(Trim(lines[i]))
  }

  /**
   * The URL list, in terms of the textarea's lines: it is empty exactly when
   * every line trims to "" or "0"; every other line contributes its trimmed,
   * sanitized text; nothing else is in it.
   */
  lemma LineUrlsSpec(lines: seq<string>, sanitize: string -> string)
    ensures KeptUrls(TrimAll(lines), sanitize) == [] <==> AllBlank(lines)
    ensures forall i :: 0 <= i < |lines| && !PhpEmpty(Trim(lines[i])) ==>
      sanitize(Trim(lines[i])) in KeptUrls(TrimAll(lines), sanitize)
    ensures forall u :: u in KeptUrls(TrimAll(lines), sanitize) ==>
      exists i :: 0 <= i < |lines| && !PhpEmpty(Trim(lines[i])) && u == sanitize(Trim(lines[i]))
  {
    var trimmed := TrimAll(lines);
    var urls := KeptUrls(trimmed, sanitize);
    KeptUrlsSpec(trimmed, sanitize);
    assert (forall i :: 0 <= i < |trimmed| ==> PhpEmpty(trimmed[i]))
       <==> (forall i :: 0 <= i < |lines| ==> PhpEmpty(Trim(lines[i])));
    forall u | u in urls
      ensures exists i :: 0 <= i < |lines| && !PhpEmpty(Trim(lines[i])) && u == sanitize(Trim(lines[i]))
    {
      var i :| 0 <= i < |trimmed| && !PhpEmpty(trimmed[i]) && u == sanitize(trimmed[i]);
      assert trimmed[i] == Trim(lines[i]);
    }
  }

  /** What one textarea line adds to the URL list: its trimmed, sanitized text, unless that is "" or "0". */
  function LineUrl(line: string, sanitize: string -> string): seq<string> {
    var u := Trim(line);
    if PhpEmpty(u) then [] else [sanitize(u)]
  }

  /** Trimming works line by line. */
  lemma TrimAllAppend(a: seq<string>, b: seq<string>)
    ensures TrimAll(a + b) == TrimAll(a) + TrimAll(b)
  {
    var l, r := TrimAll(a + b), TrimAll(a) + TrimAll(b);
    assert |l| == |r|;
    forall i | 0 <= i < |l| ensures l[i] == r[i] {
      if i < |a| {
        assert (a + b)[i] == a[i];
      } else {
        assert (a + b)[i] == b[i - |a|];
      }
    }
  }

  /** The list built from two runs of lines is the first run's list followed by the second's. */
  lemma {:induction false} KeptUrlsAppend(a: seq<string>, b: seq<string>, sanitize: string -> string)
    ensures KeptUrls(a + b, sanitize) == KeptUrls(a, sanitize) + KeptUrls(b, sanitize)
  {
    if b == [] {
      assert a + b == a;
    } else {
      var n := |b| - 1;
      assert (a + b)[..|a + b| - 1] == a + b[..n];
      assert (a + b)[|a + b| - 1] == b[n];
      KeptUrlsAppend(a, b[..n], sanitize);
    }
  }

  /**
   * The URL list is exactly the lines' contributions in order: two runs of
   * lines give the first run's URLs followed by the second's, and a single
   * line gives `LineUrl`. Duplicate lines give duplicate URLs.
   */
  lemma LineUrlsAppend(a: seq<string>, b: seq<string>, sanitize: string -> string)
    ensures KeptUrls(TrimAll(a + b), sanitize) == KeptUrls(TrimAll(a), sanitize) + KeptUrls(TrimAll(b), sanitize)
  {
    TrimAllAppend(a, b);
    KeptUrlsAppend(TrimAll(a), TrimAll(b), sanitize);
  }

  lemma LineUrlsSingle(line: string, sanitize: string -> string)
    ensures KeptUrls(TrimAll([line]), sanitize) == LineUrl(line, sanitize)
  {
    assert TrimAll([line]) == [Trim(line)];
    assert [Trim(line)][..0] == [];
  }

  /**
   * The same, for the lines of the raw textarea text: the list is empty
   * exactly when every line trims to "" or "0", every other line's
   * sanitized text is in it, and nothing else is.
   */
  lemma ManualUrlsSpec(raw: string, sanitize: string -> string)
    ensures ManualUrls(raw, sanitize) == [] <==> AllBlank(SplitLines(raw))
    ensures forall i :: 0 <= i < |SplitLines(raw)| && !PhpEmpty(Trim(SplitLines(raw)[i])) ==>
      sanitize(Trim(SplitLines(raw)[i])) in ManualUrls(raw, sanitize)
    ensures forall u :: u in ManualUrls(raw, sanitize) ==>
      exists i :: 0 <= i < |SplitLines(raw)| && !PhpEmpty(Trim(SplitLines(raw)[i])) && u == sanitize(Trim(SplitLines(raw)[i]))
  {
    var lines := SplitLines(raw);
    assert ManualUrls(raw, sanitize) == KeptUrls(TrimAll(lines), sanitize);
    LineUrlsSpec(lines, sanitize);
  }

  /**
   * Reading the textarea line by line: the first line, up to a "\n",
   * contributes its URL ahead of the rest's, in order and with repetitions.
   */
  lemma ManualUrlsFirstLine(first: string, rest: string, sanitize: string -> string)
    requires NoBreak(first)
    ensures ManualUrls(first + "\n" + rest, sanitize) == LineUrl(first, sanitize) + ManualUrls(rest, sanitize)
  {
    SplitLinesFirst(first, rest);
    LineUrlsAppend([first], SplitLines(rest), sanitize);
    LineUrlsSingle(first, sanitize);
  }

  /** A textarea holding one line gives that line's URL, if any. */
  lemma ManualUrlsSingleLine(line: string, sanitize: string -> string)
    requires NoBreak(line)
    ensures ManualUrls(line, sanitize) == LineUrl(line, sanitize)
  {
    SplitLinesSingle(line);
    LineUrlsSingle(line, sanitize);
  }

  // ---------------------------------------------------------------------------
  // Manual submission: the channel decision

  const NoApiKeyPrefix := "No API Key -> IndexNow: "

  /**
   * The IndexNow retry after a Bing API failure with code `code`: one
   * IndexNow attempt; its success gives API->IndexNow with a message naming
   * the code, its failure gives API&IndexNow Fail with a message naming the
   * code and IndexNow's reason. The API call comes first in the requests.
   */
  function ManualFallback(urls: seq<string>, apiKey: string, indexNowKey: Option<string>,
                          code: nat, push: HttpReply): (a: Attempt)
    ensures a.requests == [BingSubmit(apiKey, urls)] + IndexNowRequests(indexNowKey, urls)
    ensures a.success == IndexNowResultOf(indexNowKey, push).success
    ensures a.via == (if a.success then ApiToIndexNow else ApiAndIndexNowFail)
    ensures Contains(a.msg, NatToString(code))
    ensures !a.success ==> Contains(a.msg, IndexNowResultOf(indexNowKey, push).msg)
  {
    var res := IndexNowResultOf(indexNowKey, push);
    var c := NatToString(code);
    var requests := [BingSubmit(apiKey, urls)] + IndexNowRequests(indexNowKey, urls);
    if res.success then
      ContainsInfix("API Err ", c, " -> IndexNow OK");
      Attempt(true, "API Err " + c + " -> IndexNow OK", ApiToIndexNow, requests)
    else
      FailureMsgNamesBoth("API ", c, " & IndexNow Fail: ", res.msg);
      Attempt(false, "API " + c + " & IndexNow Fail: " + res.msg, ApiAndIndexNowFail, requests)
  }

  /** A message "<a><code><b><reason>" names both the code and the reason. */
  lemma FailureMsgNamesBoth(a: string, code: string, b: string, reason: string)
    ensures Contains(a + code + b + reason, code)
    ensures Contains(a + code + b + reason, reason)
  {
    ContainsInfix(a, code, b + reason);
    assert a + code + b + reason == a + code + (b + reason);
    ContainsInfix(a + code + b, reason, "");
    assert a + code + b + reason + "" == a + code + b + reason;
  }

  /**
   * The API branch of `ajax_manual_submit` (an API key is configured): one
   * Bing API call; on 200 a success with method API; on a fallback code the
   * IndexNow retry; on any other code a failure with method API and the
   * API's own message, without trying IndexNow.
   */
  function ManualApiAttempt(urls: seq<string>, apiKey: string, indexNowKey: Option<string>,
                            bing: HttpReply, push: HttpReply): (a: Attempt)
    ensures CallsBing(a.requests) && a.requests[0] == BingSubmit(apiKey, urls)
    ensures a.via != IndexNow
    ensures BingApiResult(bing).success ==> a == Attempt(true, "OK", Api, [BingSubmit(apiKey, urls)])
    ensures var api := BingApiResult(bing);
      !api.success && IsFallbackCode(api.code) ==> a == ManualFallback(urls, apiKey, indexNowKey, api.code, push)
    ensures var api := BingApiResult(bing);
      !api.success && !IsFallbackCode(api.code) ==> a == Attempt(false, api.msg, Api, [BingSubmit(apiKey, urls)])
  {
    var api := BingApiResult(bing);
    var a :=
      if api.success then Attempt(true, "OK", Api, [BingSubmit(apiKey, urls)])
      else if IsFallbackCode(api.code) then ManualFallback(urls, apiKey, indexNowKey, api.code, push)
      else Attempt(false, api.msg, Api, [BingSubmit(apiKey, urls)]);
    assert a.requests[0] == BingSubmit(apiKey, urls);
    a
  }

  /**
   * With an IndexNow key stored, the API path pushes to IndexNow exactly when
   * the Bing API failed with a fallback code, and then exactly once: the
   * requests are the API call alone, or the API call and one push.
   */
  lemma ManualRetriesIff(urls: seq<string>, apiKey: string, indexNowKey: Option<string>,
                         bing: HttpReply, push: HttpReply)
    requires Truthy(indexNowKey)
    ensures var a := ManualApiAttempt(urls, apiKey, indexNowKey, bing, push);
      var api := BingApiResult(bing);
      && (PushesIndexNow(a.requests) <==> !api.success && IsFallbackCode(api.code))
      && |a.requests| == (if !api.success && IsFallbackCode(api.code) then 2 else 1)
  {
    var a := ManualApiAttempt(urls, apiKey, indexNowKey, bing, push);
    var api := BingApiResult(bing);
    if !api.success && IsFallbackCode(api.code) {
      assert a.requests[1].IndexNowPush?;
    } else {
      assert a.requests == [BingSubmit(apiKey, urls)];
    }
  }

  /** The outcome of `ajax_manual_submit` for a non-empty URL list. */
  function ManualAttempt(urls: seq<string>, channel: Option<string>, apiKey: Option<string>,
                         indexNowKey: Option<string>, bing: HttpReply, push: HttpReply): Attempt
  {
    if channel == Some("indexnow") then
      var res := IndexNowResultOf(indexNowKey, push);
      var msg := if !PhpEmpty(res.msg) then res.msg else if res.success then "OK" else "Unknown Error";
      Attempt(res.success, msg, IndexNow, IndexNowRequests(indexNowKey, urls))
    else if !Truthy(apiKey) then
      var res := IndexNowResultOf(indexNowKey, push);
      Attempt(res.success, NoApiKeyPrefix + res.msg, ApiToIndexNow, IndexNowRequests(indexNowKey, urls))
    else ManualApiAttempt(urls, apiKey.value, indexNowKey, bing, push)
  }

  /**
   * Channel "indexnow" makes one IndexNow attempt, recorded as IndexNow. Any
   * other channel without an API key makes one IndexNow attempt, recorded as
   * API->IndexNow with its message prefixed "No API Key -> IndexNow: ". Only
   * the API channel with a key calls the Bing API.
   */
  lemma ManualAttemptSpec(urls: seq<string>, channel: Option<string>, apiKey: Option<string>,
                          indexNowKey: Option<string>, bing: HttpReply, push: HttpReply)
    ensures var a := ManualAttempt(urls, channel, apiKey, indexNowKey, bing, push);
      && (a.via == IndexNow <==> channel == Some("indexnow"))
      && (channel == Some("indexnow") ==>
            a.requests == IndexNowRequests(indexNowKey, urls) && a.success == IndexNowResultOf(indexNowKey, push).success)
      && (channel != Some("indexnow") && !Truthy(apiKey) ==>
            && a.via == ApiToIndexNow
            && a.requests == IndexNowRequests(indexNowKey, urls)
            && a.success == IndexNowResultOf(indexNowKey, push).success
            && StartsWith(a.msg, NoApiKeyPrefix))
      && (CallsBing(a.requests) <==> channel != Some("indexnow") && Truthy(apiKey))
      && (channel != Some("indexnow") && Truthy(apiKey) ==>
            a == ManualApiAttempt(urls, apiKey.value, indexNowKey, bing, push))
  {
  }

  // ---------------------------------------------------------------------------
  // Automatic submission on publish

  /**
   * The IndexNow retry of `auto_submit_post` after a Bing API failure with
   * code `code`: recorded as IndexNow whatever its outcome, with a message
   * naming the code and, on failure, IndexNow's reason.
   */
  function AutoFallback(url: string, apiKey: string, indexNowKey: Option<string>,
                        code: nat, push: HttpReply): (a: Attempt)
    ensures a.via == IndexNow
    ensures a.requests == [BingSubmit(apiKey, [url])] + IndexNowRequests(indexNowKey, [url])
    ensures a.success == IndexNowResultOf(indexNowKey, push).success
    ensures Contains(a.msg, NatToString(code))
    ensures !a.success ==> Contains(a.msg, IndexNowResultOf(indexNowKey, push).msg)
  {
    var res := IndexNowResultOf(indexNowKey, push);
    var c := NatToString(code);
    var requests := [BingSubmit(apiKey, [url])] + IndexNowRequests(indexNowKey, [url]);
    if res.success then
      ContainsInfix("API Err ", c, " -> IndexNow OK");
      Attempt(true, "API Err " + c + " -> IndexNow OK", IndexNow, requests)
    else
      FailureMsgNamesBoth("API ", c, " & IndexNow Fail: ", res.msg);
      Attempt(false, "API " + c + " & IndexNow Fail: " + res.msg, IndexNow, requests)
  }

  /**
   * The API branch of `auto_submit_post`: on 200 a success recorded as API;
   * on a fallback code the IndexNow retry; on any other code a failure
   * recorded as API, with the API's message after "API Fail: ".
   */
  function AutoApiAttempt(url: string, apiKey: string, indexNowKey: Option<string>,
                          bing: HttpReply, push: HttpReply): (a: Attempt)
    ensures CallsBing(a.requests) && a.requests[0] == BingSubmit(apiKey, [url])
    ensures BingApiResult(bing).success ==>
      a == Attempt(true, "Auto Publish (API)", Api, [BingSubmit(apiKey, [url])])
    ensures var api := BingApiResult(bing);
      !api.success && IsFallbackCode(api.code) ==> a == AutoFallback(url, apiKey, indexNowKey, api.code, push)
    ensures var api := BingApiResult(bing);
      !api.success && !IsFallbackCode(api.code) ==>
        a == Attempt(false, "API Fail: " + api.msg, Api, [BingSubmit(apiKey, [url])])
  {
    var api := BingApiResult(bing);
    var a :=
      if api.success then Attempt(true, "Auto Publish (API)", Api, [BingSubmit(apiKey, [url])])
      else if IsFallbackCode(api.code) then AutoFallback(url, apiKey, indexNowKey, api.code, push)
      else Attempt(false, "API Fail: " + api.msg, Api, [BingSubmit(apiKey, [url])]);
    assert a.requests[0] == BingSubmit(apiKey, [url]);
    a
  }

  /**
   * The outcome of `auto_submit_post` for the permalink of a newly published
   * post: the Bing API when an API key is configured, IndexNow otherwise.
   */
  function AutoAttempt(url: string, apiKey: Option<string>, indexNowKey: Option<string>,
                       bing: HttpReply, push: HttpReply): Attempt
  {
    if Truthy(apiKey) then AutoApiAttempt(url, apiKey.value, indexNowKey, bing, push)
    else
      var res := IndexNowResultOf(indexNowKey, push);
      Attempt(res.success, if res.success then "Auto Publish (IndexNow)" else res.msg, IndexNow,
              IndexNowRequests(indexNowKey, [url]))
  }

  /**
   * The automatic path uses the Bing API exactly when an API key is stored,
   * with the same fallback codes as the manual path; whenever IndexNow is the
   * channel used, fallback included, the method recorded is IndexNow, and
   * the API is the only other method it records.
   */
  lemma AutoAttemptSpec(url: string, apiKey: Option<string>, indexNowKey: Option<string>,
                        bing: HttpReply, push: HttpReply)
    ensures var a := AutoAttempt(url, apiKey, indexNowKey, bing, push);
      && (a.via == Api || a.via == IndexNow)
      && (a.via == IndexNow <==>
            !Truthy(apiKey) || (!BingApiResult(bing).success && IsFallbackCode(BingApiResult(bing).code)))
      && (CallsBing(a.requests) <==> Truthy(apiKey))
      && (!Truthy(apiKey) ==>
            a.requests == IndexNowRequests(indexNowKey, [url]) && a.success == IndexNowResultOf(indexNowKey, push).success)
      && (Truthy(apiKey) ==>
            var api := BingApiResult(bing);
            && a.requests == [BingSubmit(apiKey.value, [url])]
                 + (if !api.success && IsFallbackCode(api.code) then IndexNowRequests(indexNowKey, [url]) else [])
            && (a.success <==> api.success || (IsFallbackCode(api.code) && IndexNowResultOf(indexNowKey, push).success))
            && (!api.success && IsFallbackCode(api.code) ==> Contains(a.msg, NatToString(api.code))))
  {
  }

  /**
   * For one URL, with or without an API key, the automatic path reaches
   * the same verdict with the same requests as the manual one; the
   * two differ in the method they record for a fallback (IndexNow versus
   * API->IndexNow or API&IndexNow Fail) and in their messages.
   */
  lemma AutoMatchesManual(url: string, apiKey: Option<string>, indexNowKey: Option<string>,
                          bing: HttpReply, push: HttpReply)
    ensures var m := ManualAttempt([url], None, apiKey, indexNowKey, bing, push);
      var a := AutoAttempt(url, apiKey, indexNowKey, bing, push);
      && a.success == m.success
      && a.requests == m.requests
      && (a.via == IndexNow <==> m.via in {ApiToIndexNow, ApiAndIndexNowFail})
      && (a.via == Api <==> m.via == Api)
  {
    var api := BingApiResult(bing);
    if !api.success && IsFallbackCode(api.code) {
      assert IndexNowResultOf(indexNowKey, push).success ==> api.success || IsFallbackCode(api.code);
    }
  }

  // ---------------------------------------------------------------------------
  // The log rows of a batch

  /**
   * The rows a batch appends: one per URL, in order, all with the batch's
   * status, message and method.
   */
  function BatchRows(urls: seq<string>, now: int, status: Status, msg: string, via: Method): (rows: seq<LogRecord>)
    ensures |rows| == |urls|
    ensures forall k :: 0 <= k < |urls| ==> rows[k] == Row(now, urls[k], status, msg, via)
  {
    if urls == [] then []
    else BatchRows(urls[..|urls| - 1], now, status, msg, via) + [Row(now, urls[|urls| - 1], status, msg, via)]
  }
}
