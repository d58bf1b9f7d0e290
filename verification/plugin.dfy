/**
 * The plugin object and its entry points: the manual submit handler, the
 * publish hook, the dashboard data handler and the key handler, over the
 * state they read and change — the two stored keys, the per-post publish
 * locks, the log table, and the requests sent to the outside world.
 */
module Plugin {

  import opened Wrappers
  import opened Text
  import opened Channels
  import opened Logs
  import opened Submission

  /** `wp_send_json_success($data)` / `wp_send_json_error($data)`. */
  datatype JsonReply = JsonSuccess(data: Option<string>) | JsonError(data: Option<string>)

  const EmptyUrlsMsg := "URL 为空"
  const InvalidKeyMsg := "API Key 无效或无法连接 Bing 服务器"

  /** How long a publish lock (`sg_bing_lock_<id>`) lives, in seconds. */
  const LockSeconds: int := 30

  /**
   * The publish lock of post `id` is still live at time `now`: it was set
   * and its expiry has not passed (a transient expires once the clock is
   * past its timeout).
   */
  predicate LockLive(locks: map<int, int>, id: int, now: int) {
    id in locks && now <= locks[id]
  }

  /** What `ajax_get_data` sends back. */
  datatype Dashboard = Dashboard(logs: seq<LogRecord>, stats: Stats, quota: QuotaPanel,
                                 currentPage: int, totalPages: nat, totalItems: nat)

  class BingExport {
    /** Option `sgbing_api_key`; None when it was never set or was deleted. */
    var apiKey: Option<string>
    /** Option `sgbing_indexnow_key`. */
    var indexNowKey: Option<string>
    /** The live and expired publish locks: post id to expiry time. */
    var locks: map<int, int>
    /** The rows of the log table, in insertion order. */
    var logs: seq<LogRecord>
    /** Every request sent to Bing or IndexNow so far, in order. */
    ghost var sent: seq<Request>

    /** Every stored URL and message is at most 500 characters long, as `log_transaction` cuts them. */
    predicate Valid()
      reads this
    {
      forall i :: 0 <= i < |logs| ==> |logs[i].url| <= MaxText && |logs[i].msg| <= MaxText
    }

    constructor (apiKey: Option<string>, indexNowKey: Option<string>)
      ensures this.apiKey == apiKey && this.indexNowKey == indexNowKey
      ensures locks == map[] && logs == [] && sent == []
      ensures Valid()
    {
      this.apiKey := apiKey;
      this.indexNowKey := indexNowKey;
      locks := map[];
      logs := [];
      sent := [];
    }

    // -------------------------------------------------------------------------
    // The outbound calls

    /** `call_bing_api`: one POST to the batch endpoint with `key`. */
    method CallBingApi(urls: seq<string>, key: string, reply: HttpReply) returns (r: BingResult)
      modifies this`sent
      ensures sent == old(sent) + [BingSubmit(key, urls)]
      ensures r == BingApiResult(reply)
    {
      sent := sent + [BingSubmit(key, urls)];
      r := BingApiResult(reply);
    }

    /** `submit_to_indexnow`: one POST when an IndexNow key is stored, none otherwise. */
    method SubmitToIndexNow(urls: seq<string>, reply: HttpReply) returns (r: IndexNowResult)
      modifies this`sent
      ensures sent == old(sent) + IndexNowRequests(indexNowKey, urls)
      ensures r == IndexNowResultOf(indexNowKey, reply)
    {
      sent := sent + IndexNowRequests(indexNowKey, urls);
      r := IndexNowResultOf(indexNowKey, reply);
    }

    /** `fetch_quota`: one GET of the quota endpoint with `key`. */
    method FetchQuota(key: string, reply: QuotaReply) returns (r: QuotaResult)
      modifies this`sent
      ensures sent == old(sent) + [QuotaQuery(key)]
      ensures r == FetchQuotaResult(reply)
    {
      sent := sent + [QuotaQuery(key)];
      r := FetchQuotaResult(reply);
    }

    /** `log_transaction`: appends one row, URL and message cut to 500 characters. */
    method LogTransaction(url: string, status: Status, msg: string, via: Method, now: int)
      requires Valid()
      modifies this`logs
      ensures logs == old(logs) + [Row(now, url, status, msg, via)]
      ensures Valid()
    {
      logs := logs + [Row(now, url, status, msg, via)];
    }

    // -------------------------------------------------------------------------
    // ajax_manual_submit

    /**
     * The URL list of a manual submission: each line trimmed, the lines PHP
     * considers empty dropped, the others sanitized, in order.
     */
    static method CollectUrls(raw: string, sanitize: string -> string) returns (urls: seq<string>)
      ensures urls == ManualUrls(raw, sanitize)
    {
      var lines := SplitLines(raw);
      urls := [];
      var i := 0;
      while i < |lines|
        invariant 0 <= i <= |lines|
        invariant urls == KeptUrls(TrimAll(lines[..i]), sanitize)
      {
        var u := Trim(lines[i]);
        if !PhpEmpty(u) {
          urls := urls + [sanitize(u)];
        }
        KeptUrlsStep(lines, i, sanitize);
        i := i + 1;
      }
      assert lines[..i] == lines;
    }

    /**
     * The API branch of `ajax_manual_submit`: the Bing API call and, after a
     * fallback code, the IndexNow retry, with the outcome they lead to.
     */
    method ManualApi(urls: seq<string>, key: string, bing: HttpReply, push: HttpReply)
      returns (success: bool, msg: string, via: Method)
      modifies this`sent
      ensures var a := ManualApiAttempt(urls, key, indexNowKey, bing, push);
        success == a.success && msg == a.msg && via == a.via && sent == old(sent) + a.requests
    {
      var res := CallBingApi(urls, key, bing);
      if res.success {
        success, msg, via := true, "OK", Api;
      } else if IsFallbackCode(res.code) {
        success, msg, via := ManualRetry(urls, key, res.code, push);
      } else {
        success, msg, via := false, res.msg, Api;
      }
    }

    /** The IndexNow retry of `ajax_manual_submit` after the API failed with `code`. */
    method ManualRetry(urls: seq<string>, key: string, code: nat, push: HttpReply)
      returns (success: bool, msg: string, via: Method)
      modifies this`sent
      ensures var a := ManualFallback(urls, key, indexNowKey, code, push);
        success == a.success && msg == a.msg && via == a.via && sent == old(sent) + IndexNowRequests(indexNowKey, urls)
    {
      var inRes := SubmitToIndexNow(urls, push);
      if inRes.success {
        success, msg, via := true, "API Err " + NatToString(code) + " -> IndexNow OK", ApiToIndexNow;
      } else {
        success, msg, via := false, "API " + NatToString(code) + " & IndexNow Fail: " + inRes.msg, ApiAndIndexNowFail;
      }
    }

    /** The channel decision of `ajax_manual_submit`, with the calls it makes. */
    method ManualChannel(urls: seq<string>, channel: Option<string>, bing: HttpReply, push: HttpReply)
      returns (success: bool, msg: string, via: Method)
      modifies this`sent
      ensures var a := ManualAttempt(urls, channel, apiKey, indexNowKey, bing, push);
        success == a.success && msg == a.msg && via == a.via && sent == old(sent) + a.requests
    {
      if channel == Some("indexnow") {
        var res := SubmitToIndexNow(urls, push);
        success := res.success;
        msg := if !PhpEmpty(res.msg) then res.msg else if success then "OK" else "Unknown Error";
        via := IndexNow;
      } else if !Truthy(apiKey) {
        var res := SubmitToIndexNow(urls, push);
        success := res.success;
        msg := NoApiKeyPrefix + res.msg;
        via := ApiToIndexNow;
      } else {
        success, msg, via := ManualApi(urls, apiKey.value, bing, push);
      }
    }

    /** One `log_transaction` per URL, all with the same outcome. */
    method LogBatch(urls: seq<string>, status: Status, msg: string, via: Method, now: int)
      requires Valid()
      modifies this`logs
      ensures Valid()
      ensures logs == old(logs) + BatchRows(urls, now, status, msg, via)
    {
      var i := 0;
      while i < |urls|
        invariant 0 <= i <= |urls|
        invariant Valid()
        invariant logs == old(logs) + BatchRows(urls[..i], now, status, msg, via)
      {
        LogTransaction(urls[i], status, msg, via, now);
        assert urls[..i + 1][..i] == urls[..i];
        i := i + 1;
      }
      assert urls[..i] == urls;
    }

    /**
     * `ajax_manual_submit`: an empty URL list is refused before anything is
     * sent or logged. Otherwise the outcome is the one `ManualAttempt`
     * describes, reached with its requests; one row per URL is logged with
     * that outcome, and the reply is a success exactly when the outcome is.
     */
    method ManualSubmit(raw: string, channel: Option<string>, sanitize: string -> string,
                        bing: HttpReply, push: HttpReply, now: int) returns (resp: JsonReply)
      requires Valid()
      modifies this`logs, this`sent
      ensures Valid()
      ensures ManualUrls(raw, sanitize) == [] ==>
        resp == JsonError(Some(EmptyUrlsMsg)) && logs == old(logs) && sent == old(sent)
      ensures var urls := ManualUrls(raw, sanitize);
        urls != [] ==>
          var a := ManualAttempt(urls, channel, apiKey, indexNowKey, bing, push);
          && sent == old(sent) + a.requests
          && logs == old(logs) + BatchRows(urls, now, StatusOf(a.success), a.msg, a.via)
          && resp == (if a.success then JsonSuccess(Some(a.msg)) else JsonError(Some(a.msg)))
    {
      var urls := CollectUrls(raw, sanitize);
      if urls == [] {
        resp := JsonError(Some(EmptyUrlsMsg));
        return;
      }
      var success, msg, via := ManualChannel(urls, channel, bing, push);
      LogBatch(urls, StatusOf(success), msg, via, now);
      resp := if success then JsonSuccess(Some(msg)) else JsonError(Some(msg));
    }

    // -------------------------------------------------------------------------
    // auto_submit_post

    /** The API branch of `auto_submit_post`, with the calls it makes. */
    method AutoApi(url: string, key: string, bing: HttpReply, push: HttpReply)
      returns (status: Status, msg: string, via: Method)
      modifies this`sent
      ensures var a := AutoApiAttempt(url, key, indexNowKey, bing, push);
        status == StatusOf(a.success) && msg == a.msg && via == a.via && sent == old(sent) + a.requests
    {
      via := Api;
      var res := CallBingApi([url], key, bing);
      if res.success {
        status, msg := Success, "Auto Publish (API)";
      } else if IsFallbackCode(res.code) {
        var inRes := SubmitToIndexNow([url], push);
        via := IndexNow;
        if inRes.success {
          status, msg := Success, "API Err " + NatToString(res.code) + " -> IndexNow OK";
        } else {
          status, msg := Failed, "API " + NatToString(res.code) + " & IndexNow Fail: " + inRes.msg;
        }
      } else {
        status, msg := Failed, "API Fail: " + res.msg;
      }
    }

    /** The submission of `auto_submit_post`, with the calls it makes. */
    method AutoSubmit(url: string, bing: HttpReply, push: HttpReply)
      returns (status: Status, msg: string, via: Method)
      modifies this`sent
      ensures var a := AutoAttempt(url, apiKey, indexNowKey, bing, push);
        status == StatusOf(a.success) && msg == a.msg && via == a.via && sent == old(sent) + a.requests
    {
      if Truthy(apiKey) {
        status, msg, via := AutoApi(url, apiKey.value, bing, push);
      } else {
        var res := SubmitToIndexNow([url], push);
        via := IndexNow;
        status := if res.success then Success else Failed;
        msg := if res.success then "Auto Publish (IndexNow)" else res.msg;
      }
    }

    /**
     * `auto_submit_post`: does nothing unless the post goes to "publish" and
     * its lock is not live; otherwise sets the lock for 30 seconds, submits
     * the permalink as `AutoAttempt` describes and logs exactly one row.
     */
    method AutoSubmitPost(newStatus: string, postId: int, permalink: string,
                          bing: HttpReply, push: HttpReply, now: int)
      requires Valid()
      modifies this`locks, this`logs, this`sent
      ensures Valid()
      ensures newStatus != "publish" || LockLive(old(locks), postId, now) ==>
        locks == old(locks) && logs == old(logs) && sent == old(sent)
      ensures newStatus == "publish" && !LockLive(old(locks), postId, now) ==>
        var a := AutoAttempt(permalink, apiKey, indexNowKey, bing, push);
        && locks == old(locks)[postId := now + LockSeconds]
        && sent == old(sent) + a.requests
        && logs == old(logs) + [Row(now, permalink, StatusOf(a.success), a.msg, a.via)]
    {
      if newStatus != "publish" {
        return;
      }
      if LockLive(locks, postId, now) {
        return;
      }
      locks := locks[postId := now + LockSeconds];
      var status, msg, via := AutoSubmit(permalink, bing, push);
      LogTransaction(permalink, status, msg, via, now);
    }

    // -------------------------------------------------------------------------
    // ajax_get_data

    /**
     * `ajax_get_data`: the requested page of the newest-first log with its
     * messages translated, the last day's statistics, the quota panel (one
     * quota query when an API key is stored) and the pagination numbers. The
     * log, the keys and the locks are left as they are.
     */
    method GetData(page: Option<int>, now: int, quotaReply: QuotaReply) returns (d: Dashboard)
      modifies this`sent
      ensures sent == old(sent) + (if Truthy(apiKey) then [QuotaQuery(apiKey.value)] else [])
      ensures d.currentPage == ClampPage(page)
      ensures d.logs == PageOf(logs, ClampPage(page))
      ensures d.totalItems == |logs| && d.totalPages == TotalPages(|logs|)
      ensures d.stats == StatsOf(logs, now)
      ensures d.quota == QuotaPanelOf(apiKey, quotaReply)
    {
      var p := ClampPage(page);
      var rows := PageOf(logs, p);
      var stats := StatsOf(logs, now);
      var quota := QuotaPending;
      if Truthy(apiKey) {
        var q := FetchQuota(apiKey.value, quotaReply);
        if q.QuotaOk? {
          quota := quota.(daily := q.daily, limit := q.limit, text := IntToString(q.daily) + " / " + IntToString(q.limit));
        } else {
          quota := quota.(daily := -1, text := "API Err");
        }
      }
      d := Dashboard(rows, stats, quota, p, TotalPages(|logs|), |logs|);
    }

    // -------------------------------------------------------------------------
    // ajax_handle_key

    /**
     * `ajax_handle_key`: "save" stores the sanitized key only when a quota
     * query with it succeeds, and otherwise leaves the stored key as it was;
     * any other action deletes the stored key.
     */
    method HandleKey(action: Option<string>, rawKey: string, sanitizeText: string -> string,
                     reply: QuotaReply) returns (resp: JsonReply)
      modifies this`apiKey, this`sent
      ensures action == Some("save") ==>
        var key := sanitizeText(rawKey);
        && sent == old(sent) + [QuotaQuery(key)]
        && (FetchQuotaResult(reply).QuotaOk? ==> apiKey == Some(key) && resp == JsonSuccess(None))
        && (FetchQuotaResult(reply).QuotaFailed? ==> apiKey == old(apiKey) && resp == JsonError(Some(InvalidKeyMsg)))
      ensures action != Some("save") ==>
        apiKey == None && sent == old(sent) && resp == JsonSuccess(None)
    {
      if action == Some("save") {
        var key := sanitizeText(rawKey);
        var check := FetchQuota(key, reply);
        if check.QuotaOk? {
          apiKey := Some(key);
          resp := JsonSuccess(None);
        } else {
          resp := JsonError(Some(InvalidKeyMsg));
        }
      } else {
        apiKey := None;
        resp := JsonSuccess(None);
      }
    }
  }

  /**
   * Two publish events for the same post within the lock's lifetime submit
   * the post at most once. When no lock is live at the first event, that
   * event submits and sets the lock, and the second finds it still live.
   * When one is, the first does nothing and the second submits only if the
   * old lock has run out by then. The stored keys are not touched.
   */
  method PublishTwice(p: BingExport, postId: int, permalink: string,
                      bing: HttpReply, push: HttpReply, t1: int, t2: int)
    requires p.Valid()
    requires t1 <= t2 <= t1 + LockSeconds
    modifies p
    ensures p.Valid()
    ensures p.apiKey == old(p.apiKey) && p.indexNowKey == old(p.indexNowKey)
    ensures |p.logs| <= |old(p.logs)| + 1
    ensures var a := AutoAttempt(permalink, old(p.apiKey), old(p.indexNowKey), bing, push);
      !LockLive(old(p.locks), postId, t1) ==>
        && p.locks == old(p.locks)[postId := t1 + LockSeconds]
        && p.sent == old(p.sent) + a.requests
        && p.logs == old(p.logs) + [Row(t1, permalink, StatusOf(a.success), a.msg, a.via)]
    ensures var a := AutoAttempt(permalink, old(p.apiKey), old(p.indexNowKey), bing, push);
      LockLive(old(p.locks), postId, t1) ==>
        || (p.locks == old(p.locks) && p.sent == old(p.sent) && p.logs == old(p.logs))
        || (&& p.locks == old(p.locks)[postId := t2 + LockSeconds]
            && p.sent == old(p.sent) + a.requests
            && p.logs == old(p.logs) + [Row(t2, permalink, StatusOf(a.success), a.msg, a.via)])
    ensures var a := AutoAttempt(permalink, old(p.apiKey), old(p.indexNowKey), bing, push);
      || (p.sent == old(p.sent) && p.logs == old(p.logs))
      || (p.sent == old(p.sent) + a.requests
          && (p.logs == old(p.logs) + [Row(t1, permalink, StatusOf(a.success), a.msg, a.via)]
              || p.logs == old(p.logs) + [Row(t2, permalink, StatusOf(a.success), a.msg, a.via)]))
  {
    ghost var before := |p.logs|;
    p.AutoSubmitPost("publish", postId, permalink, bing, push, t1);
    ghost var mid := |p.logs|;
    p.AutoSubmitPost("publish", postId, permalink, bing, push, t2);
    if mid != before {
      // the first event logged, so it set the lock that the second one finds
      assert |p.logs| == mid;
    }
  }
}
