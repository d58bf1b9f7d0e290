/**
 * The submission log table (`{prefix}sgbing_logs`): its rows, how a row is
 * written by `log_transaction`, and the read side of `ajax_get_data`: the
 * page of rows ordered by time descending, the page count, the 24-hour
 * statistics and the message shown for each row (`translate_error`).
 * Times are seconds on one clock.
 */
module Logs {

  import opened Wrappers
  import opened Text

  datatype Status = Success | Failed

  /** The `method` column: how the batch was finally submitted. */
  datatype Method = Api | IndexNow | ApiToIndexNow | ApiAndIndexNowFail

  /** The string stored in the `method` column. */
  function MethodName(m: Method): (r: string)
    ensures |r| <= 20  // the column is varchar(20)
  {
    match m
    case Api => "API"
    case IndexNow => "IndexNow"
    case ApiToIndexNow => "API->IndexNow"
    case ApiAndIndexNowFail => "API&IndexNow Fail"
  }

  /**
   * Distinct methods are stored as distinct strings, so a row that keeps the
   * `Method` value loses nothing the column would hold.
   */
  lemma MethodNameInjective(a: Method, b: Method)
    ensures MethodName(a) == MethodName(b) ==> a == b
  {
  }

  /** One row of the log table (the auto-increment id is left out). */
  datatype LogRecord = LogRecord(time: int, url: string, status: Status, msg: string, via: Method)

  /** The longest url and msg a row keeps. */
  const MaxText: nat := 500

  /**
   * The row `log_transaction` inserts: url and msg cut to their first 500
   * characters, the other columns as given.
   */
  function Row(now: int, url: string, status: Status, msg: string, via: Method): (r: LogRecord)
    ensures r.time == now && r.status == status && r.via == via
    ensures |r.url| <= MaxText && StartsWith(url, r.url) && (|url| <= MaxText ==> r.url == url)
    ensures |r.msg| <= MaxText && StartsWith(msg, r.msg) && (|msg| <= MaxText ==> r.msg == msg)
    ensures |url| > MaxText ==> |r.url| == MaxText
    ensures |msg| > MaxText ==> |r.msg| == MaxText
  {
    LogRecord(now, Truncate(url, MaxText), status, Truncate(msg, MaxText), via)
  }

  // ---------------------------------------------------------------------------
  // translate_error

  const Msg400 := "Err 400: 参数/Quota问题"
  const Msg401 := "Err 401: Key 无效"
  const Msg402 := "Err 402: Quota 用完"
  const Msg429 := "Err 429: 请求太快"
  const MsgTimeout := "连接超时"

  /**
   * The message shown for a stored message: the first of "400", "401",
   * "402", "429" and "28" that occurs in it picks a fixed phrase; a message
   * containing none of them is shown unchanged.
   */
  function TranslateError(msg: string): (r: string)
    ensures Contains(msg, "400") ==> r == Msg400
    ensures !Contains(msg, "400") && Contains(msg, "401") ==> r == Msg401
    ensures !Contains(msg, "400") && !Contains(msg, "401") && Contains(msg, "402") ==> r == Msg402
    ensures !Contains(msg, "400") && !Contains(msg, "401") && !Contains(msg, "402") && Contains(msg, "429") ==> r == Msg429
    ensures (!Contains(msg, "400") && !Contains(msg, "401") && !Contains(msg, "402") && !Contains(msg, "429")
             && Contains(msg, "28")) ==> r == MsgTimeout
    ensures (!Contains(msg, "400") && !Contains(msg, "401") && !Contains(msg, "402") && !Contains(msg, "429")
             && !Contains(msg, "28")) ==> r == msg
    ensures r == msg || r in {Msg400, Msg401, Msg402, Msg429, MsgTimeout}
  {
    if Contains(msg, "400") then Msg400
    else if Contains(msg, "401") then Msg401
    else if Contains(msg, "402") then Msg402
    else if Contains(msg, "429") then Msg429
    else if Contains(msg, "28") then MsgTimeout
    else msg
  }

  /** What the dashboard shows for a stored row: the row with its message translated. */
  function Displayed(r: LogRecord): LogRecord
  {
    r.(msg := TranslateError(r.msg))
  }

  /** Each phrase is its own translation, so translating twice changes nothing. */
  lemma TranslateErrorIdempotent(msg: string)
    ensures TranslateError(TranslateError(msg)) == TranslateError(msg)
  {
    var r := TranslateError(msg);
    if r == Msg400 {
      Fixed400();
    } else if r == Msg401 {
      Fixed401();
    } else if r == Msg402 {
      Fixed402();
    } else if r == Msg429 {
      Fixed429();
    } else if r == MsgTimeout {
      FixedTimeout();
    }
  }

  lemma Fixed400()
    ensures TranslateError(Msg400) == Msg400
  {
    var pre, post := "Err ", ": 参数/Quota问题";
    assert pre + "400" + post == Msg400;
    CodePhrase(pre, "400", post);
  }

  lemma Fixed401()
    ensures TranslateError(Msg401) == Msg401
  {
    var pre, post := "Err ", ": Key 无效";
    assert pre + "401" + post == Msg401;
    CodePhrase(pre, "401", post);
  }

  lemma Fixed402()
    ensures TranslateError(Msg402) == Msg402
  {
    var pre, post := "Err ", ": Quota 用完";
    assert pre + "402" + post == Msg402;
    CodePhrase(pre, "402", post);
  }

  lemma Fixed429()
    ensures TranslateError(Msg429) == Msg429
  {
    var pre, post := "Err ", ": 请求太快";
    assert pre + "429" + post == Msg429;
    CodePhrase(pre, "429", post);
  }

  /** A text whose only digits are one of the four codes is translated by that code. */
  lemma CodePhrase(pre: string, code: string, post: string)
    requires forall i :: 0 <= i < |pre| ==> !IsDigit(pre[i])
    requires forall i :: 0 <= i < |post| ==> !IsDigit(post[i])
    requires code == "400" || code == "401" || code == "402" || code == "429"
    ensures TranslateError(pre + code + post)
      == if code == "400" then Msg400 else if code == "401" then Msg401 else if code == "402" then Msg402 else Msg429
  {
    ContainsInfix(pre, code, post);
    if code != "400" {
      CodeBetween(pre, code, post, "400");
    }
    if code != "401" {
      CodeBetween(pre, code, post, "401");
    }
    if code != "402" {
      CodeBetween(pre, code, post, "402");
    }
  }

  lemma FixedTimeout()
    ensures TranslateError(MsgTimeout) == MsgTimeout
  {
    NoDigits(MsgTimeout, "400");
    NoDigits(MsgTimeout, "401");
    NoDigits(MsgTimeout, "402");
    NoDigits(MsgTimeout, "429");
    NoDigits(MsgTimeout, "28");
  }

  predicate IsDigit(c: char) {
    '0' <= c <= '9'
  }

  /**
   * In a text whose only digits are one code, another code of the same
   * length does not occur.
   */
  lemma CodeBetween(pre: string, code: string, post: string, needle: string)
    requires forall i :: 0 <= i < |pre| ==> !IsDigit(pre[i])
    requires forall i :: 0 <= i < |post| ==> !IsDigit(post[i])
    requires |needle| == |code| >= 1 && forall i :: 0 <= i < |needle| ==> IsDigit(needle[i])
    requires code != needle
    ensures !Contains(pre + code + post, needle)
  {
    var hay := pre + code + post;
    ContainsAt(hay, needle);
    forall i ensures !OccursAt(hay, needle, i) {
      CodeNotAt(pre, code, post, needle, i);
    }
  }

  lemma CodeNotAt(pre: string, code: string, post: string, needle: string, i: int)
    requires forall i :: 0 <= i < |pre| ==> !IsDigit(pre[i])
    requires forall i :: 0 <= i < |post| ==> !IsDigit(post[i])
    requires |needle| == |code| >= 1 && forall i :: 0 <= i < |needle| ==> IsDigit(needle[i])
    requires code != needle
    ensures !OccursAt(pre + code + post, needle, i)
  {
    var hay := pre + code + post;
    var n := |needle|;
    if 0 <= i <= |hay| - n {
      var w := hay[i..i + n];
      if i < |pre| {
        assert w[0] == pre[i];
        assert w[0] != needle[0];
      } else if i + n - 1 >= |pre| + |code| {
        assert w[n - 1] == post[i + n - 1 - |pre| - |code|];
        assert w[n - 1] != needle[n - 1];
      } else {
        assert w == code;
      }
    }
  }

  /** A message without digits contains no status code. */
  lemma NoDigits(hay: string, needle: string)
    requires forall i :: 0 <= i < |hay| ==> !('0' <= hay[i] <= '9')
    requires |needle| >= 1 && '0' <= needle[0] <= '9'
    ensures !Contains(hay, needle)
  {
    ContainsAt(hay, needle);
    assert forall i :: 0 <= i <= |hay| - |needle| ==> hay[i..i + |needle|][0] == hay[i];
  }

  // ---------------------------------------------------------------------------
  // ORDER BY time DESC

  /** Rows ordered by time, most recent first. */
  ghost predicate NewestFirst(s: seq<LogRecord>) {
    forall i, j :: 0 <= i < j < |s| ==> s[i].time >= s[j].time
  }

  /** Puts `r` before the first row that is not more recent than it. */
  function InsertByTime(r: LogRecord, s: seq<LogRecord>): (t: seq<LogRecord>)
    ensures |t| == |s| + 1
    ensures t[0] == r || (s != [] && t[0] == s[0])
  {
    if s == [] || r.time >= s[0].time then [r] + s
    else [s[0]] + InsertByTime(r, s[1..])
  }

  /** Inserting into a newest-first sequence keeps it newest-first. */
  lemma {:induction false} InsertByTimeSorted(r: LogRecord, s: seq<LogRecord>)
    requires NewestFirst(s)
    ensures NewestFirst(InsertByTime(r, s))
  {
    if s != [] && r.time < s[0].time {
      var rest := InsertByTime(r, s[1..]);
      InsertByTimeSorted(r, s[1..]);
      assert rest[0].time <= s[0].time;
      assert forall k :: 0 <= k < |rest| ==> rest[k].time <= s[0].time;
    }
  }

  /** Inserting adds exactly `r` to the rows. */
  lemma {:induction false} InsertByTimeAdds(r: LogRecord, s: seq<LogRecord>)
    ensures multiset(InsertByTime(r, s)) == multiset(s) + multiset{r}
  {
    if s != [] && r.time < s[0].time {
      InsertByTimeAdds(r, s[1..]);
      assert s == [s[0]] + s[1..];
    }
  }

  /**
   * The table's rows in the order `ORDER BY time DESC` returns them: a
   * permutation of the rows, most recent first. MySQL leaves the order of
   * rows with equal times open; this one keeps insertion order among them.
   */
  function ByTimeDesc(s: seq<LogRecord>): (t: seq<LogRecord>)
    ensures NewestFirst(t)
    ensures multiset(t) == multiset(s)
    ensures |t| == |s|
  {
    if s == [] then []
    else
      var rest := ByTimeDesc(s[1..]);
      InsertByTimeSorted(s[0], rest);
      InsertByTimeAdds(s[0], rest);
      assert s == [s[0]] + s[1..];
      InsertByTime(s[0], rest)
  }

  // ---------------------------------------------------------------------------
  // Paging

  const PerPage: nat := 10

  /** The requested page (`intval($_POST['page'])`, 1 when absent), clamped to at least 1. */
  function ClampPage(requested: Option<int>): (p: int)
    ensures p >= 1
    ensures requested.Some? && requested.value >= 1 ==> p == requested.value
    ensures requested.None? || requested.value < 1 ==> p == 1
  {
    match requested
    case None => 1
    case Some(n) => if n < 1 then 1 else n
  }

  /** `ceil(total / 10)`: the fewest pages of ten that hold every row. */
  function TotalPages(total: nat): (n: nat)
    ensures n * PerPage >= total
    ensures n == 0 || (n - 1) * PerPage < total
  {
    (total + PerPage - 1) / PerPage
  }

  /**
   * `LIMIT 10 OFFSET (page-1)*10` over the ordered rows, each shown with its
   * message translated: at most ten rows, those at positions (page-1)*10 and
   * on, every one at least as recent as any row on a later page; a page past
   * the last is empty.
   */
  function PageOf(logs: seq<LogRecord>, page: int): (r: seq<LogRecord>)
    requires page >= 1
    ensures |r| <= PerPage
    ensures var offset := (page - 1) * PerPage;
      |r| == (if offset >= |logs| then 0 else if |logs| - offset < PerPage then |logs| - offset else PerPage)
    ensures forall k :: 0 <= k < |r| ==> r[k] == Displayed(ByTimeDesc(logs)[(page - 1) * PerPage + k])
    ensures forall k, j :: 0 <= k < |r| && page * PerPage <= j < |logs| ==> r[k].time >= ByTimeDesc(logs)[j].time
    ensures page > TotalPages(|logs|) ==> r == []
  {
    var sorted := ByTimeDesc(logs);
    var offset := (page - 1) * PerPage;
    if offset >= |sorted| then []
    else
      var end := if |sorted| - offset < PerPage then |sorted| else offset + PerPage;
      seq(end - offset, k requires 0 <= k < end - offset => Displayed(sorted[offset + k]))
  }

  /**
   * The first page holds the most recent rows: every row is either shown on
   * it or no more recent than any row shown on it.
   */
  lemma FirstPageIsNewest(logs: seq<LogRecord>, x: LogRecord)
    requires x in logs
    ensures var p := PageOf(logs, 1);
      (exists k :: 0 <= k < |p| && p[k] == Displayed(x)) || (forall k :: 0 <= k < |p| ==> p[k].time >= x.time)
  {
    var sorted := ByTimeDesc(logs);
    var p := PageOf(logs, 1);
    assert x in multiset(sorted);
    var j :| 0 <= j < |sorted| && sorted[j] == x;
    if j < PerPage {
      assert p[j] == Displayed(x);
    }
  }

  // ---------------------------------------------------------------------------
  // 24-hour statistics

  const Day: int := 24 * 60 * 60

  /** The rows of the trailing 24 hours (`time > NOW() - INTERVAL 24 HOUR`). */
  function LastDay(logs: seq<LogRecord>, now: int): (w: seq<LogRecord>)
    ensures |w| <= |logs|
    ensures forall r :: r in w <==> r in logs && r.time > now - Day
    ensures forall r :: multiset(w)[r] == if r.time > now - Day then multiset(logs)[r] else 0
  {
    if logs == [] then []
    else
      var rest := LastDay(logs[1..], now);
      assert logs == [logs[0]] + logs[1..];
      assert multiset(logs) == multiset{logs[0]} + multiset(logs[1..]);
      if logs[0].time > now - Day then [logs[0]] + rest else rest
  }

  function CountSuccess(s: seq<LogRecord>): nat {
    if s == [] then 0 else (if s[0].status == Success then 1 else 0) + CountSuccess(s[1..])
  }

  function CountFailed(s: seq<LogRecord>): nat {
    if s == [] then 0 else (if s[0].status != Success then 1 else 0) + CountFailed(s[1..])
  }

  /** Every row is either a success or not. */
  lemma {:induction false} CountsPartition(s: seq<LogRecord>)
    ensures CountSuccess(s) + CountFailed(s) == |s|
  {
    if s != [] {
      CountsPartition(s[1..]);
    }
  }

  /**
   * The `stats` row: COUNT(*) and two SUM(CASE ...) columns. SQL's SUM over
   * no rows is NULL, hence the options.
   */
  datatype Stats = Stats(total: nat, success: Option<nat>, failed: Option<nat>)

  /**
   * The 24-hour statistics: the number of rows of the last day, split into
   * those with status Success and the rest; the two counts add up to the
   * total, and both are NULL exactly when the window is empty.
   */
  function StatsOf(logs: seq<LogRecord>, now: int): (st: Stats)
    ensures st.total == |LastDay(logs, now)|
    ensures st.success.None? <==> st.total == 0
    ensures st.failed.None? <==> st.total == 0
    ensures st.success.GetOr(0) + st.failed.GetOr(0) == st.total
    ensures st.success.GetOr(0) == CountSuccess(LastDay(logs, now))
  {
    var w := LastDay(logs, now);
    CountsPartition(w);
    if w == [] then Stats(0, None, None)
    else Stats(|w|, Some(CountSuccess(w)), Some(CountFailed(w)))
  }
}
