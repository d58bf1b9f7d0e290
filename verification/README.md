# Shiguang Bing Export: the submission core

A Dafny model of the submission core of the WordPress plugin class
`SGBing_Pro` (`shiguang-bing-export.php`). The plugin pushes URLs to Bing
through two channels: the Bing Webmaster API (`SubmitUrlbatch`) and
IndexNow. It keeps an append-only log table of every submission and shows
that log, 24-hour statistics and the remaining Bing quota on a dashboard.

The model covers:

- the manual submit handler (`ajax_manual_submit`). It splits the textarea
  into URLs, chooses a channel, falls back from the API to IndexNow on
  codes 400, 402, 429 and 0, and logs one row per URL;
- the publish hook (`auto_submit_post`), with its 30-second per-post lock;
- how the replies of the two channels and of the quota endpoint are turned
  into results (`call_bing_api`, `submit_to_indexnow`, `fetch_quota`);
- the log store (`log_transaction`) and the read-time message mapping
  (`translate_error`);
- the paging, statistics and quota panel of the dashboard handler
  (`ajax_get_data`);
- saving and deleting the API key (`ajax_handle_key`).

Layout, one module per file:

- `wrappers.dfy` holds `Option`.
- `text.dfy` holds the PHP string behaviour relied on: `empty()`, `trim`,
  `preg_split` on line breaks, `strpos`, `substr` and integer rendering.
- `channels.dfy` holds the channel and quota results.
- `logs.dfy` holds log rows, `translate_error`, ordering, paging and
  statistics.
- `submission.dfy` holds the two submission paths as functions of their
  inputs.
- `plugin.dfy` holds the class `BingExport`. Its fields are the stored
  keys, the publish locks, the log table and a ghost trace of every request
  sent out. Its methods follow the PHP handlers statement by statement, and
  each one is proved to reach the state and reply that the functions
  describe.

An HTTP exchange is an input to the model. `HttpReply` and `QuotaReply`
are what the endpoint answers. The request itself is appended to the
`sent` trace. So "no channel is contacted" and "IndexNow is called once"
are statements about that trace.

Some small definitions have no row of their own. Their meaning is stated by
the contracts that use them:

- `Text.PhpEmpty` is PHP's `empty()` on a string ("" and "0"). See the
  URL-list rows.
- `Text.Truthy` is the truthiness of a `get_option` value (lines 543, 598
  and 633). See `ManualAttemptSpec`, `AutoAttemptSpec` and
  `IndexNowResultOf`.
- `Channels.IsFallbackCode` is the test on codes 400, 402, 429 and 0
  (lines 557 and 607). See `ManualApiAttempt`, `ManualRetriesIff`,
  `AutoApiAttempt` and `AutoAttemptSpec`.
- `Plugin.LockLive` is the `get_transient` test on a post's lock (line 588).
  See `AutoSubmitPost` and `PublishTwice`.
- `Submission.LineUrl` is what one textarea line adds to the URL list, and
  `Submission.AllBlank` says that every line trims to "" or "0".
- `Submission.KeptUrls` is the `foreach` filter over trimmed lines (lines
  521-526). See `KeptUrlsSpec`, `KeptUrlsAppend` and `LineUrlsSingle`.
- `Submission.ManualUrls` is the URL list built from the raw textarea text
  (lines 519-526). See `ManualUrlsSpec`, `ManualUrlsFirstLine` and
  `ManualUrlsSingleLine`.
- `Submission.ManualAttempt` is the channel decision of the manual handler
  (lines 530-575). See `ManualAttemptSpec`, `ManualRetriesIff` and
  `AutoMatchesManual`.
- `Submission.AutoAttempt` is the attempt of the publish hook (lines
  592-626). See `AutoAttemptSpec` and `AutoMatchesManual`.

## Model

| member | source | states |
|---|---|---|
| Text.TrimSpec | shiguang-bing-export.php:522 | `trim` returns one contiguous piece of its input. That piece neither starts nor ends with one of " \t\n\r\0\x0B", and everything before and after it is one of those characters. It is empty exactly when the input consists of those characters only |
| Text.TrimIdempotent | shiguang-bing-export.php:522 | trimming twice gives the same result as trimming once |
| Text.SplitLines | shiguang-bing-export.php:519 | splitting on `\r\n|[\r\n]` always yields at least one piece, and no piece contains a line break |
| Text.SplitLinesJoin | shiguang-bing-export.php:519 | joining the pieces with "\n" gives back the input with each separator ("\r\n", "\r", "\n") normalised to "\n", so splitting loses no text |
| Text.SplitLinesSingle | shiguang-bing-export.php:519 | a text without line breaks is a single piece |
| Text.SplitLinesFirst | shiguang-bing-export.php:519 | a break-free line followed by "\n" is the first piece, and the rest of the text splits on its own |
| Text.ContainsAt | shiguang-bing-export.php:660-664 | `strpos($hay, $needle) !== false` holds exactly when the needle occurs in the haystack at some index |
| Text.Truncate | shiguang-bing-export.php:685-687 | `substr($s, 0, n)` has length min(|s|, n) and is a prefix of `s` |
| Text.ParseNatToString | shiguang-bing-export.php:676 | the decimal rendering of a code in "Err {$code}" can be read back as the same code |
| Text.NatToStringInjective | shiguang-bing-export.php:676 | distinct codes give distinct messages |
| Channels.BingApiResult | shiguang-bing-export.php:668-677 | success holds exactly when the reply is HTTP 200. A transport error gives code 0 with the transport's message. Any other status gives exactly "Err " followed by the code's decimal digits, from which the code can be read back |
| Channels.IndexNowRequests | shiguang-bing-export.php:631-657 | `submit_to_indexnow` sends one push with the whole URL list when an IndexNow key is stored, and nothing without one |
| Channels.IndexNowResultOf | shiguang-bing-export.php:631-657 | without a key the result is a failure with "无 IndexNow Key". Success holds exactly when a key is stored and the reply is 200 or 202. A transport error carries its own message; any other status gives exactly "IndexNow Err " followed by the code's decimal digits |
| Channels.FetchQuotaResult | shiguang-bing-export.php:501-514 | the query succeeds exactly when the body has a `d` field. The daily quota is taken as given, and the limit is 10000 exactly when daily > 100 and 100 exactly when daily <= 100 |
| Channels.QuotaPanelOf | shiguang-bing-export.php:475-487 | without an API key the panel is the placeholder (0 / 100, "检查中..."). A failed query shows daily -1 with "API Err", never 0. A successful one shows "daily / limit". The limit is always 100 or 10000 |
| Logs.MethodName | shiguang-bing-export.php:108 | every method string fits the `varchar(20)` column |
| Logs.MethodNameInjective | shiguang-bing-export.php:108 | distinct methods are stored as distinct strings, so a row keeping the method value loses nothing the column holds |
| Logs.Row | shiguang-bing-export.php:679-692 | a logged row carries the given time, status and method. Its url and msg are prefixes of the given ones, exactly 500 characters long when the given text is longer, and unchanged when already that short |
| Logs.TranslateError | shiguang-bing-export.php:659-666 | first-match classification in the order "400", "401", "402", "429", "28". The message is returned unchanged when none of them occurs. The result is the message itself or one of the five display texts |
| Logs.TranslateErrorIdempotent | shiguang-bing-export.php:659-666 | translating a translated message changes nothing, since each display text classifies as itself |
| Logs.InsertByTimeSorted | shiguang-bing-export.php:463 | inserting a row into a newest-first sequence keeps it newest-first |
| Logs.InsertByTimeAdds | shiguang-bing-export.php:463 | inserting a row adds exactly that row to the multiset of rows |
| Logs.ByTimeDesc | shiguang-bing-export.php:463 | `ORDER BY time DESC` gives a permutation of the log, newest first, of the same length |
| Logs.ClampPage | shiguang-bing-export.php:456-457 | the page shown is at least 1. It is the requested page when that is at least 1, and 1 when the page is missing or below 1 |
| Logs.TotalPages | shiguang-bing-export.php:460-461 | `ceil(total / 10)` is the least number of 10-row pages that holds all rows |
| Logs.PageOf | shiguang-bing-export.php:455-463 | a page has at most 10 rows. They are the translated rows at offset (page-1)*10 of the newest-first order. Each is at least as recent as every row on a later page. A page past the last is empty |
| Logs.FirstPageIsNewest | shiguang-bing-export.php:463 | every logged row is either shown on page 1 or no newer than every row shown there |
| Logs.LastDay | shiguang-bing-export.php:473 | the statistics window holds exactly the rows newer than 24 hours before now, each as many times as it is logged, and no others |
| Logs.CountsPartition | shiguang-bing-export.php:473 | every row of a window counts either as success or as failed |
| Logs.StatsOf | shiguang-bing-export.php:473 | total is the size of the 24-hour window. The two SQL sums are NULL exactly when the window is empty, and otherwise success + failed = total with success counting the 'Success' rows |
| Submission.TrimAll | shiguang-bing-export.php:521-522 | each textarea line is trimmed, in order, with none lost |
| Submission.KeptUrlsSpec | shiguang-bing-export.php:521-526 | the URL list is empty exactly when every trimmed line is "" or "0". Every other line's sanitized text is in the list, and nothing else is |
| Submission.KeptUrlsAppend | shiguang-bing-export.php:521-526 | the list built from two runs of trimmed lines is the first run's list followed by the second's, so order and repetitions are kept |
| Submission.TrimAllAppend | shiguang-bing-export.php:521-522 | trimming a run of lines is trimming each part of it |
| Submission.LineUrlsAppend | shiguang-bing-export.php:519-526 | the list for two runs of textarea lines is the first run's list followed by the second's |
| Submission.LineUrlsSingle | shiguang-bing-export.php:521-526 | one line gives its trimmed, sanitized text when that is neither "" nor "0", and nothing otherwise. With `LineUrlsAppend` this fixes the list exactly |
| Submission.LineUrlsSpec | shiguang-bing-export.php:519-526 | the membership statements of `KeptUrlsSpec`, stated over the lines before trimming |
| Submission.ManualUrlsSpec | shiguang-bing-export.php:519-528 | the request is refused for an empty URL list exactly when every line of the raw text trims to "" or "0". Every other line's sanitized text is listed, and every listed URL comes from such a line |
| Submission.ManualUrlsFirstLine | shiguang-bing-export.php:519-526 | the first line of the textarea contributes its URL, if any, ahead of the URLs of the remaining text, in order and with repetitions |
| Submission.ManualUrlsSingleLine | shiguang-bing-export.php:519-526 | a textarea holding one line gives exactly that line's URL, or nothing when it trims to "" or "0" |
| Submission.ManualFallback | shiguang-bing-export.php:557-567 | after a fallback code the API call is followed by exactly the IndexNow requests. Success is IndexNow's success, with method API->IndexNow on success and API&IndexNow Fail on failure. The message names the code and, on failure, IndexNow's reason |
| Submission.ManualApiAttempt | shiguang-bing-export.php:549-572 | with a key, the Bing API is called first. On 200 the outcome is success "OK" with method API. A fallback code leads to the IndexNow retry. Any other code fails with method API and the API's own message, and nothing else is sent |
| Submission.ManualRetriesIff | shiguang-bing-export.php:551-572 | with an IndexNow key stored, IndexNow is pushed to exactly when the API failed with 400, 402, 429 or 0, and then exactly once |
| Submission.ManualAttemptSpec | shiguang-bing-export.php:536-575 | channel "indexnow" makes one IndexNow attempt, recorded as IndexNow. Any other channel without a key makes one IndexNow attempt, recorded as API->IndexNow with its message prefixed "No API Key -> IndexNow: ". The Bing API is called exactly on the API path with a key |
| Submission.AutoFallback | shiguang-bing-export.php:607-616 | after a fallback code the hook records IndexNow whatever the retry's outcome. Success is IndexNow's success, and the message names the code and, on failure, the reason |
| Submission.AutoApiAttempt | shiguang-bing-export.php:598-620 | the Bing API is called first. On 200 the outcome is success "Auto Publish (API)". A fallback code leads to the IndexNow retry. Any other code fails with method API and "API Fail: " before the API's message |
| Submission.AutoAttemptSpec | shiguang-bing-export.php:592-626 | the recorded method is API or IndexNow. It is IndexNow exactly when no key is stored or the API failed with a fallback code. The Bing API is called exactly when a key is stored. The outcome is success exactly when the API succeeded, or the fallback's IndexNow push did |
| Submission.AutoMatchesManual | shiguang-bing-export.php:536-626 | for one URL, with or without an API key, the hook and the manual API path send the same requests and reach the same verdict. The recorded method is API for both or a fallback for both (IndexNow for the hook, API->IndexNow or API&IndexNow Fail for the manual path). The messages are not compared: they differ, e.g. "Auto Publish (API)" against "OK" on success, and "API Fail: " before the API's message against the bare message |
| Submission.BatchRows | shiguang-bing-export.php:577-579 | a batch logs exactly one row per URL, in order, all with the same time, status, message and method |
| Plugin.BingExport.CallBingApi | shiguang-bing-export.php:668-677 | one request to the batch endpoint is sent, and the result is the normalised reply |
| Plugin.BingExport.SubmitToIndexNow | shiguang-bing-export.php:631-657 | one push is sent when a key is stored, none otherwise, and the result is the normalised reply |
| Plugin.BingExport.FetchQuota | shiguang-bing-export.php:501-514 | one quota query is sent, and the result is the classified reply |
| Plugin.BingExport.LogTransaction | shiguang-bing-export.php:679-692 | exactly one row is appended, with url and msg cut to 500 characters. The length invariant of the log is kept |
| Plugin.BingExport.CollectUrls | shiguang-bing-export.php:519-526 | the foreach over the split lines builds exactly the URL list described by `ManualUrls` |
| Plugin.BingExport.ManualApi | shiguang-bing-export.php:549-573 | the statements of the API branch reach the outcome and the requests of `ManualApiAttempt` |
| Plugin.BingExport.ManualRetry | shiguang-bing-export.php:557-567 | the statements of the IndexNow retry send exactly the IndexNow requests and reach the outcome of `ManualFallback` |
| Plugin.BingExport.ManualChannel | shiguang-bing-export.php:536-575 | the statements of the channel decision reach the outcome and the requests of `ManualAttempt` |
| Plugin.BingExport.LogBatch | shiguang-bing-export.php:577-579 | the logging loop appends exactly the rows of `BatchRows` and keeps the length invariant |
| Plugin.BingExport.ManualSubmit | shiguang-bing-export.php:516-582 | an empty URL list is answered "URL 为空" with nothing sent or logged. Otherwise the requests are those of `ManualAttempt`, one row per URL is appended, and the reply is a success exactly when the outcome is |
| Plugin.BingExport.AutoApi | shiguang-bing-export.php:598-620 | the statements of the hook's API branch reach the outcome and the requests of `AutoApiAttempt` |
| Plugin.BingExport.AutoSubmit | shiguang-bing-export.php:592-626 | the statements of the hook reach the outcome and the requests of `AutoAttempt` |
| Plugin.BingExport.AutoSubmitPost | shiguang-bing-export.php:584-629 | nothing changes unless the new status is "publish" and the post's lock is not live. Otherwise the lock is set to expire 30 seconds later, the requests of `AutoAttempt` are sent and exactly one row is appended |
| Plugin.PublishTwice | shiguang-bing-export.php:587-589 | two publish events for one post within 30 seconds submit the post at most once. With no live lock at the first event, exactly that event submits: its attempt's requests are sent, one row stamped with its time is appended, and the lock runs to 30 seconds after it. With a live lock, either nothing changes or only the second event submits, with its time on the row and on the new lock. The stored keys are unchanged |
| Plugin.BingExport.GetData | shiguang-bing-export.php:444-499 | the dashboard holds the clamped page of the translated newest-first log, `ceil(total/10)` pages, the total, the 24-hour statistics and the quota panel. One quota query is sent when a key is stored, and nothing else changes |
| Plugin.BingExport.HandleKey | shiguang-bing-export.php:703-718 | "save" sends one quota query with the sanitized key. It stores the key exactly when the query succeeds, and otherwise keeps the old key and answers "API Key 无效或无法连接 Bing 服务器". Any other action deletes the key |

## Left out

- HTTP transport, JSON encoding and decoding, and the request bodies (`siteUrl`, `host`, `keyLocation`, headers, timeouts). A reply is an input, and a request is recorded by channel, key and URL list only.
- `home_url`, `get_permalink`, `get_option`/`update_option` and the WordPress clock. The stored keys are fields, the permalink is a parameter, and `now` is a parameter.
- `esc_url_raw` and `sanitize_text_field` are function parameters and are not interpreted.
- Nonce and capability checks, and the `exit` inside `wp_send_json_*`. A reply is a `JsonReply` value.
- Logs.Row: PHP's `substr` cuts 500 bytes; the model cuts 500 characters.
- Plugin.BingExport.LogTransaction: a failed `$wpdb->insert` is not modelled. Its return value is ignored by the source, and the model's append always succeeds, so "one row per URL" assumes every insert succeeds.
- Plugin.BingExport.ManualSubmit: the source reads `current_time` once per inserted row. The model gives every row of a batch the same `now`.
- Logs.StatsOf: the source compares log times written with `current_time('mysql')` (site time) against the database's `NOW()`. The model uses one clock for both.
- Logs.ByTimeDesc: MySQL leaves the order of rows with equal times unspecified. The model keeps insertion order among them.
- Channels.FetchQuotaResult: the daily quota is an integer. A `d` object without a numeric `DailyQuota` is not modelled.
- Channels.BingApiResult: the HTTP status is a natural number. A missing or non-numeric status is not modelled.
- Plugin.BingExport.AutoSubmitPost: `old_status` and the post object are not inputs; the post id and permalink are. The lock's transient lives in a map from post id to expiry; object-cache and concurrent-request behaviour are not modelled.
- The `id` column of the log table is not modelled. Rows are kept in insertion order.
- admin.js (browser UI), the sitemap rewrite and XML output, `render_ui`, writing and deleting the IndexNow key file, `install_db` and `on_uninstall` are not part of this model.
