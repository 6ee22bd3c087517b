# Seen crawl engine — a Dafny model

This project models the core of the Seen crawler (Python, asyncio): the per-URL worker
step of `Spider.work`, the session set-up in `Spider.__init__`, `get_host`, the parser
pipeline (`BaseParser`, `Parser`, `ReParser`, `get_urls`, `analyze_response`), item
extraction (`BaseItem` metaclass, `Item.__init__`, `Item.save`), fetch normalisation
(`fetch_content`) and the browser's empty-page sentinel.

Modules, one per source file or collaborator:

- `Spiders` (`spider.dfy`, seen/spider.py): `GetHost` with the exact semantics of the two
  regular-expression searches (including `.` not matching a line break); a pure
  specification `Step` of one iteration of `work` over a `Frontier` value (queue, unfinished
  task count, `seen_url`, `error_urls`); the `Spider` class whose `Work` method performs
  that iteration on its fields and is proved equal to `Step`; `Crawl`, the `crawl` loop as
  repeated sequential steps until `join()` would return.
- `WorkQueues` (`work_queue.dfy`): the part of `asyncio.Queue` the spider relies on
  (`put_nowait`, `get`, `task_done`, `join`'s counter) as a class.
- `Parsers` (`parser.dfy`, seen/parser.py): parsers as values, the OR gate over the
  rules, the default `href` rule as a concrete scanner, `Analyze` and the method
  `AnalyzeResponse` that constructs the item object.
- `Items` (`item.dfy`, seen/item.py): the metaclass loop `CollectSelectors`, the `Item`
  class whose constructor fills `result` field by field, and the fold `Extract` it is proved
  against.
- `Fetch` (`fetch.dfy`, seen/fetch.py) and `BrowserResponses` (`browser_response.dfy`,
  seen/browser_response.py): pure dispatch and records.
- `Strings`, `Wrappers`: substring search and `Option`.

External capabilities are parameters: the HTTP session is a pair of functions from URL
to reply, one per fetch attempt (`network(i)`); `Selector.get_select`, `html.unescape`,
`re.match` and `re.findall` for caller-supplied patterns are fields of `Items.Markup`
and `Parsers.Env`; the iteration order of a Python `set` is a function `order`.

Behaviour of the code worth knowing, which the model follows:

- `any([])` is false (seen/parser.py:36), so a parser built without a rule, such as
  `Parser(item=TestItem)` in tests/test_parser.py:27, never constructs or saves an item in
  `analyze_response` (`Parsers.EmptyRulesNeverSave`).
- tests/test_parser.py:34-37 passes a base URL to `get_urls` and expects resolved URLs, but
  `get_urls` (seen/parser.py:30-32) takes only the text and resolves nothing: relative hrefs
  are returned as written (`Parsers.DefaultUrlsAreHrefValues`).
- Nothing in `work` keeps `seen_url` and `error_urls` disjoint (seen/spider.py:61, 100, 104):
  a URL that exhausted its tries and is met again is fetched again and, on success, ends in
  both (`Spiders.FailedUrlCanLaterSucceed`).
- tests/test_item.py imports `BinItem` and builds items with `isJson=True`; seen/item.py
  defines neither, so the model has no binary or JSON item. An exception raised by `save`
  is not caught anywhere in `work` (seen/spider.py:92-95).

## Model

| member | source | states |
|---|---|---|
| `Spiders.Spider.constructor` | seen/spider.py:35-44 | a string root is enqueued once, an iterable of roots root by root in order; each enqueued root is one unfinished task; both URL sets start empty |
| `Spiders.GetHost` | seen/spider.py:46-54 | the host never contains '/' or a line break, and is empty when the URL has no "://" |
| `Spiders.SearchUpToSlash` | seen/spider.py:47 | a match of `://(.*?)/` yields a group free of '/' and line breaks, and exists only after some "://" |
| `Spiders.GetHostOfOneLine` | seen/spider.py:46-54 | for a URL without line breaks, the host is the text after the first "://" up to the next '/', or the rest of the URL when no '/' follows, or empty without "://" |
| `Spiders.HttpsHost` | seen/spider.py:46-54 | for `https://` followed by a host part without '/' and then nothing or a path starting with '/', the host is that host part |
| `Spiders.NoColonNoHost` | seen/spider.py:46-54 | a URL without ':' has the empty host |
| `Spiders.GetHostWithPath` | seen/spider.py:46-54 | `https://test.com/a` has host `test.com` |
| `Spiders.GetHostWithoutPath` | seen/spider.py:46-54 | `https://test.com` has host `test.com` |
| `Spiders.GetHostWithoutScheme` | seen/spider.py:46-54 | `test.com/a` has the empty host |
| `Spiders.Try` | seen/spider.py:87 | one `fetch_content(url, self.session, ...)` call with no method, on the session of that try (characterised by `Fetch.SpiderFetchIsGet`) |
| `Spiders.Retry` | seen/spider.py:86-91 | at most `max_tries` fetches; stops at the first response that is not `None`, every earlier try failed; `None` only when all `max_tries` tries failed |
| `Spiders.FetchWithRetries` | seen/spider.py:86-95 | the retry loop makes exactly the fetches `Retry` describes, keeps the first response that is not `None`, and collects every parser's URLs from it in parser order; nothing when all tries failed |
| `Spiders.Spider.Work` | seen/spider.py:56-109 | one iteration of `work` leaves the spider in exactly the state `Step` describes and keeps every queued URL one unfinished task, calling `task_done` once on every path |
| `Spiders.StepBookkeeping` | seen/spider.py:59-109 | a step dequeues the head URL, appends what it found, changes the unfinished count by `-1 + found`, keeps queue and count in balance, and only grows `seen_url` and `error_urls`, by at most that URL |
| `Spiders.ScreenedBeforeFetch` | seen/spider.py:61-84 | a URL passes the screening (reaches the retry loop) iff it is not seen, contains "http", and (with a non-empty `url_limit`) has a non-empty host listed there; a seen URL is dropped; a dropped URL makes no fetch, enqueues nothing and changes neither set |
| `Spiders.HttpSubstringAndEmptyLimit` | seen/spider.py:66-84 | a URL without the substring "http" is never fetched; with an empty `url_limit` no host check is made |
| `Spiders.RetryProtocol` | seen/spider.py:86-104 | exhaustion iff every one of the `max_tries` tries failed, and then the URL goes to `error_urls` only and nothing is enqueued (with zero fetches when `max_tries` is 0); on success the first successful try is used, the URL is marked seen and the parsers' findings are enqueued |
| `Spiders.RunParsers` | seen/spider.py:93-94 | `urls = await parser(response)` for every parser, in parser order: one analysis per parser |
| `Spiders.ParseAll` | seen/spider.py:92-95 | the parser loop returns each parser's URLs in parser order, as `Flatten` of their analyses |
| `Spiders.FlattenMembers` | seen/spider.py:92-95 | a URL is in the extended list iff some parser returned it |
| `Spiders.FoundUrlsAreEnqueued` | seen/spider.py:92-107 | on success every URL any parser returned is enqueued and nothing else, and the unfinished count grows by the sum of the parsers' set sizes less one |
| `Spiders.Spider.PutAll` | seen/spider.py:106-107 | the new URLs are appended in order, one unfinished task each |
| `Spiders.JoinWaitsForSpawnedUrl` | seen/spider.py:104-119 | a root whose step spawns one URL leaves one unfinished task, and only the child's step brings the count to zero |
| `Spiders.FailedUrlCanLaterSucceed` | seen/spider.py:61-104 | a URL whose tries failed and that is dequeued again is fetched again and can end in both `error_urls` and `seen_url` |
| `Spiders.DefaultRootIsDropped` | seen/spider.py:15-69 | the default root `''` is enqueued once and dropped as not an http URL |
| `Spiders.Spider.Crawl` | seen/spider.py:114-122 | the spider ends in exactly the state `Run` gives for the number of steps taken; it stops early only when the queue's unfinished count is zero (when `join()` returns); the spider stays balanced and both URL sets only grow |
| `Spiders.Run` | seen/spider.py:114-122 | the frontier after `k` sequential iterations of `work`, unchanged once the queue is empty; queue and unfinished count stay in balance |
| `Spiders.RunOnlyGrows` | seen/spider.py:100-104 | over any number of steps `seen_url` and `error_urls` only grow |
| `Spiders.Step` | seen/spider.py:59-109 | one iteration of `work` on the head of the queue: the screening verdict, the retry outcome, the parsers' analyses, the URLs enqueued and the new frontier (its properties are the lemmas below) |
| `Spiders.Screen` | seen/spider.py:61-84 | the three filters in source order: already seen, no "http", and with a non-empty `url_limit` an empty host or a host not listed |
| `Spiders.Seeds` | seen/spider.py:38-44 | a string root is one URL; an iterable of roots is its URLs in order |
| `Spiders.Flatten` | seen/spider.py:92-95 | `new_urls.extend(urls)` over the parsers in order, each set listed in the order `order` gives |
| `Strings.Contains` | seen/spider.py:66 | Python's `sub in text`, as the "http" test uses it (characterised by `ContainsIff`) |
| `Strings.ContainsIff` | seen/spider.py:66 | Python's `sub in text` holds iff `sub` occurs at some index of `text` |
| `Parsers.NewBaseParser` | seen/parser.py:14-21 | `rules or []`, the item class as given, and the default href pattern when `url_rule` is `None` |
| `Parsers.NewParser` | seen/parser.py:55-58 | `rule and [lambda x: rule in x]`: no rules for a falsy rule, else one substring rule |
| `Parsers.NewReParser` | seen/parser.py:70-73 | `rule and [lambda x: re.match(rule, x)]`: no rules for a falsy rule, else one `re.match` rule |
| `Parsers.AnyRule` | seen/parser.py:36 | `any([i(text) for i in self.rules])` (characterised by `AnyRuleIff`) |
| `Parsers.FindHrefs` | seen/parser.py:31 | `re.findall` of the default pattern: every non-overlapping match left to right, resuming after each match (characterised by `FindHrefsSound` and `FindHrefsComplete`) |
| `Parsers.FindHrefsComplete` | seen/parser.py:19-31 | every default-rule match from the scan position on that does not start inside an earlier match's URL is returned, with its whole run of URL characters |
| `Parsers.DefaultUrlsIncludeHrefValues` | seen/parser.py:30-32 | with the default rule, `get_urls` returns the value of every `href` that does not start inside the URL of an earlier one, so the first `href` of a page is always returned |
| `Parsers.GetUrls` | seen/parser.py:30-32 | the set of `re.findall(url_rule, text)` results |
| `Parsers.Analyze` | seen/parser.py:34-43 | the URLs of the text, and the extracted record when a rule holds and the parser has an item class |
| `Parsers.AnyRuleIff` | seen/parser.py:36 | the gate holds iff some rule holds; with no rules it never does |
| `Parsers.ParserRule` | seen/parser.py:55-58 | `Parser` with a falsy rule has no rules; with a non-empty rule it matches exactly the texts containing that rule |
| `Parsers.ReParserRule` | seen/parser.py:70-73 | `ReParser` with a falsy rule has no rules; with a non-empty rule it matches exactly the texts `re.match` accepts |
| `Parsers.UrlRuleChoice` | seen/parser.py:19-32 | without `url_rule` the URLs are the default-rule hrefs; with another pattern they are what `re.findall` returns for it |
| `Parsers.FindHrefsSound` | seen/parser.py:19-31 | every URL the default rule extracts is non-empty, has no whitespace, quote, `<` or `>`, is preceded by case-insensitive `href=` and a quote, and ends where the run of such characters ends |
| `Parsers.DefaultUrlsAreHrefValues` | seen/parser.py:30-32 | every URL `get_urls` returns with the default rule is such an href value, taken verbatim from the text |
| `Parsers.AnalyzeResponse` | seen/parser.py:34-43 | constructs and saves an item only when a rule holds and the parser has an item class, and returns `get_urls` of the text either way, as `Analyze` describes |
| `Parsers.AnalyzeSavesOnlyOnMatch` | seen/parser.py:34-43 | an item is saved iff the parser has an item class and some rule holds; the saved record is what the selectors extract from the unescaped text; the URLs are returned whether or not a rule held |
| `Parsers.EmptyRulesNeverSave` | seen/parser.py:36 | with an empty rule list nothing is saved |
| `Parsers.EmptyPageHasNoUrls` | seen/browser_response.py:17-19 | a default-rule parser finds no URL in the empty-page sentinel |
| `Items.SelectorsOf` | seen/item.py:10-15 | the class body's Selector attributes in body order (characterised by `SelectorsOfExact`) |
| `Items.Extract` | seen/item.py:25-33 | the `result` fold over the field table (characterised by `ExtractKeys` and `ExtractField`) |
| `Items.CollectSelectors` | seen/item.py:9-15 | the metaclass loop builds the `selector` table as the class body's Selector attributes in order |
| `Items.SelectorsOfExact` | seen/item.py:10-15 | the table holds exactly the Selector attributes of the body, keyed by attribute name, with no name twice |
| `Items.Item.constructor` | seen/item.py:24-33 | `result` is the fold of the selectors over the unescaped markup, in table order |
| `Items.ExtractKeys` | seen/item.py:25-33 | every key of `result` is a field of the table; an empty table gives an empty `result` |
| `Items.ExtractField` | seen/item.py:26-33 | a field is in `result` iff its selector returned a value, and then it holds exactly that value |
| `Items.SkippedFieldIsIrrelevant` | seen/item.py:28-31 | a selector returning `None` leaves `result` as if the field were not declared |
| `Items.Item.Save` | seen/item.py:35-37 | the default `save` raises `TypeError('No save operation.')` |
| `WorkQueues.WorkQueue.PutNowait` | seen/spider.py:40 | `put_nowait` appends the URL and adds one unfinished task |
| `WorkQueues.WorkQueue.Get` | seen/spider.py:59 | `get` removes the head URL and leaves its task unfinished |
| `WorkQueues.WorkQueue.TaskDone` | seen/spider.py:109 | `task_done` finishes one task and leaves the queue as it was; it needs an unfinished task, as `asyncio.Queue` raises otherwise |
| `WorkQueues.WorkQueue.Joined` | seen/spider.py:119 | `join()` returns when no task is unfinished |
| `Fetch.SelectVerb` | seen/fetch.py:7-8 | GET iff the method is absent, empty or exactly "GET"; any other string, "get" included, selects POST |
| `Fetch.FetchContent` | seen/fetch.py:6-17 | the chosen verb's reply decides: an `ErrorRequest` gives `None`, any other reply is returned unchanged |
| `Fetch.SpiderFetchIsGet` | seen/spider.py:87 | the spider's fetches pass no method, so they are GETs and fail exactly when `session.get` fails |
| `BrowserResponses.EmptyBrowserResponse` | seen/browser_response.py:17-19 | the sentinel keeps the URL, has the text `<html><head></head><body></body></html>` and no cookies |

## Left out

- Concurrency: the worker pool, the `gather`/`cancel` shutdown and the swallowed `CancelledError` of `crawl` (seen/spider.py:111-125) are not modelled; a step is atomic, so the model does not show that two workers can both fetch a URL between the `seen_url` check and `seen_url.add`.
- `Spiders.Spider.Work`: `work_queue.get()` suspends until an item exists; the model takes a step only when the queue is non-empty.
- `Spiders.Spider.Crawl`: runs at most `maxSteps` steps, because a crawl that keeps discovering URLs need not terminate.
- Class-level attributes shared by all `Spider` instances (seen/spider.py:15-33) are fields of one session object; aliasing between two sessions is not modelled.
- Exceptions raised by a parser or by `save` (including the default `save`'s `TypeError`) escape `work`, end that worker and leave its `task_done` uncalled; the model records what is passed to `save` and does not model the raise.
- The HTTP transport (seen/asrequests.py), browser automation (seen/fetch_by_browser.py) and the selectors (seen/selector.py) are not part of this model; their results are parameters. `headers`, `cookies`, `timeout` and `concurrency` only configure those and are not modelled.
- The order in which a Python `set` is iterated is an external function `order`; the lemmas about enqueued URLs assume it lists each element once.
- `re.findall` with a caller-supplied pattern that has several groups returns tuples; the model treats its result as strings.
- `max_tries` is a natural number; a negative value, which `range` treats like 0, is not modelled.
- A `url_limit` or parser `rule` of another type than the model gives it (a plain string used as `url_limit`, an item class passed as `rule`) is not modelled.
- Logging, `BrowserResponse.__repr__`, `Spider.start` and the event loop are not modelled.
