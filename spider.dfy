/** The crawl session: roots seed a FIFO of URLs; each worker step takes one URL, drops
    it when it was already seen, is not an http URL or lies outside the allowed hosts,
    otherwise fetches it with a bounded number of retries, runs every parser on the
    response and enqueues what they found, and marks the URL seen (or failed). */
module Spiders {
  import opened Wrappers
  import Strings
  import Fetch
  import Parsers
  import WorkQueues

  /** `re.search(r'://(.*?)/', url)` from position `p`: the leftmost "://" whose line
      goes on to a '/' wins, and the group is the text up to the first such '/'. */
  function SearchUpToSlash(url: string, p: nat): (r: Option<string>)
    ensures r.Some? ==> '/' !in r.value && '\n' !in r.value
    ensures r.Some? ==> Strings.IndexOf(url, "://", p).Some?
    decreases |url| - p
  {
    match Strings.IndexOf(url, "://", p)
    case None => None
    case Some(s) =>
      var line := url[s + 3..Strings.LineEnd(url, s + 3)];
      match Strings.IndexOf(line, "/", 0)
      case Some(j) => NoSlashBefore(line, j); Some(line[..j])
      case None => SearchUpToSlash(url, s + 1)
  }

  lemma NoSlashBefore(text: string, j: nat)
    requires forall k :: 0 <= k < j ==> !Strings.OccursAt(text, "/", k)
    requires j <= |text|
    ensures '/' !in text[..j]
  {
    forall k | 0 <= k < j ensures text[k] != '/' {
      assert !Strings.OccursAt(text, "/", k);
      assert text[k..k + 1] == [text[k]];
    }
  }

  /** `get_host(url)`: the group of `://(.*?)/` if it matches, else the group of
      `://(.*)`, else the empty string. The host never holds '/' or a line break, and
      it is empty whenever the URL has no "://". */
  function GetHost(url: string): (host: string)
    ensures '/' !in host && '\n' !in host
    ensures !Strings.Contains(url, "://") ==> host == ""
  {
    Strings.ContainsIff(url, "://");
    match SearchUpToSlash(url, 0)
    case Some(h) => h
    case None =>
      match Strings.IndexOf(url, "://", 0)
      case None => ""
      case Some(s) =>
        var line := url[s + 3..Strings.LineEnd(url, s + 3)];
        assert Strings.IndexOf(line, "/", 0).None?;
        NoSlashBefore(line, |line|);
        assert line[..|line|] == line;
        line
  }

  /** The host as described in words: after the first "://", up to the next '/', or to
      the end of the URL when no '/' follows; empty without "://". */
  function HostAfterScheme(url: string): string
  {
    match Strings.IndexOf(url, "://", 0)
    case None => ""
    case Some(s) =>
      var rest := url[s + 3..];
      match Strings.IndexOf(rest, "/", 0)
      case Some(j) => rest[..j]
      case None => rest
  }

  /** For a URL on one line, `get_host` is exactly the host described in words. */
  lemma GetHostOfOneLine(url: string)
    requires '\n' !in url
    ensures GetHost(url) == HostAfterScheme(url)
  {
    match Strings.IndexOf(url, "://", 0)
    case None =>
    case Some(s) =>
      assert Strings.LineEnd(url, s + 3) == |url|;
      var rest := url[s + 3..];
      assert url[s + 3..Strings.LineEnd(url, s + 3)] == rest;
      if Strings.IndexOf(rest, "/", 0).Some? {
        var j := Strings.IndexOf(rest, "/", 0).value;
        assert SearchUpToSlash(url, 0) == Some(rest[..j]);
      } else {
        NoSlashBefore(rest, |rest|);
        assert rest[..|rest|] == rest;
        LaterSchemeNeedsSlash(url, s);
      }
  }

  /** A second "://" after the first one puts a '/' after the first one's "://". */
  lemma LaterSchemeNeedsSlash(url: string, s: nat)
    requires Strings.OccursAt(url, "://", s)
    requires '/' !in url[s + 3..]
    ensures Strings.IndexOf(url, "://", s + 1).None?
  {
    assert url[s + 1] == url[s..s + 3][1] == '/';
    assert url[s + 2] == url[s..s + 3][2] == '/';
    forall t | s + 1 <= t && t + 3 <= |url| ensures !Strings.OccursAt(url, "://", t) {
      if t < s + 3 {
        assert url[t..t + 3][0] == url[t] == '/';
      } else {
        assert url[t + 1] == url[s + 3..][t + 1 - (s + 3)];
        assert url[t..t + 3][1] == url[t + 1] != '/';
      }
    }
  }

  /** An "https://" URL on one line whose host part holds no '/' and is followed by
      nothing or by a path: `get_host` is that host part. */
  lemma HttpsHost(host: string, path: string)
    requires '/' !in host && '\n' !in host && '\n' !in path
    requires path == [] || path[0] == '/'
    ensures GetHost("https://" + host + path) == host
  {
    var url := "https://" + host + path;
    HttpsShape(host, path);
    GetHostOfOneLine(url);
    SchemeAtFive(url);
    FirstSlashEndsHost(host, path);
    assert url[5 + 3..] == host + path;
  }

  lemma HttpsShape(host: string, path: string)
    requires '\n' !in host && '\n' !in path
    ensures var url := "https://" + host + path;
      && |url| >= 8 && url[..8] == "https://" && url[8..] == host + path && '\n' !in url
  {
    var url := "https://" + host + path;
    assert '\n' !in "https://";
    assert url == "https://" + (host + path);
  }

  /** In `host + path` with no '/' in the host, the first '/' starts the path. */
  lemma FirstSlashEndsHost(host: string, path: string)
    requires '/' !in host
    requires path == [] || path[0] == '/'
    ensures path == [] ==> Strings.IndexOf(host + path, "/", 0).None?
    ensures path != [] ==> Strings.IndexOf(host + path, "/", 0) == Some(|host|)
    ensures (host + path)[..|host|] == host
  {
    var rest := host + path;
    forall k | 0 <= k < |host| ensures !Strings.OccursAt(rest, "/", k) {
      assert host[k] in host;
      assert rest[k..k + 1][0] == host[k];
    }
    var r := Strings.IndexOf(rest, "/", 0);
    if path != [] {
      assert rest[|host|..|host| + 1] == [path[0]];
      assert Strings.OccursAt(rest, "/", |host|);
      assert r.Some? && r.value <= |host|;
    } else {
      assert rest == host;
      assert r.None?;
    }
  }

  /** `get_host` on a URL with a path: the host stops at the first '/'. The URL is a
      parameter fixed by `requires` so that the verifier does not unfold `GetHost` on a
      string literal; the same holds for the two examples below. */
  lemma GetHostWithPath(url: string)
    requires url == "https://test.com/a"
    ensures GetHost(url) == "test.com"
  {
    assert url == "https://" + "test.com" + "/a";
    HttpsHost("test.com", "/a");
  }

  /** `get_host` on a URL without a path: the host runs to the end. */
  lemma GetHostWithoutPath(url: string)
    requires url == "https://test.com"
    ensures GetHost(url) == "test.com"
  {
    assert url == "https://" + "test.com" + "";
    HttpsHost("test.com", "");
  }

  /** `get_host` on a URL without "://" is empty. */
  lemma GetHostWithoutScheme(url: string)
    requires url == "test.com/a"
    ensures GetHost(url) == ""
  {
    assert forall k :: 0 <= k < |url| ==> url[k] != ':';
    NoColonNoHost(url);
  }

  /** A URL without ':' has no "://" and so the empty host. */
  lemma NoColonNoHost(url: string)
    requires forall k :: 0 <= k < |url| ==> url[k] != ':'
    ensures GetHost(url) == ""
  {
    forall j | 0 <= j && j + 3 <= |url| ensures !Strings.OccursAt(url, "://", j) {
      assert url[j..j + 3][0] == url[j];
    }
    Strings.ContainsIff(url, "://");
  }

  /** In a URL that starts with "https://", the first "://" is at index 5. */
  lemma SchemeAtFive(url: string)
    requires |url| >= 8 && url[..8] == "https://"
    ensures Strings.IndexOf(url, "://", 0) == Some(5)
  {
    assert url[5..8] == url[..8][5..8] == "://";
    assert Strings.OccursAt(url, "://", 5);
    forall k | 0 <= k < 5 ensures !Strings.OccursAt(url, "://", k) {
      assert url[k] == url[..8][k] == "https://"[k] != ':';
      assert url[k..k + 3][0] == url[k];
    }
  }

  /** `roots`: one URL string, or an iterable of URLs. */
  datatype Roots = Root(url: string) | RootList(urls: seq<string>)

  /** The URLs `__init__` enqueues: a string is enqueued once, as a whole; an iterable
      root by root, in order. */
  function Seeds(roots: Roots): seq<string>
  {
    match roots
    case Root(url) => [url]
    case RootList(urls) => urls
  }

  /** The session's configuration: allowed hosts (empty: any host), fetch attempts per
      URL, and the parsers in the order they run. */
  datatype Config = Config(urlLimit: set<string>, maxTries: nat, parsers: seq<Parsers.Parser>)

  /** The class-level defaults: no host restriction, four tries, no parsers. */
  const DEFAULT_CONFIG: Config := Config({}, 4, [])

  /** The root a spider that does not override `roots` starts from. */
  const DEFAULT_ROOTS: Roots := Root("")

  /** The shared crawl state: the queue's items and unfinished-task count, the URLs
      processed successfully (`seen_url`) and those whose tries ran out (`error_urls`). */
  datatype Frontier = Frontier(queue: seq<string>, unfinished: nat, seen: set<string>, errors: set<string>)

  /** Between steps every queued URL is exactly one unfinished task. */
  predicate Balanced(f: Frontier)
  {
    f.unfinished == |f.queue|
  }

  /** How a step ended: one of the four ways a URL is dropped without a fetch, the
      tries ran out, or the URL was fetched and parsed. */
  datatype Verdict = AlreadySeen | NotHttp | NoHost | OutsideLimit | Exhausted | Finished

  predicate Dropped(v: Verdict)
  {
    v == AlreadySeen || v == NotHttp || v == NoHost || v == OutsideLimit
  }

  /** The checks made before any fetch, in the order `work` makes them: `None` lets the
      URL through. The "http" test is a substring test, not a scheme check. */
  function Screen(config: Config, seen: set<string>, url: string): Option<Verdict>
  {
    if url in seen then Some(AlreadySeen)
    else if !Strings.Contains(url, "http") then Some(NotHttp)
    else if config.urlLimit != {} && GetHost(url) == "" then Some(NoHost)
    else if config.urlLimit != {} && GetHost(url) !in config.urlLimit then Some(OutsideLimit)
    else None
  }

  /** The outcome of the retry loop: the first response obtained, and how many fetches were made. */
  datatype Attempts = Attempts(response: Option<Fetch.Response>, fetches: nat)

  /** The attempt the `i`-th try of `url` makes; `network(i)` is how the session behaves on it. */
  function Try(url: string, network: nat -> Fetch.Session, i: nat): Option<Fetch.Response>
  {
    Fetch.FetchContent(url, network(i), None)
  }

  /** `for i in range(max_tries)` from try `i` on: stop at the first response that is not
      `None`. At most `maxTries` fetches are made, every one before the last failed, and
      the result is `None` only when every try failed. */
  function Retry(url: string, network: nat -> Fetch.Session, maxTries: nat, i: nat): (r: Attempts)
    requires i <= maxTries
    ensures i <= r.fetches <= maxTries
    ensures r.response.None? ==> r.fetches == maxTries
    ensures r.response.Some? ==> i < r.fetches && r.response == Try(url, network, r.fetches - 1)
    ensures forall k :: i <= k < r.fetches - 1 ==> Try(url, network, k).None?
    ensures r.response.None? ==> forall k :: i <= k < maxTries ==> Try(url, network, k).None?
    decreases maxTries - i
  {
    if i == maxTries then Attempts(None, maxTries)
    else
      match Try(url, network, i)
      case Some(response) => Attempts(Some(response), i + 1)
      case None => Retry(url, network, maxTries, i + 1)
  }

  /** What every parser returns for the response, in parser order. */
  function RunParsers(parsers: seq<Parsers.Parser>, response: Fetch.Response, env: Parsers.Env): (analyses: seq<Parsers.Analysis>)
    ensures |analyses| == |parsers|
  {
    seq(|parsers|, j requires 0 <= j < |parsers| => Parsers.Analyze(parsers[j], response.text, env))
  }

  /** `new_urls.extend(urls)` for each parser's set in turn; the order in which a Python
      set is iterated is given by `order`. */
  function Flatten(analyses: seq<Parsers.Analysis>, order: set<string> -> seq<string>): seq<string>
  {
    if analyses == [] then []
    else Flatten(analyses[..|analyses| - 1], order) + order(analyses[|analyses| - 1].urls)
  }

  /** `order` lists every set it is given, each element once. */
  ghost predicate ListsEachOnce(order: set<string> -> seq<string>)
  {
    forall s: set<string> :: |order(s)| == |s| && forall u :: u in order(s) <==> u in s
  }

  /** Everything one step of `work` decides. */
  datatype StepResult = StepResult(
    url: string,
    verdict: Verdict,
    fetches: nat,
    analyses: seq<Parsers.Analysis>,
    enqueued: seq<string>,
    next: Frontier)

  /** One iteration of the `work` loop on the URL at the head of the queue. */
  function Step(config: Config, f: Frontier, network: nat -> Fetch.Session, env: Parsers.Env,
                order: set<string> -> seq<string>): StepResult
    requires f.queue != [] && f.unfinished > 0
  {
    var url := f.queue[0];
    var rest := f.queue[1..];
    match Screen(config, f.seen, url)
    case Some(dropped) =>
      StepResult(url, dropped, 0, [], [], Frontier(rest, f.unfinished - 1, f.seen, f.errors))
    case None =>
      var attempts := Retry(url, network, config.maxTries, 0);
      match attempts.response
      case None =>
        StepResult(url, Exhausted, attempts.fetches, [], [], Frontier(rest, f.unfinished - 1, f.seen, f.errors + {url}))
      case Some(response) =>
        var analyses := RunParsers(config.parsers, response, env);
        var found := Flatten(analyses, order);
        StepResult(url, Finished, attempts.fetches, analyses, found,
          Frontier(rest + found, f.unfinished - 1 + |found|, f.seen + {url}, f.errors))
  }

  /** Queue accounting: the step dequeues one URL, appends what it found, and calls
      `task_done` once, so a balanced state stays balanced; the two sets only grow. */
  lemma StepBookkeeping(config: Config, f: Frontier, network: nat -> Fetch.Session, env: Parsers.Env,
                        order: set<string> -> seq<string>)
    requires f.queue != [] && f.unfinished > 0
    ensures var s := Step(config, f, network, env, order);
      && s.url == f.queue[0]
      && s.next.queue == f.queue[1..] + s.enqueued
      && s.next.unfinished == f.unfinished - 1 + |s.enqueued|
      && (Balanced(f) ==> Balanced(s.next))
      && f.seen <= s.next.seen && f.errors <= s.next.errors
      && s.next.seen <= f.seen + {s.url} && s.next.errors <= f.errors + {s.url}
  {
  }

  /** A URL is fetched only when it passes every check: not yet seen, contains "http",
      and, when `url_limit` is non-empty, has a host that `url_limit` lists. A dropped
      URL changes neither set and enqueues nothing. */
  lemma ScreenedBeforeFetch(config: Config, f: Frontier, network: nat -> Fetch.Session, env: Parsers.Env,
                            order: set<string> -> seq<string>)
    requires f.queue != [] && f.unfinished > 0
    ensures var s := Step(config, f, network, env, order);
      && (Dropped(s.verdict) <==> Screen(config, f.seen, s.url).Some?)
      && (Dropped(s.verdict) ==> s.fetches == 0 && s.enqueued == [] && s.next.seen == f.seen && s.next.errors == f.errors)
      && (s.url in f.seen ==> s.verdict == AlreadySeen)
      && (!Dropped(s.verdict) <==>
            && s.url !in f.seen
            && Strings.Contains(s.url, "http")
            && (config.urlLimit != {} ==> GetHost(s.url) != "" && GetHost(s.url) in config.urlLimit))
  {
  }

  /** Without "http" anywhere in it a URL is never fetched, whatever its scheme; and
      with an empty `url_limit` no host check is made. */
  lemma HttpSubstringAndEmptyLimit(config: Config, seen: set<string>, url: string)
    ensures !Strings.Contains(url, "http") ==> Screen(config, seen, url).Some?
    ensures config.urlLimit == {} && url !in seen && Strings.Contains(url, "http") ==> Screen(config, seen, url) == None
    ensures (exists i :: Strings.OccursAt(url, "http", i)) <==> Strings.Contains(url, "http")
  {
    Strings.ContainsIff(url, "http");
  }

  /** The retry protocol: a URL that passes the checks is tried at most `max_tries`
      times. When every try fails it is recorded in `error_urls`, is not marked seen, and
      nothing is enqueued; with `max_tries == 0` this happens without any fetch. When a
      try succeeds, it is the first one that did, the URL is marked seen, and the
      parsers' findings are enqueued. */
  lemma RetryProtocol(config: Config, f: Frontier, network: nat -> Fetch.Session, env: Parsers.Env,
                      order: set<string> -> seq<string>)
    requires f.queue != [] && f.unfinished > 0
    requires Screen(config, f.seen, f.queue[0]).None?
    ensures var s := Step(config, f, network, env, order);
      && s.fetches <= config.maxTries
      && (s.verdict == Exhausted <==> forall k :: 0 <= k < config.maxTries ==> Try(s.url, network, k).None?)
      && (s.verdict == Exhausted ==>
            && s.fetches == config.maxTries
            && s.next.errors == f.errors + {s.url} && s.next.seen == f.seen && s.enqueued == [])
      && (config.maxTries == 0 ==> s.verdict == Exhausted && s.fetches == 0)
      && (s.verdict == Finished ==>
            && 1 <= s.fetches
            && Try(s.url, network, s.fetches - 1).Some?
            && (forall k :: 0 <= k < s.fetches - 1 ==> Try(s.url, network, k).None?)
            && s.next.seen == f.seen + {s.url} && s.next.errors == f.errors
            && s.analyses == RunParsers(config.parsers, Try(s.url, network, s.fetches - 1).value, env)
            && s.enqueued == Flatten(s.analyses, order))
  {
    var url := f.queue[0];
    var r := Retry(url, network, config.maxTries, 0);
    if r.response.Some? {
      assert Try(url, network, r.fetches - 1).Some?;
    }
  }

  /** The parsers' findings in the order they are enqueued: parser by parser, each
      parser's URLs as `order` lists them. */
  lemma {:induction false} FlattenMembers(analyses: seq<Parsers.Analysis>, order: set<string> -> seq<string>)
    requires ListsEachOnce(order)
    ensures forall u :: u in Flatten(analyses, order) <==> exists j :: 0 <= j < |analyses| && u in analyses[j].urls
  {
    if analyses != [] {
      var n := |analyses|;
      var prefix := analyses[..n - 1];
      FlattenMembers(prefix, order);
      assert |order(analyses[n - 1].urls)| == |analyses[n - 1].urls|;
      forall u ensures u in Flatten(analyses, order) <==> exists j :: 0 <= j < n && u in analyses[j].urls {
        if u in Flatten(analyses, order) {
          if u in Flatten(prefix, order) {
            var j :| 0 <= j < |prefix| && u in prefix[j].urls;
            assert u in analyses[j].urls;
          } else {
            assert u in analyses[n - 1].urls;
          }
        }
        if exists j :: 0 <= j < n && u in analyses[j].urls {
          var j :| 0 <= j < n && u in analyses[j].urls;
          if j < n - 1 {
            assert prefix[j] == analyses[j];
          }
        }
      }
    }
  }

  /** The number of URLs enqueued is the sum of the sizes of the parsers' URL sets. */
  function TotalFound(analyses: seq<Parsers.Analysis>): nat
  {
    if analyses == [] then 0 else TotalFound(analyses[..|analyses| - 1]) + |analyses[|analyses| - 1].urls|
  }

  lemma {:induction false} FlattenLength(analyses: seq<Parsers.Analysis>, order: set<string> -> seq<string>)
    requires ListsEachOnce(order)
    ensures |Flatten(analyses, order)| == TotalFound(analyses)
  {
    if analyses != [] {
      FlattenLength(analyses[..|analyses| - 1], order);
    }
  }

  /** On success every URL any parser returned is enqueued and nothing else is; the
      unfinished count grows by their number, less the one task finished. */
  lemma FoundUrlsAreEnqueued(config: Config, f: Frontier, network: nat -> Fetch.Session, env: Parsers.Env,
                             order: set<string> -> seq<string>)
    requires f.queue != [] && f.unfinished > 0
    requires ListsEachOnce(order)
    ensures var s := Step(config, f, network, env, order);
      s.verdict == Finished ==>
        && |s.analyses| == |config.parsers|
        && (forall u :: u in s.enqueued <==> exists j :: 0 <= j < |config.parsers| && u in s.analyses[j].urls)
        && s.next.unfinished == f.unfinished - 1 + TotalFound(s.analyses)
  {
    var s := Step(config, f, network, env, order);
    FlattenMembers(s.analyses, order);
    FlattenLength(s.analyses, order);
  }

  /** A spider that keeps the class defaults starts from the root "" and drops it as
      not an http URL. */
  lemma DefaultRootIsDropped(network: nat -> Fetch.Session, env: Parsers.Env, order: set<string> -> seq<string>)
    ensures Seeds(DEFAULT_ROOTS) == [""]
    ensures Step(DEFAULT_CONFIG, Frontier([""], 1, {}, {}), network, env, order).verdict == NotHttp
  {
    assert !Strings.Contains("", "http");
  }

  /** `join()` waits for spawned work: when the root's step enqueues one URL, one task
      is still unfinished after it, and only the child's step brings the count to zero. */
  lemma JoinWaitsForSpawnedUrl(config: Config, root: string, network: nat -> Fetch.Session, network': nat -> Fetch.Session,
                               env: Parsers.Env, order: set<string> -> seq<string>)
    requires Step(config, Frontier([root], 1, {}, {}), network, env, order).enqueued != []
    ensures var s := Step(config, Frontier([root], 1, {}, {}), network, env, order);
      && s.next.unfinished == |s.enqueued| > 0
      && (|s.enqueued| == 1 && Step(config, s.next, network', env, order).enqueued == [] ==>
            Step(config, s.next, network', env, order).next.unfinished == 0)
  {
    var s := Step(config, Frontier([root], 1, {}, {}), network, env, order);
    StepBookkeeping(config, Frontier([root], 1, {}, {}), network, env, order);
    if |s.enqueued| == 1 && Step(config, s.next, network', env, order).enqueued == [] {
      StepBookkeeping(config, s.next, network', env, order);
    }
  }

  /** `error_urls` and `seen_url` can share a URL: a URL whose tries all failed, met again
      later in the queue, is fetched again, and on success it is marked seen while it
      stays in `error_urls`. */
  lemma FailedUrlCanLaterSucceed(url: string, fail: nat -> Fetch.Session, succeed: nat -> Fetch.Session,
                                 env: Parsers.Env, order: set<string> -> seq<string>)
    requires Strings.Contains(url, "http")
    requires fail(0).get(url).Failed? && succeed(0).get(url).Answered?
    ensures var config := Config({}, 1, []);
      var first := Step(config, Frontier([url, url], 2, {}, {}), fail, env, order);
      var second := Step(config, first.next, succeed, env, order);
      && first.verdict == Exhausted && second.verdict == Finished
      && url in second.next.seen && url in second.next.errors
  {
    var config := Config({}, 1, []);
    assert Try(url, fail, 0).None?;
    assert Try(url, succeed, 0).Some?;
    var first := Step(config, Frontier([url, url], 2, {}, {}), fail, env, order);
    assert first.next.queue == [url];
  }

  /** The parser loop of a successful try: `for parser in self.parsers: urls = await
      parser(response); new_urls.extend(urls)`. */
  method ParseAll(parsers: seq<Parsers.Parser>, response: Fetch.Response, env: Parsers.Env,
                  order: set<string> -> seq<string>) returns (newUrls: seq<string>)
    ensures newUrls == Flatten(RunParsers(parsers, response, env), order)
  {
    newUrls := [];
    ghost var analyses: seq<Parsers.Analysis> := [];
    for j := 0 to |parsers|
      invariant analyses == RunParsers(parsers[..j], response, env)
      invariant newUrls == Flatten(analyses, order)
    {
      var found := Parsers.AnalyzeResponse(parsers[j], response, env);
      assert analyses + [found] == RunParsers(parsers[..j + 1], response, env);
      analyses := analyses + [found];
      assert analyses[..|analyses| - 1] == analyses[..j];
      newUrls := newUrls + order(found.urls);
    }
    assert parsers[..|parsers|] == parsers;
  }

  /** `crawl` as sequential steps: the frontier after `k` iterations of `work`, step `j`
      talking to the network as `network(j)`; once the queue is empty, `join()` has
      returned and nothing changes any more. */
  function Run(config: Config, f: Frontier, k: nat, network: nat -> nat -> Fetch.Session,
               env: Parsers.Env, order: set<string> -> seq<string>): (r: Frontier)
    requires Balanced(f)
    ensures Balanced(r)
  {
    if k == 0 then f
    else
      var before := Run(config, f, k - 1, network, env, order);
      if before.queue == [] then before
      else
        StepBookkeeping(config, before, network(k - 1), env, order);
        Step(config, before, network(k - 1), env, order).next
  }

  /** When the queue is not empty after `k` steps, step `k + 1` is one more `Step`. */
  lemma RunOneMore(config: Config, f: Frontier, k: nat, network: nat -> nat -> Fetch.Session,
                   env: Parsers.Env, order: set<string> -> seq<string>)
    requires Balanced(f) && Run(config, f, k, network, env, order).queue != []
    ensures var before := Run(config, f, k, network, env, order);
      before.unfinished > 0
      && Run(config, f, k + 1, network, env, order) == Step(config, before, network(k), env, order).next
  {
  }

  /** Over any number of steps `seen_url` and `error_urls` only grow. */
  lemma {:induction false} RunOnlyGrows(config: Config, f: Frontier, k: nat, network: nat -> nat -> Fetch.Session,
                                        env: Parsers.Env, order: set<string> -> seq<string>)
    requires Balanced(f)
    ensures var r := Run(config, f, k, network, env, order);
      f.seen <= r.seen && f.errors <= r.errors
  {
    if k > 0 {
      RunOnlyGrows(config, f, k - 1, network, env, order);
      var before := Run(config, f, k - 1, network, env, order);
      if before.queue != [] {
        StepBookkeeping(config, before, network(k - 1), env, order);
      }
    }
  }

  /** The retry loop of `work`: up to `maxTries` fetches of `url`, stopping at the first
      response that is not `None`, whose parsers' URLs are collected in parser order. */
  method FetchWithRetries(url: string, maxTries: nat, parsers: seq<Parsers.Parser>, network: nat -> Fetch.Session,
                          env: Parsers.Env, order: set<string> -> seq<string>)
    returns (response: Option<Fetch.Response>, newUrls: seq<string>, fetches: nat)
    ensures var a := Retry(url, network, maxTries, 0); response == a.response && fetches == a.fetches
    ensures response.Some? ==> newUrls == Flatten(RunParsers(parsers, response.value, env), order)
    ensures response.None? ==> newUrls == []
  {
    response := None;
    newUrls := [];
    fetches := 0;
    while fetches < maxTries
      invariant fetches <= maxTries
      invariant response.None? && newUrls == []
      invariant Retry(url, network, maxTries, fetches) == Retry(url, network, maxTries, 0)
    {
      response := Fetch.FetchContent(url, network(fetches), None);
      if response.None? {
        fetches := fetches + 1;
        continue;
      }
      newUrls := ParseAll(parsers, response.value, env, order);
      fetches := fetches + 1;
      break;
    }
  }

  /** A crawl session: its configuration, its work queue, and the two URL sets. */
  class Spider {
    const config: Config
    const workQueue: WorkQueues.WorkQueue
    var seenUrl: set<string>
    var errorUrls: set<string>

    ghost predicate Valid()
      reads this, workQueue
    {
      workQueue.unfinished == |workQueue.items|
    }

    function State(): Frontier
      reads this, workQueue
    {
      Frontier(workQueue.items, workQueue.unfinished, seenUrl, errorUrls)
    }

    /** `__init__`: enqueue the roots, a single string once, an iterable root by root. */
    constructor (roots: Roots, config: Config)
      ensures Valid() && fresh(workQueue)
      ensures this.config == config
      ensures State() == Frontier(Seeds(roots), |Seeds(roots)|, {}, {})
    {
      this.config := config;
      workQueue := new WorkQueues.WorkQueue();
      seenUrl := {};
      errorUrls := {};
      new;
      match roots {
        case Root(url) =>
          workQueue.PutNowait(url);
        case RootList(urls) =>
          for i := 0 to |urls|
            invariant workQueue.items == urls[..i] && workQueue.unfinished == i
            invariant seenUrl == {} && errorUrls == {}
          {
            workQueue.PutNowait(urls[i]);
            assert urls[..i + 1] == urls[..i] + [urls[i]];
          }
          assert urls[..|urls|] == urls;
      }
    }

    /** One iteration of `work`: dequeue, screen, fetch with retries, parse, enqueue,
        record the URL, and call `task_done` exactly once on every path. Try `i`
        talks to the network as `network(i)`. */
    method Work(network: nat -> Fetch.Session, env: Parsers.Env, order: set<string> -> seq<string>)
      returns (verdict: Verdict, fetches: nat)
      requires Valid() && workQueue.items != []
      modifies this, workQueue
      ensures Valid()
      ensures var s := Step(config, old(State()), network, env, order);
        State() == s.next && verdict == s.verdict && fetches == s.fetches
    {
      ghost var step := Step(config, State(), network, env, order);
      var url := workQueue.Get();
      if url in seenUrl {
        workQueue.TaskDone();
        return AlreadySeen, 0;
      }
      if !Strings.Contains(url, "http") {
        workQueue.TaskDone();
        return NotHttp, 0;
      }
      var host := GetHost(url);
      if config.urlLimit != {} {
        if host == "" {
          workQueue.TaskDone();
          return NoHost, 0;
        }
        if host !in config.urlLimit {
          workQueue.TaskDone();
          return OutsideLimit, 0;
        }
      }
      var response, newUrls, tries := FetchWithRetries(url, config.maxTries, config.parsers, network, env, order);
      if response.None? {
        errorUrls := errorUrls + {url};
        workQueue.TaskDone();
        return Exhausted, tries;
      }
      seenUrl := seenUrl + {url};
      PutAll(newUrls);
      workQueue.TaskDone();
      return Finished, tries;
    }

    /** `for i in new_urls: self.work_queue.put_nowait(i)`. */
    method PutAll(urls: seq<string>)
      modifies workQueue
      ensures workQueue.items == old(workQueue.items) + urls
      ensures workQueue.unfinished == old(workQueue.unfinished) + |urls|
    {
      for k := 0 to |urls|
        invariant workQueue.items == old(workQueue.items) + urls[..k]
        invariant workQueue.unfinished == old(workQueue.unfinished) + k
      {
        workQueue.PutNowait(urls[k]);
        assert urls[..k + 1] == urls[..k] + [urls[k]];
      }
      assert urls[..|urls|] == urls;
    }

    /** `crawl` as sequential steps: run `work` until the queue is drained (at which point
        `join()` returns) or `maxSteps` steps have been taken. Step `k` talks to the
        network as `network(k)`. */
    method Crawl(maxSteps: nat, network: nat -> nat -> Fetch.Session, env: Parsers.Env,
                 order: set<string> -> seq<string>)
      returns (steps: nat)
      requires Valid()
      modifies this, workQueue
      ensures Valid()
      ensures steps <= maxSteps
      ensures State() == Run(config, old(State()), steps, network, env, order)
      ensures steps < maxSteps ==> workQueue.Joined()
      ensures old(seenUrl) <= seenUrl && old(errorUrls) <= errorUrls
    {
      ghost var start := State();
      steps := 0;
      while steps < maxSteps && workQueue.items != []
        invariant Valid()
        invariant steps <= maxSteps
        invariant State() == Run(config, start, steps, network, env, order)
      {
        RunOneMore(config, start, steps, network, env, order);
        var _, _ := Work(network(steps), env, order);
        steps := steps + 1;
      }
      RunOnlyGrows(config, start, steps, network, env, order);
    }
  }
}
