/** Parsers: a list of predicates on the page text, an optional item class, and a URL
    rule. Analysing a response extracts and saves an item when some predicate holds,
    and always returns the set of URLs the URL rule finds in the text. */
module Parsers {
  import opened Wrappers
  import Strings
  import Items
  import Fetch
  import BrowserResponses

  /** One predicate of a parser's `rules`: substring containment (`Parser`), a regular
      expression anchored at the start of the text (`ReParser`), or a caller-supplied
      function (`BaseParser(rules=...)`). */
  datatype Rule = Contains(needle: string) | ReMatch(pattern: string) | Predicate(test: string -> bool)

  /** An item class as the parser sees it: its `selector` table. */
  datatype ItemClass = ItemClass(selector: Items.FieldTable)

  datatype Parser = Parser(rules: seq<Rule>, item: Option<ItemClass>, urlRule: string)

  /** The external text capabilities: the item markup functions, `re.match(pattern, text)`
      (true when it returns a match) and `re.findall(pattern, text)` for a custom URL rule. */
  datatype Env = Env(markup: Items.Markup, reMatch: (string, string) -> bool, findAll: (string, string) -> seq<string>)

  /** What one `analyze_response` call produced: the URLs it returns, and the `result`
      of the item it constructed and saved, if it did. */
  datatype Analysis = Analysis(urls: set<string>, saved: Option<map<string, Items.Value>>)

  /** The URL rule used when none is given: `(?i)href=["']([^\s"'<>]+)`. */
  const DEFAULT_URL_RULE: string := "(?i)href=[\"']([^\\s\"'<>]+)"

  /** A Python value used as a condition is false when it is `None` or empty. */
  predicate Truthy(s: Option<string>)
  {
    s.Some? && s.value != ""
  }

  /** `BaseParser(rules, item, url_rule)`: `rules or []`, and the default URL rule only
      when `url_rule is None` (an empty `url_rule` is kept). */
  function NewBaseParser(rules: Option<seq<Rule>>, item: Option<ItemClass>, urlRule: Option<string>): Parser
  {
    Parser(
      if rules.Some? then rules.value else [],
      item,
      if urlRule.None? then DEFAULT_URL_RULE else urlRule.value)
  }

  /** `Parser(rule, item, url_rule)`: `rule and [lambda x: rule in x]`. */
  function NewParser(rule: Option<string>, item: Option<ItemClass>, urlRule: Option<string>): Parser
  {
    NewBaseParser(if Truthy(rule) then Some([Contains(rule.value)]) else None, item, urlRule)
  }

  /** `ReParser(rule, item, url_rule)`: `rule and [lambda x: re.match(rule, x)]`. */
  function NewReParser(rule: Option<string>, item: Option<ItemClass>, urlRule: Option<string>): Parser
  {
    NewBaseParser(if Truthy(rule) then Some([ReMatch(rule.value)]) else None, item, urlRule)
  }

  function RuleHolds(rule: Rule, text: string, env: Env): bool
  {
    match rule
    case Contains(needle) => Strings.Contains(text, needle)
    case ReMatch(pattern) => env.reMatch(pattern, text)
    case Predicate(test) => test(text)
  }

  /** `any([rule(text) for rule in rules])`: false for an empty list. */
  function AnyRule(rules: seq<Rule>, text: string, env: Env): bool
  {
    if rules == [] then false else RuleHolds(rules[0], text, env) || AnyRule(rules[1..], text, env)
  }

  /** The OR gate holds exactly when some rule holds; with no rules it never does. */
  lemma {:induction false} AnyRuleIff(rules: seq<Rule>, text: string, env: Env)
    ensures AnyRule(rules, text, env) <==> exists j :: 0 <= j < |rules| && RuleHolds(rules[j], text, env)
  {
    if rules != [] {
      AnyRuleIff(rules[1..], text, env);
      if AnyRule(rules[1..], text, env) {
        var j :| 0 <= j < |rules[1..]| && RuleHolds(rules[1..][j], text, env);
        assert RuleHolds(rules[j + 1], text, env);
      }
      forall j | 1 <= j < |rules| && RuleHolds(rules[j], text, env)
        ensures exists k :: 0 <= k < |rules[1..]| && RuleHolds(rules[1..][k], text, env)
      {
        assert rules[1..][j - 1] == rules[j];
      }
    }
  }

  /** Whitespace as `\s` matches it in a Python `str` pattern (the characters for which
      `str.isspace()` holds). */
  predicate IsSpace(c: char)
  {
    c == ' ' || ('\t' <= c <= '\r') || ('\U{1c}' <= c <= '\U{1f}') || c == '\U{85}' || c == '\U{a0}'
    || c == '\U{1680}' || ('\U{2000}' <= c <= '\U{200a}') || c == '\U{2028}' || c == '\U{2029}'
    || c == '\U{202f}' || c == '\U{205f}' || c == '\U{3000}'
  }

  /** The class `[^\s"'<>]`. */
  predicate IsUrlChar(c: char)
  {
    !IsSpace(c) && c != '"' && c != '\'' && c != '<' && c != '>'
  }

  predicate IsQuote(c: char)
  {
    c == '"' || c == '\''
  }

  /** Case folding as `(?i)` applies it to the letters of `href`. */
  function Lower(c: char): char
  {
    if 'A' <= c <= 'Z' then (c as int + 32) as char else c
  }

  /** The default rule matches at `p`: `href=` in any case, a quote, and at least one URL character. */
  predicate HrefAt(text: string, p: nat)
  {
    p + 7 <= |text|
    && Lower(text[p]) == 'h' && Lower(text[p + 1]) == 'r' && Lower(text[p + 2]) == 'e' && Lower(text[p + 3]) == 'f'
    && text[p + 4] == '=' && IsQuote(text[p + 5]) && IsUrlChar(text[p + 6])
  }

  /** End of the greedy run of URL characters starting at `k`. */
  function RunEnd(text: string, k: nat): (e: nat)
    requires k <= |text|
    ensures k <= e <= |text|
    ensures forall j :: k <= j < e ==> IsUrlChar(text[j])
    ensures e < |text| ==> !IsUrlChar(text[e])
    decreases |text| - k
  {
    if k == |text| || !IsUrlChar(text[k]) then k else RunEnd(text, k + 1)
  }

  /** `re.findall` with the default rule from position `p`: matches are tried left to
      right, each match yields its group, and the search resumes where the match ended. */
  function FindHrefs(text: string, p: nat): seq<string>
    decreases |text| - p
  {
    if p >= |text| then []
    else if HrefAt(text, p) then
      var e := RunEnd(text, p + 6);
      [text[p + 6..e]] + FindHrefs(text, e)
    else FindHrefs(text, p + 1)
  }

  /** `u` is the group of a default-rule match at `q`: `href=` and a quote right before
      it, and the run of URL characters ends right after it. */
  ghost predicate HrefMatch(text: string, q: nat, u: string)
  {
    q + 6 + |u| <= |text| && HrefAt(text, q) && text[q + 6..q + 6 + |u|] == u
    && (q + 6 + |u| == |text| || !IsUrlChar(text[q + 6 + |u|]))
  }

  /** Every URL the default rule extracts is non-empty, holds no whitespace, quote, `<`
      or `>`, and is immediately preceded by case-insensitive `href=` and a quote. */
  lemma {:induction false} FindHrefsSound(text: string, p: nat, u: string)
    requires u in FindHrefs(text, p)
    ensures |u| > 0 && forall c :: c in u ==> IsUrlChar(c)
    ensures exists q :: p <= q && HrefMatch(text, q, u)
    decreases |text| - p
  {
    if HrefAt(text, p) {
      var e := RunEnd(text, p + 6);
      if u == text[p + 6..e] {
        forall c | c in u ensures IsUrlChar(c) {
          var j :| 0 <= j < |u| && u[j] == c;
          assert text[p + 6 + j] == c;
        }
        assert HrefMatch(text, p, u);
      } else {
        FindHrefsSound(text, e, u);
      }
    } else {
      FindHrefsSound(text, p + 1, u);
    }
  }

  /** Every default-rule match at or after `p` that does not start inside an earlier
      match's URL is found: the scan resumes at the end of each match, so it reaches `q`. */
  lemma {:induction false} FindHrefsComplete(text: string, p: nat, q: nat)
    requires p <= q && HrefAt(text, q)
    requires forall k :: p <= k < q && HrefAt(text, k) ==> RunEnd(text, k + 6) <= q
    ensures text[q + 6..RunEnd(text, q + 6)] in FindHrefs(text, p)
    decreases q - p
  {
    if p < q {
      if HrefAt(text, p) {
        FindHrefsComplete(text, RunEnd(text, p + 6), q);
      } else {
        FindHrefsComplete(text, p + 1, q);
      }
    }
  }

  /** Text without `=` holds no `href=`, so the default rule finds nothing in it. */
  lemma {:induction false} NoEqualsNoHrefs(text: string, p: nat)
    requires forall j :: p <= j < |text| ==> text[j] != '='
    ensures FindHrefs(text, p) == []
    decreases |text| - p
  {
    if p < |text| {
      NoEqualsNoHrefs(text, p + 1);
    }
  }

  /** `get_urls(html)`: the set of URLs the parser's URL rule finds. The default rule is
      modelled by the scanner above; any other pattern is handed to `re.findall`. */
  function GetUrls(parser: Parser, text: string, env: Env): set<string>
  {
    if parser.urlRule == DEFAULT_URL_RULE then set u | u in FindHrefs(text, 0)
    else set u | u in env.findAll(parser.urlRule, text)
  }

  /** The result of `analyze_response` on a response whose text is `text`. */
  function Analyze(parser: Parser, text: string, env: Env): Analysis
  {
    var saved :=
      if AnyRule(parser.rules, text, env) && parser.item.Some?
      then Some(Items.Extract(parser.item.value.selector, env.markup.unescape(text), env.markup.select))
      else None;
    Analysis(GetUrls(parser, text, env), saved)
  }

  /** `analyze_response(response)`: when some rule holds and the parser has an item
      class, construct the item from the text and save it; return the URLs either way.
      `saved` is the record handed to `save`; what `save` then does (the default one
      raises) is not modelled. */
  method AnalyzeResponse(parser: Parser, response: Fetch.Response, env: Env) returns (analysis: Analysis)
    ensures analysis == Analyze(parser, response.text, env)
  {
    var text := response.text;
    var saved: Option<map<string, Items.Value>> := None;
    if AnyRule(parser.rules, text, env) {
      if parser.item.Some? {
        var item := new Items.Item(parser.item.value.selector, text, env.markup);
        saved := Some(item.result);
      }
    }
    analysis := Analysis(GetUrls(parser, text, env), saved);
  }

  /** An item is saved exactly when some rule holds and the parser has an item class,
      and what is saved is the record its selectors extract; the URLs are returned
      whether or not a rule held. */
  lemma AnalyzeSavesOnlyOnMatch(parser: Parser, text: string, env: Env)
    ensures var a := Analyze(parser, text, env);
      && (a.saved.Some? <==> parser.item.Some? && exists j :: 0 <= j < |parser.rules| && RuleHolds(parser.rules[j], text, env))
      && (a.saved.Some? ==> a.saved.value == Items.Extract(parser.item.value.selector, env.markup.unescape(text), env.markup.select))
      && a.urls == GetUrls(parser, text, env)
  {
    AnyRuleIff(parser.rules, text, env);
  }

  /** With an empty rule list nothing is ever saved (`any([])` is false). */
  lemma EmptyRulesNeverSave(parser: Parser, text: string, env: Env)
    requires parser.rules == []
    ensures Analyze(parser, text, env).saved == None
  {
  }

  /** A `Parser` built with a falsy rule has no rules; with a non-empty rule it holds
      exactly for texts that contain that rule as a substring. */
  lemma {:induction false} ParserRule(rule: Option<string>, item: Option<ItemClass>, urlRule: Option<string>, text: string, env: Env)
    ensures !Truthy(rule) ==> NewParser(rule, item, urlRule).rules == []
    ensures AnyRule(NewParser(rule, item, urlRule).rules, text, env)
      <==> Truthy(rule) && exists i :: Strings.OccursAt(text, rule.value, i)
  {
    if Truthy(rule) {
      Strings.ContainsIff(text, rule.value);
    }
  }

  /** A `ReParser` built with a falsy rule has no rules; with a non-empty rule it holds
      exactly for texts that `re.match` (anchored at the start) accepts. */
  lemma ReParserRule(rule: Option<string>, item: Option<ItemClass>, urlRule: Option<string>, text: string, env: Env)
    ensures !Truthy(rule) ==> NewReParser(rule, item, urlRule).rules == []
    ensures AnyRule(NewReParser(rule, item, urlRule).rules, text, env) <==> Truthy(rule) && env.reMatch(rule.value, text)
  {
  }

  /** Without a `url_rule` the parser extracts exactly the default-rule hrefs; with
      another pattern it extracts what `re.findall` returns for that pattern. */
  lemma UrlRuleChoice(rules: Option<seq<Rule>>, item: Option<ItemClass>, urlRule: Option<string>, text: string, env: Env)
    ensures urlRule.None? ==> GetUrls(NewBaseParser(rules, item, urlRule), text, env) == set u | u in FindHrefs(text, 0)
    ensures urlRule.Some? && urlRule.value != DEFAULT_URL_RULE ==>
      GetUrls(NewBaseParser(rules, item, urlRule), text, env) == set u | u in env.findAll(urlRule.value, text)
  {
  }

  /** With the default rule, every URL returned by `get_urls` is a well-formed href
      value taken verbatim from the text (no base-URL resolution takes place). */
  lemma DefaultUrlsAreHrefValues(parser: Parser, text: string, env: Env, u: string)
    requires parser.urlRule == DEFAULT_URL_RULE && u in GetUrls(parser, text, env)
    ensures |u| > 0 && forall c :: c in u ==> IsUrlChar(c)
    ensures exists q :: HrefMatch(text, q, u)
  {
    FindHrefsSound(text, 0, u);
  }

  /** With the default rule, `get_urls` returns the value of every `href` in the text
      that does not start inside the URL of an earlier one; in particular the value of
      the first `href` is always returned. */
  lemma DefaultUrlsIncludeHrefValues(parser: Parser, text: string, env: Env, q: nat)
    requires parser.urlRule == DEFAULT_URL_RULE && HrefAt(text, q)
    requires forall k: nat :: k < q && HrefAt(text, k) ==> RunEnd(text, k + 6) <= q
    ensures text[q + 6..RunEnd(text, q + 6)] in GetUrls(parser, text, env)
  {
    FindHrefsComplete(text, 0, q);
  }

  /** The browser's empty-page sentinel holds no link, so a default-rule parser finds
      no URL in it. */
  lemma EmptyPageHasNoUrls(parser: Parser, url: string, env: Env)
    requires parser.urlRule == DEFAULT_URL_RULE
    ensures GetUrls(parser, BrowserResponses.EmptyBrowserResponse(url).text, env) == {}
  {
    var text := BrowserResponses.EMPTY_PAGE;
    assert forall j :: 0 <= j < |text| ==> text[j] != '=';
    NoEqualsNoHrefs(text, 0);
  }
}
