/** Pattern matching and the three first-match lookups over the rule
    tables (log-broken-links.js, `isMatch`, `getOembedUrl`, `isNotFoundUrl`,
    `getNotFoundTest`). */
module Rules {
  import opened Wrappers
  import opened Regex
  import opened Urls

  /** A rule pairs a hostname pattern with a path pattern; `action` is what
      the table attaches to the rule (a redirect prefix, a content test, or
      nothing). */
  datatype Rule<A> = Rule(hostname: string, path: string, action: A)

  /** Both patterns of the rule compile, so testing it cannot throw. */
  predicate RuleCompiles<A>(rule: Rule<A>)
  {
    Compile(rule.hostname).Ok? && Compile(rule.path).Ok?
  }

  /** `isMatch(p, s)`: the regular-expression test of `p` on `s`, or plain
      equality. Constructing the expression comes first, so a pattern that
      does not compile throws even when it equals `s`. */
  function IsMatch(p: string, s: string): (r: Try<bool>)
    ensures r.Threw? <==> Compile(p).SyntaxError?
    ensures r.Unmodelled? <==> Compile(p).Unsupported?
    ensures r.Returned? ==> Compile(p).Ok?
    ensures r.Returned? ==>
      (r.value <==> (exists i :: 0 <= i <= |s| && MatchPrefix(Compile(p).terms, s[i..])) || p == s)
    ensures Compile(p).Ok? && p == s ==> r == Returned(true)
  {
    match Test(p, s)
    case Returned(b) => Returned(b || p == s)
    case Threw => Threw
    case Unmodelled => Unmodelled
  }

  /** `isMatch(rule.hostname, url.hostname) && isMatch(rule.path, url.pathname)`.
      The `&&` short-circuits: the path pattern is compiled only once the
      hostname matched. */
  function RuleMatches<A>(rule: Rule<A>, url: Url): (r: Try<bool>)
    ensures r == Returned(true) <==>
      IsMatch(rule.hostname, url.hostname) == Returned(true) && IsMatch(rule.path, url.pathname) == Returned(true)
    ensures r.Threw? <==>
      IsMatch(rule.hostname, url.hostname).Threw? ||
      (IsMatch(rule.hostname, url.hostname) == Returned(true) && IsMatch(rule.path, url.pathname).Threw?)
    ensures RuleCompiles(rule) ==> r.Returned?
  {
    match IsMatch(rule.hostname, url.hostname)
    case Returned(true) => IsMatch(rule.path, url.pathname)
    case Returned(false) => Returned(false)
    case other => other
  }

  /** The loop shared by the three lookups: rules are tried in table order,
      the first one that matches ends the loop, and a pattern that throws
      ends it too. */
  function FirstMatch<A>(rules: seq<Rule<A>>, url: Url): (r: Try<Option<Rule<A>>>)
    ensures r.Returned? && r.value.Some? ==> r.value.value in rules && RuleMatches(r.value.value, url) == Returned(true)
    ensures r.Threw? ==> exists k :: 0 <= k < |rules| && RuleMatches(rules[k], url).Threw?
    decreases |rules|
  {
    if rules == [] then Returned(None)
    else
      match RuleMatches(rules[0], url)
      case Returned(true) => Returned(Some(rules[0]))
      case Returned(false) => FirstMatch(rules[1..], url)
      case Threw => Threw
      case Unmodelled => Unmodelled
  }

  /** No rule before index `i` matches, and none of them throws. */
  predicate NoneMatchBefore<A>(rules: seq<Rule<A>>, url: Url, i: int)
    requires i <= |rules|
  {
    forall j :: 0 <= j < i ==> RuleMatches(rules[j], url) == Returned(false)
  }

  lemma NoneMatchBeforeTail<A>(rules: seq<Rule<A>>, url: Url, i: int)
    requires 0 < i <= |rules|
    ensures NoneMatchBefore(rules, url, i) <==>
      RuleMatches(rules[0], url) == Returned(false) && NoneMatchBefore(rules[1..], url, i - 1)
  {
    assert forall j :: 0 <= j < |rules| - 1 ==> rules[1..][j] == rules[j + 1];
  }

  /** The lookup reports no match exactly when every rule was tried and
      returned false. */
  lemma {:induction false} FirstMatchNone<A>(rules: seq<Rule<A>>, url: Url)
    ensures FirstMatch(rules, url) == Returned(None) <==> NoneMatchBefore(rules, url, |rules|)
    decreases |rules|
  {
    if rules != [] {
      NoneMatchBeforeTail(rules, url, |rules|);
      FirstMatchNone(rules[1..], url);
    }
  }

  /** When rule `i` is the first to match, the lookup returns it; when it is
      the first to throw, the lookup throws. */
  lemma {:induction false} FirstMatchAt<A>(rules: seq<Rule<A>>, url: Url, i: int)
    requires 0 <= i < |rules| && NoneMatchBefore(rules, url, i)
    ensures RuleMatches(rules[i], url) == Returned(true) ==> FirstMatch(rules, url) == Returned(Some(rules[i]))
    ensures RuleMatches(rules[i], url).Threw? ==> FirstMatch(rules, url).Threw?
    ensures RuleMatches(rules[i], url).Unmodelled? ==> FirstMatch(rules, url).Unmodelled?
    decreases i
  {
    if i > 0 {
      NoneMatchBeforeTail(rules, url, i);
      FirstMatchAt(rules[1..], url, i - 1);
    }
  }

  /** A rule the lookup returns is the first rule that matches. */
  lemma {:induction false} FirstMatchFound<A>(rules: seq<Rule<A>>, url: Url, rule: Rule<A>)
    requires FirstMatch(rules, url) == Returned(Some(rule))
    ensures exists i ::
      0 <= i < |rules| && NoneMatchBefore(rules, url, i) &&
      RuleMatches(rules[i], url) == Returned(true) && rule == rules[i]
    decreases |rules|
  {
    if RuleMatches(rules[0], url) == Returned(true) {
      assert NoneMatchBefore(rules, url, 0);
    } else {
      FirstMatchFound(rules[1..], url, rule);
      var i :| 0 <= i < |rules| - 1 && NoneMatchBefore(rules[1..], url, i) &&
        RuleMatches(rules[1..][i], url) == Returned(true) && rule == rules[1..][i];
      NoneMatchBeforeTail(rules, url, i + 1);
    }
  }

  /** A lookup that does not return met, before any rule matched, a rule
      whose test did not return either, and failed the same way. */
  lemma {:induction false} FirstMatchFailed<A>(rules: seq<Rule<A>>, url: Url)
    requires !FirstMatch(rules, url).Returned?
    ensures exists i ::
      0 <= i < |rules| && NoneMatchBefore(rules, url, i) && !RuleMatches(rules[i], url).Returned? &&
      (RuleMatches(rules[i], url).Threw? <==> FirstMatch(rules, url).Threw?)
    decreases |rules|
  {
    if !RuleMatches(rules[0], url).Returned? {
      assert NoneMatchBefore(rules, url, 0);
    } else {
      FirstMatchFailed(rules[1..], url);
      var i :| 0 <= i < |rules| - 1 && NoneMatchBefore(rules[1..], url, i) && !RuleMatches(rules[1..][i], url).Returned? &&
        (RuleMatches(rules[1..][i], url).Threw? <==> FirstMatch(rules[1..], url).Threw?);
      NoneMatchBeforeTail(rules, url, i + 1);
    }
  }

  /** `getOembedUrl`: the redirect prefix of the first matching rule followed
      by the URL's `href`. */
  function GetOembedUrl(rules: seq<Rule<string>>, url: Url): (r: Try<Option<string>>)
    ensures r == Returned(None) <==> NoneMatchBefore(rules, url, |rules|)
    ensures r.Returned? && r.value.Some? ==>
      exists rule :: rule in rules && RuleMatches(rule, url) == Returned(true) && r.value.value == rule.action + url.href
    ensures r.Returned? && r.value.Some? ==>
      |url.href| <= |r.value.value| && r.value.value[|r.value.value| - |url.href|..] == url.href
  {
    FirstMatchNone(rules, url);
    match FirstMatch(rules, url)
    case Returned(None) => Returned(None)
    case Returned(Some(rule)) => Returned(Some(rule.action + url.href))
    case Threw => Threw
    case Unmodelled => Unmodelled
  }

  /** `isNotFoundUrl`: does some always-404 rule match? */
  function IsNotFoundUrl<A>(rules: seq<Rule<A>>, url: Url): (r: Try<bool>)
    ensures r == Returned(false) <==> NoneMatchBefore(rules, url, |rules|)
    ensures r == Returned(true) ==> exists rule :: rule in rules && RuleMatches(rule, url) == Returned(true)
  {
    FirstMatchNone(rules, url);
    match FirstMatch(rules, url)
    case Returned(m) => Returned(m.Some?)
    case Threw => Threw
    case Unmodelled => Unmodelled
  }

  /** `getNotFoundTest`: the first matching content-test rule. */
  function GetNotFoundTest<A>(rules: seq<Rule<A>>, url: Url): (r: Try<Option<Rule<A>>>)
    ensures r == Returned(None) <==> NoneMatchBefore(rules, url, |rules|)
    ensures r.Returned? && r.value.Some? ==> r.value.value in rules && RuleMatches(r.value.value, url) == Returned(true)
  {
    FirstMatchNone(rules, url);
    FirstMatch(rules, url)
  }

  /** `getOembedUrl` builds the redirect from the first matching rule, and
      returns null only when no rule matches. */
  lemma GetOembedUrlSpec(rules: seq<Rule<string>>, url: Url, i: int)
    requires 0 <= i < |rules| && NoneMatchBefore(rules, url, i)
    ensures RuleMatches(rules[i], url) == Returned(true) ==>
      GetOembedUrl(rules, url) == Returned(Some(rules[i].action + url.href))
    ensures GetOembedUrl(rules, url) == Returned(None) <==> NoneMatchBefore(rules, url, |rules|)
  {
    FirstMatchAt(rules, url, i);
    FirstMatchNone(rules, url);
  }

  /** A redirect `getOembedUrl` returns is some rule's prefix followed by
      the URL's href. */
  lemma GetOembedUrlFound(rules: seq<Rule<string>>, url: Url, o: string)
    requires GetOembedUrl(rules, url) == Returned(Some(o))
    ensures exists i :: 0 <= i < |rules| && o == rules[i].action + url.href
  {
    var m :| FirstMatch(rules, url) == Returned(Some(m));
    FirstMatchFound(rules, url, m);
  }

  /** When every pattern of the table compiles, `isNotFoundUrl` returns
      whether any rule matches. */
  lemma IsNotFoundUrlAny<A>(rules: seq<Rule<A>>, url: Url)
    requires forall i :: 0 <= i < |rules| ==> RuleCompiles(rules[i])
    ensures IsNotFoundUrl(rules, url) ==
      Returned(exists i :: 0 <= i < |rules| && RuleMatches(rules[i], url) == Returned(true))
  {
    FirstMatchNone(rules, url);
    if !FirstMatch(rules, url).Returned? {
      FirstMatchFailed(rules, url);
    } else if m :| FirstMatch(rules, url) == Returned(Some(m)) {
      FirstMatchFound(rules, url, m);
    }
  }
}
