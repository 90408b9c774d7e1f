/** The rule tables and content tests of config.js, and the settings the
    crawler reads from it. */
module Config {
  import opened Wrappers
  import opened Strings
  import opened Regex
  import opened Urls
  import opened Rules

  /** The content predicates a rule or the generic fallback can name. */
  datatype BodyTest =
    | KarentArtistMissing     // the karent.jp artist-page test
    | GenericAsWritten        // `genericNotFoundTest` as the source writes it
    | GenericCaseInsensitive  // the generic test with both sides lower-cased

  /** The text karent.jp shows for a missing artist ("artist not found"). */
  const KarentMissingText: string := "アーティストが見つかりません"

  /** The needle of the generic test. */
  const NotFoundText: string := "Not Found"

  /** The karent.jp test: the lower-cased page contains the missing-artist text. */
  function KarentTest(html: string): (r: bool)
    ensures r <==> Includes(html, KarentMissingText)
  {
    KarentTextCaseless();
    IncludesLowerCaseless(html, KarentMissingText);
    Includes(ToLowerCase(html), KarentMissingText)
  }

  /** `genericNotFoundTest`: the lower-cased page contains "Not Found". */
  function GenericNotFoundTest(html: string): (r: bool)
    ensures !r
  {
    LowerLacksCapitalNeedle(html);
    Includes(ToLowerCase(html), NotFoundText)
  }

  /** The generic test with the needle lower-cased as well. */
  predicate GenericNotFoundTestCorrected(html: string)
  {
    Includes(ToLowerCase(html), ToLowerCase(NotFoundText))
  }

  predicate RunTest(t: BodyTest, html: string)
  {
    match t
    case KarentArtistMissing => KarentTest(html)
    case GenericAsWritten => GenericNotFoundTest(html)
    case GenericCaseInsensitive => GenericNotFoundTestCorrected(html)
  }

  /** `config.notfoundUrls`: hosts whose error pages are not worth inspecting. */
  const NotfoundUrls: seq<Rule<()>> := [
    Rule("twitter[.]com", "/.*", ()),
    Rule("www[.]youtube[.]com", "/channel/.*", ()),
    Rule("www[.]youtube[.]com", "/user/.*", ()),
    Rule("fandom[.]com", "/.*", ()),
    Rule(".*[.]fandom[.]com", "/.*", ()),
    Rule("wikia[.]com", "/.*", ()),
    Rule(".*[.]wikia[.]com", "/.*", ()),
    Rule("vocadb[.]net", "/.*", ()),
    Rule("bandcamp[.]com", "/.*", ()),
    Rule("nicovideo[.]jp", "/.*", ()),
    Rule(".*[.]nicovideo[.]jp", "/.*", ()),
    Rule("piapro[.]jp", "/.*", ()),
    Rule("pixiv[.]net", "/.*", ()),
    Rule(".*[.]atwiki[.]jp", "/.*", ()),
    Rule(".*[.]animelyrics[.]com", "/.*", ()),
    Rule("wikipedia[.]org", "/.*", ()),
    Rule(".*[.]wikipedia[.]org", "/.*", ()),
    Rule("www[.]kkbox[.]com", "/.*", ()),
    Rule("utaitedb[.]net", "/.*", ()),
    Rule("tumblr[.]com", "/.*", ()),
    Rule(".*[.]tumblr[.]com", "/.*", ())
  ]

  const YoutubeOembedPrefix: string := "https://www.youtube.com/oembed?format=json&url="

  /** `config.oembedUrls`: rules whose URLs are probed through an oEmbed
      endpoint; the action is the redirect prefix. */
  const OembedUrls: seq<Rule<string>> := [
    Rule("www[.]youtube[.]com", "/watch?v=.*", YoutubeOembedPrefix),
    Rule("youtu[.]be", "/.*", YoutubeOembedPrefix),
    Rule("soundcloud.com", "/.*", "https://soundcloud.com/oembed?url=")
  ]

  /** `config.notFoundTests`: host-specific content tests. */
  const NotFoundTests: seq<Rule<BodyTest>> := [
    Rule("karent[.]jp", "/artist/.*", KarentArtistMissing)
  ]

  /** The configuration values the core reads. */
  datatype Settings = Settings(
    initialDirectories: seq<string>,
    useInitialUrls: bool,
    initialUrls: seq<string>,
    concurrency: int,
    rateLimit: int,
    notfoundUrls: seq<Rule<()>>,
    oembedUrls: seq<Rule<string>>,
    notFoundTests: seq<Rule<BodyTest>>,
    genericNotFoundTest: BodyTest)

  /** The oEmbed targets are YouTube's endpoint (shared by both YouTube
      rules) and SoundCloud's, each followed by the page's own href. */
  lemma OembedTargets(rules: seq<Rule<string>>, url: Url, o: string)
    requires rules == OembedUrls || rules == OembedUrlsCorrected
    requires GetOembedUrl(rules, url) == Returned(Some(o))
    ensures o == YoutubeOembedPrefix + url.href || o == "https://soundcloud.com/oembed?url=" + url.href
  {
    GetOembedUrlFound(rules, url, o);
  }

  /** config.js as shipped. */
  const Source: Settings := Settings(
    ["/home/david/dst"], false, ["https://initialwebsite.com/"], 1, 1000,
    NotfoundUrls, OembedUrls, NotFoundTests, GenericAsWritten)


  /** Pattern `p` spells the literal word `w` with the pieces `ps`. */
  predicate Spells(ps: seq<Piece>, p: string, w: string)
  {
    PiecesOk(ps) && LiteralPieces(ps) && Text(ps) == p && Spell(ps) == w
  }

  /** A pattern that spells a literal word matches the strings containing
      the word, and itself. */
  lemma LiteralIsMatch(ps: seq<Piece>, p: string, w: string, s: string)
    requires Spells(ps, p, w)
    ensures IsMatch(p, s) == Returned(Includes(s, w) || p == s)
  {
    LiteralTest(ps, s);
  }

  /** The same for a literal word followed by `.*`. */
  lemma LiteralPrefixIsMatch(ps: seq<Piece>, p: string, w: string, s: string)
    requires Spells(ps, w, w) && Text(ps + [AnyStar]) == p
    ensures IsMatch(p, s) == Returned(Includes(s, w) || p == s)
  {
    LiteralTest(ps, s);
  }

  lemma TwitterPieces()
    ensures Spells([Word("twitter"), Class("."), Word("com")], "twitter[.]com", "twitter.com")
  {
  }

  lemma SlashPieces()
    ensures PiecesOk([Word("/")])
    ensures LiteralPieces([Word("/")])
    ensures Text([Word("/")]) == "/"
    ensures Spell([Word("/")]) == "/"
    ensures Text([Word("/")] + [AnyStar]) == "/.*"
  {
    var ps := [Word("/")] + [AnyStar];
    assert ps[1..] == [AnyStar] && ps[1..][1..] == [];
    assert Text(ps[1..]) == ".*";
  }

  /** `/.*` accepts every path that contains a slash (every path a parsed
      URL has), and the pattern text itself. */
  lemma AnyPath(path: string)
    ensures IsMatch("/.*", path) == Returned(Includes(path, "/") || path == "/.*")
  {
    SlashPieces();
    LiteralPrefixIsMatch([Word("/")], "/.*", "/", path);
  }

  /** The first always-404 rule: Twitter. */
  lemma TwitterRule(url: Url)
    ensures RuleMatches(NotfoundUrls[0], url) ==
      Returned((Includes(url.hostname, "twitter.com") || url.hostname == "twitter[.]com") &&
               (Includes(url.pathname, "/") || url.pathname == "/.*"))
  {
    TwitterPieces();
    LiteralIsMatch([Word("twitter"), Class("."), Word("com")], "twitter[.]com", "twitter.com", url.hostname);
    AnyPath(url.pathname);
  }

  /** A URL the Twitter rule declares always-404 is never fetched for content. */
  lemma TwitterIsNotFoundUrl(url: Url)
    requires Includes(url.hostname, "twitter.com") && Includes(url.pathname, "/")
    ensures IsNotFoundUrl(NotfoundUrls, url) == Returned(true)
  {
    TwitterRule(url);
    FirstMatchAt(NotfoundUrls, url, 0);
  }

  lemma KarentPieces()
    ensures Spells([Word("karent"), Class("."), Word("jp")], "karent[.]jp", "karent.jp")
  {
  }

  lemma ArtistPieces()
    ensures PiecesOk([Word("/artist/")])
    ensures LiteralPieces([Word("/artist/")])
    ensures Text([Word("/artist/")]) == "/artist/"
    ensures Spell([Word("/artist/")]) == "/artist/"
    ensures Text([Word("/artist/")] + [AnyStar]) == "/artist/.*"
  {
    var ps := [Word("/artist/")] + [AnyStar];
    assert ps[1..] == [AnyStar] && ps[1..][1..] == [];
    assert Text(ps[1..]) == ".*";
  }

  /** The URLs the karent.jp rule selects: artist pages on karent.jp. */
  predicate KarentArtistUrl(url: Url)
  {
    (Includes(url.hostname, "karent.jp") || url.hostname == "karent[.]jp") &&
    (Includes(url.pathname, "/artist/") || url.pathname == "/artist/.*")
  }

  /** `getNotFoundTest` picks the karent.jp test for karent.jp artist pages
      and no test for any other URL. */
  lemma KarentSelection(url: Url)
    ensures GetNotFoundTest(NotFoundTests, url) ==
      Returned(if KarentArtistUrl(url) then Some(NotFoundTests[0]) else None)
  {
    KarentPieces();
    LiteralIsMatch([Word("karent"), Class("."), Word("jp")], "karent[.]jp", "karent.jp", url.hostname);
    ArtistPieces();
    LiteralPrefixIsMatch([Word("/artist/")], "/artist/.*", "/artist/", url.pathname);
    assert NotFoundTests[1..] == [];
  }

  lemma KarentTextCaseless()
    ensures forall k :: 0 <= k < |KarentMissingText| ==> Caseless(KarentMissingText[k])
  {
    forall k | 0 <= k < |KarentMissingText|
      ensures Caseless(KarentMissingText[k])
    {
      CaselessAboveCyrillic(KarentMissingText[k]);
    }
  }

  /** Lower-casing the page does not change the karent.jp verdict: the
      missing-artist text has no case. */
  lemma KarentTestSpec(html: string)
    ensures KarentTest(html) <==> Includes(html, KarentMissingText)
  {
  }

  /** The generic test as written compares a lower-cased page with a needle
      that has capitals, so it holds for no page at all. */
  lemma GenericNeverFires(html: string)
    ensures !GenericNotFoundTest(html)
  {
  }

  /** A lower-cased page never contains "Not Found": its 'N' would be a
      capital. */
  lemma LowerLacksCapitalNeedle(html: string)
    ensures !Includes(ToLowerCase(html), NotFoundText)
  {
    var l := ToLowerCase(html);
    if Includes(l, NotFoundText) {
      IncludesCharIn(l, NotFoundText, 0);
      var i :| 0 <= i < |l| && l[i] == 'N';
      LowerIsNeverCapital(html[i]);
    }
  }

  /** The corrected test fires exactly on the pages that contain "not found"
      in some capitalisation. */
  lemma GenericCorrectedSpec(html: string)
    ensures GenericNotFoundTestCorrected(html) <==>
      exists w :: Includes(html, w) && ToLowerCase(w) == "not found"
  {
    var l := ToLowerCase(html);
    assert ToLowerCase(NotFoundText) == "not found";
    if GenericNotFoundTestCorrected(html) {
      var i :| OccursAt(l, "not found", i);
      var w := html[i..i + 9];
      assert ToLowerCase(w) == l[i..i + 9];
      assert OccursAt(html, w, i);
    }
    if w :| Includes(html, w) && ToLowerCase(w) == "not found" {
      IncludesLowered(html, w);
    }
  }

  /** A page saying "Not Found" in those very capitals: the test as written
      misses it, the corrected one reports it. */
  lemma GenericFinding()
    ensures Includes("404 Not Found", NotFoundText)
    ensures !GenericNotFoundTest("404 Not Found")
    ensures GenericNotFoundTestCorrected("404 Not Found")
  {
    assert OccursAt("404 Not Found", NotFoundText, 4);
    GenericNeverFires("404 Not Found");
    IncludesLowered("404 Not Found", NotFoundText);
  }

  /** Literal patterns written one after the other spell the concatenation. */
  lemma SpellsConcat(ps: seq<Piece>, p: string, w: string, qs: seq<Piece>, q: string, v: string)
    requires Spells(ps, p, w) && Spells(qs, q, v)
    ensures Spells(ps + qs, p + q, w + v)
  {
    PiecesOkConcat(ps, qs);
    TextConcat(ps, qs);
    SpellConcat(ps, qs);
  }

  lemma WwwDotPieces()
    ensures Spells([Word("www"), Class(".")], "www[.]", "www.")
  {
  }

  lemma YoutubeDotPieces()
    ensures Spells([Word("youtube"), Class(".")], "youtube[.]", "youtube.")
  {
  }

  lemma ComPieces()
    ensures Spells([Word("com")], "com", "com")
  {
  }

  lemma YoutubeComPieces()
    ensures Spells([Word("youtube"), Class("."), Word("com")], "youtube[.]com", "youtube.com")
  {
    YoutubeDotPieces();
    ComPieces();
    SpellsConcat([Word("youtube"), Class(".")], "youtube[.]", "youtube.", [Word("com")], "com", "com");
    assert [Word("youtube"), Class(".")] + [Word("com")] == [Word("youtube"), Class("."), Word("com")];
  }

  lemma YoutubePieces(ps: seq<Piece>)
    requires ps == [Word("www"), Class("."), Word("youtube"), Class("."), Word("com")]
    ensures Spells(ps, "www[.]youtube[.]com", "www.youtube.com")
  {
    WwwDotPieces();
    YoutubeComPieces();
    SpellsConcat([Word("www"), Class(".")], "www[.]", "www.",
                 [Word("youtube"), Class("."), Word("com")], "youtube[.]com", "youtube.com");
    YoutubeHostSplit(ps);
    YoutubePatternSplit("www[.]", "youtube[.]com");
    YoutubeWordSplit("www.", "youtube.com");
  }

  // The three splits below are stated as lemmas of their own so that the
  // solver meets each literal concatenation in a small context; inlined into
  // `YoutubePieces` they make its proof costly.
  lemma YoutubeHostSplit(ps: seq<Piece>)
    requires ps == [Word("www"), Class("."), Word("youtube"), Class("."), Word("com")]
    ensures [Word("www"), Class(".")] + [Word("youtube"), Class("."), Word("com")] == ps
  {
  }

  lemma YoutubePatternSplit(a: string, b: string)
    requires a == "www[.]" && b == "youtube[.]com"
    ensures a + b == "www[.]youtube[.]com"
  {
  }

  lemma YoutubeWordSplit(a: string, b: string)
    requires a == "www." && b == "youtube.com"
    ensures a + b == "www.youtube.com"
  {
  }

  lemma YoutuBePieces()
    ensures Spells([Word("youtu"), Class("."), Word("be")], "youtu[.]be", "youtu.be")
  {
  }

  lemma WatchPieces()
    ensures PiecesOk([Word("/watc"), Maybe('h'), Word("v="), AnyStar])
    ensures Text([Word("/watc"), Maybe('h'), Word("v="), AnyStar]) == "/watch?v=.*"
    ensures Terms([Word("/watc"), Maybe('h'), Word("v="), AnyStar]) ==
      (Lits("/watc") + [Term(Exactly('h'), Opt)]) + Lits("v=") + [Term(Dot, Star)]
  {
  }

  lemma SoundcloudPieces()
    ensures PiecesOk([Word("soundcloud"), AnyOne, Word("com")])
    ensures Text([Word("soundcloud"), AnyOne, Word("com")]) == "soundcloud.com"
    ensures Terms([Word("soundcloud"), AnyOne, Word("com")]) ==
      [] + Lits("soundcloud") + ([Term(Dot, One)] + Lits("com"))
  {
  }

  /** config.js with both defects corrected: video pages are matched on
      their path alone, and the generic test ignores case. */
  const Corrected: Settings :=
    Source.(oembedUrls := OembedUrlsCorrected, genericNotFoundTest := GenericCaseInsensitive)

  lemma WatchCorrectedPieces()
    ensures Spells([Word("/watch")], "/watch", "/watch")
  {
  }

  /** The oEmbed table with the video rule's path pattern cut down to
      `/watch`: the path a parsed video URL actually has. */
  const OembedUrlsCorrected: seq<Rule<string>> :=
    [Rule("www[.]youtube[.]com", "/watch", YoutubeOembedPrefix)] + OembedUrls[1..]

  /** The video rule as written only matches paths that contain "v=", which
      is part of the query string, not of the path. */
  lemma WatchPathNeedsQuery(path: string)
    ensures IsMatch("/watch?v=.*", path).Returned?
    ensures IsMatch("/watch?v=.*", path) == Returned(true) ==> Includes(path, "v=") || path == "/watch?v=.*"
  {
    var ps := [Word("/watc"), Maybe('h'), Word("v="), AnyStar];
    WatchPieces();
    PiecesCompile(ps);
    if Search(Terms(ps), path) {
      LitsRun("v=");
      SearchRequiresRun(Lits("/watc") + [Term(Exactly('h'), Opt)], Lits("v="), "v=", [Term(Dot, Star)], path);
    }
  }

  lemma NotYoutuBe(s: string, w: string)
    requires s == "www.youtube.com" && w == "youtu.be"
    ensures !Includes(s, w)
  {
    forall i | 0 <= i <= 7
      ensures !OccursAt(s, w, i)
    {
      if i == 4 {
        Mismatch(s, w, i, 5);
      } else {
        Mismatch(s, w, i, 0);
      }
    }
  }

  /** No soundcloud.com pattern match without the word "soundcloud". */
  lemma SoundcloudNeedsName(host: string)
    ensures IsMatch("soundcloud.com", host).Returned?
    ensures IsMatch("soundcloud.com", host) == Returned(true) ==> Includes(host, "soundcloud")
  {
    var ps := [Word("soundcloud"), AnyOne, Word("com")];
    SoundcloudPieces();
    PiecesCompile(ps);
    if Search(Terms(ps), host) {
      LitsRun("soundcloud");
      SearchRequiresRun([], Lits("soundcloud"), "soundcloud", [Term(Dot, One)] + Lits("com"), host);
    }
  }

  /** The video rule as written rejects every path without "v=". */
  lemma WatchRuleMisses(url: Url)
    requires !Includes(url.pathname, "v=") && url.pathname != "/watch?v=.*"
    ensures RuleMatches(OembedUrls[0], url) == Returned(false)
  {
    var host := [Word("www"), Class("."), Word("youtube"), Class("."), Word("com")];
    YoutubePieces(host);
    LiteralIsMatch(host, "www[.]youtube[.]com", "www.youtube.com", url.hostname);
    WatchPathNeedsQuery(url.pathname);
  }

  lemma YoutuBeRuleMisses(url: Url)
    requires !Includes(url.hostname, "youtu.be") && url.hostname != "youtu[.]be"
    ensures RuleMatches(OembedUrls[1], url) == Returned(false)
  {
    YoutuBePieces();
    LiteralIsMatch([Word("youtu"), Class("."), Word("be")], "youtu[.]be", "youtu.be", url.hostname);
  }

  lemma SoundcloudRuleMisses(url: Url)
    requires !Includes(url.hostname, "soundcloud")
    ensures RuleMatches(OembedUrls[2], url) == Returned(false)
  {
    SoundcloudNeedsName(url.hostname);
  }

  lemma NoneOfThree<A>(rules: seq<Rule<A>>, url: Url)
    requires |rules| == 3
    requires RuleMatches(rules[0], url) == Returned(false)
    requires RuleMatches(rules[1], url) == Returned(false)
    requires RuleMatches(rules[2], url) == Returned(false)
    ensures FirstMatch(rules, url) == Returned(None)
  {
    FirstMatchNone(rules, url);
  }

  /** A URL on a host other than youtu.be and SoundCloud whose path lacks "v="
      matches no oEmbed rule of the table as written. */
  lemma OembedMisses(url: Url)
    requires !Includes(url.pathname, "v=") && url.pathname != "/watch?v=.*"
    requires !Includes(url.hostname, "youtu.be") && url.hostname != "youtu[.]be"
    requires !Includes(url.hostname, "soundcloud")
    ensures GetOembedUrl(OembedUrls, url) == Returned(None)
  {
    WatchRuleMisses(url);
    YoutuBeRuleMisses(url);
    SoundcloudRuleMisses(url);
    NoneOfThree(OembedUrls, url);
  }

  lemma WatchPathFacts(path: string)
    requires path == "/watch"
    ensures !Includes(path, "v=") && path != "/watch?v=.*"
  {
    assert 'v' !in path;
    MissingFirstChar(path, "v=");
  }

  lemma YoutubeHostFacts(host: string)
    requires host == "www.youtube.com"
    ensures !Includes(host, "youtu.be") && host != "youtu[.]be" && !Includes(host, "soundcloud")
  {
    NotYoutuBe(host, "youtu.be");
    assert 's' !in host;
    MissingFirstChar(host, "soundcloud");
  }

  /** A YouTube video page, whose parsed path is "/watch", matches no oEmbed
      rule of the table as written, so it is fetched as an ordinary page. */
  lemma WatchUrlNotTranslated(url: Url)
    requires url.hostname == "www.youtube.com" && url.pathname == "/watch"
    ensures GetOembedUrl(OembedUrls, url) == Returned(None)
  {
    WatchPathFacts(url.pathname);
    YoutubeHostFacts(url.hostname);
    OembedMisses(url);
  }

  /** With the corrected table, every video page on www.youtube.com is
      probed through YouTube's oEmbed endpoint. */
  lemma WatchUrlTranslated(url: Url)
    requires Includes(url.hostname, "www.youtube.com") && Includes(url.pathname, "/watch")
    ensures GetOembedUrl(OembedUrlsCorrected, url) == Returned(Some(YoutubeOembedPrefix + url.href))
  {
    var host := [Word("www"), Class("."), Word("youtube"), Class("."), Word("com")];
    YoutubePieces(host);
    LiteralIsMatch(host, "www[.]youtube[.]com", "www.youtube.com", url.hostname);
    WatchCorrectedPieces();
    LiteralIsMatch([Word("/watch")], "/watch", "/watch", url.pathname);
    FirstMatchAt(OembedUrlsCorrected, url, 0);
  }

  /** Neither video rule claims a host that is not www.youtube.com. */
  lemma VideoRulesSkip(url: Url)
    requires !Includes(url.hostname, "www.youtube.com") && url.hostname != "www[.]youtube[.]com"
    ensures RuleMatches(OembedUrls[0], url) == Returned(false)
    ensures RuleMatches(OembedUrlsCorrected[0], url) == Returned(false)
  {
    var host := [Word("www"), Class("."), Word("youtube"), Class("."), Word("com")];
    YoutubePieces(host);
    LiteralIsMatch(host, "www[.]youtube[.]com", "www.youtube.com", url.hostname);
  }

  lemma ShortLinkRule(url: Url)
    requires Includes(url.hostname, "youtu.be") && Includes(url.pathname, "/")
    ensures RuleMatches(OembedUrls[1], url) == Returned(true)
    ensures OembedUrlsCorrected[1] == OembedUrls[1]
  {
    YoutuBePieces();
    LiteralIsMatch([Word("youtu"), Class("."), Word("be")], "youtu[.]be", "youtu.be", url.hostname);
    AnyPath(url.pathname);
  }

  /** A youtu.be short link is probed through YouTube's oEmbed endpoint by
      either table: the video rule before it never claims that host. */
  lemma ShortLinkTranslated(url: Url)
    requires Includes(url.hostname, "youtu.be") && Includes(url.pathname, "/")
    requires !Includes(url.hostname, "www.youtube.com") && url.hostname != "www[.]youtube[.]com"
    ensures GetOembedUrl(OembedUrls, url) == Returned(Some(YoutubeOembedPrefix + url.href))
    ensures GetOembedUrl(OembedUrlsCorrected, url) == Returned(Some(YoutubeOembedPrefix + url.href))
  {
    VideoRulesSkip(url);
    ShortLinkRule(url);
    SecondRuleWins(OembedUrls, url);
    SecondRuleWins(OembedUrlsCorrected, url);
  }

  lemma SecondRuleWins(rules: seq<Rule<string>>, url: Url)
    requires |rules| >= 2
    requires RuleMatches(rules[0], url) == Returned(false)
    requires RuleMatches(rules[1], url) == Returned(true)
    ensures GetOembedUrl(rules, url) == Returned(Some(rules[1].action + url.href))
  {
    assert NoneMatchBefore(rules, url, 1);
    FirstMatchAt(rules, url, 1);
  }

  /** A link on the host youtu.be itself, which is what the short-link rule
      is for, is probed through YouTube's oEmbed endpoint by either table. */
  lemma ShortHostLinkTranslated(url: Url)
    requires url.hostname == "youtu.be" && Includes(url.pathname, "/")
    ensures GetOembedUrl(OembedUrls, url) == Returned(Some(YoutubeOembedPrefix + url.href))
    ensures GetOembedUrl(OembedUrlsCorrected, url) == Returned(Some(YoutubeOembedPrefix + url.href))
  {
    ShortHostFacts(url.hostname);
    ShortLinkTranslated(url);
  }

  /** The host youtu.be meets the host conditions of `ShortLinkTranslated`. */
  lemma ShortHostFacts(host: string)
    requires host == "youtu.be"
    ensures Includes(host, "youtu.be") && !Includes(host, "www.youtube.com") && host != "www[.]youtube[.]com"
  {
    assert OccursAt(host, "youtu.be", 0);
  }
}
