/** The crawler of log-broken-links.js: the report decision for an external
    link, the dispatch of the anchors found on a page, the walk over a
    directory of saved pages, and the seed loop of `start`. HTTP, HTML
    parsing, URL parsing and the file system are inputs. */
module Crawl {
  import opened Wrappers
  import opened Strings
  import opened Urls
  import opened Rules
  import opened Config

  /** `isOk`: a 2xx status. */
  function IsOk(status: int): (ok: bool)
    ensures ok <==> status / 100 == 2
  {
    200 <= status && status < 300
  }

  datatype Request = Head | Get

  datatype Response = Response(status: int, body: string)

  /** What an HTTP request yields: a response, or an error the client
      throws (network failure, timeout). */
  datatype Fetched = Got(response: Response) | FetchError

  /** The HTTP client, as a value: the outcome of each request to each URL. */
  type Fetcher = (Request, string) -> Fetched

  /** The kinds of problem the crawler reports on the error console. */
  datatype Report =
    | ProbeFailed(status: int)   // the oEmbed probe answered with a non-2xx status
    | FetchFailed(status: int)   // the page answered with a non-2xx status
    | RequestError               // the request, or a rule lookup inside the `try`, threw
    | MatchesSiteTest            // the body satisfies the host-specific test
    | MatchesGenericTest         // the body satisfies the generic test
    | EmptyContent               // a 2xx response with an empty body

  /** What `checkExternalPage` does with a URL. `Rejected`: `getOembedUrl`
      threw outside the `try`, so the task's promise rejects. `Undetermined`:
      a rule pattern uses syntax outside the modelled fragment. */
  datatype ExternalOutcome =
    | Checked(request: Request, target: string, report: Option<Report>)
    | Rejected
    | Undetermined

  /** The inspection of a 2xx body (lines 95-117): skipped for always-404
      URLs, a complaint for an empty body, otherwise the host-specific test
      when one exists and the generic test when none does. */
  function Inspect(cfg: Settings, url: Url, body: string): (r: Try<Option<Report>>)
    ensures r == Returned(None) || r.Threw? || r.Unmodelled? ||
            r == Returned(Some(EmptyContent)) || r == Returned(Some(MatchesSiteTest)) ||
            r == Returned(Some(MatchesGenericTest))
    ensures r.Threw? <==>
      IsNotFoundUrl(cfg.notfoundUrls, url).Threw? ||
      (IsNotFoundUrl(cfg.notfoundUrls, url) == Returned(false) && body != "" &&
       GetNotFoundTest(cfg.notFoundTests, url).Threw?)
    ensures r.Unmodelled? <==>
      IsNotFoundUrl(cfg.notfoundUrls, url).Unmodelled? ||
      (IsNotFoundUrl(cfg.notfoundUrls, url) == Returned(false) && body != "" &&
       GetNotFoundTest(cfg.notFoundTests, url).Unmodelled?)
  {
    match IsNotFoundUrl(cfg.notfoundUrls, url)
    case Threw => Threw
    case Unmodelled => Unmodelled
    case Returned(true) => Returned(None)
    case Returned(false) =>
      if body == "" then Returned(Some(EmptyContent))
      else
        match GetNotFoundTest(cfg.notFoundTests, url)
        case Threw => Threw
        case Unmodelled => Unmodelled
        case Returned(Some(rule)) =>
          Returned(if RunTest(rule.action, body) then Some(MatchesSiteTest) else None)
        case Returned(None) =>
          Returned(if RunTest(cfg.genericNotFoundTest, body) then Some(MatchesGenericTest) else None)
  }

  /** `checkExternalPage`: probe the oEmbed redirect with HEAD when a rule
      translates the URL, otherwise GET the page and inspect it. */
  function CheckExternalPage(cfg: Settings, url: Url, fetch: Fetcher): (r: ExternalOutcome)
    ensures r.Checked? && r.report.Some? && r.report.value.ProbeFailed? ==> r.request == Head
    ensures r.Checked? && r.report.Some? && r.report.value.FetchFailed? ==> r.request == Get
  {
    match GetOembedUrl(cfg.oembedUrls, url)
    case Threw => Rejected
    case Unmodelled => Undetermined
    case Returned(Some(oembed)) =>
      Checked(Head, oembed,
        match fetch(Head, oembed)
        case FetchError => Some(RequestError)
        case Got(res) => if IsOk(res.status) then None else Some(ProbeFailed(res.status)))
    case Returned(None) =>
      match fetch(Get, url.href)
      case FetchError => Checked(Get, url.href, Some(RequestError))
      case Got(res) =>
        if !IsOk(res.status) then Checked(Get, url.href, Some(FetchFailed(res.status)))
        else
          match Inspect(cfg, url, res.body)
          case Returned(report) => Checked(Get, url.href, report)
          case Threw => Checked(Get, url.href, Some(RequestError))
          case Unmodelled => Undetermined
  }

  /** A translated URL is only probed: one HEAD to the redirect, a report
      only for a non-2xx status or an error, and nothing read from the body. */
  lemma OembedProbeOnly(cfg: Settings, url: Url, fetch: Fetcher, other: Fetcher, oembed: string)
    requires GetOembedUrl(cfg.oembedUrls, url) == Returned(Some(oembed))
    requires fetch(Head, oembed).Got? <==> other(Head, oembed).Got?
    requires fetch(Head, oembed).Got? ==> fetch(Head, oembed).response.status == other(Head, oembed).response.status
    ensures CheckExternalPage(cfg, url, fetch).Checked?
    ensures CheckExternalPage(cfg, url, fetch).request == Head
    ensures CheckExternalPage(cfg, url, fetch).target == oembed
    ensures CheckExternalPage(cfg, url, fetch).report == None <==>
      fetch(Head, oembed).Got? && IsOk(fetch(Head, oembed).response.status)
    ensures CheckExternalPage(cfg, url, fetch).report.Some? ==>
      CheckExternalPage(cfg, url, fetch).report.value.ProbeFailed? ||
      CheckExternalPage(cfg, url, fetch).report.value.RequestError?
    ensures CheckExternalPage(cfg, url, fetch) == CheckExternalPage(cfg, url, other)
  {
  }

  /** An untranslated page with a non-2xx status is reported as failed. */
  lemma NonOkReportsFailure(cfg: Settings, url: Url, fetch: Fetcher)
    requires GetOembedUrl(cfg.oembedUrls, url) == Returned(None)
    requires fetch(Get, url.href).Got? && !IsOk(fetch(Get, url.href).response.status)
    ensures CheckExternalPage(cfg, url, fetch) ==
      Checked(Get, url.href, Some(FetchFailed(fetch(Get, url.href).response.status)))
  {
  }

  /** A GET that throws (a network failure, a timeout) is reported as an
      error. */
  lemma GetErrorReported(cfg: Settings, url: Url, fetch: Fetcher)
    requires GetOembedUrl(cfg.oembedUrls, url) == Returned(None)
    requires fetch(Get, url.href).FetchError?
    ensures CheckExternalPage(cfg, url, fetch) == Checked(Get, url.href, Some(RequestError))
  {
  }

  /** A rule lookup that throws inside the `try` is reported as an error,
      like a failed request. */
  lemma LookupThrowReported(cfg: Settings, url: Url, fetch: Fetcher)
    requires GetOembedUrl(cfg.oembedUrls, url) == Returned(None)
    requires fetch(Get, url.href).Got? && IsOk(fetch(Get, url.href).response.status)
    requires IsNotFoundUrl(cfg.notfoundUrls, url).Threw? ||
      (IsNotFoundUrl(cfg.notfoundUrls, url) == Returned(false) && fetch(Get, url.href).response.body != "" &&
       GetNotFoundTest(cfg.notFoundTests, url).Threw?)
    ensures CheckExternalPage(cfg, url, fetch) == Checked(Get, url.href, Some(RequestError))
  {
  }

  /** `getOembedUrl` runs before the `try`: when it throws, the check
      rejects without any request, whatever the network does. */
  lemma OembedThrowRejects(cfg: Settings, url: Url, fetch: Fetcher)
    requires GetOembedUrl(cfg.oembedUrls, url).Threw?
    ensures CheckExternalPage(cfg, url, fetch) == Rejected
  {
  }

  /** For an untranslated URL, an error is reported exactly when the GET
      threw or a lookup inside the `try` threw. */
  lemma RequestErrorCauses(cfg: Settings, url: Url, fetch: Fetcher)
    requires GetOembedUrl(cfg.oembedUrls, url) == Returned(None)
    ensures CheckExternalPage(cfg, url, fetch) == Checked(Get, url.href, Some(RequestError)) <==>
      fetch(Get, url.href).FetchError? ||
      (fetch(Get, url.href).Got? && IsOk(fetch(Get, url.href).response.status) &&
       (IsNotFoundUrl(cfg.notfoundUrls, url).Threw? ||
        (IsNotFoundUrl(cfg.notfoundUrls, url) == Returned(false) && fetch(Get, url.href).response.body != "" &&
         GetNotFoundTest(cfg.notFoundTests, url).Threw?)))
  {
    if fetch(Get, url.href).Got? {
      var res := fetch(Get, url.href).response;
      if IsOk(res.status) {
        var r := Inspect(cfg, url, res.body);
        assert r != Returned(Some(RequestError));
      }
    }
  }

  /** A 2xx page the always-404 table claims draws no report, whatever its
      body. */
  lemma AlwaysNotFoundNoReport(cfg: Settings, url: Url, fetch: Fetcher)
    requires GetOembedUrl(cfg.oembedUrls, url) == Returned(None)
    requires fetch(Get, url.href).Got? && IsOk(fetch(Get, url.href).response.status)
    requires exists i :: 0 <= i < |cfg.notfoundUrls| && NoneMatchBefore(cfg.notfoundUrls, url, i) &&
                         RuleMatches(cfg.notfoundUrls[i], url) == Returned(true)
    ensures CheckExternalPage(cfg, url, fetch) == Checked(Get, url.href, None)
  {
    var i :| 0 <= i < |cfg.notfoundUrls| && NoneMatchBefore(cfg.notfoundUrls, url, i) &&
             RuleMatches(cfg.notfoundUrls[i], url) == Returned(true);
    FirstMatchAt(cfg.notfoundUrls, url, i);
  }

  /** A 2xx page with an empty body, not claimed by the always-404 table, is
      reported as empty. */
  lemma EmptyBodyReport(cfg: Settings, url: Url, fetch: Fetcher)
    requires GetOembedUrl(cfg.oembedUrls, url) == Returned(None)
    requires fetch(Get, url.href).Got? && IsOk(fetch(Get, url.href).response.status)
    requires fetch(Get, url.href).response.body == ""
    requires NoneMatchBefore(cfg.notfoundUrls, url, |cfg.notfoundUrls|)
    ensures CheckExternalPage(cfg, url, fetch) == Checked(Get, url.href, Some(EmptyContent))
  {
    FirstMatchNone(cfg.notfoundUrls, url);
  }

  /** A non-empty 2xx body is judged by the first matching host-specific test
      when there is one, and by the generic test otherwise. */
  lemma ContentTestSelection(cfg: Settings, url: Url, fetch: Fetcher)
    requires GetOembedUrl(cfg.oembedUrls, url) == Returned(None)
    requires fetch(Get, url.href).Got? && IsOk(fetch(Get, url.href).response.status)
    requires fetch(Get, url.href).response.body != ""
    requires NoneMatchBefore(cfg.notfoundUrls, url, |cfg.notfoundUrls|)
    requires GetNotFoundTest(cfg.notFoundTests, url).Returned?
    ensures var body := fetch(Get, url.href).response.body;
      CheckExternalPage(cfg, url, fetch) ==
      Checked(Get, url.href,
        match GetNotFoundTest(cfg.notFoundTests, url).value
        case Some(rule) => if RunTest(rule.action, body) then Some(MatchesSiteTest) else None
        case None => if RunTest(cfg.genericNotFoundTest, body) then Some(MatchesGenericTest) else None)
  {
    FirstMatchNone(cfg.notfoundUrls, url);
  }

  /** A site-specific test overrides the generic one: when a test rule
      matches, the generic test is never consulted. */
  lemma SiteTestOverridesGeneric(cfg: Settings, url: Url, fetch: Fetcher, i: int)
    requires GetOembedUrl(cfg.oembedUrls, url) == Returned(None)
    requires fetch(Get, url.href).Got? && IsOk(fetch(Get, url.href).response.status)
    requires 0 <= i < |cfg.notFoundTests| && NoneMatchBefore(cfg.notFoundTests, url, i)
    requires RuleMatches(cfg.notFoundTests[i], url) == Returned(true)
    ensures CheckExternalPage(cfg, url, fetch) != Checked(Get, url.href, Some(MatchesGenericTest))
  {
    FirstMatchAt(cfg.notFoundTests, url, i);
  }

  /** With the generic test as written, no page is ever reported through it. */
  lemma AsWrittenNeverReportsGeneric(cfg: Settings, url: Url, fetch: Fetcher)
    requires cfg.genericNotFoundTest == GenericAsWritten
    ensures CheckExternalPage(cfg, url, fetch) != Checked(Get, url.href, Some(MatchesGenericTest))
  {
    if fetch(Get, url.href).Got? {
      GenericNeverFires(fetch(Get, url.href).response.body);
    }
  }

  /** As shipped, the crawler never reports a page through the generic test. */
  lemma SourceNeverReportsGeneric(url: Url, fetch: Fetcher)
    ensures CheckExternalPage(Source, url, fetch) != Checked(Get, url.href, Some(MatchesGenericTest))
  {
    AsWrittenNeverReportsGeneric(Source, url, fetch);
  }

  /** A URL no oEmbed rule translates is never probed with HEAD. */
  lemma UntranslatedIsFetched(cfg: Settings, url: Url, fetch: Fetcher)
    requires GetOembedUrl(cfg.oembedUrls, url) == Returned(None)
    ensures CheckExternalPage(cfg, url, fetch).Checked? ==>
      CheckExternalPage(cfg, url, fetch).request == Get && CheckExternalPage(cfg, url, fetch).target == url.href
  {
  }

  /** With the corrected configuration, a 2xx page saying "Not Found" in any
      capitalisation, with no oEmbed rule, always-404 rule or site test for
      it, is reported through the generic test. */
  lemma CorrectedReportsGeneric(url: Url, fetch: Fetcher, w: string)
    requires GetOembedUrl(Corrected.oembedUrls, url) == Returned(None)
    requires fetch(Get, url.href).Got? && IsOk(fetch(Get, url.href).response.status)
    requires Includes(fetch(Get, url.href).response.body, w) && ToLowerCase(w) == "not found"
    requires NoneMatchBefore(Corrected.notfoundUrls, url, |Corrected.notfoundUrls|)
    requires GetNotFoundTest(Corrected.notFoundTests, url) == Returned(None)
    ensures CheckExternalPage(Corrected, url, fetch) == Checked(Get, url.href, Some(MatchesGenericTest))
  {
    var body := fetch(Get, url.href).response.body;
    GenericCorrectedSpec(body);
    FirstMatchNone(Corrected.notfoundUrls, url);
  }

  /** A karent.jp artist page that shows the missing-artist text is reported
      through the karent.jp test. */
  lemma KarentReport(url: Url, fetch: Fetcher)
    requires GetOembedUrl(Source.oembedUrls, url) == Returned(None)
    requires IsNotFoundUrl(Source.notfoundUrls, url) == Returned(false)
    requires KarentArtistUrl(url)
    requires fetch(Get, url.href).Got? && IsOk(fetch(Get, url.href).response.status)
    requires Includes(fetch(Get, url.href).response.body, KarentMissingText)
    ensures CheckExternalPage(Source, url, fetch) == Checked(Get, url.href, Some(MatchesSiteTest))
  {
    var body := fetch(Get, url.href).response.body;
    KarentSelection(url);
    KarentTestSpec(body);
    assert body != "" by {
      if body == "" {
        IncludesCharIn(body, KarentMissingText, 0);
      }
    }
  }

  /** A YouTube video page is fetched as an ordinary page by the shipped
      configuration, and probed through oEmbed by the corrected one. */
  lemma VideoPageRequest(url: Url, fetch: Fetcher)
    requires url.hostname == "www.youtube.com" && url.pathname == "/watch"
    ensures !(CheckExternalPage(Source, url, fetch).Checked? && CheckExternalPage(Source, url, fetch).request == Head)
    ensures CheckExternalPage(Corrected, url, fetch).Checked?
    ensures CheckExternalPage(Corrected, url, fetch).request == Head
    ensures CheckExternalPage(Corrected, url, fetch).target == YoutubeOembedPrefix + url.href
  {
    VideoPageFetched(url, fetch);
    VideoPageProbed(url, fetch);
  }

  /** The shipped table leaves a video page untranslated, so it is fetched. */
  lemma VideoPageFetched(url: Url, fetch: Fetcher)
    requires url.hostname == "www.youtube.com" && url.pathname == "/watch"
    ensures !(CheckExternalPage(Source, url, fetch).Checked? && CheckExternalPage(Source, url, fetch).request == Head)
  {
    WatchUrlNotTranslated(url);
    UntranslatedIsFetched(Source, url, fetch);
  }

  /** The corrected table probes a video page at YouTube's endpoint. */
  lemma VideoPageProbed(url: Url, fetch: Fetcher)
    requires url.hostname == "www.youtube.com" && url.pathname == "/watch"
    ensures CheckExternalPage(Corrected, url, fetch).Checked?
    ensures CheckExternalPage(Corrected, url, fetch).request == Head
    ensures CheckExternalPage(Corrected, url, fetch).target == YoutubeOembedPrefix + url.href
  {
    WatchPathFacts(url.pathname);
    assert Includes(url.pathname, "/watch") by {
      assert OccursAt(url.pathname, "/watch", 0);
    }
    assert Includes(url.hostname, "www.youtube.com") by {
      assert OccursAt(url.hostname, "www.youtube.com", 0);
    }
    WatchUrlTranslated(url);
    OembedProbeOnly(Corrected, url, fetch, fetch, YoutubeOembedPrefix + url.href);
  }

}
