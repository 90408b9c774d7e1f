# log-broken-links, modelled in Dafny

log-broken-links is a crawler that looks for broken links. It has two modes:

- **URL mode:** it starts from seed URLs, follows the links of pages on the same host, and checks every link to another host.
- **Directory mode:** it walks a directory of saved HTML pages and checks each link found in them that is not a `mailto` link and whose `href`, resolved against `file:///`, is already the serialised absolute URL. So `https://example.com/` is checked, while `https://example.com` (serialised with a trailing `/`) and relative links are skipped.

An external link is checked in one of two ways:

- **oEmbed probe:** a `HEAD` request to an oEmbed endpoint, used when a rule translates the link (YouTube, SoundCloud).
- **Page fetch:** a `GET` of the page itself.
  - A 2xx page may be exempt: it is on an "always 404" host, whose error pages are not worth inspecting.
  - Otherwise a non-empty page is judged by a host-specific "soft 404" content test, or by a generic one when no host-specific test applies.

All tasks go through a small admission queue. The queue bounds how many tasks run at once. After each task that returns normally, when the rate limit is positive, it holds the task's slot during a rate-limit sleep; a task that throws releases its slot at once.

This project models the following as pure Dafny functions:

- the rule tables and content tests of `config.js`;
- the rule matching, the lookups, the report decision and the link dispatch of `log-broken-links.js`;
- the admission bookkeeping of `queue.js`, as an event-driven state machine.

It then proves properties of them. The world is passed in as values:

- an HTTP response is a `Fetcher`;
- the anchors of a page come from an `Extractor`;
- URL parsing (the WHATWG URL Standard) is a `Resolver`;
- the file system is a tree of `Node`s.

Files:

- `wrappers.dfy`:
  - `Option`;
  - `Try`, the outcome of code that may throw. `Unmodelled` marks a rule pattern outside the regular-expression fragment below.
- `strings.dfy`: `includes`, `startsWith` and `toLowerCase`.
  - `toLowerCase` lowers exactly the capitals A–Z, U+00C0–U+00DE except U+00D7, U+0391–U+03A9 except U+03A2, and U+0400–U+042F, and leaves every other character unchanged.
- `regex.dfy`: `new RegExp(p).test(s)` for the fragment of ECMAScript regular expressions that the tables use (section 22.2 of ECMA-262):
  - literal characters, `.`, bracketed sets of plain characters, `*` and `?` (with the lazy `?` marker);
  - an unanchored search;
  - a `SyntaxError` for a quantifier with nothing to repeat or an unterminated set.
- `rules.dfy`: `isMatch`, and the first-match loop shared by `getOembedUrl`, `isNotFoundUrl` and `getNotFoundTest`.
- `config.dfy`:
  - the three rule tables and the two content tests, together with the crawler's settings (`Source`);
  - a corrected configuration (`Corrected`) for the two findings below.
- `crawl.dfy`: `isOk` and the decision tree of `checkExternalPage`.
- `pages.dfy`: the anchor dispatch of `checkInternalPageByUrl`, the directory walk of `checkInternalPagesByDir`, and `start`.
- `queue.dfy`: `Queue`'s constructor and `add`.

Some things the code does differ from what its own comments and settings say. The model follows the code:

- Nothing records visited pages. An internal page is fetched again every time a link to it is found.
- In directory mode, the first entry that is not a regular file is walked. Its later siblings are not visited, because `return` leaves the loop.
- In URL mode, the first seed that does not parse ends the seed loop. The `return` at log-broken-links.js:260 is commented `// continue to next iteration`, but it sits in a `for` loop and leaves `start`. The same comment is accurate at log-broken-links.js:166 and :224, where `return` leaves one call of the `.each` callback.
- `Queue`'s active count includes the parked callers. Only the tasks that hold a slot are bounded by the limit.
- A YouTube watch link is not translated to an oEmbed probe (see Findings).
- `retries: 3` and `retriesTimeout` (config.js:9-10) promise retries of failed requests, but no code reads them: every request is made once.

## Model

| member | source | states |
|---|---|---|
| Regex.Test | log-broken-links.js:24 | `new RegExp(p).test(s)`: throws exactly when the pattern is a syntax error; otherwise true exactly when the compiled pattern matches at some position of `s` (unanchored) |
| Regex.Compile | log-broken-links.js:24 | `new RegExp(p)` on the fragment: a successful compilation yields at most one term per character of the pattern, and no terms exactly for the empty pattern |
| Regex.CompileRender | log-broken-links.js:24 | every term sequence of the fragment, written out as a pattern, compiles back to the same terms |
| Regex.InFragmentIsModelled | log-broken-links.js:24 | a pattern built only from the fragment's syntax never falls outside the model |
| Regex.RunIsRequired | log-broken-links.js:24 | a match of a pattern that contains a run of literal characters spelling `w` implies the subject contains `w` |
| Regex.SearchRun | log-broken-links.js:24 | a literal run followed by terms that can match the empty string is found exactly when the subject contains the run's word |
| Regex.LiteralTest | log-broken-links.js:24 | a literal pattern, with or without a trailing `.*`, tests true exactly when the subject contains its word |
| Rules.IsMatch | log-broken-links.js:22-25 | the regular-expression test or plain equality; a pattern that does not compile throws even when it equals the subject; a compiling pattern always matches itself |
| Rules.RuleMatches | log-broken-links.js:31 | a rule matches exactly when its hostname pattern matches the hostname and its path pattern matches the pathname; the path pattern can only throw after the hostname matched |
| Rules.FirstMatch | log-broken-links.js:29-35 | the loop shared by the three lookups: a rule it returns belongs to the table and matches the URL, and it throws only if some rule's test throws |
| Rules.GetOembedUrl | log-broken-links.js:27-36 | `getOembedUrl` returns null exactly when every rule returns false; a redirect is some matching rule's prefix followed by the URL's href, so it ends with that href |
| Rules.IsNotFoundUrl | log-broken-links.js:38-47 | `isNotFoundUrl` returns false exactly when every rule returns false, and true only when some rule of the table matches |
| Rules.GetNotFoundTest | log-broken-links.js:49-58 | `getNotFoundTest` returns null exactly when every rule returns false; a rule it returns belongs to the table and matches the URL |
| Rules.FirstMatchNone | log-broken-links.js:29-35 | the lookup returns nothing exactly when every rule was tested and returned false |
| Rules.FirstMatchAt | log-broken-links.js:29-33 | when rule `i` is the first to match, it is returned; when it is the first to throw, the lookup throws |
| Rules.FirstMatchFound | log-broken-links.js:49-58 | a returned rule is the first rule that matches |
| Rules.FirstMatchFailed | log-broken-links.js:49-58 | a lookup that throws met, before any match, a rule whose test threw |
| Rules.GetOembedUrlSpec | log-broken-links.js:27-36 | the redirect is the first matching rule's prefix followed by the URL's href; null exactly when no rule matches |
| Rules.GetOembedUrlFound | log-broken-links.js:27-36 | every redirect is some rule's prefix followed by the URL's href |
| Rules.IsNotFoundUrlAny | log-broken-links.js:38-47 | with compiling patterns, `isNotFoundUrl` is true exactly when some rule matches |
| Config.OembedTargets | config.js:103-119 | every oEmbed redirect is YouTube's endpoint or SoundCloud's, followed by the page's href; both YouTube rules share the prefix |
| Config.AnyPath | config.js:18 | the path pattern `/.*` matches exactly the pathnames that contain a `/` |
| Config.TwitterRule | config.js:16-19 | the twitter rule matches exactly when the hostname contains `twitter.com` and the pathname contains `/` |
| Config.TwitterIsNotFoundUrl | config.js:16-19 | every such URL is classified as always-404 |
| Config.KarentSelection | config.js:122-131 | the karent test is selected exactly for hostnames containing `karent.jp` with pathnames containing `/artist/` |
| Config.KarentTest | config.js:126-129 | the karent.jp test holds exactly when the page contains the missing-artist text |
| Config.GenericNotFoundTest | config.js:134-137 | the generic test, as written, holds for no page |
| Config.KarentTestSpec | config.js:126-129 | the karent test holds exactly when the page contains the missing-artist text, which lower-casing leaves unchanged |
| Config.GenericNeverFires | config.js:134-137 | the generic test is false for every page |
| Config.GenericFinding | config.js:134-137 | a page reading "404 Not Found" contains the needle, yet fails the test as written and passes the corrected one |
| Config.GenericCorrectedSpec | config.js:134-137 | the corrected test holds exactly when the page contains some word that lower-cases to "not found" |
| Config.WatchPathNeedsQuery | config.js:106 | the watch path pattern only matches pathnames that contain `v=` |
| Config.WatchUrlNotTranslated | config.js:104-108 | the pathname `/watch` of a video page on `www.youtube.com` matches no oEmbed rule |
| Config.WatchUrlTranslated | config.js:104-108 | with the corrected watch rule, a video page is translated to YouTube's endpoint |
| Config.OembedMisses | config.js:103-119 | a URL with no `v=` in the path, no `youtu.be` and no `soundcloud` in the hostname is never translated |
| Config.ShortLinkTranslated | config.js:109-113 | a `youtu.be` link is translated to YouTube's endpoint, by both configurations |
| Config.ShortHostLinkTranslated | config.js:109-113 | a link on the host `youtu.be` with a `/` in its path is translated to YouTube's endpoint, by both configurations |
| Crawl.IsOk | log-broken-links.js:17-20 | `isOk` holds exactly for the statuses whose hundreds digit is 2 |
| Crawl.Inspect | log-broken-links.js:95-117 | the inspection of a 2xx body yields no report, an empty-content report, a site-test report or a generic-test report; it throws exactly when the always-404 lookup throws, or that lookup says no, the body is non-empty and the site-test lookup throws |
| Crawl.CheckExternalPage | log-broken-links.js:60-130 | a probe failure only ever comes from a HEAD request and a page failure only from a GET |
| Crawl.OembedProbeOnly | log-broken-links.js:64-82 | a translated URL gets one HEAD to the redirect, a report only on a non-2xx status or an error, and an outcome that does not depend on anything but that status |
| Crawl.NonOkReportsFailure | log-broken-links.js:119-122 | an untranslated page answering non-2xx is reported as failed with its status |
| Crawl.GetErrorReported | log-broken-links.js:124-127 | a GET that throws is reported as an error for the page's own href |
| Crawl.LookupThrowReported | log-broken-links.js:95-127 | a rule lookup that throws while inspecting a 2xx page is reported as an error |
| Crawl.OembedThrowRejects | log-broken-links.js:64 | a throwing redirect lookup, which runs before the `try`, rejects the check whatever the network does |
| Crawl.RequestErrorCauses | log-broken-links.js:84-127 | for an untranslated URL, an error is reported exactly when the GET throws or a lookup inside the `try` throws |
| Crawl.AlwaysNotFoundNoReport | log-broken-links.js:95 | a 2xx page on an always-404 URL draws no report, whatever its body |
| Crawl.EmptyBodyReport | log-broken-links.js:113-116 | an empty 2xx page not claimed by the always-404 table is reported as empty |
| Crawl.ContentTestSelection | log-broken-links.js:101-111 | a non-empty 2xx page is judged by the first matching site test if any, otherwise by the generic test |
| Crawl.SiteTestOverridesGeneric | log-broken-links.js:103-111 | when a site test applies, the generic test never reports |
| Crawl.AsWrittenNeverReportsGeneric | log-broken-links.js:108-111 | with the generic test as written, no page is ever reported through it |
| Crawl.SourceNeverReportsGeneric | log-broken-links.js:108-111 | the shipped configuration never reports a page through the generic test |
| Crawl.UntranslatedIsFetched | log-broken-links.js:84-90 | an untranslated URL is checked with a GET of its own href, never a HEAD |
| Crawl.CorrectedReportsGeneric | log-broken-links.js:108-111 | with the corrected test, a 2xx page saying "Not Found" in any capitalisation, with no rule for it, is reported |
| Crawl.KarentReport | log-broken-links.js:101-106 | a karent.jp artist page showing the missing-artist text is reported through the site test |
| Crawl.VideoPageRequest | log-broken-links.js:64-73 | a YouTube video page is fetched as an ordinary page by the shipped configuration and probed with HEAD at YouTube's endpoint by the corrected one |
| Pages.CheckInternalPage | log-broken-links.js:132-191 | `checkInternalPageByUrl` yields a single report exactly when the GET throws, answers non-2xx or answers with an empty body; a report never comes with other events |
| Pages.DispatchAnchors | log-broken-links.js:150-174 | the anchor loop yields at most one event per anchor, each an enqueued task or an unparsable href |
| Pages.DispatchTasks | log-broken-links.js:150-173 | the enqueued tasks are those of the followed hrefs that resolve, each once and in document order, internal exactly when the host is the page's; the unparsable reports are the other followed hrefs |
| Pages.DispatchConcat | log-broken-links.js:150-174 | an unparsable href ends only its own iteration: dispatching two runs of anchors is dispatching each in turn |
| Pages.DispatchLength | log-broken-links.js:154-173 | each followed href produces exactly one event, every other href none |
| Pages.DroppedHrefs | log-broken-links.js:154 | absent, empty and `mailto` hrefs leave no trace |
| Pages.InternalPageFailure | log-broken-links.js:140-184 | a page that fails to load, or loads empty, produces exactly one report and enqueues nothing |
| Pages.DirAnchors | log-broken-links.js:208-230 | the anchor loop of a saved page only enqueues external tasks or logs unparsable hrefs |
| Pages.WalkDir | log-broken-links.js:193-243 | `checkInternalPagesByDir` only enqueues external tasks, logs unparsable hrefs or logs a file-system error, and an error is its last event |
| Pages.WalkEntries | log-broken-links.js:199-237 | the loop over a listing keeps the same event kinds, and a file-system error ends it |
| Pages.DirAnchorSpec | log-broken-links.js:208-230 | a saved page's href is enqueued, as external, exactly when it is non-empty, resolves against `file:///` to itself and is not a `mailto` link |
| Pages.DirModeOnlyExternal | log-broken-links.js:193-243 | a directory walk never enqueues an internal task, at any depth |
| Pages.EarlyReturn | log-broken-links.js:199-237 | the first entry that is not a readable file hides every later entry of its directory |
| Pages.NonFileEndsWalk | log-broken-links.js:233-236 | after the readable files before it, a non-file entry is walked and its later siblings are not |
| Pages.SavedPagesThen | log-broken-links.js:203-231 | readable files are processed in listing order before the entry that follows them |
| Pages.Seeds | log-broken-links.js:247-262 | the seed loop yields at most one event per seed: internal tasks with no referrer, and at most one unparsable seed, which comes last |
| Pages.Start | log-broken-links.js:245-272 | `start` enqueues only internal tasks with no referrer in URL mode, and only external tasks in directory mode |
| Pages.SeedsStopAtFirstUnparsable | log-broken-links.js:249-263 | the seeds before the first unparsable one are enqueued in order, that one is reported, and no later seed is looked at |
| Pages.SeedsAllParse | log-broken-links.js:249-263 | when every seed parses, each is enqueued once, in order, as an internal page |
| Pages.WalkAllExternal | log-broken-links.js:265-270 | walking all starting directories enqueues only external tasks |
| Pages.SourceStartsFromDirectories | log-broken-links.js:245-272 | as shipped, the crawler walks its one starting directory and enqueues only external tasks |
| TaskQueue.NewQueue | queue.js:6-11 | a new queue has nothing active and nothing parked, a default limit of one and a default rate limit of zero, and satisfies the invariant |
| TaskQueue.Admit | queue.js:17-20 | `add` raises the count by one and parks the caller at the FIFO tail exactly when the new count exceeds the limit; otherwise the task takes a slot at once |
| TaskQueue.Release | queue.js:29-34 | the `finally` block drops the count by one, settles the task's call, and hands the slot to the FIFO head if there is one |
| TaskQueue.Step | queue.js:17-35 | every event keeps the limits; settlements are only ever appended, at most one per event, and a new one is for the event's own task, which held a slot |
| TaskQueue.AddSuspends | queue.js:18-20 | `add` parks its caller exactly when the incremented count exceeds the limit, at the tail of the FIFO; otherwise the task starts at once |
| TaskQueue.StepValid | queue.js:17-35 | every event keeps the invariant: the parked tasks are exactly the ones beyond the slots, in call order, and every call settles at most once |
| TaskQueue.RunValid | queue.js:17-35 | every sequence of events keeps the invariant and the settings |
| TaskQueue.Admission | queue.js:18-33 | after any events, no more tasks than the limit hold a slot and the parked count is the active count minus the limit |
| TaskQueue.OneAtATime | queue.js:18-20 | a queue with a limit of one has at most one task holding a slot |
| TaskQueue.CrawlerRunsOneAtATime | log-broken-links.js:15 | the crawler's queue, built from its configuration, runs one task at a time |
| TaskQueue.WakesEarliest | queue.js:31-33 | a release starts only the head of the FIFO, the earliest call still parked |
| TaskQueue.SettleOnce | queue.js:27-34 | a task that throws, or returns with no rate limit, drops the count by exactly one, settles its own call once, and starts at most one parked task |
| TaskQueue.SleepEndsSettles | queue.js:24-34 | when the rate-limit sleep ends, the task settles with the value it returned, the count drops by exactly one, its own call settles once, and at most one parked task starts |
| TaskQueue.SleepHoldsSlot | queue.js:23-26 | the rate-limit sleep follows only a normal return with a positive limit, and the slot stays held while sleeping |
| TaskQueue.PassThrough | queue.js:22-28 | the caller of `add` receives exactly the value or error the task produced |

## Left out

- HTTP via axios is an input (`Fetcher`). Its timeout, its headers and any statuses it might turn into errors are not modelled.
- The response body is a string. A body axios parses into another type (JSON, for instance) is not modelled.
- HTML parsing via cheerio is an input (`Extractor`): the `href` of each anchor, in document order.
- URL parsing and resolution are an input (`Resolver`). A URL is its hostname, pathname and href.
- The file system is an input (a tree of `Node`s). `path.join` is modelled as joining with `/`, without normalisation.
- Console output is a list of events. The message texts are not modelled.
- Real time is not modelled. This covers `sleep`, the rate-limit duration and the timeout.
- The interleaving of promises is not modelled. A parked task counts as running from the moment it is shifted off the FIFO, not when its continuation resumes.
- The promises that `queue.add` returns are not awaited by the crawler, so tasks are not linked to the events of the pages they came from.
- The `if (url)` guards of `checkExternalPage` and `checkInternalPageByUrl` are not modelled: callers always pass a parsed URL.
- `Crawl.CheckExternalPage` treats every redirect `getOembedUrl` returns as present, where the `if (oembedUrl)` at log-broken-links.js:67 would treat an empty string as absent. The redirect is a rule's prefix followed by the URL's `href`, and the `href` of a parsed URL is never empty, so the two agree on every URL the crawler meets.
- `config.retries`, `config.retriesTimeout` and `config.headers` are not modelled. The code never reads the first two.
- Crawl termination is not modelled. Nothing records visited pages, so linked pages are fetched again without end.
- Regular-expression syntax beyond the fragment (anchors, escapes, groups, alternation, `+`, braces, negated sets and ranges) yields `Unmodelled` instead of a result.
- `Regex.Test`: no pattern in the tables uses such syntax, so no result about them depends on this.
- Strings are sequences of characters. UTF-16 surrogate pairs and locale-sensitive or multi-character case mappings are not modelled.
- `Strings.ToLowerCase` maps only the capitals A–Z, U+00C0–U+00DE except U+00D7, U+0391–U+03A9 except U+03A2, and U+0400–U+042F; every other cased character, such as Ā or Ա, is left unchanged. The characters in the tables and tests are unaffected by this.
- `Strings.LowerChar` leaves the accented Greek capitals U+0386, U+0388–U+038A, U+038C and U+038E–U+038F unchanged, where JavaScript lowers them to their accented small letters.
- `Strings.LowerChar` always maps Σ to σ; JavaScript's `toLowerCase` applies the Final_Sigma rule and gives ς at the end of a word.
- `TaskQueue.NewQueue`: the limits are integers. A fractional or non-numeric limit, which JavaScript would accept, is not modelled.
- A `getOembedUrl` that throws, which happens outside the `try` of `checkExternalPage`, is modelled as a `Rejected` outcome. No pattern in the shipped tables throws.

## Findings

| source | as written | input that shows it | evidently intended | confidence | as-written member | corrected member |
|---|---|---|---|---|---|---|
| config.js:134-137 | the page is lower-cased and then searched for "Not Found", which has capitals, so the test never holds | a 2xx page whose text is "404 Not Found" on a host with no rule | a page containing "not found" in any capitalisation is reported | not executed | Config.GenericNeverFires | Config.GenericCorrectedSpec |
| config.js:104-108 | the watch rule's path pattern `/watch?v=.*` needs `v=` in the tested string, but the code tests the pathname, which excludes the query | `https://www.youtube.com/watch?v=XYZ`, whose pathname is `/watch` | video pages are probed through YouTube's oEmbed endpoint with HEAD | not executed | Config.WatchUrlNotTranslated | Config.WatchUrlTranslated |

The corrected generic test lower-cases both sides (`GenericCaseInsensitive`). The corrected watch rule uses the path pattern `/watch` (`OembedUrlsCorrected`). Both are part of `Corrected`, which `Crawl.CorrectedReportsGeneric` and `Crawl.VideoPageRequest` use.
