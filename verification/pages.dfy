/** What the crawler enqueues: the anchor dispatch of an internal page
    (`checkInternalPageByUrl`), the walk over a directory of saved pages
    (`checkInternalPagesByDir`) and the seed loop of `start`
    (log-broken-links.js). HTML parsing is an input function from a page's
    text to the `href` attributes of its anchors, in document order
    (`None` for an anchor without one). */
module Pages {
  import opened Wrappers
  import opened Strings
  import opened Urls
  import opened Config
  import opened Crawl

  /** A task the crawler hands to the queue. */
  datatype Task =
    | Internal(url: Url, referrer: Option<string>)   // checkInternalPageByUrl
    | External(url: Url, linkedFrom: string)         // checkExternalPage

  /** What the crawler does, in order: enqueue a task, or log a problem. */
  datatype Event =
    | Enqueue(task: Task)
    | Reported(report: Report)
    | UnparsableHref(href: string)
    | UnparsableSeed(seed: string)
    | FsError(path: string)

  /** The anchors of a page's HTML. */
  type Extractor = string -> seq<Option<string>>

  /** An internal page follows an `href` that is present, non-empty and not
      a `mailto` link. */
  predicate Followed(href: Option<string>)
  {
    href.Some? && href.value != "" && !StartsWith(href.value, "mailto")
  }

  /** The task for a link from `page` to `next`: internal on the same host,
      external otherwise. */
  function TaskFor(page: Url, next: Url): Task
  {
    if next.hostname == page.hostname then Internal(next, Some(page.href)) else External(next, page.href)
  }

  /** One iteration of the anchor loop of an internal page. */
  function DispatchAnchor(page: Url, href: Option<string>, resolve: Resolver): seq<Event>
  {
    if !Followed(href) then []
    else
      match resolve(href.value, Some(page.href))
      case None => [UnparsableHref(href.value)]
      case Some(next) => [Enqueue(TaskFor(page, next))]
  }

  /** The anchor loop of an internal page. */
  function DispatchAnchors(page: Url, hrefs: seq<Option<string>>, resolve: Resolver): (r: seq<Event>)
    ensures |r| <= |hrefs|
    ensures forall k :: 0 <= k < |r| ==> r[k].Enqueue? || r[k].UnparsableHref?
    decreases |hrefs|
  {
    if hrefs == [] then [] else DispatchAnchor(page, hrefs[0], resolve) + DispatchAnchors(page, hrefs[1..], resolve)
  }

  /** `checkInternalPageByUrl`: fetch the page and dispatch its anchors. */
  function CheckInternalPage(url: Url, fetch: Fetcher, extract: Extractor, resolve: Resolver): (r: seq<Event>)
    ensures (|r| == 1 && r[0].Reported?) <==>
      !(fetch(Get, url.href).Got? && IsOk(fetch(Get, url.href).response.status) && fetch(Get, url.href).response.body != "")
    ensures forall k :: 0 <= k < |r| && r[k].Reported? ==> |r| == 1
  {
    match fetch(Get, url.href)
    case FetchError => [Reported(RequestError)]
    case Got(res) =>
      if !IsOk(res.status) then [Reported(FetchFailed(res.status))]
      else if res.body == "" then [Reported(EmptyContent)]
      else DispatchAnchors(url, extract(res.body), resolve)
  }

  /** The tasks among the events, in order. */
  function Tasks(events: seq<Event>): seq<Task>
    decreases |events|
  {
    if events == [] then []
    else (if events[0].Enqueue? then [events[0].task] else []) + Tasks(events[1..])
  }

  /** The hrefs reported as unparsable, in order. */
  function Unparsed(events: seq<Event>): seq<string>
    decreases |events|
  {
    if events == [] then []
    else (if events[0].UnparsableHref? then [events[0].href] else []) + Unparsed(events[1..])
  }

  lemma {:induction false} TasksConcat(a: seq<Event>, b: seq<Event>)
    ensures Tasks(a + b) == Tasks(a) + Tasks(b)
    decreases |a|
  {
    if a == [] {
      assert a + b == b;
    } else {
      assert (a + b)[0] == a[0];
      assert (a + b)[1..] == a[1..] + b;
      TasksConcat(a[1..], b);
    }
  }

  lemma {:induction false} UnparsedConcat(a: seq<Event>, b: seq<Event>)
    ensures Unparsed(a + b) == Unparsed(a) + Unparsed(b)
    decreases |a|
  {
    if a == [] {
      assert a + b == b;
    } else {
      assert (a + b)[0] == a[0];
      assert (a + b)[1..] == a[1..] + b;
      UnparsedConcat(a[1..], b);
    }
  }

  /** The reference reading of the loop: the followed hrefs that resolve, in
      document order. */
  function Targets(page: Url, hrefs: seq<Option<string>>, resolve: Resolver): (r: seq<Url>)
    decreases |hrefs|
  {
    if hrefs == [] then []
    else if Followed(hrefs[0]) && resolve(hrefs[0].value, Some(page.href)).Some? then
      [resolve(hrefs[0].value, Some(page.href)).value] + Targets(page, hrefs[1..], resolve)
    else Targets(page, hrefs[1..], resolve)
  }

  /** The followed hrefs that do not resolve, in document order. */
  function Broken(page: Url, hrefs: seq<Option<string>>, resolve: Resolver): (r: seq<string>)
    decreases |hrefs|
  {
    if hrefs == [] then []
    else if Followed(hrefs[0]) && resolve(hrefs[0].value, Some(page.href)).None? then
      [hrefs[0].value] + Broken(page, hrefs[1..], resolve)
    else Broken(page, hrefs[1..], resolve)
  }

  /** The number of hrefs the loop follows. */
  function FollowedCount(hrefs: seq<Option<string>>): nat
    decreases |hrefs|
  {
    if hrefs == [] then 0 else (if Followed(hrefs[0]) then 1 else 0) + FollowedCount(hrefs[1..])
  }

  /** The loop runs over the anchors in turn: dispatching two runs of anchors
      is dispatching the first, then the second. An unresolvable href ends
      only its own iteration. */
  lemma {:induction false} DispatchConcat(page: Url, a: seq<Option<string>>, b: seq<Option<string>>, resolve: Resolver)
    ensures DispatchAnchors(page, a + b, resolve) == DispatchAnchors(page, a, resolve) + DispatchAnchors(page, b, resolve)
    decreases |a|
  {
    if a == [] {
      assert a + b == b;
    } else {
      assert (a + b)[1..] == a[1..] + b;
      DispatchConcat(page, a[1..], b, resolve);
    }
  }

  /** Every followed href yields exactly one event; the others yield none. */
  lemma {:induction false} DispatchLength(page: Url, hrefs: seq<Option<string>>, resolve: Resolver)
    ensures |DispatchAnchors(page, hrefs, resolve)| == FollowedCount(hrefs)
    decreases |hrefs|
  {
    if hrefs != [] {
      DispatchLength(page, hrefs[1..], resolve);
    }
  }

  /** `tasks` are the tasks for `targets`, one each and in order: internal
      exactly when the target is on the page's host. */
  predicate Mirrors(page: Url, tasks: seq<Task>, targets: seq<Url>)
  {
    |tasks| == |targets| &&
    forall k :: 0 <= k < |tasks| ==>
      tasks[k].url == targets[k] && (tasks[k].Internal? <==> targets[k].hostname == page.hostname)
  }

  lemma MirrorsCons(page: Url, next: Url, tasks: seq<Task>, targets: seq<Url>)
    requires Mirrors(page, tasks, targets)
    ensures Mirrors(page, [TaskFor(page, next)] + tasks, [next] + targets)
  {
    var ts, us := [TaskFor(page, next)] + tasks, [next] + targets;
    forall k | 0 < k < |ts|
      ensures ts[k].url == us[k] && (ts[k].Internal? <==> us[k].hostname == page.hostname)
    {
      assert ts[k] == tasks[k - 1] && us[k] == targets[k - 1];
    }
  }

  /** The enqueued tasks are the tasks of the resolvable followed hrefs, each
      once and in document order; internal exactly when the resolved host is
      the page's host. The unparsable reports are the other followed hrefs. */
  lemma {:induction false} DispatchTasks(page: Url, hrefs: seq<Option<string>>, resolve: Resolver)
    ensures Mirrors(page, Tasks(DispatchAnchors(page, hrefs, resolve)), Targets(page, hrefs, resolve))
    ensures Unparsed(DispatchAnchors(page, hrefs, resolve)) == Broken(page, hrefs, resolve)
    decreases |hrefs|
  {
    if hrefs != [] {
      var first := DispatchAnchor(page, hrefs[0], resolve);
      var rest := DispatchAnchors(page, hrefs[1..], resolve);
      DispatchTasks(page, hrefs[1..], resolve);
      TasksConcat(first, rest);
      UnparsedConcat(first, rest);
      if Followed(hrefs[0]) && resolve(hrefs[0].value, Some(page.href)).Some? {
        var next := resolve(hrefs[0].value, Some(page.href)).value;
        assert Tasks(first) == [TaskFor(page, next)];
        MirrorsCons(page, next, Tasks(rest), Targets(page, hrefs[1..], resolve));
      } else {
        assert Tasks(first) == [];
        assert Tasks(first) + Tasks(rest) == Tasks(rest);
      }
    }
  }

  /** Absent and empty hrefs and `mailto` links leave no trace. */
  lemma {:induction false} DroppedHrefs(page: Url, hrefs: seq<Option<string>>, resolve: Resolver)
    requires forall k :: 0 <= k < |hrefs| ==> !Followed(hrefs[k])
    ensures DispatchAnchors(page, hrefs, resolve) == []
    decreases |hrefs|
  {
    if hrefs != [] {
      DroppedHrefs(page, hrefs[1..], resolve);
    }
  }

  /** A page that fails to load, or loads empty, enqueues nothing and gets
      exactly one report. */
  lemma InternalPageFailure(url: Url, fetch: Fetcher, extract: Extractor, resolve: Resolver)
    requires fetch(Get, url.href).Got? ==>
      !IsOk(fetch(Get, url.href).response.status) || fetch(Get, url.href).response.body == ""
    ensures |CheckInternalPage(url, fetch, extract, resolve)| == 1
    ensures CheckInternalPage(url, fetch, extract, resolve)[0].Reported?
  {
  }

  /** A path inside a directory, as `path.join` writes it for plain names. */
  function Join(dir: string, name: string): string
  {
    dir + "/" + name
  }

  /** A directory entry, as `fs.readdir` with file types lists it. */
  datatype Entry = Entry(name: string, node: Node)

  /** What lies at a path: a file, with its text or `None` when reading it
      fails; a directory with its listing; or something that cannot be
      listed (an unreadable directory, a dangling link, a device). */
  datatype Node = File(content: Option<string>) | Directory(entries: seq<Entry>) | Unlistable

  /** One iteration of the anchor loop of a saved page: only an href that is
      already an absolute URL, and not a `mailto` link, is enqueued, and
      always as external. */
  function DirAnchor(path: string, href: Option<string>, resolve: Resolver): seq<Event>
  {
    if href.None? || href.value == "" then []
    else
      match resolve(href.value, Some("file:///"))
      case None => [UnparsableHref(href.value)]
      case Some(next) =>
        if next.href == href.value && !StartsWith(href.value, "mailto") then [Enqueue(External(next, path))] else []
  }

  function DirAnchors(path: string, hrefs: seq<Option<string>>, resolve: Resolver): (r: seq<Event>)
    ensures forall k :: 0 <= k < |r| ==> DirEvent(r[k]) && !r[k].FsError?
    decreases |hrefs|
  {
    if hrefs == [] then [] else DirAnchor(path, hrefs[0], resolve) + DirAnchors(path, hrefs[1..], resolve)
  }

  /** What directory mode may do: enqueue an external task, log an
      unparsable href, or log a file-system error. */
  predicate DirEvent(e: Event)
  {
    (e.Enqueue? && e.task.External?) || e.UnparsableHref? || e.FsError?
  }

  /** `checkInternalPagesByDir` on the path `dir`, where `node` lies: only a
      directory can be listed; anything else is a logged error. */
  function WalkDir(dir: string, node: Node, extract: Extractor, resolve: Resolver): (r: seq<Event>)
    ensures forall k :: 0 <= k < |r| ==> DirEvent(r[k])
    ensures forall k :: 0 <= k < |r| && r[k].FsError? ==> k == |r| - 1
    decreases node, 1
  {
    match node
    case Directory(entries) => WalkEntries(dir, entries, extract, resolve)
    case _ => [FsError(dir)]
  }

  /** The `for` loop over a listing: a saved page has its anchors
      dispatched; an unreadable file ends the walk of this directory (the
      `catch`); any other entry is walked in turn and, through the `return`,
      ends the walk of this directory too. */
  function WalkEntries(dir: string, entries: seq<Entry>, extract: Extractor, resolve: Resolver): (r: seq<Event>)
    ensures forall k :: 0 <= k < |r| ==> DirEvent(r[k])
    ensures forall k :: 0 <= k < |r| && r[k].FsError? ==> k == |r| - 1
    decreases entries, 0
  {
    if entries == [] then []
    else
      var path := Join(dir, entries[0].name);
      match entries[0].node
      case File(None) => [FsError(path)]
      case File(Some(html)) => DirAnchors(path, extract(html), resolve) + WalkEntries(dir, entries[1..], extract, resolve)
      case _ => WalkDir(path, entries[0].node, extract, resolve)
  }

  /** The entries whose processing ends the walk of their directory. */
  predicate EndsWalk(e: Entry)
  {
    !e.node.File? || e.node.content.None?
  }

  /** A directory walk only ever enqueues external tasks. */
  predicate OnlyExternal(events: seq<Event>)
  {
    forall k :: 0 <= k < |events| ==> events[k].Enqueue? ==> events[k].task.External?
  }

  lemma {:induction false} DirAnchorsExternal(path: string, hrefs: seq<Option<string>>, resolve: Resolver)
    ensures OnlyExternal(DirAnchors(path, hrefs, resolve))
    decreases |hrefs|
  {
    if hrefs != [] {
      DirAnchorsExternal(path, hrefs[1..], resolve);
    }
  }

  /** Directory mode never enqueues an internal task, at any depth. */
  lemma {:induction false} DirModeOnlyExternal(dir: string, node: Node, extract: Extractor, resolve: Resolver)
    ensures OnlyExternal(WalkDir(dir, node, extract, resolve))
    decreases node, 1
  {
    if node.Directory? {
      EntriesOnlyExternal(dir, node.entries, extract, resolve);
    }
  }

  lemma {:induction false} EntriesOnlyExternal(dir: string, entries: seq<Entry>, extract: Extractor, resolve: Resolver)
    ensures OnlyExternal(WalkEntries(dir, entries, extract, resolve))
    decreases entries, 0
  {
    if entries != [] {
      var path := Join(dir, entries[0].name);
      match entries[0].node
      case File(None) =>
      case File(Some(html)) =>
        DirAnchorsExternal(path, extract(html), resolve);
        EntriesOnlyExternal(dir, entries[1..], extract, resolve);
      case _ =>
        DirModeOnlyExternal(path, entries[0].node, extract, resolve);
    }
  }

  /** A saved page's href is enqueued exactly when it is non-empty, resolves
      against `file:///` to a URL whose href is the raw href itself (so it
      was absolute already), and is not a `mailto` link. */
  lemma DirAnchorSpec(path: string, href: Option<string>, resolve: Resolver)
    ensures Tasks(DirAnchor(path, href, resolve)) != [] <==>
      href.Some? && href.value != "" && resolve(href.value, Some("file:///")).Some? &&
      resolve(href.value, Some("file:///")).value.href == href.value && !StartsWith(href.value, "mailto")
    ensures Tasks(DirAnchor(path, href, resolve)) != [] ==>
      Tasks(DirAnchor(path, href, resolve)) == [External(resolve(href.value, Some("file:///")).value, path)]
  {
    var r := DirAnchor(path, href, resolve);
    assert r == [] || |r| == 1;
    if |r| == 1 {
      assert r[1..] == [];
    }
  }

  /** The first entry that ends the walk hides every entry after it. */
  lemma {:induction false} EarlyReturn(dir: string, pre: seq<Entry>, e: Entry, post: seq<Entry>, extract: Extractor, resolve: Resolver)
    requires EndsWalk(e)
    ensures WalkEntries(dir, pre + [e] + post, extract, resolve) == WalkEntries(dir, pre + [e], extract, resolve)
    decreases |pre|
  {
    var all, cut := pre + [e] + post, pre + [e];
    if pre == [] {
      assert all[0] == e && cut[0] == e;
    } else {
      assert all[0] == pre[0] && cut[0] == pre[0];
      assert all[1..] == pre[1..] + [e] + post && cut[1..] == pre[1..] + [e];
      EarlyReturn(dir, pre[1..], e, post, extract, resolve);
    }
  }

  /** A non-file entry is walked, and its siblings after it are not. */
  lemma NonFileEndsWalk(dir: string, pre: seq<Entry>, name: string, node: Node, post: seq<Entry>,
                        extract: Extractor, resolve: Resolver)
    requires forall k :: 0 <= k < |pre| ==> !EndsWalk(pre[k])
    requires !node.File?
    ensures WalkEntries(dir, pre + [Entry(name, node)] + post, extract, resolve) ==
      SavedPages(dir, pre, extract, resolve) + WalkDir(Join(dir, name), node, extract, resolve)
  {
    var e := Entry(name, node);
    EarlyReturn(dir, pre, e, post, extract, resolve);
    SavedPagesThen(dir, pre, e, extract, resolve);
  }

  /** The anchor events of a run of readable saved pages. */
  function SavedPages(dir: string, files: seq<Entry>, extract: Extractor, resolve: Resolver): seq<Event>
    requires forall k :: 0 <= k < |files| ==> !EndsWalk(files[k])
    decreases |files|
  {
    if files == [] then []
    else
      var path := Join(dir, files[0].name);
      assert !EndsWalk(files[0]);
      DirAnchors(path, extract(files[0].node.content.value), resolve) + SavedPages(dir, files[1..], extract, resolve)
  }

  lemma {:induction false} SavedPagesThen(dir: string, files: seq<Entry>, e: Entry, extract: Extractor, resolve: Resolver)
    requires forall k :: 0 <= k < |files| ==> !EndsWalk(files[k])
    ensures WalkEntries(dir, files + [e], extract, resolve) ==
      SavedPages(dir, files, extract, resolve) + WalkEntries(dir, [e], extract, resolve)
    decreases |files|
  {
    if files == [] {
      assert files + [e] == [e];
    } else {
      assert (files + [e])[0] == files[0];
      assert (files + [e])[1..] == files[1..] + [e];
      SavedPagesThen(dir, files[1..], e, extract, resolve);
    }
  }

  /** The seed loop of `start`: each seed that parses is enqueued as an
      internal page; the first one that does not ends the loop, through the
      `return` in its `catch`. */
  function Seeds(urls: seq<string>, resolve: Resolver): (r: seq<Event>)
    ensures |r| <= |urls|
    ensures forall k :: 0 <= k < |r| ==>
      (r[k].Enqueue? && r[k].task.Internal? && r[k].task.referrer.None?) || (r[k].UnparsableSeed? && k == |r| - 1)
    decreases |urls|
  {
    if urls == [] then []
    else
      match resolve(urls[0], None)
      case None => [UnparsableSeed(urls[0])]
      case Some(u) => [Enqueue(Internal(u, None))] + Seeds(urls[1..], resolve)
  }

  /** The seeds up to the first unparsable one are enqueued in order, that
      one is reported, and no later seed is looked at. */
  lemma {:induction false} SeedsStopAtFirstUnparsable(pre: seq<string>, bad: string, post: seq<string>, resolve: Resolver)
    requires forall k :: 0 <= k < |pre| ==> resolve(pre[k], None).Some?
    requires resolve(bad, None).None?
    ensures Seeds(pre + [bad] + post, resolve) ==
      seq(|pre|, k requires 0 <= k < |pre| => Enqueue(Internal(resolve(pre[k], None).value, None))) + [UnparsableSeed(bad)]
    decreases |pre|
  {
    var all := pre + [bad] + post;
    if pre == [] {
      assert all[0] == bad;
    } else {
      assert all[0] == pre[0] && all[1..] == pre[1..] + [bad] + post;
      SeedsStopAtFirstUnparsable(pre[1..], bad, post, resolve);
    }
  }

  /** When every seed parses, each is enqueued once, in order. */
  lemma {:induction false} SeedsAllParse(urls: seq<string>, resolve: Resolver)
    requires forall k :: 0 <= k < |urls| ==> resolve(urls[k], None).Some?
    ensures Seeds(urls, resolve) ==
      seq(|urls|, k requires 0 <= k < |urls| => Enqueue(Internal(resolve(urls[k], None).value, None)))
    decreases |urls|
  {
    if urls != [] {
      SeedsAllParse(urls[1..], resolve);
    }
  }

  /** The file system, as what lies at each starting path. */
  type FileSystem = string -> Node

  /** The directory loop of `start`: each starting directory is walked in
      turn, to completion. */
  function WalkAll(dirs: seq<string>, fs: FileSystem, extract: Extractor, resolve: Resolver): seq<Event>
    decreases |dirs|
  {
    if dirs == [] then []
    else WalkDir(dirs[0], fs(dirs[0]), extract, resolve) + WalkAll(dirs[1..], fs, extract, resolve)
  }

  /** `start`: the seeds, or the saved pages of the starting directories. */
  function Start(cfg: Settings, fs: FileSystem, extract: Extractor, resolve: Resolver): (r: seq<Event>)
    ensures cfg.useInitialUrls ==> forall k :: 0 <= k < |r| && r[k].Enqueue? ==> r[k].task == Internal(r[k].task.url, None)
    ensures !cfg.useInitialUrls ==> OnlyExternal(r)
  {
    WalkAllExternal(cfg.initialDirectories, fs, extract, resolve);
    if cfg.useInitialUrls then Seeds(cfg.initialUrls, resolve)
    else WalkAll(cfg.initialDirectories, fs, extract, resolve)
  }

  lemma {:induction false} WalkAllExternal(dirs: seq<string>, fs: FileSystem, extract: Extractor, resolve: Resolver)
    ensures OnlyExternal(WalkAll(dirs, fs, extract, resolve))
    decreases |dirs|
  {
    if dirs != [] {
      DirModeOnlyExternal(dirs[0], fs(dirs[0]), extract, resolve);
      WalkAllExternal(dirs[1..], fs, extract, resolve);
    }
  }

  /** As shipped, the crawler starts from saved pages, and so it only ever
      enqueues external links from them. */
  lemma SourceStartsFromDirectories(fs: FileSystem, extract: Extractor, resolve: Resolver)
    ensures Start(Source, fs, extract, resolve) == WalkDir("/home/david/dst", fs("/home/david/dst"), extract, resolve)
    ensures OnlyExternal(Start(Source, fs, extract, resolve))
  {
    WalkAllExternal(Source.initialDirectories, fs, extract, resolve);
    assert Source.initialDirectories[1..] == [];
  }
}
