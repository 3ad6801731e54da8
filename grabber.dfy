/**
  The crawler (main.py:40-128) and its drive loop (main.py:219-260). A
  `Grabber` holds the FIFO queue of URLs still to visit, the set of URLs
  already considered, and its configuration; the files it writes live in
  `disk`, a map from path to content standing for the file system. Each
  method is proved to do exactly what the functions of `CrawlModel` say,
  and to keep `Valid()`: the configuration stays normalised, and the ghost
  logs of every URL ever appended to the queue and of every URL whose
  content was written hold no URL twice.
*/
module Grabbing {
  import opened Wrappers
  import opened PathNames
  import opened LinkScan
  import opened CrawlConfig
  import opened CrawlModel

  class Grabber {
    var urlFollowQueue: seq<Url>
    var visitedUrls: set<Url>
    var config: map<string, Value>
    var disk: map<string, Bytes>
    const web: Oracles

    /** Every URL `process_found_url` appended to the queue, in order. */
    ghost var enqueued: seq<Url>
    /** Every URL whose content was written to disk, once per write. */
    ghost var downloaded: seq<Url>
    /** Every page popped from the queue to be visited, in order. */
    ghost var popped: seq<Url>

    function State(): Crawl
      reads this
    {
      Crawl(urlFollowQueue, visitedUrls, disk)
    }

    ghost predicate Valid()
      reads this
    {
      && Configured(config) && TargetIgnored(config)
      && NoDups(enqueued) && NoDups(downloaded)
      && (forall u :: u in enqueued ==> u in visitedUrls)
      && (forall u :: u in downloaded ==> u in visitedUrls)
    }

    /** `Grabber()` (main.py:42-54): nothing queued, nothing visited, an
        empty configuration. */
    constructor(web: Oracles, disk: map<string, Bytes>)
      ensures this.web == web && this.disk == disk
      ensures urlFollowQueue == [] && visitedUrls == {} && config == map[]
      ensures enqueued == [] && downloaded == [] && popped == []
    {
      this.web := web;
      this.disk := disk;
      urlFollowQueue := [];
      visitedUrls := {};
      config := map[];
      enqueued := [];
      downloaded := [];
      popped := [];
    }

    /** `process_found_url(url)` (main.py:56-104); `raised` says that a
        `ConnectionError` escaped from the download. The "follow" loop
        appends the URL when it finds the first matching pattern; that is
        the same as looking for one and appending afterwards. */
    method ProcessFoundUrl(url: Url) returns (raised: bool)
      requires Valid()
      modifies this
      ensures Valid() && config == old(config) && popped == old(popped)
      ensures var st := FoundUrl(web, PolicyOf(config), old(State()), url);
        && State() == st.state && raised == st.raised
        && enqueued == old(enqueued) + st.appended
        && downloaded == old(downloaded) + st.written
    {
      if url in visitedUrls {
        return false;
      }
      visitedUrls := visitedUrls + {url};

      var noFollowMatched := AnyMatch(web, config["no_follow"].items, url);
      if !noFollowMatched {
        var followMatched := AnyMatch(web, config["follow"].items, url);
        if followMatched {
          urlFollowQueue := urlFollowQueue + [url];
          enqueued := enqueued + [url];
        }
      }

      ghost var p := PolicyOf(config);
      ghost var st := FoundUrl(web, p, old(State()), url);
      FoundUrlFresh(web, p, old(State()), url);
      NoDupsConcat(old(enqueued), st.appended);
      NoDupsConcat(old(downloaded), st.written);
      raised := DownloadMatching(url);
    }

    /** The download loop of `process_found_url` (main.py:83-104), which
        is the last statement of that method: each `return` in it ends the
        loop and the call. */
    method DownloadMatching(url: Url) returns (raised: bool)
      requires Configured(config)
      modifies `disk, `downloaded
      ensures var d := DownloadLoop(web, PolicyOf(config), old(disk), url, config["download"].items);
        && disk == d.disk && raised == d.raised
        && downloaded == old(downloaded) + d.written
    {
      ghost var p := PolicyOf(config);
      var download := config["download"].items;
      ghost var whole := DownloadLoop(web, p, disk, url, download);
      ghost var written: seq<Url> := [];
      for k := 0 to |download|
        invariant downloaded == old(downloaded) + written
        invariant var rest := DownloadLoop(web, p, disk, url, download[k..]);
          whole == Attempt(rest.disk, written + rest.written, rest.raised)
      {
        assert download[k..][0] == download[k] && download[k..][1..] == download[k + 1..];
        ghost var rest := DownloadLoop(web, p, disk, url, download[k..]);
        if web.matches(download[k], url) {
          var filename := FileName(web, url);
          var outPath := config["target"].s + "/" + filename;
          var duplicate := FileExists(config["ignore_duplicates_in"].items, filename, disk);
          if duplicate {
            assert rest == Attempt(disk, [], false) && written + [] == written;
            return false;
          }
          var result := web.fetch(url);
          if result.Refused? {
            assert rest == Attempt(disk, [], true) && written + [] == written;
            return true;
          }
          if !result.ok {
            assert rest == Attempt(disk, [], false) && written + [] == written;
            return false;
          }
          disk := disk[outPath := result.content];
          ghost var after := DownloadLoop(web, p, disk, url, download[k + 1..]);
          assert rest == Attempt(after.disk, [url] + after.written, after.raised);
          assert written + ([url] + after.written) == (written + [url]) + after.written;
          written := written + [url];
          downloaded := downloaded + [url];
        } else {
          assert rest == DownloadLoop(web, p, disk, url, download[k + 1..]);
        }
      }
      assert whole == Attempt(disk, written, false);
      raised := false;
    }

    /** `visit_next_url()` (main.py:106-128); `raised` says that a
        `ConnectionError` escaped, from the request for the page or from a
        download. */
    method VisitNextUrl() returns (raised: bool)
      requires Valid() && urlFollowQueue != []
      modifies this
      ensures Valid() && config == old(config)
      ensures popped == old(popped) + [old(urlFollowQueue)[0]]
      ensures var st := Visit(web, PolicyOf(config), old(State()));
        && State() == st.state && raised == st.raised
        && enqueued == old(enqueued) + st.appended
        && downloaded == old(downloaded) + st.written
    {
      var url := urlFollowQueue[0];
      urlFollowQueue := urlFollowQueue[1..];
      popped := popped + [url];
      var r := web.fetch(url);
      if r.Refused? {
        assert old(enqueued) + [] == old(enqueued) && old(downloaded) + [] == old(downloaded);
        return true;
      }
      raised := ScanPage(url, r.text, FindLinks(r.text));
    }

    /** The loop over the matches of the link pattern in a page's text
        (main.py:115-128), which ends early when a `ConnectionError`
        escapes from a download. */
    method ScanPage(url: Url, text: string, found: seq<LinkMatch>) returns (raised: bool)
      requires Valid() && forall k :: 0 <= k < |found| ==> Matched(text, found[k])
      modifies this
      ensures Valid() && config == old(config) && popped == old(popped)
      ensures var st := Scan(web, PolicyOf(config), old(State()), url, Links(found));
        && State() == st.state && raised == st.raised
        && enqueued == old(enqueued) + st.appended
        && downloaded == old(downloaded) + st.written
    {
      ghost var p := PolicyOf(config);
      ghost var s0 := State();
      ghost var links := Links(found);
      for i := 0 to |found|
        invariant Valid() && config == old(config) && popped == old(popped)
        invariant var st := Scan(web, p, s0, url, links[..i]);
          && !st.raised && State() == st.state
          && enqueued == old(enqueued) + st.appended
          && downloaded == old(downloaded) + st.written
      {
        ghost var before := Scan(web, p, s0, url, links[..i]);
        assert links[..i + 1][..i] == links[..i] && links[i] == found[i].link;
        raised := ProcessGroups(url, text, found[i]);
        ghost var next := Consider(web, p, before.state, url, links[i]);
        assert Scan(web, p, s0, url, links[..i + 1]) == Then(before, next);
        Reassociate(old(enqueued), before.appended, next.appended);
        Reassociate(old(downloaded), before.written, next.written);
        if raised {
          ScanStops(web, p, s0, url, links[..i + 1], links[i + 1..]);
          assert links[..i + 1] + links[i + 1..] == links;
          return;
        }
      }
      assert links[..|found|] == links;
      raised := false;
    }

    /** The body of the loop over the matches (main.py:118-128): of the
        match's groups, the one that is set and not empty is resolved
        against the page, dropped when it leaves the page's network location
        and that is not allowed, and processed otherwise. */
    method ProcessGroups(page: Url, text: string, m: LinkMatch) returns (raised: bool)
      requires Valid() && Matched(text, m)
      modifies this
      ensures Valid() && config == old(config) && popped == old(popped)
      ensures var st := Consider(web, PolicyOf(config), old(State()), page, m.link);
        && State() == st.state && raised == st.raised
        && enqueued == old(enqueued) + st.appended
        && downloaded == old(downloaded) + st.written
    {
      var groups := Groups(m);
      OnePresentGroup(text, m);
      ghost var at := GroupIndex(m.alt);
      raised := false;
      for j := 0 to 3
        invariant Valid() && config == old(config) && popped == old(popped)
        invariant j <= at ==> State() == old(State()) && enqueued == old(enqueued) && downloaded == old(downloaded) && !raised
        invariant j > at ==> var st := Consider(web, PolicyOf(config), old(State()), page, m.link);
          && State() == st.state && raised == st.raised
          && enqueued == old(enqueued) + st.appended
          && downloaded == old(downloaded) + st.written
        invariant raised ==> j > at
      {
        var group := groups[j];
        if Present(group) {
          var newUrl := web.join(page, group.value);
          if web.netloc(newUrl) != web.netloc(page) {
            if !Truthy(config["allow_netloc_change"]) {
              assert old(enqueued) + [] == old(enqueued) && old(downloaded) + [] == old(downloaded);
              continue;
            }
          }
          raised := ProcessFoundUrl(newUrl);
          if raised {
            return;
          }
        }
      }
    }
  }

  /** The loops of `process_found_url` over "no follow" and "follow"
      patterns (main.py:70-81): the first pattern that matches at the start
      of `url` ends the loop. */
  method AnyMatch(web: Oracles, patterns: seq<string>, url: Url) returns (found: bool)
    ensures found == MatchesAny(web, patterns, url)
  {
    found := false;
    for i := 0 to |patterns|
      invariant !found
      invariant forall j :: 0 <= j < i ==> !web.matches(patterns[j], url)
    {
      if web.matches(patterns[i], url) {
        found := true;
        break;
      }
    }
  }

  /** The name a download is saved under (main.py:85-90). */
  method FileName(web: Oracles, url: Url) returns (filename: string)
    ensures filename == DerivedName(web, url)
  {
    filename := Basename(web.path(url));
    if |filename| > 64 {
      var (name, ext) := SplitExt(filename);
      filename := web.md5(name) + ext;
    }
  }

  /** The duplicate check (main.py:92-95): whether `directory/name` is a
      file for some directory of the list. */
  method FileExists(dirs: seq<string>, name: string, disk: map<string, Bytes>) returns (found: bool)
    ensures found == ExistsIn(dirs, name, disk)
  {
    found := false;
    for j := 0 to |dirs|
      invariant !found
      invariant forall jj :: 0 <= jj < j ==> dirs[jj] + "/" + name !in disk
    {
      if dirs[j] + "/" + name in disk {
        found := true;
        break;
      }
    }
  }

  lemma Reassociate(a: seq<Url>, b: seq<Url>, c: seq<Url>)
    ensures (a + b) + c == a + (b + c)
  {
  }

  /** Visiting moves the head of the queue to the end of the pages
      popped, so whatever was a prefix of the pages popped followed by the
      queue stays one. */
  lemma QueuePrefix(start: seq<Url>, seen: seq<Url>, queue: seq<Url>, appended: seq<Url>)
    requires queue != [] && start <= seen + queue
    ensures start <= (seen + [queue[0]]) + (queue[1..] + appended)
  {
    assert (seen + [queue[0]]) + (queue[1..] + appended) == (seen + queue) + appended by {
      assert queue == [queue[0]] + queue[1..];
    }
  }

  /** How the program ends: with the usage message when no base URL is
      configured (main.py:226-229), or once the queue is empty. */
  datatype Exit = NoBaseUrl | Drained

  lemma FewerUnvisited(universe: set<Url>, before: set<Url>, after: set<Url>)
    requires before <= after && after - before <= universe && before != after
    ensures |universe - after| < |universe - before|
  {
    assert exists x :: x in after && x !in before;
    var x :| x in after && x !in before;
    var smaller := (universe - before) - {x};
    assert universe - after <= smaller;
    assert smaller == (universe - after) + (smaller - (universe - after));
    assert (universe - after) * (smaller - (universe - after)) == {};
  }

  /** The configuration after main.py:223-224: the base URLs of the
      command line, when there are any, replace those of the file. */
  function WithArgUrls(args: Args, fileConfig: map<string, Value>): map<string, Value> {
    if args.url.Some? && args.url.value != [] then fileConfig["url" := List(args.url.value)] else fileConfig
  }

  /** main.py:219-242: the command line's base URLs put in first, then the
      usage error when there is no base URL at all; otherwise the
      configuration completed from the command line and normalised. */
  method Configure(args: Args, fileConfig: map<string, Value>) returns (c: Option<map<string, Value>>)
    requires Shaped(fileConfig)
    ensures var base := WithArgUrls(args, fileConfig);
      && (c.None? <==> !("url" in base && Truthy(base["url"])))
      && (c.Some? ==>
            && Configured(c.value) && TargetIgnored(c.value)
            && c.value["url"] == base["url"]
            && c.value["target"] == Text(DropTrailingSlash(Preferred(base, "target", Text(args.target)).s))
            && c.value["ignore_duplicates_in"] ==
                 List(AppendAbsent(Preferred(base, "ignore_duplicates_in", List(args.ignoreDuplicatesIn)).items, c.value["target"].s))
            && c.value.Keys == base.Keys + KeysOf(ArgItems(args))
            && forall i :: 0 <= i < |ArgItems(args)| && ArgItems(args)[i].0 != "target" && ArgItems(args)[i].0 != "ignore_duplicates_in" ==>
                 c.value[ArgItems(args)[i].0] == Preferred(base, ArgItems(args)[i].0, ArgItems(args)[i].1))
  {
    var config := fileConfig;
    if args.url.Some? && args.url.value != [] {
      config := config["url" := List(args.url.value)];
    }
    if !("url" in config && Truthy(config["url"])) {
      return None;
    }
    var normalised := NormaliseConfig(config, args);
    c := Some(normalised);
  }

  /** `main()` from the configuration on (main.py:217-260): the
      configuration is set up, the queue is seeded with the base URLs
      (main.py:249), and the queue is drained. The base URLs are the first
      pages visited, in their order. `fileConfig` is the JSON configuration
      file (empty without `--config`), `disk` the file system at the
      start. */
  method Run(web: Oracles, args: Args, fileConfig: map<string, Value>, disk: map<string, Bytes>, ghost universe: set<Url>)
    returns (exit: Exit, g: Grabber)
    requires Shaped(fileConfig)
    requires Closed(web, universe)
    ensures g.web == web
    ensures var base := WithArgUrls(args, fileConfig);
      && (exit == NoBaseUrl <==> !("url" in base && Truthy(base["url"])))
      && (exit == Drained ==>
            && g.Valid() && g.config["url"] == base["url"]
            && g.config["target"] == Text(DropTrailingSlash(Preferred(base, "target", Text(args.target)).s))
            && g.config["ignore_duplicates_in"] ==
                 List(AppendAbsent(Preferred(base, "ignore_duplicates_in", List(args.ignoreDuplicatesIn)).items, g.config["target"].s))
            && g.config["download"] == Preferred(base, "download", List(args.download))
            && g.config["follow"] == Preferred(base, "follow", List(args.follow))
            && g.config["no_follow"] == Preferred(base, "no_follow", List(args.noFollow))
            && g.config["allow_netloc_change"] == Preferred(base, "allow_netloc_change", Flag(args.allowNetlocChange))
            && g.config["url"].items <= g.popped
            && Crawled(web, PolicyOf(g.config), Crawl(g.config["url"].items, {}, disk), g.State(), g.popped))
    ensures exit == Drained ==> g.urlFollowQueue == [] && g.visitedUrls <= universe
  {
    g := new Grabber(web, disk);
    var c := Configure(args, fileConfig);
    if c.None? {
      return NoBaseUrl, g;
    }
    ghost var base := WithArgUrls(args, fileConfig);
    assert ArgItems(args)[1].0 == "download" && ArgItems(args)[2].0 == "follow";
    assert ArgItems(args)[4].0 == "no_follow" && ArgItems(args)[6].0 == "allow_netloc_change";
    assert c.value["download"] == Preferred(base, "download", List(args.download));
    assert c.value["follow"] == Preferred(base, "follow", List(args.follow));
    assert c.value["no_follow"] == Preferred(base, "no_follow", List(args.noFollow));
    assert c.value["allow_netloc_change"] == Preferred(base, "allow_netloc_change", Flag(args.allowNetlocChange));
    SeedAndDrain(g, c.value, universe);
    exit := Drained;
  }

  /** main.py:249-260: the configuration is installed, the queue is
      seeded with the base URLs, and the main loop visits them first, in
      their order, and then whatever they lead to, until the queue is
      empty. */
  method SeedAndDrain(g: Grabber, config: map<string, Value>, ghost universe: set<Url>)
    requires Configured(config) && TargetIgnored(config) && Closed(g.web, universe)
    requires g.urlFollowQueue == [] && g.visitedUrls == {}
    requires g.enqueued == [] && g.downloaded == [] && g.popped == []
    modifies g
    ensures g.Valid() && g.config == config
    ensures g.urlFollowQueue == [] && g.visitedUrls <= universe
    ensures config["url"].items <= g.popped
    ensures Crawled(g.web, PolicyOf(config), Crawl(config["url"].items, {}, old(g.disk)), g.State(), g.popped)
  {
    g.config := config;
    g.urlFollowQueue := config["url"].items;
    Drain(g, universe);
    assert config["url"].items == [] + config["url"].items;
    assert g.popped[0..] == g.popped;
  }

  /** The main loop (main.py:255-260): URLs are visited until the queue is
      empty, a `ConnectionError` abandoning the rest of one page only. The
      loop ends because every URL `urljoin` produces lies in the finite
      `universe`: each visit either considers a URL of the universe for the
      first time or shortens the queue. */
  method Drain(g: Grabber, ghost universe: set<Url>)
    requires g.Valid() && Closed(g.web, universe) && g.visitedUrls <= universe
    modifies g
    ensures g.Valid() && g.config == old(g.config)
    ensures g.urlFollowQueue == [] && g.visitedUrls <= universe
    ensures old(g.visitedUrls) <= g.visitedUrls
    ensures old(g.popped) + old(g.urlFollowQueue) <= g.popped
    ensures old(g.popped) <= g.popped
    ensures Crawled(g.web, PolicyOf(g.config), old(g.State()), g.State(), g.popped[|old(g.popped)|..])
  {
    ghost var start := g.State();
    ghost var n := |g.popped|;
    assert g.popped[n..] == [];
    while g.urlFollowQueue != []
      invariant g.Valid() && g.config == old(g.config)
      invariant old(g.visitedUrls) <= g.visitedUrls <= universe
      invariant old(g.popped) + old(g.urlFollowQueue) <= g.popped + g.urlFollowQueue
      invariant old(g.popped) <= g.popped
      invariant Crawled(g.web, PolicyOf(g.config), start, g.State(), g.popped[n..])
      decreases |universe - g.visitedUrls|, |g.urlFollowQueue|
    {
      ghost var before := g.State();
      ghost var seen := g.popped;
      VisitProgress(g.web, PolicyOf(g.config), before, universe);
      VisitPopsHead(g.web, PolicyOf(g.config), before);
      CrawledExtend(g.web, PolicyOf(g.config), start, before, seen[n..]);
      var raised := g.VisitNextUrl();
      assert g.popped[n..] == seen[n..] + [before.queue[0]];
      QueuePrefix(old(g.popped) + old(g.urlFollowQueue), seen, before.queue, Visit(g.web, PolicyOf(g.config), before).appended);
      if g.visitedUrls != before.visited {
        FewerUnvisited(universe, before.visited, g.visitedUrls);
      }
    }
  }
}
