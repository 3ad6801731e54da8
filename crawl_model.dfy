/**
  What one step of the crawl does to its state, as functions on values:
  the frontier (a FIFO queue of URLs), the set of URLs already considered,
  and the files on disk. `Grabber` (grabber.dfy) is proved to do exactly
  this; the lemmas here state what the source promises about it.

  The libraries the crawler calls are oracles, and every property below
  holds whatever they answer: `re.match` of a user pattern, `urljoin`,
  `urlparse(..).netloc` and `.path`, the MD5 hex digest, and the HTTP GET.
*/
module CrawlModel {
  import opened Wrappers
  import opened PathNames
  import opened LinkScan
  import opened CrawlConfig

  type Url = string
  type Bytes = seq<bv8>

  predicate IsHexDigit(c: char) {
    '0' <= c <= '9' || 'a' <= c <= 'f'
  }

  /** `hashlib.md5(..).hexdigest()`: 32 lower-case hex digits. */
  type HexDigest = s: string | |s| == 32 && forall i :: 0 <= i < |s| ==> IsHexDigit(s[i])
    witness "00000000000000000000000000000000"

  /** What `session.get(url)` gives: a response with its `ok` flag, its
      `text` and its `content`, or a `ConnectionError`. */
  datatype Reply = Refused | Answer(ok: bool, text: string, content: Bytes)

  datatype Oracles = Oracles(
    matches: (string, Url) -> bool,    // re.match(pattern, url) found a match at the start
    join: (Url, string) -> Url,        // urljoin(base, link)
    netloc: Url -> string,             // urlparse(url).netloc
    path: Url -> string,               // urlparse(url).path
    md5: string -> HexDigest,          // hashlib.md5(name.encode()).hexdigest()
    fetch: Url -> Reply)               // session.get(url)

  /** The parts of the configuration the crawl reads. */
  datatype Policy = Policy(
    noFollow: seq<string>,
    follow: seq<string>,
    download: seq<string>,
    target: string,
    ignoreDuplicatesIn: seq<string>,
    allowNetlocChange: bool)

  function PolicyOf(c: map<string, Value>): Policy
    requires Configured(c)
  {
    Policy(c["no_follow"].items, c["follow"].items, c["download"].items,
           c["target"].s, c["ignore_duplicates_in"].items, Truthy(c["allow_netloc_change"]))
  }

  /** `url_follow_queue`, `visited_urls`, and the files on disk by path. */
  datatype Crawl = Crawl(queue: seq<Url>, visited: set<Url>, disk: map<string, Bytes>)

  /** The state after a step, the URLs the step appended to the queue and
      those whose content it wrote, in order, and whether a
      `ConnectionError` escaped from it. */
  datatype Step = Step(state: Crawl, appended: seq<Url>, written: seq<Url>, raised: bool)

  predicate NoDups(xs: seq<Url>) {
    forall i, j :: 0 <= i < j < |xs| ==> xs[i] != xs[j]
  }

  /** Some pattern of the list matches at the start of `url`. */
  predicate MatchesAny(o: Oracles, patterns: seq<string>, url: Url) {
    exists i :: 0 <= i < |patterns| && o.matches(patterns[i], url)
  }

  /** `url` goes to the queue: no "no follow" pattern matches it and some
      "follow" pattern does. */
  predicate Follows(o: Oracles, p: Policy, url: Url) {
    !MatchesAny(o, p.noFollow, url) && MatchesAny(o, p.follow, url)
  }

  /** The name a download is saved under (main.py:85-90): the last segment
      of the URL's path, or, when that is longer than 64 characters, the
      MD5 digest of its stem followed by its extension. */
  function DerivedName(o: Oracles, url: Url): string {
    var name := Basename(o.path(url));
    if |name| > 64 then o.md5(SplitExt(name).0) + SplitExt(name).1 else name
  }

  lemma NoDotNoExtension(p: string)
    requires forall k :: 0 <= k < |p| ==> p[k] != '.'
    ensures SplitExt(p) == (p, "")
  {
  }

  /** The derived name is one path segment, is the original name when that
      has at most 64 characters, and otherwise is 32 characters of digest
      followed by the original extension; either way its extension is the
      original one. */
  lemma DerivedNameKeepsExtension(o: Oracles, url: Url)
    ensures '/' !in DerivedName(o, url)
    ensures |Basename(o.path(url))| <= 64 ==> DerivedName(o, url) == Basename(o.path(url))
    ensures |Basename(o.path(url))| > 64 ==> |DerivedName(o, url)| == 32 + |SplitExt(Basename(o.path(url))).1|
    ensures SplitExt(DerivedName(o, url)).1 == SplitExt(Basename(o.path(url))).1
  {
    if |Basename(o.path(url))| > 64 {
      LongNameDigested(o, url);
    } else {
      assert DerivedName(o, url) == Basename(o.path(url));
      BasenameShape(o.path(url));
    }
  }

  lemma LongNameDigested(o: Oracles, url: Url)
    requires |Basename(o.path(url))| > 64
    ensures var name := Basename(o.path(url)); var r := DerivedName(o, url);
      && '/' !in r
      && |r| == 32 + |SplitExt(name).1|
      && SplitExt(r).1 == SplitExt(name).1
  {
    var name := Basename(o.path(url));
    var stem, ext := SplitExt(name).0, SplitExt(name).1;
    ExtensionShape(name);
    DigestKeepsExtension(o.md5(stem), ext);
    assert DerivedName(o, url) == o.md5(stem) + ext;
  }

  /** A digest followed by an extension splits back into the two. */
  lemma DigestKeepsExtension(hex: HexDigest, ext: string)
    requires ext == [] || (ext[0] == '.' && forall k :: 0 < k < |ext| ==> ext[k] != '.' && ext[k] != '/')
    ensures '/' !in hex + ext
    ensures SplitExt(hex + ext).1 == ext
  {
    assert forall k :: 0 <= k < |hex| ==> hex[k] != '.' && hex[k] != '/' by {
      forall k | 0 <= k < |hex| ensures hex[k] != '.' && hex[k] != '/' { assert IsHexDigit(hex[k]); }
    }
    if ext == [] {
      assert hex + ext == hex;
      NoDotNoExtension(hex);
    } else {
      assert '.' !in ext[1..] by {
        forall k | 0 <= k < |ext[1..]| ensures ext[1..][k] != '.' { assert ext[1..][k] == ext[k + 1]; }
      }
      assert '/' !in ext by {
        forall k | 0 <= k < |ext| ensures ext[k] != '/' { }
      }
      assert '/' !in hex by {
        forall k | 0 <= k < |hex| ensures hex[k] != '/' { }
      }
      assert hex[0] != '.';
      ExtensionOfDottedName(hex, ext);
    }
    forall k | 0 <= k < |hex + ext| ensures (hex + ext)[k] != '/' {
      if k < |hex| { assert (hex + ext)[k] == hex[k]; } else { assert (hex + ext)[k] == ext[k - |hex|]; }
    }
  }

  /** A file with this name is in one of the directories. */
  predicate ExistsIn(dirs: seq<string>, name: string, disk: map<string, Bytes>) {
    exists i :: 0 <= i < |dirs| && dirs[i] + "/" + name in disk
  }

  /** The target is among the directories searched for duplicates, as the
      configuration guarantees once normalised (main.py:241-242). */
  predicate TargetSearched(p: Policy) {
    p.target in p.ignoreDuplicatesIn
  }

  /** What the download loop leaves: the disk, the URL once for each file
      it wrote, and whether a `ConnectionError` escaped. */
  datatype Attempt = Attempt(disk: map<string, Bytes>, written: seq<Url>, raised: bool)

  /** The download loop of `process_found_url` (main.py:83-104) over the
      patterns `pats`. Each pattern that matches derives the file name; the
      call returns when a file of that name exists in a directory searched
      for duplicates, or when the response is not ok; otherwise the content
      is written. There is no `break`: the next matching pattern goes
      through the same steps. */
  function DownloadLoop(o: Oracles, p: Policy, disk: map<string, Bytes>, url: Url, pats: seq<string>): Attempt
    decreases |pats|
  {
    if pats == [] then Attempt(disk, [], false)
    else if !o.matches(pats[0], url) then DownloadLoop(o, p, disk, url, pats[1..])
    else
      var name := DerivedName(o, url);
      if ExistsIn(p.ignoreDuplicatesIn, name, disk) then Attempt(disk, [], false)
      else
        var reply := o.fetch(url);
        if reply.Refused? then Attempt(disk, [], true)
        else if !reply.ok then Attempt(disk, [], false)
        else
          var rest := DownloadLoop(o, p, disk[p.target + "/" + name := reply.content], url, pats[1..]);
          Attempt(rest.disk, [url] + rest.written, rest.raised)
  }

  /** The outcome of the first download pattern that matches, the
      reference the loop is compared with. */
  datatype Download =
    | NotEligible                          // no download pattern matches
    | Skipped(name: string)                // a file of that name exists in an ignore directory
    | ConnectionLost                       // session.get raised ConnectionError
    | NotOk                                // the response is not ok: nothing written
    | Written(path: string, content: Bytes)

  function DownloadOf(o: Oracles, p: Policy, disk: map<string, Bytes>, url: Url, pats: seq<string>): Download {
    if !MatchesAny(o, pats, url) then NotEligible
    else
      var name := DerivedName(o, url);
      if ExistsIn(p.ignoreDuplicatesIn, name, disk) then Skipped(name)
      else
        var reply := o.fetch(url);
        if reply.Refused? then ConnectionLost
        else if !reply.ok then NotOk
        else Written(p.target + "/" + name, reply.content)
  }

  /** The disk and log after a single download outcome. */
  function Outcome(disk: map<string, Bytes>, url: Url, d: Download): Attempt {
    if d.Written? then Attempt(disk[d.path := d.content], [url], false)
    else Attempt(disk, [], d.ConnectionLost?)
  }

  /** `process_found_url(url)` (main.py:56-104). */
  function FoundUrl(o: Oracles, p: Policy, s: Crawl, url: Url): Step {
    if url in s.visited then Step(s, [], [], false)
    else
      var appended := if Follows(o, p, url) then [url] else [];
      var d := DownloadLoop(o, p, s.disk, url, p.download);
      Step(Crawl(s.queue + appended, s.visited + {url}, d.disk), appended, d.written, d.raised)
  }

  /** One link found on `page` (main.py:121-128): resolved against the
      page, dropped when it leaves the page's network location and that is
      not allowed, processed otherwise. */
  function Consider(o: Oracles, p: Policy, s: Crawl, page: Url, link: string): Step {
    var candidate := o.join(page, link);
    if o.netloc(candidate) != o.netloc(page) && !p.allowNetlocChange then Step(s, [], [], false)
    else FoundUrl(o, p, s, candidate)
  }

  /** `next` run after `prev`. */
  function Then(prev: Step, next: Step): Step {
    Step(next.state, prev.appended + next.appended, prev.written + next.written, next.raised)
  }

  /** The links of a page considered in order, until a `ConnectionError`
      ends the scan. */
  function Scan(o: Oracles, p: Policy, s: Crawl, page: Url, links: seq<string>): Step
    decreases |links|
  {
    if links == [] then Step(s, [], [], false)
    else
      var prev := Scan(o, p, s, page, links[..|links| - 1]);
      if prev.raised then prev else Then(prev, Consider(o, p, prev.state, page, links[|links| - 1]))
  }

  /** The link text of each match, in the order of the page. */
  function Links(ms: seq<LinkMatch>): (links: seq<string>)
    ensures |links| == |ms|
  {
    seq(|ms|, k requires 0 <= k < |ms| => ms[k].link)
  }

  /** `visit_next_url()` (main.py:106-128): the head of the queue is
      removed and fetched, and every link in the response text is
      considered, whatever the response status. */
  function Visit(o: Oracles, p: Policy, s: Crawl): Step
    requires s.queue != []
  {
    var page := s.queue[0];
    var popped := s.(queue := s.queue[1..]);
    match o.fetch(page)
    case Refused => Step(popped, [], [], true)
    case Answer(_, text, _) => Scan(o, p, popped, page, Links(FindLinks(text)))
  }

  // ----- process_found_url -----

  /** A URL already considered changes nothing: not the queue, not the
      visited set, not the disk (main.py:62-64). */
  lemma RevisitChangesNothing(o: Oracles, p: Policy, s: Crawl, url: Url)
    requires url in s.visited
    ensures FoundUrl(o, p, s, url) == Step(s, [], [], false)
  {
  }

  /** A new URL is marked visited before anything else can happen, even
      when the download then raises (main.py:65). */
  lemma NewUrlIsVisited(o: Oracles, p: Policy, s: Crawl, url: Url)
    requires url !in s.visited
    ensures FoundUrl(o, p, s, url).state.visited == s.visited + {url}
  {
  }

  /** The URL is appended to the tail of the queue, once, exactly when no
      "no follow" pattern matches and some "follow" pattern does; the queue
      is otherwise unchanged (main.py:69-81). */
  lemma EnqueueExactlyWhenFollowed(o: Oracles, p: Policy, s: Crawl, url: Url)
    ensures var r := FoundUrl(o, p, s, url);
      && r.state.queue == s.queue + r.appended
      && r.appended == (if url !in s.visited && Follows(o, p, url) then [url] else [])
  {
  }

  /** "No follow" wins over "follow". */
  lemma NoFollowPrecedence(o: Oracles, p: Policy, s: Crawl, url: Url)
    requires MatchesAny(o, p.noFollow, url)
    ensures FoundUrl(o, p, s, url).state.queue == s.queue
  {
  }

  /** The download loop only adds files, writes only `url`, and leaves
      the disk alone when it writes nothing. */
  lemma {:induction false} LoopOnlyAdds(o: Oracles, p: Policy, disk: map<string, Bytes>, url: Url, pats: seq<string>)
    ensures var r := DownloadLoop(o, p, disk, url, pats);
      && disk.Keys <= r.disk.Keys
      && (r.written == [] ==> r.disk == disk)
      && (forall u :: u in r.written ==> u == url)
    decreases |pats|
  {
    if pats != [] {
      if !o.matches(pats[0], url) {
        LoopOnlyAdds(o, p, disk, url, pats[1..]);
      } else {
        var name := DerivedName(o, url);
        var reply := o.fetch(url);
        if !ExistsIn(p.ignoreDuplicatesIn, name, disk) && reply.Answer? && reply.ok {
          LoopOnlyAdds(o, p, disk[p.target + "/" + name := reply.content], url, pats[1..]);
        }
      }
    }
  }

  /** Once `target/name` exists, later download patterns hit the
      duplicate check and change nothing. */
  lemma {:induction false} NothingAfterWrite(o: Oracles, p: Policy, disk: map<string, Bytes>, url: Url, pats: seq<string>)
    requires TargetSearched(p) && p.target + "/" + DerivedName(o, url) in disk
    ensures DownloadLoop(o, p, disk, url, pats) == Attempt(disk, [], false)
    decreases |pats|
  {
    if pats != [] {
      if o.matches(pats[0], url) {
        var i :| 0 <= i < |p.ignoreDuplicatesIn| && p.ignoreDuplicatesIn[i] == p.target;
        assert ExistsIn(p.ignoreDuplicatesIn, DerivedName(o, url), disk);
      } else {
        NothingAfterWrite(o, p, disk, url, pats[1..]);
      }
    }
  }

  lemma MatchesAnyTail(o: Oracles, pats: seq<string>, url: Url)
    requires pats != [] && !o.matches(pats[0], url)
    ensures MatchesAny(o, pats, url) == MatchesAny(o, pats[1..], url)
  {
    if MatchesAny(o, pats, url) {
      var i :| 0 <= i < |pats| && o.matches(pats[i], url);
      assert pats[1..][i - 1] == pats[i];
    }
    if MatchesAny(o, pats[1..], url) {
      var i :| 0 <= i < |pats[1..]| && o.matches(pats[1..][i], url);
      assert pats[i + 1] == pats[1..][i];
    }
  }

  /** With the target searched for duplicates, the loop without `break`
      does what the first matching pattern alone does: it fetches at most
      once and writes at most one file (main.py:83-104 with 241-242). */
  lemma {:induction false} LoopIsFirstMatch(o: Oracles, p: Policy, disk: map<string, Bytes>, url: Url, pats: seq<string>)
    requires TargetSearched(p)
    ensures DownloadLoop(o, p, disk, url, pats) == Outcome(disk, url, DownloadOf(o, p, disk, url, pats))
    ensures |DownloadLoop(o, p, disk, url, pats).written| <= 1
    decreases |pats|
  {
    if pats == [] {
      assert !MatchesAny(o, pats, url);
    } else if o.matches(pats[0], url) {
      assert MatchesAny(o, pats, url);
      var name := DerivedName(o, url);
      var reply := o.fetch(url);
      if !ExistsIn(p.ignoreDuplicatesIn, name, disk) && reply.Answer? && reply.ok {
        NothingAfterWrite(o, p, disk[p.target + "/" + name := reply.content], url, pats[1..]);
      }
    } else {
      MatchesAnyTail(o, pats, url);
      LoopIsFirstMatch(o, p, disk, url, pats[1..]);
    }
  }

  /** A name already present in a directory searched for duplicates
      means no request and no write (main.py:91-95). */
  lemma DuplicateNotFetched(o: Oracles, p: Policy, s: Crawl, url: Url)
    requires TargetSearched(p)
    requires url !in s.visited && MatchesAny(o, p.download, url)
    requires ExistsIn(p.ignoreDuplicatesIn, DerivedName(o, url), s.disk)
    ensures var r := FoundUrl(o, p, s, url);
      r.state.disk == s.disk && r.written == [] && !r.raised
  {
    LoopIsFirstMatch(o, p, s.disk, url, p.download);
  }

  /** A response that is not ok writes nothing (main.py:99-101). */
  lemma NotOkWritesNothing(o: Oracles, p: Policy, s: Crawl, url: Url)
    requires TargetSearched(p)
    requires o.fetch(url).Answer? && !o.fetch(url).ok
    ensures var r := FoundUrl(o, p, s, url);
      r.state.disk == s.disk && r.written == [] && !r.raised
  {
    LoopIsFirstMatch(o, p, s.disk, url, p.download);
  }

  /** A good response for a new URL that a download pattern matches, whose
      name is in none of the directories searched for duplicates, is
      written to `target/name`, once, and nothing else on disk changes
      (main.py:91, 98-104). */
  lemma OkWritesContent(o: Oracles, p: Policy, s: Crawl, url: Url)
    requires TargetSearched(p)
    requires url !in s.visited && MatchesAny(o, p.download, url)
    requires !ExistsIn(p.ignoreDuplicatesIn, DerivedName(o, url), s.disk)
    requires o.fetch(url).Answer? && o.fetch(url).ok
    ensures var r := FoundUrl(o, p, s, url);
      && r.state.disk == s.disk[p.target + "/" + DerivedName(o, url) := o.fetch(url).content]
      && r.written == [url] && !r.raised
  {
    LoopIsFirstMatch(o, p, s.disk, url, p.download);
  }

  /** A `ConnectionError` escapes exactly when a new URL that a download
      pattern matches, and whose name is nowhere yet, cannot be fetched. */
  lemma RaisedOnlyWhenRefused(o: Oracles, p: Policy, s: Crawl, url: Url)
    requires TargetSearched(p)
    ensures FoundUrl(o, p, s, url).raised <==>
      && url !in s.visited && MatchesAny(o, p.download, url)
      && !ExistsIn(p.ignoreDuplicatesIn, DerivedName(o, url), s.disk)
      && o.fetch(url).Refused?
  {
    LoopIsFirstMatch(o, p, s.disk, url, p.download);
  }

  /** A write never replaces a file: it creates `target/name`, which was
      not there. */
  lemma WriteCreatesNewFile(o: Oracles, p: Policy, s: Crawl, url: Url)
    requires TargetSearched(p)
    ensures var r := FoundUrl(o, p, s, url);
      && s.disk.Keys <= r.state.disk.Keys
      && (r.written == [] ==> r.state.disk == s.disk)
      && (r.written != [] ==>
            (&& r.written == [url]
             && p.target + "/" + DerivedName(o, url) !in s.disk
             && r.state.disk.Keys == s.disk.Keys + {p.target + "/" + DerivedName(o, url)}))
  {
    LoopIsFirstMatch(o, p, s.disk, url, p.download);
    var r := FoundUrl(o, p, s, url);
    if r.written != [] {
      var i :| 0 <= i < |p.ignoreDuplicatesIn| && p.ignoreDuplicatesIn[i] == p.target;
      assert !ExistsIn(p.ignoreDuplicatesIn, DerivedName(o, url), s.disk);
    }
  }

  // ----- a page's links -----

  /** One link only adds: to the visited set, to the tail of the queue,
      to the disk; and when it adds nothing to the visited set it adds
      nothing at all. */
  lemma ConsiderGrows(o: Oracles, p: Policy, s: Crawl, page: Url, link: string)
    ensures var r := Consider(o, p, s, page, link);
      && s.visited <= r.state.visited
      && r.state.queue == s.queue + r.appended
      && s.disk.Keys <= r.state.disk.Keys
      && (r.state.visited == s.visited ==> r.appended == [] && r.written == [] && r.state.disk == s.disk)
  {
    var candidate := o.join(page, link);
    LoopOnlyAdds(o, p, s.disk, candidate, p.download);
    if candidate in s.visited {
      assert Consider(o, p, s, page, link).state == s;
    }
  }

  /** A page's links only add: to the visited set, to the tail of the
      queue, to the disk. */
  lemma {:induction false} ScanGrows(o: Oracles, p: Policy, s: Crawl, page: Url, links: seq<string>)
    ensures var r := Scan(o, p, s, page, links);
      && s.visited <= r.state.visited
      && r.state.queue == s.queue + r.appended
      && s.disk.Keys <= r.state.disk.Keys
      && (r.state.visited == s.visited ==> r.appended == [] && r.written == [] && r.state.disk == s.disk)
    decreases |links|
  {
    if links != [] {
      var init := links[..|links| - 1];
      var prev := Scan(o, p, s, page, init);
      ScanGrows(o, p, s, page, init);
      if !prev.raised {
        ConsiderGrows(o, p, prev.state, page, links[|links| - 1]);
        assert Scan(o, p, s, page, links) == Then(prev, Consider(o, p, prev.state, page, links[|links| - 1]));
      }
    }
  }

  lemma NoDupsConcat(a: seq<Url>, b: seq<Url>)
    requires NoDups(a) && NoDups(b)
    requires forall u :: u in b ==> u !in a
    ensures NoDups(a + b)
  {
    forall i, j | 0 <= i < j < |a + b| ensures (a + b)[i] != (a + b)[j] {
      if j >= |a| && i < |a| { assert (a + b)[j] == b[j - |a|]; assert b[j - |a|] in b; }
    }
  }

  /** Processing a URL appends and writes at most that URL, and only when
      it had not been considered before. */
  lemma FoundUrlFresh(o: Oracles, p: Policy, s: Crawl, url: Url)
    requires TargetSearched(p)
    ensures var r := FoundUrl(o, p, s, url);
      && s.visited <= r.state.visited
      && NoDups(r.appended) && NoDups(r.written)
      && (forall u :: u in r.appended ==> u !in s.visited && u in r.state.visited)
      && (forall u :: u in r.written ==> u !in s.visited && u in r.state.visited)
  {
    LoopOnlyAdds(o, p, s.disk, url, p.download);
    LoopIsFirstMatch(o, p, s.disk, url, p.download);
  }

  /** One link appends and writes at most the URL it resolves to, and
      only when that URL had not been considered. */
  lemma ConsiderFresh(o: Oracles, p: Policy, s: Crawl, page: Url, link: string)
    requires TargetSearched(p)
    ensures var r := Consider(o, p, s, page, link);
      && s.visited <= r.state.visited
      && NoDups(r.appended) && NoDups(r.written)
      && (forall u :: u in r.appended ==> u !in s.visited && u in r.state.visited)
      && (forall u :: u in r.written ==> u !in s.visited && u in r.state.visited)
  {
    FoundUrlFresh(o, p, s, o.join(page, link));
  }

  /** Within a page, a URL is appended at most once and written at most
      once, and only URLs not considered before the page are; they are all
      considered afterwards. */
  lemma {:induction false} ScanFresh(o: Oracles, p: Policy, s: Crawl, page: Url, links: seq<string>)
    requires TargetSearched(p)
    ensures var r := Scan(o, p, s, page, links);
      && NoDups(r.appended) && NoDups(r.written)
      && (forall u :: u in r.appended ==> u !in s.visited && u in r.state.visited)
      && (forall u :: u in r.written ==> u !in s.visited && u in r.state.visited)
    decreases |links|
  {
    if links != [] {
      var init := links[..|links| - 1];
      var prev := Scan(o, p, s, page, init);
      ScanFresh(o, p, s, page, init);
      ScanGrows(o, p, s, page, init);
      if !prev.raised {
        var next := Consider(o, p, prev.state, page, links[|links| - 1]);
        ConsiderFresh(o, p, prev.state, page, links[|links| - 1]);
        NoDupsConcat(prev.appended, next.appended);
        NoDupsConcat(prev.written, next.written);
        assert Scan(o, p, s, page, links) == Then(prev, next);
      }
    }
  }

  /** Every URL a page adds to the visited set is one of its links resolved
      against it, and stays on the page's network location unless leaving
      it is allowed; every URL it appends to the queue passes the follow
      rules. */
  lemma {:induction false} ScanGated(o: Oracles, p: Policy, s: Crawl, page: Url, links: seq<string>)
    ensures var r := Scan(o, p, s, page, links);
      && (forall u :: u in r.state.visited && u !in s.visited ==>
            (exists k :: 0 <= k < |links| && u == o.join(page, links[k]))
            && (p.allowNetlocChange || o.netloc(u) == o.netloc(page)))
      && (forall u :: u in r.appended ==> Follows(o, p, u))
    decreases |links|
  {
    if links != [] {
      var init := links[..|links| - 1];
      ScanGated(o, p, s, page, init);
      forall u | u in Scan(o, p, s, page, links).state.visited && u !in s.visited
        ensures exists k :: 0 <= k < |links| && u == o.join(page, links[k])
      {
        if u in Scan(o, p, s, page, init).state.visited {
          var k :| 0 <= k < |init| && u == o.join(page, init[k]);
          assert links[k] == init[k];
        } else {
          assert u == o.join(page, links[|links| - 1]);
        }
      }
    }
  }

  lemma RaisedScanStays(o: Oracles, p: Policy, s: Crawl, page: Url, links: seq<string>)
    requires links != [] && Scan(o, p, s, page, links[..|links| - 1]).raised
    ensures Scan(o, p, s, page, links) == Scan(o, p, s, page, links[..|links| - 1])
  {
  }

  /** Once a `ConnectionError` has ended the scan, later links change
      nothing. */
  lemma {:induction false} ScanStops(o: Oracles, p: Policy, s: Crawl, page: Url, links: seq<string>, more: seq<string>)
    requires Scan(o, p, s, page, links).raised
    ensures Scan(o, p, s, page, links + more) == Scan(o, p, s, page, links)
    decreases |more|
  {
    if more != [] {
      var init := more[..|more| - 1];
      var whole := links + more;
      assert whole[..|whole| - 1] == links + init;
      ScanStops(o, p, s, page, links, init);
      RaisedScanStays(o, p, s, page, whole);
    } else {
      assert links + more == links;
    }
  }

  // ----- visit_next_url -----

  /** The queue loses exactly its head, and what the page appends comes
      after everything that was already waiting (FIFO, main.py:111). */
  lemma VisitIsFifo(o: Oracles, p: Policy, s: Crawl)
    requires s.queue != [] && TargetSearched(p)
    ensures var r := Visit(o, p, s);
      && r.state.queue == s.queue[1..] + r.appended
      && s.visited <= r.state.visited
      && NoDups(r.appended) && NoDups(r.written)
      && (forall u :: u in r.appended ==> u !in s.visited && u in r.state.visited && Follows(o, p, u))
      && (forall u :: u in r.written ==> u !in s.visited && u in r.state.visited)
  {
    var page := s.queue[0];
    match o.fetch(page)
    case Refused =>
    case Answer(_, text, _) =>
      var popped := s.(queue := s.queue[1..]);
      ScanGrows(o, p, popped, page, Links(FindLinks(text)));
      ScanFresh(o, p, popped, page, Links(FindLinks(text)));
      ScanGated(o, p, popped, page, Links(FindLinks(text)));
  }

  /** A visit removes the head of the queue and appends at its tail. */
  lemma VisitPopsHead(o: Oracles, p: Policy, s: Crawl)
    requires s.queue != []
    ensures Visit(o, p, s).state.queue == s.queue[1..] + Visit(o, p, s).appended
  {
    match o.fetch(s.queue[0])
    case Refused =>
    case Answer(_, text, _) =>
      ScanGrows(o, p, s.(queue := s.queue[1..]), s.queue[0], Links(FindLinks(text)));
  }

  /** The crawl goes from `s` to `t` by visiting `pages`, in order: each
      page is the head of the queue when its turn comes, and `t` is what
      the successive visits leave (the main loop, main.py:255-260). */
  ghost predicate Crawled(o: Oracles, p: Policy, s: Crawl, t: Crawl, pages: seq<Url>)
    decreases |pages|
  {
    if pages == [] then t == s
    else s.queue != [] && pages[0] == s.queue[0] && Crawled(o, p, Visit(o, p, s).state, t, pages[1..])
  }

  /** One more turn of the main loop visits the head of the queue it
      finds, after the pages already visited. */
  lemma {:induction false} CrawledExtend(o: Oracles, p: Policy, s: Crawl, t: Crawl, pages: seq<Url>)
    requires Crawled(o, p, s, t, pages) && t.queue != []
    ensures Crawled(o, p, s, Visit(o, p, t).state, pages + [t.queue[0]])
    decreases |pages|
  {
    if pages == [] {
      assert [t.queue[0]][1..] == [];
    } else {
      CrawledExtend(o, p, Visit(o, p, s).state, t, pages[1..]);
      assert (pages + [t.queue[0]])[1..] == pages[1..] + [t.queue[0]];
    }
  }

  /** The pages visited determine where the crawl ends: the main loop
      has no choice to make. */
  lemma {:induction false} CrawledUnique(o: Oracles, p: Policy, s: Crawl, t: Crawl, t': Crawl, pages: seq<Url>)
    requires Crawled(o, p, s, t, pages) && Crawled(o, p, s, t', pages)
    ensures t == t'
    decreases |pages|
  {
    if pages != [] {
      CrawledUnique(o, p, Visit(o, p, s).state, t, t', pages[1..]);
    }
  }

  /** Every result of `urljoin` lies in `universe`. */
  ghost predicate Closed(o: Oracles, universe: set<Url>) {
    forall base, link :: o.join(base, link) in universe
  }

  /** In a finite universe of URLs a visit either considers URLs of the
      universe it had not considered, or shortens the queue: the crawl
      cannot go on for ever. */
  lemma VisitProgress(o: Oracles, p: Policy, s: Crawl, universe: set<Url>)
    requires s.queue != [] && Closed(o, universe)
    ensures var r := Visit(o, p, s);
      && s.visited <= r.state.visited
      && r.state.visited - s.visited <= universe
      && (r.state.visited == s.visited ==> |r.state.queue| < |s.queue|)
  {
    var page := s.queue[0];
    match o.fetch(page)
    case Refused =>
    case Answer(_, text, _) =>
      var popped := s.(queue := s.queue[1..]);
      ScanGrows(o, p, popped, page, Links(FindLinks(text)));
      ScanGated(o, p, popped, page, Links(FindLinks(text)));
  }
}
