/** The site crawler and the manifest it leaves behind. */
module Crawl {
  import opened Common

  datatype Page = Page(url: string, title: string, markdown: string, words: nat)

  datatype Fetched = Fetched(page: Page, links: seq<string>)

  datatype Config = Config(maxDepth: nat, maxPages: nat, minWords: nat, skipPatterns: seq<string>)

  datatype CrawlResult = CrawlResult(crawled: nat, skipped: nat, totalWords: nat)

  /** The site: what a request for a URL returns, already extracted. Each URL is asked for at most once. */
  type Site = string -> Option<Fetched>

  /** `fetch_and_extract`: failures and pages below the word minimum are errors. */
  function Fetch(site: Site, cfg: Config, url: string): Option<Fetched> {
    match site(url)
    case Some(f) =>
      if f.page.words < cfg.minWords then None else Some(Fetched(f.page.(url := url), f.links))
    case None => None
  }

  predicate Contains(s: string, p: string) {
    p <= s || (s != [] && Contains(s[1..], p))
  }

  predicate ShouldSkip(url: string, patterns: seq<string>) {
    exists i :: 0 <= i < |patterns| && Contains(url, patterns[i])
  }

  /** `p` stands somewhere in `s`. */
  predicate StandsAt(s: string, p: string, i: nat) {
    i + |p| <= |s| && s[i..i + |p|] == p
  }

  lemma StandsInTail(s: string, p: string, i: nat)
    requires s != []
    ensures StandsAt(s[1..], p, i) <==> StandsAt(s, p, i + 1)
  {
    if i + 1 + |p| <= |s| {
      assert s[1..][i..i + |p|] == s[i + 1..i + 1 + |p|];
    }
  }

  lemma {:induction false} ContainsIff(s: string, p: string)
    ensures Contains(s, p) <==> exists i: nat :: StandsAt(s, p, i)
  {
    if p <= s {
      assert StandsAt(s, p, 0);
    } else if s != [] {
      ContainsIff(s[1..], p);
      forall i: nat ensures StandsAt(s[1..], p, i) <==> StandsAt(s, p, i + 1) { StandsInTail(s, p, i); }
      if i: nat :| StandsAt(s, p, i) {
        assert i > 0 && StandsAt(s[1..], p, i - 1);
      }
    }
  }

  /** A URL is left out exactly when one of the patterns stands somewhere in it. */
  lemma ShouldSkipIff(url: string, patterns: seq<string>)
    ensures ShouldSkip(url, patterns) <==> exists p, i: nat :: p in patterns && StandsAt(url, p, i)
  {
    if ShouldSkip(url, patterns) {
      var k :| 0 <= k < |patterns| && Contains(url, patterns[k]);
      ContainsIff(url, patterns[k]);
    }
    if p, i: nat :| p in patterns && StandsAt(url, p, i) {
      ContainsIff(url, p);
    }
  }

  /** A page comes back exactly when the site has one with enough words, under the URL asked for. */
  lemma FetchIff(site: Site, cfg: Config, url: string)
    ensures Fetch(site, cfg, url).Some? <==> site(url).Some? && site(url).value.page.words >= cfg.minWords
    ensures Fetch(site, cfg, url).Some? ==>
              var (got, there) := (Fetch(site, cfg, url).value, site(url).value);
              && got.page.url == url && got.page.title == there.page.title && got.page.words == there.page.words
              && got.page.markdown == there.page.markdown && got.links == there.links
  {
  }

  // --- Manifest ---

  datatype Entry = Entry(url: string, file: string, title: string, words: nat)

  datatype Index = Index(pages: seq<Entry>, totalWords: nat)

  function TotalWords(pages: seq<Entry>): nat {
    if pages == [] then 0 else TotalWords(pages[..|pages| - 1]) + pages[|pages| - 1].words
  }

  lemma {:induction false} TotalWordsAdd(a: seq<Entry>, b: seq<Entry>, e: Entry)
    ensures TotalWords([]) == 0 && TotalWords([e]) == e.words && TotalWords(a + b) == TotalWords(a) + TotalWords(b)
    decreases |b|
  {
    assert TotalWords([e][..0]) == 0;
    if b == [] {
      assert a + b == a;
    } else {
      assert (a + b)[..|a + b| - 1] == a + b[..|b| - 1];
      TotalWordsAdd(a, b[..|b| - 1], e);
    }
  }

  function WithoutUrl(pages: seq<Entry>, url: string): seq<Entry> {
    if pages == [] then [] else
    var rest := WithoutUrl(pages[..|pages| - 1], url);
    if pages[|pages| - 1].url == url then rest else rest + [pages[|pages| - 1]]
  }

  lemma {:induction false} WithoutAbsentUrl(pages: seq<Entry>, url: string)
    requires forall i :: 0 <= i < |pages| ==> pages[i].url != url
    ensures WithoutUrl(pages, url) == pages
  {
    if pages != [] {
      WithoutAbsentUrl(pages[..|pages| - 1], url);
    }
  }

  lemma {:induction false} WithoutUrlExact(pages: seq<Entry>, url: string, e: Entry)
    ensures e in WithoutUrl(pages, url) <==> e in pages && e.url != url
  {
    if pages != [] {
      WithoutUrlExact(pages[..|pages| - 1], url, e);
      assert pages == pages[..|pages| - 1] + [pages[|pages| - 1]];
    }
  }

  ghost predicate UniqueUrls(pages: seq<Entry>) {
    forall i, j :: 0 <= i < j < |pages| ==> pages[i].url != pages[j].url
  }

  lemma {:induction false} WithoutUrlUnique(pages: seq<Entry>, url: string)
    requires UniqueUrls(pages)
    ensures UniqueUrls(WithoutUrl(pages, url))
  {
    if pages != [] {
      var rest, last := pages[..|pages| - 1], pages[|pages| - 1];
      WithoutUrlUnique(rest, url);
      var kept := WithoutUrl(rest, url);
      forall i | 0 <= i < |kept|
        ensures kept[i].url != last.url
      {
        WithoutUrlExact(rest, url, kept[i]);
      }
    }
  }

  /** One domain's manifest; `fileOf` turns a URL into a relative file name. */
  class SiteStore {
    var index: Option<Index>
    const fileOf: string -> string

    constructor (fileOf: string -> string)
      ensures index == None && this.fileOf == fileOf
    {
      index := None;
      this.fileOf := fileOf;
    }

    function Pages(): seq<Entry>
      reads this
    {
      if index.Some? then index.value.pages else []
    }

    ghost predicate Valid()
      reads this
    {
      UniqueUrls(Pages()) && (index.Some? ==> index.value.totalWords == TotalWords(index.value.pages))
    }

    /** The page's entry replaces any earlier one for its URL and goes last; the total is recounted. */
    method SavePage(page: Page)
      requires Valid()
      modifies this
      ensures Valid() && index.Some?
      ensures index.value.pages ==
              WithoutUrl(old(Pages()), page.url) + [Entry(page.url, fileOf(page.url), page.title, page.words)]
    {
      var kept := [];
      var pages := Pages();
      for i := 0 to |pages|
        invariant kept == WithoutUrl(pages[..i], page.url)
      {
        assert pages[..i + 1][..i] == pages[..i];
        if pages[i].url != page.url {
          kept := kept + [pages[i]];
        }
      }
      assert pages[..|pages|] == pages;
      WithoutUrlUnique(pages, page.url);
      forall i | 0 <= i < |kept|
        ensures kept[i].url != page.url
      {
        WithoutUrlExact(pages, page.url, kept[i]);
      }
      pages := kept + [Entry(page.url, fileOf(page.url), page.title, page.words)];
      var total := 0;
      for i := 0 to |pages|
        invariant total == TotalWords(pages[..i])
      {
        assert pages[..i + 1][..i] == pages[..i];
        total := total + pages[i].words;
      }
      assert pages[..|pages|] == pages;
      index := Some(Index(pages, total));
    }
  }

  // --- Reachability ---

  /** `url` is `depth` links from `start`, along pages that are not skipped and can be fetched. */
  ghost predicate Linked(site: Site, cfg: Config, start: string, url: string, depth: nat)
    decreases depth
  {
    if depth == 0 then url == start
    else exists via :: Linked(site, cfg, start, via, depth - 1) && LinksTo(site, cfg, via, url)
  }

  predicate LinksTo(site: Site, cfg: Config, from: string, to: string) {
    !ShouldSkip(from, cfg.skipPatterns) && Fetch(site, cfg, from).Some? && to in Fetch(site, cfg, from).value.links
  }

  /** All that is known of a saved page and where it was found. */
  ghost predicate WellSaved(site: Site, cfg: Config, start: string, url: string, depth: nat) {
    depth <= cfg.maxDepth && Linked(site, cfg, start, url, depth) && Fetch(site, cfg, url).Some? &&
    !ShouldSkip(url, cfg.skipPatterns)
  }

  ghost predicate NoRepeats(urls: seq<string>) {
    forall i, j :: 0 <= i < j < |urls| ==> urls[i] != urls[j]
  }

  /** A link of a saved page that is still within depth has been visited or waits in the queue. */
  ghost predicate Pending(site: Site, cfg: Config, depths: map<string, nat>, visited: set<string>,
                          queue: seq<(string, nat)>) {
    forall u, l :: u in depths && LinksTo(site, cfg, u, l) && depths[u] < cfg.maxDepth ==>
      l in visited || (l, depths[u] + 1) in queue
  }

  // --- The loop as a function ---

  /** The links that are pushed, in order. */
  function Unvisited(links: seq<string>, depth: nat, visited: set<string>): seq<(string, nat)> {
    if links == [] then [] else
    var rest, last := Unvisited(links[..|links| - 1], depth, visited), links[|links| - 1];
    if last in visited then rest else rest + [(last, depth)]
  }

  /** What the loop holds, the store aside, and the requests made so far. */
  datatype Frontier = Frontier(seen: set<string>, queue: seq<(string, nat)>, asked: seq<string>,
                               depths: map<string, nat>, crawled: nat, skipped: nat)

  function Begin(start: string): Frontier {
    Frontier({}, [(start, 0)], [], map[], 0, 0)
  }

  /** Everything the loop does from here. */
  function Crawled(site: Site, cfg: Config, f: Frontier): Frontier
    decreases if f.crawled <= cfg.maxPages then cfg.maxPages - f.crawled else 0, |f.queue|
  {
    if f.queue == [] || f.crawled >= cfg.maxPages then f else
    var (url, depth) := f.queue[|f.queue| - 1];
    var rest := f.(queue := f.queue[..|f.queue| - 1]);
    if depth > cfg.maxDepth || url in f.seen then Crawled(site, cfg, rest)
    else Crawled(site, cfg, Visited(site, cfg, rest, url, depth))
  }

  /** An unvisited URL within depth: skipped, asked for in vain, or saved with its links queued. */
  function Visited(site: Site, cfg: Config, f: Frontier, url: string, depth: nat): Frontier {
    var g := f.(seen := f.seen + {url});
    if ShouldSkip(url, cfg.skipPatterns) then g.(skipped := f.skipped + 1)
    else if Fetch(site, cfg, url).None? then g.(asked := f.asked + [url], skipped := f.skipped + 1)
    else g.(queue := f.queue + Unvisited(Fetch(site, cfg, url).value.links, depth + 1, g.seen),
            asked := f.asked + [url], depths := f.depths[url := depth], crawled := f.crawled + 1)
  }

  method PushLinks(queue: seq<(string, nat)>, links: seq<string>, depth: nat, visited: set<string>)
    returns (q: seq<(string, nat)>)
    ensures q == queue + Unvisited(links, depth, visited)
    ensures queue <= q
    ensures forall l :: l in links && l !in visited ==> (l, depth) in q
    ensures forall i :: |queue| <= i < |q| ==> q[i].1 == depth && q[i].0 in links && q[i].0 !in visited
  {
    q := queue;
    for i := 0 to |links|
      invariant q == queue + Unvisited(links[..i], depth, visited)
      invariant queue <= q
      invariant forall j :: 0 <= j < i && links[j] !in visited ==> (links[j], depth) in q
      invariant forall j :: |queue| <= j < |q| ==> q[j].1 == depth && q[j].0 in links && q[j].0 !in visited
    {
      assert links[..i + 1][..i] == links[..i];
      if links[i] !in visited {
        q := q + [(links[i], depth)];
      }
    }
    assert links[..|links|] == links;
  }

  /** Taking the last entry off the queue is fine once its URL is visited, or if it lies too deep. */
  lemma PendingPop(site: Site, cfg: Config, depths: map<string, nat>, seen: set<string>, seen': set<string>,
                   queue: seq<(string, nat)>, url: string, depth: nat)
    requires Pending(site, cfg, depths, seen, queue + [(url, depth)])
    requires seen <= seen' && (url in seen' || depth > cfg.maxDepth)
    ensures Pending(site, cfg, depths, seen', queue)
  {
  }

  lemma PendingPush(site: Site, cfg: Config, depths: map<string, nat>, seen: set<string>,
                    queue: seq<(string, nat)>, url: string, depth: nat, longer: seq<(string, nat)>)
    requires Pending(site, cfg, depths, seen, queue) && queue <= longer
    requires Fetch(site, cfg, url).Some?
    requires forall l :: l in Fetch(site, cfg, url).value.links && l !in seen ==> (l, depth + 1) in longer
    ensures Pending(site, cfg, depths[url := depth], seen, longer)
  {
  }

  ghost predicate QueueLinked(site: Site, cfg: Config, start: string, queue: seq<(string, nat)>) {
    forall i :: 0 <= i < |queue| ==> Linked(site, cfg, start, queue[i].0, queue[i].1)
  }

  lemma SplitLast(queue: seq<(string, nat)>)
    requires queue != []
    ensures queue == queue[..|queue| - 1] + [(queue[|queue| - 1].0, queue[|queue| - 1].1)]
  {
  }

  lemma QueueLinkedPop(site: Site, cfg: Config, start: string, queue: seq<(string, nat)>, url: string, depth: nat)
    requires QueueLinked(site, cfg, start, queue + [(url, depth)])
    ensures QueueLinked(site, cfg, start, queue) && Linked(site, cfg, start, url, depth)
  {
    var longer := queue + [(url, depth)];
    assert Linked(site, cfg, start, longer[|queue|].0, longer[|queue|].1);
    forall i | 0 <= i < |queue|
      ensures Linked(site, cfg, start, queue[i].0, queue[i].1)
    {
      assert longer[i] == queue[i];
    }
  }

  lemma QueueLinkedPush(site: Site, cfg: Config, start: string, queue: seq<(string, nat)>, url: string, depth: nat,
                        longer: seq<(string, nat)>)
    requires QueueLinked(site, cfg, start, queue) && Linked(site, cfg, start, url, depth) && queue <= longer
    requires !ShouldSkip(url, cfg.skipPatterns) && Fetch(site, cfg, url).Some?
    requires forall i :: |queue| <= i < |longer| ==>
             longer[i].1 == depth + 1 && longer[i].0 in Fetch(site, cfg, url).value.links
    ensures QueueLinked(site, cfg, start, longer)
  {
    forall i | |queue| <= i < |longer|
      ensures Linked(site, cfg, start, longer[i].0, longer[i].1)
    {
      assert LinksTo(site, cfg, url, longer[i].0);
    }
  }

  ghost predicate DepthsGood(site: Site, cfg: Config, start: string, depths: map<string, nat>) {
    forall u :: u in depths ==> WellSaved(site, cfg, start, u, depths[u])
  }

  function EntryOf(fileOf: string -> string, page: Page): Entry {
    Entry(page.url, fileOf(page.url), page.title, page.words)
  }

  /** The manifest is exactly the saved pages, one entry each. */
  ghost predicate InStep(site: Site, cfg: Config, fileOf: string -> string, pages: seq<Entry>,
                         depths: map<string, nat>, crawled: nat, words: nat) {
    && |pages| == crawled == |depths|
    && TotalWords(pages) == words
    && forall i :: 0 <= i < |pages| ==>
         && pages[i].url in depths
         && Fetch(site, cfg, pages[i].url).Some?
         && pages[i] == EntryOf(fileOf, Fetch(site, cfg, pages[i].url).value.page)
  }

  method SaveNew(store: SiteStore, site: Site, cfg: Config, url: string, ghost depths: map<string, nat>,
                 ghost depth: nat, ghost crawled: nat, ghost words: nat)
    requires store.Valid() && InStep(site, cfg, store.fileOf, store.Pages(), depths, crawled, words)
    requires url !in depths && Fetch(site, cfg, url).Some?
    modifies store
    ensures store.Valid()
    ensures InStep(site, cfg, store.fileOf, store.Pages(), depths[url := depth], crawled + 1,
            words + Fetch(site, cfg, url).value.page.words)
  {
    ghost var pages := store.Pages();
    var page := Fetch(site, cfg, url).value.page;
    WithoutAbsentUrl(pages, url);
    store.SavePage(page);
    ghost var last := EntryOf(store.fileOf, page);
    assert store.Pages() == pages + [last];
    assert (pages + [last])[..|pages|] == pages;
    assert depths[url := depth].Keys == depths.Keys + {url};
    assert |depths[url := depth].Keys| == |depths.Keys| + 1;
  }

  /** Every visited URL is skipped or asked for, and what was asked for is saved if it can be fetched. */
  ghost predicate Accounted(site: Site, cfg: Config, visited: set<string>, asked: seq<string>,
                            depths: map<string, nat>) {
    && (forall u :: u in asked <==> u in visited && !ShouldSkip(u, cfg.skipPatterns))
    && (forall u :: u in depths <==> u in asked && Fetch(site, cfg, u).Some?)
  }

  /** What the loop knows between iterations, the manifest aside. */
  ghost predicate Progress(site: Site, cfg: Config, start: string, f: Frontier) {
    && f.crawled + f.skipped == |f.seen| && f.crawled <= cfg.maxPages
    && NoRepeats(f.asked) && Accounted(site, cfg, f.seen, f.asked, f.depths)
    && (start in f.seen || (f.queue == [(start, 0)] && f.crawled == 0))
    && QueueLinked(site, cfg, start, f.queue) && DepthsGood(site, cfg, start, f.depths)
    && Pending(site, cfg, f.depths, f.seen, f.queue)
  }

  lemma StartIsLast(queue: seq<(string, nat)>, url: string, depth: nat, start: string)
    ensures queue + [(url, depth)] == [(start, 0)] ==> queue == [] && url == start && depth == 0
  {
    assert (queue + [(url, depth)])[|queue|] == (url, depth);
  }

  /** A queue entry that is too deep or already visited is dropped. */
  lemma DropKeepsProgress(site: Site, cfg: Config, start: string, f: Frontier, rest: seq<(string, nat)>,
                          url: string, depth: nat)
    requires Progress(site, cfg, start, f) && f.queue == rest + [(url, depth)]
    requires url in f.seen || depth > cfg.maxDepth
    ensures Progress(site, cfg, start, f.(queue := rest))
  {
    StartIsLast(rest, url, depth, start);
    QueueLinkedPop(site, cfg, start, rest, url, depth);
    PendingPop(site, cfg, f.depths, f.seen, f.seen, rest, url, depth);
  }

  /** A URL that is skipped, or was asked for in vain, counts as visited. */
  lemma SkipKeepsProgress(site: Site, cfg: Config, start: string, f: Frontier, rest: seq<(string, nat)>,
                          url: string, depth: nat)
    requires Progress(site, cfg, start, f) && f.queue == rest + [(url, depth)] && url !in f.seen
    requires ShouldSkip(url, cfg.skipPatterns) || Fetch(site, cfg, url).None?
    ensures Progress(site, cfg, start, Visited(site, cfg, f.(queue := rest), url, depth))
  {
    StartIsLast(rest, url, depth, start);
    QueueLinkedPop(site, cfg, start, rest, url, depth);
    PendingPop(site, cfg, f.depths, f.seen, f.seen + {url}, rest, url, depth);
  }

  /** A saved page adds its unvisited links to the queue. */
  lemma SaveKeepsProgress(site: Site, cfg: Config, start: string, f: Frontier, rest: seq<(string, nat)>,
                          url: string, depth: nat)
    requires Progress(site, cfg, start, f) && f.queue == rest + [(url, depth)] && url !in f.seen
    requires depth <= cfg.maxDepth && f.crawled < cfg.maxPages
    requires !ShouldSkip(url, cfg.skipPatterns) && Fetch(site, cfg, url).Some?
    ensures Progress(site, cfg, start, Visited(site, cfg, f.(queue := rest), url, depth))
  {
    StartIsLast(rest, url, depth, start);
    SaveKeepsLinks(site, cfg, start, f, rest, url, depth);
    SaveKeepsPending(site, cfg, f, rest, url, depth);
    SaveKeepsAccounts(site, cfg, f, url, depth);
  }

  lemma SaveKeepsAccounts(site: Site, cfg: Config, f: Frontier, url: string, depth: nat)
    requires Accounted(site, cfg, f.seen, f.asked, f.depths) && NoRepeats(f.asked) && url !in f.seen
    requires !ShouldSkip(url, cfg.skipPatterns) && Fetch(site, cfg, url).Some?
    ensures Accounted(site, cfg, f.seen + {url}, f.asked + [url], f.depths[url := depth]) && NoRepeats(f.asked + [url])
  {
    assert url !in f.asked;
  }

  lemma SaveKeepsLinks(site: Site, cfg: Config, start: string, f: Frontier, rest: seq<(string, nat)>,
                       url: string, depth: nat)
    requires QueueLinked(site, cfg, start, f.queue) && DepthsGood(site, cfg, start, f.depths)
    requires f.queue == rest + [(url, depth)] && depth <= cfg.maxDepth
    requires !ShouldSkip(url, cfg.skipPatterns) && Fetch(site, cfg, url).Some?
    ensures var g := Visited(site, cfg, f.(queue := rest), url, depth);
            QueueLinked(site, cfg, start, g.queue) && DepthsGood(site, cfg, start, g.depths)
  {
    var links := Unvisited(Fetch(site, cfg, url).value.links, depth + 1, f.seen + {url});
    UnvisitedExact(Fetch(site, cfg, url).value.links, depth + 1, f.seen + {url});
    QueueLinkedPop(site, cfg, start, rest, url, depth);
    assert forall i :: |rest| <= i < |rest + links| ==> (rest + links)[i] == links[i - |rest|];
    QueueLinkedPush(site, cfg, start, rest, url, depth, rest + links);
  }

  lemma SaveKeepsPending(site: Site, cfg: Config, f: Frontier, rest: seq<(string, nat)>, url: string, depth: nat)
    requires Pending(site, cfg, f.depths, f.seen, f.queue) && f.queue == rest + [(url, depth)]
    requires !ShouldSkip(url, cfg.skipPatterns) && Fetch(site, cfg, url).Some?
    ensures var g := Visited(site, cfg, f.(queue := rest), url, depth);
            Pending(site, cfg, g.depths, g.seen, g.queue)
  {
    var seen, links := f.seen + {url}, Fetch(site, cfg, url).value.links;
    var longer := rest + Unvisited(links, depth + 1, seen);
    UnvisitedExact(links, depth + 1, seen);
    assert forall l :: l in links && l !in seen ==> (l, depth + 1) in longer;
    PendingPop(site, cfg, f.depths, f.seen, seen, rest, url, depth);
    PendingPush(site, cfg, f.depths, seen, rest, url, depth, longer);
  }

  lemma {:induction false} UnvisitedExact(links: seq<string>, depth: nat, visited: set<string>)
    ensures forall l :: l in links && l !in visited ==> (l, depth) in Unvisited(links, depth, visited)
    ensures forall i :: 0 <= i < |Unvisited(links, depth, visited)| ==>
              var e := Unvisited(links, depth, visited)[i];
              e.1 == depth && e.0 in links && e.0 !in visited
  {
    if links != [] {
      var n := |links| - 1;
      UnvisitedExact(links[..n], depth, visited);
      assert links == links[..n] + [links[n]];
    }
  }

  /** What the loop knows holds when it ends. */
  lemma {:induction false} CrawledKeepsProgress(site: Site, cfg: Config, start: string, f: Frontier)
    requires Progress(site, cfg, start, f)
    ensures var g := Crawled(site, cfg, f);
            Progress(site, cfg, start, g) && (g.queue == [] || g.crawled >= cfg.maxPages)
    decreases if f.crawled <= cfg.maxPages then cfg.maxPages - f.crawled else 0, |f.queue|
  {
    if f.queue != [] && f.crawled < cfg.maxPages {
      SplitLast(f.queue);
      var (url, depth) := f.queue[|f.queue| - 1];
      var rest := f.queue[..|f.queue| - 1];
      if depth > cfg.maxDepth || url in f.seen {
        DropKeepsProgress(site, cfg, start, f, rest, url, depth);
        CrawledKeepsProgress(site, cfg, start, f.(queue := rest));
      } else {
        if ShouldSkip(url, cfg.skipPatterns) || Fetch(site, cfg, url).None? {
          SkipKeepsProgress(site, cfg, start, f, rest, url, depth);
        } else {
          SaveKeepsProgress(site, cfg, start, f, rest, url, depth);
        }
        CrawledKeepsProgress(site, cfg, start, Visited(site, cfg, f.(queue := rest), url, depth));
      }
    }
  }

  lemma BeginMakesProgress(site: Site, cfg: Config, start: string)
    ensures Progress(site, cfg, start, Begin(start))
  {
    assert Linked(site, cfg, start, start, 0);
  }

  /** An unvisited URL within depth: skipped, asked for in vain, or fetched and saved with its links queued. */
  method Visit(site: Site, cfg: Config, store: SiteStore, url: string, depth: nat, seen: set<string>,
               queue: seq<(string, nat)>, counts: CrawlResult, ghost asked: seq<string>, ghost depths: map<string, nat>)
    returns (seen': set<string>, queue': seq<(string, nat)>, counts': CrawlResult,
             ghost asked': seq<string>, ghost depths': map<string, nat>)
    requires store.Valid() && InStep(site, cfg, store.fileOf, store.Pages(), depths, counts.crawled, counts.totalWords)
    requires url !in depths
    modifies store
    ensures Frontier(seen', queue', asked', depths', counts'.crawled, counts'.skipped) ==
            Visited(site, cfg, Frontier(seen, queue, asked, depths, counts.crawled, counts.skipped), url, depth)
    ensures counts'.crawled == counts.crawled + 1 || (counts'.crawled == counts.crawled && queue' == queue)
    ensures store.Valid() &&
            InStep(site, cfg, store.fileOf, store.Pages(), depths', counts'.crawled, counts'.totalWords)
  {
    seen', queue', counts', asked', depths' := seen + {url}, queue, counts, asked, depths;
    if ShouldSkip(url, cfg.skipPatterns) {
      counts' := counts.(skipped := counts.skipped + 1);
      return;
    }
    asked' := asked + [url];
    var fetched := Fetch(site, cfg, url);
    if fetched.None? {
      counts' := counts.(skipped := counts.skipped + 1);
      return;
    }
    SaveNew(store, site, cfg, url, depths, depth, counts.crawled, counts.totalWords);
    queue' := PushLinks(queue, fetched.value.links, depth + 1, seen');
    counts' := CrawlResult(counts.crawled + 1, counts.skipped, counts.totalWords + fetched.value.page.words);
    depths' := depths[url := depth];
  }

  lemma CrawledTurn(site: Site, cfg: Config, f: Frontier, rest: seq<(string, nat)>, url: string, depth: nat)
    requires f.queue == rest + [(url, depth)] && f.crawled < cfg.maxPages
    ensures Crawled(site, cfg, f) ==
            if depth > cfg.maxDepth || url in f.seen then Crawled(site, cfg, f.(queue := rest))
            else Crawled(site, cfg, Visited(site, cfg, f.(queue := rest), url, depth))
  {
    assert f.queue[..|f.queue| - 1] == rest;
  }

  /** The worklist loop, as the function it computes; it ends on every site. */
  method CrawlLoop(site: Site, start: string, cfg: Config, store: SiteStore)
    returns (result: CrawlResult, ghost end: Frontier)
    requires store.index.None?
    modifies store
    ensures end == Crawled(site, cfg, Begin(start)) && result.crawled == end.crawled && result.skipped == end.skipped
    ensures store.Valid()
    ensures InStep(site, cfg, store.fileOf, store.Pages(), end.depths, result.crawled, result.totalWords)
  {
    var seen: set<string> := {};
    var queue: seq<(string, nat)> := [(start, 0)];
    result := CrawlResult(0, 0, 0);
    end := Begin(start);
    while queue != []
      invariant end == Frontier(seen, queue, end.asked, end.depths, result.crawled, result.skipped)
      invariant result.crawled <= cfg.maxPages && end.depths.Keys <= seen
      invariant store.Valid()
      invariant InStep(site, cfg, store.fileOf, store.Pages(), end.depths, result.crawled, result.totalWords)
      invariant Crawled(site, cfg, end) == Crawled(site, cfg, Begin(start))
      decreases cfg.maxPages - result.crawled, |queue|
    {
      SplitLast(queue);
      var (url, depth) := queue[|queue| - 1];
      var rest := queue[..|queue| - 1];
      if result.crawled >= cfg.maxPages { break; }
      CrawledTurn(site, cfg, end, rest, url, depth);
      queue := rest;
      if depth > cfg.maxDepth {
        end := end.(queue := rest);
        continue;
      }
      if url in seen {
        end := end.(queue := rest);
        continue;
      }
      ghost var asked, depths := end.asked, end.depths;
      seen, queue, result, asked, depths := Visit(site, cfg, store, url, depth, seen, queue, result, asked, depths);
      end := Frontier(seen, queue, asked, depths, result.crawled, result.skipped);
    }
  }

  /**
   The crawl.  It asks for no URL twice, saves only pages within the depth limit, keeps its counts in step
   with the visited set and the manifest, and unless the page limit stopped it has visited every link of
   every page saved above the depth limit.
   */
  method CrawlSite(site: Site, start: string, cfg: Config, store: SiteStore)
    returns (result: CrawlResult, ghost visited: set<string>, ghost asked: seq<string>, ghost depths: map<string, nat>)
    requires store.index.None?
    modifies store
    ensures result.crawled + result.skipped == |visited| && result.crawled <= cfg.maxPages
    ensures NoRepeats(asked) && Accounted(site, cfg, visited, asked, depths)
    ensures cfg.maxPages > 0 ==> start in visited
    ensures DepthsGood(site, cfg, start, depths)
    ensures store.Valid() && InStep(site, cfg, store.fileOf, store.Pages(), depths, result.crawled, result.totalWords)
    ensures result.crawled < cfg.maxPages ==> Pending(site, cfg, depths, visited, [])
    ensures var f := Crawled(site, cfg, Begin(start));
            visited == f.seen && asked == f.asked && depths == f.depths && result.crawled == f.crawled
  {
    ghost var end;
    result, end := CrawlLoop(site, start, cfg, store);
    BeginMakesProgress(site, cfg, start);
    CrawledKeepsProgress(site, cfg, start, Begin(start));
    visited, asked, depths := end.seen, end.asked, end.depths;
  }

  // --- Which pages are missed ---

  /** No saved page lies closer to the start than where the crawl found it. */
  ghost predicate FoundAtShortest(site: Site, cfg: Config, start: string, depths: map<string, nat>) {
    forall u, d: nat :: u in depths && Linked(site, cfg, start, u, d) ==> depths[u] <= d
  }

  /**
   A crawl that the page limit did not stop and that found every page at its shortest distance missed
   nothing within depth.
   */
  lemma {:induction false} CompleteIfShortest(site: Site, cfg: Config, start: string, visited: set<string>,
                                              asked: seq<string>, depths: map<string, nat>, url: string, depth: nat)
    requires Accounted(site, cfg, visited, asked, depths) && Pending(site, cfg, depths, visited, [])
    requires start in visited && FoundAtShortest(site, cfg, start, depths)
    requires depth <= cfg.maxDepth && Linked(site, cfg, start, url, depth)
    ensures url in visited
    decreases depth
  {
    if depth > 0 {
      var via :| Linked(site, cfg, start, via, depth - 1) && LinksTo(site, cfg, via, url);
      CompleteIfShortest(site, cfg, start, visited, asked, depths, via, depth - 1);
      assert via in depths && depths[via] <= depth - 1;
    }
  }

  /** So such a crawl visits every URL that is linked within depth. */
  lemma CrawlIsComplete(site: Site, cfg: Config, start: string, url: string, depth: nat)
    requires var f := Crawled(site, cfg, Begin(start));
             f.crawled < cfg.maxPages && FoundAtShortest(site, cfg, start, f.depths)
    requires depth <= cfg.maxDepth && Linked(site, cfg, start, url, depth)
    ensures url in Crawled(site, cfg, Begin(start)).seen
  {
    BeginMakesProgress(site, cfg, start);
    CrawledKeepsProgress(site, cfg, start, Begin(start));
    var f := Crawled(site, cfg, Begin(start));
    CompleteIfShortest(site, cfg, start, f.seen, f.asked, f.depths, url, depth);
  }

  /** Pages s, x, y and z: s links to x and y, y to x, x to z. */
  function Detour(u: string): Option<Fetched> {
    var page := Page(u, "", "", 0);
    if u == "s" then Some(Fetched(page, ["x", "y"]))
    else if u == "y" then Some(Fetched(page, ["x"]))
    else if u == "x" then Some(Fetched(page, ["z"]))
    else if u == "z" then Some(Fetched(page, []))
    else None
  }

  lemma VisitDetour(pages: nat, f: Frontier, url: string, depth: nat)
    requires Detour(url).Some?
    ensures var g := Visited(Detour, Config(2, pages, 0, []), f, url, depth);
            && g.seen == f.seen + {url} && g.crawled == f.crawled + 1
            && g.queue == f.queue + Unvisited(Detour(url).value.links, depth + 1, f.seen + {url})
  {
    assert !ShouldSkip(url, []);
  }

  /**
   Taking the last entry of the worklist first is not breadth-first: here z is two links from the start
   and within depth, but x is first reached through y, too deep for its link to be followed.
   */
  lemma PageIsMissed(pages: nat)
    requires pages >= 4
    ensures var cfg := Config(2, pages, 0, []);
            var f := Crawled(Detour, cfg, Begin("s"));
            Linked(Detour, cfg, "s", "z", 2) && "z" !in f.seen && f.queue == [] && f.crawled < pages
  {
    DetourIsLinked(pages);
    DetourLinks();
    var cfg, f0 := Config(2, pages, 0, []), Begin("s");
    CrawledTurn(Detour, cfg, f0, [], "s", 0);
    VisitDetour(pages, f0.(queue := []), "s", 0);
    assert {} + {"s"} == {"s"} && [] + [("x", 1), ("y", 1)] == [("x", 1), ("y", 1)];
    DetourEnds(pages, Visited(Detour, cfg, f0.(queue := []), "s", 0));
  }

  lemma DetourEnds(pages: nat, f1: Frontier)
    requires pages >= 4 && f1.seen == {"s"} && f1.queue == [("x", 1), ("y", 1)] && f1.crawled == 1
    ensures var f := Crawled(Detour, Config(2, pages, 0, []), f1);
            f.seen == {"s", "y", "x"} && f.queue == [] && f.crawled == 3
  {
    var x1, x2 := ("x", 1), ("x", 2);
    DetourLinks();
    assert f1.queue == [x1] + [("y", 1)];
    CrawledTurn(Detour, Config(2, pages, 0, []), f1, [x1], "y", 1);
    VisitDetour(pages, f1.(queue := [x1]), "y", 1);
    var f2 := Visited(Detour, Config(2, pages, 0, []), f1.(queue := [x1]), "y", 1);
    assert f2.seen == {"s", "y"} && f2.queue == [x1] + [x2];
    DetourTooDeep(pages, f2);
  }

  lemma DetourTooDeep(pages: nat, f2: Frontier)
    requires pages >= 4 && f2.seen == {"s", "y"} && f2.queue == [("x", 1)] + [("x", 2)] && f2.crawled == 2
    ensures var f := Crawled(Detour, Config(2, pages, 0, []), f2);
            f.seen == {"s", "y", "x"} && f.queue == [] && f.crawled == 3
  {
    var x1, z3 := ("x", 1), ("z", 3);
    DetourLinks();
    CrawledTurn(Detour, Config(2, pages, 0, []), f2, [x1], "x", 2);
    VisitDetour(pages, f2.(queue := [x1]), "x", 2);
    var f3 := Visited(Detour, Config(2, pages, 0, []), f2.(queue := [x1]), "x", 2);
    assert f3.seen == {"s", "y", "x"} && f3.queue == [x1] + [z3];
    CrawledTurn(Detour, Config(2, pages, 0, []), f3, [x1], "z", 3);
    assert [x1] == [] + [x1];
    CrawledTurn(Detour, Config(2, pages, 0, []), f3.(queue := [x1]), [], "x", 1);
  }

  lemma DetourIsLinked(pages: nat)
    ensures Linked(Detour, Config(2, pages, 0, []), "s", "z", 2)
  {
    var cfg := Config(2, pages, 0, []);
    assert !ShouldSkip("s", []) && !ShouldSkip("x", []);
    assert Linked(Detour, cfg, "s", "s", 0) && LinksTo(Detour, cfg, "s", "x");
    assert Linked(Detour, cfg, "s", "x", 1) && LinksTo(Detour, cfg, "x", "z");
  }

  lemma DetourLinks()
    ensures Unvisited(["x", "y"], 1, {"s"}) == [("x", 1), ("y", 1)]
    ensures Unvisited(["x"], 2, {"s", "y"}) == [("x", 2)]
    ensures Unvisited(["z"], 3, {"s", "y", "x"}) == [("z", 3)]
  {
    assert ["x", "y"][..1] == ["x"] && ["x"][..0] == [] && ["z"][..0] == [];
    assert Unvisited(["x"], 1, {"s"}) == [("x", 1)];
  }
}
