/** Crawling linked history pages: discoverBatchHistory of
    tools/browser-userscripts/src/timeline-batch.js. What scanning a page yields is a
    function of its URL. */
module TimelineDiscover {
  import opened Outcomes
  import opened Sequences
  import opened TimelineUrl
  import opened StableSort

  const MAX_PAGES := 1000

  /** A conversation as a page reports it, not yet checked. */
  datatype Item = Item(id: string, link: Link, updated: Option<int>)

  /** `recognised` is false when the answer names another provider or has no conversation list. */
  datatype Page = Failed(error: string) | Page(recognised: bool, conversations: seq<Item>, collections: seq<Link>)

  type Site = Url -> Page

  datatype History = History(sources: seq<Url>, errors: seq<(Url, string)>, conversations: seq<Item>)

  // ---- what a page is worth ----

  predicate IdentityHolds(provider: Provider, item: Item)
  {
    var ref := BatchConversation(provider, item.link);
    ref.Some? && ref.value.id == item.id
  }

  /** The conversations before the first whose URL is not its own. */
  function ValidPrefix(provider: Provider, items: seq<Item>): seq<Item>
  {
    if items == [] || !IdentityHolds(provider, items[0]) then [] else [items[0]] + ValidPrefix(provider, items[1..])
  }

  predicate Source(page: Page)
  {
    page.Page? && page.recognised
  }

  predicate Sound(provider: Provider, page: Page)
  {
    Source(page) && ValidPrefix(provider, page.conversations) == page.conversations
  }

  function Contributed(provider: Provider, page: Page): seq<Item>
  {
    if Source(page) then ValidPrefix(provider, page.conversations) else []
  }

  /** The pages a page leads to; a page that errs leads nowhere. */
  function Links(provider: Provider, page: Page): set<Url>
  {
    if !Sound(provider, page) then {}
    else
      set link | link in page.collections && BatchCollection(provider, link).Some? ::
        BatchCollection(provider, link).value
  }

  // ---- the reference: reachability and the newest timestamps ----

  ghost predicate Path(provider: Provider, site: Site, path: seq<Url>)
  {
    path != [] && forall i :: 0 < i < |path| ==> path[i] in Links(provider, site(path[i - 1]))
  }

  ghost predicate Reachable(provider: Provider, site: Site, initial: Url, url: Url)
  {
    exists path :: Path(provider, site, path) && path[0] == initial && path[|path| - 1] == url
  }

  /** Everything that some pages report. */
  ghost function Reports(provider: Provider, site: Site, pages: set<Url>): set<Item>
  {
    set url, item | url in pages && item in Contributed(provider, site(url)) :: item
  }

  predicate NotLater(a: Option<int>, b: Option<int>)
  {
    a.None? || (b.Some? && a.value <= b.value)
  }

  /** Each reported id with the newest timestamp that was reported for it. */
  ghost predicate Newest(reports: set<Item>, updated: map<string, Option<int>>)
  {
    && (forall item :: item in reports ==> item.id in updated && NotLater(item.updated, updated[item.id]))
    && (forall id :: id in updated ==> exists item :: item in reports && item.id == id && item.updated == updated[id])
  }

  /** The timestamps of a list of conversations with distinct ids. */
  function Updated(rows: seq<Item>): map<string, Option<int>>
  {
    if rows == [] then map[] else Updated(rows[..|rows| - 1])[rows[|rows| - 1].id := rows[|rows| - 1].updated]
  }

  ghost predicate DistinctIds(rows: seq<Item>)
  {
    forall i, j :: 0 <= i < j < |rows| ==> rows[i].id != rows[j].id
  }

  lemma {:induction false} UpdatedAt(rows: seq<Item>)
    requires DistinctIds(rows)
    ensures forall i :: 0 <= i < |rows| ==> rows[i].id in Updated(rows) && Updated(rows)[rows[i].id] == rows[i].updated
    ensures forall id :: id in Updated(rows) ==> exists i :: 0 <= i < |rows| && rows[i].id == id
  {
    if rows != [] {
      var init := rows[..|rows| - 1];
      UpdatedAt(init);
      forall id | id in Updated(rows)
        ensures exists i :: 0 <= i < |rows| && rows[i].id == id
      {
        if id in Updated(init) {
          var i :| 0 <= i < |init| && init[i].id == id;
          assert rows[i].id == id;
        } else {
          assert rows[|rows| - 1].id == id;
        }
      }
    }
  }

  lemma {:induction false} UpdatedCount(rows: seq<Item>)
    requires DistinctIds(rows)
    ensures |Updated(rows)| == |rows|
  {
    if rows != [] {
      var init := rows[..|rows| - 1];
      UpdatedCount(init);
      UpdatedAt(init);
      assert rows[|rows| - 1].id !in Updated(init);
    }
  }

  /** The valid prefix goes up to the first conversation whose URL does not give its own id. */
  lemma ValidPrefixExactly(provider: Provider, items: seq<Item>)
    ensures var n := |ValidPrefix(provider, items)|;
            && n <= |items| && ValidPrefix(provider, items) == items[..n]
            && (forall i :: 0 <= i < n ==>
                  var ref := BatchConversation(provider, items[i].link);
                  ref.Some? && ref.value.id == items[i].id)
            && (n < |items| ==>
                  var ref := BatchConversation(provider, items[n].link);
                  ref.None? || ref.value.id != items[n].id)
  {
    hide BatchConversation, ValidPrefix;
    ValidUpTo(provider, items);
  }

  lemma {:induction false} ValidUpTo(provider: Provider, items: seq<Item>)
    ensures var n := |ValidPrefix(provider, items)|;
            && n <= |items| && ValidPrefix(provider, items) == items[..n]
            && (forall i :: 0 <= i < n ==> IdentityHolds(provider, items[i]))
            && (n < |items| ==> !IdentityHolds(provider, items[n]))
  {
    hide IdentityHolds;
    if items != [] && IdentityHolds(provider, items[0]) {
      var rest := ValidPrefix(provider, items[1..]);
      ValidUpTo(provider, items[1..]);
      assert ValidPrefix(provider, items) == [items[0]] + rest == items[..|rest| + 1];
      forall i | 0 <= i < |rest| + 1
        ensures IdentityHolds(provider, items[i])
      {
        assert i > 0 ==> items[i] == items[1..][i - 1];
      }
    }
  }

  lemma {:induction false} ValidPrefixIdentities(provider: Provider, items: seq<Item>)
    ensures forall item :: item in ValidPrefix(provider, items) ==> item in items && IdentityHolds(provider, item)
  {
    if items != [] && IdentityHolds(provider, items[0]) {
      ValidPrefixIdentities(provider, items[1..]);
    }
  }

  // ---- the rows ----

  ghost predicate NewestAmong(pool: set<Item>, rows: seq<Item>)
  {
    && DistinctIds(rows)
    && (forall i :: 0 <= i < |rows| ==> rows[i] in pool)
    && (forall item :: item in pool ==> Covered(rows, item))
  }

  ghost predicate Covered(rows: seq<Item>, item: Item)
  {
    exists i :: 0 <= i < |rows| && rows[i].id == item.id && NotLater(item.updated, rows[i].updated)
  }

  function IdsOf(rows: seq<Item>): (ids: seq<string>)
    ensures |ids| == |rows|
  {
    seq(|rows|, i requires 0 <= i < |rows| => rows[i].id)
  }

  /** The ids in order of discovery: known ones keep their place, a new one goes behind. */
  function Discovered(ids: seq<string>, items: seq<Item>): seq<string>
    decreases items
  {
    if items == [] then ids
    else Discovered(if items[0].id in ids then ids else ids + [items[0].id], items[1..])
  }

  /** What the sources contribute, in the order in which they were visited. */
  function Found(provider: Provider, site: Site, sources: seq<Url>): seq<string>
  {
    if sources == [] then []
    else
      var last := sources[|sources| - 1];
      Discovered(Found(provider, site, sources[..|sources| - 1]), Contributed(provider, site(last)))
  }

  lemma FoundNone(provider: Provider, site: Site)
    ensures IdsOf([]) == [] == Found(provider, site, [])
  {
  }

  lemma FoundSnoc(provider: Provider, site: Site, sources: seq<Url>, url: Url)
    ensures Found(provider, site, sources + [url])
         == Discovered(Found(provider, site, sources), Contributed(provider, site(url)))
  {
    assert (sources + [url])[..|sources|] == sources;
  }

  lemma DiscoverStep(provider: Provider, ids: seq<string>, items: seq<Item>, i: nat)
    requires i <= |items|
    ensures Discovered(ids, ValidPrefix(provider, items[i..]))
         == if i == |items| || !IdentityHolds(provider, items[i]) then ids
            else Discovered(if items[i].id in ids then ids else ids + [items[i].id],
                            ValidPrefix(provider, items[i + 1..]))
  {
    hide IdentityHolds;
    if i < |items| && IdentityHolds(provider, items[i]) {
      var rest := ValidPrefix(provider, items[i + 1..]);
      assert items[i..][1..] == items[i + 1..];
      assert ([items[i]] + rest)[1..] == rest;
    }
  }

  /** What putting an item behind the rows, or in place of row k, does to the ids. */
  lemma PlaceOf(known: seq<Item>, item: Item, k: nat)
    requires DistinctIds(known) && k <= |known| && forall i :: 0 <= i < k ==> known[i].id != item.id
    requires k < |known| ==> known[k].id == item.id
    ensures item.id in IdsOf(known) <==> k < |known|
    ensures IdsOf(known + [item]) == IdsOf(known) + [item.id]
    ensures k < |known| ==> IdsOf(known[k := item]) == IdsOf(known)
    ensures forall i :: 0 <= i < |known| && known[i].id == item.id ==> i == k
  {
    assert k < |known| ==> IdsOf(known)[k] == item.id;
  }

  /** Only a strictly later report takes the place of the one that is there. */
  method AddItem(ghost pool: set<Item>, known: seq<Item>, item: Item) returns (rows: seq<Item>)
    requires NewestAmong(pool, known)
    ensures NewestAmong(pool + {item}, rows)
    ensures item.id !in IdsOf(known) ==> rows == known + [item]
    ensures forall k :: 0 <= k < |known| && known[k].id == item.id ==>
              rows == if item.updated.Some? && (known[k].updated.None? || known[k].updated.value < item.updated.value)
                      then known[k := item] else known
    ensures IdsOf(rows) == if item.id in IdsOf(known) then IdsOf(known) else IdsOf(known) + [item.id]
  {
    assert DistinctIds(known);
    hide NewestAmong, DistinctIds, IdsOf;
    var k := FindFirst(known, (row: Item) => row.id == item.id);
    PlaceOf(known, item, k);
    if k == |known| {
      rows := known + [item];
      Appended(pool, known, item);
    } else if item.updated.Some? && (known[k].updated.None? || item.updated.value > known[k].updated.value) {
      rows := known[k := item];
      Replaced(pool, known, item, k);
    } else {
      rows := known;
      Kept(pool, known, item, k);
    }
  }

  lemma Appended(pool: set<Item>, known: seq<Item>, item: Item)
    requires NewestAmong(pool, known) && forall i :: 0 <= i < |known| ==> known[i].id != item.id
    ensures NewestAmong(pool + {item}, known + [item])
  {
    hide Covered;
    Covers(pool, known, known + [item], item, |known|);
  }

  lemma Replaced(pool: set<Item>, known: seq<Item>, item: Item, k: nat)
    requires NewestAmong(pool, known) && k < |known| && known[k].id == item.id
        && NotLater(known[k].updated, item.updated)
    ensures NewestAmong(pool + {item}, known[k := item])
  {
    Covers(pool, known, known[k := item], item, k);
  }

  lemma Kept(pool: set<Item>, known: seq<Item>, item: Item, k: nat)
    requires NewestAmong(pool, known) && k < |known| && known[k].id == item.id
        && NotLater(item.updated, known[k].updated)
    ensures NewestAmong(pool + {item}, known)
  {
    Covers(pool, known, known, item, k);
  }

  /** Rows that move no id and lose no time still cover the pool. */
  lemma Covers(pool: set<Item>, known: seq<Item>, rows: seq<Item>, item: Item, k: nat)
    requires NewestAmong(pool, known)
    requires |known| <= |rows| && forall i :: 0 <= i < |known| ==>
        rows[i].id == known[i].id && NotLater(known[i].updated, rows[i].updated)
    requires k < |rows| && rows[k].id == item.id && NotLater(item.updated, rows[k].updated)
    ensures forall x :: x in pool + {item} ==> Covered(rows, x)
  {
    forall x | x in pool + {item}
      ensures Covered(rows, x)
    {
      if x != item {
        assert Covered(known, x);
        var i :| 0 <= i < |known| && known[i].id == x.id && NotLater(x.updated, known[i].updated);
        assert rows[i].id == x.id && NotLater(x.updated, rows[i].updated);
      }
    }
  }

  /** Where the loop stands at conversation i when all before it were valid. */
  lemma PrefixStep(provider: Provider, items: seq<Item>, i: nat)
    requires i <= |items|
    ensures i == 0 ==> ValidPrefix(provider, items) == items[..i] + ValidPrefix(provider, items[i..])
    ensures ValidPrefix(provider, items) == items[..i] + ValidPrefix(provider, items[i..]) ==>
              if i == |items| then items[..i] == items == ValidPrefix(provider, items)
              else if IdentityHolds(provider, items[i]) then
                ValidPrefix(provider, items) == items[..i + 1] + ValidPrefix(provider, items[i + 1..])
              else ValidPrefix(provider, items) == items[..i] != items
  {
    hide IdentityHolds;
    assert items[0..] == items && items[..|items|] == items;
    if i < |items| {
      assert items[i..][1..] == items[i + 1..];
      assert items[..i] + ([items[i]] + ValidPrefix(provider, items[i + 1..]))
          == items[..i + 1] + ValidPrefix(provider, items[i + 1..]);
    }
  }

  lemma PoolGrows(pool: set<Item>, items: seq<Item>, i: nat)
    requires i <= |items|
    ensures pool + Elements(items[..0]) == pool
    ensures i < |items| ==> pool + Elements(items[..i + 1]) == pool + Elements(items[..i]) + {items[i]}
  {
    if i < |items| {
      assert items[..i + 1] == items[..i] + [items[i]];
    }
  }

  /** The conversation loop of one page: stops at the first false identity, keeping what came before. */
  method AddItems(provider: Provider, ghost pool: set<Item>, known: seq<Item>, items: seq<Item>)
    returns (rows: seq<Item>, ok: bool)
    requires NewestAmong(pool, known)
    ensures ok <==> ValidPrefix(provider, items) == items
    ensures NewestAmong(pool + Elements(ValidPrefix(provider, items)), rows)
    ensures IdsOf(rows) == Discovered(IdsOf(known), ValidPrefix(provider, items))
  {
    hide NewestAmong, IdentityHolds, ValidPrefix, Elements, Discovered, IdsOf;
    assert items[0..] == items;
    rows := known;
    ghost var grown := pool;
    PoolGrows(pool, items, 0);
    PrefixStep(provider, items, 0);
    for i := 0 to |items|
      invariant NewestAmong(grown, rows)
      invariant ValidPrefix(provider, items) == items[..i] + ValidPrefix(provider, items[i..])
      invariant grown == pool + Elements(items[..i])
      invariant Discovered(IdsOf(known), ValidPrefix(provider, items))
             == Discovered(IdsOf(rows), ValidPrefix(provider, items[i..]))
    {
      DiscoverStep(provider, IdsOf(rows), items, i);
      PrefixStep(provider, items, i);
      PoolGrows(pool, items, i);
      if !IdentityHolds(provider, items[i]) {
        return rows, false;
      }
      rows := AddItem(grown, rows, items[i]);
      grown := grown + {items[i]};
    }
    PrefixStep(provider, items, |items|);
    DiscoverStep(provider, IdsOf(rows), items, |items|);
    return rows, true;
  }

  // ---- the worklist ----

  method AddLinks(provider: Provider, visited: set<Url>, known: seq<Url>, links: seq<Link>) returns (pending: seq<Url>)
    ensures known <= pending
    ensures forall url :: url in pending <==> url in known || (url !in visited && Leads(provider, links, url))
  {
    pending := known;
    for i := 0 to |links|
      invariant known <= pending
      invariant forall url :: url in pending <==> url in known || (url !in visited && Leads(provider, links[..i], url))
    {
      var collection := BatchCollection(provider, links[i]);
      assert links[..i + 1] == links[..i] + [links[i]];
      if collection.Some? && collection.value !in visited && collection.value !in pending {
        pending := pending + [collection.value];
      }
    }
    assert links[..|links|] == links;
  }

  predicate Leads(provider: Provider, links: seq<Link>, url: Url)
  {
    exists link :: link in links && BatchCollection(provider, link) == Some(url)
  }

  /** What went wrong with a page, if anything. */
  function ErrorOf(provider: Provider, page: Page): Option<string>
  {
    if page.Failed? then Some(page.error)
    else if !page.recognised then Some("timeline_invalid")
    else if !Sound(provider, page) then Some("timeline_identity_invalid")
    else None
  }

  datatype Ending = Finished | LimitReached | Aborted

  datatype Crawl = Crawl(visited: set<Url>, pending: seq<Url>, sources: seq<Url>, errors: seq<(Url, string)>,
                         rows: seq<Item>)

  /** What the loop keeps: everything visited or waiting is reachable, every link of a visited
      page was taken up, and the report is about the visited pages. */
  ghost predicate Crawled(provider: Provider, site: Site, initial: Url, c: Crawl)
  {
    && (initial in c.visited || initial in c.pending)
    && (forall url :: url in c.visited || url in c.pending ==> Reachable(provider, site, initial, url))
    && TakenUp(provider, site, c.visited, c.pending)
    && Reported(provider, site, c)
  }

  ghost predicate TakenUp(provider: Provider, site: Site, visited: set<Url>, pending: seq<Url>)
  {
    forall url, next :: url in visited && next in Links(provider, site(url)) ==> next in visited || next in pending
  }

  ghost predicate Reported(provider: Provider, site: Site, c: Crawl)
  {
    && SourcesOf(site, c.visited, c.sources)
    && ErrorsOf(provider, site, c.visited, c.errors)
    && NewestAmong(Reports(provider, site, c.visited), c.rows)
  }

  ghost predicate SourcesOf(site: Site, visited: set<Url>, sources: seq<Url>)
  {
    forall url :: url in sources <==> url in visited && Source(site(url))
  }

  ghost predicate ErrorsOf(provider: Provider, site: Site, visited: set<Url>, errors: seq<(Url, string)>)
  {
    && (forall e :: e in errors ==> e.0 in visited && ErrorOf(provider, site(e.0)) == Some(e.1))
    && (forall url :: url in visited && ErrorOf(provider, site(url)).Some? ==>
        (url, ErrorOf(provider, site(url)).value) in errors)
  }

  /** The try block of one page. */
  method VisitPage(provider: Provider, site: Site, ghost initial: Url, c: Crawl, url: Url) returns (next: Crawl)
    requires url !in c.visited
    requires Crawled(provider, site, initial, c.(pending := [url] + c.pending))
    ensures Crawled(provider, site, initial, next)
    ensures next.visited == c.visited + {url}
    ensures next.sources == if Source(site(url)) then c.sources + [url] else c.sources
    ensures IdsOf(c.rows) == Found(provider, site, c.sources) ==>
              IdsOf(next.rows) == Found(provider, site, next.sources)
    ensures next.errors == match ErrorOf(provider, site(url))
                           case None => c.errors
                           case Some(error) => c.errors + [(url, error)]
  {
    hide NewestAmong, Reachable, Reports, TakenUp, SourcesOf, ErrorsOf, Discovered, IdsOf, Found;
    FoundSnoc(provider, site, c.sources, url);
    var page := site(url);
    var visited := c.visited + {url};
    ReportsGrow(provider, site, c.visited, url);
    var rows, ok, pending := c.rows, false, c.pending;
    if Source(page) {
      rows, ok := AddItems(provider, Reports(provider, site, c.visited), c.rows, page.conversations);
      if ok {
        pending := AddLinks(provider, visited, c.pending, page.collections);
      }
    } else {
      assert Reports(provider, site, visited) == Reports(provider, site, c.visited);
    }
    next := Crawl(visited, pending,
                  if Source(page) then c.sources + [url] else c.sources,
                  if ok then c.errors else c.errors + [(url, ErrorOf(provider, page).value)],
                  rows);
    AllReachable(provider, site, initial, c, url, pending);
    LinksTakenUp(provider, site, c, url, pending);
    PageReported(provider, site, c, url, next.sources, next.errors);
  }

  lemma LinksTakenUp(provider: Provider, site: Site, c: Crawl, url: Url, pending: seq<Url>)
    requires TakenUp(provider, site, c.visited, [url] + c.pending)
    requires forall u :: u in c.pending ==> u in pending
    requires forall u :: u in Links(provider, site(url)) ==> u in c.visited + {url} || u in pending
    ensures TakenUp(provider, site, c.visited + {url}, pending)
  {
    forall u, next | u in c.visited + {url} && next in Links(provider, site(u))
      ensures next in c.visited + {url} || next in pending
    {
      assert u in c.visited ==> next in c.visited || next in [url] + c.pending;
    }
  }

  lemma PageReported(provider: Provider, site: Site, c: Crawl, url: Url, sources: seq<Url>, errors: seq<(Url, string)>)
    requires SourcesOf(site, c.visited, c.sources) && ErrorsOf(provider, site, c.visited, c.errors)
    requires sources == if Source(site(url)) then c.sources + [url] else c.sources
    requires errors == match ErrorOf(provider, site(url))
                       case None => c.errors
                       case Some(error) => c.errors + [(url, error)]
    ensures SourcesOf(site, c.visited + {url}, sources) && ErrorsOf(provider, site, c.visited + {url}, errors)
  {
  }

  lemma AllReachable(provider: Provider, site: Site, initial: Url, c: Crawl, url: Url, pending: seq<Url>)
    requires forall u :: u in c.visited || u == url || u in c.pending ==> Reachable(provider, site, initial, u)
    requires forall u :: u in pending ==> u in c.pending || u in Links(provider, site(url))
    ensures forall u :: u in c.visited + {url} || u in pending ==> Reachable(provider, site, initial, u)
  {
    forall u | u in Links(provider, site(url))
      ensures Reachable(provider, site, initial, u)
    {
      LinkReachable(provider, site, initial, url, u);
    }
  }

  lemma ReportsGrow(provider: Provider, site: Site, visited: set<Url>, url: Url)
    ensures Reports(provider, site, visited + {url})
         == Reports(provider, site, visited) + Elements(Contributed(provider, site(url)))
  {
  }

  lemma LinkReachable(provider: Provider, site: Site, initial: Url, url: Url, next: Url)
    requires Reachable(provider, site, initial, url) && next in Links(provider, site(url))
    ensures Reachable(provider, site, initial, next)
  {
    hide Links;
    var path :| Path(provider, site, path) && path[0] == initial && path[|path| - 1] == url;
    var longer := path + [next];
    forall i | 0 < i < |longer|
      ensures longer[i] in Links(provider, site(longer[i - 1]))
    {
      assert longer[i - 1] == path[i - 1] && (i < |path| ==> longer[i] == path[i]);
    }
    assert Path(provider, site, longer) && longer[0] == initial && longer[|longer| - 1] == next;
  }

  // ---- the crawl ----

  /** A sorted listing: dated conversations ascending, ties by id, then the undated. */
  function ByUpdated(collate: (string, string) -> int, a: Item, b: Item): int
  {
    if a.updated.Some? && b.updated.Some? then
      if a.updated.value != b.updated.value then (if a.updated.value < b.updated.value then -1 else 1)
      else collate(a.id, b.id)
    else if a.updated.Some? then -1 else if b.updated.Some? then 1 else 0
  }

  function Comparator(collate: (string, string) -> int): (Item, Item) -> int
  {
    (a, b) => ByUpdated(collate, a, b)
  }

  ghost predicate MoreReachable(provider: Provider, site: Site, initial: Url, limit: nat)
  {
    exists pages: set<Url> ::
      |pages| == limit + 1 && forall url :: url in pages ==> Reachable(provider, site, initial, url)
  }

  lemma CrawlStart(provider: Provider, site: Site, initial: Url)
    ensures Crawled(provider, site, initial, Crawl({}, [initial], [], [], []))
  {
    assert Path(provider, site, [initial]) && [initial][0] == initial && [initial][|[initial]| - 1] == initial;
    assert Reachable(provider, site, initial, initial);
  }

  /** The pending list never holds a visited page, but popping one would be harmless. */
  lemma DropVisited(provider: Provider, site: Site, initial: Url, c: Crawl, url: Url)
    requires url in c.visited && Crawled(provider, site, initial, c.(pending := [url] + c.pending))
    ensures Crawled(provider, site, initial, c)
  {
    hide Links, Reachable;
    assert forall u :: u in [url] + c.pending <==> u == url || u in c.pending;
  }

  lemma TooMany(provider: Provider, site: Site, initial: Url, c: Crawl, url: Url, limit: nat)
    requires url !in c.visited && |c.visited| == limit
        && Crawled(provider, site, initial, c.(pending := [url] + c.pending))
    ensures MoreReachable(provider, site, initial, limit)
  {
    hide Links, Reachable;
    var pages := c.visited + {url};
    assert url in [url] + c.pending;
    assert |pages| == limit + 1 && forall u :: u in pages ==> Reachable(provider, site, initial, u);
  }

  /** With nothing pending, the visited pages are exactly the reachable ones. */
  lemma Closed(provider: Provider, site: Site, initial: Url, c: Crawl)
    requires c.pending == [] && Crawled(provider, site, initial, c)
    ensures forall url :: url in c.visited <==> Reachable(provider, site, initial, url)
    ensures Reported(provider, site, c)
  {
    forall url | Reachable(provider, site, initial, url)
      ensures url in c.visited
    {
      var path :| Path(provider, site, path) && path[0] == initial && path[|path| - 1] == url;
      PathVisited(provider, site, c, path, |path| - 1);
    }
  }

  lemma {:induction false} PathVisited(provider: Provider, site: Site, c: Crawl, path: seq<Url>, i: nat)
    requires Path(provider, site, path) && i < |path| && path[0] in c.visited
    requires TakenUp(provider, site, c.visited, [])
    ensures path[i] in c.visited
  {
    if i > 0 {
      PathVisited(provider, site, c, path, i - 1);
      assert path[i] in Links(provider, site(path[i - 1]));
    }
  }

  lemma NoSources(provider: Provider, site: Site, initial: Url, c: Crawl)
    requires c.pending == [] && c.sources == [] && Crawled(provider, site, initial, c)
    ensures initial in c.visited && forall url :: url in c.visited ==> !Source(site(url))
  {
    hide Links, Reachable;
    assert SourcesOf(site, c.visited, c.sources);
    forall url | url in c.visited
      ensures !Source(site(url))
    {
      assert url !in c.sources;
    }
  }

  /** The crawl over collection links. `stop` says which of the calls to check raise. The
      limit is MAX_PAGES in the source. */
  method DiscoverBatchHistory(provider: Provider, initial: Url, site: Site, collate: (string, string) -> int,
                              stop: nat -> bool, limit: nat := MAX_PAGES)
    returns (r: Result<History>, ending: Ending, crawl: Crawl)
    ensures r.Ok? <==> ending == Finished && crawl.sources != []
    ensures ending == Finished ==>
      && |crawl.visited| <= limit
      && (forall url :: url in crawl.visited <==> Reachable(provider, site, initial, url))
      && Reported(provider, site, crawl)
    ensures ending == LimitReached ==>
      r == Err("history_collection_limit") && MoreReachable(provider, site, initial, limit)
    ensures ending == Aborted ==> exists k :: stop(k)
    ensures r.Ok? && Consistent(collate, set row | row in crawl.rows :: row.id) ==>
      && InHistoryOrder(collate, r.value.conversations)
      && Undated(r.value.conversations) == Undated(crawl.rows)
    ensures r.Ok? ==> IdsOf(crawl.rows) == Found(provider, site, crawl.sources)
    ensures r.Ok? ==>
      && r.value.sources == crawl.sources && r.value.errors == crawl.errors
      && multiset(r.value.conversations) == multiset(crawl.rows)
      && r.value.conversations == Sort(Comparator(collate), crawl.rows)
    ensures ending == Finished && crawl.sources == [] ==>
      && (forall url :: url in crawl.visited ==> !Source(site(url)))
      && (r.error == "timeline_not_found" || (initial, r.error) in crawl.errors)
  {
    hide Crawled, Reachable, Reported, NewestAmong, Reports, InHistoryOrder, Undated, Consistent;
    hide Discovered, Contributed, Found, IdsOf, Links, Sort, MoreReachable;
    crawl := Crawl({}, [initial], [], [], []);
    CrawlStart(provider, site, initial);
    assert IdsOf([]) == Found(provider, site, []) by { FoundNone(provider, site); }
    var checks := 0;
    while |crawl.pending| > 0
      invariant Crawled(provider, site, initial, crawl)
      invariant IdsOf(crawl.rows) == Found(provider, site, crawl.sources)
      invariant |crawl.visited| <= limit
      invariant crawl.visited == {} ==> crawl.pending == [initial] && crawl.errors == []
      invariant crawl.visited != {} && crawl.sources == [] ==> crawl.errors != [] && crawl.errors[0].0 == initial
      decreases limit - |crawl.visited|, |crawl.pending|
    {
      if stop(checks) {
        return Err("aborted"), Aborted, crawl;
      }
      checks := checks + 1;
      var url := crawl.pending[0];
      assert crawl.pending == [url] + crawl.pending[1..];
      crawl := crawl.(pending := crawl.pending[1..]);
      if url in crawl.visited {
        DropVisited(provider, site, initial, crawl, url);
      } else if |crawl.visited| >= limit {
        TooMany(provider, site, initial, crawl, url, limit);
        return Err("history_collection_limit"), LimitReached, crawl;
      } else {
        crawl := VisitPage(provider, site, initial, crawl, url);
        if ErrorOf(provider, site(url)).Some? {
          if stop(checks) {
            return Err("aborted"), Aborted, crawl;
          }
          checks := checks + 1;
        }
      }
    }
    Closed(provider, site, initial, crawl);
    ending := Finished;
    if |crawl.sources| == 0 {
      NoSources(provider, site, initial, crawl);
    }
    r := Summarise(collate, crawl);
  }

  /** What comes after the loop. */
  method Summarise(collate: (string, string) -> int, crawl: Crawl) returns (r: Result<History>)
    requires crawl.sources == [] ==> crawl.errors != []
    ensures crawl.sources == [] ==>
      r == Err(if crawl.errors[0].1 == "" then "timeline_not_found" else crawl.errors[0].1)
    ensures crawl.sources != [] ==>
      && r.Ok? && r.value.sources == crawl.sources && r.value.errors == crawl.errors
      && multiset(r.value.conversations) == multiset(crawl.rows)
      && r.value.conversations == Sort(Comparator(collate), crawl.rows)
    ensures r.Ok? && Consistent(collate, set row | row in crawl.rows :: row.id) ==>
      && InHistoryOrder(collate, r.value.conversations)
      && Undated(r.value.conversations) == Undated(crawl.rows)
  {
    hide InHistoryOrder, Undated, Consistent;
    if |crawl.sources| == 0 {
      var error := crawl.errors[0].1;
      return Err(if error == "" then "timeline_not_found" else error);
    }
    SortPermutes(Comparator(collate), crawl.rows);
    if Consistent(collate, set row | row in crawl.rows :: row.id) {
      HistoryOrdered(collate, crawl.rows);
    }
    return Ok(History(crawl.sources, crawl.errors, Sort(Comparator(collate), crawl.rows)));
  }

  // ---- what a history is ----

  /** The listed conversations are the reported ids, each once, with its newest timestamp. */
  lemma HistoryIsNewest(pool: set<Item>, rows: seq<Item>, conversations: seq<Item>)
    requires NewestAmong(pool, rows) && multiset(conversations) == multiset(rows)
    ensures NewestAmong(pool, conversations) && Newest(pool, Updated(conversations))
    ensures var updated := Updated(conversations);
            && (forall item :: item in pool ==>
                  && item.id in updated
                  && (item.updated.Some? ==> updated[item.id].Some? && item.updated.value <= updated[item.id].value))
            && (forall id :: id in updated ==>
                  exists item :: item in pool && item.id == id && item.updated == updated[id])
            && |updated| == |conversations|
  {
    SameElements(rows, conversations);
    DistinctPermutes(rows, conversations);
    forall item | item in pool
      ensures Covered(conversations, item)
    {
      assert Covered(rows, item);
      var i :| 0 <= i < |rows| && rows[i].id == item.id && NotLater(item.updated, rows[i].updated);
      assert rows[i] in Elements(conversations);
    }
    forall i | 0 <= i < |conversations|
      ensures conversations[i] in pool
    {
      assert conversations[i] in Elements(rows);
    }
    NewestOfRows(pool, conversations);
    UpdatedCount(conversations);
  }

  lemma NewestOfRows(pool: set<Item>, rows: seq<Item>)
    requires NewestAmong(pool, rows)
    ensures Newest(pool, Updated(rows))
  {
    UpdatedAt(rows);
    forall item | item in pool
      ensures item.id in Updated(rows) && NotLater(item.updated, Updated(rows)[item.id])
    {
      assert Covered(rows, item);
    }
    forall id | id in Updated(rows)
      ensures exists item :: item in pool && item.id == id && item.updated == Updated(rows)[id]
    {
      var i :| 0 <= i < |rows| && rows[i].id == id;
      assert rows[i] in pool;
    }
  }

  lemma DistinctPermutes(rows: seq<Item>, other: seq<Item>)
    requires DistinctIds(rows) && multiset(other) == multiset(rows)
    ensures DistinctIds(other)
  {
    ApartPermutes((a: Item, b: Item) => a.id != b.id, rows, other);
  }

  lemma NewestUnique(reports: set<Item>, a: map<string, Option<int>>, b: map<string, Option<int>>)
    requires Newest(reports, a) && Newest(reports, b)
    ensures a == b
  {
    forall id | id in a || id in b
      ensures id in a && id in b && a[id] == b[id]
    {
      if id in a {
        var item :| item in reports && item.id == id && item.updated == a[id];
      }
      if id in b {
        var item :| item in reports && item.id == id && item.updated == b[id];
      }
    }
  }

  /** The same page, except that its links may be listed in another order. */
  predicate Relisting(p: Page, q: Page)
  {
    if p.Failed? then p == q
    else
      && q.Page? && p.recognised == q.recognised && p.conversations == q.conversations
      && multiset(p.collections) == multiset(q.collections)
  }

  lemma Relisted(provider: Provider, p: Page, q: Page)
    requires Relisting(p, q)
    ensures Links(provider, p) == Links(provider, q) && Contributed(provider, p) == Contributed(provider, q)
  {
    if p.Page? {
      SameElements(p.collections, q.collections);
      forall link
        ensures link in p.collections <==> link in q.collections
      {
        assert link in Elements(p.collections) <==> link in Elements(q.collections);
      }
    }
  }

  ghost predicate SameSites(provider: Provider, site: Site, other: Site)
  {
    && (forall url :: Links(provider, site(url)) == Links(provider, other(url)))
    && (forall url :: Contributed(provider, site(url)) == Contributed(provider, other(url)))
  }

  lemma SameReachable(provider: Provider, initial: Url, site: Site, other: Site, url: Url)
    requires SameSites(provider, site, other)
    ensures Reachable(provider, site, initial, url) <==> Reachable(provider, other, initial, url)
  {
    assert forall path :: Path(provider, site, path) <==> Path(provider, other, path);
  }

  lemma SameReports(provider: Provider, site: Site, other: Site, pages: set<Url>)
    requires SameSites(provider, site, other)
    ensures Reports(provider, site, pages) == Reports(provider, other, pages)
  {
    hide Contributed;
  }

  /** Two finished crawls of sites that differ only in how links are listed visit the same
      pages and list the same conversations with the same timestamps. */
  lemma OrderIndependent(provider: Provider, initial: Url, site: Site, other: Site, a: Crawl, b: Crawl,
                         listA: seq<Item>, listB: seq<Item>)
    requires SameSites(provider, site, other)
    requires forall url :: url in a.visited <==> Reachable(provider, site, initial, url)
    requires forall url :: url in b.visited <==> Reachable(provider, other, initial, url)
    requires Reported(provider, site, a) && multiset(listA) == multiset(a.rows)
    requires Reported(provider, other, b) && multiset(listB) == multiset(b.rows)
    ensures a.visited == b.visited
    ensures Updated(listA) == Updated(listB)
  {
    hide Reachable, Reports, NewestAmong, Newest, SourcesOf, ErrorsOf, Updated, SameSites;
    forall url
      ensures url in a.visited <==> url in b.visited
    {
      SameReachable(provider, initial, site, other, url);
    }
    assert a.visited == b.visited;
    SameReports(provider, site, other, a.visited);
    HistoryIsNewest(Reports(provider, site, a.visited), a.rows, listA);
    HistoryIsNewest(Reports(provider, other, b.visited), b.rows, listB);
    NewestUnique(Reports(provider, site, a.visited), Updated(listA), Updated(listB));
  }

  /** In particular, whatever order the pages list their links in. */
  lemma ListingOrderFree(provider: Provider, initial: Url, site: Site, other: Site, a: Crawl, b: Crawl,
                         listA: seq<Item>, listB: seq<Item>)
    requires forall url :: Relisting(site(url), other(url))
    requires forall url :: url in a.visited <==> Reachable(provider, site, initial, url)
    requires forall url :: url in b.visited <==> Reachable(provider, other, initial, url)
    requires Reported(provider, site, a) && multiset(listA) == multiset(a.rows)
    requires Reported(provider, other, b) && multiset(listB) == multiset(b.rows)
    ensures a.visited == b.visited
    ensures Updated(listA) == Updated(listB)
  {
    hide Relisting, Reachable, Reported, Updated, Links, Contributed;
    forall url
      ensures Links(provider, site(url)) == Links(provider, other(url))
      ensures Contributed(provider, site(url)) == Contributed(provider, other(url))
    {
      Relisted(provider, site(url), other(url));
    }
    OrderIndependent(provider, initial, site, other, a, b, listA, listB);
  }

  /** A page whose list turns false midway is listed both as a source and as an error, leads
      nowhere, and still contributes what came before. */
  lemma HalfSoundPage(provider: Provider, site: Site, c: Crawl, url: Url)
    requires Reported(provider, site, c) && url in c.visited
    requires Source(site(url)) && !Sound(provider, site(url))
    ensures url in c.sources && (url, "timeline_identity_invalid") in c.errors
    ensures Links(provider, site(url)) == {}
    ensures forall item :: item in ValidPrefix(provider, site(url).conversations) ==> Covered(c.rows, item)
  {
    forall item | item in ValidPrefix(provider, site(url).conversations)
      ensures Covered(c.rows, item)
    {
      assert item in Contributed(provider, site(url));
      assert item in Reports(provider, site, c.visited);
    }
  }

  /** Pages that fail, or answer for another provider or without a list, contribute nothing, lead
      nowhere and are listed as errors only; a page that holds throughout is a source only. */
  lemma WholePages(provider: Provider, site: Site, c: Crawl, url: Url)
    requires Reported(provider, site, c) && url in c.visited
    ensures match site(url)
            case Failed(error) => url !in c.sources && (url, error) in c.errors && Empty(provider, site(url))
            case Page(recognised, conversations, _) =>
              if !recognised then
                url !in c.sources && (url, "timeline_invalid") in c.errors && Empty(provider, site(url))
              else
                && url in c.sources
                && ((forall item :: item in conversations ==> IdentityHolds(provider, item)) ==>
                      && (forall e :: e in c.errors ==> e.0 != url)
                      && Contributed(provider, site(url)) == conversations)
  {
    var page := site(url);
    if page.Page? && page.recognised && forall item :: item in page.conversations ==> IdentityHolds(provider, item) {
      hide IdentityHolds;
      ValidUpTo(provider, page.conversations);
      var n := |ValidPrefix(provider, page.conversations)|;
      assert page.conversations[..n] == page.conversations;
      assert ErrorOf(provider, page) == None;
    }
  }

  ghost predicate Empty(provider: Provider, page: Page)
  {
    Contributed(provider, page) == [] && Links(provider, page) == {}
  }

  /** Every listed conversation passes the identity check of the batch run. */
  lemma HistoryIdentities(provider: Provider, site: Site, c: Crawl, conversations: seq<Item>, i: nat)
    requires Reported(provider, site, c) && multiset(conversations) == multiset(c.rows) && i < |conversations|
    ensures IdentityHolds(provider, conversations[i])
  {
    hide IdentityHolds, Contributed, SourcesOf, ErrorsOf, Reports, Newest, Updated;
    var reports := Reports(provider, site, c.visited);
    HistoryIsNewest(reports, c.rows, conversations);
    assert conversations[i] in reports;
    ReportedIdentity(provider, site, c.visited, conversations[i]);
  }

  lemma ReportedIdentity(provider: Provider, site: Site, pages: set<Url>, item: Item)
    requires item in Reports(provider, site, pages)
    ensures IdentityHolds(provider, item)
  {
    hide IdentityHolds;
    var url :| url in pages && item in Contributed(provider, site(url));
    if Source(site(url)) {
      ValidPrefixIdentities(provider, site(url).conversations);
    }
  }

  /** Position by position: a dated conversation has only dated ones before it, none of them
      later, and of two with the same date the smaller id comes first. */
  ghost predicate InHistoryOrder(collate: (string, string) -> int, list: seq<Item>)
  {
    forall i, j :: 0 <= i < j < |list| && list[j].updated.Some? ==>
      && list[i].updated.Some? && list[i].updated.value <= list[j].updated.value
      && (list[i].updated == list[j].updated ==> collate(list[i].id, list[j].id) <= 0)
  }

  function Undated(list: seq<Item>): seq<Item>
  {
    Filter((item: Item) => item.updated.None?, list)
  }

  /** How a history reads: in that order, with the undated conversations as they were found. */
  lemma HistoryOrdered(collate: (string, string) -> int, rows: seq<Item>)
    requires Consistent(collate, set row | row in rows :: row.id)
    ensures InHistoryOrder(collate, Sort(Comparator(collate), rows))
    ensures Undated(Sort(Comparator(collate), rows)) == Undated(rows)
  {
    var domain, sorted := Elements(rows), Sort(Comparator(collate), rows);
    var ids := set row | row in rows :: row.id;
    forall a | a in domain
      ensures a.id in ids
    {
    }
    assert Consistent(Comparator(collate), domain);
    SortOrdered(Comparator(collate), rows, domain);
    forall i, j | 0 <= i < j < |sorted| && sorted[j].updated.Some?
      ensures sorted[i].updated.Some? && sorted[i].updated.value <= sorted[j].updated.value
      ensures sorted[i].updated == sorted[j].updated ==> collate(sorted[i].id, sorted[j].id) <= 0
    {
      assert Comparator(collate)(sorted[i], sorted[j]) <= 0;
    }
    SortKeeps(Comparator(collate), rows, (item: Item) => item.updated.None?);
  }
}
