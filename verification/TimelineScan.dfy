/** Scanning one rendered history page: scanBatchTimeline of
    tools/browser-userscripts/src/timeline-batch.js. A timestamp is an instant in
    milliseconds; the ISO text that the source compares orders the same way for the years
    0 to 9999. */
module TimelineScan {
  import opened Outcomes
  import opened Sequences
  import opened TimelineUrl
  import opened StableSort

  const MAX_STEPS := 2000

  datatype Item = Item(link: Link, title: string, updated: Option<int>)

  datatype Snapshot = Snapshot(items: seq<Item>, collections: seq<Link>, end: bool, busy: bool, empty: bool,
                               blocked: bool)

  /** What step k of the scan meets: an error from checking or reading, or a snapshot; then
      `advance` is the error that scrolling on raises, if it does. */
  datatype Reply = Aborted(error: string) | Shown(snapshot: Snapshot, advance: Option<string>)

  datatype Row = Row(id: string, url: Url, title: string, updated: Option<int>, rank: nat)

  datatype Timeline = Timeline(provider: Provider, collections: seq<Url>, conversations: seq<Row>)

  // ---- what has been seen ----

  datatype Sighting = Sighting(ref: Ref, title: string, updated: Option<int>)

  function Sightings(provider: Provider, items: seq<Item>): seq<Sighting>
  {
    if items == [] then []
    else
      var item := items[|items| - 1];
      var ref := BatchConversation(provider, item.link);
      Sightings(provider, items[..|items| - 1])
      + if ref.None? then [] else [Sighting(ref.value, item.title, item.updated)]
  }

  /** What the first `steps` replies showed; an error shows nothing. */
  function Seen(provider: Provider, replies: seq<Reply>, steps: nat): seq<Sighting>
    requires steps <= |replies|
  {
    if steps == 0 then []
    else
      Seen(provider, replies, steps - 1)
      + if replies[steps - 1].Shown? then Sightings(provider, replies[steps - 1].snapshot.items) else []
  }

  function Collect(provider: Provider, known: seq<Url>, links: seq<Link>): seq<Url>
    decreases links
  {
    if links == [] then known
    else
      var url := BatchCollection(provider, links[0]);
      Collect(provider, if url.Some? && url.value !in known then known + [url.value] else known, links[1..])
  }

  function Collected(provider: Provider, replies: seq<Reply>, steps: nat): seq<Url>
    requires steps <= |replies|
  {
    if steps == 0 then []
    else
      var known := Collected(provider, replies, steps - 1);
      if replies[steps - 1].Shown? then Collect(provider, known, replies[steps - 1].snapshot.collections) else known
  }

  lemma {:induction false} CollectStep(provider: Provider, known: seq<Url>, links: seq<Link>, link: Link)
    ensures var before, url := Collect(provider, known, links), BatchCollection(provider, link);
            Collect(provider, known, links + [link])
            == if url.Some? && url.value !in before then before + [url.value] else before
    decreases links
  {
    hide BatchCollection;
    if links == [] {
      assert links + [link] == [link] && [link][1..] == [];
    } else {
      var url := BatchCollection(provider, links[0]);
      CollectStep(provider, if url.Some? && url.value !in known then known + [url.value] else known, links[1..], link);
      assert (links + [link])[0] == links[0] && (links + [link])[1..] == links[1..] + [link];
    }
  }

  ghost predicate ShownLink(provider: Provider, replies: seq<Reply>, steps: nat, url: Url)
    requires steps <= |replies|
  {
    exists k, link :: 0 <= k < steps && replies[k].Shown? && link in replies[k].snapshot.collections
                      && BatchCollection(provider, link) == Some(url)
  }

  /** What has been collected is every recognised link that was shown, each once. CollectStep
      says in which order: a new one is put behind those already there. */
  lemma {:induction false} CollectedExactly(provider: Provider, replies: seq<Reply>, steps: nat)
    requires steps <= |replies|
    ensures NoDuplicates(Collected(provider, replies, steps))
    ensures forall url :: url in Collected(provider, replies, steps) <==> ShownLink(provider, replies, steps, url)
  {
    hide BatchCollection, ShownLink, Collect;
    forall url
      ensures ShownLink(provider, replies, steps, url) <==>
                steps > 0 && (ShownLink(provider, replies, steps - 1, url)
                              || ShownLast(provider, replies[steps - 1], url))
    {
      ShownStep(provider, replies, steps, url);
    }
    if steps > 0 {
      CollectedExactly(provider, replies, steps - 1);
      if replies[steps - 1].Shown? {
        CollectMeaning(provider, Collected(provider, replies, steps - 1), replies[steps - 1].snapshot.collections);
      }
    }
  }

  ghost predicate ShownLast(provider: Provider, reply: Reply, url: Url)
  {
    reply.Shown?
    && exists link :: link in reply.snapshot.collections && BatchCollection(provider, link) == Some(url)
  }

  lemma ShownStep(provider: Provider, replies: seq<Reply>, steps: nat, url: Url)
    requires steps <= |replies|
    ensures ShownLink(provider, replies, steps, url) <==>
              steps > 0 && (ShownLink(provider, replies, steps - 1, url)
                            || ShownLast(provider, replies[steps - 1], url))
  {
    hide BatchCollection;
  }

  lemma {:induction false} CollectMeaning(provider: Provider, known: seq<Url>, links: seq<Link>)
    requires NoDuplicates(known)
    ensures NoDuplicates(Collect(provider, known, links))
    ensures forall url :: url in Collect(provider, known, links) <==>
              url in known || exists link :: link in links && BatchCollection(provider, link) == Some(url)
    decreases links
  {
    hide BatchCollection;
    if links != [] {
      var url := BatchCollection(provider, links[0]);
      CollectMeaning(provider, if url.Some? && url.value !in known then known + [url.value] else known, links[1..]);
    }
  }

  // ---- the reference for the rows: first sighting, newest timestamp ----

  predicate Later(a: Option<int>, b: Option<int>)
  {
    a.Some? && (b.None? || a.value > b.value)
  }

  /** The newest timestamp among the sightings of an id. */
  function Newest(seen: seq<Sighting>, id: string): Option<int>
  {
    if seen == [] then None
    else
      var before, last := Newest(seen[..|seen| - 1], id), seen[|seen| - 1];
      if last.ref.id == id && Later(last.updated, before) then last.updated else before
  }

  /** The ids in order of discovery. */
  function Ids(seen: seq<Sighting>): seq<string>
  {
    if seen == [] then []
    else
      var before, id := Ids(seen[..|seen| - 1]), seen[|seen| - 1].ref.id;
      if id in before then before else before + [id]
  }

  function First(seen: seq<Sighting>, id: string): Sighting
    requires id in Ids(seen)
  {
    var before := seen[..|seen| - 1];
    if id in Ids(before) then First(before, id) else seen[|seen| - 1]
  }

  function RowFor(seen: seq<Sighting>, rank: nat): Row
    requires rank < |Ids(seen)|
  {
    var id := Ids(seen)[rank];
    Row(id, First(seen, id).ref.url, First(seen, id).title, Newest(seen, id), rank)
  }

  function Rows(seen: seq<Sighting>): (r: seq<Row>)
    ensures |r| == |Ids(seen)|
  {
    seq(|Ids(seen)|, i requires 0 <= i < |Ids(seen)| => RowFor(seen, i))
  }

  lemma {:induction false} IdsDistinct(seen: seq<Sighting>)
    ensures forall i, j :: 0 <= i < j < |Ids(seen)| ==> Ids(seen)[i] != Ids(seen)[j]
  {
    if seen != [] {
      IdsDistinct(seen[..|seen| - 1]);
    }
  }

  lemma {:induction false} NewestOfUnseen(seen: seq<Sighting>, id: string)
    requires id !in Ids(seen)
    ensures Newest(seen, id) == None
  {
    if seen != [] {
      NewestOfUnseen(seen[..|seen| - 1], id);
    }
  }

  /** Newest is the greatest timestamp seen for the id, None only if none was dated. */
  lemma {:induction false} NewestIsMaximum(seen: seq<Sighting>, id: string)
    ensures forall i :: 0 <= i < |seen| && seen[i].ref.id == id && seen[i].updated.Some? ==>
              Newest(seen, id).Some? && seen[i].updated.value <= Newest(seen, id).value
    ensures Newest(seen, id).Some? ==>
              exists i :: 0 <= i < |seen| && seen[i].ref.id == id && seen[i].updated == Newest(seen, id)
  {
    if seen != [] {
      var before := seen[..|seen| - 1];
      NewestIsMaximum(before, id);
      if Newest(seen, id) == Newest(before, id) && Newest(seen, id).Some? {
        var i :| 0 <= i < |before| && before[i].ref.id == id && before[i].updated == Newest(before, id);
        assert seen[i] == before[i];
      }
    }
  }

  /** What one more sighting does to the rows. */
  lemma RowsStep(seen: seq<Sighting>, s: Sighting)
    ensures var rows, more := Rows(seen), Rows(seen + [s]);
            if s.ref.id !in Ids(seen) then
              more == rows + [Row(s.ref.id, s.ref.url, s.title, s.updated, |rows|)]
            else
              |more| == |rows| && forall i :: 0 <= i < |rows| ==>
                more[i] == if rows[i].id == s.ref.id && Later(s.updated, rows[i].updated)
                           then rows[i].(updated := s.updated) else rows[i]
  {
    assert (seen + [s])[..|seen|] == seen;
    if s.ref.id !in Ids(seen) {
      NewestOfUnseen(seen, s.ref.id);
    }
  }

  // ---- the order of the result ----

  function ByTimeline(collate: (string, string) -> int, a: Row, b: Row): int
  {
    if a.updated.Some? && b.updated.Some? then
      if a.updated.value != b.updated.value then (if a.updated.value < b.updated.value then -1 else 1)
      else collate(a.id, b.id)
    else if a.updated.Some? then -1
    else if b.updated.Some? then 1
    else b.rank - a.rank
  }

  function Comparator(collate: (string, string) -> int): (Row, Row) -> int
  {
    (a, b) => ByTimeline(collate, a, b)
  }

  /** On the rows of a scan the comparator is consistent and tells every two rows apart. */
  lemma ComparatorTotal(collate: (string, string) -> int, seen: seq<Sighting>)
    requires Total(collate, Elements(Ids(seen)))
    ensures Total(Comparator(collate), Elements(Rows(seen)))
  {
    hide Rows, Ids, ByTimeline;
    var rows := Elements(Rows(seen));
    RowsKeyed(seen);
    ComparatorAntisymmetric(collate, Elements(Ids(seen)), rows);
    ComparatorTransitive(collate, Elements(Ids(seen)), rows);
  }

  ghost predicate Keyed(ids: set<string>, rows: set<Row>)
  {
    && (forall a :: a in rows ==> a.id in ids)
    && (forall a, b :: a in rows && b in rows && (a.id == b.id || a.rank == b.rank) ==> a == b)
  }

  lemma RowsKeyed(seen: seq<Sighting>)
    ensures Keyed(Elements(Ids(seen)), Elements(Rows(seen)))
  {
    IdsDistinct(seen);
    forall a | a in Elements(Rows(seen))
      ensures a.rank < |Ids(seen)| && a == Rows(seen)[a.rank] && a.id == Ids(seen)[a.rank]
          && a.id in Elements(Ids(seen))
    {
    }
  }

  lemma ComparatorAntisymmetric(collate: (string, string) -> int, ids: set<string>, rows: set<Row>)
    requires Total(collate, ids) && Keyed(ids, rows)
    ensures forall a, b :: a in rows && b in rows ==> ByTimeline(collate, a, b) <= 0 || ByTimeline(collate, b, a) <= 0
    ensures forall a, b ::
        a in rows && b in rows && ByTimeline(collate, a, b) <= 0 && ByTimeline(collate, b, a) <= 0 ==> a == b
  {
  }

  lemma ComparatorTransitive(collate: (string, string) -> int, ids: set<string>, rows: set<Row>)
    requires Total(collate, ids) && Keyed(ids, rows)
    ensures forall a, b, c | a in rows && b in rows && c in rows ::
              ByTimeline(collate, a, b) <= 0 && ByTimeline(collate, b, c) <= 0 ==> ByTimeline(collate, a, c) <= 0
  {
  }

  // ---- the loop ----

  predicate IsReadable(reply: Reply)
  {
    reply.Shown? && !reply.snapshot.blocked
  }

  predicate Readable(replies: seq<Reply>, steps: nat)
    requires steps <= |replies|
  {
    steps == 0 || (Readable(replies, steps - 1) && IsReadable(replies[steps - 1]))
  }

  /** Scrolling on raised no error after any of the first `steps` snapshots. */
  predicate ScrolledOn(replies: seq<Reply>, steps: nat)
    requires steps <= |replies|
  {
    steps == 0 || (ScrolledOn(replies, steps - 1) && (replies[steps - 1].Shown? ==> replies[steps - 1].advance.None?))
  }

  /** Step k was at the end, not busy, and showed nothing new. */
  predicate Quiet(provider: Provider, replies: seq<Reply>, k: nat)
    requires k < |replies|
  {
    && replies[k].Shown? && replies[k].snapshot.end && !replies[k].snapshot.busy
    && |Ids(Seen(provider, replies, k + 1))| == |Ids(Seen(provider, replies, k))|
    && |Collected(provider, replies, k + 1)| == |Collected(provider, replies, k)|
  }

  /** How many steps up to now were quiet without a break. */
  function QuietRun(provider: Provider, replies: seq<Reply>, steps: nat): (run: nat)
    requires steps <= |replies|
    ensures run <= steps
  {
    if steps == 0 || !Quiet(provider, replies, steps - 1) then 0 else QuietRun(provider, replies, steps - 1) + 1
  }

  lemma {:induction false} QuietRunMeaning(provider: Provider, replies: seq<Reply>, steps: nat, k: nat)
    requires steps <= |replies| && steps - QuietRun(provider, replies, steps) <= k < steps
    ensures Quiet(provider, replies, k)
  {
    hide Quiet;
    if k < steps - 1 {
      QuietRunMeaning(provider, replies, steps - 1, k);
    }
  }

  /** The scan may stop: the last five steps were quiet, and either something was found, the
      page says it is empty, or thirty steps have passed. */
  predicate Settled(provider: Provider, replies: seq<Reply>, steps: nat)
    requires steps <= |replies|
  {
    && QuietRun(provider, replies, steps) >= 5
    && (Ids(Seen(provider, replies, steps)) != [] || SaysEmpty(replies[steps - 1]) || steps >= 30)
  }

  predicate SaysEmpty(reply: Reply)
  {
    reply.Shown? && reply.snapshot.empty
  }

  /** Step k was at the end, not busy, and showed no new conversation and no new collection. */
  ghost predicate NothingNew(provider: Provider, replies: seq<Reply>, k: nat)
    requires k < |replies|
  {
    && replies[k].Shown? && replies[k].snapshot.end && !replies[k].snapshot.busy
    && Ids(Seen(provider, replies, k + 1)) == Ids(Seen(provider, replies, k))
    && Collected(provider, replies, k + 1) == Collected(provider, replies, k)
  }

  /** A scan may stop exactly when its last five steps showed nothing new, and it has found a
      conversation, or the page says that it is empty, or thirty steps have passed. */
  lemma SettledExactlyWhen(provider: Provider, replies: seq<Reply>, steps: nat)
    requires steps <= |replies|
    ensures Settled(provider, replies, steps) <==>
              && steps >= 5 && (forall k :: steps - 5 <= k < steps ==> NothingNew(provider, replies, k))
              && (|| (exists s :: s in Seen(provider, replies, steps))
                  || (replies[steps - 1].Shown? && replies[steps - 1].snapshot.empty)
                  || steps >= 30)
  {
    hide Quiet, NothingNew, Seen, Ids, QuietRun;
    NoIdsNothingSeen(Seen(provider, replies, steps));
    assert QuietRun(provider, replies, steps) >= 5 <==>
             steps >= 5 && forall k :: steps - 5 <= k < steps ==> NothingNew(provider, replies, k) by {
      FiveQuietSteps(provider, replies, steps);
    }
    assert Ids(Seen(provider, replies, steps)) != [] <==> exists s :: s in Seen(provider, replies, steps);
  }

  lemma FiveQuietSteps(provider: Provider, replies: seq<Reply>, steps: nat)
    requires steps <= |replies|
    ensures QuietRun(provider, replies, steps) >= 5 <==>
              steps >= 5 && forall k :: steps - 5 <= k < steps ==> NothingNew(provider, replies, k)
  {
    hide Quiet, NothingNew;
    if QuietRun(provider, replies, steps) >= 5 {
      forall k | steps - 5 <= k < steps
        ensures NothingNew(provider, replies, k)
      {
        QuietRunMeaning(provider, replies, steps, k);
        QuietExactlyWhen(provider, replies, k);
      }
    } else if steps >= 5 && forall k :: steps - 5 <= k < steps ==> NothingNew(provider, replies, k) {
      FiveQuiet(provider, replies, steps);
    }
  }

  lemma FiveQuiet(provider: Provider, replies: seq<Reply>, steps: nat)
    requires 5 <= steps <= |replies| && forall k :: steps - 5 <= k < steps ==> NothingNew(provider, replies, k)
    ensures QuietRun(provider, replies, steps) >= 5
  {
    hide Quiet, NothingNew;
    QuietExactlyWhen(provider, replies, steps - 1);
    QuietExactlyWhen(provider, replies, steps - 2);
    QuietExactlyWhen(provider, replies, steps - 3);
    QuietExactlyWhen(provider, replies, steps - 4);
    QuietExactlyWhen(provider, replies, steps - 5);
    assert QuietRun(provider, replies, steps - 4) >= 1;
    assert QuietRun(provider, replies, steps - 3) >= 2;
    assert QuietRun(provider, replies, steps - 2) >= 3;
    assert QuietRun(provider, replies, steps - 1) >= 4;
  }

  lemma NoIdsNothingSeen(seen: seq<Sighting>)
    ensures Ids(seen) == [] <==> seen == []
    ensures seen == [] <==> !exists s :: s in seen
  {
    assert seen != [] ==> seen[0] in seen;
  }

  /** Both lists only grow, so their lengths tell whether anything is new. */
  lemma QuietExactlyWhen(provider: Provider, replies: seq<Reply>, k: nat)
    requires k < |replies|
    ensures Quiet(provider, replies, k) <==> NothingNew(provider, replies, k)
  {
    hide BatchCollection, BatchConversation;
    IdsGrow(Seen(provider, replies, k), Seen(provider, replies, k + 1));
    if replies[k].Shown? {
      CollectGrows(provider, Collected(provider, replies, k), replies[k].snapshot.collections);
    }
  }

  lemma {:induction false} IdsGrow(seen: seq<Sighting>, more: seq<Sighting>)
    requires seen <= more
    ensures Ids(seen) <= Ids(more)
  {
    if seen == more {
    } else {
      IdsGrow(seen, more[..|more| - 1]);
    }
  }

  lemma {:induction false} CollectGrows(provider: Provider, known: seq<Url>, links: seq<Link>)
    ensures known <= Collect(provider, known, links)
    decreases links
  {
    hide BatchCollection;
    if links != [] {
      var url := BatchCollection(provider, links[0]);
      CollectGrows(provider, if url.Some? && url.value !in known then known + [url.value] else known, links[1..]);
    }
  }

  /** The scan could not have stopped earlier. */
  predicate NeverSettled(provider: Provider, replies: seq<Reply>, steps: nat)
    requires steps <= |replies|
  {
    steps == 0 || (NeverSettled(provider, replies, steps - 1) && !Settled(provider, replies, steps - 1))
  }

  /** What a settled scan returns. Finding neither conversations nor collections is an error
      unless the page says that it is empty. */
  function Conclusion(provider: Provider, collate: (string, string) -> int, replies: seq<Reply>,
                      steps: nat): Result<Timeline>
    requires 0 < steps <= |replies|
  {
    var rows, collections := Rows(Seen(provider, replies, steps)), Collected(provider, replies, steps);
    if rows == [] && collections == [] && !SaysEmpty(replies[steps - 1]) then Err("timeline_not_found")
    else Ok(Timeline(provider, collections, Sort(Comparator(collate), rows)))
  }

  /** A settled scan fails exactly when it found neither conversations nor collections on a page
      that does not say that it is empty; otherwise it returns all that it found. */
  lemma ConclusionExactly(provider: Provider, collate: (string, string) -> int, replies: seq<Reply>, steps: nat)
    requires 0 < steps <= |replies|
    ensures var r := Conclusion(provider, collate, replies, steps);
            if Seen(provider, replies, steps) == [] && Collected(provider, replies, steps) == []
               && !(replies[steps - 1].Shown? && replies[steps - 1].snapshot.empty)
            then r == Err("timeline_not_found")
            else
              && r.Ok? && r.value.provider == provider
              && r.value.collections == Collected(provider, replies, steps)
              && multiset(r.value.conversations) == multiset(Rows(Seen(provider, replies, steps)))
  {
    NoIdsNothingSeen(Seen(provider, replies, steps));
    SortPermutes(Comparator(collate), Rows(Seen(provider, replies, steps)));
  }

  method Conclude(provider: Provider, collate: (string, string) -> int, ghost replies: seq<Reply>, ghost steps: nat,
                  rows: seq<Row>, collections: seq<Url>, snapshot: Snapshot)
    returns (r: Result<Timeline>)
    requires 0 < steps <= |replies| && replies[steps - 1].Shown? && replies[steps - 1].snapshot == snapshot
    requires rows == Rows(Seen(provider, replies, steps)) && collections == Collected(provider, replies, steps)
    ensures r == Conclusion(provider, collate, replies, steps)
  {
    if |rows| == 0 && !snapshot.empty && |collections| == 0 {
      return Err("timeline_not_found");
    }
    return Ok(Timeline(provider, collections, Sort(Comparator(collate), rows)));
  }

  /** The scan, given what each of its steps will meet. The limit is MAX_STEPS in the source. */
  method ScanBatchTimeline(provider: Provider, collate: (string, string) -> int, replies: seq<Reply>,
                           limit: nat := MAX_STEPS)
    returns (r: Result<Timeline>, steps: nat)
    requires |replies| >= limit
    ensures steps <= limit && Readable(replies, steps) && NeverSettled(provider, replies, steps)
    ensures Settled(provider, replies, steps) ==> r == Conclusion(provider, collate, replies, steps)
    ensures steps > 0 ==> ScrolledOn(replies, steps - 1)
    ensures !Settled(provider, replies, steps) && !ScrolledOn(replies, steps) ==>
              r == Err(replies[steps - 1].advance.value)
    ensures !Settled(provider, replies, steps) && ScrolledOn(replies, steps) && steps < limit ==>
              match replies[steps]
              case Aborted(error) => r == Err(error)
              case Shown(snapshot, _) => snapshot.blocked && r == Err("timeline_login_or_loading_blocked")
    ensures !Settled(provider, replies, steps) && ScrolledOn(replies, steps) && steps == limit ==>
              r == Err("timeline_scan_limit")
  {
    hide Rows, Ids, Seen, Collected, Quiet;
    var rows: seq<Row> := [];
    var collections: seq<Url> := [];
    var stable := 0;
    steps := 0;
    ScanStart(provider, replies);
    while steps < limit
      invariant steps <= limit && Readable(replies, steps) && ScrolledOn(replies, steps)
      invariant Scanned(provider, replies, steps, rows, collections, stable)
      invariant NeverSettled(provider, replies, steps) && !Settled(provider, replies, steps)
    {
      var reply := replies[steps];
      if reply.Aborted? {
        return Err(reply.error), steps;
      }
      var snapshot := reply.snapshot;
      if snapshot.blocked {
        return Err("timeline_login_or_loading_blocked"), steps;
      }
      rows, collections, stable := TakeSnapshot(provider, replies, steps, rows, collections, stable, snapshot);
      steps := steps + 1;
      assert replies[steps - 1] == reply;
      if stable >= 5 && (|rows| > 0 || snapshot.empty || steps - 1 >= 29) {
        r := Conclude(provider, collate, replies, steps, rows, collections, snapshot);
        return;
      }
      if reply.advance.Some? {
        return Err(reply.advance.value), steps;
      }
    }
    return Err("timeline_scan_limit"), steps;
  }

  /** The local variables of the loop after `steps` snapshots. */
  ghost predicate Scanned(provider: Provider, replies: seq<Reply>, steps: nat, rows: seq<Row>, collections: seq<Url>,
                          stable: nat)
    requires steps <= |replies|
  {
    && rows == Rows(Seen(provider, replies, steps))
    && collections == Collected(provider, replies, steps)
    && stable == QuietRun(provider, replies, steps)
  }

  lemma ScanStart(provider: Provider, replies: seq<Reply>)
    ensures Scanned(provider, replies, 0, [], [], 0)
  {
  }

  /** The body of the loop for one readable snapshot. */
  method TakeSnapshot(provider: Provider, ghost replies: seq<Reply>, ghost steps: nat,
                      rows: seq<Row>, collections: seq<Url>, stable: nat, snapshot: Snapshot)
    returns (rows': seq<Row>, collections': seq<Url>, stable': nat)
    requires steps < |replies| && replies[steps].Shown? && replies[steps].snapshot == snapshot
    requires Scanned(provider, replies, steps, rows, collections, stable)
    ensures Scanned(provider, replies, steps + 1, rows', collections', stable')
  {
    var addedCollections, addedRows;
    collections', addedCollections := AddCollections(provider, collections, snapshot.collections);
    rows', addedRows := AddItems(provider, Seen(provider, replies, steps), rows, snapshot.items);
    var added := addedCollections + addedRows;
    stable' := if snapshot.end && added == 0 && !snapshot.busy then stable + 1 else 0;
  }

  method AddCollections(provider: Provider, known: seq<Url>, links: seq<Link>)
    returns (collections: seq<Url>, added: nat)
    ensures collections == Collect(provider, known, links)
    ensures |collections| == |known| + added
  {
    collections, added := known, 0;
    for i := 0 to |links|
      invariant Collect(provider, known, links) == Collect(provider, collections, links[i..])
      invariant |collections| == |known| + added
    {
      var url := BatchCollection(provider, links[i]);
      if url.Some? && url.value !in collections {
        collections, added := collections + [url.value], added + 1;
      }
    }
  }

  lemma NoSightings(provider: Provider, seen: seq<Sighting>)
    ensures seen + Sightings(provider, []) == seen
  {
  }

  lemma SightingsStep(provider: Provider, seen: seq<Sighting>, items: seq<Item>, i: nat)
    requires i < |items|
    ensures var before, ref := seen + Sightings(provider, items[..i]), BatchConversation(provider, items[i].link);
            seen + Sightings(provider, items[..i + 1])
            == if ref.None? then before else before + [Sighting(ref.value, items[i].title, items[i].updated)]
  {
    hide BatchConversation;
    assert items[..i + 1][..i] == items[..i];
  }

  /** The item loop: new ids are appended, known ones keep their first title and URL and take
      a later timestamp. */
  method AddItems(provider: Provider, ghost seen: seq<Sighting>, known: seq<Row>, items: seq<Item>)
    returns (rows: seq<Row>, added: nat)
    requires known == Rows(seen)
    ensures rows == Rows(seen + Sightings(provider, items))
    ensures |rows| == |known| + added
  {
    hide Rows, Sightings, BatchConversation;
    rows, added := known, 0;
    NoSightings(provider, seen);
    assert items[..0] == [];
    for i := 0 to |items|
      invariant rows == Rows(seen + Sightings(provider, items[..i]))
      invariant |rows| == |known| + added
    {
      var item := items[i];
      var ref := BatchConversation(provider, item.link);
      SightingsStep(provider, seen, items, i);
      if ref.Some? {
        var one;
        rows, one := AddItem(seen + Sightings(provider, items[..i]), rows, ref.value, item);
        added := added + one;
      }
    }
    assert items[..|items|] == items;
  }

  method AddItem(ghost seen: seq<Sighting>, known: seq<Row>, ref: Ref, item: Item) returns (rows: seq<Row>, added: nat)
    requires known == Rows(seen)
    ensures rows == Rows(seen + [Sighting(ref, item.title, item.updated)])
    ensures |rows| == |known| + added
  {
    rows, added := known, 0;
    RowsStep(seen, Sighting(ref, item.title, item.updated));
    IdsDistinct(seen);
    var k := FindFirst(rows, (row: Row) => row.id == ref.id);
    if k == |rows| {
      assert forall i :: 0 <= i < |rows| ==> rows[i].id == Ids(seen)[i];
      rows, added := rows + [Row(ref.id, ref.url, item.title, item.updated, |rows|)], 1;
    } else {
      assert rows[k].id == Ids(seen)[k];
      if Later(item.updated, rows[k].updated) {
        rows := rows[k := rows[k].(updated := item.updated)];
      }
    }
  }

  // ---- what a scan result is ----

  /** The result of a scan is the one ordering of its rows by the timeline comparator, so
      neither the sorting algorithm nor the order of discovery of dated rows matters. */
  lemma ScanResultUnique(collate: (string, string) -> int, seen: seq<Sighting>, other: seq<Row>)
    requires Total(collate, Elements(Ids(seen)))
    requires multiset(other) == multiset(Rows(seen)) && Ordered(Comparator(collate), other)
    ensures other == Sort(Comparator(collate), Rows(seen))
  {
    var rows := Rows(seen);
    var cmp := Comparator(collate);
    ComparatorTotal(collate, seen);
    SortPermutes(cmp, rows);
    SortOrdered(cmp, rows, Elements(rows));
    SameElements(rows, other);
    OrderedUnique(cmp, other, Sort(cmp, rows), Elements(rows));
  }

  /** How a scan result reads: dated conversations ascending, ties by id, then the undated
      ones, latest discovered first; and no id twice. */
  lemma ScanResultOrder(collate: (string, string) -> int, seen: seq<Sighting>, i: nat, j: nat)
    requires Total(collate, Elements(Ids(seen)))
    requires i < j < |Sort(Comparator(collate), Rows(seen))|
    ensures var a, b := Sort(Comparator(collate), Rows(seen))[i], Sort(Comparator(collate), Rows(seen))[j];
            && a.id != b.id
            && (b.updated.Some? ==> a.updated.Some? && a.updated.value <= b.updated.value)
            && (b.updated.Some? && a.updated == b.updated ==> collate(a.id, b.id) <= 0)
            && (a.updated.None? ==> b.updated.None? && a.rank > b.rank)
  {
    var sorted := Sort(Comparator(collate), Rows(seen));
    SortedRows(collate, seen, i, j);
    PairOrder(collate, seen, sorted[i], sorted[j]);
  }

  lemma SortedRows(collate: (string, string) -> int, seen: seq<Sighting>, i: nat, j: nat)
    requires Total(collate, Elements(Ids(seen)))
    requires i < j < |Sort(Comparator(collate), Rows(seen))|
    ensures var a, b := Sort(Comparator(collate), Rows(seen))[i], Sort(Comparator(collate), Rows(seen))[j];
            && ByTimeline(collate, a, b) <= 0 && a.id != b.id
            && a in Elements(Rows(seen)) && b in Elements(Rows(seen))
  {
    hide Rows, Ids, Sort, ByTimeline, Total, Consistent;
    var rows := Rows(seen);
    var cmp := Comparator(collate);
    var sorted := Sort(cmp, rows);
    ComparatorTotal(collate, seen);
    TotalIsConsistent(cmp, Elements(rows));
    SortPermutes(cmp, rows);
    SortOrdered(cmp, rows, Elements(rows));
    RowIdsDistinct(seen);
    DistinctRows(rows, sorted);
    SameElements(rows, sorted);
    assert cmp(sorted[i], sorted[j]) <= 0;
    assert sorted[i] in Elements(sorted) && sorted[j] in Elements(sorted);
  }

  lemma RowIdsDistinct(seen: seq<Sighting>)
    ensures forall i, j :: 0 <= i < j < |Rows(seen)| ==> Rows(seen)[i].id != Rows(seen)[j].id
  {
    IdsDistinct(seen);
  }

  lemma PairOrder(collate: (string, string) -> int, seen: seq<Sighting>, a: Row, b: Row)
    requires a in Elements(Rows(seen)) && b in Elements(Rows(seen))
    requires ByTimeline(collate, a, b) <= 0 && a.id != b.id
    ensures b.updated.Some? ==> a.updated.Some? && a.updated.value <= b.updated.value
    ensures b.updated.Some? && a.updated == b.updated ==> collate(a.id, b.id) <= 0
    ensures a.updated.None? ==> b.updated.None? && a.rank > b.rank
  {
    RowsKeyed(seen);
  }

  lemma DistinctRows(rows: seq<Row>, other: seq<Row>)
    requires multiset(rows) == multiset(other)
    requires forall i, j :: 0 <= i < j < |rows| ==> rows[i].id != rows[j].id
    ensures forall i, j :: 0 <= i < j < |other| ==> other[i].id != other[j].id
  {
    ApartPermutes((a: Row, b: Row) => a.id != b.id, rows, other);
  }

  ghost predicate Recognised(provider: Provider, s: Sighting)
  {
    exists link :: BatchConversation(provider, link) == Some(s.ref)
  }

  lemma {:induction false} FirstIsSeen(seen: seq<Sighting>, id: string)
    requires id in Ids(seen)
    ensures First(seen, id) in seen && First(seen, id).ref.id == id
  {
    if id in Ids(seen[..|seen| - 1]) {
      FirstIsSeen(seen[..|seen| - 1], id);
    }
  }

  lemma {:induction false} SightingsRecognised(provider: Provider, items: seq<Item>)
    ensures forall s :: s in Sightings(provider, items) ==> Recognised(provider, s)
  {
    if items != [] {
      SightingsRecognised(provider, items[..|items| - 1]);
      var link := items[|items| - 1].link;
      assert BatchConversation(provider, link) == BatchConversation(provider, link);
    }
  }

  lemma {:induction false} SeenRecognised(provider: Provider, replies: seq<Reply>, steps: nat)
    requires steps <= |replies|
    ensures forall s :: s in Seen(provider, replies, steps) ==> Recognised(provider, s)
  {
    if steps > 0 {
      SeenRecognised(provider, replies, steps - 1);
      if replies[steps - 1].Shown? {
        SightingsRecognised(provider, replies[steps - 1].snapshot.items);
      }
    }
  }

  /** Every row of a scan passes the identity check of the later stages: its URL is read back
      as a conversation of the row's own id. */
  lemma ScanIdentities(provider: Provider, replies: seq<Reply>, steps: nat, row: Row)
    requires steps <= |replies| && row in Rows(Seen(provider, replies, steps))
    ensures BatchConversation(provider, Some(row.url)) == Some(Ref(row.id, row.url))
  {
    var seen := Seen(provider, replies, steps);
    SeenRecognised(provider, replies, steps);
    FirstIsSeen(seen, row.id);
    assert Recognised(provider, First(seen, row.id));
    var link :| BatchConversation(provider, link) == Some(First(seen, row.id).ref);
    ConversationIdempotent(provider, link);
  }
}
