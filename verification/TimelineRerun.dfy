/** Running the batch again on the same timeline, in a calm world. */
module TimelineRerun {
  import opened Outcomes
  import opened TimelineUrl
  import opened TimelineDiscover
  import opened TimelineRun

  ghost predicate NoFailures(provider: Provider, world: World, ledger: Ledger, items: seq<Item>)
  {
    forall k :: 0 <= k < |items| ==> !TagAt(provider, world, ledger, items, k).Failed?
  }

  ghost predicate AllSkipped(provider: Provider, world: World, ledger: Ledger, items: seq<Item>)
  {
    forall k :: 0 <= k < |items| ==> TagAt(provider, world, ledger, items, k) == Skipped
  }

  // ---- which conversations a rerun captures again ----

  predicate Occurs(items: seq<Item>, k: nat, id: string)
    requires k <= |items|
  {
    k > 0 && (items[k - 1].id == id || Occurs(items, k - 1, id))
  }

  /** The last of the first k conversations with an id. */
  function LastBefore(items: seq<Item>, k: nat, id: string): (j: nat)
    requires k <= |items| && Occurs(items, k, id)
    ensures j < k && items[j].id == id
  {
    if items[k - 1].id == id then k - 1 else LastBefore(items, k - 1, id)
  }

  lemma {:induction false} OccursLater(items: seq<Item>, j: nat, k: nat)
    requires j < k <= |items|
    ensures Occurs(items, k, items[j].id)
  {
    if j < k - 1 {
      OccursLater(items, j, k - 1);
    }
  }

  /** The timestamp of the conversation with the same id that comes before position i when
      the timeline is run round and round. */
  function UpdatedBefore(items: seq<Item>, i: nat): Option<int>
    requires i < |items|
  {
    var id := items[i].id;
    OccursLater(items, i, |items|);
    if Occurs(items, i, id) then items[LastBefore(items, i, id)].updated
    else items[LastBefore(items, |items|, id)].updated
  }

  /** Undated, or dated differently from its predecessor with the same id: a rerun captures
      it again. */
  predicate Recaptured(items: seq<Item>, i: nat)
    requires i < |items|
  {
    items[i].updated.None? || items[i].updated != UpdatedBefore(items, i)
  }

  /** Conversations that are captured again under one id have the same content. */
  ghost predicate SameContent(provider: Provider, world: World, items: seq<Item>)
  {
    forall i, j ::
      0 <= i < |items| && 0 <= j < |items| && items[i].id == items[j].id
      && Recaptured(items, i) && Recaptured(items, j) ==>
      ContentHash(provider, world, items[i]) == ContentHash(provider, world, items[j])
  }

  // ---- the entry of one id during a run ----

  /** The entry of an id is as the last processed conversation left it. */
  ghost predicate Fresh(world: World, ledger: Ledger, id: string, updated: Option<int>)
  {
    id in ledger && world.verify(ledger[id].receipt) && ledger[id].updated == updated
  }

  lemma StepLeavesFresh(provider: Provider, world: World, ledger: Ledger, item: Item)
    requires !ItemStep(provider, world, ledger, item).1.Failed?
    ensures var after := ItemStep(provider, world, ledger, item).0;
            && Fresh(world, after, item.id, item.updated)
            && forall id :: id != item.id ==> SameAt(ledger, after, id)
  {
    hide ContentHash;
  }

  /** After an item that was not skipped by its timestamp, the entry carries its content hash. */
  lemma CapturedHash(provider: Provider, world: World, ledger: Ledger, item: Item)
    requires !ItemStep(provider, world, ledger, item).1.Failed?
    requires item.id in ledger && item.updated.Some? ==> ledger[item.id].updated != item.updated
    ensures var after := ItemStep(provider, world, ledger, item).0;
            && ContentHash(provider, world, item).Ok?
            && item.id in after && after[item.id].contentHash == Some(ContentHash(provider, world, item).value)
  {
    hide ContentHash;
  }

  lemma {:induction false} FreshAfter(provider: Provider, world: World, ledger: Ledger, items: seq<Item>, k: nat,
                                      id: string)
    requires k <= |items|
    requires forall j :: 0 <= j < k ==> !TagAt(provider, world, ledger, items, j).Failed?
    ensures var now := LedgerAfter(provider, world, ledger, items, k);
            if Occurs(items, k, id) then Fresh(world, now, id, items[LastBefore(items, k, id)].updated)
            else SameAt(ledger, now, id)
  {
    hide ItemStep;
    if k > 0 {
      FreshAfter(provider, world, ledger, items, k - 1, id);
      assert !TagAt(provider, world, ledger, items, k - 1).Failed?;
      var before := LedgerAfter(provider, world, ledger, items, k - 1);
      StepLeavesFresh(provider, world, before, items[k - 1]);
      assert items[k - 1].id != id ==> SameAt(before, ItemStep(provider, world, before, items[k - 1]).0, id);
    }
  }

  // ---- the first run ----

  /** Once an item has set the content hash, later conversations under its id keep it, as
      long as those that are captured again have the same content. */
  lemma {:induction false} HashStays(provider: Provider, world: World, ledger: Ledger, items: seq<Item>, j: nat,
                                     k: nat, hash: string)
    requires j < k <= |items| && NoFailures(provider, world, ledger, items)
    requires var after := LedgerAfter(provider, world, ledger, items, j + 1);
             items[j].id in after && after[items[j].id].contentHash == Some(hash)
    requires forall i :: j < i < |items| && items[i].id == items[j].id && Recaptured(items, i) ==>
               ContentHash(provider, world, items[i]) == Ok(hash)
    ensures var now := LedgerAfter(provider, world, ledger, items, k);
            items[j].id in now && now[items[j].id].contentHash == Some(hash)
  {
    hide ContentHash, ItemStep, LedgerAfter, Recaptured, NoFailures;
    if j + 1 < k {
      HashStays(provider, world, ledger, items, j, k - 1, hash);
      assert items[k - 1].id == items[j].id && Recaptured(items, k - 1) ==>
               ContentHash(provider, world, items[k - 1]) == Ok(hash);
      HashStaysStep(provider, world, ledger, items, j, k - 1, hash);
    }
  }

  lemma HashStaysStep(provider: Provider, world: World, ledger: Ledger, items: seq<Item>, j: nat, k: nat, hash: string)
    requires j < k < |items| && NoFailures(provider, world, ledger, items)
    requires var before := LedgerAfter(provider, world, ledger, items, k);
             items[j].id in before && before[items[j].id].contentHash == Some(hash)
    requires items[k].id == items[j].id && Recaptured(items, k) ==> ContentHash(provider, world, items[k]) == Ok(hash)
    ensures var after := LedgerAfter(provider, world, ledger, items, k + 1);
            items[j].id in after && after[items[j].id].contentHash == Some(hash)
  {
    hide ContentHash, ExportStep;
    var before := LedgerAfter(provider, world, ledger, items, k);
    FreshAfter(provider, world, ledger, items, k, items[k].id);
    assert !TagAt(provider, world, ledger, items, k).Failed?;
    if items[k].id != items[j].id {
      StepLeavesFresh(provider, world, before, items[k]);
      assert SameAt(before, ItemStep(provider, world, before, items[k]).0, items[j].id);
    } else {
      OccursLater(items, j, k);
      if Recaptured(items, k) {
        CapturedHash(provider, world, before, items[k]);
      }
    }
  }

  /** When nothing under an id is captured again after its first conversation, all carry the
      first one's timestamp. */
  lemma {:induction false} SameUpdated(items: seq<Item>, i: nat, k: nat)
    requires i < k <= |items| && !Occurs(items, i, items[i].id)
    requires forall j :: i < j < k && items[j].id == items[i].id ==> !Recaptured(items, j)
    ensures Occurs(items, k, items[i].id) && items[LastBefore(items, k, items[i].id)].updated == items[i].updated
  {
    OccursLater(items, i, k);
    if i < k - 1 {
      SameUpdated(items, i, k - 1);
    }
  }

  /** An item that a rerun captures again finds its own content hash in the ledger. */
  lemma FirstRunHash(provider: Provider, world: World, ledger: Ledger, items: seq<Item>, i: nat)
    requires i < |items| && Recaptured(items, i)
    requires NoFailures(provider, world, ledger, items) && SameContent(provider, world, items)
    ensures var now := LedgerAfter(provider, world, ledger, items, |items|);
            && ContentHash(provider, world, items[i]).Ok?
            && items[i].id in now && now[items[i].id].contentHash == Some(ContentHash(provider, world, items[i]).value)
  {
    hide ContentHash, ItemStep, LedgerAfter;
    if j :| 0 <= j < |items| && items[j].id == items[i].id && Occurs(items, j, items[j].id) && Recaptured(items, j) {
      FreshAfter(provider, world, ledger, items, j, items[j].id);
      CaptureSettles(provider, world, ledger, items, j);
      assert ContentHash(provider, world, items[i]) == ContentHash(provider, world, items[j]);
    } else {
      OnlyFirst(items, i);
      CaptureSettles(provider, world, ledger, items, i);
    }
  }

  lemma OnlyFirst(items: seq<Item>, i: nat)
    requires i < |items| && Recaptured(items, i)
    requires forall j :: 0 <= j < |items| && items[j].id == items[i].id && Recaptured(items, j) ==>
        !Occurs(items, j, items[j].id)
    ensures items[i].updated == None
  {
    forall j | i < j < |items| && items[j].id == items[i].id
      ensures !Recaptured(items, j)
    {
      OccursLater(items, i, j);
    }
    SameUpdated(items, i, |items|);
  }

  lemma CaptureSettles(provider: Provider, world: World, ledger: Ledger, items: seq<Item>, j: nat)
    requires j < |items| && Recaptured(items, j)
    requires NoFailures(provider, world, ledger, items) && SameContent(provider, world, items)
    requires var before := LedgerAfter(provider, world, ledger, items, j);
             items[j].id in before && items[j].updated.Some? ==> before[items[j].id].updated != items[j].updated
    ensures var now := LedgerAfter(provider, world, ledger, items, |items|);
            && ContentHash(provider, world, items[j]).Ok?
            && items[j].id in now && now[items[j].id].contentHash == Some(ContentHash(provider, world, items[j]).value)
  {
    hide ContentHash, ItemStep;
    assert !TagAt(provider, world, ledger, items, j).Failed?;
    CapturedHash(provider, world, LedgerAfter(provider, world, ledger, items, j), items[j]);
    HashStays(provider, world, ledger, items, j, |items|, ContentHash(provider, world, items[j]).value);
  }

  // ---- the second run ----

  /** The entry during a rerun that has skipped everything so far. */
  lemma {:induction false} RerunEntry(provider: Provider, world: World, ledger: Ledger, items: seq<Item>, k: nat,
                                      id: string)
    requires k <= |items|
    requires forall j :: 0 <= j < k ==> TagAt(provider, world, ledger, items, j) == Skipped
    ensures var now := LedgerAfter(provider, world, ledger, items, k);
            (id in now <==> id in ledger) && (id in now ==> now[id].contentHash == ledger[id].contentHash)
  {
    hide ContentHash, SaveStep;
    if k > 0 {
      RerunEntry(provider, world, ledger, items, k - 1, id);
      assert TagAt(provider, world, ledger, items, k - 1) == Skipped;
      SkipKeepsHash(provider, world, LedgerAfter(provider, world, ledger, items, k - 1), items[k - 1], id);
    }
  }

  lemma SkipKeepsHash(provider: Provider, world: World, ledger: Ledger, item: Item, id: string)
    requires ItemStep(provider, world, ledger, item).1 == Skipped
    ensures var after := ItemStep(provider, world, ledger, item).0;
            (id in after <==> id in ledger) && (id in after ==> after[id].contentHash == ledger[id].contentHash)
  {
    hide ContentHash;
  }

  lemma SkippedExactlyWhen(provider: Provider, world: World, ledger: Ledger, item: Item, updated: Option<int>)
    requires Fresh(world, ledger, item.id, updated)
    ensures ItemStep(provider, world, ledger, item).1 == Skipped
            <==> (item.updated.Some? && item.updated == updated)
                 || (ContentHash(provider, world, item).Ok?
                     && ledger[item.id].contentHash == Some(ContentHash(provider, world, item).value))
  {
    hide ContentHash;
  }

  /** Position k of a rerun, everything before having been skipped. */
  lemma RerunStep(provider: Provider, world: World, ledger: Ledger, items: seq<Item>, k: nat)
    requires k < |items| && NoFailures(provider, world, ledger, items)
    requires var first := LedgerAfter(provider, world, ledger, items, |items|);
             forall j :: 0 <= j < k ==> TagAt(provider, world, first, items, j) == Skipped
    ensures var first := LedgerAfter(provider, world, ledger, items, |items|);
            && items[k].id in first
            && (TagAt(provider, world, first, items, k) == Skipped
                <==> !Recaptured(items, k)
                     || (ContentHash(provider, world, items[k]).Ok?
                         && first[items[k].id].contentHash == Some(ContentHash(provider, world, items[k]).value)))
  {
    hide ContentHash, ItemStep, LedgerAfter;
    var first, id := LedgerAfter(provider, world, ledger, items, |items|), items[k].id;
    OccursLater(items, k, |items|);
    FreshAfter(provider, world, ledger, items, |items|, id);
    FreshAfter(provider, world, first, items, k, id);
    RerunEntry(provider, world, first, items, k, id);
    var now := LedgerAfter(provider, world, first, items, k);
    assert Fresh(world, now, id, UpdatedBefore(items, k)) by {
      assert !Occurs(items, k, id) ==> SameAt(first, now, id);
    }
    SkippedExactlyWhen(provider, world, now, items[k], UpdatedBefore(items, k));
  }

  lemma {:induction false} SkippedUpTo(provider: Provider, world: World, ledger: Ledger, items: seq<Item>, k: nat)
    requires k <= |items| && NoFailures(provider, world, ledger, items) && SameContent(provider, world, items)
    ensures var first := LedgerAfter(provider, world, ledger, items, |items|);
            forall j :: 0 <= j < k ==> TagAt(provider, world, first, items, j) == Skipped
  {
    hide ContentHash, ItemStep, LedgerAfter;
    if k > 0 {
      SkippedUpTo(provider, world, ledger, items, k - 1);
      RerunStep(provider, world, ledger, items, k - 1);
      if Recaptured(items, k - 1) {
        FirstRunHash(provider, world, ledger, items, k - 1);
      }
    }
  }

  /** After a run without failures, running again on the same timeline skips everything
      exactly when the conversations that are captured again under one id agree in content. */
  lemma RerunSkipsExactlyWhen(provider: Provider, world: World, ledger: Ledger, items: seq<Item>)
    requires NoFailures(provider, world, ledger, items)
    ensures AllSkipped(provider, world, LedgerAfter(provider, world, ledger, items, |items|), items)
            <==> SameContent(provider, world, items)
  {
    hide ContentHash, ItemStep, LedgerAfter;
    var first := LedgerAfter(provider, world, ledger, items, |items|);
    if SameContent(provider, world, items) {
      SkippedUpTo(provider, world, ledger, items, |items|);
    }
    if AllSkipped(provider, world, first, items) {
      forall i | 0 <= i < |items| && Recaptured(items, i)
        ensures items[i].id in first && ContentHash(provider, world, items[i]).Ok?
                && first[items[i].id].contentHash == Some(ContentHash(provider, world, items[i]).value)
      {
        RerunStep(provider, world, ledger, items, i);
      }
    }
  }

  /** A scan or a crawl lists no id twice, so there the rerun always skips everything, the
      undated conversations included, and leaves the ledger as it was. */
  lemma RerunSkipsAll(provider: Provider, world: World, ledger: Ledger, items: seq<Item>)
    requires NoFailures(provider, world, ledger, items) && DistinctIds(items)
    ensures var first := LedgerAfter(provider, world, ledger, items, |items|);
            && AllSkipped(provider, world, first, items)
            && LedgerAfter(provider, world, first, items, |items|) == first
  {
    hide ContentHash, ItemStep, LedgerAfter;
    RerunSkipsExactlyWhen(provider, world, ledger, items);
    RerunLedger(provider, world, ledger, items, |items|);
  }

  lemma {:induction false} RerunLedger(provider: Provider, world: World, ledger: Ledger, items: seq<Item>, k: nat)
    requires NoFailures(provider, world, ledger, items) && DistinctIds(items) && k <= |items|
    requires AllSkipped(provider, world, LedgerAfter(provider, world, ledger, items, |items|), items)
    ensures var first := LedgerAfter(provider, world, ledger, items, |items|);
            LedgerAfter(provider, world, first, items, k) == first
  {
    hide ContentHash, ExportStep;
    if k > 0 {
      var first, item := LedgerAfter(provider, world, ledger, items, |items|), items[k - 1];
      RerunLedger(provider, world, ledger, items, k - 1);
      OccursLater(items, k - 1, |items|);
      FreshAfter(provider, world, ledger, items, |items|, item.id);
      assert TagAt(provider, world, first, items, k - 1) == Skipped;
      SkipKeepsFresh(provider, world, first, item);
    }
  }

  lemma SkipKeepsFresh(provider: Provider, world: World, ledger: Ledger, item: Item)
    requires ItemStep(provider, world, ledger, item).1 == Skipped && Fresh(world, ledger, item.id, item.updated)
    ensures ItemStep(provider, world, ledger, item).0 == ledger
  {
    hide ContentHash;
  }

  // ---- both runs, as the caller sees them ----

  lemma {:induction false} NoneFailed(items: seq<Item>, tags: seq<Tag>)
    requires |tags| <= |items| && Failures(items, tags) == []
    ensures forall k :: 0 <= k < |tags| ==> !tags[k].Failed?
  {
    if tags != [] {
      NoneFailed(items, tags[..|tags| - 1]);
    }
  }

  /** The lists of a run say whether everything was skipped. */
  lemma {:induction false} SkippedAll(items: seq<Item>, tags: seq<Tag>)
    requires |tags| <= |items|
    ensures |Select(items, tags, IsSkipped)| <= |tags|
    ensures |Select(items, tags, IsSkipped)| == |tags| <==> forall k :: 0 <= k < |tags| ==> tags[k] == Skipped
    ensures (forall k :: 0 <= k < |tags| ==> tags[k] == Skipped) ==>
              && Select(items, tags, IsSkipped) == IdsOf(items[..|tags|])
              && Select(items, tags, IsExported) == [] && Failures(items, tags) == []
  {
    if tags != [] {
      var init := tags[..|tags| - 1];
      SkippedAll(items, init);
      assert tags == init + [tags[|tags| - 1]];
      assert IdsOf(items[..|tags|]) == IdsOf(items[..|init|]) + [items[|tags| - 1].id];
    }
  }

  /** The batch run twice on one timeline. After a clean first run the second puts every
      conversation in `skipped` exactly when recaptured conversations agree in content; with
      distinct ids it always does, and saves, fails and changes nothing. */
  method RunTwice(batch: TimelineBatch, items: seq<Item>, ghost world: World) returns (clean: bool, settled: Ledger)
    requires batch.Valid() && Calm(batch.io, world)
    requires forall k :: 0 <= k < |items| ==> IdentityHolds(batch.provider, items[k])
    modifies batch
    ensures batch.Valid()
    ensures clean ==> (batch.skipped == IdsOf(items) <==> SameContent(batch.provider, world, items))
    ensures clean && DistinctIds(items) ==>
      batch.skipped == IdsOf(items) && batch.exported == [] && batch.failed == [] && batch.ledger == settled
  {
    hide Replayed, Calm, ItemStep, LedgerAfter, Select, Failures, IdentityHolds, SameContent, Settled;
    ghost var before := batch.ledger;
    var error, tags := batch.Run(true, items, world);
    settled := batch.ledger;
    clean := |batch.failed| == 0;
    if clean {
      NoneFailed(items, tags);
      assert NoFailures(batch.provider, world, before, items);
      var again, tagged := batch.Run(true, items, world);
      SkippedAll(items, tagged);
      assert items[..|items|] == items;
      RerunSkipsExactlyWhen(batch.provider, world, before, items);
      if DistinctIds(items) {
        RerunSkipsAll(batch.provider, world, before, items);
      }
    }
  }

  // ---- why ids must not repeat ----

  /** One conversation under two addresses: on its own, and inside a project. */
  const PLAIN := Url("https:", "chatgpt.com", "", "", ["c", "one"], "", "")
  const IN_PROJECT := Url("https:", "chatgpt.com", "", "", ["g", "p", "c", "one"], "", "")

  function RepeatedItems(): seq<Item>
  {
    [Item("one", Some(PLAIN), Some(1)), Item("one", Some(IN_PROJECT), Some(2))]
  }

  /** What is captured depends on the address alone. */
  function TwoAddresses(): World
  {
    World(
      (item: Item) => Gave(if item.link == Some(PLAIN) then "a" else "b"),
      (text: string) => Gave(Doc("chatgpt", Some(PLAIN), true, text, Some([Message("ai", Some(text))]))),
      (doc: Doc) => doc.title,
      (item: Item, text: string) => Gave(Receipt(text, text)),
      (receipt: Receipt) => true)
  }

  /** The same id listed under two addresses that read differently: every conversation passes
      the identity check, the first run has no failure, and the second saves again. */
  lemma RepeatedIdSavesAgain()
    ensures forall item :: item in RepeatedItems() ==> IdentityHolds(ChatGPT, item)
    ensures forall a: Item, b: Item :: a.link == b.link ==> TwoAddresses().capture(a) == TwoAddresses().capture(b)
    ensures NoFailures(ChatGPT, TwoAddresses(), map[], RepeatedItems())
    ensures !AllSkipped(ChatGPT, TwoAddresses(),
                        LedgerAfter(ChatGPT, TwoAddresses(), map[], RepeatedItems(), 2), RepeatedItems())
  {
    var world, items := TwoAddresses(), RepeatedItems();
    TwoContents();
    assert IdentityHolds(ChatGPT, items[0]) && IdentityHolds(ChatGPT, items[1]);
    hide ContentHash, ItemStep, LedgerAfter, IdentityHolds, NoFailures;
    CleanRun();
    RerunSkipsExactlyWhen(ChatGPT, world, map[], items);
    assert Recaptured(items, 0) && Recaptured(items, 1) && items[0].id == items[1].id;
  }

  lemma TwoContents()
    ensures var items := RepeatedItems();
            && ContentHash(ChatGPT, TwoAddresses(), items[0]) == Ok("a")
            && ContentHash(ChatGPT, TwoAddresses(), items[1]) == Ok("b")
  {
  }

  lemma CleanRun()
    ensures NoFailures(ChatGPT, TwoAddresses(), map[], RepeatedItems())
  {
    hide ContentHash, ItemStep, LedgerAfter;
    var world, items := TwoAddresses(), RepeatedItems();
    TwoContents();
    forall k | 0 <= k < |items|
      ensures !TagAt(ChatGPT, world, map[], items, k).Failed?
    {
      CleanStep(LedgerAfter(ChatGPT, world, map[], items, k), items[k]);
    }
  }

  /** Saving and verifying always succeed there. */
  lemma CleanStep(ledger: Ledger, item: Item)
    requires ContentHash(ChatGPT, TwoAddresses(), item).Ok?
    ensures !ItemStep(ChatGPT, TwoAddresses(), ledger, item).1.Failed?
  {
    hide ContentHash;
  }
}
