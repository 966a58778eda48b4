/** Exporting a listed history: runTimelineBatch of
    tools/browser-userscripts/src/timeline-batch.js. The browser, the disk and the caller's
    abort check answer differently from call to call, so each answer may depend on how many
    calls were made before. Verification looks at a record's path and digest only, as in
    scripts/ai-chat/batch-export.mjs:58-64. */
module TimelineRun {
  import opened Outcomes
  import opened TimelineUrl
  import opened TimelineDiscover

  datatype Answer<+T> = Raised(error: string) | Gave(value: T)

  datatype Message = Message(author: string, content: Option<string>)

  /** A captured export; `messages` is None where the field is not a list. */
  datatype Doc = Doc(author: string, link: Link, exporter: bool, title: string, messages: Option<seq<Message>>)

  datatype Receipt = Receipt(path: string, sha256: string)

  datatype Record = Record(receipt: Receipt, contentHash: Option<string>, updated: Option<int>, link: Link)

  type Ledger = map<string, Record>

  datatype Io = Io(
    check: nat -> Option<string>,
    capture: (nat, Item) -> Answer<string>,
    parse: string -> Answer<Doc>,
    digest: Doc -> string,
    save: (nat, Item, string) -> Answer<Receipt>,
    verify: (nat, Receipt) -> Answer<bool>,
    commit: (nat, string, Record) -> Answer<()>)

  function Name(provider: Provider): string
  {
    match provider
    case ChatGPT => "chatgpt" case Claude => "claude" case Gemini => "gemini" case Grok => "grok" case Unsupported => ""
  }

  predicate ValidDoc(provider: Provider, id: string, doc: Doc)
  {
    && doc.author == Name(provider)
    && BatchConversation(provider, doc.link).Some? && BatchConversation(provider, doc.link).value.id == id
    && doc.exporter
    && doc.messages.Some? && doc.messages.value != []
    && forall m :: m in doc.messages.value ==> (m.author == "user" || m.author == "ai") && m.content.Some?
  }

  // ---- what a run leaves behind ----

  datatype Tag = Exported | Skipped | Failed(error: string)

  datatype Event =
    | Saved(id: string, text: string, receipt: Receipt)
    | Verified(receipt: Receipt)
    | Committed(id: string, record: Record)

  /** The durable ledger: the initial one with every successful commit applied. */
  function Replayed(initial: Ledger, trace: seq<Event>): Ledger
  {
    if trace == [] then initial
    else
      var before := Replayed(initial, trace[..|trace| - 1]);
      match trace[|trace| - 1]
      case Committed(id, record) => before[id := record]
      case _ => before
  }

  /** The record's file was verified, and later the record was committed. */
  ghost predicate Justified(trace: seq<Event>, id: string, record: Record)
  {
    exists i, j :: 0 <= i < j < |trace| && trace[i] == Verified(record.receipt) && trace[j] == Committed(id, record)
  }

  /** The text is a document of this very conversation, and complete. */
  ghost predicate IsDocumentOf(provider: Provider, io: Io, id: string, text: string)
  {
    && io.parse(text).Gave?
    && DocumentOf(provider, id, io.parse(text).value)
  }

  ghost predicate DocumentOf(provider: Provider, id: string, doc: Doc)
  {
    && (match provider
        case ChatGPT => doc.author == "chatgpt"
        case Claude => doc.author == "claude"
        case Gemini => doc.author == "gemini"
        case Grok => doc.author == "grok"
        case Unsupported => false)
    && (exists url :: BatchConversation(provider, doc.link) == Some(Ref(id, url)))
    && doc.exporter && doc.messages.Some? && |doc.messages.value| > 0
    && forall i :: 0 <= i < |doc.messages.value| ==>
         && doc.messages.value[i].author in {"user", "ai"}
         && doc.messages.value[i].content.Some?
  }

  lemma ValidDocExactly(provider: Provider, id: string, doc: Doc)
    ensures ValidDoc(provider, id, doc) <==> DocumentOf(provider, id, doc)
  {
    hide BatchConversation;
    if provider == Unsupported {
      NotSupported(doc.link);
    }
    if doc.messages.Some? {
      assert forall i :: 0 <= i < |doc.messages.value| ==> doc.messages.value[i] in doc.messages.value;
    }
    var ref := BatchConversation(provider, doc.link);
    assert ref.Some? ==> ref.value == Ref(ref.value.id, ref.value.url);
  }

  lemma NotSupported(link: Link)
    ensures BatchConversation(Unsupported, link) == None
  {
  }

  /** The file and hash of a record come from a save of a document for its id, or have been in
      the initial ledger under that id. */
  ghost predicate Sourced(io: Io, initial: Ledger, trace: seq<Event>, id: string, record: Record)
  {
    || (&& id in initial && record.receipt == initial[id].receipt && record.contentHash == initial[id].contentHash
        && record.link == initial[id].link)
    || SavedBefore(io, trace, id, record)
  }

  ghost predicate SavedBefore(io: Io, trace: seq<Event>, id: string, record: Record)
  {
    exists i, text :: 0 <= i < |trace| && trace[i] == Saved(id, text, record.receipt)
                      && io.parse(text).Gave? && record.contentHash == Some(io.digest(io.parse(text).value))
  }

  lemma SourcedGrows(io: Io, initial: Ledger, trace: seq<Event>, more: seq<Event>, id: string, record: Record)
    requires Sourced(io, initial, trace, id, record)
    ensures Sourced(io, initial, trace + more, id, record)
  {
    if SavedBefore(io, trace, id, record) {
      var i, text :| 0 <= i < |trace| && trace[i] == Saved(id, text, record.receipt)
                     && io.parse(text).Gave? && record.contentHash == Some(io.digest(io.parse(text).value));
      assert (trace + more)[i] == Saved(id, text, record.receipt);
    }
  }

  /** Only documents of the conversation itself are ever saved under its id. */
  ghost predicate SavesDocuments(provider: Provider, io: Io, trace: seq<Event>)
  {
    forall i :: 0 <= i < |trace| && trace[i].Saved? ==> IsDocumentOf(provider, io, trace[i].id, trace[i].text)
  }

  lemma SavesGrow(provider: Provider, io: Io, trace: seq<Event>, e: Event)
    requires SavesDocuments(provider, io, trace)
    requires e.Saved? ==> IsDocumentOf(provider, io, e.id, e.text)
    ensures SavesDocuments(provider, io, trace + [e])
  {
    hide IsDocumentOf;
    forall i | 0 <= i < |trace + [e]| && (trace + [e])[i].Saved?
      ensures IsDocumentOf(provider, io, (trace + [e])[i].id, (trace + [e])[i].text)
    {
      assert i < |trace| ==> (trace + [e])[i] == trace[i];
    }
  }

  /** What is known of every entry: it is initial, or was verified and then committed; and its
      file and hash are its own conversation's. */
  ghost predicate Accounted(io: Io, initial: Ledger, trace: seq<Event>, ledger: Ledger)
  {
    forall id :: id in ledger ==>
      && ((id in initial && ledger[id] == initial[id]) || Justified(trace, id, ledger[id]))
      && Sourced(io, initial, trace, id, ledger[id])
  }

  lemma AccountedGrows(io: Io, initial: Ledger, trace: seq<Event>, e: Event, ledger: Ledger)
    requires Accounted(io, initial, trace, ledger)
    ensures Accounted(io, initial, trace + [e], ledger)
  {
    hide Sourced, Justified;
    forall id | id in ledger
      ensures (id in initial && ledger[id] == initial[id]) || Justified(trace + [e], id, ledger[id])
      ensures Sourced(io, initial, trace + [e], id, ledger[id])
    {
      SourcedGrows(io, initial, trace, [e], id, ledger[id]);
      if Justified(trace, id, ledger[id]) {
        JustifiedGrows(trace, [e], id, ledger[id]);
      }
    }
  }

  lemma JustifiedNow(trace: seq<Event>, id: string, record: Record)
    requires Verified(record.receipt) in trace
    ensures Justified(trace + [Committed(id, record)], id, record)
  {
    var more := trace + [Committed(id, record)];
    var i :| 0 <= i < |trace| && trace[i] == Verified(record.receipt);
    assert more[i] == Verified(record.receipt) && more[|trace|] == Committed(id, record);
  }

  lemma RedatedSourced(io: Io, initial: Ledger, trace: seq<Event>, ledger: Ledger, id: string, updated: Option<int>)
    requires Accounted(io, initial, trace, ledger) && id in ledger
    ensures Sourced(io, initial, trace, id, ledger[id].(updated := updated))
  {
    hide Justified;
    assert Sourced(io, initial, trace, id, ledger[id]);
  }

  lemma AccountedCommit(io: Io, initial: Ledger, trace: seq<Event>, ledger: Ledger, id: string, record: Record)
    requires Accounted(io, initial, trace, ledger)
    requires Verified(record.receipt) in trace && Sourced(io, initial, trace, id, record)
    ensures Accounted(io, initial, trace + [Committed(id, record)], ledger[id := record])
  {
    hide Sourced, Justified;
    var e := Committed(id, record);
    AccountedGrows(io, initial, trace, e, ledger);
    SourcedGrows(io, initial, trace, [e], id, record);
    JustifiedNow(trace, id, record);
  }

  /** The ids of the processed conversations that got a kind of tag, in order. */
  function Select(items: seq<Item>, tags: seq<Tag>, kind: Tag -> bool): seq<string>
    requires |tags| <= |items|
  {
    if tags == [] then []
    else
      Select(items, tags[..|tags| - 1], kind) + if kind(tags[|tags| - 1]) then [items[|tags| - 1].id] else []
  }

  lemma ReplayedSnoc(initial: Ledger, trace: seq<Event>, e: Event)
    ensures Replayed(initial, trace + [e])
         == match e
            case Committed(id, record) => Replayed(initial, trace)[id := record]
            case _ => Replayed(initial, trace)
  {
    assert (trace + [e])[..|trace|] == trace;
  }

  lemma JustifiedGrows(trace: seq<Event>, more: seq<Event>, id: string, record: Record)
    requires Justified(trace, id, record)
    ensures Justified(trace + more, id, record)
  {
    var i, j :| 0 <= i < j < |trace| && trace[i] == Verified(record.receipt) && trace[j] == Committed(id, record);
    assert (trace + more)[i] == trace[i] && (trace + more)[j] == trace[j];
  }

  // ---- the batch ----

  class TimelineBatch {
    const provider: Provider
    const io: Io
    var ledger: Ledger
    var exported: seq<string>
    var skipped: seq<string>
    var failed: seq<(string, string)>
    var calls: nat  // calls made to the outside so far
    ghost var Initial: Ledger
    ghost var Trace: seq<Event>

    /** The ledger in memory is the durable one, nothing entered it unverified, uncommitted or
        from another conversation, and no other conversation's document was saved. */
    ghost predicate Valid()
      reads this
    {
      && ledger == Replayed(Initial, Trace)
      && Accounted(io, Initial, Trace, ledger)
      && SavesDocuments(provider, io, Trace)
    }

    constructor (provider: Provider, io: Io, ledger: Ledger)
      ensures Valid() && this.provider == provider && this.io == io
      ensures this.ledger == ledger == Initial && Trace == []
    {
      this.provider := provider;
      this.io := io;
      this.ledger := ledger;
      exported, skipped, failed := [], [], [];
      calls := 0;
      Initial, Trace := ledger, [];
    }

    method Verify(receipt: Receipt) returns (answer: Answer<bool>)
      requires Valid()
      modifies this`calls, this`Trace
      ensures Valid() && calls == old(calls) + 1
      ensures answer == io.verify(old(calls), receipt)
      ensures Trace == old(Trace) + if answer == Gave(true) then [Verified(receipt)] else []
    {
      answer := io.verify(calls, receipt);
      calls := calls + 1;
      if answer == Gave(true) {
        Note(Verified(receipt));
      } else {
        assert Trace + [] == Trace;
      }
    }

    /** One more event that changes no entry. */
    ghost method Note(e: Event)
      requires Valid() && !e.Committed? && (e.Saved? ==> IsDocumentOf(provider, io, e.id, e.text))
      modifies this`Trace
      ensures Valid() && Trace == old(Trace) + [e]
    {
      hide Accounted, IsDocumentOf, SavesDocuments, Replayed;
      ReplayedSnoc(Initial, Trace, e);
      AccountedGrows(io, Initial, Trace, e, ledger);
      SavesGrow(provider, io, Trace, e);
      Trace := Trace + [e];
    }

    /** Commit, then store: only a record of this conversation whose file was just verified
        gets here. */
    method Commit(id: string, record: Record) returns (answer: Answer<()>)
      requires Valid() && Verified(record.receipt) in Trace && Sourced(io, Initial, Trace, id, record)
      modifies this`calls, this`Trace, this`ledger
      ensures Valid() && old(Trace) <= Trace
      ensures answer == io.commit(old(calls), id, record)
      ensures ledger == if answer.Gave? then old(ledger)[id := record] else old(ledger)
    {
      hide Accounted, Sourced, IsDocumentOf, SavesDocuments, Replayed;
      answer := io.commit(calls, id, record);
      calls := calls + 1;
      if answer.Gave? {
        ReplayedSnoc(Initial, Trace, Committed(id, record));
        SavesGrow(provider, io, Trace, Committed(id, record));
        AccountedCommit(io, Initial, Trace, ledger, id, record);
        Trace := Trace + [Committed(id, record)];
        ledger := ledger[id := record];
      }
    }

    /** Capture and check one conversation. */
    method Capture(item: Item, ghost world: World) returns (text: string, hash: Result<string>)
      modifies this`calls
      ensures Calm(io, world) ==> hash == ContentHash(provider, world, item)
                                  && (hash.Ok? ==> Gave(text) == world.capture(item))
      ensures hash.Ok? ==>
        IsDocumentOf(provider, io, item.id, text) && hash.value == io.digest(io.parse(text).value)
    {
      hide ValidDoc, DocumentOf;
      text := "";
      var captured := io.capture(calls, item);
      calls := calls + 1;
      if captured.Raised? {
        return text, Err(captured.error);
      }
      text := captured.value;
      var stopped := io.check(calls);
      calls := calls + 1;
      if stopped.Some? {
        return text, Err(stopped.value);
      }
      var parsed := io.parse(text);
      if parsed.Raised? {
        return text, Err(parsed.error);
      }
      ValidDocExactly(provider, item.id, parsed.value);
      if !ValidDoc(provider, item.id, parsed.value) {
        return text, Err("conversation_export_invalid");
      }
      return text, Ok(io.digest(parsed.value));
    }

    /** The try block: its errors are the conversation's, not the run's. */
    method Export(item: Item, previous: Option<Record>, ghost world: World) returns (tag: Tag)
      requires Valid()
      requires previous == if item.id in ledger then Some(ledger[item.id]) else None
      modifies this`calls, this`Trace, this`ledger
      ensures Valid() && old(Trace) <= Trace
      ensures Stored(old(ledger), ledger, item, tag)
      ensures tag.Skipped? ==> Verified(old(ledger)[item.id].receipt) in Trace
      ensures Calm(io, world) ==> (ledger, tag) == ExportStep(provider, world, old(ledger), item)
    {
      hide Replayed, Accounted, SavesDocuments, ValidDoc, ContentHash, IsDocumentOf;
      var text, hash := Capture(item, world);
      if hash.Err? {
        return Tag.Failed(hash.error);
      }
      if previous.Some? && previous.value.contentHash == Some(hash.value) {
        var known := Verify(previous.value.receipt);
        if known.Raised? {
          return Tag.Failed(known.error);
        }
        if known.value {
          tag := Redate(item, previous.value);
          return;
        }
      }
      tag := Save(item, text, hash.value, world);
    }

    /** The content is the one on file, so the entry only gets the new date. */
    method Redate(item: Item, previous: Record) returns (tag: Tag)
      requires Valid() && item.id in ledger && ledger[item.id] == previous && Verified(previous.receipt) in Trace
      modifies this`calls, this`Trace, this`ledger
      ensures Valid() && old(Trace) <= Trace && Verified(previous.receipt) in Trace
      ensures Stored(old(ledger), ledger, item, tag) && !tag.Exported?
      ensures match io.commit(old(calls), item.id, previous.(updated := item.updated))
              case Raised(error) => tag == Tag.Failed(error)
              case Gave(_) => tag == Skipped
    {
      hide Replayed, SavesDocuments, Accounted, Sourced;
      ghost var verified := Trace;
      RedatedSourced(io, Initial, Trace, ledger, item.id, item.updated);
      var answer := Commit(item.id, previous.(updated := item.updated));
      assert forall e :: e in verified ==> e in Trace;
      return if answer.Raised? then Tag.Failed(answer.error) else Skipped;
    }

    /** Save, read back, and only then commit. */
    method Save(item: Item, text: string, contentHash: string, ghost world: World) returns (tag: Tag)
      requires Valid() && IsDocumentOf(provider, io, item.id, text)
      requires contentHash == io.digest(io.parse(text).value)
      modifies this`calls, this`Trace, this`ledger
      ensures Valid() && old(Trace) <= Trace
      ensures Stored(old(ledger), ledger, item, tag) && !tag.Skipped?
      ensures Calm(io, world) ==> (ledger, tag) == SaveStep(world, old(ledger), item, text, contentHash)
    {
      hide Replayed, Accounted, DocumentOf;
      var receipt := io.save(calls, item, text);
      calls := calls + 1;
      if receipt.Raised? {
        return Tag.Failed(receipt.error);
      }
      ghost var saved := |Trace|;
      Note(Saved(item.id, text, receipt.value));
      var written := Verify(receipt.value);
      if written.Raised? {
        return Tag.Failed(written.error);
      }
      if !written.value {
        return Tag.Failed("saved_file_verification_failed");
      }
      var stopped := io.check(calls);
      calls := calls + 1;
      if stopped.Some? {
        return Tag.Failed(stopped.value);
      }
      assert Trace[saved] == Saved(item.id, text, receipt.value);
      var answer := Commit(item.id, Record(receipt.value, Some(contentHash), item.updated, item.link));
      if answer.Raised? {
        return Tag.Failed(answer.error);
      }
      return Exported;
    }

    /** The loop over the listed conversations. An error is a run given up midway; every
        ledger entry made until then stays. */
    method Run(recognised: bool, items: seq<Item>, ghost world: World)
      returns (error: Option<string>, ghost tags: seq<Tag>)
      requires Valid()
      modifies this
      ensures Valid() && old(Trace) <= Trace && Initial == old(Initial)
      ensures |tags| <= |items| && (error.None? ==> recognised && |tags| == |items|)
      ensures !recognised ==> error == Some("timeline_invalid") && tags == [] && ledger == old(ledger)
      ensures exported == Select(items, tags, IsExported) && skipped == Select(items, tags, IsSkipped)
      ensures failed == Failures(items, tags)
      ensures forall k :: 0 <= k < |tags| ==> IdentityHolds(provider, items[k])
      ensures forall id :: id !in Settled(items, tags) ==> SameAt(old(ledger), ledger, id)
      ensures Calm(io, world) && recognised && (forall k :: 0 <= k < |items| ==> IdentityHolds(provider, items[k])) ==>
                error.None?
      ensures Calm(io, world) ==> Follows(provider, world, old(ledger), items, ledger, tags)
    {
      hide Replayed, Accounted, SavesDocuments, Calm, ExportStep, IdentityHolds, Settled, Select, Failures;
      NothingTagged(items);
      exported, skipped, failed := [], [], [];
      tags := [];
      if !recognised {
        return Some("timeline_invalid"), tags;
      }
      for i := 0 to |items|
        invariant Valid() && old(Trace) <= Trace && Initial == old(Initial)
        invariant |tags| == i
        invariant exported == Select(items, tags, IsExported) && skipped == Select(items, tags, IsSkipped)
        invariant failed == Failures(items, tags)
        invariant forall k :: 0 <= k < i ==> IdentityHolds(provider, items[k])
        invariant forall id :: id !in Settled(items, tags) ==> SameAt(old(ledger), ledger, id)
        invariant Calm(io, world) ==> Follows(provider, world, old(ledger), items, ledger, tags)
      {
        var tag;
        error, tag := Process(items[i], world);
        if error.Some? {
          return error, tags;
        }
        TagAdded(items, tags, tag);
        SettledAdded(items, tags, tag);
        tags := tags + [tag];
        match tag {
          case Exported => exported := exported + [items[i].id];
          case Skipped => skipped := skipped + [items[i].id];
          case Failed(e) => failed := failed + [(items[i].id, e)];
        }
      }
      return None, tags;
    }

    /** One turn of the loop: abort check, identity check, skip by timestamp, or export. */
    method Process(item: Item, ghost world: World) returns (error: Option<string>, tag: Tag)
      requires Valid()
      modifies this`calls, this`Trace, this`ledger
      ensures Valid() && old(Trace) <= Trace
      ensures error.Some? ==> ledger == old(ledger)
      ensures error.None? ==> IdentityHolds(provider, item) && Stored(old(ledger), ledger, item, tag)
      ensures error.None? && tag.Skipped? ==> Verified(old(ledger)[item.id].receipt) in Trace
      ensures io.check(old(calls)).Some? ==> error == io.check(old(calls))
      ensures io.check(old(calls)).None? && !IdentityHolds(provider, item) ==>
        error == Some("timeline_identity_invalid")
      ensures Calm(io, world) && IdentityHolds(provider, item) ==> error.None?
      ensures Calm(io, world) && error.None? ==> (ledger, tag) == ItemStep(provider, world, old(ledger), item)
    {
      hide Replayed, Accounted, SavesDocuments, ExportStep;
      tag := Skipped;
      var stopped := io.check(calls);
      calls := calls + 1;
      if stopped.Some? {
        return stopped, tag;
      }
      var ref := BatchConversation(provider, item.link);
      if ref.None? || ref.value.id != item.id {
        return Some("timeline_identity_invalid"), tag;
      }
      var previous := if item.id in ledger then Some(ledger[item.id]) else None;
      if previous.Some? && item.updated.Some? && previous.value.updated == item.updated {
        var known := Verify(previous.value.receipt);
        if known.Raised? {
          return Some(known.error), tag;
        }
        if known.value {
          return None, Skipped;
        }
      }
      tag := Export(item, previous, world);
      return None, tag;
    }
  }

  /** A failed conversation leaves the ledger as it was, a skipped one only dates its entry, and
      an exported one leaves a new entry there. */
  ghost predicate Stored(before: Ledger, after: Ledger, item: Item, tag: Tag)
  {
    match tag
    case Failed(_) => after == before
    case Skipped => item.id in before && after == before[item.id := before[item.id].(updated := item.updated)]
    case Exported =>
      && item.id in after && after == before[item.id := after[item.id]]
      && after[item.id].updated == item.updated && after[item.id].link == item.link
      && after[item.id].contentHash.Some?
  }

  predicate IsExported(tag: Tag)
  {
    tag.Exported?
  }

  predicate IsSkipped(tag: Tag)
  {
    tag.Skipped?
  }

  function Failures(items: seq<Item>, tags: seq<Tag>): seq<(string, string)>
    requires |tags| <= |items|
  {
    if tags == [] then []
    else
      Failures(items, tags[..|tags| - 1])
      + match tags[|tags| - 1] { case Failed(e) => [(items[|tags| - 1].id, e)] case _ => [] }
  }

  /** The ids whose entry a run may have touched: those with a conversation that did not fail. */
  ghost function Settled(items: seq<Item>, tags: seq<Tag>): set<string>
    requires |tags| <= |items|
  {
    set k | 0 <= k < |tags| && !tags[k].Failed? :: items[k].id
  }

  ghost predicate SameAt(before: Ledger, after: Ledger, id: string)
  {
    (id in before <==> id in after) && (id in before ==> before[id] == after[id])
  }

  lemma NothingTagged(items: seq<Item>)
    ensures Select(items, [], IsExported) == [] == Select(items, [], IsSkipped)
    ensures Failures(items, []) == [] && Settled(items, []) == {}
  {
  }

  /** Each processed position stands in exactly one of the three lists, in order. */
  lemma TagAdded(items: seq<Item>, tags: seq<Tag>, tag: Tag)
    requires |tags| < |items|
    ensures var id := items[|tags|].id;
            && Select(items, tags + [tag], IsExported)
                == Select(items, tags, IsExported) + (if tag.Exported? then [id] else [])
            && Select(items, tags + [tag], IsSkipped)
                == Select(items, tags, IsSkipped) + (if tag.Skipped? then [id] else [])
            && Failures(items, tags + [tag])
                == Failures(items, tags) + (match tag { case Failed(e) => [(id, e)] case _ => [] })
  {
    assert (tags + [tag])[..|tags|] == tags;
  }

  lemma SettledAdded(items: seq<Item>, tags: seq<Tag>, tag: Tag)
    requires |tags| < |items|
    ensures Settled(items, tags + [tag]) == Settled(items, tags) + (if tag.Failed? then {} else {items[|tags|].id})
  {
    var more := tags + [tag];
    forall id | id in Settled(items, tags)
      ensures id in Settled(items, more)
    {
      var k :| 0 <= k < |tags| && !tags[k].Failed? && items[k].id == id;
      assert !more[k].Failed?;
    }
    assert !tag.Failed? ==> !more[|tags|].Failed?;
    forall id | id in Settled(items, more)
      ensures id in Settled(items, tags) || (!tag.Failed? && id == items[|tags|].id)
    {
      var k :| 0 <= k < |more| && !more[k].Failed? && items[k].id == id;
      assert k < |tags| ==> !tags[k].Failed?;
    }
  }

  // ---- the run in a calm world ----

  /** Capture, saving and verification that do not change between calls, no abort, and a
      disk that accepts every commit. */
  datatype World = World(
    capture: Item -> Answer<string>,
    parse: string -> Answer<Doc>,
    digest: Doc -> string,
    save: (Item, string) -> Answer<Receipt>,
    verify: Receipt -> bool)

  ghost predicate Calm(io: Io, world: World)
  {
    && io.parse == world.parse && io.digest == world.digest
    && (forall n :: io.check(n) == None)
    && (forall n, item :: io.capture(n, item) == world.capture(item))
    && (forall n, item, text :: io.save(n, item, text) == world.save(item, text))
    && (forall n, receipt :: io.verify(n, receipt) == Gave(world.verify(receipt)))
    && (forall n, id, record :: io.commit(n, id, record) == Gave(()))
  }

  /** The hash of what capturing a conversation gives, or why there is none. */
  function ContentHash(provider: Provider, world: World, item: Item): Result<string>
  {
    var captured := world.capture(item);
    if captured.Raised? then Err(captured.error)
    else
      var doc := world.parse(captured.value);
      if doc.Raised? then Err(doc.error)
      else if !ValidDoc(provider, item.id, doc.value) then Err("conversation_export_invalid")
      else Ok(world.digest(doc.value))
  }

  /** There is a hash exactly when the capture is a document of the conversation, and it is the
      digest of that document. */
  lemma ContentHashExactly(provider: Provider, world: World, item: Item)
    ensures match world.capture(item)
            case Raised(error) => ContentHash(provider, world, item) == Err(error)
            case Gave(text) =>
              match world.parse(text)
              case Raised(error) => ContentHash(provider, world, item) == Err(error)
              case Gave(doc) =>
                ContentHash(provider, world, item)
                == if DocumentOf(provider, item.id, doc) then Ok(world.digest(doc))
                   else Err("conversation_export_invalid")
  {
    hide ValidDoc, DocumentOf;
    if world.capture(item).Gave? && world.parse(world.capture(item).value).Gave? {
      ValidDocExactly(provider, item.id, world.parse(world.capture(item).value).value);
    }
  }

  function ExportStep(provider: Provider, world: World, ledger: Ledger, item: Item): (Ledger, Tag)
  {
    var hash := ContentHash(provider, world, item);
    if hash.Err? then (ledger, Tag.Failed(hash.error))
    else if item.id in ledger && ledger[item.id].contentHash == Some(hash.value)
        && world.verify(ledger[item.id].receipt) then
      (ledger[item.id := ledger[item.id].(updated := item.updated)], Skipped)
    else SaveStep(world, ledger, item, world.capture(item).value, hash.value)
  }

  function SaveStep(world: World, ledger: Ledger, item: Item, text: string, contentHash: string): (Ledger, Tag)
  {
    var receipt := world.save(item, text);
    if receipt.Raised? then (ledger, Tag.Failed(receipt.error))
    else if !world.verify(receipt.value) then (ledger, Tag.Failed("saved_file_verification_failed"))
    else (ledger[item.id := Record(receipt.value, Some(contentHash), item.updated, item.link)], Exported)
  }

  /** A save counts only if the file that it reports verifies. */
  lemma SavedExactly(world: World, ledger: Ledger, item: Item, text: string, contentHash: string)
    ensures var after, receipt := SaveStep(world, ledger, item, text, contentHash), world.save(item, text);
            && (receipt.Raised? ==> after == (ledger, Tag.Failed(receipt.error)))
            && (receipt.Gave? && !world.verify(receipt.value) ==>
                  after == (ledger, Tag.Failed("saved_file_verification_failed")))
            && (receipt.Gave? && world.verify(receipt.value) ==>
                  && after.1 == Exported && after.0.Keys == ledger.Keys + {item.id}
                  && after.0[item.id].receipt == receipt.value && after.0[item.id].contentHash == Some(contentHash)
                  && after.0[item.id].updated == item.updated && after.0[item.id].link == item.link
                  && forall id :: id in ledger && id != item.id ==> after.0[id] == ledger[id])
  {
  }

  function ItemStep(provider: Provider, world: World, ledger: Ledger, item: Item): (Ledger, Tag)
  {
    if item.id in ledger && item.updated.Some? && ledger[item.id].updated == item.updated
        && world.verify(ledger[item.id].receipt)
    then (ledger, Skipped)
    else ExportStep(provider, world, ledger, item)
  }

  /** The ledger after the first k conversations. */
  function LedgerAfter(provider: Provider, world: World, ledger: Ledger, items: seq<Item>, k: nat): Ledger
    requires k <= |items|
  {
    if k == 0 then ledger
    else ItemStep(provider, world, LedgerAfter(provider, world, ledger, items, k - 1), items[k - 1]).0
  }

  function TagAt(provider: Provider, world: World, ledger: Ledger, items: seq<Item>, k: nat): Tag
    requires k < |items|
  {
    ItemStep(provider, world, LedgerAfter(provider, world, ledger, items, k), items[k]).1
  }

  ghost predicate Follows(provider: Provider, world: World, before: Ledger, items: seq<Item>, after: Ledger,
                          tags: seq<Tag>)
  {
    && |tags| <= |items|
    && after == LedgerAfter(provider, world, before, items, |tags|)
    && forall k :: 0 <= k < |tags| ==> tags[k] == TagAt(provider, world, before, items, k)
  }
}
