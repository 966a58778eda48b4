/** The three stages fed into one another: what a scan returns is a sound page of the crawl,
    and what a crawl returns passes every identity check of the batch run, on which a second
    run changes nothing. */
module TimelinePipeline {
  import opened Outcomes
  import opened TimelineUrl
  import opened StableSort
  import Scan = TimelineScan
  import opened TimelineDiscover
  import Batch = TimelineRun
  import Rerun = TimelineRerun

  function AsItem(row: Scan.Row): Item
  {
    Item(row.id, Some(row.url), row.updated)
  }

  function AsPage(timeline: Scan.Timeline): Page
  {
    Page(true,
         seq(|timeline.conversations|,
             i requires 0 <= i < |timeline.conversations| => AsItem(timeline.conversations[i])),
         seq(|timeline.collections|, i requires 0 <= i < |timeline.collections| => Some(timeline.collections[i])))
  }

  lemma {:induction false} AllValid(provider: Provider, items: seq<Item>)
    requires forall i :: 0 <= i < |items| ==> IdentityHolds(provider, items[i])
    ensures ValidPrefix(provider, items) == items
  {
    if items != [] {
      AllValid(provider, items[1..]);
    }
  }

  /** Whatever a scan returns, the crawl takes it as a sound page. */
  lemma ScannedPageSound(provider: Provider, collate: (string, string) -> int, replies: seq<Scan.Reply>, steps: nat)
    requires 0 < steps <= |replies| && Scan.Conclusion(provider, collate, replies, steps).Ok?
    ensures Sound(provider, AsPage(Scan.Conclusion(provider, collate, replies, steps).value))
  {
    var rows := Scan.Rows(Scan.Seen(provider, replies, steps));
    var sorted := Sort(Scan.Comparator(collate), rows);
    SortPermutes(Scan.Comparator(collate), rows);
    SameElements(rows, sorted);
    var items := AsPage(Scan.Conclusion(provider, collate, replies, steps).value).conversations;
    forall i | 0 <= i < |items|
      ensures IdentityHolds(provider, items[i])
    {
      assert items[i] == AsItem(sorted[i]);
      assert sorted[i] in Elements(rows);
      Scan.ScanIdentities(provider, replies, steps, sorted[i]);
    }
    AllValid(provider, items);
  }

  /** A finished crawl hands the batch run distinct, correctly identified conversations, so
      after a run without failures a second run skips all of them and changes nothing. */
  lemma CrawlThenRerun(provider: Provider, site: Site, crawl: Crawl, conversations: seq<Item>, world: Batch.World,
                       ledger: Batch.Ledger)
    requires Reported(provider, site, crawl) && multiset(conversations) == multiset(crawl.rows)
    requires Rerun.NoFailures(provider, world, ledger, conversations)
    ensures forall i :: 0 <= i < |conversations| ==> IdentityHolds(provider, conversations[i])
    ensures var first := Batch.LedgerAfter(provider, world, ledger, conversations, |conversations|);
            && Rerun.AllSkipped(provider, world, first, conversations)
            && Batch.LedgerAfter(provider, world, first, conversations, |conversations|) == first
  {
    forall i | 0 <= i < |conversations|
      ensures IdentityHolds(provider, conversations[i])
    {
      HistoryIdentities(provider, site, crawl, conversations, i);
    }
    HistoryIsNewest(Reports(provider, site, crawl.visited), crawl.rows, conversations);
    Rerun.RerunSkipsAll(provider, world, ledger, conversations);
  }
}
