/**
 * The two Lambdas meet at the table: what the refresh writes, the read
 * path decodes back into the numbers and timestamps it started from.
 */
module RoundTrip {
  import opened Wrappers
  import opened Decimal
  import opened Dynamo
  import Batching
  import W = UpdateNewpunchInfo
  import R = GetNewpunchInfo

  /** A written record whose counters and timestamps read back as numbers. */
  predicate Storable(w: W.Thread) {
    && ParseInt(w.lastPostTime).Some? && ParseInt(w.created).Some?
    && ParseInt(w.subscribers).Some? && ParseInt(w.views).Some? && ParseInt(w.replies).Some?
  }

  /** What the read path should make of a written record. */
  function Decoded(w: W.Thread): R.Thread
    requires Storable(w)
  {
    R.Thread(
      lastPostTime := ParseInt(w.lastPostTime).value,
      subscribers := ParseInt(w.subscribers).value,
      created := ParseInt(w.created).value,
      headline := w.headline,
      views := ParseInt(w.views).value,
      replies := ParseInt(w.replies).value,
      link := R.AbsoluteLink(w.link))
  }

  /** The item written for a record decodes to that record. */
  lemma StoredItemDecodes(w: W.Thread)
    requires Storable(w)
    ensures R.DynamoThreadToJson(W.PutItem(w)) == Success(Decoded(w))
  {
    W.PutItemAttributes(w);
    R.DecodeWellFormed(W.PutItem(w));
  }

  /**
   * A thread block read on the refresh comes back from the table with
   * the counters and timestamps the page showed, its title, and its link
   * made absolute.
   */
  lemma BlockReadsBack(b: W.Block)
    requires W.ExtractThread(b).Success?
    ensures var w := W.ExtractThread(b).value;
            && Storable(w)
            && R.DynamoThreadToJson(W.PutItem(w)) == Success(R.Thread(
                 lastPostTime := b.lastPostSeconds.value,
                 subscribers := W.Counter(b.counts.value, "Subscribers").value,
                 created := b.created.value,
                 headline := b.title,
                 views := W.Counter(b.counts.value, "Views").value,
                 replies := W.Counter(b.counts.value, "Replies").value,
                 link := R.AbsoluteLink(b.href)))
  {
    StoredItemDecodes(W.ExtractThread(b).value);
  }

  /** Every item of a refreshed table decodes, when every record written was storable. */
  lemma RefreshedTableDecodes(threads: seq<W.Thread>, items: seq<Item>)
    requires forall i | 0 <= i < |threads| :: Storable(threads[i])
    requires Enumerates(items, W.Refreshed(threads))
    ensures TryMap(R.DynamoThreadToJson, items).Success?
    ensures |TryMap(R.DynamoThreadToJson, items).value| == |items|
  {
    var puts := W.PutItems(threads);
    PutsFromEmpty(puts);
    forall i | 0 <= i < |items|
      ensures R.DynamoThreadToJson(items[i]).Success?
    {
      var k := KeyOf(items[i]);
      assert items[i] in puts;
      var j :| 0 <= j < |puts| && puts[j] == items[i];
      StoredItemDecodes(threads[j]);
    }
    TryMapSuccess(R.DynamoThreadToJson, items);
  }

  /**
   * After a refresh that succeeded for a listing, any scan of its table
   * decodes, so reading that table never fails.
   */
  lemma ReadAfterRefresh(template: string, maxPages: int, fetch: string -> Option<W.Page>, items: seq<Item>)
    requires W.Threads(template, maxPages, fetch).Success?
    requires Enumerates(items, W.Refreshed(W.Threads(template, maxPages, fetch).value))
    ensures TryMap(R.DynamoThreadToJson, items).Success?
    ensures |TryMap(R.DynamoThreadToJson, items).value| == |items|
  {
    var pages := W.FetchAll(W.PageUrlList(template, maxPages), fetch).value;
    var blocks := W.NonSticky(Batching.Flatten(pages));
    var threads := W.Threads(template, maxPages, fetch).value;
    TryMapSuccess(W.ExtractThread, blocks);
    forall i | 0 <= i < |threads|
      ensures Storable(threads[i])
    {
      BlockReadsBack(blocks[i]);
    }
    RefreshedTableDecodes(threads, items);
  }
}
