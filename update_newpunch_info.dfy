/**
 * The refresh function: for each category, build the listing-page URLs,
 * fetch the pages, extract one thread record per non-pinned thread block,
 * clear the category's table and write the records back in batches of at
 * most 25. Fetching is a parameter (`fetch`: the response for a URL, or
 * `None` when the request fails); a page arrives already split into its
 * thread blocks, each carrying the attributes the extractor reads.
 */
module UpdateNewpunchInfo {
  import opened Wrappers
  import opened Decimal
  import opened Strings
  import opened Batching
  import opened Dynamo

  const FacepunchHost: string := "https://forum.facepunch.com"
  const PageNumPlaceholder: string := "{pageNum}"
  const SensationalistHeadlinesUrl: string := FacepunchHost + "/f/sh/p/" + PageNumPlaceholder
  const PolidicksHeadlinesUrl: string := FacepunchHost + "/f/pd/p/" + PageNumPlaceholder

  /**
   * One `.threadblock` of a listing page: whether it is pinned
   * (`.is-sticky`), the link's `href`, the trimmed title text, the
   * creation date (`None` when the `.threadage` title is missing or not a
   * date), the `.postcount` title text (`None` when missing) and the
   * last-post time in epoch seconds (`None` when missing or not a number).
   */
  datatype Block = Block(
    sticky: bool,
    href: string,
    title: string,
    created: Option<int>,
    counts: Option<string>,
    lastPostSeconds: Option<int>)

  type Page = seq<Block>

  /** The record `getThreads` emits: every field is text, as it is written to the table. */
  datatype Thread = Thread(
    link: string,
    headline: string,
    created: string,
    replies: string,
    views: string,
    subscribers: string,
    lastPostTime: string)

  /** Why a refresh fails: a page fetch, or an exception while reading a block. */
  datatype Error = FetchFailed | MissingCounts | MissingCounter(word: string) | InvalidDate

  /**
   * Timestamps are epoch seconds; their stored text is written by
   * `EncodeTime` and read back by `Decimal.ParseInt` (in place of ISO 8601
   * text and `Date` parsing).
   */
  function EncodeTime(t: int): (s: string)
    ensures ParseInt(s) == Some(t)
  {
    IntRoundTrip(t);
    IntToString(t)
  }

  // ---------------------------------------------------------------------
  // Page URLs

  /** The URL of page `i`: the template with its first `{pageNum}` replaced by `i` in decimal. */
  function PageUrl(template: string, i: nat): string {
    ReplaceFirst(template, PageNumPlaceholder, NatToString(i))
  }

  /** The URLs of pages 1..maxPages, in page order (none when `maxPages <= 0`). */
  function PageUrlList(template: string, maxPages: int): (urls: seq<string>)
    ensures |urls| == if maxPages > 0 then maxPages else 0
  {
    if maxPages <= 0 then []
    else seq(maxPages, i requires 0 <= i => PageUrl(template, i + 1))
  }

  /** The `tasks` loop of `getThreads`: one URL per page, pages 1..maxPages in order. */
  method PageUrls(template: string, maxPages: int) returns (urls: seq<string>)
    ensures |urls| == if maxPages > 0 then maxPages else 0
    ensures forall i | 0 <= i < |urls| :: urls[i] == PageUrl(template, i + 1)
  {
    urls := [];
    var i := 1;
    while i <= maxPages
      invariant 1 <= i && (maxPages >= 1 ==> i <= maxPages + 1) && (maxPages < 1 ==> i == 1)
      invariant |urls| == i - 1
      invariant forall j | 0 <= j < |urls| :: urls[j] == PageUrl(template, j + 1)
    {
      urls := urls + [ReplaceFirst(template, PageNumPlaceholder, NatToString(i))];
      i := i + 1;
    }
  }

  /** For both categories the page number is appended to the fixed listing path. */
  lemma CategoryPageUrls(i: nat)
    ensures PageUrl(SensationalistHeadlinesUrl, i) == FacepunchHost + "/f/sh/p/" + NatToString(i)
    ensures PageUrl(PolidicksHeadlinesUrl, i) == FacepunchHost + "/f/pd/p/" + NatToString(i)
  {
    var sh, pd := FacepunchHost + "/f/sh/p/", FacepunchHost + "/f/pd/p/";
    assert forall k | 0 <= k < |sh| :: sh[k] != '{';
    assert forall k | 0 <= k < |pd| :: pd[k] != '{';
    ReplaceAfterPrefix(sh, PageNumPlaceholder, "", NatToString(i));
    ReplaceAfterPrefix(pd, PageNumPlaceholder, "", NatToString(i));
    assert SensationalistHeadlinesUrl == sh + PageNumPlaceholder + "";
    assert PolidicksHeadlinesUrl == pd + PageNumPlaceholder + "";
  }

  /**
   * `Promise.all` over the page fetches: every page in page order, or a
   * failure as soon as any one request fails.
   */
  function FetchAll(urls: seq<string>, fetch: string -> Option<Page>): (r: Result<seq<Page>, Error>)
    ensures r.Success? <==> forall i | 0 <= i < |urls| :: fetch(urls[i]).Some?
    ensures r.Success? ==> |r.value| == |urls| && forall i | 0 <= i < |urls| :: fetch(urls[i]) == Some(r.value[i])
  {
    if forall i | 0 <= i < |urls| :: fetch(urls[i]).Some?
    then Success(seq(|urls|, i requires 0 <= i < |urls| && fetch(urls[i]).Some? => fetch(urls[i]).value))
    else Failure(FetchFailed)
  }

  // ---------------------------------------------------------------------
  // Counters: the regular expression /(\d{1,}) <word>/ on the `.postcount` title

  /** The end of the run of digits starting at `p`. */
  function RunEnd(s: string, p: nat): (q: nat)
    requires p <= |s|
    ensures p <= q <= |s| && AllDigits(s[p..q])
    ensures q < |s| ==> !IsDigit(s[q])
    decreases |s| - p
  {
    if p < |s| && IsDigit(s[p]) then RunEnd(s, p + 1) else p
  }

  /**
   * The pattern matches starting at `p`: one or more digits (greedy, and
   * no shorter run can be followed by the space) then " <word>".
   */
  predicate MatchesAt(s: string, word: string, p: nat)
    requires p <= |s|
  {
    p < |s| && IsDigit(s[p]) && OccursAt(s, " " + word, RunEnd(s, p))
  }

  /** The leftmost match at or after `from`, as the regular-expression engine finds it. */
  function FindMatch(s: string, word: string, from: nat): (r: Option<nat>)
    requires from <= |s|
    ensures r.Some? ==> from <= r.value < |s| && MatchesAt(s, word, r.value)
    ensures r.Some? ==> forall p | from <= p < r.value :: !MatchesAt(s, word, p)
    ensures r.None? ==> forall p | from <= p <= |s| :: !MatchesAt(s, word, p)
    decreases |s| - from
  {
    if MatchesAt(s, word, from) then Some(from)
    else if from == |s| then None
    else FindMatch(s, word, from + 1)
  }

  /**
   * `counts.match(/(\d{1,}) <word>/)[1]`: the whole digit run right before
   * the first " <word>" that follows a digit; `None` is a `null` match.
   * A separator inside a number ends the run ("1,337 Views" gives "337").
   */
  function Capture(s: string, word: string): (r: Option<string>)
    ensures r.None? <==> forall p | 0 <= p <= |s| :: !MatchesAt(s, word, p)
    ensures r.Some? ==> r.value != [] && AllDigits(r.value)
  {
    match FindMatch(s, word, 0)
    case None => None
    case Some(p) => Some(s[p..RunEnd(s, p)])
  }

  lemma RunEndFromPrevious(s: string, p: nat)
    requires 0 < p <= |s|
    ensures IsDigit(s[p - 1]) ==> RunEnd(s, p - 1) == RunEnd(s, p)
  {
  }

  /**
   * The captured run is a whole run of digits: the match starts where the
   * run starts, since a match one position earlier would be leftmost.
   */
  lemma CaptureIsWholeRun(s: string, word: string)
    requires Capture(s, word).Some?
    ensures exists p, q | 0 <= p < q <= |s| ::
              && Capture(s, word).value == s[p..q]
              && (p == 0 || !IsDigit(s[p - 1]))
              && (q == |s| || !IsDigit(s[q]))
              && OccursAt(s, " " + word, q)
  {
    var p := FindMatch(s, word, 0).value;
    var q := RunEnd(s, p);
    if p > 0 {
      assert !MatchesAt(s, word, p - 1);
      RunEndFromPrevious(s, p);
    }
    assert Capture(s, word).value == s[p..q];
    assert p == 0 || !IsDigit(s[p - 1]);
  }

  /** `parseInt(match[1], 10)` of a successful match: the decimal value of the run. */
  function Counter(counts: string, word: string): (r: Option<nat>)
    ensures r.Some? <==> Capture(counts, word).Some?
    ensures r.Some? ==> ParseInt(Capture(counts, word).value) == Some(r.value)
  {
    match Capture(counts, word)
    case None => None
    case Some(digits) =>
      ParseIntDigits(digits, []);
      assert digits + [] == digits;
      Some(DigitsValue(digits))
  }

  // ---------------------------------------------------------------------
  // Extraction

  /**
   * The body of the per-block loop of `getThreads`. Any missing piece
   * throws (a null match, a missing attribute, an invalid date), which
   * fails the whole refresh.
   */
  function ExtractThread(b: Block): (r: Result<Thread, Error>)
    ensures r.Success? <==>
              && b.counts.Some?
              && Counter(b.counts.value, "Replies").Some?
              && Counter(b.counts.value, "Views").Some?
              && Counter(b.counts.value, "Subscribers").Some?
              && b.created.Some? && b.lastPostSeconds.Some?
    ensures r.Success? ==>
              && r.value.link == b.href && r.value.headline == b.title
              && ParseInt(r.value.replies) == Counter(b.counts.value, "Replies")
              && ParseInt(r.value.views) == Counter(b.counts.value, "Views")
              && ParseInt(r.value.subscribers) == Counter(b.counts.value, "Subscribers")
              && ParseInt(r.value.created) == b.created
              && ParseInt(r.value.lastPostTime) == b.lastPostSeconds
    ensures r.Success? ==> AllDigits(r.value.replies) && AllDigits(r.value.views) && AllDigits(r.value.subscribers)
  {
    if b.counts.None? then Failure(MissingCounts)
    else
      var counts := b.counts.value;
      var replies := Counter(counts, "Replies");
      var views := Counter(counts, "Views");
      var subscribers := Counter(counts, "Subscribers");
      if replies.None? then Failure(MissingCounter("Replies"))
      else if views.None? then Failure(MissingCounter("Views"))
      else if subscribers.None? then Failure(MissingCounter("Subscribers"))
      else if b.created.None? || b.lastPostSeconds.None? then Failure(InvalidDate)
      else
        NatRoundTrip(replies.value);
        NatRoundTrip(views.value);
        NatRoundTrip(subscribers.value);
        Success(Thread(
          link := b.href,
          headline := b.title,
          created := EncodeTime(b.created.value),
          replies := NatToString(replies.value),
          views := NatToString(views.value),
          subscribers := NatToString(subscribers.value),
          lastPostTime := EncodeTime(b.lastPostSeconds.value)))
  }

  /** The blocks the `.threadblock:not(.is-sticky)` selector keeps, in order. */
  function NonSticky(bs: seq<Block>): (r: seq<Block>)
    ensures forall i | 0 <= i < |r| :: !r[i].sticky
  {
    if bs == [] then []
    else NonSticky(bs[..|bs| - 1]) + (if bs[|bs| - 1].sticky then [] else [bs[|bs| - 1]])
  }

  /** Every block that is not pinned is kept, and nothing else. */
  lemma {:induction false} NonStickyMembers(bs: seq<Block>)
    ensures |NonSticky(bs)| <= |bs|
    ensures forall b :: b in NonSticky(bs) <==> b in bs && !b.sticky
    decreases |bs|
  {
    if bs != [] {
      var init := bs[..|bs| - 1];
      assert bs == init + [bs[|bs| - 1]];
      NonStickyMembers(init);
    }
  }

  lemma {:induction false} NonStickyAppend(a: seq<Block>, b: seq<Block>)
    ensures NonSticky(a + b) == NonSticky(a) + NonSticky(b)
    decreases |b|
  {
    if b == [] {
      assert a + b == a;
    } else {
      assert (a + b)[..|a + b| - 1] == a + b[..|b| - 1];
      NonStickyAppend(a, b[..|b| - 1]);
    }
  }

  /** Extraction over the blocks of the fetched pages, in page order then in-page order. */
  function ExtractBlocks(bs: seq<Block>): Result<seq<Thread>, Error> {
    TryMap(ExtractThread, NonSticky(bs))
  }

  /** One more block: a pinned block changes nothing, any other adds its record or its failure. */
  lemma ExtractStep(f: Block -> Result<Thread, Error>, xs: seq<Block>, b: Block)
    requires TryMap(f, NonSticky(xs)).Success?
    ensures b.sticky ==> TryMap(f, NonSticky(xs + [b])) == TryMap(f, NonSticky(xs))
    ensures !b.sticky && f(b).Failure? ==> TryMap(f, NonSticky(xs + [b])) == Failure(f(b).error)
    ensures !b.sticky && f(b).Success? ==>
              TryMap(f, NonSticky(xs + [b])) == Success(TryMap(f, NonSticky(xs)).value + [f(b).value])
  {
    assert (xs + [b])[..|xs|] == xs;
    if !b.sticky {
      assert (NonSticky(xs) + [b])[..|NonSticky(xs)|] == NonSticky(xs);
    } else {
      assert NonSticky(xs + [b]) == NonSticky(xs) + [];
      assert NonSticky(xs) + [] == NonSticky(xs);
    }
  }

  /** The blocks of all pages, cut inside page `idx` after its block `j`. */
  lemma FlattenSplit(pages: seq<Page>, idx: nat, j: nat)
    requires idx < |pages| && j < |pages[idx]|
    ensures Flatten(pages) == (Flatten(pages[..idx]) + pages[idx][..j + 1]) + (pages[idx][j + 1..] + Flatten(pages[idx + 1..]))
  {
    var blocks := pages[idx];
    assert pages == pages[..idx] + [blocks] + pages[idx + 1..];
    FlattenAppend(pages[..idx] + [blocks], pages[idx + 1..]);
    FlattenAppend(pages[..idx], [blocks]);
    assert Flatten([blocks]) == Flatten([]) + blocks;
    assert blocks == blocks[..j + 1] + blocks[j + 1..];
  }

  /** A failure inside page `idx` is the failure of the whole run of pages. */
  lemma FailureInPage(f: Block -> Result<Thread, Error>, pages: seq<Page>, idx: nat, j: nat)
    requires idx < |pages| && j < |pages[idx]|
    requires TryMap(f, NonSticky(Flatten(pages[..idx]) + pages[idx][..j + 1])).Failure?
    ensures TryMap(f, NonSticky(Flatten(pages))) == TryMap(f, NonSticky(Flatten(pages[..idx]) + pages[idx][..j + 1]))
  {
    var head, tail := Flatten(pages[..idx]) + pages[idx][..j + 1], pages[idx][j + 1..] + Flatten(pages[idx + 1..]);
    FlattenSplit(pages, idx, j);
    NonStickyAppend(head, tail);
    TryMapFailureSticks(f, NonSticky(head), NonSticky(tail));
  }

  /** What `getThreads` produces for a listing template. */
  function Threads(template: string, maxPages: int, fetch: string -> Option<Page>): Result<seq<Thread>, Error> {
    match FetchAll(PageUrlList(template, maxPages), fetch)
    case Failure(e) => Failure(e)
    case Success(pages) => ExtractBlocks(Flatten(pages))
  }

  /** `getThreads`: build the URLs, fetch every page, then read the blocks page by page. */
  method GetThreads(template: string, maxPages: int, fetch: string -> Option<Page>)
    returns (r: Result<seq<Thread>, Error>)
    ensures r == Threads(template, maxPages, fetch)
  {
    var urls := PageUrls(template, maxPages);
    assert urls == PageUrlList(template, maxPages);
    var fetched := FetchAll(urls, fetch);
    if fetched.Failure? {
      return Failure(fetched.error);
    }
    r := ExtractPages(fetched.value);
  }

  /** The extraction loops of `getThreads`: pages in order, blocks in page order. */
  method ExtractPages(pages: seq<Page>) returns (r: Result<seq<Thread>, Error>)
    ensures r == ExtractBlocks(Flatten(pages))
  {
    var output: seq<Thread> := [];
    for idx := 0 to |pages|
      invariant TryMap(ExtractThread, NonSticky(Flatten(pages[..idx]))) == Success(output)
    {
      var blocks := pages[idx];
      ghost var before := Flatten(pages[..idx]);
      assert before + blocks[..0] == before;
      for j := 0 to |blocks|
        invariant TryMap(ExtractThread, NonSticky(before + blocks[..j])) == Success(output)
      {
        var b := blocks[j];
        assert before + blocks[..j + 1] == (before + blocks[..j]) + [b];
        ExtractStep(ExtractThread, before + blocks[..j], b);
        if !b.sticky {
          var t := ExtractThread(b);
          if t.Failure? {
            FailureInPage(ExtractThread, pages, idx, j);
            return Failure(t.error);
          }
          output := output + [t.value];
        }
      }
      assert pages[..idx + 1][..idx] == pages[..idx];
      assert blocks[..|blocks|] == blocks;
    }
    assert pages[..|pages|] == pages;
    r := Success(output);
  }

  // ---------------------------------------------------------------------
  // Write requests and batching

  /** The `PutRequest.Item` written for a thread: four `S` attributes, three `N` counters. */
  function PutItem(t: Thread): (item: Item)
    ensures HasKey(item) && KeyOf(item) == t.headline
    ensures forall a | a in item :: a in ["link", "headline", "created", "lastPostTime"] <==> item[a].S?
  {
    map[
      "link" := S(t.link),
      "headline" := S(t.headline),
      "created" := S(t.created),
      "replies" := N(t.replies),
      "views" := N(t.views),
      "subscribers" := N(t.subscribers),
      "lastPostTime" := S(t.lastPostTime)]
  }

  /** The item holds the seven attributes of the record: text as S, counters as N. */
  lemma PutItemAttributes(t: Thread)
    ensures var item := PutItem(t);
            && item.Keys == {"link", "headline", "created", "replies", "views", "subscribers", "lastPostTime"}
            && item["link"] == S(t.link) && item["headline"] == S(t.headline)
            && item["created"] == S(t.created) && item["lastPostTime"] == S(t.lastPostTime)
            && item["replies"] == N(t.replies) && item["views"] == N(t.views) && item["subscribers"] == N(t.subscribers)
  {
  }

  function PutItems(threads: seq<Thread>): (items: seq<Item>)
    ensures |items| == |threads| && AllKeyed(items)
    ensures forall i | 0 <= i < |threads| :: items[i] == PutItem(threads[i])
  {
    seq(|threads|, i requires 0 <= i < |threads| => PutItem(threads[i]))
  }

  function PutRequests(threads: seq<Thread>): seq<KeyedRequest> {
    Puts(PutItems(threads))
  }

  /** Proof helper: a batch start is a multiple of the batch size. */
  lemma MultipleOfCap(k: nat)
    ensures (k * MaxItemsPerBatch) % MaxItemsPerBatch == 0
  {
  }

  /**
   * The inner `for` loop of `populateTable`: one put request per thread
   * from index `start` on, up to a full batch; `done` is set when the
   * threads run out first.
   */
  method PutBatch(threads: seq<Thread>, start: nat) returns (putRequests: seq<KeyedRequest>, done: bool)
    requires start <= |threads|
    ensures done <==> |threads| < start + MaxItemsPerBatch
    ensures putRequests == PutRequests(threads)[start..if done then |threads| else start + MaxItemsPerBatch]
  {
    ghost var all := PutRequests(threads);
    done := false;
    putRequests := [];
    var i := start;
    while i < start + MaxItemsPerBatch
      invariant start <= i <= start + MaxItemsPerBatch && i <= |threads|
      invariant putRequests == all[start..i]
      invariant !done
    {
      if i >= |threads| {
        done := true;
        break;
      }
      putRequests := putRequests + [PutRequest(PutItem(threads[i]))];
      i := i + 1;
    }
  }

  /**
   * The batching loops of `populateTable`: the `while (!done)` loop over batch numbers and the
   * inner `for` loop over one batch's indices; a batch that finds no
   * thread at its first index is not issued.
   */
  method PopulateBatches(threads: seq<Thread>) returns (batches: seq<seq<KeyedRequest>>)
    ensures batches == Batches(PutRequests(threads))
  {
    ghost var all := PutRequests(threads);
    var done := false;
    var currentBatch := 0;
    batches := [];
    while !done
      invariant !done ==> currentBatch * MaxItemsPerBatch <= |threads|
      invariant !done ==> batches == Batches(all[..currentBatch * MaxItemsPerBatch])
      invariant done ==> batches == Batches(all)
      decreases if done then 0 else 1, |threads| - currentBatch * MaxItemsPerBatch
    {
      var start := currentBatch * MaxItemsPerBatch;
      var putRequests;
      putRequests, done := PutBatch(threads, start);
      var i := start + |putRequests|;
      if |putRequests| <= 0 {
        assert all[..start] == all;
        break;
      }
      MultipleOfCap(currentBatch);
      BatchStep(all, start, putRequests);
      batches := batches + [putRequests];
      currentBatch := currentBatch + 1;
      if done {
        assert all[..i] == all;
      }
    }
  }

  /**
   * The inner `for` loop of `clearTable`: one delete request per scanned
   * item from index `start` on, keyed by its `headline`, up to a full
   * batch; `done` is set when the items run out first.
   */
  method DeleteBatch(existingItems: seq<Item>, start: nat) returns (deleteRequests: seq<KeyedRequest>, done: bool)
    requires AllKeyed(existingItems) && start <= |existingItems|
    ensures done <==> |existingItems| < start + MaxItemsPerBatch
    ensures deleteRequests == Deletes(KeysOf(existingItems))[start..if done then |existingItems| else start + MaxItemsPerBatch]
  {
    ghost var all := Deletes(KeysOf(existingItems));
    done := false;
    deleteRequests := [];
    var i := start;
    while i < start + MaxItemsPerBatch
      invariant start <= i <= start + MaxItemsPerBatch && i <= |existingItems|
      invariant deleteRequests == all[start..i]
      invariant !done
    {
      if i >= |existingItems| {
        done := true;
        break;
      }
      deleteRequests := deleteRequests + [DeleteRequest(KeyOf(existingItems[i]))];
      i := i + 1;
    }
  }

  /**
   * The batching loops of `clearTable` on the items a scan returned: nothing is issued for an
   * empty scan; otherwise the same batching loop, one delete request per
   * scanned item keyed by its `headline`.
   */
  method ClearBatches(existingItems: seq<Item>) returns (batches: seq<seq<KeyedRequest>>)
    requires AllKeyed(existingItems)
    ensures batches == Batches(Deletes(KeysOf(existingItems)))
  {
    ghost var all := Deletes(KeysOf(existingItems));
    assert |all| == |existingItems|;
    if |existingItems| <= 0 {
      return [];
    }
    var done := false;
    var currentBatch := 0;
    batches := [];
    while !done
      invariant !done ==> currentBatch * MaxItemsPerBatch <= |existingItems|
      invariant !done ==> batches == Batches(all[..currentBatch * MaxItemsPerBatch])
      invariant done ==> batches == Batches(all)
      decreases if done then 0 else 1, |existingItems| - currentBatch * MaxItemsPerBatch
    {
      var start := currentBatch * MaxItemsPerBatch;
      var deleteRequests;
      deleteRequests, done := DeleteBatch(existingItems, start);
      var i := start + |deleteRequests|;
      if |deleteRequests| <= 0 {
        assert all[..start] == all;
        break;
      }
      MultipleOfCap(currentBatch);
      BatchStep(all, start, deleteRequests);
      batches := batches + [deleteRequests];
      currentBatch := currentBatch + 1;
      if done {
        assert all[..i] == all;
      }
    }
  }

  /** The headlines of `threads`, in order. */
  function Headlines(threads: seq<Thread>): (hs: seq<string>)
    ensures |hs| == |threads| && forall i | 0 <= i < |threads| :: hs[i] == threads[i].headline
  {
    seq(|threads|, i requires 0 <= i < |threads| => threads[i].headline)
  }

  /** The table a refresh leaves behind: every put applied to an empty table. */
  function Refreshed(threads: seq<Thread>): Table {
    ApplyAll(map[], PutRequests(threads))
  }

  /**
   * After a refresh the table holds exactly the extracted headlines. With
   * the writes taking effect in issue order, a headline holds the record
   * of the last thread that carries it.
   */
  lemma RefreshedContents(threads: seq<Thread>)
    ensures forall k :: k in Refreshed(threads) <==> k in Headlines(threads)
    ensures forall i | 0 <= i < |threads| && (forall j | i < j < |threads| :: threads[j].headline != threads[i].headline) ::
              && threads[i].headline in Refreshed(threads)
              && Refreshed(threads)[threads[i].headline] == PutItem(threads[i])
  {
    var items := PutItems(threads);
    ApplyPuts(map[], items);
    assert KeysOf(items) == Headlines(threads);
  }

  /**
   * What holds whatever order the writes take effect in: every stored
   * entry is the item of some record with that headline, and when the
   * headlines are distinct each record is stored under its own.
   */
  lemma RefreshedRecords(threads: seq<Thread>)
    ensures forall k | k in Refreshed(threads) ::
              exists i | 0 <= i < |threads| :: threads[i].headline == k && Refreshed(threads)[k] == PutItem(threads[i])
    ensures (forall i, j | 0 <= i < j < |threads| :: threads[i].headline != threads[j].headline) ==>
              forall i | 0 <= i < |threads| ::
                threads[i].headline in Refreshed(threads) && Refreshed(threads)[threads[i].headline] == PutItem(threads[i])
  {
    var items := PutItems(threads);
    PutsFromEmpty(items);
    ApplyAllValid(map[], Puts(items));
    forall k | k in Refreshed(threads)
      ensures exists i | 0 <= i < |threads| :: threads[i].headline == k && Refreshed(threads)[k] == PutItem(threads[i])
    {
      var i :| 0 <= i < |items| && items[i] == Refreshed(threads)[k];
      assert threads[i].headline == k;
    }
    RefreshedContents(threads);
  }

  /** The deletes built from a full scan empty the table. */
  lemma ClearEmpties(t: Table, scanned: seq<Item>)
    requires Enumerates(scanned, t)
    ensures ApplyAll(t, Deletes(KeysOf(scanned))) == map[]
  {
    ApplyDeletes(t, KeysOf(scanned));
    assert ApplyAll(t, Deletes(KeysOf(scanned))).Keys == {};
  }

  /**
   * `clearTable`: scan the table, then issue the delete batches and wait
   * for all of them; the table ends up empty.
   */
  method ClearTable(store: Store, tableName: string)
    requires store.Valid() && tableName in store.tables
    modifies store
    ensures store.Valid()
    ensures store.tables == old(store.tables)[tableName := map[]]
  {
    var existingItems := store.Scan(tableName);
    var deleteBatches := ClearBatches(existingItems);
    FlattenBatches(Deletes(KeysOf(existingItems)));
    ClearEmpties(store.tables[tableName], existingItems);
    store.BatchWriteAll(tableName, deleteBatches);
  }

  /**
   * `populateTable`: issue the put batches for `threads` and wait for all
   * of them; on an empty table this leaves exactly the refreshed contents.
   */
  method PopulateTable(store: Store, tableName: string, threads: seq<Thread>)
    requires store.Valid() && tableName in store.tables
    modifies store
    ensures store.Valid()
    ensures store.tables == old(store.tables)[tableName := ApplyAll(old(store.tables)[tableName], PutRequests(threads))]
  {
    var putBatches := PopulateBatches(threads);
    FlattenBatches(PutRequests(threads));
    store.BatchWriteAll(tableName, putBatches);
  }

  /** One category's refresh after its threads are read: clear the table, then populate it. */
  method ReplaceTable(store: Store, tableName: string, threads: seq<Thread>)
    requires store.Valid() && tableName in store.tables
    modifies store
    ensures store.Valid()
    ensures store.tables == old(store.tables)[tableName := Refreshed(threads)]
  {
    ClearTable(store, tableName);
    PopulateTable(store, tableName, threads);
  }

  /**
   * The refresh handler: fetch, clear and populate for sensationalist,
   * then the same for polidicks. The first failure stops the run and
   * the handler answers `false`; the steps after it do not happen.
   */
  method Handler(
    store: Store,
    fetch: string -> Option<Page>,
    maxPages: int,
    sensationalistTableName: string,
    polidicksTableName: string)
    returns (ok: bool)
    requires store.Valid()
    requires sensationalistTableName in store.tables && polidicksTableName in store.tables
    modifies store
    ensures store.Valid()
    ensures var sens := Threads(SensationalistHeadlinesUrl, maxPages, fetch);
            var pol := Threads(PolidicksHeadlinesUrl, maxPages, fetch);
            && (ok <==> sens.Success? && pol.Success?)
            && (sens.Failure? ==> store.tables == old(store.tables))
            && (sens.Success? && pol.Failure? ==>
                  store.tables == old(store.tables)[sensationalistTableName := Refreshed(sens.value)])
            && (ok ==>
                  store.tables == old(store.tables)[sensationalistTableName := Refreshed(sens.value)]
                                                   [polidicksTableName := Refreshed(pol.value)])
  {
    var sensationalistThreads := GetThreads(SensationalistHeadlinesUrl, maxPages, fetch);
    if sensationalistThreads.Failure? {
      return false;
    }
    ReplaceTable(store, sensationalistTableName, sensationalistThreads.value);
    var polidicksThreads := GetThreads(PolidicksHeadlinesUrl, maxPages, fetch);
    if polidicksThreads.Failure? {
      return false;
    }
    ReplaceTable(store, polidicksTableName, polidicksThreads.value);
    return true;
  }
}
