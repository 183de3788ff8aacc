/**
 * The read path: scan one headline table, decode its items into thread
 * records, order them by the requested key (largest first) and keep the
 * requested number of them.
 */
module GetNewpunchInfo {
  import opened Wrappers
  import opened Decimal
  import opened Strings
  import opened Dynamo

  const FacepunchHost: string := "https://forum.facepunch.com"
  const DefaultHeadlineCount: nat := 3

  /** A decoded record: numbers and timestamps (epoch seconds) instead of stored text. */
  datatype Thread = Thread(
    lastPostTime: int,
    subscribers: int,
    created: int,
    headline: string,
    views: int,
    replies: int,
    link: string)

  /** The invocation: every field may be absent. */
  datatype Event = Event(eventType: Option<string>, count: Option<int>, sortKey: Option<string>)

  /** Why decoding an item fails: an attribute that is not there, or one that is not a number or a date. */
  datatype DecodeError = MissingAttribute(name: string) | Malformed(name: string)

  // ---------------------------------------------------------------------
  // Choosing the table and the order

  /**
   * The table `eventType` names, compared without regard to case:
   * "polidicks" selects the political table, anything else (or nothing)
   * the sensationalist one.
   */
  function GetTargetTable(eventType: Option<string>, sensationalistTableName: string, polidicksTableName: string): (name: string)
    ensures name == sensationalistTableName || name == polidicksTableName
    ensures name == polidicksTableName <==>
              polidicksTableName == sensationalistTableName || (eventType.Some? && ToLower(eventType.value) == "polidicks")
  {
    if eventType.None? || eventType.value == [] then sensationalistTableName
    else
      var lowered := ToLower(eventType.value);
      if lowered == "sensationalist" then sensationalistTableName
      else if lowered == "polidicks" then polidicksTableName
      else sensationalistTableName
  }

  /** Spellings that differ only in letter case select the same table. */
  lemma {:induction false} TargetTableIgnoresCase(a: string, b: string, sens: string, pol: string)
    requires ToLower(a) == ToLower(b)
    ensures GetTargetTable(Some(a), sens, pol) == GetTargetTable(Some(b), sens, pol)
  {
    assert |a| == |ToLower(a)| == |ToLower(b)| == |b|;
  }

  /** The fields the results can be ordered by. */
  datatype SortKey = Created | Subscribers | Views | Replies | LastPostTime

  /** The event's name of each key. */
  function KeyName(key: SortKey): string {
    match key
    case Created => "created"
    case Subscribers => "subscribers"
    case Views => "views"
    case Replies => "replies"
    case LastPostTime => "lastPostTime"
  }

  /** The key the event asks for; an absent or unknown name selects the time of the last post. */
  function GetSortKey(eventSortKey: Option<string>): (key: SortKey)
    ensures key != LastPostTime ==> eventSortKey == Some(KeyName(key))
    ensures eventSortKey.None? ==> key == LastPostTime
  {
    if eventSortKey.None? then LastPostTime
    else
      var name := eventSortKey.value;
      if name == "created" then Created
      else if name == "subscribers" then Subscribers
      else if name == "views" then Views
      else if name == "replies" then Replies
      else LastPostTime
  }

  /** Every key is selected by its own name. */
  lemma SortKeyByName(key: SortKey)
    ensures GetSortKey(Some(KeyName(key))) == key
  {
    match key
    case Created =>
    case Subscribers =>
      assert "subscribers" != "created" by { assert |"subscribers"| != |"created"|; }
    case Views =>
      assert "views"[0] != "created"[0] && "views"[0] != "subscribers"[0];
    case Replies =>
      assert "replies"[0] != "created"[0] && "replies"[0] != "subscribers"[0] && "replies"[0] != "views"[0];
    case LastPostTime =>
      assert "lastPostTime"[0] != "created"[0] && "lastPostTime"[0] != "subscribers"[0];
      assert "lastPostTime"[0] != "views"[0] && "lastPostTime"[0] != "replies"[0];
  }

  /** The field a key orders by. */
  function KeyValue(key: SortKey, t: Thread): int {
    match key
    case Created => t.created
    case Subscribers => t.subscribers
    case Views => t.views
    case Replies => t.replies
    case LastPostTime => t.lastPostTime
  }

  // ---------------------------------------------------------------------
  // Decoding

  /** The attributes of a stored item, in the order the decoder reads them. */
  const AttributeOrder: seq<string> := ["lastPostTime", "subscribers", "created", "headline", "views", "replies", "link"]

  /** Reading an attribute of the item; a missing attribute throws. */
  function Attr(item: Item, name: string): Result<AttributeValue, DecodeError> {
    if name in item then Success(item[name]) else Failure(MissingAttribute(name))
  }

  /** Text of an S attribute read as a timestamp. */
  predicate IsTime(v: AttributeValue) {
    v.S? && ParseInt(v.s).Some?
  }

  /** Text of an N attribute read as a decimal integer. */
  predicate IsNumber(v: AttributeValue) {
    v.N? && ParseInt(v.n).Some?
  }

  function AsTime(name: string, v: AttributeValue): Result<int, DecodeError> {
    if IsTime(v) then Success(ParseInt(v.s).value) else Failure(Malformed(name))
  }

  function AsNumber(name: string, v: AttributeValue): Result<int, DecodeError> {
    if IsNumber(v) then Success(ParseInt(v.n).value) else Failure(Malformed(name))
  }

  function AsString(name: string, v: AttributeValue): Result<string, DecodeError> {
    if v.S? then Success(v.s) else Failure(Malformed(name))
  }

  /** A stored relative link on the forum's host. */
  function AbsoluteLink(href: string): string {
    FacepunchHost + href
  }

  /** Every attribute the decoder reads is present. */
  predicate HasAttributes(item: Item) {
    && "lastPostTime" in item && "subscribers" in item && "created" in item && "headline" in item
    && "views" in item && "replies" in item && "link" in item
  }

  /** Every attribute the decoder reads is present and holds what it is read as. */
  predicate WellFormed(item: Item) {
    && HasAttributes(item)
    && IsTime(item["lastPostTime"]) && IsTime(item["created"])
    && IsNumber(item["subscribers"]) && IsNumber(item["views"]) && IsNumber(item["replies"])
    && item["headline"].S? && item["link"].S?
  }

  /**
   * A stored item as a record: the two timestamps and three counters
   * converted, the headline copied, the link made absolute. A missing
   * attribute is reported before any malformed one.
   */
  function DynamoThreadToJson(item: Item): (r: Result<Thread, DecodeError>)
    ensures r.Success? <==> WellFormed(item)
    ensures (r.Failure? && r.error.MissingAttribute?) <==> !HasAttributes(item)
    ensures r.Success? ==>
              && Some(r.value.lastPostTime) == ParseInt(item["lastPostTime"].s)
              && Some(r.value.subscribers) == ParseInt(item["subscribers"].n)
              && Some(r.value.created) == ParseInt(item["created"].s)
              && r.value.headline == item["headline"].s
              && Some(r.value.views) == ParseInt(item["views"].n)
              && Some(r.value.replies) == ParseInt(item["replies"].n)
              && r.value.link == AbsoluteLink(item["link"].s)
  {
    var lastPostTime :- Attr(item, "lastPostTime");
    var subscribers :- Attr(item, "subscribers");
    var created :- Attr(item, "created");
    var headline :- Attr(item, "headline");
    var views :- Attr(item, "views");
    var replies :- Attr(item, "replies");
    var link :- Attr(item, "link");
    var lastPostTimeValue :- AsTime("lastPostTime", lastPostTime);
    var subscribersValue :- AsNumber("subscribers", subscribers);
    var createdValue :- AsTime("created", created);
    var headlineText :- AsString("headline", headline);
    var viewsValue :- AsNumber("views", views);
    var repliesValue :- AsNumber("replies", replies);
    var linkText :- AsString("link", link);
    Success(Thread(
      lastPostTime := lastPostTimeValue,
      subscribers := subscribersValue,
      created := createdValue,
      headline := headlineText,
      views := viewsValue,
      replies := repliesValue,
      link := AbsoluteLink(linkText)))
  }

  /** A well-formed item decodes to the values its attributes hold. */
  lemma DecodeWellFormed(item: Item)
    requires WellFormed(item)
    ensures DynamoThreadToJson(item) == Success(Thread(
              lastPostTime := ParseInt(item["lastPostTime"].s).value,
              subscribers := ParseInt(item["subscribers"].n).value,
              created := ParseInt(item["created"].s).value,
              headline := item["headline"].s,
              views := ParseInt(item["views"].n).value,
              replies := ParseInt(item["replies"].n).value,
              link := AbsoluteLink(item["link"].s)))
  {
  }

  /** The attribute a failed read names is the first absent one in reading order. */
  lemma FirstMissingReported(item: Item)
    requires !HasAttributes(item)
    ensures var e := DynamoThreadToJson(item).error;
            exists i | 0 <= i < |AttributeOrder| ::
              && e == MissingAttribute(AttributeOrder[i]) && AttributeOrder[i] !in item
              && forall j | 0 <= j < i :: AttributeOrder[j] in item
  {
    var e := DynamoThreadToJson(item).error;
    if "lastPostTime" !in item {
      assert e == MissingAttribute(AttributeOrder[0]);
    } else if "subscribers" !in item {
      assert e == MissingAttribute(AttributeOrder[1]);
    } else if "created" !in item {
      assert e == MissingAttribute(AttributeOrder[2]);
    } else if "headline" !in item {
      assert e == MissingAttribute(AttributeOrder[3]);
    } else if "views" !in item {
      assert e == MissingAttribute(AttributeOrder[4]);
    } else if "replies" !in item {
      assert e == MissingAttribute(AttributeOrder[5]);
    } else {
      assert e == MissingAttribute(AttributeOrder[6]);
    }
  }

  // ---------------------------------------------------------------------
  // Reading the table

  /**
   * Scan the table and decode every item in scan order; the first item
   * that does not decode fails the read.
   */
  method GetItemsFromTable(store: Store, tableName: string) returns (r: Result<seq<Thread>, DecodeError>)
    requires store.Valid() && tableName in store.tables
    ensures exists items :: Enumerates(items, store.tables[tableName]) && r == TryMap(DynamoThreadToJson, items)
  {
    var scanned := store.Scan(tableName);
    r := DecodeItems(DynamoThreadToJson, scanned);
  }

  /**
   * The `for ... of` loop of `getItemsFromTable`: one record per scanned
   * item, in order, each produced by `decode`.
   */
  method DecodeItems(decode: Item -> Result<Thread, DecodeError>, scanned: seq<Item>) returns (r: Result<seq<Thread>, DecodeError>)
    ensures r == TryMap(decode, scanned)
  {
    var threads: seq<Thread> := [];
    for i := 0 to |scanned|
      invariant TryMap(decode, scanned[..i]) == Success(threads)
    {
      var thread := decode(scanned[i]);
      TryMapPrefix(decode, scanned, i);
      if thread.Failure? {
        return Failure(thread.error);
      }
      threads := threads + [thread.value];
    }
    assert scanned[..|scanned|] == scanned;
    r := Success(threads);
  }

  // ---------------------------------------------------------------------
  // Ordering

  /** Largest first by `key`. */
  predicate SortedBy(key: SortKey, ts: seq<Thread>) {
    forall i, j | 0 <= i < j < |ts| :: KeyValue(key, ts[i]) >= KeyValue(key, ts[j])
  }

  /** Exchanges two neighbouring records. */
  method SwapDown(results: array<Thread>, j: nat)
    requires 0 < j < results.Length
    modifies results
    ensures results[..] == old(results[..])[j - 1 := old(results[j])][j := old(results[j - 1])]
    ensures multiset(results[..]) == multiset(old(results[..]))
  {
    results[j - 1], results[j] := results[j], results[j - 1];
  }

  /** Moves `results[i]` towards the front past every record with a smaller key. */
  method InsertAt(key: SortKey, results: array<Thread>, i: nat)
    requires i < results.Length
    requires forall a, b | 0 <= a < b < i :: KeyValue(key, results[a]) >= KeyValue(key, results[b])
    modifies results
    ensures forall a, b | 0 <= a < b <= i :: KeyValue(key, results[a]) >= KeyValue(key, results[b])
    ensures multiset(results[..]) == multiset(old(results[..]))
    ensures results[i + 1..] == old(results[i + 1..])
  {
    var j := i;
    while j > 0 && KeyValue(key, results[j - 1]) < KeyValue(key, results[j])
      invariant 0 <= j <= i
      invariant forall a, b | 0 <= a < b <= i && a != j && b != j :: KeyValue(key, results[a]) >= KeyValue(key, results[b])
      invariant forall b | j < b <= i :: KeyValue(key, results[j]) >= KeyValue(key, results[b])
      invariant multiset(results[..]) == multiset(old(results[..]))
      invariant results[i + 1..] == old(results[i + 1..])
    {
      SwapDown(results, j);
      j := j - 1;
    }
  }

  /**
   * `results.sort` with the comparator that puts the larger key first:
   * the array ends up holding the same records, largest key first. (The
   * engine's own sorting algorithm is not visible; an insertion sort
   * stands in for it.)
   */
  method ApplySortKeyToResults(key: SortKey, results: array<Thread>)
    modifies results
    ensures SortedBy(key, results[..])
    ensures multiset(results[..]) == multiset(old(results[..]))
  {
    for i := 0 to results.Length
      invariant forall a, b | 0 <= a < b < i :: KeyValue(key, results[a]) >= KeyValue(key, results[b])
      invariant multiset(results[..]) == multiset(old(results[..]))
    {
      InsertAt(key, results, i);
    }
  }

  // ---------------------------------------------------------------------
  // The handler

  /** How many records to return: `count`, or the default when it is absent or zero. */
  function Limit(count: Option<int>): (n: nat)
    requires count.None? || count.value >= 0
    ensures n >= 1
    ensures count.Some? && count.value > 0 ==> n == count.value
  {
    if count.None? || count.value == 0 then DefaultHeadlineCount else count.value
  }

  /** `count || 3`: no count, and a count of zero, both give the default. */
  lemma LimitDefault(count: Option<int>)
    requires count.None? || count.value == 0
    ensures Limit(count) == DefaultHeadlineCount
  {
  }

  /** The first `n` elements, or all of them when there are fewer. */
  function Take<T>(s: seq<T>, n: nat): (r: seq<T>)
    ensures |r| == if |s| <= n then |s| else n
    ensures r == s[..|r|]
  {
    if |s| <= n then s else s[..n]
  }

  /** Cutting a sorted sequence keeps the largest: nothing cut ranks above anything kept. */
  lemma TakeKeepsLargest(key: SortKey, sorted: seq<Thread>, n: nat)
    requires SortedBy(key, sorted)
    ensures var top := Take(sorted, n);
            forall t, u | t in multiset(sorted) - multiset(top) && u in top :: KeyValue(key, u) >= KeyValue(key, t)
  {
    var top := Take(sorted, n);
    var rest := sorted[|top|..];
    assert sorted == top + rest;
    forall t, u | t in multiset(sorted) - multiset(top) && u in top
      ensures KeyValue(key, u) >= KeyValue(key, t)
    {
      assert t in multiset(rest);
      var j :| 0 <= j < |rest| && rest[j] == t;
      var i :| 0 <= i < |top| && top[i] == u;
      assert sorted[i] == u && sorted[|top| + j] == t;
    }
  }

  /**
   * `top` holds the `n` records of `threads` with the largest keys (all of
   * them when there are fewer), largest first: nothing left out ranks
   * above anything kept.
   */
  predicate IsTopN(key: SortKey, threads: seq<Thread>, top: seq<Thread>, n: nat) {
    && |top| == (if |threads| <= n then |threads| else n)
    && SortedBy(key, top)
    && multiset(top) <= multiset(threads)
    && forall t, u | t in multiset(threads) - multiset(top) && u in top :: KeyValue(key, u) >= KeyValue(key, t)
  }

  /** What the handler may answer once the scanned items are decoded (or failed to decode). */
  predicate Answers(decoded: Result<seq<Thread>, DecodeError>, key: SortKey, n: nat, r: Result<seq<Thread>, DecodeError>) {
    match decoded
    case Failure(e) => r == Failure(e)
    case Success(threads) => r.Success? && IsTopN(key, threads, r.value, n)
  }

  /** The first `n` of a sorted copy of the records are the top `n`. */
  lemma TakeOfSortedIsTopN(key: SortKey, threads: seq<Thread>, sorted: seq<Thread>, n: nat)
    requires SortedBy(key, sorted) && multiset(sorted) == multiset(threads)
    ensures IsTopN(key, threads, Take(sorted, n), n)
  {
    var top := Take(sorted, n);
    assert |sorted| == |multiset(sorted)| == |threads|;
    assert sorted == top + sorted[|top|..];
    assert multiset(top) <= multiset(sorted);
    TakeKeepsLargest(key, sorted, n);
  }

  /**
   * Read the selected table, order it by the selected key and return the
   * first `count` records (three by default).
   */
  method Handler(store: Store, event: Event, sensationalistTableName: string, polidicksTableName: string)
    returns (r: Result<seq<Thread>, DecodeError>)
    requires store.Valid()
    requires sensationalistTableName in store.tables && polidicksTableName in store.tables
    requires event.count.None? || event.count.value >= 0
    ensures var table := store.tables[GetTargetTable(event.eventType, sensationalistTableName, polidicksTableName)];
            exists items :: && Enumerates(items, table)
                            && Answers(TryMap(DynamoThreadToJson, items), GetSortKey(event.sortKey), Limit(event.count), r)
  {
    var tableName := GetTargetTable(event.eventType, sensationalistTableName, polidicksTableName);
    var decoded := GetItemsFromTable(store, tableName);
    ghost var scanned :| Enumerates(scanned, store.tables[tableName]) && decoded == TryMap(DynamoThreadToJson, scanned);
    if decoded.Failure? {
      return Failure(decoded.error);
    }
    var top := SortAndTruncate(GetSortKey(event.sortKey), decoded.value, Limit(event.count));
    r := Success(top);
  }

  /**
   * The sort and the `pop` loop of the handler, on the decoded records:
   * sort them in place by `key`, then drop the last one until at most
   * `limit` remain.
   */
  method SortAndTruncate(key: SortKey, threads: seq<Thread>, limit: nat) returns (items: seq<Thread>)
    ensures IsTopN(key, threads, items, limit)
  {
    var results := new Thread[|threads|](i requires 0 <= i < |threads| => threads[i]);
    assert results[..] == threads;
    ApplySortKeyToResults(key, results);
    var sorted := results[..];
    items := sorted;
    while |items| > limit
      invariant items == sorted[..|items|]
      invariant |sorted| > limit ==> |items| >= limit
      invariant |sorted| <= limit ==> items == sorted
      decreases |items|
    {
      items := items[..|items| - 1];
    }
    assert items == Take(sorted, limit);
    TakeOfSortedIsTopN(key, threads, sorted, limit);
  }
}
