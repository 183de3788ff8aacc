/**
 * The key-value store both paths share, reduced to what they use: items
 * as attribute maps, batch write requests, and a store of named tables
 * keyed by the `headline` attribute. Store calls always succeed here;
 * a batch's requests take effect in order and batches in issue order.
 */
module Dynamo {
  import Batching

  /** A typed attribute: `{S: "..."}` for strings, `{N: "..."}` for numbers in decimal text. */
  datatype AttributeValue = S(s: string) | N(n: string)

  type Item = map<string, AttributeValue>

  /** The tables' primary key attribute. */
  const HashKey: string := "headline"

  predicate HasKey(item: Item) {
    HashKey in item && item[HashKey].S?
  }

  function KeyOf(item: Item): string
    requires HasKey(item)
  {
    item[HashKey].s
  }

  predicate AllKeyed(items: seq<Item>) {
    forall i | 0 <= i < |items| :: HasKey(items[i])
  }

  /** The primary keys of `items`, in order. */
  function KeysOf(items: seq<Item>): (ks: seq<string>)
    requires AllKeyed(items)
    ensures |ks| == |items| && forall i | 0 <= i < |items| :: ks[i] == KeyOf(items[i])
  {
    seq(|items|, i requires 0 <= i < |items| && AllKeyed(items) => KeyOf(items[i]))
  }

  /** One more item adds its key at the end. */
  lemma KeysOfPush(items: seq<Item>, x: Item)
    requires AllKeyed(items) && HasKey(x)
    ensures AllKeyed(items + [x]) && KeysOf(items + [x]) == KeysOf(items) + [KeyOf(x)]
  {
  }

  predicate DistinctKeys(items: seq<Item>)
    requires AllKeyed(items)
  {
    forall i, j | 0 <= i < j < |items| :: KeyOf(items[i]) != KeyOf(items[j])
  }

  /** One entry of a batch write. */
  datatype WriteRequest = PutRequest(item: Item) | DeleteRequest(key: string)

  /** A request the store accepts: an item to put must carry its primary key. */
  type KeyedRequest = r: WriteRequest | r.PutRequest? ==> HasKey(r.item) witness DeleteRequest("")

  /** A table's contents: items by primary key. */
  type Table = map<string, Item>

  predicate ValidTable(t: Table) {
    forall k | k in t :: HasKey(t[k]) && KeyOf(t[k]) == k
  }

  /** The effect of one write: a put stores under the item's key, replacing any item there. */
  function Apply(t: Table, r: KeyedRequest): Table {
    match r
    case PutRequest(item) => t[KeyOf(item) := item]
    case DeleteRequest(key) => t - {key}
  }

  /** The effect of a sequence of writes applied in order. */
  function ApplyAll(t: Table, rs: seq<KeyedRequest>): Table {
    if rs == [] then t else Apply(ApplyAll(t, rs[..|rs| - 1]), rs[|rs| - 1])
  }

  lemma {:induction false} ApplyAllAppend(t: Table, a: seq<KeyedRequest>, b: seq<KeyedRequest>)
    ensures ApplyAll(t, a + b) == ApplyAll(ApplyAll(t, a), b)
    decreases |b|
  {
    if b == [] {
      assert a + b == a;
    } else {
      assert (a + b)[..|a + b| - 1] == a + b[..|b| - 1];
      ApplyAllAppend(t, a, b[..|b| - 1]);
    }
  }

  lemma {:induction false} ApplyAllValid(t: Table, rs: seq<KeyedRequest>)
    requires ValidTable(t)
    ensures ValidTable(ApplyAll(t, rs))
    decreases |rs|
  {
    if rs != [] {
      ApplyAllValid(t, rs[..|rs| - 1]);
    }
  }

  /** Delete requests for `keys`, in order. */
  function Deletes(keys: seq<string>): (rs: seq<KeyedRequest>)
    ensures |rs| == |keys|
    ensures forall i | 0 <= i < |keys| :: rs[i] == DeleteRequest(keys[i])
  {
    seq(|keys|, i requires 0 <= i < |keys| => DeleteRequest(keys[i]))
  }

  /** Deleting a list of keys removes exactly those keys and leaves the other items alone. */
  lemma {:induction false} ApplyDeletes(t: Table, keys: seq<string>)
    ensures forall k :: k in ApplyAll(t, Deletes(keys)) <==> k in t && k !in keys
    ensures forall k | k in ApplyAll(t, Deletes(keys)) :: ApplyAll(t, Deletes(keys))[k] == t[k]
    decreases |keys|
  {
    if keys != [] {
      var init := keys[..|keys| - 1];
      assert Deletes(keys)[..|keys| - 1] == Deletes(init);
      ApplyDeletes(t, init);
      forall k ensures k in keys <==> k in init || k == keys[|keys| - 1] {
        assert keys == init + [keys[|keys| - 1]];
      }
    }
  }

  /** Put requests for `items`, in order. */
  function Puts(items: seq<Item>): (rs: seq<KeyedRequest>)
    requires AllKeyed(items)
    ensures |rs| == |items|
    ensures forall i | 0 <= i < |items| :: rs[i] == PutRequest(items[i])
  {
    seq(|items|, i requires 0 <= i < |items| => PutRequest(items[i]))
  }

  /**
   * Putting a list of items in order: the table gains exactly their keys,
   * and a key holds the last item put under it.
   */
  lemma {:induction false} ApplyPuts(t: Table, items: seq<Item>)
    requires AllKeyed(items)
    ensures forall k :: k in ApplyAll(t, Puts(items)) <==> k in t || k in KeysOf(items)
    ensures forall i | 0 <= i < |items| && (forall j | i < j < |items| :: KeyOf(items[j]) != KeyOf(items[i])) ::
              && KeyOf(items[i]) in ApplyAll(t, Puts(items))
              && ApplyAll(t, Puts(items))[KeyOf(items[i])] == items[i]
    ensures forall k | k in t && k !in KeysOf(items) :: k in ApplyAll(t, Puts(items)) && ApplyAll(t, Puts(items))[k] == t[k]
    decreases |items|
  {
    if items != [] {
      var n := |items| - 1;
      var init := items[..n];
      assert Puts(items)[..n] == Puts(init);
      ApplyPuts(t, init);
      assert KeysOf(items) == KeysOf(init) + [KeyOf(items[n])];
    }
  }

  /** Puts into an empty table leave only items that were put. */
  lemma {:induction false} PutsFromEmpty(items: seq<Item>)
    requires AllKeyed(items)
    ensures forall k | k in ApplyAll(map[], Puts(items)) :: ApplyAll(map[], Puts(items))[k] in items
  {
    if items != [] {
      var n := |items| - 1;
      var init := items[..n];
      assert Puts(items)[..n] == Puts(init);
      PutsFromEmpty(init);
      assert forall x | x in init :: x in items;
    }
  }

  /** `items` lists every item of `t` exactly once. */
  predicate Enumerates(items: seq<Item>, t: Table) {
    && AllKeyed(items)
    && DistinctKeys(items)
    && (forall i | 0 <= i < |items| :: KeyOf(items[i]) in t && t[KeyOf(items[i])] == items[i])
    && (forall k | k in t :: k in KeysOf(items))
  }

  /**
   * Part way through a scan: `rest` is what is still to be returned and
   * `items` what has been, each item of `t` in exactly one of the two.
   */
  ghost predicate ScanProgress(t: Table, rest: Table, items: seq<Item>) {
    && ValidTable(t)
    && (forall k | k in rest :: k in t && rest[k] == t[k])
    && AllKeyed(items) && DistinctKeys(items)
    && (forall i | 0 <= i < |items| :: KeyOf(items[i]) in t && KeyOf(items[i]) !in rest && t[KeyOf(items[i])] == items[i])
    && (forall k :: k in t <==> k in rest || k in KeysOf(items))
  }

  /** Returning one more item of `rest` keeps the scan's bookkeeping. */
  lemma ScanStep(t: Table, rest: Table, items: seq<Item>, k: string)
    requires ScanProgress(t, rest, items) && k in rest
    ensures ScanProgress(t, rest - {k}, items + [rest[k]])
  {
    KeysOfPush(items, rest[k]);
  }

  /** The persistent store: tables by name. */
  class Store {
    var tables: map<string, Table>

    ghost predicate Valid()
      reads this
    {
      forall name | name in tables :: ValidTable(tables[name])
    }

    constructor (initial: map<string, Table>)
      requires forall name | name in initial :: ValidTable(initial[name])
      ensures Valid() && tables == initial
    {
      tables := initial;
    }

    /** A full scan: every item of the table once, in some order the store picks. */
    method Scan(name: string) returns (items: seq<Item>)
      requires Valid() && name in tables
      ensures Enumerates(items, tables[name])
    {
      var t := tables[name];
      var rest := t;
      items := [];
      while rest != map[]
        invariant ScanProgress(t, rest, items)
        decreases |rest|
      {
        assert rest.Keys != {};
        var k :| k in rest;
        ScanStep(t, rest, items, k);
        items := items + [rest[k]];
        rest := rest - {k};
      }
    }

    /** One `batchWriteItem` call against table `name`. */
    method BatchWriteItem(name: string, requests: seq<KeyedRequest>)
      requires Valid() && name in tables
      modifies this
      ensures Valid()
      ensures tables == old(tables)[name := ApplyAll(old(tables)[name], requests)]
    {
      ApplyAllValid(tables[name], requests);
      tables := tables[name := ApplyAll(tables[name], requests)];
    }

    /** Every batch of a fan-out, each issued as one `batchWriteItem` call. */
    method BatchWriteAll(name: string, batches: seq<seq<KeyedRequest>>)
      requires Valid() && name in tables
      modifies this
      ensures Valid()
      ensures tables == old(tables)[name := ApplyAll(old(tables)[name], Batching.Flatten(batches))]
    {
      ghost var t0 := tables[name];
      for i := 0 to |batches|
        invariant Valid() && name in tables
        invariant tables == old(tables)[name := ApplyAll(t0, Batching.Flatten(batches[..i]))]
      {
        assert batches[..i + 1][..i] == batches[..i];
        assert Batching.Flatten(batches[..i + 1]) == Batching.Flatten(batches[..i]) + batches[i];
        BatchWriteItem(name, batches[i]);
        ApplyAllAppend(t0, Batching.Flatten(batches[..i]), batches[i]);
      }
      assert batches[..|batches|] == batches;
    }
  }
}
