/** Listings of a key-value store: `ItemAndName` rows and the cursor scan that
    both `Storage.allItems` variants run over the "Schalter" store. */
module Listing {

  /** One row of a listing: a store key and the value stored under it. */
  datatype ItemAndName<V> = ItemAndName(item: string, name: V)

  function ItemsOf<V>(r: seq<ItemAndName<V>>): set<string>
  {
    set i | 0 <= i < |r| :: r[i].item
  }

  lemma ItemsOfSnoc<V>(r: seq<ItemAndName<V>>, x: ItemAndName<V>)
    ensures ItemsOf(r + [x]) == ItemsOf(r) + {x.item}
  {
    var s := r + [x];
    assert s[|r|] == x;
    forall k | k in ItemsOf(r) ensures k in ItemsOf(s) {
      var i :| 0 <= i < |r| && r[i].item == k;
      assert s[i] == r[i];
    }
  }

  ghost predicate DistinctItems<V>(r: seq<ItemAndName<V>>)
  {
    forall i, j | 0 <= i < j < |r| :: r[i].item != r[j].item
  }

  /** `r` lists store `m`: every key once, each with its current value. */
  ghost predicate Lists<V>(r: seq<ItemAndName<V>>, m: map<string, V>)
  {
    && DistinctItems(r)
    && ItemsOf(r) == m.Keys
    && forall i | 0 <= i < |r| :: r[i].item in m && m[r[i].item] == r[i].name
  }

  /** A listing has exactly one row per key of the store. */
  lemma {:induction false} ListsLength<V>(r: seq<ItemAndName<V>>, m: map<string, V>)
    requires Lists(r, m)
    ensures |r| == |m|
  {
    DistinctItemsCount(r);
  }

  lemma {:induction false} DistinctItemsCount<V>(r: seq<ItemAndName<V>>)
    requires DistinctItems(r)
    ensures |ItemsOf(r)| == |r|
  {
    if r != [] {
      var front := r[..|r| - 1];
      var last := r[|r| - 1];
      assert DistinctItems(front);
      DistinctItemsCount(front);
      assert r == front + [last];
      ItemsOfSnoc(front, last);
      assert last.item !in ItemsOf(front) by {
        forall i | 0 <= i < |front| ensures front[i].item != last.item {
          assert front[i] == r[i];
        }
      }
    }
  }

  /** A full cursor pass over the store inside one read transaction: the
      cursor visits every key once, in an order this model leaves open, and
      each visit appends the key and its value. The store is not changed. */
  method ScanCursor<V>(m: map<string, V>) returns (items: seq<ItemAndName<V>>)
    ensures Lists(items, m)
  {
    items := [];
    var unvisited := m.Keys;
    while unvisited != {}
      invariant unvisited <= m.Keys
      invariant DistinctItems(items)
      invariant ItemsOf(items) == m.Keys - unvisited
      invariant forall i | 0 <= i < |items| :: items[i].item in m && m[items[i].item] == items[i].name
      decreases unvisited
    {
      var key :| key in unvisited;
      var row := ItemAndName(key, m[key]);
      ItemsOfSnoc(items, row);
      items := items + [row];
      unvisited := unvisited - {key};
    }
  }
}
