/** Ordering listings by key: Kotlin's `String.compareTo` and the stable
    `sortedBy { it.item }` applied to the rows of a listing. */
module KeyOrder {
  import opened Listing

  /** `a.compareTo(b) <= 0` for Kotlin strings: the first differing character
      decides, and a proper prefix comes first. */
  predicate LexLe(a: string, b: string): (r: bool)
    ensures a <= b ==> r
    ensures |a| > 0 && |b| > 0 && a[0] < b[0] ==> r
    ensures |a| > 0 && |b| > 0 && a[0] > b[0] ==> !r
    ensures |a| > 0 && |b| == 0 ==> !r
    decreases |a|
  {
    |a| == 0 || (|b| != 0 && (a[0] < b[0] || (a[0] == b[0] && LexLe(a[1..], b[1..]))))
  }

  /** Past a common prefix, the first differing character decides. */
  lemma {:induction false} LexLeFirstDifference(a: string, b: string, i: nat)
    requires i < |a| && i < |b| && a[..i] == b[..i] && a[i] != b[i]
    ensures LexLe(a, b) <==> a[i] < b[i]
    decreases i
  {
    if i > 0 {
      assert a[0] == a[..i][0] == b[..i][0] == b[0];
      assert a[1..][..i - 1] == a[..i][1..] == b[..i][1..] == b[1..][..i - 1];
      LexLeFirstDifference(a[1..], b[1..], i - 1);
    }
  }

  /** A key that properly extends another comes after it. */
  lemma {:induction false} LexLeLongerAfterPrefix(a: string, b: string)
    requires b < a
    ensures !LexLe(a, b)
    decreases |b|
  {
    if |b| > 0 {
      assert a[0] == b[0];
      assert b[1..] < a[1..];
      LexLeLongerAfterPrefix(a[1..], b[1..]);
    }
  }

  lemma {:induction false} LexLeReflexive(a: string)
    ensures LexLe(a, a)
    decreases |a|
  {
    if |a| > 0 {
      LexLeReflexive(a[1..]);
    }
  }

  lemma {:induction false} LexLeTotal(a: string, b: string)
    ensures LexLe(a, b) || LexLe(b, a)
    decreases |a|
  {
    if |a| > 0 && |b| > 0 && a[0] == b[0] {
      LexLeTotal(a[1..], b[1..]);
    }
  }

  lemma {:induction false} LexLeAntisymmetric(a: string, b: string)
    requires LexLe(a, b) && LexLe(b, a)
    ensures a == b
    decreases |a|
  {
    if |a| > 0 && |b| > 0 {
      LexLeAntisymmetric(a[1..], b[1..]);
      assert a == [a[0]] + a[1..] && b == [b[0]] + b[1..];
    }
  }

  lemma {:induction false} LexLeTransitive(a: string, b: string, c: string)
    requires LexLe(a, b) && LexLe(b, c)
    ensures LexLe(a, c)
    decreases |a|
  {
    if |a| > 0 && |b| > 0 && |c| > 0 && a[0] == b[0] && b[0] == c[0] {
      LexLeTransitive(a[1..], b[1..], c[1..]);
    }
  }

  /** Rows in non-decreasing key order. */
  ghost predicate Sorted<V>(r: seq<ItemAndName<V>>)
  {
    forall i, j | 0 <= i < j < |r| :: LexLe(r[i].item, r[j].item)
  }

  /** Puts `x` in front of the first row whose key is not smaller than its own. */
  function Insert<V>(x: ItemAndName<V>, r: seq<ItemAndName<V>>): (s: seq<ItemAndName<V>>)
    ensures multiset(s) == multiset(r) + multiset{x}
    ensures |s| == |r| + 1
  {
    if r == [] then [x]
    else if LexLe(x.item, r[0].item) then [x] + r
    else
      assert r == [r[0]] + r[1..];
      [r[0]] + Insert(x, r[1..])
  }

  /** `rows.sortedBy { it.item }`, as an insertion sort. */
  function SortByItem<V>(r: seq<ItemAndName<V>>): (s: seq<ItemAndName<V>>)
    ensures multiset(s) == multiset(r)
    ensures |s| == |r|
  {
    if r == [] then []
    else
      assert r == [r[0]] + r[1..];
      Insert(r[0], SortByItem(r[1..]))
  }

  lemma {:induction false} InsertSorted<V>(x: ItemAndName<V>, r: seq<ItemAndName<V>>)
    requires Sorted(r)
    ensures Sorted(Insert(x, r))
  {
    if r == [] {
    } else if LexLe(x.item, r[0].item) {
      forall j | 0 <= j < |r| ensures LexLe(x.item, r[j].item) {
        if j > 0 {
          LexLeTransitive(x.item, r[0].item, r[j].item);
        }
      }
    } else {
      var t := Insert(x, r[1..]);
      InsertSorted(x, r[1..]);
      forall j | 0 <= j < |t| ensures LexLe(r[0].item, t[j].item) {
        assert t[j] in multiset(t);
        if t[j] == x {
          LexLeTotal(x.item, r[0].item);
        } else {
          assert t[j] in multiset(r[1..]);
          var k :| 0 <= k < |r[1..]| && r[1..][k] == t[j];
          assert r[k + 1] == t[j];
        }
      }
    }
  }

  /** The result of `sortedBy` is in key order. */
  lemma {:induction false} SortByItemSorted<V>(r: seq<ItemAndName<V>>)
    ensures Sorted(SortByItem(r))
  {
    if r != [] {
      SortByItemSorted(r[1..]);
      InsertSorted(r[0], SortByItem(r[1..]));
    }
  }

  /** Rearranging rows keeps the set of keys they carry. */
  lemma ItemsOfPermutation<V>(a: seq<ItemAndName<V>>, b: seq<ItemAndName<V>>)
    requires multiset(a) == multiset(b)
    ensures ItemsOf(a) == ItemsOf(b)
  {
    forall k | k in ItemsOf(a) ensures k in ItemsOf(b) {
      var i :| 0 <= i < |a| && a[i].item == k;
      assert a[i] in multiset(b);
      var j :| 0 <= j < |b| && b[j] == a[i];
    }
    forall k | k in ItemsOf(b) ensures k in ItemsOf(a) {
      var j :| 0 <= j < |b| && b[j].item == k;
      assert b[j] in multiset(a);
      var i :| 0 <= i < |a| && a[i] == b[j];
    }
  }

  lemma {:induction false} InsertDistinct<V>(x: ItemAndName<V>, r: seq<ItemAndName<V>>)
    requires DistinctItems(r) && x.item !in ItemsOf(r)
    ensures DistinctItems(Insert(x, r))
  {
    if r == [] {
    } else if LexLe(x.item, r[0].item) {
      var s := [x] + r;
      forall i, j | 0 <= i < j < |s| ensures s[i].item != s[j].item {
        if i == 0 {
          assert s[j] == r[j - 1];
        } else {
          assert s[i] == r[i - 1] && s[j] == r[j - 1];
        }
      }
    } else {
      var t := Insert(x, r[1..]);
      assert x.item !in ItemsOf(r[1..]) by {
        forall i | 0 <= i < |r[1..]| ensures r[1..][i].item != x.item {
          assert r[1..][i] == r[i + 1];
        }
      }
      InsertDistinct(x, r[1..]);
      var s := [r[0]] + t;
      forall i, j | 0 <= i < j < |s| ensures s[i].item != s[j].item {
        if i == 0 {
          assert s[j] == t[j - 1];
          assert t[j - 1] in multiset(t);
          if t[j - 1] != x {
            assert t[j - 1] in multiset(r[1..]);
            var k :| 0 <= k < |r[1..]| && r[1..][k] == t[j - 1];
            assert r[k + 1] == t[j - 1];
          }
        } else {
          assert s[i] == t[i - 1] && s[j] == t[j - 1];
        }
      }
    }
  }

  lemma {:induction false} SortByItemDistinct<V>(r: seq<ItemAndName<V>>)
    requires DistinctItems(r)
    ensures DistinctItems(SortByItem(r))
  {
    if r != [] {
      var rest := SortByItem(r[1..]);
      SortByItemDistinct(r[1..]);
      ItemsOfPermutation(rest, r[1..]);
      assert r[0].item !in ItemsOf(r[1..]) by {
        forall i | 0 <= i < |r[1..]| ensures r[1..][i].item != r[0].item {
          assert r[1..][i] == r[i + 1];
        }
      }
      InsertDistinct(r[0], rest);
    }
  }

  /** Sorting a listing of a store gives a listing of the same store, now in
      key order: still every key once with its value. */
  lemma SortedListing<V>(r: seq<ItemAndName<V>>, m: map<string, V>)
    requires Lists(r, m)
    ensures Lists(SortByItem(r), m) && Sorted(SortByItem(r))
  {
    var s := SortByItem(r);
    SortByItemSorted(r);
    SortByItemDistinct(r);
    ItemsOfPermutation(s, r);
    forall i | 0 <= i < |s| ensures s[i].item in m && m[s[i].item] == s[i].name {
      assert s[i] in multiset(r);
      var j :| 0 <= j < |r| && r[j] == s[i];
    }
  }

  /** Dropping the first row of a listing lists the store without its key. */
  lemma ListsTail<V>(a: seq<ItemAndName<V>>, m: map<string, V>)
    requires Lists(a, m) && a != []
    ensures Lists(a[1..], m - {a[0].item})
  {
    var m' := m - {a[0].item};
    forall x | x in ItemsOf(a[1..]) ensures x in m'.Keys {
      var p :| 0 <= p < |a[1..]| && a[1..][p].item == x;
      assert a[p + 1].item == x;
    }
    forall x | x in m'.Keys ensures x in ItemsOf(a[1..]) {
      var p :| 0 <= p < |a| && a[p].item == x;
      assert a[1..][p - 1].item == x;
    }
  }

  /** In a key-ordered listing the first row holds the smallest key. */
  lemma FirstIsLeast<V>(a: seq<ItemAndName<V>>, m: map<string, V>, k: string)
    requires Lists(a, m) && Sorted(a) && k in m
    ensures a != [] && LexLe(a[0].item, k)
  {
    assert k in ItemsOf(a);
    var i :| 0 <= i < |a| && a[i].item == k;
    if i == 0 {
      LexLeReflexive(k);
    }
  }

  /** Two key-ordered listings of one non-empty store open with the same row. */
  lemma SameFirstRow<V>(a: seq<ItemAndName<V>>, b: seq<ItemAndName<V>>, m: map<string, V>)
    requires Lists(a, m) && Sorted(a) && a != []
    requires Lists(b, m) && Sorted(b)
    ensures b != [] && a[0] == b[0]
  {
    var k := a[0].item;
    assert k in ItemsOf(a);
    FirstIsLeast(b, m, k);
    FirstIsLeast(a, m, b[0].item);
    LexLeAntisymmetric(k, b[0].item);
  }

  lemma SortedTail<V>(a: seq<ItemAndName<V>>)
    requires Sorted(a) && a != []
    ensures Sorted(a[1..])
  {
    forall i, j | 0 <= i < j < |a[1..]| ensures LexLe(a[1..][i].item, a[1..][j].item) {
      assert a[1..][i] == a[i + 1] && a[1..][j] == a[j + 1];
    }
  }

  /** Two key-ordered listings of the same store are the same sequence: the
      sorted result does not depend on the order the cursor visited keys in. */
  lemma {:induction false} SortedListingUnique<V>(a: seq<ItemAndName<V>>, b: seq<ItemAndName<V>>, m: map<string, V>)
    requires Lists(a, m) && Sorted(a)
    requires Lists(b, m) && Sorted(b)
    ensures a == b
    decreases |a|
  {
    if a != [] {
      SameFirstRow(a, b, m);
      ListsTail(a, m);
      ListsTail(b, m);
      SortedTail(a);
      SortedTail(b);
      SortedListingUnique(a[1..], b[1..], m - {a[0].item});
      assert a == [a[0]] + a[1..] && b == [b[0]] + b[1..];
    } else if b != [] {
      SameFirstRow(b, a, m);
    }
  }
}
