/** Insert-if-absent on maps: Kotlin's `MutableMap.getOrPut` and Xodus's
    `Store.add` on a store without duplicates, and seeding a store with the
    configured keys by repeating it. */
module MapOps {

  /** `m.getOrPut(k) { v }`: binds `k` to `v` only when `k` has no value yet;
      an existing binding is kept. */
  function GetOrPut<K, V>(m: map<K, V>, k: K, v: V): (r: map<K, V>)
    ensures k in r && r[k] == (if k in m then m[k] else v)
    ensures r.Keys == m.Keys + {k}
    ensures forall j | j in m :: r[j] == m[j]
  {
    if k in m then m else m[k := v]
  }

  /** The store after giving each of `names`, in order, the value `blank`
      without overwriting anything. */
  function Seed<V>(m: map<string, V>, names: seq<string>, blank: V): (r: map<string, V>)
    ensures r.Keys == m.Keys + set n | n in names
    ensures forall k | k in m :: r[k] == m[k]
    ensures forall k | k in r && k !in m :: r[k] == blank
    decreases |names|
  {
    if names == [] then m else Seed(GetOrPut(m, names[0], blank), names[1..], blank)
  }

  /** Seeding twice with the same names leaves the same store as seeding once. */
  lemma SeedIdempotent<V>(m: map<string, V>, names: seq<string>, blank: V)
    ensures Seed(Seed(m, names, blank), names, blank) == Seed(m, names, blank)
  {
    var once := Seed(m, names, blank);
    var twice := Seed(once, names, blank);
    assert twice.Keys == once.Keys;
  }

  /** Seeding commutes with adding one more name at the end: the loop over
      the configured names may stop after any prefix and continue later. */
  lemma {:induction false} SeedSnoc<V>(m: map<string, V>, names: seq<string>, n: string, blank: V)
    ensures Seed(m, names + [n], blank) == GetOrPut(Seed(m, names, blank), n, blank)
    decreases |names|
  {
    if names == [] {
      assert names + [n] == [n];
    } else {
      assert (names + [n])[1..] == names[1..] + [n];
      SeedSnoc(GetOrPut(m, names[0], blank), names[1..], n, blank);
    }
  }
}
