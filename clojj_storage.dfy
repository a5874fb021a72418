/** `Storage` of the `com.github.clojj` variant: the "Schalter" store of an
    Xodus environment, seeded at start-up with the configured item names and
    listed in key order. Each `executeInTransaction` block reads the store
    into a transaction, works on that copy and commits it with one
    assignment, so no other reader sees it half done. */
module ClojjStorage {
  import opened MapOps
  import opened Listing
  import opened KeyOrder

  /** The store holds values of type `V`; the configuration seeds `empty`. */
  class Storage<V> {
    /** The "Schalter" store, opened WITHOUT_DUPLICATES: one value per key. */
    var entries: map<string, V>
    /** The names of `config.configItems`, in configuration order. */
    const configItems: seq<string>

    /** Opens the environment, which may already hold entries from an
        earlier run. */
    constructor (configItems: seq<string>, existing: map<string, V>)
      ensures this.configItems == configItems && entries == existing
    {
      this.configItems := configItems;
      entries := existing;
    }

    /** `init()`: in one transaction, `add` every configured name with the
        empty value; `add` leaves a key that already exists alone. */
    method Init(empty: V)
      modifies this
      ensures entries == Seed(old(entries), configItems, empty)
    {
      var txn := entries;
      ghost var before := entries;
      var i := 0;
      assert configItems[..0] == [];
      while i < |configItems|
        invariant 0 <= i <= |configItems|
        invariant txn == Seed(before, configItems[..i], empty)
      {
        assert configItems[..i + 1] == configItems[..i] + [configItems[i]];
        SeedSnoc(before, configItems[..i], configItems[i], empty);
        txn := GetOrPut(txn, configItems[i], empty);
        i := i + 1;
      }
      assert configItems[..i] == configItems;
      entries := txn;
    }

    /** `store(key, value)`: one transaction that overwrites `key`. */
    method Store(key: string, value: V)
      modifies this
      ensures entries == old(entries)[key := value]
    {
      entries := entries[key := value];
    }

    /** `allItems()`: a cursor pass in one transaction, then `sortedBy` on
        the key. Every key appears once, with its value, in key order. */
    method AllItems() returns (items: seq<ItemAndName<V>>)
      ensures Lists(items, entries) && Sorted(items)
    {
      var scanned := ScanCursor(entries);
      items := SortByItem(scanned);
      SortedListing(scanned, entries);
    }
  }
}
