/** `Storage` of the `codemwnci.bootsocket` variant: the "Schalter" store of
    an Xodus environment, seeded at start-up with the value "EMPTY" for every
    configured key it lacks, and listed in cursor order. A transaction is a
    copy of the store that is committed with one assignment, or dropped when
    the block throws. */
module BootsocketStorage {
  import opened Jvm
  import opened MapOps
  import opened Listing

  /** The value `initKey` gives a configured key the store lacks. */
  const Empty: string := "EMPTY"

  /** The first byte of `StringBinding.stringToEntry(s)`: characters
      1..0x7F are one byte, 0 and 0x80..0x7FF two bytes led by 0xC0..0xDF,
      the rest of the basic plane three bytes led by 0xE0..0xEF (a character
      beyond it starts with a high surrogate, led by 0xED); the empty string
      is the terminating 0 alone. */
  function EntryLeadByte(s: string): (r: int)
    ensures s == [] ==> r == 0
    ensures s != [] ==> 1 <= r <= 0x7F || 0xC0 <= r <= 0xEF
    ensures s != [] && 1 <= s[0] as int <= 0x7F ==> r == s[0] as int
    ensures s != [] && !(1 <= s[0] as int <= 0x7F) ==> 0xC0 <= r
  {
    if s == [] then 0
    else
      var u := s[0] as int;
      if 1 <= u <= 0x7F then u
      else if u <= 0x7FF then 0xC0 + u / 0x40
      else if u <= 0xFFFF then 0xE0 + u / 0x1000
      else 0xED
  }

  /** Whether the stored bytes open with the Java serialization stream
      header 0xAC 0xED, the first thing `ObjectInputStream` checks. */
  predicate IsJavaStream(s: string): (r: bool)
    ensures r ==> s != [] && 0x80 <= s[0] as int
  {
    EntryLeadByte(s) == 0xAC
  }

  /** A value written through `StringBinding` is never a Java serialization
      stream, so `SerializationUtils.deserialize` rejects it. */
  lemma StringEntryIsNotJavaStream(s: string)
    ensures !IsJavaStream(s)
  {
  }

  /** `initKey` as written: `deserialize(store.get(key)?.bytesUnsafe)`, then
      `put(key, "EMPTY")` when that is null. A missing key reads as null; a
      present key's bytes make `deserialize` throw IllegalArgumentException. */
  function InitKeyAsWritten(txn: map<string, string>, key: string): (r: Result<map<string, string>>)
    ensures key !in txn ==> r == Ok(txn[key := Empty])
    ensures key in txn ==> r == Err(IllegalArgument)
  {
    if key !in txn then Ok(txn[key := Empty])
    else if IsJavaStream(txn[key]) then Ok(txn)
    else Err(IllegalArgument)
  }

  /** The names of the configured keys are all new to `m` and pairwise
      different. */
  ghost predicate AllFresh(m: map<string, string>, keys: seq<string>)
  {
    && (forall i | 0 <= i < |keys| :: keys[i] !in m)
    && (forall i, j | 0 <= i < j < |keys| :: keys[i] != keys[j])
  }

  /** `init()` as written: one transaction running `initKey` for every
      configured key; the first exception aborts it and escapes. It commits
      exactly when every key is new, and then seeds them all. */
  function InitAsWritten(m: map<string, string>, keys: seq<string>): (r: Result<map<string, string>>)
    ensures r.Ok? <==> AllFresh(m, keys)
    ensures r.Ok? ==> r.value == Seed(m, keys, Empty)
    ensures r.Err? ==> r.exception == IllegalArgument
    decreases |keys|
  {
    if keys == [] then Ok(m)
    else
      match InitKeyAsWritten(m, keys[0])
      case Err(e) => Err(e)
      case Ok(next) =>
        assert AllFresh(next, keys[1..]) ==> AllFresh(m, keys) by {
          if AllFresh(next, keys[1..]) {
            forall i, j | 0 <= i < j < |keys| ensures keys[i] != keys[j] {
              if i > 0 {
                assert keys[i] == keys[1..][i - 1] && keys[j] == keys[1..][j - 1];
              } else {
                assert keys[j] == keys[1..][j - 1];
              }
            }
            forall i | 0 <= i < |keys| ensures keys[i] !in m {
              if i > 0 {
                assert keys[i] == keys[1..][i - 1];
              }
            }
          }
        }
        assert AllFresh(m, keys) ==> AllFresh(next, keys[1..]) by {
          if AllFresh(m, keys) {
            forall i | 0 <= i < |keys[1..]| ensures keys[1..][i] !in next {
              assert keys[1..][i] == keys[i + 1];
            }
            forall i, j | 0 <= i < j < |keys[1..]| ensures keys[1..][i] != keys[1..][j] {
              assert keys[1..][i] == keys[i + 1] && keys[1..][j] == keys[j + 1];
            }
          }
        }
        InitAsWritten(next, keys[1..])
  }

  /** The store a restart finds: "a" was seeded on the first run. With keys
      "a" and "b" configured, `init` as written throws and "b" is never
      seeded, while the intended seeding adds "b" and keeps "a". */
  lemma InitAsWrittenFailsOnRestart()
    ensures InitAsWritten(map["a" := Empty], ["a", "b"]) == Err(IllegalArgument)
    ensures Seed(map["a" := Empty], ["a", "b"], Empty) == map["a" := Empty, "b" := Empty]
  {
    var keys := ["a", "b"];
    assert keys[0] in map["a" := Empty];
    var seeded := Seed(map["a" := Empty], keys, Empty);
    assert "b" in keys;
    assert seeded.Keys == {"a", "b"};
  }

  /** On a first start (every key new and listed once) the code as written
      and the intended seeding commit the same store. */
  lemma InitAsWrittenAgreesOnFirstStart(m: map<string, string>, keys: seq<string>)
    requires AllFresh(m, keys)
    ensures InitAsWritten(m, keys) == Ok(Seed(m, keys, Empty))
  {
  }

  /** `initKey` as intended: a key already present is left alone, a missing
      key gets "EMPTY". */
  function InitKey(txn: map<string, string>, key: string): (r: map<string, string>)
    ensures key in r && r.Keys == txn.Keys + {key}
    ensures key in txn ==> r == txn
    ensures key !in txn ==> r[key] == Empty
    ensures forall k | k in txn :: r[k] == txn[k]
  {
    GetOrPut(txn, key, Empty)
  }

  class Storage {
    /** The "Schalter" store, opened WITHOUT_DUPLICATES: one value per key. */
    var entries: map<string, string>
    /** The names of `config.items`, in configuration order. */
    const items: seq<string>

    /** Opens the environment, which may already hold entries from an
        earlier run. */
    constructor (items: seq<string>, existing: map<string, string>)
      ensures this.items == items && entries == existing
    {
      this.items := items;
      entries := existing;
    }

    /** `init()` with `initKey` as intended: in one transaction, every
        configured key the store lacks gets "EMPTY"; present keys keep their
        values, whether or not this is the first start. */
    method Init()
      modifies this
      ensures entries == Seed(old(entries), items, Empty)
    {
      var txn := entries;
      ghost var before := entries;
      var i := 0;
      assert items[..0] == [];
      while i < |items|
        invariant 0 <= i <= |items|
        invariant txn == Seed(before, items[..i], Empty)
      {
        assert items[..i + 1] == items[..i] + [items[i]];
        SeedSnoc(before, items[..i], items[i], Empty);
        txn := InitKey(txn, items[i]);
        i := i + 1;
      }
      assert items[..i] == items;
      entries := txn;
    }

    /** `allItems()`: a cursor pass in one transaction, returned as visited,
        without sorting. Every key appears once, with its value. */
    method AllItems() returns (listing: seq<ItemAndName<string>>)
      ensures Lists(listing, entries)
    {
      listing := ScanCursor(entries);
    }
  }
}
