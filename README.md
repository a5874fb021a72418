# Toggle and chat WebSocket handlers: a Dafny model

This project models the core of a small Kotlin/Spring service. Clients connect
over WebSocket to share named "items" (toggles). Each item records who last set
it and when that setting expires. The current state lives in an Xodus key-value
store, the "Schalter" store. Two source packages implement it:

- `com.github.clojj` is the toggle service. Its `WebsocketHandler` reads
  the message type from `msgType`.
  - On `join` it binds the connection to a `User` unless it is already bound
    (`getOrPut`), then sends the joiner the store's listing.
  - On `set` it turns any non-zero delay, negative ones included, into the
    absolute expiry `now + delay`; a zero delay stays 0. It writes
    `(name, expiry)` to the store and broadcasts the new `Toggle`.
  - `beingSet` tells the other connections that an item is about to be set.
  - `Storage` seeds the configured item names, overwrites on `store`, and
    lists every entry sorted by key.
  - Expiry is only a number that is stored and broadcast: no timer watches it.
- `codemwnci.bootsocket` holds two chat handlers, `WebsocketHandler` (which
  reads the message type from `msgType`) and `ChatHandler` (which reads it
  from `type`). Both give every joiner a fresh id from a counter. They send the
  joiner the list of users, announce the joiner to the other connections, and
  broadcast `say` texts. `WebsocketHandler` also reads the text as a delay and
  hands on a `Delay`; `ChatHandler` hands on `Greetings(42, text)`. This
  package also has its own `Storage` (seeding with "EMPTY", unsorted listing)
  and `Delay`, a `java.util.concurrent.Delayed` ordered by its due time.

## How the model is built

- Each handler is a class. Its session map, item map and id counter are
  fields, and so is an outbox: the sequence of `(recipient, message)`
  envelopes sent so far. A handler's methods say what each field becomes.
- The `forEach` send loops are one method, `Outbox.FanOut`. It visits the
  recipients in an order the model leaves open, like a hash map. It proves
  that every recipient gets the message exactly once and nobody else gets it.
- Messages are decoded datatypes, not JSON. The clock
  (`System.currentTimeMillis()`) is a parameter. What a handler gives to the
  delay or greetings service is recorded in a field.
- A store is a `map` held by a `Storage` class. Each Xodus transaction works
  on a copy of the map and commits it with one assignment, so it is
  all-or-nothing. The cursor visits keys in an order the model leaves open.
  The `com.github.clojj` listing is then sorted by an insertion sort that
  stands for `sortedBy`.
- The `com.github.clojj` handler calls `storage.store(item, name, expiry)`
  with three arguments, but its `Storage.store` takes a key and one string.
  The model therefore makes that `Storage` generic in its value type. The
  handler stores `Setting(name, expiry)`; a string instance matches the file
  as written. `init` seeds the value given to it, which the source sets to "".

## Model

| member | source | states |
|---|---|---|
| `MapOps.GetOrPut` | src/main/kotlin/com/github/clojj/WebsocketApplication.kt:53 | a key gets the new value only when it has none; an existing binding and every other key are kept |
| `MapOps.Seed` | src/main/kotlin/com/github/clojj/Storage.kt:52-57 | after seeding, the keys are the old keys plus every configured name; old values survive; only new keys hold the empty value |
| `MapOps.SeedIdempotent` | src/main/kotlin/com/github/clojj/Storage.kt:54-56 | running `init` twice leaves the same store as running it once |
| `MapOps.SeedSnoc` | src/main/kotlin/com/github/clojj/Storage.kt:54-56 | seeding one more name is one more `add` on the result, which is what each `forEach` step of `init` does |
| `Listing.ScanCursor` | src/main/kotlin/com/github/clojj/Storage.kt:66-74 | the cursor pass lists every stored key exactly once, each with its current value, whatever order the cursor visits them in |
| `Listing.ListsLength` | src/main/kotlin/com/github/clojj/Storage.kt:66-74 | a listing has exactly as many rows as the store has keys |
| `Listing.DistinctItemsCount` | src/main/kotlin/com/github/clojj/Storage.kt:79 | rows with pairwise different keys carry as many keys as there are rows |
| `KeyOrder.LexLe` | src/main/kotlin/com/github/clojj/Storage.kt:75 | Kotlin's `String.compareTo(b) <= 0`, the order `sortedBy` uses: a prefix comes first, and the first characters decide when they differ (a non-empty key comes after the empty one); the two lemmas below cover keys that share a first character |
| `KeyOrder.LexLeFirstDifference` | src/main/kotlin/com/github/clojj/Storage.kt:75 | past a common prefix, the first differing character decides the order, in both directions |
| `KeyOrder.LexLeLongerAfterPrefix` | src/main/kotlin/com/github/clojj/Storage.kt:75 | a key that properly extends another comes after it |
| `KeyOrder.LexLeReflexive` | src/main/kotlin/com/github/clojj/Storage.kt:75 | every key is ordered no later than itself under String comparison |
| `KeyOrder.LexLeTotal` | src/main/kotlin/com/github/clojj/Storage.kt:75 | any two keys are ordered one way or the other |
| `KeyOrder.LexLeAntisymmetric` | src/main/kotlin/com/github/clojj/Storage.kt:75 | two keys ordered both ways are equal |
| `KeyOrder.LexLeTransitive` | src/main/kotlin/com/github/clojj/Storage.kt:75 | the key order is transitive |
| `KeyOrder.Insert` | src/main/kotlin/com/github/clojj/Storage.kt:75 | one insertion step of the sort adds exactly the inserted row to the rows (as a multiset) |
| `KeyOrder.SortByItem` | src/main/kotlin/com/github/clojj/Storage.kt:75 | `sortedBy` returns a permutation of its input |
| `KeyOrder.InsertSorted` | src/main/kotlin/com/github/clojj/Storage.kt:75 | inserting a row into key-ordered rows keeps them key-ordered |
| `KeyOrder.SortByItemSorted` | src/main/kotlin/com/github/clojj/Storage.kt:75 | the result of `sortedBy { it.item }` is in non-decreasing key order |
| `KeyOrder.ItemsOfPermutation` | src/main/kotlin/com/github/clojj/Storage.kt:75 | rearranging rows keeps the set of keys they carry |
| `KeyOrder.InsertDistinct` | src/main/kotlin/com/github/clojj/Storage.kt:75 | inserting a row with a new key into rows with distinct keys keeps the keys distinct |
| `KeyOrder.SortByItemDistinct` | src/main/kotlin/com/github/clojj/Storage.kt:75 | sorting keeps the keys distinct |
| `KeyOrder.SortedListing` | src/main/kotlin/com/github/clojj/Storage.kt:66-76 | sorting a listing of the store gives a listing of the same store (each key once, with its value) in key order |
| `KeyOrder.ListsTail` | src/main/kotlin/com/github/clojj/Storage.kt:66-76 | without its first row a listing lists the store minus that key |
| `KeyOrder.FirstIsLeast` | src/main/kotlin/com/github/clojj/Storage.kt:75 | the first row of a sorted listing holds a key no later than any stored key |
| `KeyOrder.SameFirstRow` | src/main/kotlin/com/github/clojj/Storage.kt:75 | two sorted listings of one store open with the same row |
| `KeyOrder.SortedTail` | src/main/kotlin/com/github/clojj/Storage.kt:75 | the rows after the first of a sorted listing are sorted |
| `KeyOrder.SortedListingUnique` | src/main/kotlin/com/github/clojj/Storage.kt:66-76 | two key-ordered listings of the same store are equal, so `allItems` does not depend on the cursor's visiting order |
| `Outbox.CountSnoc` | src/main/kotlin/com/github/clojj/WebsocketApplication.kt:76 | one more `emit` adds one message for its recipient and none for anybody else |
| `Outbox.FanOut` | src/main/kotlin/com/github/clojj/WebsocketApplication.kt:78 | the send loop delivers the message to every recipient exactly once and to no other connection |
| `ClojjStorage.Storage.constructor` | src/main/kotlin/com/github/clojj/Storage.kt:36-45 | the environment opens holding what an earlier run stored |
| `ClojjStorage.Storage.Init` | src/main/kotlin/com/github/clojj/Storage.kt:47-58 | one transaction `add`s every configured name with the empty value; the store afterwards is `Seed` of the old store |
| `ClojjStorage.Storage.Store` | src/main/kotlin/com/github/clojj/Storage.kt:60-64 | `key` maps to `value` afterwards and every other key is unchanged |
| `ClojjStorage.Storage.AllItems` | src/main/kotlin/com/github/clojj/Storage.kt:66-76 | lists every stored key exactly once with its value, sorted by key, and changes nothing |
| `ClojjWebsocket.AsText` | src/main/kotlin/com/github/clojj/WebsocketApplication.kt:40 | `JsonNode.asText()` on `data`: the text of a text node, and "" for the object payload that `set` carries |
| `ClojjWebsocket.WebsocketHandler.constructor` | src/main/kotlin/com/github/clojj/WebsocketApplication.kt:24-33 | the handler starts with no sessions, no items and nothing sent, over the given storage |
| `ClojjWebsocket.WebsocketHandler.AfterConnectionClosed` | src/main/kotlin/com/github/clojj/WebsocketApplication.kt:28-31 | closing removes exactly that session; the other sessions, items and sends are unchanged |
| `ClojjWebsocket.WebsocketHandler.HandleTextMessage` | src/main/kotlin/com/github/clojj/WebsocketApplication.kt:35-72 | `beingSet` adds the item as `true` only if absent and tells every session but the sender; `set` binds the sender if unbound, writes `(name, 0 or now + delay)` under the item and nothing else, then every session including the sender gets the Toggle exactly once; `set` whose data is not an object throws with nothing changed; `join` binds the sender if unbound and sends it alone one sorted listing of the store; any other type changes and sends nothing |
| `ClojjWebsocket.WebsocketHandler.Emit` | src/main/kotlin/com/github/clojj/WebsocketApplication.kt:76 | one message to one connection |
| `ClojjWebsocket.WebsocketHandler.Broadcast` | src/main/kotlin/com/github/clojj/WebsocketApplication.kt:78 | every session in `sessionMap` gets the message exactly once |
| `ClojjWebsocket.WebsocketHandler.BroadcastToOthers` | src/main/kotlin/com/github/clojj/WebsocketApplication.kt:80 | every session but the sender gets the message exactly once; the sender gets nothing |
| `LongParsing.ParseLong` | src/main/kotlin/codemwnci/bootsocket/WebsocketApplication.kt:64 | `toLong` succeeds only on an optional sign followed by digits, and only with a value in the Long range |
| `LongParsing.DecimalStringValue` | src/main/kotlin/codemwnci/bootsocket/WebsocketApplication.kt:64 | the decimal digits of a number read back as that number |
| `LongParsing.ParseShowRoundTrip` | src/main/kotlin/codemwnci/bootsocket/WebsocketApplication.kt:64 | `n.toString().toLong()` gives `n` back for every Long and fails for every number outside the range |
| `LongParsing.ParseRejectsNonDigit` | src/main/kotlin/codemwnci/bootsocket/WebsocketApplication.kt:64 | a text holding a character that is neither a digit nor a leading sign makes `toLong` fail |
| `BootsocketDelay.CompareTo` | src/main/kotlin/codemwnci/bootsocket/Delay.kt:9-18 | the result is -1, 0 or 1, negative exactly when the first is due earlier and positive exactly when it is due later |
| `BootsocketDelay.CompareToReflexive` | src/main/kotlin/codemwnci/bootsocket/Delay.kt:11-17 | a delay compares equal to itself |
| `BootsocketDelay.CompareToAntisymmetric` | src/main/kotlin/codemwnci/bootsocket/Delay.kt:11-17 | swapping the arguments negates the result |
| `BootsocketDelay.CompareToTransitive` | src/main/kotlin/codemwnci/bootsocket/Delay.kt:11-17 | `a <= b` and `b <= c` imply `a <= c` |
| `BootsocketDelay.CompareToOnlyDueTime` | src/main/kotlin/codemwnci/bootsocket/Delay.kt:7-17 | delays due at the same time compare equal whatever their interval and message |
| `BootsocketDelay.GetDelay` | src/main/kotlin/codemwnci/bootsocket/Delay.kt:20-22 | the clock plus the remaining delay is the due time |
| `BootsocketDelay.GetDelayIgnoresUnit` | src/main/kotlin/codemwnci/bootsocket/Delay.kt:20-22 | the result does not depend on the unit asked for |
| `BootsocketDelay.GetDelayPositive` | src/main/kotlin/codemwnci/bootsocket/Delay.kt:20-22 | the delay is positive exactly while the clock is before the due time |
| `BootsocketDelay.GetDelayOfFresh` | src/main/kotlin/codemwnci/bootsocket/WebsocketApplication.kt:63-66 | a Delay built by `sendDelay` at clock `now` reports the requested interval at `now` |
| `BootsocketUsers.JoinKeepsUsersValid` | src/main/kotlin/codemwnci/bootsocket/WebsocketApplication.kt:43-44 | a joiner's id is above every id in use, and the ids of connected users stay distinct |
| `BootsocketUsers.CloseKeepsUsersValid` | src/main/kotlin/codemwnci/bootsocket/WebsocketApplication.kt:33-35 | removing a connection keeps the user ids distinct and below the counter |
| `BootsocketWebsocket.WebsocketHandler.constructor` | src/main/kotlin/codemwnci/bootsocket/WebsocketApplication.kt:27-30 | no sessions, counter at 0, nothing sent |
| `BootsocketWebsocket.WebsocketHandler.AfterConnectionClosed` | src/main/kotlin/codemwnci/bootsocket/WebsocketApplication.kt:32-35 | closing removes exactly that session; counter and sends unchanged |
| `BootsocketWebsocket.WebsocketHandler.HandleTextMessage` | src/main/kotlin/codemwnci/bootsocket/WebsocketApplication.kt:37-55 | `join` takes the current id and advances the counter by one, maps the session to the new user (replacing any earlier one), sends the joiner a `users` message listing every user (itself included), then every other session gets the joiner's name once; `say` gives every session the text once, then hands on `Delay(interval, "Delay from <session>", now + interval)` or throws NumberFormatException with no Delay; any other type changes nothing |
| `BootsocketWebsocket.WebsocketHandler.Emit` | src/main/kotlin/codemwnci/bootsocket/WebsocketApplication.kt:57 | one message to one connection |
| `BootsocketWebsocket.WebsocketHandler.Broadcast` | src/main/kotlin/codemwnci/bootsocket/WebsocketApplication.kt:59 | every session gets the message exactly once |
| `BootsocketWebsocket.WebsocketHandler.BroadcastToOthers` | src/main/kotlin/codemwnci/bootsocket/WebsocketApplication.kt:61 | every session but the sender gets the message exactly once |
| `BootsocketWebsocket.WebsocketHandler.SendDelay` | src/main/kotlin/codemwnci/bootsocket/WebsocketApplication.kt:63-67 | a numeric text hands on one Delay due `interval` after `now`; any other text throws and hands on nothing |
| `BootsocketChat.ChatHandler.constructor` | src/main/kotlin/codemwnci/bootsocket/ChatApplication.kt:18-21 | no sessions, counter at 0, nothing sent |
| `BootsocketChat.ChatHandler.AfterConnectionClosed` | src/main/kotlin/codemwnci/bootsocket/ChatApplication.kt:23-26 | closing removes exactly that session |
| `BootsocketChat.ChatHandler.HandleTextMessage` | src/main/kotlin/codemwnci/bootsocket/ChatApplication.kt:28-46 | dispatch on `type`: `join` takes the next id, stores or replaces the session's user, sends the joiner all users (itself included), then every other session gets the whole `User` once; `say` gives every session the text once, then hands on one `Greetings(42, text)`; any other type changes nothing |
| `BootsocketChat.ChatHandler.Emit` | src/main/kotlin/codemwnci/bootsocket/ChatApplication.kt:48 | one message to one connection |
| `BootsocketChat.ChatHandler.Broadcast` | src/main/kotlin/codemwnci/bootsocket/ChatApplication.kt:50 | every session gets the message exactly once |
| `BootsocketChat.ChatHandler.BroadcastToOthers` | src/main/kotlin/codemwnci/bootsocket/ChatApplication.kt:52 | every session but the sender gets the message exactly once |
| `BootsocketChat.ChatHandler.SendGreetings` | src/main/kotlin/codemwnci/bootsocket/ChatApplication.kt:54-57 | exactly one `Greetings(42, msg)` is handed on |
| `BootsocketStorage.EntryLeadByte` | src/main/kotlin/codemwnci/bootsocket/Storage.kt:58 | the first byte `StringBinding.stringToEntry` writes: 0 for the empty string, the character itself for 1-0x7F, and a modified-UTF-8 lead byte in 0xC0-0xEF for any other character |
| `BootsocketStorage.IsJavaStream` | src/main/kotlin/codemwnci/bootsocket/Storage.kt:55 | the header test `deserialize` makes first: bytes that pass it start with the non-ASCII byte 0xAC |
| `BootsocketStorage.StringEntryIsNotJavaStream` | src/main/kotlin/codemwnci/bootsocket/Storage.kt:55 | no value written with `StringBinding` starts with the Java serialization header, so `deserialize` rejects every stored value |
| `BootsocketStorage.InitKeyAsWritten` | src/main/kotlin/codemwnci/bootsocket/Storage.kt:54-60 | as written, a missing key gets "EMPTY" and a present key throws IllegalArgumentException |
| `BootsocketStorage.InitAsWritten` | src/main/kotlin/codemwnci/bootsocket/Storage.kt:36-47 | as written, the seeding transaction commits exactly when every configured key is new and listed once, and it then seeds them all |
| `BootsocketStorage.InitAsWrittenFailsOnRestart` | src/main/kotlin/codemwnci/bootsocket/Storage.kt:41-59 | on a restart with "a" already stored and "a", "b" configured, `init` as written throws and "b" is never seeded; the intended seeding holds both |
| `BootsocketStorage.InitAsWrittenAgreesOnFirstStart` | src/main/kotlin/codemwnci/bootsocket/Storage.kt:36-47 | on a first start the code as written and the intended seeding commit the same store |
| `BootsocketStorage.InitKey` | src/main/kotlin/codemwnci/bootsocket/Storage.kt:54-60 | intended `initKey`: a present key is never written; a missing key gets "EMPTY"; no other key changes |
| `BootsocketStorage.Storage.constructor` | src/main/kotlin/codemwnci/bootsocket/Storage.kt:31-34 | the environment opens holding what an earlier run stored |
| `BootsocketStorage.Storage.Init` | src/main/kotlin/codemwnci/bootsocket/Storage.kt:36-47 | intended `init`: one transaction gives every configured key it lacks "EMPTY" and keeps the present ones (`Seed`), so afterwards every configured name is a key |
| `BootsocketStorage.Storage.AllItems` | src/main/kotlin/codemwnci/bootsocket/Storage.kt:62-73 | lists every stored key once with its value, applies no sort of its own, and changes nothing |

## Findings

| source | as written | input that shows it | evidently intended | confidence | as-written member | corrected member |
|---|---|---|---|---|---|---|
| src/main/kotlin/codemwnci/bootsocket/Storage.kt:55-59 | `initKey` calls `SerializationUtils.deserialize` on the stored bytes and puts "EMPTY" only when that is null. Values are written with `StringBinding`, whose bytes never open with the Java stream header, so a present key makes `deserialize` throw IllegalArgumentException. That aborts the whole `init` transaction. | a restart whose store already holds "a", with "a" and "b" configured: `init` throws and "b" is never seeded; the same happens when one key is configured twice | seed every configured key the store lacks with "EMPTY" and leave present keys alone, on every start | medium; not executed | `BootsocketStorage.InitAsWrittenFailsOnRestart` | `BootsocketStorage.Storage.Init` |

## Left out

- Both `DelayListener.kt` files are left out. They hold Kafka stream listeners, a `TaskScheduler`, a `DelayQueue` drained by an endless thread, and a fresh Xodus environment per message. That is concurrency plus foreign calls.
- `GreetingsService.kt`, `DelayService.kt`, `GreetingsStreams.kt` and `GreetingsListener.kt` are channel plumbing and are not part of this model. A handed-on `Delay` or `Greetings` is recorded in the handler's `delaysSent` or `greetingsSent` field.
- `Greetings` is defined outside the modelled files; `BootsocketChat.Greetings` keeps only its two constructor arguments.
- Both `RestApi.kt` files are one-line pass-throughs to `allItems` and are not modelled.
- Spring configuration and bootstrap are not modelled: `WSConfig`, the application classes, `ThreadPoolTaskSchedulerConfig`, and the `SchalterConfig` binding (configured names are a parameter). So are the servlet listener and `env.close()`.
- JSON parsing and writing are not modelled. Messages arrive decoded, so the NullPointerException on a message without `data`, `msgType` or `type` is not modelled. The clojj model does keep two decoding cases: an object payload reads as "" through `asText()`, and `set` with a text payload throws.
- `ClojjWebsocket.WebsocketHandler.HandleTextMessage`: the expiry field is an integer. `asLong()` on a non-numeric expiry is not modelled, and `now + delay` has no 64-bit wrap-around.
- `BootsocketWebsocket.WebsocketHandler.SendDelay`: `now + interval` has no 64-bit wrap-around.
- `BootsocketDelay.GetDelay`: `now - clock` has no 64-bit wrap-around.
- `BootsocketDelay.CompareTo` takes two Delays. The ClassCastException for another `Delayed`, or for null, is not modelled.
- `BootsocketWebsocket.WebsocketHandler.HandleTextMessage`: the `uids` counter is unbounded. `AtomicLong` would wrap after 2^63 joins.
- `BootsocketChat.ChatHandler.HandleTextMessage`: the `uids` counter is unbounded in this handler as well.
- `BootsocketWebsocket.WebsocketHandler.HandleTextMessage` and `BootsocketChat.ChatHandler.HandleTextMessage`: the `users` message carries `sessionList.values` as a set in both handlers. The order of the JSON array is not modelled, and the ids are distinct, so no user repeats.
- `LongParsing.ParseLong` accepts ASCII digits only. `Character.digit` also accepts the other Unicode decimal digits.
- `KeyOrder.LexLe` compares Unicode scalar values, while Kotlin compares UTF-16 code units. The two orders differ only between supplementary characters and U+E000 to U+FFFF.
- `Listing.ScanCursor` leaves the cursor's visiting order open. Xodus visits keys in ascending byte order, so the bootsocket `allItems` is ordered in practice; the model does not claim that.
- `Outbox.FanOut`: sends never fail. A `sendMessage` that throws on a closed connection would stop the `forEach`, and that is not modelled.
- The `println` logging (clojj `WebsocketApplication.kt:36` and `Storage.kt:49`, bootsocket `Storage.kt:38` and `:56`) is not modelled: it is output only and changes no state.
- Null sessions (`session!!`, the `"null"` text of a missing session) are not modelled.
- Thread-safety of `ConcurrentHashMap` and `HashMap` is not modelled: the model is sequential.
- The `com.github.clojj` item map (`itemMap`) is written but never read by the code; the model keeps it as a field.
