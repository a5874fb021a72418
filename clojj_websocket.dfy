/** `WebsocketHandler` of the `com.github.clojj` variant: the toggle service.
    Clients `join` with a name and get the stored items, `set` an item with
    their name and a relative expiry, and announce with `beingSet` that they
    are about to set one. Messages arrive already decoded; the clock is the
    parameter `now`. */
module ClojjWebsocket {
  import opened Jvm
  import opened MapOps
  import opened Listing
  import opened KeyOrder
  import opened Outbox
  import ClojjStorage

  datatype User = User(name: string)

  /** What the store keeps per item: who set it last and when it expires, as
      absolute milliseconds (0 = never). */
  datatype Setting = Setting(name: string, expiry: int)

  /** The `set` broadcast: an item with its new name and absolute expiry. */
  datatype Toggle = Toggle(item: string, name: string, expiry: int)

  /** The decoded `data` field: a plain text, or the object `{item, name,
      expiry}` that `set` carries. */
  datatype Data =
    | TextNode(text: string)
    | ToggleNode(item: string, name: string, expiry: int)

  /** `data.asText()`: the text of a text node, "" for an object. */
  function AsText(d: Data): (r: string)
    ensures d.TextNode? ==> r == d.text
    ensures d.ToggleNode? ==> r == ""
  {
    match d
    case TextNode(t) => t
    case ToggleNode(_, _, _) => ""
  }

  /** An inbound `{msgType, data}` message. */
  datatype Inbound = Inbound(msgType: string, data: Data)

  /** The outbound `WsMsg`s: `beingSet`, `set` and `allItems`. */
  datatype WsMsg =
    | BeingSetMsg(item: string)
    | SetMsg(toggle: Toggle)
    | AllItemsMsg(items: seq<ItemAndName<Setting>>)

  class WebsocketHandler {
    const storage: ClojjStorage.Storage<Setting>
    /** Connection to the user bound to it. */
    var sessionMap: map<Session, User>
    /** Items somebody has started or finished setting. */
    var itemMap: map<string, bool>
    /** Every message sent so far, in sending order. */
    var outbox: seq<Envelope<WsMsg>>

    constructor (storage: ClojjStorage.Storage<Setting>)
      ensures this.storage == storage
      ensures sessionMap == map[] && itemMap == map[] && outbox == []
    {
      this.storage := storage;
      sessionMap := map[];
      itemMap := map[];
      outbox := [];
    }

    /** `afterConnectionClosed`: forgets exactly that connection. */
    method AfterConnectionClosed(session: Session)
      modifies this
      ensures sessionMap == old(sessionMap) - {session}
      ensures itemMap == old(itemMap) && outbox == old(outbox)
    {
      sessionMap := sessionMap - {session};
    }

    /** `handleTextMessage`: dispatch on `msgType`. */
    method HandleTextMessage(session: Session, message: Inbound, now: int) returns (outcome: Outcome)
      modifies this, storage
      // any other message type changes nothing and sends nothing
      ensures message.msgType !in {"beingSet", "set", "join"} ==>
        outcome == Returned && unchanged(this) && unchanged(storage)
      // beingSet: mark the item if it is not yet known, tell everybody else
      ensures message.msgType == "beingSet" ==>
        && outcome == Returned
        && itemMap == GetOrPut(old(itemMap), AsText(message.data), true)
        && sessionMap == old(sessionMap)
        && unchanged(storage)
        && Appended(old(outbox), outbox, sessionMap.Keys - {session}, BeingSetMsg(AsText(message.data)))
      // set without an object payload: `data.get("item")` is null
      ensures message.msgType == "set" && message.data.TextNode? ==>
        outcome == Threw(NullPointer) && unchanged(this) && unchanged(storage)
      // set: bind the sender if unbound, store (name, absolute expiry), tell everybody
      ensures message.msgType == "set" && message.data.ToggleNode? ==>
        var d := message.data;
        var expiry := if d.expiry == 0 then 0 else now + d.expiry;
        && outcome == Returned
        && itemMap == GetOrPut(old(itemMap), d.item, false)
        && sessionMap == GetOrPut(old(sessionMap), session, User(d.name))
        && session in sessionMap
        && storage.entries == old(storage.entries)[d.item := Setting(d.name, expiry)]
        && Appended(old(outbox), outbox, sessionMap.Keys, SetMsg(Toggle(d.item, d.name, expiry)))
      // join: bind the sender if unbound, send it alone the sorted store listing
      ensures message.msgType == "join" ==>
        && outcome == Returned
        && sessionMap == GetOrPut(old(sessionMap), session, User(AsText(message.data)))
        && itemMap == old(itemMap)
        && unchanged(storage)
        && |outbox| == |old(outbox)| + 1
        && outbox[..|old(outbox)|] == old(outbox)
        && outbox[|old(outbox)|].to == session
        && outbox[|old(outbox)|].msg.AllItemsMsg?
        && Lists(outbox[|old(outbox)|].msg.items, storage.entries)
        && Sorted(outbox[|old(outbox)|].msg.items)
    {
      var text := AsText(message.data);
      outcome := Returned;
      if message.msgType == "beingSet" {
        itemMap := GetOrPut(itemMap, text, true);
        BroadcastToOthers(session, BeingSetMsg(text));
      } else if message.msgType == "set" {
        match message.data
        case TextNode(_) =>
          outcome := Threw(NullPointer);
        case ToggleNode(item, name, delay) =>
          itemMap := GetOrPut(itemMap, item, false);
          sessionMap := GetOrPut(sessionMap, session, User(name));
          var expiry := delay;
          if expiry != 0 {
            expiry := expiry + now;
          }
          storage.Store(item, Setting(name, expiry));
          Broadcast(SetMsg(Toggle(item, name, expiry)));
      } else if message.msgType == "join" {
        sessionMap := GetOrPut(sessionMap, session, User(text));
        var items := storage.AllItems();
        Emit(session, AllItemsMsg(items));
      }
    }

    /** `emit`: one message to one connection. */
    method Emit(session: Session, msg: WsMsg)
      modifies this`outbox
      ensures outbox == old(outbox) + [Envelope(session, msg)]
    {
      outbox := outbox + [Envelope(session, msg)];
    }

    /** `broadcast`: one copy to every connection in `sessionMap`. */
    method Broadcast(msg: WsMsg)
      modifies this`outbox
      ensures Appended(old(outbox), outbox, sessionMap.Keys, msg)
    {
      var batch := FanOut(sessionMap.Keys, msg);
      assert (outbox + batch)[|outbox|..] == batch;
      outbox := outbox + batch;
    }

    /** `broadcastToOthers`: one copy to every connection but `me`. */
    method BroadcastToOthers(me: Session, msg: WsMsg)
      modifies this`outbox
      ensures Appended(old(outbox), outbox, sessionMap.Keys - {me}, msg)
    {
      var batch := FanOut(sessionMap.Keys - {me}, msg);
      assert (outbox + batch)[|outbox|..] == batch;
      outbox := outbox + batch;
    }
  }
}
