/** `WebsocketHandler` of the `codemwnci.bootsocket` variant: a chat whose
    `say` text is also read as a delay in milliseconds and handed, as a
    `Delay`, to the delay service. Messages arrive already decoded; the clock
    is the parameter `now`. */
module BootsocketWebsocket {
  import opened Jvm
  import opened Outbox
  import opened LongParsing
  import opened BootsocketDelay
  import opened BootsocketUsers

  /** An inbound `{msgType, data}` message; `text` is `data.asText()`. */
  datatype Inbound = Inbound(msgType: string, text: string)

  /** The outbound `WsMsg`s: `users`, `join` and `say`. */
  datatype WsMsg =
    | UsersMsg(users: set<User>)
    | JoinMsg(name: string)
    | SayMsg(text: string)

  class WebsocketHandler {
    /** Connection to the user that joined on it. */
    var sessionList: map<Session, User>
    /** The `uids` counter: the id the next user gets. */
    var uids: nat
    /** Every message sent so far, in sending order. */
    var outbox: seq<Envelope<WsMsg>>
    /** Every `Delay` handed to `delayService.sendDelay`, in order. */
    var delaysSent: seq<Delay>

    ghost predicate Valid()
      reads this
    {
      UsersValid(sessionList, uids)
    }

    constructor ()
      ensures Valid()
      ensures sessionList == map[] && uids == 0 && outbox == [] && delaysSent == []
    {
      sessionList := map[];
      uids := 0;
      outbox := [];
      delaysSent := [];
    }

    /** `afterConnectionClosed`: forgets exactly that connection. */
    method AfterConnectionClosed(session: Session)
      requires Valid()
      modifies this
      ensures Valid()
      ensures sessionList == old(sessionList) - {session}
      ensures uids == old(uids) && outbox == old(outbox) && delaysSent == old(delaysSent)
    {
      CloseKeepsUsersValid(sessionList, uids, session);
      sessionList := sessionList - {session};
    }

    /** `handleTextMessage`: dispatch on `msgType`. */
    method HandleTextMessage(session: Session, message: Inbound, now: int) returns (outcome: Outcome)
      requires Valid()
      modifies this
      ensures Valid()
      // any other message type changes nothing and sends nothing
      ensures message.msgType !in {"join", "say"} ==> outcome == Returned && unchanged(this)
      // join: a new user with the next id; the joiner gets everybody, the others get its name
      ensures message.msgType == "join" ==>
        var user := User(old(uids), message.text);
        && outcome == Returned
        && uids == old(uids) + 1
        && sessionList == old(sessionList)[session := user]
        && user in sessionList.Values
        && (forall s | s in old(sessionList) && s != session :: old(sessionList)[s].id < user.id)
        && Appended(old(outbox) + [Envelope(session, UsersMsg(sessionList.Values))], outbox,
                    sessionList.Keys - {session}, JoinMsg(message.text))
        && delaysSent == old(delaysSent)
      // say: everybody gets the text; then the text is read as a delay
      ensures message.msgType == "say" ==>
        && sessionList == old(sessionList) && uids == old(uids)
        && Appended(old(outbox), outbox, sessionList.Keys, SayMsg(message.text))
        && match ParseLong(message.text)
           case None =>
             outcome == Threw(NumberFormat) && delaysSent == old(delaysSent)
           case Some(interval) =>
             && outcome == Returned
             && delaysSent == old(delaysSent) + [Delay(interval, "Delay from " + session.id, now + interval)]
    {
      outcome := Returned;
      if message.msgType == "join" {
        var user := User(uids, message.text);
        JoinKeepsUsersValid(sessionList, uids, session, message.text);
        uids := uids + 1;
        sessionList := sessionList[session := user];
        assert sessionList[session] in sessionList.Values;
        Emit(session, UsersMsg(sessionList.Values));
        BroadcastToOthers(session, JoinMsg(user.name));
      } else if message.msgType == "say" {
        Broadcast(SayMsg(message.text));
        outcome := SendDelay(message.text, session.id, now);
      }
    }

    /** `emit`: one message to one connection. */
    method Emit(session: Session, msg: WsMsg)
      modifies this`outbox
      ensures outbox == old(outbox) + [Envelope(session, msg)]
    {
      outbox := outbox + [Envelope(session, msg)];
    }

    /** `broadcast`: one copy to every connection in `sessionList`. */
    method Broadcast(msg: WsMsg)
      modifies this`outbox
      ensures Appended(old(outbox), outbox, sessionList.Keys, msg)
    {
      var batch := FanOut(sessionList.Keys, msg);
      assert (outbox + batch)[|outbox|..] == batch;
      outbox := outbox + batch;
    }

    /** `broadcastToOthers`: one copy to every connection but `me`. */
    method BroadcastToOthers(me: Session, msg: WsMsg)
      modifies this`outbox
      ensures Appended(old(outbox), outbox, sessionList.Keys - {me}, msg)
    {
      var batch := FanOut(sessionList.Keys - {me}, msg);
      assert (outbox + batch)[|outbox|..] == batch;
      outbox := outbox + batch;
    }

    /** `sendDelay`: `delayMillis.toLong()`, then a `Delay` due that many
        milliseconds from now. Text that is not a Long raises
        NumberFormatException and nothing is handed on. */
    method SendDelay(delayMillis: string, session: string, now: int) returns (outcome: Outcome)
      modifies this`delaysSent
      ensures match ParseLong(delayMillis)
        case None =>
          outcome == Threw(NumberFormat) && delaysSent == old(delaysSent)
        case Some(interval) =>
          outcome == Returned && delaysSent == old(delaysSent) + [Delay(interval, "Delay from " + session, now + interval)]
    {
      match ParseLong(delayMillis)
      case None =>
        outcome := Threw(NumberFormat);
      case Some(interval) =>
        delaysSent := delaysSent + [Delay(interval, "Delay from " + session, now + interval)];
        outcome := Returned;
    }
  }
}
