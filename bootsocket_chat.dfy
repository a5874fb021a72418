/** `ChatHandler` of the `codemwnci.bootsocket` variant: the chat that
    dispatches on a `type` field, announces a joiner with the whole `User`,
    and hands every `say` text on as a `Greetings`. Messages arrive already
    decoded. */
module BootsocketChat {
  import opened Jvm
  import opened Outbox
  import opened BootsocketUsers

  /** An inbound `{type, data}` message; `text` is `data.asText()`. */
  datatype Inbound = Inbound(kind: string, text: string)

  /** The outbound `Message`s: `users`, `join` and `say`. */
  datatype Message =
    | UsersMsg(users: set<User>)
    | JoinMsg(user: User)
    | SayMsg(text: string)

  /** The payload handed to the greetings service: `Greetings(42, text)`. */
  datatype Greetings = Greetings(code: int, message: string)

  class ChatHandler {
    /** Connection to the user that joined on it. */
    var sessionList: map<Session, User>
    /** The `uids` counter: the id the next user gets. */
    var uids: nat
    /** Every message sent so far, in sending order. */
    var outbox: seq<Envelope<Message>>
    /** Every `Greetings` handed to `greetingsService.sendGreeting`, in order. */
    var greetingsSent: seq<Greetings>

    ghost predicate Valid()
      reads this
    {
      UsersValid(sessionList, uids)
    }

    constructor ()
      ensures Valid()
      ensures sessionList == map[] && uids == 0 && outbox == [] && greetingsSent == []
    {
      sessionList := map[];
      uids := 0;
      outbox := [];
      greetingsSent := [];
    }

    /** `afterConnectionClosed`: forgets exactly that connection. */
    method AfterConnectionClosed(session: Session)
      requires Valid()
      modifies this
      ensures Valid()
      ensures sessionList == old(sessionList) - {session}
      ensures uids == old(uids) && outbox == old(outbox) && greetingsSent == old(greetingsSent)
    {
      CloseKeepsUsersValid(sessionList, uids, session);
      sessionList := sessionList - {session};
    }

    /** `handleTextMessage`: dispatch on `type`. */
    method HandleTextMessage(session: Session, message: Inbound) returns (outcome: Outcome)
      requires Valid()
      modifies this
      ensures Valid() && outcome == Returned
      // any other type changes nothing and sends nothing
      ensures message.kind !in {"join", "say"} ==> unchanged(this)
      // join: a new user with the next id; the joiner gets everybody, the others get the user
      ensures message.kind == "join" ==>
        var user := User(old(uids), message.text);
        && uids == old(uids) + 1
        && sessionList == old(sessionList)[session := user]
        && user in sessionList.Values
        && (forall s | s in old(sessionList) && s != session :: old(sessionList)[s].id < user.id)
        && Appended(old(outbox) + [Envelope(session, UsersMsg(sessionList.Values))], outbox,
                    sessionList.Keys - {session}, JoinMsg(user))
        && greetingsSent == old(greetingsSent)
      // say: everybody gets the text, then one Greetings(42, text) is handed on
      ensures message.kind == "say" ==>
        && sessionList == old(sessionList) && uids == old(uids)
        && Appended(old(outbox), outbox, sessionList.Keys, SayMsg(message.text))
        && greetingsSent == old(greetingsSent) + [Greetings(42, message.text)]
    {
      outcome := Returned;
      if message.kind == "join" {
        var user := User(uids, message.text);
        JoinKeepsUsersValid(sessionList, uids, session, message.text);
        uids := uids + 1;
        sessionList := sessionList[session := user];
        assert sessionList[session] in sessionList.Values;
        Emit(session, UsersMsg(sessionList.Values));
        BroadcastToOthers(session, JoinMsg(user));
      } else if message.kind == "say" {
        Broadcast(SayMsg(message.text));
        SendGreetings(message.text);
      }
    }

    /** `emit`: one message to one connection. */
    method Emit(session: Session, msg: Message)
      modifies this`outbox
      ensures outbox == old(outbox) + [Envelope(session, msg)]
    {
      outbox := outbox + [Envelope(session, msg)];
    }

    /** `broadcast`: one copy to every connection in `sessionList`. */
    method Broadcast(msg: Message)
      modifies this`outbox
      ensures Appended(old(outbox), outbox, sessionList.Keys, msg)
    {
      var batch := FanOut(sessionList.Keys, msg);
      assert (outbox + batch)[|outbox|..] == batch;
      outbox := outbox + batch;
    }

    /** `broadcastToOthers`: one copy to every connection but `me`. */
    method BroadcastToOthers(me: Session, msg: Message)
      modifies this`outbox
      ensures Appended(old(outbox), outbox, sessionList.Keys - {me}, msg)
    {
      var batch := FanOut(sessionList.Keys - {me}, msg);
      assert (outbox + batch)[|outbox|..] == batch;
      outbox := outbox + batch;
    }

    /** `sendGreetings`: hands `Greetings(42, msg)` to the greetings service. */
    method SendGreetings(msg: string)
      modifies this`greetingsSent
      ensures greetingsSent == old(greetingsSent) + [Greetings(42, msg)]
    {
      greetingsSent := greetingsSent + [Greetings(42, msg)];
    }
  }
}
