/** Users of the `codemwnci.bootsocket` chat handlers: each `join` creates a
    `User` whose id is taken from an `AtomicLong` counter. */
module BootsocketUsers {
  import opened Outbox

  datatype User = User(id: nat, name: string)

  /** The counter is ahead of every id in use, and no two connections share
      an id. */
  ghost predicate UsersValid(sessions: map<Session, User>, uids: nat)
  {
    && (forall s | s in sessions :: sessions[s].id < uids)
    && (forall s, t | s in sessions && t in sessions && s != t :: sessions[s].id != sessions[t].id)
  }

  /** Binding a connection to a user with the counter's current id, and
      advancing the counter, keeps the ids distinct. */
  lemma JoinKeepsUsersValid(sessions: map<Session, User>, uids: nat, s: Session, name: string)
    requires UsersValid(sessions, uids)
    ensures UsersValid(sessions[s := User(uids, name)], uids + 1)
    ensures forall t | t in sessions && t != s :: sessions[t].id < uids
  {
  }

  /** Forgetting a connection keeps the ids distinct. */
  lemma CloseKeepsUsersValid(sessions: map<Session, User>, uids: nat, s: Session)
    requires UsersValid(sessions, uids)
    ensures UsersValid(sessions - {s}, uids)
  {
  }
}
