/** What the handlers send: each `session.sendMessage` is one envelope
    appended to the handler's outbox. The `forEach` send loops over a session
    map are modelled once here. */
module Outbox {

  /** A WebSocket connection. `id` is its `toString()`; two sessions are
      the same connection exactly when they are equal. */
  datatype Session = Session(id: string)

  datatype Envelope<M> = Envelope(to: Session, msg: M)

  /** How many envelopes of `batch` are addressed to `s`. */
  function Count<M>(batch: seq<Envelope<M>>, s: Session): nat
  {
    if batch == [] then 0
    else Count(batch[..|batch| - 1], s) + (if batch[|batch| - 1].to == s then 1 else 0)
  }

  /** `batch` carries `m` to every session of `to` exactly once and to no
      other session. */
  ghost predicate Delivers<M>(batch: seq<Envelope<M>>, to: set<Session>, m: M)
  {
    && (forall i | 0 <= i < |batch| :: batch[i].msg == m)
    && (forall s :: Count(batch, s) == if s in to then 1 else 0)
  }

  /** The outbox grew from `before` to `after` by one delivery of `m` to `to`. */
  ghost predicate Appended<M>(before: seq<Envelope<M>>, after: seq<Envelope<M>>, to: set<Session>, m: M)
  {
    |before| <= |after| && after[..|before|] == before && Delivers(after[|before|..], to, m)
  }

  lemma CountSnoc<M>(batch: seq<Envelope<M>>, e: Envelope<M>, s: Session)
    ensures Count(batch + [e], s) == Count(batch, s) + if e.to == s then 1 else 0
  {
    assert (batch + [e])[..|batch|] == batch;
  }

  /** `sessions.forEach { emit(it.key, m) }`: one send per session, in the
      map's iteration order, which this model leaves open. */
  method FanOut<M>(recipients: set<Session>, m: M) returns (batch: seq<Envelope<M>>)
    ensures Delivers(batch, recipients, m)
  {
    batch := [];
    var pending := recipients;
    while pending != {}
      invariant pending <= recipients
      invariant forall i | 0 <= i < |batch| :: batch[i].msg == m
      invariant forall s :: Count(batch, s) == if s in recipients - pending then 1 else 0
      decreases pending
    {
      var s :| s in pending;
      forall t ensures Count(batch + [Envelope(s, m)], t) == Count(batch, t) + if s == t then 1 else 0 {
        CountSnoc(batch, Envelope(s, m), t);
      }
      batch := batch + [Envelope(s, m)];
      pending := pending - {s};
    }
  }
}
