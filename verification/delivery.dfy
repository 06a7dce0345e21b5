/** The queue of sent messages and how a tick empties it into the inboxes of the actors. */
module Delivery {
  import opened TxTypes
  import opened Protocol

  datatype SentMessage = SentMessage(sendTs: Timestamp, deliveryTs: Timestamp, msg: Message)

  type Queue = multiset<SentMessage>

  type Inboxes = map<ActorID, seq<Message>>

  /** The order of the queue: by delivery time, then by time of sending. Ties are in no order. */
  predicate Later(a: SentMessage, b: SentMessage) {
    a.deliveryTs > b.deliveryTs || (a.deliveryTs == b.deliveryTs && a.sendTs > b.sendTs)
  }

  predicate IsTop(q: Queue, x: SentMessage) {
    x in q && forall y :: y in q ==> !Later(x, y)
  }

  /** The top is due first; of messages due at the same time it was sent first. */
  lemma TopIsEarliest(q: Queue, x: SentMessage)
    ensures IsTop(q, x) <==>
              x in q && forall y :: y in q ==>
                x.deliveryTs < y.deliveryTs || (x.deliveryTs == y.deliveryTs && x.sendTs <= y.sendTs)
  {}

  lemma {:induction false} TopExists(q: Queue)
    requires q != multiset{}
    ensures exists x :: IsTop(q, x)
    decreases |q|
  {
    var x :| x in q;
    var rest, top := q - multiset{x}, x;
    if exists z :: z in rest {
      TopExists(rest);
      var y :| IsTop(rest, y);
      top := if Later(y, x) then x else y;
    }
    forall z | z in q ensures !Later(top, z) {
      assert z == x || z in rest;
    }
    assert IsTop(q, top);
  }

  /** No message is queued twice. */
  ghost predicate Unique(q: Queue) {
    && (forall x :: x in q ==> q[x] == 1)
    && forall x, y :: x in q && y in q && x.msg == y.msg ==> x == y
  }

  ghost function Queued(q: Queue): set<Message> {
    set x | x in q :: x.msg
  }

  ghost predicate InOrder(q: Queue, inbox: seq<Message>) {
    forall x, y :: x in q && y in q && Earlier(inbox, x.msg, y.msg) ==> !Later(x, y)
  }

  ghost predicate Earlier(inbox: seq<Message>, a: Message, b: Message) {
    exists i, j :: 0 <= i < j < |inbox| && inbox[i] == a && inbox[j] == b
  }

  /** Part of `q0` was moved to the inboxes, in the order of the queue, and `q` is left. */
  ghost predicate Moved(q0: Queue, q: Queue, inboxes: Inboxes, ts: Timestamp) {
    && q <= q0
    && (forall d :: d in inboxes ==> Distinct(inboxes[d]))
    && (forall d, m :: d in inboxes && m in inboxes[d] ==> m.destination == d && m in Queued(q0) && m !in Queued(q))
    && (forall x :: x in q0 && x !in q ==>
          x.deliveryTs <= ts && x.msg.destination in inboxes && x.msg in inboxes[x.msg.destination])
    && (forall x, y :: x in q0 && x !in q && y in q ==> !Later(x, y))
    && (forall d :: d in inboxes ==> InOrder(q0, inboxes[d]))
  }

  lemma MovedStart(q0: Queue, inboxes: Inboxes, ts: Timestamp)
    requires forall d :: d in inboxes ==> inboxes[d] == []
    ensures Moved(q0, q0, inboxes, ts)
  {}

  lemma WithoutTop(q0: Queue, q: Queue, x: SentMessage)
    requires Unique(q0) && q <= q0 && IsTop(q, x)
    ensures x in q0 && x in q && q - multiset{x} <= q0
    ensures forall y :: y in q - multiset{x} <==> y in q && y != x
    ensures forall y :: y in q ==> !Later(x, y)
    ensures x.msg in Queued(q) && x.msg in Queued(q0)
    ensures x.msg !in Queued(q - multiset{x}) && Queued(q - multiset{x}) <= Queued(q)
  {
    assert q[x] <= q0[x];
  }

  lemma MovedStep(q0: Queue, q: Queue, inboxes: Inboxes, ts: Timestamp, x: SentMessage)
    requires Unique(q0) && Moved(q0, q, inboxes, ts) && IsTop(q, x) && x.deliveryTs <= ts
    requires x.msg.destination in inboxes
    ensures var d := x.msg.destination;
            Moved(q0, q - multiset{x}, inboxes[d := inboxes[d] + [x.msg]], ts)
  {
    hide InOrder, IsTop, Later, Unique, Queued;
    WithoutTop(q0, q, x);
    InOrderNext(q0, q, inboxes[x.msg.destination], x);
  }

  /** The top of the queue was there from the start, and nothing is due if it is not. */
  lemma TopDecides(q0: Queue, q: Queue, inboxes: Inboxes, ts: Timestamp, x: SentMessage)
    requires Moved(q0, q, inboxes, ts) && IsTop(q, x)
    ensures x in q0 && x in q && |q - multiset{x}| < |q|
    ensures x.deliveryTs > ts ==> forall y :: y in q ==> y.deliveryTs > ts
  {
    hide InOrder;
  }

  /** With nothing due left, everything that was due had an inbox. */
  lemma AllHadInboxes(q0: Queue, q: Queue, inboxes: Inboxes, ts: Timestamp)
    requires Moved(q0, q, inboxes, ts) && forall x :: x in q ==> x.deliveryTs > ts
    ensures forall x :: x in q0 && x.deliveryTs <= ts ==> x.msg.destination in inboxes
  {
    hide InOrder;
  }

  lemma InOrderNext(q0: Queue, q: Queue, inbox: seq<Message>, x: SentMessage)
    requires Unique(q0) && q <= q0 && InOrder(q0, inbox) && x in q && x in q0
    requires forall m :: m in inbox ==> m in Queued(q0) && m !in Queued(q)
    requires forall a, b :: a in q0 && a !in q && b in q ==> !Later(a, b)
    ensures InOrder(q0, inbox + [x.msg])
  {
    forall a, b | a in q0 && b in q0 && Earlier(inbox + [x.msg], a.msg, b.msg) ensures !Later(a, b) {
      var i, j :| 0 <= i < j < |inbox + [x.msg]| && (inbox + [x.msg])[i] == a.msg && (inbox + [x.msg])[j] == b.msg;
      if j < |inbox| {
        assert Earlier(inbox, a.msg, b.msg);
      } else {
        assert a.msg in inbox && b == x;
        assert a !in q;
      }
    }
  }

  /** A message with a new id joins the queue without a double. */
  lemma Joins(q: Queue, x: SentMessage)
    requires Unique(q) && forall y :: y in q ==> y.msg.msgId < x.msg.msgId
    ensures Unique(q + multiset{x}) && Queued(q + multiset{x}) == Queued(q) + {x.msg}
    ensures forall y :: y in q + multiset{x} <==> y in q || y == x
  {}

  lemma NoneQueued(q: Queue)
    requires q == multiset{}
    ensures Unique(q) && Queued(q) == {}
  {}
}
