/** The server's side of a channel: handling any batch in any order keeps the invariant and never throws. */
module ChannelServer {
  import opened TxTypes
  import opened PutRequests
  import Server = ServerTransaction
  import opened Protocol
  import opened Channel

  /** What one handled message must guarantee. */
  ghost predicate GoodStep(l: Local, w: Server.World, v: Server.World, m: Message, reply: Message) {
    && !v.threw
    && v.lastMsg == w.lastMsg + 1
    && v.out == w.out + [reply]
    && reply.source == l.c.server && reply.destination == l.c.actor
    && reply.msgId == v.lastMsg && reply.Txid() == l.c.txid
    && Inv(Local(l.c, v.tx, l.ch - {m} + {reply}))
    && IdsUpTo(Local(l.c, v.tx, l.ch - {m} + {reply}), v.lastMsg)
  }

  ghost predicate Ready(l: Local, w: Server.World, ts: Timestamp) {
    && Inv(l) && IdsUpTo(l, w.lastMsg) && w.tx == l.srv && !w.threw && ts != UNDEFINED_TS
  }

  lemma HandleStart(l: Local, w: Server.World, ts: Timestamp, m: Message) returns (reply: Message)
    requires Ready(l, w, ts) && l.c.phase.StartSent? && m in l.ch && m.destination == l.c.server != l.c.actor
    ensures GoodStep(l, w, Server.Handle(w, ts, m), m, reply)
  {
    var v := Server.Handle(w, ts, m);
    reply := Message(l.c.server, l.c.actor, v.lastMsg, Payload.StartAck(l.c.txid, ts));
    assert l.ch == {m};
    assert l.ch - {m} + {reply} == {reply};
    assert reply in {reply} && IsLetter(reply, l.c.server, l.c.actor, Payload.StartAck(l.c.txid, ts));
  }

  /** Neither decision changes what the barrier is about. */
  lemma BarrierFrame(l: Local, srv: Server.State, ch: set<Message>)
    requires Linked(l) && Barrier(l)
    requires srv == l.srv.(phase := srv.phase, commitTs := srv.commitTs)
    ensures Barrier(Local(l.c, srv, ch))
  {}

  lemma HandleCommit(l: Local, w: Server.World, ts: Timestamp, m: Message) returns (reply: Message)
    requires Ready(l, w, ts) && l.c.phase.CommitSent? && m in l.ch && m.destination == l.c.server != l.c.actor
    ensures GoodStep(l, w, Server.Handle(w, ts, m), m, reply)
  {
    hide Asked, Accounting, Server.FirstConflict, Server.ApplyAll;
    var v := Server.Handle(w, ts, m);
    assert l.srv.phase.Open? && m.payload.Commit? && m.source == l.c.actor && l.ch == {m};
    reply := v.out[|v.out| - 1];
    assert l.ch - {m} + {reply} == {reply};
    var k := Local(l.c, v.tx, {reply});
    BarrierFrame(l, v.tx, {reply});
    hide Barrier;
    if v.tx.phase.RolledBack? {
      assert reply in k.ch && SoleRollback(k);
    } else {
      assert reply in k.ch && Sole(k.ch, l.c.server, l.c.actor, Payload.CommitAck(l.c.txid, ts));
    }
  }

  lemma HandlePut(l: Local, w: Server.World, ts: Timestamp, m: Message) returns (reply: Message)
    requires Ready(l, w, ts) && l.c.phase.Open? && m in l.ch && m.destination == l.c.server != l.c.actor
    ensures GoodStep(l, w, Server.Handle(w, ts, m), m, reply)
  {
    hide Arrivals, PutsTracked, MessageTracked, RepliesUnique, Accounting;
    var v := Server.Handle(w, ts, m);
    reply := Message(l.c.server, l.c.actor, v.lastMsg, Payload.PutReply(l.c.txid, m.msgId));
    assert Indexed(l.R().scheduled, |l.R().puts|) by { AskedIsIndexed(l); }
    var arrived :| Flow(l, arrived);
    ToServerIsPut(l, arrived, m);
    var k := Local(l.c, v.tx, l.ch - {m} + {reply});
    PutArrives(l, k, arrived, m, reply);
  }

  lemma AskedIsIndexed(l: Local)
    requires Linked(l) && Asked(l)
    ensures Indexed(l.R().scheduled, |l.R().puts|)
  {}

  lemma ToServerIsPut(l: Local, arrived: seq<MsgID>, m: Message)
    requires Linked(l) && Indexed(l.R().scheduled, |l.R().puts|)
    requires MessageTracked(l, arrived, m) && m.destination == l.c.server != l.c.actor
    ensures IsPutOf(l, m) && m.msgId !in arrived
  {}

  /** A PUT moves from the network to the server, and its reply takes its place. */
  lemma PutArrives(l: Local, k: Local, arrived: seq<MsgID>, m: Message, reply: Message)
    requires Linked(l) && Indexed(l.R().scheduled, |l.R().puts|)
    requires Flow(l, arrived) && m in l.ch && IsPutOf(l, m) && m.msgId !in arrived
    requires reply == Message(l.c.server, l.c.actor, reply.msgId, Payload.PutReply(l.c.txid, m.msgId))
    requires k == Local(l.c, l.srv.(puts := l.srv.puts + [m.payload.put]), l.ch - {m} + {reply})
    ensures Flow(k, arrived + [m.msgId])
  {
    var after := arrived + [m.msgId];
    forall id | id in k.R().scheduled ensures PutTracked(k, after, id) {
      assert PutTracked(l, arrived, id);
      if id == m.msgId {
        assert reply in k.ch;
      } else if id in arrived && StatusOf(l.R(), id) == Started {
        var n :| n in l.ch && n.payload.PutReply? && n.payload.originalId == id;
        assert n in k.ch;
      }
    }
    forall n | n in k.ch ensures MessageTracked(k, after, n) {
      if n != reply {
        assert MessageTracked(l, arrived, n);
      }
    }
  }

  lemma HandleOne(l: Local, w: Server.World, ts: Timestamp, m: Message) returns (reply: Message)
    requires Ready(l, w, ts) && m in l.ch && m.destination == l.c.server != l.c.actor
    ensures GoodStep(l, w, Server.Handle(w, ts, m), m, reply)
  {
    match l.c.phase {
      case NotStarted =>
      case StartSent => reply := HandleStart(l, w, ts, m);
      case Open => reply := HandlePut(l, w, ts, m);
      case CommitSent => reply := HandleCommit(l, w, ts, m);
      case Committed =>
      case RolledBack =>
    }
  }

  /** Messages sent by `actor` for one transaction, with ids in a range not used before. */
  ghost predicate FreshOutput(out: seq<Message>, actor: ActorID, txid: TxID, from: MsgID, to: MsgID) {
    && from <= to
    && (forall m :: m in out ==> m.source == actor && m.Txid() == txid && from < m.msgId <= to)
    && forall i, j :: 0 <= i < j < |out| ==> out[i].msgId < out[j].msgId
  }

  ghost function AfterServer(l: Local, v: Server.World, msgs: seq<Message>): Local {
    Local(l.c, v.tx, l.ch - Elements(msgs) + Posted(v.out, l.c.server))
  }

  /** Any batch of the messages in flight to the server, in any order, is handled without an exception. */
  lemma {:induction false} HandleBatch(l: Local, w: Server.World, ts: Timestamp, msgs: seq<Message>)
    requires Ready(l, w, ts) && w.out == [] && l.c.server != l.c.actor
    requires InFlight(l.ch, msgs, l.c.server, l.c.txid)
    ensures var v := Server.HandleAll(w, ts, msgs);
            && !v.threw
            && FreshOutput(v.out, l.c.server, l.c.txid, w.lastMsg, v.lastMsg)
            && Inv(AfterServer(l, v, msgs))
            && IdsUpTo(AfterServer(l, v, msgs), v.lastMsg)
            && (forall m :: m in v.out ==> m.destination == l.c.actor)
  {
    hide Inv, Server.Handle;
    if msgs == [] {
      assert AfterServer(l, w, msgs) == l;
      return;
    }
    var n := |msgs| - 1;
    var front, m := msgs[..n], msgs[n];
    HandleBatch(l, w, ts, front);
    var u, v := Server.HandleAll(w, ts, front), Server.HandleAll(w, ts, msgs);
    var k := AfterServer(l, u, front);
    assert m in k.ch;
    var reply := HandleOne(k, u, ts, m);
    assert msgs == front + [m];
    ChannelSnoc(l.ch, front, m, u.out, reply, l.c.server, w.lastMsg);
    FreshSnoc(u.out, reply, l.c.server, l.c.txid, w.lastMsg, u.lastMsg);
  }

  lemma FreshSnoc(out: seq<Message>, m: Message, actor: ActorID, txid: TxID, from: MsgID, to: MsgID)
    requires FreshOutput(out, actor, txid, from, to)
    requires m.source == actor && m.Txid() == txid && m.msgId == to + 1
    ensures FreshOutput(out + [m], actor, txid, from, to + 1)
  {}

  /** Exchanging one more message for its reply. */
  lemma ChannelSnoc(ch: set<Message>, front: seq<Message>, m: Message, out: seq<Message>, reply: Message,
                    actor: ActorID, last: MsgID)
    requires m.msgId <= last && reply.source == actor
    requires forall x :: x in out ==> x.msgId > last
    ensures ch - Elements(front) + Posted(out, actor) - {m} + {reply}
         == ch - Elements(front + [m]) + Posted(out + [reply], actor)
  {}
}
