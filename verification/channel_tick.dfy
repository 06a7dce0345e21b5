/** One tick of a client transaction, phase by phase. */
module ChannelTick {
  import opened TxTypes
  import opened PutRequests
  import opened Participants
  import Server = ServerTransaction
  import Client = ClientTransaction
  import opened Protocol
  import opened Channel
  import opened ChannelServer
  import opened ChannelClient

  ghost function AfterClient(l: Local, w: Client.World, msgs: seq<Message>): Local {
    Local(w.tx, l.srv, l.ch - Elements(msgs) + Posted(w.out, l.c.actor))
  }

  /** The tick did not throw, kept the invariant, and sent only fresh messages to the server. */
  ghost predicate GoodTick(l: Local, ids: Ids, w: Client.World, msgs: seq<Message>) {
    && !w.threw
    && w.tx.actor == l.c.actor && w.tx.spec == l.c.spec && w.tx.server == l.c.server
    && Inv(AfterClient(l, w, msgs))
    && IdsUpTo(AfterClient(l, w, msgs), w.ids.lastMsg)
    && FreshOutput(w.out, l.c.actor, w.tx.txid, ids.lastMsg, w.ids.lastMsg)
    && (forall m :: m in w.out ==> m.destination == l.c.server)
    && (if l.c.txid == w.tx.txid then w.ids.lastTx == ids.lastTx
        else l.c.phase.NotStarted? && w.ids.lastTx == w.tx.txid == ids.lastTx + 1)
  }

  ghost predicate Ticking(l: Local, ids: Ids, ts: Timestamp, msgs: seq<Message>) {
    && Inv(l) && IdsUpTo(l, ids.lastMsg) && l.c.actor != l.c.server
    && InFlight(l.ch, msgs, l.c.actor, l.c.txid)
    && ids.lastTx >= 0
  }

  lemma PostedOne(m: Message)
    ensures Posted([m], m.source) == {m} && Posted([], m.source) == {}
  {}

  lemma FirstTwo(msgs: seq<Message>)
    ensures |msgs| > 0 ==> msgs[0] in msgs
    ensures |msgs| > 1 ==> msgs[1] in msgs
  {}

  /** The only message in flight is delivered or not. */
  lemma SoleDelivery(ch: set<Message>, msgs: seq<Message>, actor: ActorID, txid: TxID, m: Message)
    requires ch == {m} && InFlight(ch, msgs, actor, txid)
    ensures msgs == [] || (msgs == [m] && m.destination == actor)
    ensures ch - Elements(msgs) == if msgs == [] then {m} else {}
  {
    FirstTwo(msgs);
  }

  lemma NoDelivery(msgs: seq<Message>, actor: ActorID, txid: TxID)
    requires InFlight({}, msgs, actor, txid)
    ensures msgs == []
  {
    FirstTwo(msgs);
  }

  lemma TickNotStarted(l: Local, ids: Ids, ts: Timestamp, msgs: seq<Message>)
    requires Ticking(l, ids, ts, msgs) && l.c.phase.NotStarted? && msgs == []
    ensures GoodTick(l, ids, Client.Tick(l.c, ids, ts, msgs), msgs)
  {
    var w := Client.Tick(l.c, ids, ts, msgs);
    var k := AfterClient(l, w, msgs);
    if ts >= l.c.spec.earliestStartTs {
      var m := StartMessage(NewParticipant(l.c.actor, l.c.server), ids);
      assert w.out == [m];
      PostedOne(m);
      assert k.ch == {m};
      assert m in k.ch && IsLetter(m, l.c.actor, l.c.server, Payload.Start(w.tx.txid));
    } else {
      assert k.ch == {};
    }
  }

  lemma TickStartSent(l: Local, ids: Ids, ts: Timestamp, msgs: seq<Message>)
    requires Ticking(l, ids, ts, msgs) && l.c.phase.StartSent?
    ensures GoodTick(l, ids, Client.Tick(l.c, ids, ts, msgs), msgs)
  {
    hide Flowing, Client.Tick;
    var m :| m in l.ch && l.ch == {m};
    SoleDelivery(l.ch, msgs, l.c.actor, l.c.txid, m);
    PostedOne(m.(source := l.c.actor));
    if msgs == [] {
      WaitsForStartAck(l, ids, ts);
      assert AfterClient(l, Client.Tick(l.c, ids, ts, msgs), msgs) == l;
    } else {
      TickStartAck(l, ids, ts, m);
    }
  }

  /** Before its START_ACK arrives a client does nothing. */
  lemma WaitsForStartAck(l: Local, ids: Ids, ts: Timestamp)
    requires l.c.phase.StartSent? && Linked(l) && Starting(l)
    ensures Client.Tick(l.c, ids, ts, []) == Client.World(l.c, ids, [], false)
  {
    hide Sole;
  }

  lemma TickStartAck(l: Local, ids: Ids, ts: Timestamp, m: Message)
    requires Ticking(l, ids, ts, [m]) && l.c.phase.StartSent? && l.ch == {m} && m.destination == l.c.actor
    ensures GoodTick(l, ids, Client.Tick(l.c, ids, ts, [m]), [m])
  {
    OnlyStartAck(l, m);
    StartAckOpens(l, ids, ts, m);
    hide Flowing, Starting, Sole, Client.Tick;
    var w := Client.Tick(l.c, ids, ts, [m]);
    PostedOne(m.(source := l.c.actor));
    var k := AfterClient(l, w, [m]);
    assert k.ch == {};
    OpenedFlows(k);
  }

  /** What a client does with its START_ACK. */
  lemma StartAckOpens(l: Local, ids: Ids, ts: Timestamp, m: Message)
    requires Linked(l) && l.c.phase.StartSent? && l.P().phase.StartMsgSent? && l.R() == EMPTY
    requires l.P().readTs == UNDEFINED_TS != l.srv.readTs
    requires m == Message(l.c.server, l.c.actor, m.msgId, Payload.StartAck(l.c.txid, l.srv.readTs))
    ensures Client.Tick(l.c, ids, ts, [m])
         == Client.World(l.c.(participant := Some(l.P().(readTs := l.srv.readTs, phase := Participants.Phase.TxOpen)),
                              readTs := l.srv.readTs, phase := Client.Open), ids, [], false)
  {
    RepliesAll([m], l.c.server);
    assert OpenedBy(l.P(), [m]) == Some(l.P().(readTs := l.srv.readTs, phase := Participants.Phase.TxOpen));
  }

  /** A client waiting for START_ACK is sent nothing else. */
  lemma OnlyStartAck(l: Local, m: Message)
    requires Linked(l) && Starting(l) && m in l.ch && m.destination == l.c.actor != l.c.server
    ensures l.srv == Server.State(Server.Phase.Open, l.c.txid, l.srv.readTs, UNDEFINED_TS, [])
    ensures l.srv.readTs != UNDEFINED_TS
    ensures m == Message(l.c.server, l.c.actor, m.msgId, Payload.StartAck(l.c.txid, l.srv.readTs))
  {}

  /** An opened transaction with no request yet. */
  lemma OpenedFlows(k: Local)
    requires Linked(k) && Opened(k) && k.R() == EMPTY && k.c.nextPut == 0 && k.ch == {}
    requires k.srv == Server.State(Server.Phase.Open, k.c.txid, k.srv.readTs, UNDEFINED_TS, [])
    requires k.c.commitTs == UNDEFINED_TS && k.c.conflictTxid == UNDEFINED_TX_ID
    ensures Flowing(k)
  {
    assert Exported([]) == [];
    assert Flow(k, []);
  }

  lemma TickDecided(l: Local, ids: Ids, ts: Timestamp, msgs: seq<Message>)
    requires Ticking(l, ids, ts, msgs) && (l.c.phase.Committed? || l.c.phase.RolledBack?)
    ensures GoodTick(l, ids, Client.Tick(l.c, ids, ts, msgs), msgs)
  {
    hide Client.Tick, Inv, IdsUpTo;
    DecidedStays(l, ids, ts, msgs);
    PostedOne(Message(l.c.actor, 0, 0, Payload.Undefined));
    assert AfterClient(l, Client.Tick(l.c, ids, ts, msgs), msgs) == l;
  }

  /** A client that knows the decision is handed nothing, changes nothing and sends nothing. */
  lemma DecidedStays(l: Local, ids: Ids, ts: Timestamp, msgs: seq<Message>)
    requires Inv(l) && (l.c.phase.Committed? || l.c.phase.RolledBack?)
    requires InFlight(l.ch, msgs, l.c.actor, l.c.txid)
    ensures msgs == [] && Client.Tick(l.c, ids, ts, msgs) == Client.World(l.c, ids, [], false)
  {
    hide Accounting;
    NoDelivery(msgs, l.c.actor, l.c.txid);
    AllScheduled(l, ids, msgs);
  }

  /** Past the barrier the participant neither changes nor sends anything. */
  lemma AllScheduled(l: Local, ids: Ids, msgs: seq<Message>)
    requires Linked(l) && Barrier(l)
    requires forall m :: m in msgs ==> !Client.IsReplyFrom(m, l.c.server)
    ensures Client.Receive(Client.World(l.c, ids, [], false), msgs) == Client.World(l.c, ids, [], false)
    ensures Scheduled(l.P(), ids.lastMsg) == Batch(l.R(), ids.lastMsg, [])
  {
    RepliesNone(msgs, l.c.server);
    assert Acknowledged(l.R(), []) == l.R();
  }

  lemma TickCommitSent(l: Local, ids: Ids, ts: Timestamp, msgs: seq<Message>)
    requires Ticking(l, ids, ts, msgs) && l.c.phase.CommitSent?
    ensures GoodTick(l, ids, Client.Tick(l.c, ids, ts, msgs), msgs)
  {
    hide Accounting;
    var m :| m in l.ch && l.ch == {m};
    SoleDelivery(l.ch, msgs, l.c.actor, l.c.txid, m);
    AllScheduled(l, ids, msgs);
    PostedOne(m.(source := l.c.actor));
    var w := Client.Tick(l.c, ids, ts, msgs);
    var before := Client.World(l.c, ids, [], false);
    if msgs == [] {
      assert w == before;
      assert AfterClient(l, w, msgs) == l;
    } else {
      assert Client.Decide(before, msgs[..0]) == before;
      assert AfterClient(l, w, msgs).ch == {};
    }
  }

  /** In OPEN a tick first acknowledges the replies it is handed, then moves as in `MoveOpen`. */
  lemma AfterReplies(l: Local, ids: Ids, ts: Timestamp, msgs: seq<Message>) returns (k: Local, arrived: seq<MsgID>)
    requires Ticking(l, ids, ts, msgs) && l.c.phase.Open?
    ensures OpenAndTracked(k, arrived) && IdsUpTo(k, ids.lastMsg)
    ensures k == WithRequests(l, Acknowledged(l.R(), msgs), l.ch - Elements(msgs))
    ensures Client.Tick(l.c, ids, ts, msgs)
         == Client.ScheduleAll(Client.Advance(Client.World(k.c, ids, [], false), ts, []))
  {
    hide Flow, Accounting;
    TrackedWhenFlowing(l);
    arrived :| Tracked(l, arrived);
    RepliesOfBatch(l, arrived, msgs);
    AcknowledgeBatch(l, arrived, msgs);
    k := WithRequests(l, Acknowledged(l.R(), msgs), l.ch - Elements(msgs));
    var received := Client.Receive(Client.World(l.c, ids, [], false), msgs);
    assert received == Client.World(k.c, ids, [], false);
    AskedAfterReplies(l, k, msgs);
  }

  lemma TickOpen(l: Local, ids: Ids, ts: Timestamp, msgs: seq<Message>)
    requires Ticking(l, ids, ts, msgs) && l.c.phase.Open?
    ensures GoodTick(l, ids, Client.Tick(l.c, ids, ts, msgs), msgs)
  {
    hide Flow, Accounting, Opened, Asked, Client.Advance, Client.ScheduleAll;
    var k, arrived := AfterReplies(l, ids, ts, msgs);
    MoveOpen(k, arrived, ids, ts);
    hide OpenAndTracked, Channel.Inv;
    var w := Client.Tick(l.c, ids, ts, msgs);
    assert AfterClient(l, w, msgs) == AfterClient(k, w, []);
  }

  lemma TrackedWhenFlowing(l: Local)
    requires Linked(l) && Flowing(l)
    ensures exists arrived :: Tracked(l, arrived)
  {
    var arrived :| Flow(l, arrived);
    assert Tracked(l, arrived);
  }

  lemma RepliesOfBatch(l: Local, arrived: seq<MsgID>, msgs: seq<Message>)
    requires Tracked(l, arrived) && l.c.actor != l.c.server && InFlight(l.ch, msgs, l.c.actor, l.c.txid)
    ensures Client.Replies(msgs, l.c.server) == msgs
  {
    forall m | m in msgs ensures Client.IsReplyFrom(m, l.c.server) {
      FromServerIsReply(l, arrived, m);
    }
    RepliesAll(msgs, l.c.server);
  }

  lemma AskedAfterReplies(l: Local, k: Local, msgs: seq<Message>)
    requires Linked(l) && Asked(l)
    requires k.c.participant.Some? && k.c == l.c.(participant := Some(l.P().(reqs := k.R())))
    requires Accounting(k.R()) && k.R().next == |k.R().puts| == |l.R().puts|
    requires forall j :: 0 <= j < |l.R().puts| ==> k.R().puts[j].put == l.R().puts[j].put
    ensures Linked(k) && Asked(k)
  {}

  ghost predicate OpenAndTracked(k: Local, arrived: seq<MsgID>) {
    && Tracked(k, arrived)
    && Opened(k) && Asked(k)
    && k.c.phase.Open?
    && k.srv.phase.Open? && k.srv.commitTs == k.c.commitTs == UNDEFINED_TS
    && k.c.conflictTxid == UNDEFINED_TX_ID
  }

  predicate CanSend(c: Client.State, ts: Timestamp) {
    c.nextPut < |c.spec.puts| && ts >= c.spec.puts[c.nextPut].earliestTs
  }

  ghost predicate CanCommit(k: Local, ts: Timestamp)
    requires k.c.participant.Some?
  {
    k.R().completed == |k.c.spec.puts| && ts >= k.c.spec.earliestCommitTs && k.c.spec.action.CommitAction?
  }

  /** With the replies handled: send the next put, or COMMIT once all are acknowledged, or wait. */
  lemma MoveOpen(k: Local, arrived: seq<MsgID>, ids: Ids, ts: Timestamp)
    requires OpenAndTracked(k, arrived) && IdsUpTo(k, ids.lastMsg) && k.c.actor != k.c.server
    ensures var w := Client.ScheduleAll(Client.Advance(Client.World(k.c, ids, [], false), ts, []));
            && GoodTick(k, ids, w, []) && w.tx.txid == k.c.txid
            && (if CanSend(k.c, ts) then
                  && w.tx.phase.Open? && w.tx.nextPut == k.c.nextPut + 1 && |w.out| == 1
                  && w.out[0].payload == Payload.Put(k.c.txid, k.c.spec.puts[k.c.nextPut].put)
                else if CanCommit(k, ts) then
                  w.tx.phase.CommitSent? && |w.out| == 1 && w.out[0].payload.Commit?
                else
                  w.tx == k.c && w.out == [])
  {
    hide Flow, Accounting;
    if CanSend(k.c, ts) {
      MoveBySending(k, arrived, ids, ts);
    } else if CanCommit(k, ts) {
      CompletedAtMost(k.R());
      MoveByCommitting(k, arrived, ids, ts);
    } else {
      var w := Client.ScheduleAll(Client.Advance(Client.World(k.c, ids, [], false), ts, []));
      PostedOne(Message(k.c.actor, 0, 0, Payload.Undefined));
      assert AfterClient(k, w, []) == k;
    }
  }

  lemma CompletedAtMost(r: Requests)
    requires Accounting(r)
    ensures r.completed <= |r.puts|
  {
    AllExported(r.puts);
  }

  lemma MoveBySending(k: Local, arrived: seq<MsgID>, ids: Ids, ts: Timestamp)
    requires OpenAndTracked(k, arrived) && IdsUpTo(k, ids.lastMsg) && k.c.actor != k.c.server
    requires CanSend(k.c, ts)
    ensures var w := Client.ScheduleAll(Client.Advance(Client.World(k.c, ids, [], false), ts, []));
            && GoodTick(k, ids, w, []) && w.tx.txid == k.c.txid
            && w.tx.phase.Open? && w.tx.nextPut == k.c.nextPut + 1 && |w.out| == 1
            && w.out[0].payload == Payload.Put(k.c.txid, k.c.spec.puts[k.c.nextPut].put)
  {
    hide Flow, Accounting;
    var put, id := k.c.spec.puts[k.c.nextPut].put, ids.lastMsg + 1;
    CompletedAtMost(k.R());
    SendOne(k, arrived, put, id);
    var b := Prepare(Batch(AddPut(k.R(), put), ids.lastMsg, []), k.c.actor, k.c.server, k.c.txid);
    var w := Client.ScheduleAll(Client.Advance(Client.World(k.c, ids, [], false), ts, []));
    var c := k.c.(participant := Some(k.P().(reqs := b.reqs)), nextPut := k.c.nextPut + 1);
    assert w == Client.World(c, ids.(lastMsg := id), b.out, false);
    PostedOne(b.out[0]);
    var after := AfterClient(k, w, []);
    assert after == Local(c, k.srv, k.ch + {b.out[0]});
    FlowFrame(WithRequests(k, b.reqs, after.ch), after, arrived);
  }

  /** The flow does not depend on how many puts the client has asked for. */
  lemma FlowFrame(k: Local, after: Local, arrived: seq<MsgID>)
    requires Tracked(k, arrived) && after == k.(c := k.c.(nextPut := after.c.nextPut))
    ensures Tracked(after, arrived)
  {}

  lemma CommitIsScheduled(k: Local, ids: Ids, ts: Timestamp)
    requires Linked(k) && k.c.phase.Open? && k.R().next == |k.R().puts|
    requires CanCommit(k, ts) && !(k.c.nextPut < |k.c.spec.puts|)
    ensures Client.ScheduleAll(Client.Advance(Client.World(k.c, ids, [], false), ts, []))
         == Client.World(k.c.(phase := Client.CommitSent), ids.(lastMsg := ids.lastMsg + 1),
                         [Message(k.c.actor, k.c.server, ids.lastMsg + 1, Payload.Commit(k.c.txid))], false)
  {}

  lemma MoveByCommitting(k: Local, arrived: seq<MsgID>, ids: Ids, ts: Timestamp)
    requires OpenAndTracked(k, arrived) && IdsUpTo(k, ids.lastMsg) && k.c.actor != k.c.server
    requires CanCommit(k, ts) && !(k.c.nextPut < |k.c.spec.puts|)
    ensures var w := Client.ScheduleAll(Client.Advance(Client.World(k.c, ids, [], false), ts, []));
            && GoodTick(k, ids, w, []) && w.tx.txid == k.c.txid
            && w.tx.phase.CommitSent? && |w.out| == 1 && w.out[0].payload.Commit?
  {
    hide Flow, Accounting, Inv, IdsUpTo, Client.Advance, Client.ScheduleAll;
    var m := Message(k.c.actor, k.c.server, ids.lastMsg + 1, Payload.Commit(k.c.txid));
    var w := Client.ScheduleAll(Client.Advance(Client.World(k.c, ids, [], false), ts, []));
    CommitIsScheduled(k, ids, ts);
    PostedOne(m);
    var after := AfterClient(k, w, []);
    BarrierReached(k, arrived);
    assert after == Local(w.tx, k.srv, {m});
    CommittingDecides(k, arrived, m);
    AfterLast(k, ids.lastMsg, after, m);
  }

  /** COMMIT, sent with everything acknowledged, is alone in flight. */
  lemma CommittingDecides(k: Local, arrived: seq<MsgID>, m: Message)
    requires OpenAndTracked(k, arrived) && k.R().completed == |k.c.spec.puts| && k.c.spec.action.CommitAction?
    requires k.c.nextPut == |k.c.spec.puts|
    requires IsLetter(m, k.c.actor, k.c.server, Payload.Commit(k.c.txid))
    ensures Inv(Local(k.c.(phase := Client.CommitSent), k.srv, {m}))
  {
    hide Flow, Accounting;
    BarrierReached(k, arrived);
    SpecIsExported(k);
    assert m in {m};
  }

  /** The ids stay bounded when one new message is all that is in flight. */
  lemma AfterLast(k: Local, last: MsgID, after: Local, m: Message)
    requires IdsUpTo(k, last) && after.ch == {m} && m.msgId == last + 1 && after.c.participant == k.c.participant
    ensures IdsUpTo(after, last + 1)
  {}

  lemma SpecIsExported(k: Local)
    requires Linked(k) && Asked(k) && k.R().completed == |k.R().puts| == |k.c.spec.puts|
    ensures Exported(k.R().puts) == SpecPuts(k.c.spec)
  {
    AllExported(k.R().puts);
  }

  /** Any tick of a client, whatever replies it is handed, keeps the invariant and does not throw. */
  lemma TickKeepsInv(l: Local, ids: Ids, ts: Timestamp, msgs: seq<Message>)
    requires Ticking(l, ids, ts, msgs) && (l.c.phase.NotStarted? ==> msgs == [])
    ensures GoodTick(l, ids, Client.Tick(l.c, ids, ts, msgs), msgs)
  {
    hide GoodTick, Client.Tick, Linked, Flowing, Deciding, Finished, Starting;
    match l.c.phase {
      case NotStarted => TickNotStarted(l, ids, ts, msgs);
      case StartSent => TickStartSent(l, ids, ts, msgs);
      case Open => TickOpen(l, ids, ts, msgs);
      case CommitSent => TickCommitSent(l, ids, ts, msgs);
      case _ => TickDecided(l, ids, ts, msgs);
    }
  }
}
