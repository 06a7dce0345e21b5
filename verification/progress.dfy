/**
  Progress under the tick runtime: within one tick every queued message is delivered, and every client transaction
  ticks once. A transaction with a COMMIT spec then reaches a decision within a bounded number of ticks.
 */
module Progress {
  import opened TxTypes
  import opened PutRequests
  import Server = ServerTransaction
  import Client = ClientTransaction
  import opened Protocol
  import opened Channel
  import opened ChannelServer
  import opened ChannelClient
  import opened ChannelTick
  import opened Safety

  // --- Prefixes of a run ---

  ghost function At(s: System, steps: seq<Step>, k: nat): System
    requires ValidRun(s, steps) && k <= |steps|
    decreases k
  {
    if k == 0 then s else At(Next(s, steps[0]), steps[1..], k - 1)
  }

  lemma {:induction false} AtStep(s: System, steps: seq<Step>, k: nat)
    requires ValidRun(s, steps) && k < |steps|
    ensures Enabled(At(s, steps, k), steps[k])
    ensures At(s, steps, k + 1) == Next(At(s, steps, k), steps[k])
    decreases k
  {
    hide Enabled, Next;
    if k == 0 {
    } else {
      AtStep(Next(s, steps[0]), steps[1..], k - 1);
    }
  }

  lemma {:induction false} AtEnd(s: System, steps: seq<Step>)
    requires ValidRun(s, steps)
    ensures At(s, steps, |steps|) == Run(s, steps)
    decreases |steps|
  {
    hide Enabled, Next;
    if steps == [] {
    } else {
      AtEnd(Next(s, steps[0]), steps[1..]);
    }
  }

  lemma {:induction false} InvAt(s: System, steps: seq<Step>, k: nat)
    requires Safety.Inv(s) && ValidRun(s, steps) && k <= |steps|
    ensures Safety.Inv(At(s, steps, k))
    decreases k
  {
    hide Enabled, Next, Safety.Inv;
    if k == 0 {
    } else {
      StepKeeps(s, steps[0]);
      InvAt(Next(s, steps[0]), steps[1..], k - 1);
    }
  }

  // --- The tick runtime ---

  ghost predicate Delivers(steps: seq<Step>, k: nat, m: Message) {
    k < |steps| && m in steps[k].msgs
  }

  /**
    One tick of the runtime: everything queued at its start is delivered and nothing else, each client transaction
    ticks once, and each server transaction with messages ticks once.
   */
  ghost predicate IsTick(s: System, steps: seq<Step>) {
    && ValidRun(s, steps)
    && (forall k: nat, m :: Delivers(steps, k, m) ==> m in s.net)
    && (forall m :: m in s.net ==> exists k: nat :: Delivers(steps, k, m))
    && (forall i: nat :: i < |s.clients| ==> HasClientTick(steps, i))
    && NoRepeats(steps)
  }

  ghost predicate HasClientTick(steps: seq<Step>, i: nat) {
    exists k: nat :: TicksClient(steps, k, i)
  }

  ghost predicate TicksClient(steps: seq<Step>, k: nat, i: nat) {
    k < |steps| && steps[k].ClientTick? && steps[k].i == i
  }

  /** Two steps of the same transaction on the same side. */
  ghost predicate SameActor(steps: seq<Step>, j: nat, k: nat) {
    && j < |steps| && k < |steps|
    && (|| (steps[j].ServerTick? && steps[k].ServerTick? && steps[j].txid == steps[k].txid)
        || (steps[j].ClientTick? && steps[k].ClientTick? && steps[j].i == steps[k].i))
  }

  ghost predicate NoRepeats(steps: seq<Step>) {
    forall j: nat, k: nat :: j < k ==> !SameActor(steps, j, k)
  }

  ghost predicate IsTicks(s: System, ticks: seq<seq<Step>>)
    decreases |ticks|
  {
    ticks != [] ==> IsTick(s, ticks[0]) && IsTicks(Run(s, ticks[0]), ticks[1..])
  }

  ghost function RunTicks(s: System, ticks: seq<seq<Step>>): System
    requires IsTicks(s, ticks)
    decreases |ticks|
  {
    if ticks == [] then s else RunTicks(Run(s, ticks[0]), ticks[1..])
  }

  // --- The ranking function ---

  ghost predicate PutInFlight(ch: set<Message>) {
    exists m :: m in ch && m.payload.Put?
  }

  /** The most ticks still needed once all the spec's times have passed. */
  ghost function Rank(l: Local): nat
    requires l.c.phase.Open? ==> l.c.nextPut <= |l.c.spec.puts|
  {
    var n := |l.c.spec.puts|;
    match l.c.phase
    case NotStarted => n + 7
    case StartSent => if l.srv.phase.NotStarted? then n + 6 else n + 5
    case Open => if l.c.nextPut < n then n - l.c.nextPut + 4 else if PutInFlight(l.ch) then 4 else 3
    case CommitSent => if l.srv.phase.Open? then 2 else 1
    case _ => 0
  }

  lemma InvBounds(l: Local)
    requires Channel.Inv(l)
    ensures l.c.phase.Open? ==> l.c.nextPut <= |l.c.spec.puts|
  {}

  ghost function RankOf(s: System, i: nat): nat
    requires Safety.Inv(s) && i < |s.clients|
  {
    assert Channel.Inv(LocalOf(s, i));
    InvBounds(LocalOf(s, i));
    Rank(LocalOf(s, i))
  }

  // --- No step raises the rank ---

  /** What a handled batch does to the server record of an open, starting or committing transaction. */
  lemma ServerRank(l: Local, w: Server.World, ts: Timestamp, msgs: seq<Message>)
    requires Ready(l, w, ts) && w.out == [] && l.c.server != l.c.actor && msgs != []
    requires InFlight(l.ch, msgs, l.c.server, l.c.txid)
    ensures var k := AfterServer(l, Server.HandleAll(w, ts, msgs), msgs);
            && (l.c.phase.Open? ==> l.c.nextPut <= |l.c.spec.puts|)
            && Rank(k) <= Rank(l)
            && (!l.c.phase.Open? ==> Rank(k) < Rank(l))
  {
    hide Flowing, Barrier;
    InvBounds(l);
    HandleBatch(l, w, ts, msgs);
    var v := Server.HandleAll(w, ts, msgs);
    var k := AfterServer(l, v, msgs);
    assert msgs[0] in msgs;
    if l.c.phase.Open? {
      if PutInFlight(k.ch) {
        var m :| m in k.ch && m.payload.Put?;
        ServerSendsNoPut(w, ts, msgs);
        assert m in l.ch;
      }
    } else {
      SoleBatch(l, msgs);
      assert Server.HandleAll(w, ts, msgs[..0]) == w;
    }
  }

  /** Outside OPEN there is one message in flight at most. */
  lemma SoleBatch(l: Local, msgs: seq<Message>)
    requires Channel.Inv(l) && !l.c.phase.Open? && l.c.server != l.c.actor && msgs != []
    requires InFlight(l.ch, msgs, l.c.server, l.c.txid)
    ensures msgs == [msgs[0]] && (msgs[0].payload.Start? || msgs[0].payload.Commit?)
    ensures l.c.phase.StartSent? ==> l.srv == Server.FRESH && msgs[0].payload.Start?
    ensures l.c.phase.CommitSent? ==> l.srv.phase.Open? && msgs[0].payload.Commit?
    ensures l.c.phase.StartSent? || l.c.phase.CommitSent?
  {
    hide Barrier;
    assert msgs[0] in msgs;
    assert l.ch == {msgs[0]};
    SoleDelivery(l.ch, msgs, l.c.server, l.c.txid, msgs[0]);
  }

  lemma HandleSendsNoPut(w: Server.World, ts: Timestamp, m: Message)
    requires forall x :: x in w.out ==> !x.payload.Put?
    ensures forall x :: x in Server.Handle(w, ts, m).out ==> !x.payload.Put?
  {
    hide Server.FirstConflict, Server.ApplyAll;
  }

  lemma {:induction false} ServerSendsNoPut(w: Server.World, ts: Timestamp, msgs: seq<Message>)
    requires forall m :: m in w.out ==> !m.payload.Put?
    ensures forall m :: m in Server.HandleAll(w, ts, msgs).out ==> !m.payload.Put?
    ensures forall m :: m in Posted(Server.HandleAll(w, ts, msgs).out, 0) ==> !m.payload.Put?
  {
    hide Server.Handle;
    if msgs == [] {
    } else {
      var n := |msgs| - 1;
      ServerSendsNoPut(w, ts, msgs[..n]);
      HandleSendsNoPut(Server.HandleAll(w, ts, msgs[..n]), ts, msgs[n]);
    }
  }

  /** The latest time a spec mentions has passed. */
  predicate TimesPassed(spec: Client.TxSpec, ts: Timestamp) {
    && spec.earliestStartTs <= ts
    && spec.earliestCommitTs <= ts
    && forall j :: 0 <= j < |spec.puts| ==> spec.puts[j].earliestTs <= ts
  }

  /** A client's tick that is bound to make progress: it has a message to react to, or nothing to wait for. */
  ghost predicate Pressing(l: Local, ts: Timestamp, msgs: seq<Message>)
    requires l.c.phase.Open? ==> l.c.nextPut <= |l.c.spec.puts|
  {
    match l.c.phase
    case NotStarted => TimesPassed(l.c.spec, ts)
    case StartSent => msgs != []
    case Open =>
      if l.c.nextPut < |l.c.spec.puts| then TimesPassed(l.c.spec, ts)
      else TimesPassed(l.c.spec, ts) && l.c.spec.action.CommitAction? && Elements(msgs) == l.ch
    case CommitSent => msgs != []
    case _ => false
  }

  lemma ClientRank(l: Local, ids: Ids, ts: Timestamp, msgs: seq<Message>)
    requires Ticking(l, ids, ts, msgs) && (l.c.phase.NotStarted? ==> msgs == [])
    ensures var k := AfterClient(l, Client.Tick(l.c, ids, ts, msgs), msgs);
            && Channel.Inv(k)
            && (l.c.phase.Open? ==> l.c.nextPut <= |l.c.spec.puts|)
            && (k.c.phase.Open? ==> k.c.nextPut <= |k.c.spec.puts|)
            && Rank(k) <= Rank(l)
            && (Pressing(l, ts, msgs) ==> Rank(k) < Rank(l))
  {
    hide Client.Tick, Channel.Inv;
    TickKeepsInv(l, ids, ts, msgs);
    var w := Client.Tick(l.c, ids, ts, msgs);
    var k := AfterClient(l, w, msgs);
    InvBounds(l);
    InvBounds(k);
    match l.c.phase {
      case NotStarted => RankNotStarted(l, ids, ts, msgs);
      case StartSent => RankStartSent(l, ids, ts, msgs);
      case Open => RankOpen(l, ids, ts, msgs);
      case CommitSent => RankCommitSent(l, ids, ts, msgs);
      case _ => RankDecided(l, ids, ts, msgs);
    }
  }

  lemma RankNotStarted(l: Local, ids: Ids, ts: Timestamp, msgs: seq<Message>)
    requires Ticking(l, ids, ts, msgs) && l.c.phase.NotStarted? && msgs == []
    ensures var c := Client.Tick(l.c, ids, ts, msgs).tx;
            && c.spec == l.c.spec
            && c.phase == if l.c.spec.earliestStartTs <= ts then Client.StartSent else Client.ClientPhase.NotStarted
    ensures l.srv == Server.FRESH
  {}

  lemma RankStartSent(l: Local, ids: Ids, ts: Timestamp, msgs: seq<Message>)
    requires Ticking(l, ids, ts, msgs) && l.c.phase.StartSent?
    ensures var c := Client.Tick(l.c, ids, ts, msgs).tx;
            c.spec == l.c.spec && if msgs == [] then c == l.c else c.phase.Open? && l.srv.phase.Open?
  {
    hide Flowing, Client.Tick;
    var m :| m in l.ch && l.ch == {m};
    SoleDelivery(l.ch, msgs, l.c.actor, l.c.txid, m);
    if msgs == [] {
      WaitsForStartAck(l, ids, ts);
    } else {
      OnlyStartAck(l, m);
      StartAckOpens(l, ids, ts, m);
    }
  }

  lemma RankCommitSent(l: Local, ids: Ids, ts: Timestamp, msgs: seq<Message>)
    requires Ticking(l, ids, ts, msgs) && l.c.phase.CommitSent?
    ensures var c := Client.Tick(l.c, ids, ts, msgs).tx;
            c.spec == l.c.spec && if msgs == [] then c == l.c else c.phase.Committed? || c.phase.RolledBack?
  {
    hide Accounting;
    var m :| m in l.ch && l.ch == {m};
    SoleDelivery(l.ch, msgs, l.c.actor, l.c.txid, m);
    AllScheduled(l, ids, msgs);
    var before := Client.World(l.c, ids, [], false);
    if msgs != [] {
      assert Client.Decide(before, msgs[..0]) == before;
    }
  }

  lemma RankDecided(l: Local, ids: Ids, ts: Timestamp, msgs: seq<Message>)
    requires Ticking(l, ids, ts, msgs) && (l.c.phase.Committed? || l.c.phase.RolledBack?)
    ensures Client.Tick(l.c, ids, ts, msgs).tx == l.c
  {
    hide Accounting;
    NoDelivery(msgs, l.c.actor, l.c.txid);
    AllScheduled(l, ids, msgs);
  }

  lemma RankOpen(l: Local, ids: Ids, ts: Timestamp, msgs: seq<Message>)
    requires Ticking(l, ids, ts, msgs) && l.c.phase.Open?
    requires l.c.nextPut <= |l.c.spec.puts|
    requires var c := Client.Tick(l.c, ids, ts, msgs).tx; c.phase.Open? ==> c.nextPut <= |c.spec.puts|
    ensures var k := AfterClient(l, Client.Tick(l.c, ids, ts, msgs), msgs);
            && k.c.spec == l.c.spec && (k.c.phase.Open? ==> k.c.nextPut <= |k.c.spec.puts|)
            && Rank(k) <= Rank(l)
            && (Pressing(l, ts, msgs) ==> Rank(k) < Rank(l))
  {
    hide Flow, Accounting, Opened, Asked, Client.Advance, Client.ScheduleAll, Client.Tick;
    var k, arrived := AfterReplies(l, ids, ts, msgs);
    MoveOpen(k, arrived, ids, ts);
    var w := Client.Tick(l.c, ids, ts, msgs);
    var after := AfterClient(l, w, msgs);
    if CanSend(k.c, ts) {
      assert w.out == [w.out[0]];
      PostedOne(w.out[0]);
      assert w.out[0] in after.ch;
    } else if !CanCommit(k, ts) {
      assert after.ch == k.ch;
      assert forall m :: m in after.ch ==> m in l.ch;
      if Pressing(l, ts, msgs) {
        assert k.ch == {};
        NothingPendingMeansDone(k, arrived);
        AskedCount(k);
      }
    }
  }

  lemma AskedCount(k: Local)
    requires Linked(k) && Asked(k)
    ensures |k.R().puts| == k.c.nextPut
  {}

  /** With nothing in flight every put asked for is acknowledged. */
  lemma NothingPendingMeansDone(k: Local, arrived: seq<MsgID>)
    requires Tracked(k, arrived) && k.ch == {}
    ensures k.R().completed == |k.R().puts|
  {
    var r := k.R();
    forall j | 0 <= j < |r.puts| ensures r.puts[j].status == Completed {
      assert HasId(r.scheduled, j);
      var id :| id in r.scheduled && r.scheduled[id] == j;
      assert PutTracked(k, arrived, id);
    }
    AllExported(r.puts);
  }
}
