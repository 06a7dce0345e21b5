/**
  Under the tick runtime the server receives the puts of a transaction in the order of its spec: a client sends at
  most one PUT per tick, and all PUTs of one tick arrive in the next.
 */
module PutOrder {
  import opened TxTypes
  import opened VersionStore
  import Server = ServerTransaction
  import Client = ClientTransaction
  import opened Protocol
  import opened Channel
  import opened ChannelServer
  import opened ChannelTick
  import opened StoreSafety
  import opened Safety
  import opened Progress
  import opened ProgressTicks
  import opened Theorems
  import opened ActorTicks
  import TickTurns

  function Carried(m: Option<Message>): seq<KeyValue> {
    if m.Some? && m.value.payload.Put? then [m.value.payload.put] else []
  }

  /** The PUTs in flight are `a` and then `b`; what the server has and they carry is what the client has asked for. */
  ghost predicate InLine(l: Local, a: Option<Message>, b: Option<Message>) {
    && (forall m :: m in l.ch && m.payload.Put? ==> a == Some(m) || b == Some(m))
    && (a.Some? ==> a.value in l.ch && a.value.payload.Put?)
    && (b.Some? ==> b.value in l.ch && b.value.payload.Put?)
    && l.c.nextPut <= |l.c.spec.puts|
    && l.srv.puts + Carried(a) + Carried(b) == SpecPuts(l.c.spec)[..l.c.nextPut]
  }

  /** What the batch adds to the server's puts, and that it is what `a` carries. */
  lemma BatchPuts(l: Local, w: Server.World, ts: Timestamp, msgs: seq<Message>, a: Option<Message>, b: Option<Message>)
    requires Ready(l, w, ts) && l.c.server != l.c.actor && msgs != []
    requires InFlight(l.ch, msgs, l.c.server, l.c.txid)
    requires InLine(l, a, b) && forall m :: m in msgs ==> b != Some(m)
    ensures Server.HandleAll(w, ts, msgs).tx.puts == l.srv.puts + Carried(a)
    ensures a.Some? ==> a.value in msgs
  {
    hide Flowing, Barrier;
    assert Server.HandleAll(w, ts, msgs[..0]) == w;
    if l.c.phase.Open? {
      OpenMessages(l);
      OnlyOne(msgs, a);
      OpenServer(l);
    } else {
      SoleBatch(l, msgs);
      assert msgs[0] in msgs;
    }
  }

  lemma OpenServer(l: Local)
    requires Channel.Inv(l) && l.c.phase.Open?
    ensures l.srv.phase.Open?
  {}

  /** The server's tick takes the PUT that was in flight first, if it takes none sent later. */
  lemma ServerInLine(l: Local, w: Server.World, ts: Timestamp, msgs: seq<Message>, a: Option<Message>,
                     b: Option<Message>)
    requires Ready(l, w, ts) && w.out == [] && l.c.server != l.c.actor && msgs != []
    requires InFlight(l.ch, msgs, l.c.server, l.c.txid)
    requires InLine(l, a, b) && forall m :: m in msgs ==> b != Some(m)
    ensures InLine(AfterServer(l, Server.HandleAll(w, ts, msgs), msgs), None, b)
  {
    BatchPuts(l, w, ts, msgs, a, b);
    ServerSendsNoPut(w, ts, msgs);
    hide Server.HandleAll, Ready;
    var v := Server.HandleAll(w, ts, msgs);
    var k := AfterServer(l, v, msgs);
    forall m | m in k.ch && m.payload.Put? ensures b == Some(m) {
      assert m !in Posted(v.out, l.c.server) by { PostedPuts(v.out, l.c.server); }
    }
  }

  lemma PostedPuts(out: seq<Message>, actor: ActorID)
    requires forall m :: m in out ==> !m.payload.Put?
    ensures forall m :: m in Posted(out, actor) ==> !m.payload.Put?
  {}

  lemma OnlyOne(msgs: seq<Message>, a: Option<Message>)
    requires Distinct(msgs) && msgs != [] && forall m :: m in msgs ==> a == Some(m)
    ensures a.Some? && msgs == [a.value]
  {
    FirstTwo(msgs);
  }

  /** Before OPEN there is no put yet, and past the barrier there is none left. */
  lemma PhaseLines(l: Local)
    requires Channel.Inv(l)
    ensures l.c.phase.NotStarted? || l.c.phase.StartSent? ==> InLine(l, None, None)
    ensures PastBarrier(l.c) ==> l.c.nextPut == |l.c.spec.puts| && forall m :: m in l.ch ==> !m.payload.Put?
  {}

  /** Past the barrier the server has the spec's puts in order. */
  lemma LineAtEnd(l: Local, a: Option<Message>)
    requires Channel.Inv(l) && PastBarrier(l.c) && InLine(l, a, None)
    ensures a.None? && l.srv.puts == SpecPuts(l.c.spec)
  {
    hide Channel.Inv;
    PhaseLines(l);
  }

  lemma LineFrame(l: Local, k: Local, a: Option<Message>)
    requires InLine(l, a, None) && PastBarrier(k.c) && PhaseDone(k) && k.srv == l.srv && k.c.spec == l.c.spec
    requires l.c.nextPut == |l.c.spec.puts| && (a.Some? ==> a.value in k.ch)
    ensures InLine(k, a, None)
  {}

  ghost predicate PhaseDone(l: Local) {
    l.c.nextPut == |l.c.spec.puts| && forall m :: m in l.ch ==> !m.payload.Put?
  }

  /** A client's tick sends at most one PUT, which carries the next put of the spec. */
  lemma ClientInLine(l: Local, ids: Ids, ts: Timestamp, msgs: seq<Message>, a: Option<Message>)
    returns (b: Option<Message>)
    requires Ticking(l, ids, ts, msgs) && (l.c.phase.NotStarted? ==> msgs == [])
    requires InLine(l, a, None)
    ensures var w := Client.Tick(l.c, ids, ts, msgs);
            && InLine(AfterClient(l, w, msgs), a, b)
            && (b.Some? ==> b.value in Posted(w.out, l.c.actor))
  {
    hide Channel.Inv, Client.Tick, InLine;
    TickKeepsInv(l, ids, ts, msgs);
    var w := Client.Tick(l.c, ids, ts, msgs);
    var k := AfterClient(l, w, msgs);
    b := None;
    PhaseLines(l);
    PhaseLines(k);
    match l.c.phase {
      case NotStarted =>
        RankNotStarted(l, ids, ts, msgs);
        NothingInLine(l, a);
      case StartSent =>
        RankStartSent(l, ids, ts, msgs);
        NothingInLine(l, a);
        StartSentLine(l, ids, ts, msgs);
      case Open =>
        b := OpenInLine(l, ids, ts, msgs, a);
      case _ =>
        LineAtEnd(l, a);
        DoneStaysDone(l, ids, ts, msgs);
        LineFrame(l, k, a);
    }
  }

  lemma NothingInLine(l: Local, a: Option<Message>)
    requires InLine(l, a, None) && InLine(l, None, None)
    ensures a == None
  {}

  lemma DoneStaysDone(l: Local, ids: Ids, ts: Timestamp, msgs: seq<Message>)
    requires Ticking(l, ids, ts, msgs) && PastBarrier(l.c)
    ensures PastBarrier(Client.Tick(l.c, ids, ts, msgs).tx)
  {
    if l.c.phase.CommitSent? {
      RankCommitSent(l, ids, ts, msgs);
    } else {
      RankDecided(l, ids, ts, msgs);
    }
  }

  lemma StartSentLine(l: Local, ids: Ids, ts: Timestamp, msgs: seq<Message>)
    requires Ticking(l, ids, ts, msgs) && l.c.phase.StartSent?
    ensures InLine(AfterClient(l, Client.Tick(l.c, ids, ts, msgs), msgs), None, None)
  {}

  lemma OpenInLine(l: Local, ids: Ids, ts: Timestamp, msgs: seq<Message>, a: Option<Message>)
    returns (b: Option<Message>)
    requires Ticking(l, ids, ts, msgs) && l.c.phase.Open? && InLine(l, a, None)
    ensures var w := Client.Tick(l.c, ids, ts, msgs);
            && InLine(AfterClient(l, w, msgs), a, b)
            && (b.Some? ==> b.value in Posted(w.out, l.c.actor))
  {
    hide OpenAndTracked, Channel.Inv, GoodTick, Client.Tick, Client.Advance, Client.ScheduleAll, InLine;
    var k, arrived := AfterReplies(l, ids, ts, msgs);
    RepliesLeavePuts(l, k, msgs, a);
    MoveOpen(k, arrived, ids, ts);
    var w := Client.Tick(l.c, ids, ts, msgs);
    var after := AfterClient(l, w, msgs);
    TickKeepsInv(l, ids, ts, msgs);
    if CanSend(k.c, ts) {
      b := Some(w.out[0]);
      OutIsOwn(l, ids, w, msgs);
      PostedOne(w.out[0]);
      assert w.out == [w.out[0]];
      OneMorePut(k, after, a, w.out[0]);
    } else if CanCommit(k, ts) {
      b := None;
      GoodAfter(l, ids, w, msgs);
      PhaseLines(after);
      AllAcknowledged(k, arrived, ts);
      CommitLine(k, after, a);
    } else {
      b := None;
      PostedOne(Message(l.c.actor, 0, 0, Payload.Undefined));
      assert after.ch == k.ch;
      SameLine(k, after, a);
    }
  }

  lemma RepliesLeavePuts(l: Local, k: Local, msgs: seq<Message>, a: Option<Message>)
    requires Channel.Inv(l) && l.c.phase.Open? && l.c.actor != l.c.server && InLine(l, a, None)
    requires InFlight(l.ch, msgs, l.c.actor, l.c.txid)
    requires k.ch == l.ch - Elements(msgs) && k.srv == l.srv && k.c.nextPut == l.c.nextPut && k.c.spec == l.c.spec
    ensures InLine(k, a, None)
  {
    OpenMessages(l);
  }

  lemma OutIsOwn(l: Local, ids: Ids, w: Client.World, msgs: seq<Message>)
    requires GoodTick(l, ids, w, msgs)
    ensures forall m :: m in w.out ==> m.source == l.c.actor
    ensures w.tx.spec == l.c.spec
  {}

  lemma GoodAfter(l: Local, ids: Ids, w: Client.World, msgs: seq<Message>)
    requires GoodTick(l, ids, w, msgs)
    ensures Channel.Inv(AfterClient(l, w, msgs)) && w.tx.spec == l.c.spec
  {}

  lemma OneMorePut(k: Local, after: Local, a: Option<Message>, m: Message)
    requires InLine(k, a, None) && k.c.nextPut < |k.c.spec.puts|
    requires m.payload.Put? && m.payload.put == k.c.spec.puts[k.c.nextPut].put
    requires after.ch == k.ch + {m} && after.srv == k.srv && after.c.spec == k.c.spec
    requires after.c.nextPut == k.c.nextPut + 1
    ensures InLine(after, a, Some(m))
  {}

  lemma AllAcknowledged(k: Local, arrived: seq<MsgID>, ts: Timestamp)
    requires OpenAndTracked(k, arrived) && CanCommit(k, ts)
    ensures k.c.nextPut == |k.c.spec.puts|
  {
    CompletedAtMost(k.R());
  }

  lemma CommitLine(k: Local, after: Local, a: Option<Message>)
    requires InLine(k, a, None) && k.c.nextPut == |k.c.spec.puts|
    requires after.srv == k.srv && after.c.spec == k.c.spec && after.c.nextPut == |k.c.spec.puts|
    requires k.ch <= after.ch && forall m :: m in after.ch ==> !m.payload.Put?
    ensures InLine(after, a, None)
  {}

  lemma SameLine(k: Local, after: Local, a: Option<Message>)
    requires InLine(k, a, None) && after.ch == k.ch && after.srv == k.srv
    requires after.c.spec == k.c.spec && after.c.nextPut == k.c.nextPut
    ensures InLine(after, a, None)
  {}

  // --- Over a tick ---

  lemma StepNumbers(s: System, step: Step)
    requires Enabled(s, step)
    ensures s.ids.lastMsg <= Next(s, step).ids.lastMsg
    ensures step.ClientTick? ==>
      forall m :: m in Posted(ClientWorld(s, step.i, step.msgs).out, s.clients[step.i].actor) ==>
        m.msgId > s.ids.lastMsg
  {
    hide Server.HandleAll, Client.Tick;
    match step {
      case ServerTick(t, msgs) =>
        HandleAllNumbered(Server.World(TxOf(s.txs, t), s.store, s.ids.lastMsg, [], false), s.clock + 1, msgs,
                          s.ids.lastMsg);
      case ClientTick(i, msgs) =>
        TickNumbered(s.clients[i], s.ids, s.clock + 1, msgs);
    }
  }

  lemma {:induction false} IdsGrow(s: System, steps: seq<Step>, k: nat)
    requires ValidRun(s, steps) && k <= |steps|
    ensures s.ids.lastMsg <= At(s, steps, k).ids.lastMsg
    decreases k
  {
    hide Enabled, Next, At;
    if k == 0 {
      AtStart(s, steps);
    } else {
      IdsGrow(s, steps, k - 1);
      AtStep(s, steps, k - 1);
      StepNumbers(At(s, steps, k - 1), steps[k - 1]);
    }
  }

  ghost predicate Ticked(steps: seq<Step>, k: nat, i: nat) {
    exists j: nat :: j < k && TicksClient(steps, j, i)
  }

  ghost predicate Served(steps: seq<Step>, k: nat, t: TxID) {
    exists j: nat :: j < k && HandlesTxid(steps, j, t)
  }

  /** Within a tick that starts at `s`: `a` was in flight then and waits for the server, `b` was sent since. */
  ghost predicate LineAt(s: System, steps: seq<Step>, k: nat, u: System, i: nat, a: Option<Message>, b: Option<Message>)
    requires i < |u.clients|
  {
    && InLine(LocalOf(u, i), a, b)
    && (a.Some? ==> a.value in s.net && !Served(steps, k, u.clients[i].txid))
    && (b.Some? ==> b.value !in s.net && Ticked(steps, k, i))
  }

  lemma LineServerStep(s: System, steps: seq<Step>, k: nat, u: System, i: nat, a: Option<Message>, b: Option<Message>)
    requires Safety.Inv(u) && k < |steps| && Enabled(u, steps[k]) && i < |u.clients|
    requires forall m :: m in steps[k].msgs ==> m in s.net
    requires LineAt(s, steps, k, u, i, a, b) && HandlesTxid(steps, k, u.clients[i].txid)
    ensures i < |Next(u, steps[k]).clients| && LineAt(s, steps, k + 1, Next(u, steps[k]), i, None, b)
  {
    hide StoreInv, ConflictsInv, Channel.Inv, Server.HandleAll, InLine;
    var t, msgs := steps[k].txid, steps[k].msgs;
    BatchHasTxid(u, t, msgs);
    ServerLocal(u, t, msgs, i);
    LocalInvOf(u, i);
    ServerInLine(LocalOf(u, i), Server.World(TxOf(u.txs, t), u.store, u.ids.lastMsg, [], false), u.clock + 1, msgs, a,
                 b);
    if b.Some? {
      TickedLater(steps, k, i);
    }
  }

  lemma TickedLater(steps: seq<Step>, k: nat, i: nat)
    requires Ticked(steps, k, i)
    ensures Ticked(steps, k + 1, i)
  {}

  lemma NotServedYet(steps: seq<Step>, k: nat, t: TxID)
    requires !Served(steps, k, t) && !HandlesTxid(steps, k, t)
    ensures !Served(steps, k + 1, t)
  {}

  lemma LineClientStep(s: System, steps: seq<Step>, k: nat, u: System, i: nat, a: Option<Message>)
    returns (b: Option<Message>)
    requires Safety.Inv(u) && k < |steps| && Enabled(u, steps[k]) && i < |u.clients|
    requires IdsBound(s) && s.ids.lastMsg <= u.ids.lastMsg
    requires LineAt(s, steps, k, u, i, a, None) && TicksClient(steps, k, i)
    ensures i < |Next(u, steps[k]).clients| && LineAt(s, steps, k + 1, Next(u, steps[k]), i, a, b)
  {
    hide StoreInv, ConflictsInv, Channel.Inv, Client.Tick, InLine;
    var msgs := steps[k].msgs;
    LocalInvOf(u, i);
    ClientLocal(u, i, msgs);
    NoTxidMeansNotStarted(LocalOf(u, i));
    b := ClientInLine(LocalOf(u, i), u.ids, u.clock + 1, msgs, a);
    StepNumbers(u, steps[k]);
    if a.Some? {
      CarriedIsStarted(LocalOf(u, i), a);
      TxidStaysStep(u, steps[k], i);
      NotServedYet(steps, k, u.clients[i].txid);
    }
  }

  lemma CarriedIsStarted(l: Local, a: Option<Message>)
    requires Channel.Inv(l) && InLine(l, a, None) && a.Some?
    ensures l.c.txid != UNDEFINED_TX_ID
  {}

  lemma LineOtherStep(s: System, steps: seq<Step>, k: nat, u: System, i: nat, a: Option<Message>, b: Option<Message>)
    requires Safety.Inv(u) && k < |steps| && Enabled(u, steps[k]) && i < |u.clients|
    requires LineAt(s, steps, k, u, i, a, b) && !TicksClient(steps, k, i) && !HandlesTxid(steps, k, u.clients[i].txid)
    ensures i < |Next(u, steps[k]).clients| && LineAt(s, steps, k + 1, Next(u, steps[k]), i, a, b)
  {
    hide Safety.Inv, Enabled, Next, InLine;
    UnrelatedStep(u, steps[k], i);
    assert LocalOf(Next(u, steps[k]), i).c == LocalOf(u, i).c;
    if a.Some? {
      NotServedYet(steps, k, u.clients[i].txid);
    }
    if b.Some? {
      TickedLater(steps, k, i);
    }
  }

  lemma {:induction false} LineWithinTick(s: System, steps: seq<Step>, k: nat, i: nat, x: Option<Message>)
      returns (a: Option<Message>, b: Option<Message>)
    requires Safety.Inv(s) && IsTick(s, steps) && k <= |steps| && i < |s.clients| && InLine(LocalOf(s, i), x, None)
    ensures i < |At(s, steps, k).clients| && LineAt(s, steps, k, At(s, steps, k), i, a, b) && (a == x || a == None)
    decreases k
  {
    hide Safety.Inv, Enabled, Next, At, InLine, LineAt, ValidRun;
    if k == 0 {
      AtStart(s, steps);
      a, b := x, None;
      LineStart(s, steps, i, x);
    } else {
      a, b := LineWithinTick(s, steps, k - 1, i, x);
      var u := At(s, steps, k - 1);
      AtStep(s, steps, k - 1);
      InvAt(s, steps, k - 1);
      forall m | m in steps[k - 1].msgs ensures m in s.net {
        assert Delivers(steps, k - 1, m);
      }
      if HandlesTxid(steps, k - 1, u.clients[i].txid) {
        LineServerStep(s, steps, k - 1, u, i, a, b);
        a := None;
      } else if TicksClient(steps, k - 1, i) {
        NotTickedYet(s, steps, k - 1, u, i, a, b);
        IdsGrow(s, steps, k - 1);
        TickTurns.InvBoundsIds(s);
        b := LineClientStep(s, steps, k - 1, u, i, a);
      } else {
        LineOtherStep(s, steps, k - 1, u, i, a, b);
      }
    }
  }

  lemma LineStart(s: System, steps: seq<Step>, i: nat, x: Option<Message>)
    requires i < |s.clients| && InLine(LocalOf(s, i), x, None)
    ensures LineAt(s, steps, 0, s, i, x, None)
  {}

  lemma NotTickedYet(s: System, steps: seq<Step>, k: nat, u: System, i: nat, a: Option<Message>, b: Option<Message>)
    requires NoRepeats(steps) && TicksClient(steps, k, i) && i < |u.clients| && LineAt(s, steps, k, u, i, a, b)
    ensures b == None
  {
    NotBefore(steps, k, i);
  }

  /** At the end of a tick at most the PUT sent in that tick is in flight. */
  lemma LineOverTick(s: System, steps: seq<Step>, i: nat, x: Option<Message>) returns (y: Option<Message>)
    requires Safety.Inv(s) && IsTick(s, steps) && i < |s.clients| && InLine(LocalOf(s, i), x, None)
    ensures Safety.Inv(Run(s, steps)) && i < |Run(s, steps).clients| && InLine(LocalOf(Run(s, steps), i), y, None)
  {
    hide Safety.Inv, Enabled, Next, At, InLine, ValidRun;
    var a, b := LineWithinTick(s, steps, |steps|, i, x);
    AtEnd(s, steps);
    InvAt(s, steps, |steps|);
    if x.Some? {
      InFlightIsServed(s, steps, i, x);
    }
    NextInLine(LocalOf(Run(s, steps), i), b);
    y := b;
  }

  lemma NextInLine(l: Local, b: Option<Message>)
    requires InLine(l, None, b)
    ensures InLine(l, b, None)
  {}

  /** Only an open transaction has a PUT in flight, and it goes to the server. */
  lemma PutIsOpen(l: Local, m: Message)
    requires Channel.Inv(l) && m in l.ch && m.payload.Put?
    ensures l.c.phase.Open? && l.c.txid != UNDEFINED_TX_ID
  {}

  /** A PUT in flight when the tick starts is handled within it. */
  lemma InFlightIsServed(s: System, steps: seq<Step>, i: nat, x: Option<Message>)
    requires Safety.Inv(s) && IsTick(s, steps) && i < |s.clients| && InLine(LocalOf(s, i), x, None) && x.Some?
    ensures i < |Run(s, steps).clients| && Served(steps, |steps|, Run(s, steps).clients[i].txid)
  {
    hide Safety.Inv, Enabled, Next, At, ValidRun;
    var m := x.value;
    assert m in LocalOf(s, i).ch && m in s.net && m.Txid() == s.clients[i].txid;
    LocalInvOf(s, i);
    PutIsOpen(LocalOf(s, i), m);
    var j: nat :| Delivers(steps, j, m);
    AtStep(s, steps, j);
    InvAt(s, steps, j);
    SameCount(s, steps, j);
    TxidStays(s, steps, j, i);
    WhoHandles(At(s, steps, j), steps[j], m, i);
    PutGoesToServer(s, i, m);
    TxidStays(s, steps, |steps|, i);
    AtEnd(s, steps);
    assert HandlesTxid(steps, j, s.clients[i].txid);
  }

  // --- Over any number of ticks ---

  lemma {:induction false} LineOverTicks(s: System, ticks: seq<seq<Step>>, i: nat, x: Option<Message>)
      returns (y: Option<Message>)
    requires Safety.Inv(s) && IsTicks(s, ticks) && i < |s.clients| && InLine(LocalOf(s, i), x, None)
    ensures var s' := RunTicks(s, ticks);
            Safety.Inv(s') && i < |s'.clients| && InLine(LocalOf(s', i), y, None)
    decreases |ticks|
  {
    hide Safety.Inv, InLine, Run;
    y := x;
    if ticks == [] {
    } else {
      y := LineOverTick(s, ticks[0], i, x);
      y := LineOverTicks(Run(s, ticks[0]), ticks[1..], i, y);
    }
  }

  /**
    Between ticks, the puts the server has received are a prefix of the spec's puts, in order, and at most one more is
    on its way.
   */
  lemma PutsArriveInOrder(s: System, ticks: seq<seq<Step>>, i: nat) returns (y: Option<Message>)
    requires Init(s) && IsTicks(s, ticks) && i < |s.clients|
    ensures var s' := RunTicks(s, ticks); i < |s'.clients| && InLine(LocalOf(s', i), y, None)
  {
    hide Safety.Inv, IsTicks, InLine, RunTicks;
    InitKeeps(s);
    StartsInLine(s, i);
    y := LineOverTicks(s, ticks, i, None);
  }

  lemma StartsInLine(s: System, i: nat)
    requires Init(s) && i < |s.clients| && Safety.Inv(s)
    ensures InLine(LocalOf(s, i), None, None)
  {
    LocalInvOf(s, i);
    PhaseLines(LocalOf(s, i));
  }

  /** From the tick in which COMMIT is sent on, the server has exactly the spec's puts in the spec's order. */
  lemma CommittedInOrder(s: System, ticks: seq<seq<Step>>, i: nat)
    requires Init(s) && IsTicks(s, ticks) && i < |s.clients|
    ensures var s' := RunTicks(s, ticks);
            && i < |s'.clients|
            && (PastBarrier(s'.clients[i]) ==>
                  && s'.clients[i].txid in s'.txs
                  && s'.txs[s'.clients[i].txid].puts == SpecPuts(s'.clients[i].spec))
  {
    hide Safety.Inv, IsTicks, InLine, RunTicks;
    InitKeeps(s);
    StartsInLine(s, i);
    var y := LineOverTicks(s, ticks, i, None);
    var s' := RunTicks(s, ticks);
    if PastBarrier(s'.clients[i]) {
      LocalInvOf(s', i);
      LineAtEnd(LocalOf(s', i), y);
      RecordExists(s', i);
    }
  }

  lemma {:induction false} TicksReach(s: System, ticks: seq<seq<Step>>)
    requires Reachable(s) && IsTicks(s, ticks)
    ensures Reachable(RunTicks(s, ticks))
    decreases |ticks|
  {
    hide Run, ValidRun;
    if ticks == [] {
    } else {
      var start, steps :| Init(start) && ValidRun(start, steps) && s == Run(start, steps);
      RunAppend(start, steps, ticks[0]);
      TicksReach(Run(s, ticks[0]), ticks[1..]);
    }
  }

  lemma InitReached(s: System)
    requires Init(s)
    ensures Reachable(s)
  {
    RunNone(s);
  }

  /** So for each key a committed transaction wrote, the store has the first put of its spec. */
  lemma FirstOfSpecIsStored(s: System, ticks: seq<seq<Step>>, i: nat, k: Key)
    requires Init(s) && IsTicks(s, ticks) && i < |s.clients|
    ensures var s' := RunTicks(s, ticks);
            && i < |s'.clients|
            && var c := s'.clients[i];
               (c.phase.Committed? && FirstPut(SpecPuts(c.spec), k).Some? ==>
                  Version(c.commitTs, c.txid, FirstPut(SpecPuts(c.spec), k).value) in HistoryOf(s'.store, k))
  {
    hide Safety.Inv, IsTicks, InLine, RunTicks;
    CommittedInOrder(s, ticks, i);
    InitReached(s);
    TicksReach(s, ticks);
    var s' := RunTicks(s, ticks);
    if s'.clients[i].phase.Committed? {
      CommittedAgrees(s', i);
    }
  }

  /**
    What a decision means: a committed transaction exports its spec, and the versions with its id are the first puts of
    its spec at its commit time, no more and no less. A rolled back transaction has no version.
   */
  ghost predicate Settled(c: Client.State, data: Data) {
    if c.phase.Committed? then
      && Client.ExportedPuts(c) == SpecPuts(c.spec)
      && forall k: Key, v: Version :: v.txid == c.txid ==>
           (v in HistoryOf(data, k) <==> v.ts == c.commitTs && FirstPut(SpecPuts(c.spec), k) == Some(v.value))
    else
      c.phase.RolledBack? && forall k, v :: v in HistoryOf(data, k) ==> v.txid != c.txid
  }

  lemma DecidedIsSettled(s: System, ticks: seq<seq<Step>>, i: nat)
    requires Init(s) && IsTicks(s, ticks) && i < |s.clients|
    ensures var s' := RunTicks(s, ticks);
            && i < |s'.clients|
            && (s'.clients[i].phase.Committed? || s'.clients[i].phase.RolledBack? ==>
                  Settled(s'.clients[i], s'.store))
  {
    hide IsTicks, RunTicks, FirstPut;
    CommittedInOrder(s, ticks, i);
    InitReached(s);
    TicksReach(s, ticks);
    var s' := RunTicks(s, ticks);
    if s'.clients[i].phase.Committed? {
      CommittedAgrees(s', i);
    } else if s'.clients[i].phase.RolledBack? {
      RolledBackAgrees(s', i);
    }
  }
}
