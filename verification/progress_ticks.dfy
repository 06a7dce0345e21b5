/** Each tick lowers the rank of every undecided transaction whose times have passed, so a decision is bounded. */
module ProgressTicks {
  import opened TxTypes
  import Server = ServerTransaction
  import Client = ClientTransaction
  import opened Protocol
  import opened Channel
  import opened ChannelServer
  import opened ChannelTick
  import opened StoreSafety
  import opened Safety
  import opened Progress
  import opened Theorems

  // --- One step ---

  /** A step that is bound to lower the rank of transaction `i`. */
  ghost predicate Decisive(s: System, step: Step, i: nat)
    requires Safety.Inv(s) && i < |s.clients|
  {
    var l := LocalOf(s, i);
    assert Channel.Inv(l);
    InvBounds(l);
    match step
    case ServerTick(t, _) => t == l.c.txid && !l.c.phase.Open?
    case ClientTick(j, msgs) => j == i && Pressing(l, s.clock + 1, msgs)
  }

  lemma BatchHasTxid(s: System, t: TxID, msgs: seq<Message>)
    requires Owned(s) && Enabled(s, ServerTick(t, msgs))
    ensures t != UNDEFINED_TX_ID
  {
    assert msgs[0] in msgs;
  }

  lemma ServerStepRank(s: System, t: TxID, msgs: seq<Message>, i: nat)
    requires Safety.Inv(s) && Enabled(s, ServerTick(t, msgs)) && i < |s.clients|
    requires Safety.Inv(Next(s, ServerTick(t, msgs)))
    ensures RankOf(Next(s, ServerTick(t, msgs)), i) <= RankOf(s, i)
    ensures Decisive(s, ServerTick(t, msgs), i) ==> RankOf(Next(s, ServerTick(t, msgs)), i) < RankOf(s, i)
  {
    hide Channel.Inv, StoreInv, ConflictsInv, Server.HandleAll, Rank, Client.Tick, FreshOutput;
    BatchHasTxid(s, t, msgs);
    assert HasOwner(s.clients, t) by { assert msgs[0] in msgs; }
    ServerChannels(s, t, msgs);
    if s.clients[i].txid == t {
      ServerLocal(s, t, msgs, i);
      var w0 := Server.World(TxOf(s.txs, t), s.store, s.ids.lastMsg, [], false);
      ServerRank(LocalOf(s, i), w0, s.clock + 1, msgs);
    } else {
      ServerOthers(s, t, msgs, i);
    }
  }

  lemma ClientStepRank(s: System, j: nat, msgs: seq<Message>, i: nat)
    requires Safety.Inv(s) && Enabled(s, ClientTick(j, msgs)) && i < |s.clients|
    requires Safety.Inv(Next(s, ClientTick(j, msgs)))
    ensures RankOf(Next(s, ClientTick(j, msgs)), i) <= RankOf(s, i)
    ensures Decisive(s, ClientTick(j, msgs), i) ==> RankOf(Next(s, ClientTick(j, msgs)), i) < RankOf(s, i)
  {
    hide Channel.Inv, StoreInv, ConflictsInv, Rank, Client.Tick, Pressing;
    if j == i {
      ClientLocal(s, i, msgs);
      NoTxidMeansNotStarted(LocalOf(s, i));
      ClientRank(LocalOf(s, i), s.ids, s.clock + 1, msgs);
    } else {
      ClientOthers(s, j, msgs, i);
    }
  }

  lemma NoTxidMeansNotStarted(l: Local)
    requires Channel.Inv(l)
    ensures l.c.phase.NotStarted? <==> l.c.txid == UNDEFINED_TX_ID
  {}

  lemma StepRank(s: System, step: Step, i: nat)
    requires Safety.Inv(s) && Enabled(s, step) && i < |s.clients|
    ensures Safety.Inv(Next(s, step)) && |Next(s, step).clients| == |s.clients|
    ensures RankOf(Next(s, step), i) <= RankOf(s, i)
    ensures Decisive(s, step, i) ==> RankOf(Next(s, step), i) < RankOf(s, i)
  {
    hide Safety.Inv, Decisive;
    StepKeeps(s, step);
    match step {
      case ServerTick(t, msgs) => ServerStepRank(s, t, msgs, i);
      case ClientTick(j, msgs) => ClientStepRank(s, j, msgs, i);
    }
  }

  // --- Over a run ---

  lemma {:induction false} RankFalls(s: System, steps: seq<Step>, lo: nat, hi: nat, i: nat)
    requires Safety.Inv(s) && ValidRun(s, steps) && lo <= hi <= |steps| && i < |s.clients|
    ensures Safety.Inv(At(s, steps, lo)) && |At(s, steps, lo).clients| == |s.clients|
    ensures Safety.Inv(At(s, steps, hi)) && |At(s, steps, hi).clients| == |s.clients|
    ensures RankOf(At(s, steps, hi), i) <= RankOf(At(s, steps, lo), i)
    decreases hi
  {
    hide Safety.Inv, Next, Enabled, RankOf, At;
    InvAt(s, steps, lo);
    InvAt(s, steps, hi);
    SameCount(s, steps, lo);
    if lo < hi {
      RankFalls(s, steps, lo, hi - 1, i);
      AtStep(s, steps, hi - 1);
      StepRank(At(s, steps, hi - 1), steps[hi - 1], i);
    }
  }

  lemma {:induction false} SameCount(s: System, steps: seq<Step>, k: nat)
    requires ValidRun(s, steps) && k <= |steps|
    ensures |At(s, steps, k).clients| == |s.clients| && At(s, steps, k).clock >= s.clock
    ensures At(s, steps, k).server == s.server
    decreases k
  {
    hide Next, Enabled;
    if k == 0 {
    } else {
      StepShape(s, steps[0]);
      SameCount(Next(s, steps[0]), steps[1..], k - 1);
    }
  }

  lemma StepShape(s: System, step: Step)
    requires Enabled(s, step)
    ensures |Next(s, step).clients| == |s.clients| && Next(s, step).server == s.server
    ensures Next(s, step).clock >= s.clock
  {
    hide ServerWorld, ClientWorld;
  }

  /** One decisive step within a run lowers the rank over the whole run. */
  lemma DecisiveWithin(s: System, steps: seq<Step>, k: nat, i: nat)
    requires Safety.Inv(s) && ValidRun(s, steps) && k < |steps| && i < |s.clients|
    requires Safety.Inv(At(s, steps, k)) && |At(s, steps, k).clients| == |s.clients|
    requires Decisive(At(s, steps, k), steps[k], i)
    ensures Safety.Inv(Run(s, steps)) && |Run(s, steps).clients| == |s.clients|
    ensures RankOf(Run(s, steps), i) < RankOf(s, i)
  {
    hide Safety.Inv, Next, Enabled, RankOf, Decisive;
    RankFalls(s, steps, 0, k, i);
    AtStep(s, steps, k);
    StepRank(At(s, steps, k), steps[k], i);
    RankFalls(s, steps, k + 1, |steps|, i);
    AtEnd(s, steps);
  }

  // --- What stays until the transaction's own step ---

  lemma {:induction false} ClientUntouched(s: System, steps: seq<Step>, k: nat, i: nat)
    requires ValidRun(s, steps) && k <= |steps| && i < |s.clients|
    requires forall j: nat :: j < k ==> !TicksClient(steps, j, i)
    ensures i < |At(s, steps, k).clients| && At(s, steps, k).clients[i] == s.clients[i]
    decreases k
  {
    hide Enabled, Next, At;
    if k == 0 {
      AtStart(s, steps);
    } else {
      ClientUntouched(s, steps, k - 1, i);
      AtStep(s, steps, k - 1);
      assert !TicksClient(steps, k - 1, i);
      OtherClientsStay(At(s, steps, k - 1), steps[k - 1], i);
    }
  }

  lemma AtStart(s: System, steps: seq<Step>)
    requires ValidRun(s, steps)
    ensures At(s, steps, 0) == s
  {}

  lemma OtherClientsStay(s: System, step: Step, i: nat)
    requires Enabled(s, step) && i < |s.clients| && !(step.ClientTick? && step.i == i)
    ensures i < |Next(s, step).clients| && Next(s, step).clients[i] == s.clients[i]
  {}

  ghost predicate HandlesTxid(steps: seq<Step>, j: nat, t: TxID) {
    j < |steps| && steps[j].ServerTick? && steps[j].txid == t
  }

  lemma {:induction false} LocalUntouched(s: System, steps: seq<Step>, k: nat, i: nat)
    requires Safety.Inv(s) && ValidRun(s, steps) && k <= |steps| && i < |s.clients|
    requires forall j: nat :: j < k ==> !TicksClient(steps, j, i) && !HandlesTxid(steps, j, s.clients[i].txid)
    ensures i < |At(s, steps, k).clients| && LocalOf(At(s, steps, k), i) == LocalOf(s, i)
    decreases k
  {
    hide Enabled, Safety.Inv, Next;
    if k == 0 {
    } else {
      LocalUntouched(s, steps, k - 1, i);
      AtStep(s, steps, k - 1);
      InvAt(s, steps, k - 1);
      SameCount(s, steps, k - 1);
      var u := At(s, steps, k - 1);
      assert u.clients[i] == LocalOf(u, i).c;
      assert !TicksClient(steps, k - 1, i) && !HandlesTxid(steps, k - 1, s.clients[i].txid);
      UnrelatedStep(u, steps[k - 1], i);
    }
  }

  lemma UnrelatedStep(s: System, step: Step, i: nat)
    requires Safety.Inv(s) && Enabled(s, step) && i < |s.clients|
    requires !(step.ClientTick? && step.i == i) && !(step.ServerTick? && step.txid == s.clients[i].txid)
    ensures i < |Next(s, step).clients| && LocalOf(Next(s, step), i) == LocalOf(s, i)
  {
    hide ChannelsInv, StoreInv, ConflictsInv, Server.HandleAll, Client.Tick;
    match step {
      case ServerTick(t, msgs) =>
        BatchHasTxid(s, t, msgs);
        assert HasOwner(s.clients, t) by { assert msgs[0] in msgs; }
        ServerChannels(s, t, msgs);
        ServerOthers(s, t, msgs, i);
      case ClientTick(j, msgs) =>
        ClientOthers(s, j, msgs, i);
    }
  }

  /** A delivered message is handled by its own transaction, on the side it is addressed to. */
  lemma WhoHandles(s: System, step: Step, m: Message, i: nat)
    requires Safety.Inv(s) && Enabled(s, step) && m in step.msgs
    requires i < |s.clients| && m.Txid() == s.clients[i].txid
    ensures m in LocalOf(s, i).ch
    ensures if m.destination == s.server then step.ServerTick? && step.txid == m.Txid()
             else step.ClientTick? && step.i == i
  {
    hide ChannelsInv, StoreInv, ConflictsInv, TimesInv;
  }

  lemma {:induction false} TxidStays(s: System, steps: seq<Step>, k: nat, i: nat)
    requires Safety.Inv(s) && ValidRun(s, steps) && k <= |steps|
    requires i < |s.clients| && s.clients[i].txid != UNDEFINED_TX_ID
    ensures i < |At(s, steps, k).clients| && At(s, steps, k).clients[i].txid == s.clients[i].txid
    decreases k
  {
    hide Enabled, Safety.Inv, Next;
    if k == 0 {
    } else {
      TxidStays(s, steps, k - 1, i);
      AtStep(s, steps, k - 1);
      InvAt(s, steps, k - 1);
      TxidStaysStep(At(s, steps, k - 1), steps[k - 1], i);
    }
  }

  lemma TxidStaysStep(s: System, step: Step, i: nat)
    requires Safety.Inv(s) && Enabled(s, step)
    requires i < |s.clients| && s.clients[i].txid != UNDEFINED_TX_ID
    ensures i < |Next(s, step).clients| && Next(s, step).clients[i].txid == s.clients[i].txid
  {
    hide StoreInv, ConflictsInv, Channel.Inv, Client.Tick, Server.HandleAll;
    if step.ClientTick? && step.i == i {
      ClientGood(s, i, step.msgs);
      NoTxidMeansNotStarted(LocalOf(s, i));
    }
  }

  // --- The decisive step of a tick ---

  /** A START, COMMIT, START_ACK or decision in flight at the start of the tick is handled within it. */
  lemma MessageIsDecisive(s: System, steps: seq<Step>, i: nat, m: Message)
    requires Safety.Inv(s) && IsTick(s, steps) && i < |s.clients|
    requires m in LocalOf(s, i).ch && (s.clients[i].phase.StartSent? || s.clients[i].phase.CommitSent?)
    ensures Safety.Inv(Run(s, steps)) && |Run(s, steps).clients| == |s.clients|
    ensures RankOf(Run(s, steps), i) < RankOf(s, i)
  {
    hide Enabled, Safety.Inv, Next, RankOf, At, Channel.Inv, ValidRun;
    assert s.clients[i].txid != UNDEFINED_TX_ID by { MessageHasTxid(s, m); }
    var k: nat :| Delivers(steps, k, m);
    AtStep(s, steps, k);
    InvAt(s, steps, k);
    SameCount(s, steps, k);
    TxidStays(s, steps, k, i);
    var u := At(s, steps, k);
    PhaseOfMessage(s, i, m);
    WhoHandles(u, steps[k], m, i);
    MessagePhase(u, steps[k], i, m);
    DecisiveWithin(s, steps, k, i);
  }

  lemma MessageHasTxid(s: System, m: Message)
    requires Safety.Inv(s) && m in s.net
    ensures m.Txid() != UNDEFINED_TX_ID
  {}

  predicate IsPhaseMessage(m: Message) {
    || m.payload.Start? || m.payload.StartAck? || m.payload.Commit?
    || m.payload.CommitAck? || m.payload.RolledBackByServer?
  }

  lemma PhaseOfMessage(s: System, i: nat, m: Message)
    requires Safety.Inv(s) && i < |s.clients| && m in LocalOf(s, i).ch
    requires s.clients[i].phase.StartSent? || s.clients[i].phase.CommitSent?
    ensures IsPhaseMessage(m)
  {
    assert Channel.Inv(LocalOf(s, i));
  }

  /** Only a client waiting for an answer has such a message in flight, so whoever handles it makes progress. */
  lemma MessagePhase(s: System, step: Step, i: nat, m: Message)
    requires Safety.Inv(s) && Enabled(s, step) && i < |s.clients| && m in LocalOf(s, i).ch && m in step.msgs
    requires IsPhaseMessage(m)
    requires if m.destination == s.server then step.ServerTick? && step.txid == m.Txid()
             else step.ClientTick? && step.i == i
    ensures Decisive(s, step, i)
  {
    hide StoreInv, ConflictsInv;
    var l := LocalOf(s, i);
    assert Channel.Inv(l);
    if l.c.phase.Open? {
      OpenMessages(l);
    }
  }

  lemma OpenMessages(l: Local)
    requires Channel.Inv(l) && l.c.phase.Open?
    ensures forall m :: m in l.ch ==> m.payload.Put? || m.payload.PutReply?
    ensures forall m :: m in l.ch && l.c.server != l.c.actor ==> (m.destination == l.c.server <==> m.payload.Put?)
  {}

  /** A client that has not started, or still has puts to send, moves at its own step. */
  lemma OwnStepIsDecisive(s: System, steps: seq<Step>, i: nat)
    requires Safety.Inv(s) && IsTick(s, steps) && i < |s.clients|
    requires || s.clients[i].phase.NotStarted?
             || (s.clients[i].phase.Open? && s.clients[i].nextPut < |s.clients[i].spec.puts|)
    requires TimesPassed(s.clients[i].spec, s.clock + 1)
    ensures Safety.Inv(Run(s, steps)) && |Run(s, steps).clients| == |s.clients|
    ensures RankOf(Run(s, steps), i) < RankOf(s, i)
  {
    hide Enabled, Safety.Inv, Next, RankOf, At, Channel.Inv, ValidRun;
    assert HasClientTick(steps, i);
    var k: nat :| TicksClient(steps, k, i);
    NotBefore(steps, k, i);
    ClientUntouched(s, steps, k, i);
    InvAt(s, steps, k);
    SameCount(s, steps, k);
    DecisiveWithin(s, steps, k, i);
  }

  /** Within a tick an actor's transaction ticks once. */
  lemma SameStep(steps: seq<Step>, j: nat, k: nat)
    requires NoRepeats(steps) && SameActor(steps, j, k)
    ensures j == k
  {
    assert SameActor(steps, k, j);
  }

  lemma NotBefore(steps: seq<Step>, k: nat, i: nat)
    requires TicksClient(steps, k, i) && NoRepeats(steps)
    ensures forall j: nat :: j < k ==> !TicksClient(steps, j, i)
  {
    forall j: nat | j < k ensures !TicksClient(steps, j, i) {
      assert !SameActor(steps, j, k);
    }
  }

  // --- The last puts and their replies ---

  /** The client has asked for everything it will ever ask for. */
  predicate AllAsked(c: Client.State) {
    PastBarrier(c) || (c.phase.Open? && c.nextPut == |c.spec.puts|)
  }

  ghost predicate NoNewPut(before: set<Message>, after: set<Message>, t: TxID) {
    forall m :: m in after && m.Txid() == t && m.payload.Put? ==> m in before
  }

  lemma OpenTickSendsNoPut(l: Local, ids: Ids, ts: Timestamp, msgs: seq<Message>)
    requires Ticking(l, ids, ts, msgs) && l.c.phase.Open? && l.c.nextPut == |l.c.spec.puts|
    ensures var w := Client.Tick(l.c, ids, ts, msgs);
            && AllAsked(w.tx)
            && forall m :: m in Posted(w.out, l.c.actor) ==> !m.payload.Put?
  {
    hide OpenAndTracked, Channel.Inv, GoodTick, Client.Tick, Client.Advance, Client.ScheduleAll;
    var k, arrived := AfterReplies(l, ids, ts, msgs);
    assert k.c.actor != k.c.server && k.c.nextPut == l.c.nextPut && k.c.spec == l.c.spec;
    MoveOpen(k, arrived, ids, ts);
    StillOpen(k, arrived);
  }

  lemma StillOpen(k: Local, arrived: seq<MsgID>)
    requires OpenAndTracked(k, arrived)
    ensures k.c.phase.Open?
  {}

  lemma NoNewPutStep(s: System, step: Step, i: nat)
    requires Safety.Inv(s) && Enabled(s, step)
    requires i < |s.clients| && s.clients[i].txid != UNDEFINED_TX_ID && AllAsked(s.clients[i])
    ensures i < |Next(s, step).clients| && AllAsked(Next(s, step).clients[i])
    ensures NoNewPut(s.net, Next(s, step).net, s.clients[i].txid)
  {
    hide ChannelsInv, StoreInv, ConflictsInv, Server.HandleAll, Client.Tick, Channel.Inv;
    match step {
      case ServerTick(t, msgs) =>
        BatchHasTxid(s, t, msgs);
        ServerSendsNoPut(Server.World(TxOf(s.txs, t), s.store, s.ids.lastMsg, [], false), s.clock + 1, msgs);
      case ClientTick(j, msgs) =>
        if j != i {
          OthersPostNothing(s, j, msgs, i);
        } else if PastBarrier(s.clients[i]) {
          PastBarrierStays(s, step, i);
          StepKeeps(s, step);
          NoPutPastBarrier(Next(s, step), i);
        } else {
          assert Channel.Inv(LocalOf(s, i)) && IdsUpTo(LocalOf(s, i), s.ids.lastMsg) by { LocalInvOf(s, i); }
          OpenTickSendsNoPut(LocalOf(s, i), s.ids, s.clock + 1, msgs);
        }
    }
  }

  lemma LocalInvOf(s: System, i: nat)
    requires Safety.Inv(s) && i < |s.clients|
    ensures Channel.Inv(LocalOf(s, i)) && IdsUpTo(LocalOf(s, i), s.ids.lastMsg)
  {}

  lemma OthersPostNothing(s: System, j: nat, msgs: seq<Message>, i: nat)
    requires Safety.Inv(s) && Enabled(s, ClientTick(j, msgs)) && i < |s.clients| && i != j
    requires s.clients[i].txid != UNDEFINED_TX_ID
    ensures NoNewPut(s.net, Next(s, ClientTick(j, msgs)).net, s.clients[i].txid)
  {
    hide StoreInv, ConflictsInv, Channel.Inv, Client.Tick;
    var s' := Next(s, ClientTick(j, msgs));
    ClientOthers(s, j, msgs, i);
    forall m | m in s'.net && m.Txid() == s.clients[i].txid ensures m in s.net {
      assert m in LocalOf(s', i).ch;
    }
  }

  lemma {:induction false} NoNewPutOverRun(s: System, steps: seq<Step>, k: nat, i: nat)
    requires Safety.Inv(s) && ValidRun(s, steps) && k <= |steps|
    requires i < |s.clients| && s.clients[i].txid != UNDEFINED_TX_ID && AllAsked(s.clients[i])
    ensures i < |At(s, steps, k).clients| && AllAsked(At(s, steps, k).clients[i])
    ensures At(s, steps, k).clients[i].txid == s.clients[i].txid
    ensures NoNewPut(s.net, At(s, steps, k).net, s.clients[i].txid)
    decreases k
  {
    hide Enabled, Safety.Inv, Next, AllAsked, At;
    if k == 0 {
      AtStart(s, steps);
    } else {
      NoNewPutOverRun(s, steps, k - 1, i);
      AtStep(s, steps, k - 1);
      InvAt(s, steps, k - 1);
      NoNewPutStep(At(s, steps, k - 1), steps[k - 1], i);
      TxidStays(s, steps, k, i);
    }
  }

  /** The step that handles one of the last PUTs handles them all. */
  lemma PutsGone(s: System, steps: seq<Step>, i: nat, k: nat)
    requires Safety.Inv(s) && IsTick(s, steps) && i < |s.clients| && s.clients[i].phase.Open?
    requires s.clients[i].nextPut == |s.clients[i].spec.puts| && HandlesTxid(steps, k, s.clients[i].txid)
    ensures i < |At(s, steps, k + 1).clients| && AllAsked(At(s, steps, k + 1).clients[i])
    ensures !PutInFlight(LocalOf(At(s, steps, k + 1), i).ch)
  {
    hide Enabled, Safety.Inv, At, Channel.Inv, ValidRun, Server.HandleAll, Client.Tick;
    var t := s.clients[i].txid;
    assert t != UNDEFINED_TX_ID by { LocalInvOf(s, i); NoTxidMeansNotStarted(LocalOf(s, i)); }
    NoNewPutOverRun(s, steps, k + 1, i);
    AtStep(s, steps, k);
    InvAt(s, steps, k);
    var u := At(s, steps, k);
    ServerStepSendsNoPut(u, t, steps[k].msgs);
    forall x | x in At(s, steps, k + 1).net && x.Txid() == t ensures !x.payload.Put? {
      if x.payload.Put? {
        assert x in s.net;
        PutHandledAt(s, steps, i, k, x);
        assert false;
      }
    }
  }

  lemma ServerStepSendsNoPut(s: System, t: TxID, msgs: seq<Message>)
    requires Safety.Inv(s) && Enabled(s, ServerTick(t, msgs))
    ensures forall x :: x in Next(s, ServerTick(t, msgs)).net && x.payload.Put? ==> x in s.net && x !in msgs
  {
    hide Channel.Inv, StoreInv, ConflictsInv, Server.HandleAll;
    BatchHasTxid(s, t, msgs);
    ServerSendsNoPut(Server.World(TxOf(s.txs, t), s.store, s.ids.lastMsg, [], false), s.clock + 1, msgs);
  }

  lemma PutHandledAt(s: System, steps: seq<Step>, i: nat, k: nat, x: Message)
    requires Safety.Inv(s) && IsTick(s, steps) && i < |s.clients| && s.clients[i].phase.Open?
    requires HandlesTxid(steps, k, s.clients[i].txid)
    requires x in s.net && x.Txid() == s.clients[i].txid && x.payload.Put?
    ensures x in steps[k].msgs
  {
    hide Enabled, Safety.Inv, At, Channel.Inv, ValidRun, Next;
    assert s.clients[i].txid != UNDEFINED_TX_ID by { MessageHasTxid(s, x); }
    var j: nat :| Delivers(steps, j, x);
    AtStep(s, steps, j);
    InvAt(s, steps, j);
    SameCount(s, steps, j);
    TxidStays(s, steps, j, i);
    WhoHandles(At(s, steps, j), steps[j], x, i);
    PutGoesToServer(s, i, x);
    SameStep(steps, j, k);
  }

  lemma PutGoesToServer(s: System, i: nat, x: Message)
    requires Safety.Inv(s) && i < |s.clients| && s.clients[i].phase.Open? && x in s.net && x.Txid() == s.clients[i].txid
    ensures x.payload.Put? <==> x.destination == s.server
  {
    LocalInvOf(s, i);
    OpenMessages(LocalOf(s, i));
    assert x in LocalOf(s, i).ch;
  }

  lemma LastPutsHandled(s: System, steps: seq<Step>, i: nat)
    requires Safety.Inv(s) && IsTick(s, steps) && i < |s.clients| && s.clients[i].phase.Open?
    requires s.clients[i].nextPut == |s.clients[i].spec.puts| && PutInFlight(LocalOf(s, i).ch)
    ensures Safety.Inv(Run(s, steps)) && |Run(s, steps).clients| == |s.clients|
    ensures RankOf(Run(s, steps), i) < RankOf(s, i)
  {
    hide Enabled, Safety.Inv, At, Channel.Inv, ValidRun, Next;
    var m :| m in LocalOf(s, i).ch && m.payload.Put?;
    var k: nat :| Delivers(steps, k, m);
    assert s.clients[i].txid != UNDEFINED_TX_ID by { MessageHasTxid(s, m); }
    AtStep(s, steps, k);
    InvAt(s, steps, k);
    SameCount(s, steps, k);
    TxidStays(s, steps, k, i);
    WhoHandles(At(s, steps, k), steps[k], m, i);
    PutGoesToServer(s, i, m);
    PutsGone(s, steps, i, k);
    RankFalls(s, steps, k + 1, |steps|, i);
    AtEnd(s, steps);
  }

  /** The server has something to handle for an open transaction only if a PUT is in flight. */
  lemma HandledMeansPut(s: System, steps: seq<Step>, i: nat, j: nat)
    requires Safety.Inv(s) && IsTick(s, steps) && i < |s.clients| && s.clients[i].phase.Open?
    requires HandlesTxid(steps, j, s.clients[i].txid)
    ensures PutInFlight(LocalOf(s, i).ch)
  {
    hide Safety.Inv, At, Channel.Inv, ValidRun, Next;
    AtStep(s, steps, j);
    SameCount(s, steps, j);
    var m := steps[j].msgs[0];
    assert m in steps[j].msgs;
    assert Delivers(steps, j, m);
    PutGoesToServer(s, i, m);
    assert m in LocalOf(s, i).ch;
  }

  lemma ReplyHandledAt(s: System, steps: seq<Step>, i: nat, k: nat, x: Message)
    requires Safety.Inv(s) && IsTick(s, steps) && i < |s.clients| && s.clients[i].phase.Open?
    requires TicksClient(steps, k, i) && x in LocalOf(s, i).ch && !x.payload.Put?
    ensures x in steps[k].msgs
  {
    hide Enabled, Safety.Inv, At, Channel.Inv, ValidRun, Next;
    assert s.clients[i].txid != UNDEFINED_TX_ID by { MessageHasTxid(s, x); }
    var j: nat :| Delivers(steps, j, x);
    AtStep(s, steps, j);
    InvAt(s, steps, j);
    SameCount(s, steps, j);
    TxidStays(s, steps, j, i);
    WhoHandles(At(s, steps, j), steps[j], x, i);
    PutGoesToServer(s, i, x);
    SameStep(steps, j, k);
  }

  /** With no PUT in flight, the client's own tick sees all its replies and sends COMMIT. */
  lemma LastRepliesHandled(s: System, steps: seq<Step>, i: nat)
    requires Safety.Inv(s) && IsTick(s, steps) && i < |s.clients| && s.clients[i].phase.Open?
    requires s.clients[i].nextPut == |s.clients[i].spec.puts| && !PutInFlight(LocalOf(s, i).ch)
    requires TimesPassed(s.clients[i].spec, s.clock + 1) && s.clients[i].spec.action.CommitAction?
    ensures Safety.Inv(Run(s, steps)) && |Run(s, steps).clients| == |s.clients|
    ensures RankOf(Run(s, steps), i) < RankOf(s, i)
  {
    hide Safety.Inv, At, Channel.Inv, ValidRun, Next, RankOf;
    assert HasClientTick(steps, i);
    var k: nat :| TicksClient(steps, k, i);
    NotBefore(steps, k, i);
    forall j: nat | j < k ensures !HandlesTxid(steps, j, s.clients[i].txid) {
      if HandlesTxid(steps, j, s.clients[i].txid) {
        HandledMeansPut(s, steps, i, j);
      }
    }
    LocalUntouched(s, steps, k, i);
    AtStep(s, steps, k);
    InvAt(s, steps, k);
    SameCount(s, steps, k);
    var u, l := At(s, steps, k), LocalOf(s, i);
    assert u.clients[i] == LocalOf(u, i).c;
    forall x | x in l.ch ensures x in steps[k].msgs {
      ReplyHandledAt(s, steps, i, k, x);
    }
    assert Elements(steps[k].msgs) == l.ch;
    DecisiveWithin(s, steps, k, i);
  }

  // --- The bound ---

  lemma RankZeroMeansDecided(s: System, i: nat)
    requires Safety.Inv(s) && i < |s.clients|
    ensures RankOf(s, i) == 0 <==> s.clients[i].phase.Committed? || s.clients[i].phase.RolledBack?
  {}

  /** Once the times of its spec have passed, a tick lowers the rank of every undecided transaction. */
  lemma TickRank(s: System, steps: seq<Step>, i: nat)
    requires Safety.Inv(s) && IsTick(s, steps) && i < |s.clients|
    requires s.clients[i].spec.action.CommitAction? && TimesPassed(s.clients[i].spec, s.clock + 1)
    ensures Safety.Inv(Run(s, steps)) && |Run(s, steps).clients| == |s.clients|
    ensures RankOf(s, i) > 0 ==> RankOf(Run(s, steps), i) < RankOf(s, i)
  {
    hide Safety.Inv, ValidRun, RankOf;
    var c := s.clients[i];
    RankZeroMeansDecided(s, i);
    TickKeepsRank(s, steps, i);
    match c.phase {
      case NotStarted => OwnStepIsDecisive(s, steps, i);
      case StartSent =>
        var m := WaitsForMessage(s, i);
        MessageIsDecisive(s, steps, i, m);
      case Open =>
        OpenBound(s, i);
        if c.nextPut < |c.spec.puts| {
          OwnStepIsDecisive(s, steps, i);
        } else if PutInFlight(LocalOf(s, i).ch) {
          LastPutsHandled(s, steps, i);
        } else {
          LastRepliesHandled(s, steps, i);
        }
      case CommitSent =>
        var m := WaitsForMessage(s, i);
        MessageIsDecisive(s, steps, i, m);
      case _ =>
    }
  }

  lemma OpenBound(s: System, i: nat)
    requires Safety.Inv(s) && i < |s.clients| && s.clients[i].phase.Open?
    ensures s.clients[i].nextPut <= |s.clients[i].spec.puts|
  {
    LocalInvOf(s, i);
  }

  lemma WaitsForMessage(s: System, i: nat) returns (m: Message)
    requires Safety.Inv(s) && i < |s.clients| && (s.clients[i].phase.StartSent? || s.clients[i].phase.CommitSent?)
    ensures m in LocalOf(s, i).ch
  {
    hide Barrier;
    LocalInvOf(s, i);
    var l := LocalOf(s, i);
    m :| m in l.ch && l.ch == {m};
  }

  lemma TickKeepsRank(s: System, steps: seq<Step>, i: nat)
    requires Safety.Inv(s) && ValidRun(s, steps) && i < |s.clients|
    ensures Safety.Inv(Run(s, steps)) && |Run(s, steps).clients| == |s.clients|
    ensures RankOf(Run(s, steps), i) <= RankOf(s, i)
  {
    hide Safety.Inv, ValidRun, RankOf, At;
    RankFalls(s, steps, 0, |steps|, i);
    AtStart(s, steps);
    AtEnd(s, steps);
  }

  lemma ClockAdvances(s: System, steps: seq<Step>)
    requires Safety.Inv(s) && ValidRun(s, steps) && steps != []
    ensures Run(s, steps).clock > s.clock
  {
    hide Safety.Inv, Server.HandleAll, Client.Tick;
    AtStart(s, steps);
    AtStep(s, steps, 0);
    match steps[0] {
      case ServerTick(t, msgs) => assert t != UNDEFINED_TX_ID by { UndefinedHasNoMessages(s, t, msgs); }
      case ClientTick(_, _) =>
    }
    SameCount(Next(s, steps[0]), steps[1..], |steps| - 1);
    AtEnd(Next(s, steps[0]), steps[1..]);
  }

  lemma UndefinedHasNoMessages(s: System, t: TxID, msgs: seq<Message>)
    requires Safety.Inv(s) && Enabled(s, ServerTick(t, msgs))
    ensures t != UNDEFINED_TX_ID
  {
    BatchHasTxid(s, t, msgs);
  }

  /** The ticks that may pass before `latest`, the latest time the spec mentions. */
  function Wait(clock: Timestamp, latest: Timestamp): nat {
    if latest > clock + 1 then latest - clock - 1 else 0
  }

  /**
    From any state the system can be in, a transaction that wants to commit is decided after the ticks until its
    latest time, plus its rank.
   */
  lemma {:induction false} DecidedWithin(s: System, ticks: seq<seq<Step>>, i: nat, latest: Timestamp)
    requires Safety.Inv(s) && IsTicks(s, ticks) && i < |s.clients|
    requires s.clients[i].spec.action.CommitAction? && TimesPassed(s.clients[i].spec, latest)
    requires |ticks| >= Wait(s.clock, latest) + RankOf(s, i)
    ensures i < |RunTicks(s, ticks).clients|
    ensures RunTicks(s, ticks).clients[i].phase.Committed? || RunTicks(s, ticks).clients[i].phase.RolledBack?
    decreases |ticks|
  {
    hide Safety.Inv, ValidRun, RankOf;
    if ticks == [] {
      RankZeroMeansDecided(s, i);
    } else {
      var s' := Run(s, ticks[0]);
      TickAdvances(s, ticks[0], i);
      if s.clock + 1 >= latest {
        TickRank(s, ticks[0], i);
      }
      DecidedWithin(s', ticks[1..], i, latest);
    }
  }

  lemma TickAdvances(s: System, steps: seq<Step>, i: nat)
    requires Safety.Inv(s) && IsTick(s, steps) && i < |s.clients|
    ensures var s' := Run(s, steps);
            && Safety.Inv(s') && |s'.clients| == |s.clients| && s'.clock > s.clock
            && RankOf(s', i) <= RankOf(s, i) && s'.clients[i].spec == s.clients[i].spec
  {
    hide Safety.Inv, ValidRun, RankOf, At;
    assert HasClientTick(steps, i);
    var k: nat :| TicksClient(steps, k, i);
    ClockAdvances(s, steps);
    TickKeepsRank(s, steps, i);
    SpecStays(s, steps, |steps|, i);
    AtEnd(s, steps);
  }

  lemma {:induction false} SpecStays(s: System, steps: seq<Step>, k: nat, i: nat)
    requires Safety.Inv(s) && ValidRun(s, steps) && k <= |steps| && i < |s.clients|
    ensures i < |At(s, steps, k).clients| && At(s, steps, k).clients[i].spec == s.clients[i].spec
    decreases k
  {
    hide Enabled, Safety.Inv, Next, At;
    if k == 0 {
      AtStart(s, steps);
    } else {
      SpecStays(s, steps, k - 1, i);
      AtStep(s, steps, k - 1);
      InvAt(s, steps, k - 1);
      SpecStaysStep(At(s, steps, k - 1), steps[k - 1], i);
    }
  }

  lemma SpecStaysStep(s: System, step: Step, i: nat)
    requires Safety.Inv(s) && Enabled(s, step) && i < |s.clients|
    ensures i < |Next(s, step).clients| && Next(s, step).clients[i].spec == s.clients[i].spec
  {
    hide StoreInv, ConflictsInv, Channel.Inv, Client.Tick, Server.HandleAll;
    if step.ClientTick? && step.i == i {
      ClientGood(s, i, step.msgs);
    }
  }

  /**
    From the initial state, every transaction with a COMMIT spec of n puts is committed or rolled back once
    max(0, latest - 1) + n + 7 ticks have run, whatever the other transactions do.
   */
  lemma BoundedProgress(s: System, ticks: seq<seq<Step>>, i: nat, latest: Timestamp)
    requires Init(s) && IsTicks(s, ticks) && i < |s.clients|
    requires s.clients[i].spec.action.CommitAction? && TimesPassed(s.clients[i].spec, latest)
    requires |ticks| >= (if latest > 1 then latest - 1 else 0) + |s.clients[i].spec.puts| + 7
    ensures i < |RunTicks(s, ticks).clients|
    ensures RunTicks(s, ticks).clients[i].phase.Committed? || RunTicks(s, ticks).clients[i].phase.RolledBack?
  {
    hide Safety.Inv;
    InitKeeps(s);
    InitialRank(s, i);
    DecidedWithin(s, ticks, i, latest);
  }

  lemma InitialRank(s: System, i: nat)
    requires Init(s) && Safety.Inv(s) && i < |s.clients|
    ensures RankOf(s, i) == |s.clients[i].spec.puts| + 7
  {}
}
