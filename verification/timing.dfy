/** When things happen: nothing is done before its time in the spec, and a record's times are those of its steps. */
module Timing {
  import opened TxTypes
  import Server = ServerTransaction
  import Client = ClientTransaction
  import opened Protocol
  import opened Channel
  import opened StoreSafety
  import opened Safety
  import opened Theorems

  // --- The times of a record ---

  /** The snapshot of a transaction is the time of the step that handled its START, and so for its decision. */
  lemma StepStamps(s: System, step: Step, t: TxID)
    requires Enabled(s, step)
    ensures if step.ServerTick? && step.txid == t != UNDEFINED_TX_ID then
              Stamped(TxOf(s.txs, t), TxOf(Next(s, step).txs, t), s.clock + 1) && Next(s, step).clock == s.clock + 1
            else
              TxOf(Next(s, step).txs, t) == TxOf(s.txs, t)
  {
    hide Stamped, Server.HandleAll, Client.Tick;
    if step.ServerTick? && step.txid == t {
      HandleAllStamps(Server.World(TxOf(s.txs, t), s.store, s.ids.lastMsg, [], false), s.clock + 1, step.msgs);
    }
  }

  // --- The times of a spec ---

  /** What a client has done by time `now` was due. */
  ghost predicate DoneInTime(c: Client.State, now: Timestamp) {
    && (!c.phase.NotStarted? ==> c.spec.earliestStartTs <= now)
    && (PastBarrier(c) ==> c.spec.earliestCommitTs <= now)
    && forall j :: 0 <= j < c.nextPut && j < |c.spec.puts| ==> c.spec.puts[j].earliestTs <= now
  }

  lemma ReceiveKeepsSpec(w: Client.World, msgs: seq<Message>)
    ensures var r := Client.Receive(w, msgs);
            && r.tx.spec == w.tx.spec && r.tx.nextPut == w.tx.nextPut && r.tx.phase == w.tx.phase
            && (r.tx.participant.None? <==> w.tx.participant.None?)
  {}

  lemma ScheduleAllKeepsSpec(w: Client.World)
    ensures var r := Client.ScheduleAll(w);
            r.tx.spec == w.tx.spec && r.tx.nextPut == w.tx.nextPut && r.tx.phase == w.tx.phase
  {}

  lemma {:induction false} DecideKeepsSpec(w: Client.World, msgs: seq<Message>)
    requires PastBarrier(w.tx)
    ensures var r := Client.Decide(w, msgs);
            r.tx.spec == w.tx.spec && r.tx.nextPut == w.tx.nextPut && PastBarrier(r.tx)
  {
    if msgs == [] {
    } else {
      DecideKeepsSpec(w, msgs[..|msgs| - 1]);
    }
  }

  lemma AdvanceInTime(w: Client.World, ts: Timestamp, msgs: seq<Message>)
    requires DoneInTime(w.tx, ts)
    ensures DoneInTime(Client.Advance(w, ts, msgs).tx, ts) && Client.Advance(w, ts, msgs).tx.spec == w.tx.spec
  {
    hide Client.Decide;
    if w.tx.phase.CommitSent? {
      DecideKeepsSpec(w, msgs);
    }
  }

  /** A tick does nothing before its time. */
  lemma TickInTime(c: Client.State, ids: Ids, ts: Timestamp, msgs: seq<Message>)
    requires DoneInTime(c, ts)
    ensures DoneInTime(Client.Tick(c, ids, ts, msgs).tx, ts) && Client.Tick(c, ids, ts, msgs).tx.spec == c.spec
  {
    hide Client.Receive, Client.Advance, Client.ScheduleAll;
    var received := Client.Receive(Client.World(c, ids, [], false), msgs);
    ReceiveKeepsSpec(Client.World(c, ids, [], false), msgs);
    AdvanceInTime(received, ts, msgs);
    ScheduleAllKeepsSpec(Client.Advance(received, ts, msgs));
  }

  /** What a client has done was due, its snapshot is after its start was due and its decision after its commit was. */
  ghost predicate InTime(s: System, i: nat)
    requires i < |s.clients|
  {
    var c, tx := s.clients[i], TxOf(s.txs, s.clients[i].txid);
    && DoneInTime(c, s.clock)
    && (!tx.phase.NotStarted? ==> c.spec.earliestStartTs < tx.readTs)
    && (IsDecided(tx) ==> c.spec.earliestCommitTs < tx.commitTs)
  }

  ghost predicate AllInTime(s: System) {
    forall i :: 0 <= i < |s.clients| ==> InTime(s, i)
  }

  /** A record is opened only for a client that has started, and decided only for one that has sent COMMIT. */
  lemma RecordFollows(l: Local)
    requires Channel.Inv(l)
    ensures !l.srv.phase.NotStarted? ==> !l.c.phase.NotStarted?
    ensures IsDecided(l.srv) ==> PastBarrier(l.c)
  {}

  lemma ServerTickInTime(s: System, step: Step, i: nat)
    requires Safety.Inv(s) && Enabled(s, step) && step.ServerTick? && Safety.Inv(Next(s, step))
    requires i < |s.clients| && i < |Next(s, step).clients| && InTime(s, i)
    requires Next(s, step).clients[i] == s.clients[i] && Next(s, step).clock >= s.clock
    ensures InTime(Next(s, step), i)
  {
    hide Safety.Inv, Next, Enabled, Channel.Inv;
    var s' := Next(s, step);
    StepStamps(s, step, s.clients[i].txid);
    InvOfChannel(s', i);
    RecordFollows(LocalOf(s', i));
  }

  lemma ClientTickInTime(s: System, step: Step, i: nat)
    requires Safety.Inv(s) && Enabled(s, step) && step.ClientTick?
    requires i < |s.clients| && i < |Next(s, step).clients| && InTime(s, i)
    ensures InTime(Next(s, step), i)
  {
    hide Client.Tick, StoreInv, ConflictsInv, ChannelsInv;
    if step.i == i {
      TickInTime(s.clients[i], s.ids, s.clock + 1, step.msgs);
      KnownOrNew(s, i, step.msgs);
    }
  }

  /** A client that gets its id in this step has no record yet. */
  lemma KnownOrNew(s: System, i: nat, msgs: seq<Message>)
    requires Safety.Inv(s) && Enabled(s, ClientTick(i, msgs))
    ensures var t := ClientWorld(s, i, msgs).tx.txid; t == s.clients[i].txid || t !in s.txs
  {
    hide Client.Tick, StoreInv, ConflictsInv, Channel.Inv;
    ClientGood(s, i, msgs);
    if ClientWorld(s, i, msgs).tx.txid != s.clients[i].txid {
      TakenIds(s, ClientWorld(s, i, msgs).tx.txid);
    }
  }

  lemma StepInTime(s: System, step: Step)
    requires Safety.Inv(s) && Enabled(s, step) && AllInTime(s)
    ensures AllInTime(Next(s, step))
  {
    hide Safety.Inv, InTime, ServerWorld, ClientWorld;
    StepKeeps(s, step);
    var s' := Next(s, step);
    forall i: nat | i < |s'.clients| ensures InTime(s', i) {
      match step {
        case ServerTick(_, _) => ServerTickInTime(s, step, i);
        case ClientTick(_, _) => ClientTickInTime(s, step, i);
      }
    }
  }

  lemma {:induction false} RunInTime(s: System, steps: seq<Step>)
    requires Safety.Inv(s) && ValidRun(s, steps) && AllInTime(s)
    ensures AllInTime(Run(s, steps))
    decreases |steps|
  {
    hide Safety.Inv, Next, Enabled, AllInTime;
    if steps == [] {
    } else {
      StepKeeps(s, steps[0]);
      StepInTime(s, steps[0]);
      RunInTime(Next(s, steps[0]), steps[1..]);
    }
  }

  /**
    In every reachable state, whatever a transaction has done was due by its spec: no START, PUT or COMMIT is sent
    early. So its snapshot is later than its earliest start, and its decision later than its earliest commit.
   */
  lemma NothingIsEarly(s: System, i: nat)
    requires Reachable(s) && i < |s.clients|
    ensures InTime(s, i)
  {
    hide Safety.Inv, InTime;
    var start, steps :| Init(start) && ValidRun(start, steps) && s == Run(start, steps);
    InitKeeps(start);
    StartsInTime(start);
    RunInTime(start, steps);
  }

  lemma StartsInTime(s: System)
    requires Init(s)
    ensures AllInTime(s)
  {}
}
