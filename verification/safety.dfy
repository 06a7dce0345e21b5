/** One inductive invariant for the whole system, and what it means for every run under any delivery order. */
module Safety {
  import opened TxTypes
  import opened VersionStore
  import Server = ServerTransaction
  import Client = ClientTransaction
  import opened Protocol
  import opened Channel
  import opened ChannelServer
  import opened ChannelTick
  import opened StoreSafety

  ghost function ChannelOf(net: set<Message>, t: TxID): set<Message> {
    set m | m in net && m.Txid() == t
  }

  ghost function LocalOf(s: System, i: nat): Local
    requires i < |s.clients|
  {
    var t := s.clients[i].txid;
    Local(s.clients[i], TxOf(s.txs, t), ChannelOf(s.net, t))
  }

  ghost predicate HasOwner(clients: seq<Client.State>, t: TxID) {
    exists i :: 0 <= i < |clients| && clients[i].txid == t
  }

  ghost predicate IdsInv(s: System) {
    && s.clock >= 0
    && CountedUp(s.ids)
    && (forall i :: 0 <= i < |s.clients| ==>
          && s.clients[i].server == s.server != s.clients[i].actor
          && (s.clients[i].txid == UNDEFINED_TX_ID || INITIAL_IDS.lastTx < s.clients[i].txid <= s.ids.lastTx))
    && (forall i, j :: 0 <= i < j < |s.clients| && s.clients[i].txid == s.clients[j].txid ==>
          s.clients[i].txid == UNDEFINED_TX_ID)
  }

  /** Every message and every server record belongs to a client transaction that was started. */
  ghost predicate Owned(s: System) {
    && (forall m :: m in s.net ==> m.Txid() != UNDEFINED_TX_ID && HasOwner(s.clients, m.Txid()))
    && (forall t :: t in s.txs ==> t != UNDEFINED_TX_ID && HasOwner(s.clients, t))
  }

  ghost predicate ChannelsInv(s: System) {
    forall i :: 0 <= i < |s.clients| ==> Channel.Inv(LocalOf(s, i)) && IdsUpTo(LocalOf(s, i), s.ids.lastMsg)
  }

  ghost predicate TimesInv(s: System) {
    forall t :: t in s.txs ==> s.txs[t].readTs <= s.clock && s.txs[t].commitTs <= s.clock
  }

  /** Every conflict a client is or will be told about is real. */
  ghost predicate ConflictsInv(s: System) {
    && (forall m :: m in s.net && m.payload.RolledBackByServer? ==>
          Reported(s.txs, s.store, m.payload.txid, m.payload.conflictTxid))
    && (forall i :: 0 <= i < |s.clients| && s.clients[i].phase.RolledBack? ==>
          Reported(s.txs, s.store, s.clients[i].txid, s.clients[i].conflictTxid))
  }

  ghost predicate Inv(s: System) {
    && !s.threw
    && IdsInv(s)
    && Owned(s)
    && ChannelsInv(s)
    && TimesInv(s)
    && StoreInv(s.txs, s.store)
    && ConflictsInv(s)
  }

  lemma InitKeeps(s: System)
    requires Init(s)
    ensures Inv(s)
  {
    forall i | 0 <= i < |s.clients| ensures Channel.Inv(LocalOf(s, i)) && IdsUpTo(LocalOf(s, i), s.ids.lastMsg) {
      assert LocalOf(s, i).ch == {};
    }
  }

  // --- Server steps ---

  lemma PostedIsOut(out: seq<Message>, actor: ActorID)
    requires forall x :: x in out ==> x.source == actor
    ensures forall m :: m in Posted(out, actor) <==> m in out
  {}

  /** What handling a batch guarantees about the transaction it is for. */
  lemma ServerLocal(s: System, t: TxID, msgs: seq<Message>, i: nat)
    requires Inv(s) && Enabled(s, ServerTick(t, msgs)) && t != UNDEFINED_TX_ID
    requires i < |s.clients| && s.clients[i].txid == t
    ensures var w := ServerWorld(s, t, msgs);
            && !w.threw
            && FreshOutput(w.out, s.server, t, s.ids.lastMsg, w.lastMsg)
            && AfterServer(LocalOf(s, i), w, msgs) == LocalOf(Next(s, ServerTick(t, msgs)), i)
            && Channel.Inv(AfterServer(LocalOf(s, i), w, msgs))
            && IdsUpTo(AfterServer(LocalOf(s, i), w, msgs), w.lastMsg)
  {
    hide Channel.Inv, StoreInv, ConflictsInv, Server.HandleAll;
    var l := LocalOf(s, i);
    HandleBatch(l, Server.World(TxOf(s.txs, t), s.store, s.ids.lastMsg, [], false), s.clock + 1, msgs);
    var w := ServerWorld(s, t, msgs);
    PostedIsOut(w.out, s.server);
    assert ChannelOf(s.net - Elements(msgs) + Posted(w.out, s.server), t) == AfterServer(l, w, msgs).ch;
  }

  lemma ServerOthers(s: System, t: TxID, msgs: seq<Message>, j: nat)
    requires Inv(s) && Enabled(s, ServerTick(t, msgs)) && t != UNDEFINED_TX_ID
    requires FreshOutput(ServerWorld(s, t, msgs).out, s.server, t, s.ids.lastMsg, ServerWorld(s, t, msgs).lastMsg)
    requires j < |s.clients| && s.clients[j].txid != t
    ensures LocalOf(Next(s, ServerTick(t, msgs)), j) == LocalOf(s, j)
  {
    hide Channel.Inv, StoreInv, ConflictsInv, Server.HandleAll;
    var w := ServerWorld(s, t, msgs);
    PostedIsOut(w.out, s.server);
    var u := s.clients[j].txid;
    assert ChannelOf(s.net - Elements(msgs) + Posted(w.out, s.server), u) == ChannelOf(s.net, u);
  }

  lemma ServerChannels(s: System, t: TxID, msgs: seq<Message>)
    requires Inv(s) && Enabled(s, ServerTick(t, msgs)) && t != UNDEFINED_TX_ID && HasOwner(s.clients, t)
    ensures ChannelsInv(Next(s, ServerTick(t, msgs)))
    ensures !ServerWorld(s, t, msgs).threw
    ensures FreshOutput(ServerWorld(s, t, msgs).out, s.server, t, s.ids.lastMsg, ServerWorld(s, t, msgs).lastMsg)
  {
    hide Channel.Inv, StoreInv, ConflictsInv, Server.HandleAll;
    var s' := Next(s, ServerTick(t, msgs));
    var i :| 0 <= i < |s.clients| && s.clients[i].txid == t;
    ServerLocal(s, t, msgs, i);
    forall j | 0 <= j < |s'.clients| ensures Channel.Inv(LocalOf(s', j)) && IdsUpTo(LocalOf(s', j), s'.ids.lastMsg) {
      if j != i {
        ServerOthers(s, t, msgs, j);
      }
    }
  }

  lemma ServerStore(s: System, t: TxID, msgs: seq<Message>)
    requires Inv(s) && Enabled(s, ServerTick(t, msgs)) && t != UNDEFINED_TX_ID
    ensures var w := ServerWorld(s, t, msgs);
            && StoreInv(s.txs[t := w.tx], w.data)
            && Honest(s.txs[t := w.tx], w.data, t, w.out)
            && GrowsFrom(s.store, w.data, s.clock + 1)
            && (t in s.txs ==> Kept(s.txs[t], w.tx))
            && w.tx.readTs <= s.clock + 1 && w.tx.commitTs <= s.clock + 1
  {
    hide ChannelsInv, ConflictsInv, Server.HandleAll, HistoryExact, TimesDistinct, FirstCommitterWins;
    var txs := s.txs[t := TxOf(s.txs, t)];
    if t in s.txs {
      assert txs == s.txs;
    } else {
      AddFresh(s.txs, s.store, t);
    }
    var w0 := Server.World(TxOf(s.txs, t), s.store, s.ids.lastMsg, [], false);
    HandleAllKeepsStore(txs, t, w0, s.clock + 1, msgs);
    var w := ServerWorld(s, t, msgs);
    assert txs[t := w.tx] == s.txs[t := w.tx];
    HandleAllStamps(w0, s.clock + 1, msgs);
    ExactHistory(s.txs, s.store);
    ExactHistory(s.txs[t := w.tx], w.data);
    TickGrows(s.txs, s.store, t, w.tx, w.data, s.clock + 1);
  }

  lemma ExactHistory(txs: Records, data: Data)
    requires StoreInv(txs, data)
    ensures HistoryExact(txs, data)
  {}

  lemma ServerConflicts(s: System, t: TxID, msgs: seq<Message>)
    requires Inv(s) && Enabled(s, ServerTick(t, msgs)) && t != UNDEFINED_TX_ID
    requires FreshOutput(ServerWorld(s, t, msgs).out, s.server, t, s.ids.lastMsg, ServerWorld(s, t, msgs).lastMsg)
    ensures ConflictsInv(Next(s, ServerTick(t, msgs)))
  {
    hide ChannelsInv, Server.HandleAll, StoreInv, Reported, GrowsFrom;
    ServerStore(s, t, msgs);
    var w, s' := ServerWorld(s, t, msgs), Next(s, ServerTick(t, msgs));
    PostedIsOut(w.out, s.server);
    forall a, c | Reported(s.txs, s.store, a, c) ensures Reported(s'.txs, s'.store, a, c) {
      assert a in s.txs by { ReportedIsThere(s.txs, s.store, a, c); }
      ReportKept(s.txs, s.store, t, w.tx, w.data, s.clock + 1, a, c);
    }
  }

  lemma ReportedIsThere(txs: Records, data: Data, a: TxID, c: TxID)
    requires Reported(txs, data, a, c)
    ensures a in txs
  {}

  lemma ServerStepKeeps(s: System, t: TxID, msgs: seq<Message>)
    requires Inv(s) && Enabled(s, ServerTick(t, msgs))
    ensures Inv(Next(s, ServerTick(t, msgs)))
  {
    hide ChannelsInv, ConflictsInv, Server.HandleAll, StoreInv;
    assert msgs[0] in s.net && msgs[0].Txid() == t by { assert msgs[0] in msgs; }
    ServerChannels(s, t, msgs);
    ServerStore(s, t, msgs);
    ServerConflicts(s, t, msgs);
    PostedIsOut(ServerWorld(s, t, msgs).out, s.server);
  }

  // --- Client steps ---

  lemma NothingUndefined(s: System)
    requires Owned(s)
    ensures ChannelOf(s.net, UNDEFINED_TX_ID) == {}
  {}

  lemma ClientGood(s: System, i: nat, msgs: seq<Message>)
    requires Inv(s) && Enabled(s, ClientTick(i, msgs))
    ensures GoodTick(LocalOf(s, i), s.ids, ClientWorld(s, i, msgs), msgs)
  {
    hide GoodTick, Client.Tick, StoreInv, ConflictsInv, Starting, Flowing, Deciding, Finished;
    TickKeepsInv(LocalOf(s, i), s.ids, s.clock + 1, msgs);
  }

  lemma TakenIds(s: System, t: TxID)
    requires IdsInv(s) && Owned(s) && t > s.ids.lastTx
    ensures ChannelOf(s.net, t) == {} && t !in s.txs
  {}

  lemma ClientLocal(s: System, i: nat, msgs: seq<Message>)
    requires Inv(s) && Enabled(s, ClientTick(i, msgs))
    ensures AfterClient(LocalOf(s, i), ClientWorld(s, i, msgs), msgs) == LocalOf(Next(s, ClientTick(i, msgs)), i)
  {
    hide Client.Tick, StoreInv, ConflictsInv, Starting, Flowing, Deciding, Finished;
    ClientGood(s, i, msgs);
    var w, s' := ClientWorld(s, i, msgs), Next(s, ClientTick(i, msgs));
    var l, c := LocalOf(s, i), s.clients[i];
    PostedIsOut(w.out, c.actor);
    if w.tx.txid == c.txid {
      assert ChannelOf(s'.net, c.txid) == AfterClient(l, w, msgs).ch;
    } else {
      TakenIds(s, w.tx.txid);
      assert l.ch == {} && msgs == [] by { NothingUndefined(s); }
      assert ChannelOf(s'.net, w.tx.txid) == AfterClient(l, w, msgs).ch;
    }
  }

  /** A client that has not started sends nothing. */
  lemma SilentUntilStarted(s: System, i: nat, msgs: seq<Message>)
    requires Inv(s) && Enabled(s, ClientTick(i, msgs)) && ClientWorld(s, i, msgs).tx.txid == UNDEFINED_TX_ID
    ensures Posted(ClientWorld(s, i, msgs).out, s.clients[i].actor) == {}
  {
    hide Client.Tick, StoreInv, ConflictsInv, Starting, Flowing, Deciding, Finished;
    ClientGood(s, i, msgs);
    assert AfterClient(LocalOf(s, i), ClientWorld(s, i, msgs), msgs).ch == {};
  }

  lemma ClientOthers(s: System, i: nat, msgs: seq<Message>, j: nat)
    requires Inv(s) && Enabled(s, ClientTick(i, msgs)) && j < |s.clients| && j != i
    ensures LocalOf(Next(s, ClientTick(i, msgs)), j) == LocalOf(s, j)
  {
    hide Client.Tick, StoreInv, ConflictsInv, Channel.Inv;
    ClientGood(s, i, msgs);
    var w, s' := ClientWorld(s, i, msgs), Next(s, ClientTick(i, msgs));
    var u := s.clients[j].txid;
    PostedIsOut(w.out, s.clients[i].actor);
    if w.tx.txid == UNDEFINED_TX_ID {
      SilentUntilStarted(s, i, msgs);
    }
    NothingUndefined(s);
    assert forall m :: m in msgs ==> m.Txid() == s.clients[i].txid;
    assert ChannelOf(s'.net, u) == ChannelOf(s.net, u);
  }

  lemma ClientChannels(s: System, i: nat, msgs: seq<Message>)
    requires Inv(s) && Enabled(s, ClientTick(i, msgs))
    ensures ChannelsInv(Next(s, ClientTick(i, msgs)))
  {
    hide Client.Tick, StoreInv, ConflictsInv, Channel.Inv;
    var s' := Next(s, ClientTick(i, msgs));
    ClientGood(s, i, msgs);
    ClientLocal(s, i, msgs);
    forall j | 0 <= j < |s'.clients| ensures Channel.Inv(LocalOf(s', j)) && IdsUpTo(LocalOf(s', j), s'.ids.lastMsg) {
      if j != i {
        ClientOthers(s, i, msgs, j);
      }
    }
  }

  lemma ClientIds(s: System, i: nat, msgs: seq<Message>)
    requires Inv(s) && Enabled(s, ClientTick(i, msgs))
    ensures IdsInv(Next(s, ClientTick(i, msgs)))
  {
    hide Client.Tick, StoreInv, ConflictsInv, Channel.Inv, Owned;
    ClientGood(s, i, msgs);
    if s.clients[i].txid != ClientWorld(s, i, msgs).tx.txid {
      NotStartedHasNoTxid(LocalOf(s, i));
    }
  }

  lemma ClientOwned(s: System, i: nat, msgs: seq<Message>)
    requires Inv(s) && Enabled(s, ClientTick(i, msgs))
    ensures Owned(Next(s, ClientTick(i, msgs)))
  {
    hide Client.Tick, StoreInv, ConflictsInv, Channel.Inv, TimesInv;
    ClientGood(s, i, msgs);
    var w, s' := ClientWorld(s, i, msgs), Next(s, ClientTick(i, msgs));
    if s.clients[i].txid != w.tx.txid {
      NotStartedHasNoTxid(LocalOf(s, i));
    }
    if w.tx.txid == UNDEFINED_TX_ID {
      SilentUntilStarted(s, i, msgs);
    }
    hide ChannelsInv, IdsInv;
    PostedIsOut(w.out, s.clients[i].actor);
    forall t | t != UNDEFINED_TX_ID && HasOwner(s.clients, t) ensures HasOwner(s'.clients, t) {
      var j :| 0 <= j < |s.clients| && s.clients[j].txid == t;
      assert s'.clients[j].txid == t;
    }
    assert HasOwner(s'.clients, w.tx.txid) by { assert s'.clients[i].txid == w.tx.txid; }
  }

  lemma NotStartedHasNoTxid(l: Local)
    requires Channel.Inv(l) && l.c.phase.NotStarted?
    ensures l.c.txid == UNDEFINED_TX_ID
  {}

  /** A client that learns of a rollback learns of the conflict the server reported. */
  lemma {:induction false} DecideReports(w: Client.World, msgs: seq<Message>)
    requires Client.Decide(w, msgs).tx.phase.RolledBack? && !w.tx.phase.RolledBack?
    ensures exists m :: && m in msgs && m.payload.RolledBackByServer?
                        && m.payload.conflictTxid == Client.Decide(w, msgs).tx.conflictTxid
  {
    if msgs == [] {
    } else {
      var n := |msgs| - 1;
      if msgs[n].payload.RolledBackByServer? && !Client.Decide(w, msgs[..n]).threw {
        assert msgs[n] in msgs;
      } else {
        DecideReports(w, msgs[..n]);
      }
    }
  }

  lemma RollbackIsReported(s: System, i: nat, msgs: seq<Message>)
    requires Inv(s) && Enabled(s, ClientTick(i, msgs))
    requires ClientWorld(s, i, msgs).tx.phase.RolledBack?
    ensures Reported(s.txs, s.store, s.clients[i].txid, ClientWorld(s, i, msgs).tx.conflictTxid)
  {
    hide Reported, StoreInv, ChannelsInv, Client.Receive, Client.ScheduleAll, Client.Decide;
    var c, w := s.clients[i], ClientWorld(s, i, msgs);
    assert !w.threw by { ClientGood(s, i, msgs); }
    var received := Client.Receive(Client.World(c, s.ids, [], false), msgs);
    var advanced := Client.Advance(received, s.clock + 1, msgs);
    ReceiveKeepsOutcome(Client.World(c, s.ids, [], false), msgs);
    ScheduleAllKeepsOutcome(advanced);
    if c.phase.CommitSent? {
      DecideReports(received, msgs);
      var m :| m in msgs && m.payload.RolledBackByServer? && m.payload.conflictTxid == w.tx.conflictTxid;
      assert m in s.net;
    }
  }

  lemma ReceiveKeepsOutcome(w: Client.World, msgs: seq<Message>)
    ensures var r := Client.Receive(w, msgs);
            r.tx.phase == w.tx.phase && r.tx.conflictTxid == w.tx.conflictTxid && r.tx.txid == w.tx.txid
  {}

  lemma ScheduleAllKeepsOutcome(w: Client.World)
    ensures var r := Client.ScheduleAll(w);
            && r.tx.phase == w.tx.phase && r.tx.conflictTxid == w.tx.conflictTxid && r.tx.txid == w.tx.txid
            && r.threw == w.threw
  {}

  lemma ClientConflicts(s: System, i: nat, msgs: seq<Message>)
    requires Inv(s) && Enabled(s, ClientTick(i, msgs))
    ensures ConflictsInv(Next(s, ClientTick(i, msgs)))
  {
    hide Reported, StoreInv, Channel.Inv, Client.Tick;
    ClientGood(s, i, msgs);
    var w, s' := ClientWorld(s, i, msgs), Next(s, ClientTick(i, msgs));
    PostedIsOut(w.out, s.clients[i].actor);
    forall m | m in w.out ensures !m.payload.RolledBackByServer? {
      ClientLocal(s, i, msgs);
      assert m in LocalOf(s', i).ch;
      ToServer(LocalOf(s', i), m);
    }
    if w.tx.phase.RolledBack? {
      RollbackIsReported(s, i, msgs);
      assert w.tx.txid == s.clients[i].txid by { RolledBackWasStarted(s, i, msgs); }
    }
  }

  lemma RolledBackWasStarted(s: System, i: nat, msgs: seq<Message>)
    requires Inv(s) && Enabled(s, ClientTick(i, msgs)) && ClientWorld(s, i, msgs).tx.phase.RolledBack?
    ensures ClientWorld(s, i, msgs).tx.txid == s.clients[i].txid
  {
    hide StoreInv, Channel.Inv;
    ClientGood(s, i, msgs);
  }

  /** Only START, PUT and COMMIT travel to the server. */
  lemma ToServer(l: Local, m: Message)
    requires Channel.Inv(l) && m in l.ch && m.destination == l.c.server != l.c.actor
    ensures m.payload.Start? || m.payload.Put? || m.payload.Commit?
  {}

  lemma ClientStepKeeps(s: System, i: nat, msgs: seq<Message>)
    requires Inv(s) && Enabled(s, ClientTick(i, msgs))
    ensures Inv(Next(s, ClientTick(i, msgs)))
  {
    hide ChannelsInv, ConflictsInv, Client.Tick, StoreInv, IdsInv, Owned;
    assert !ClientWorld(s, i, msgs).threw by { ClientGood(s, i, msgs); }
    ClientIds(s, i, msgs);
    ClientOwned(s, i, msgs);
    ClientChannels(s, i, msgs);
    ClientConflicts(s, i, msgs);
  }

  // --- Runs ---

  lemma StepKeeps(s: System, step: Step)
    requires Inv(s) && Enabled(s, step)
    ensures Inv(Next(s, step))
  {
    hide Inv;
    match step {
      case ServerTick(t, msgs) => ServerStepKeeps(s, t, msgs);
      case ClientTick(i, msgs) => ClientStepKeeps(s, i, msgs);
    }
  }

  lemma {:induction false} RunKeeps(s: System, steps: seq<Step>)
    requires Inv(s) && ValidRun(s, steps)
    ensures Inv(Run(s, steps))
    decreases |steps|
  {
    hide Inv, Next, Enabled;
    if steps == [] {
    } else {
      StepKeeps(s, steps[0]);
      RunKeeps(Next(s, steps[0]), steps[1..]);
    }
  }

  ghost predicate Reachable(s: System) {
    exists start, steps :: Init(start) && ValidRun(start, steps) && s == Run(start, steps)
  }

  lemma ReachableInv(s: System)
    requires Reachable(s)
    ensures Inv(s)
  {
    hide Inv;
    var start, steps :| Init(start) && ValidRun(start, steps) && s == Run(start, steps);
    InitKeeps(start);
    RunKeeps(start, steps);
  }
}
