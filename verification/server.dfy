/** The server actor: one transaction record per txid, over one storage and one outbox. */
module ServerActor {
  import opened TxTypes
  import opened VersionStore
  import opened Outbox
  import opened ServerTransaction
  import opened Protocol
  import opened ActorTicks

  /** The delivered messages that were not handled yet are in flight; what was sent since is numbered on. */
  ghost predicate Midway(s: System, cur: System, msgs: seq<Message>, todo: set<TxID>, scheduled: seq<Message>) {
    && cur.server == s.server && cur.clients == s.clients
    && cur.net == s.net - Elements(msgs) + Pending(msgs, todo) + Posted(scheduled, s.server)
    && Numbered(scheduled, s.ids.lastMsg, cur.ids.lastMsg)
  }

  /** At the start every message is still to be handled. */
  lemma MidwayStarts(s: System, msgs: seq<Message>, todo: set<TxID>)
    requires InboxOf(s, msgs, s.server) && forall m :: m in msgs ==> m.Txid() in todo
    ensures Midway(s, s, msgs, todo, []) && ServerSteps([], msgs, todo)
  {}

  lemma TurnEnabled(s: System, cur: System, msgs: seq<Message>, todo: set<TxID>, scheduled: seq<Message>, t: TxID)
    requires Midway(s, cur, msgs, todo, scheduled) && t in todo && OfTx(msgs, t) != []
    requires InboxOf(s, msgs, s.server)
    ensures Enabled(cur, ServerTick(t, OfTx(msgs, t)))
  {
    OfTxHas(msgs, t);
    OfTxDistinct(msgs, t);
  }

  lemma TurnDone(s: System, cur: System, msgs: seq<Message>, todo: set<TxID>, scheduled: seq<Message>, t: TxID)
    requires Midway(s, cur, msgs, todo, scheduled) && t in todo && t != UNDEFINED_TX_ID
    requires InboxOf(s, msgs, s.server) && IdsBound(s)
    requires Enabled(cur, ServerTick(t, OfTx(msgs, t)))
    ensures Midway(s, Next(cur, ServerTick(t, OfTx(msgs, t))), msgs, todo - {t},
                   scheduled + ServerWorld(cur, t, OfTx(msgs, t)).out)
  {
    hide HandleAll;
    var w := ServerWorld(cur, t, OfTx(msgs, t));
    HandleAllNumbered(World(TxOf(cur.txs, t), cur.store, cur.ids.lastMsg, [], false), cur.clock + 1, OfTx(msgs, t),
                      cur.ids.lastMsg);
    NumberedAppend(scheduled, w.out, s.ids.lastMsg, cur.ids.lastMsg, w.lastMsg);
    PostedAppend(scheduled, w.out, s.server);
    PostedIsNew(s, scheduled, cur.ids.lastMsg, s.server);
    OfTxHas(msgs, t);
    assert Pending(msgs, todo) - Elements(OfTx(msgs, t)) == Pending(msgs, todo - {t});
    assert (s.net - Elements(msgs)) - Elements(OfTx(msgs, t)) == s.net - Elements(msgs);
  }

  ghost predicate HandledBy(steps: seq<Step>, t: TxID) {
    exists k :: 0 <= k < |steps| && steps[k].ServerTick? && steps[k].txid == t
  }

  /** One step for each transaction of the batch that is not left to do, handling exactly its messages. */
  ghost predicate ServerSteps(steps: seq<Step>, msgs: seq<Message>, todo: set<TxID>) {
    && (forall k :: 0 <= k < |steps| ==> steps[k].ServerTick?)
    && (forall k :: 0 <= k < |steps| ==> steps[k].txid !in todo && steps[k].msgs == OfTx(msgs, steps[k].txid))
    && (forall j, k :: 0 <= j < k < |steps| ==> steps[j].txid != steps[k].txid)
    && (forall m :: m in msgs && m.Txid() !in todo ==> HandledBy(steps, m.Txid()))
  }

  lemma OneMoreStep(steps: seq<Step>, msgs: seq<Message>, todo: set<TxID>, t: TxID)
    requires ServerSteps(steps, msgs, todo) && t in todo
    ensures ServerSteps(steps + [ServerTick(t, OfTx(msgs, t))], msgs, todo - {t})
  {
    var after := steps + [ServerTick(t, OfTx(msgs, t))];
    assert after[|steps|].txid == t;
    forall m | m in msgs && m.Txid() !in todo - {t} ensures HandledBy(after, m.Txid()) {
      if m.Txid() != t {
        var k :| 0 <= k < |steps| && steps[k].ServerTick? && steps[k].txid == m.Txid();
        assert after[k].txid == m.Txid();
      }
    }
  }

  /** The state of a batch: which transactions are left to do, and the run so far. */
  ghost predicate Underway(s: System, cur: System, steps: seq<Step>, msgs: seq<Message>, todo: set<TxID>,
                           scheduled: seq<Message>) {
    && ValidRun(s, steps) && cur == Run(s, steps)
    && ServerSteps(steps, msgs, todo)
    && Midway(s, cur, msgs, todo, scheduled)
  }

  lemma UnderwayStart(s: System, msgs: seq<Message>, todo: set<TxID>)
    requires InboxOf(s, msgs, s.server) && forall t :: t in todo <==> OfTx(msgs, t) != []
    ensures Underway(s, s, [], msgs, todo, [])
  {
    forall m | m in msgs ensures m.Txid() in todo {
      OfTxHas(msgs, m.Txid());
    }
    MidwayStarts(s, msgs, todo);
  }

  lemma UnderwayStep(s: System, cur: System, steps: seq<Step>, msgs: seq<Message>, todo: set<TxID>,
                     scheduled: seq<Message>, t: TxID)
    requires Underway(s, cur, steps, msgs, todo, scheduled) && t in todo && OfTx(msgs, t) != []
    requires InboxOf(s, msgs, s.server) && IdsBound(s) && t != UNDEFINED_TX_ID
    ensures var step := ServerTick(t, OfTx(msgs, t));
            && Enabled(cur, step)
            && Underway(s, Next(cur, step), steps + [step], msgs, todo - {t},
                        scheduled + ServerWorld(cur, t, OfTx(msgs, t)).out)
            && Next(cur, step).threw == (cur.threw || ServerWorld(cur, t, OfTx(msgs, t)).threw)
  {
    hide Midway, ServerSteps, InboxOf, IdsBound, ServerWorld, OfTx;
    var step := ServerTick(t, OfTx(msgs, t));
    TurnEnabled(s, cur, msgs, todo, scheduled, t);
    TurnDone(s, cur, msgs, todo, scheduled, t);
    OneMoreStep(steps, msgs, todo, t);
    RunOne(cur, step);
    RunAppend(s, steps, [step]);
    NextServer(cur, t, OfTx(msgs, t));
  }

  class Server {
    const actor: ActorID
    const storage: Storage
    const retrier: Retrier
    const generator: Generator
    var transactions: map<TxID, ServerTx>

    /** The records are objects of their own and share the storage, the outbox and the id counters. */
    ghost predicate Valid()
      reads this, retrier
    {
      && retrier.scheduled == []
      && (forall t :: t in transactions ==>
            && transactions[t].storage == storage
            && transactions[t].retrier == retrier
            && transactions[t].generator == generator)
      && forall t, u :: t in transactions && u in transactions && transactions[t] == transactions[u] ==> t == u
    }

    ghost function Repr(): set<object>
      reads this
    {
      {this, storage, retrier} + set t | t in transactions :: transactions[t]
    }

    lemma RecordInRepr(t: TxID)
      requires t in transactions
      ensures transactions[t] in Repr()
    {}

    /** The objects hold the server's part of the system state. */
    ghost predicate Stores(s: System)
      reads this, storage, Repr()
    {
      && s.server == actor
      && s.store == storage.data
      && (forall t :: t in s.txs ==> t in transactions)
      && forall t :: t in transactions ==> transactions[t].View() == TxOf(s.txs, t)
    }

    ghost predicate Holds(s: System, clock: Clock)
      reads this, storage, generator, clock, Repr()
    {
      Stores(s) && InStep(s, clock, generator)
    }

    constructor (actor: ActorID, generator: Generator)
      ensures Valid() && this.actor == actor && this.generator == generator
      ensures transactions == map[] && storage.data == map[] && fresh(Repr())
    {
      this.actor, this.generator := actor, generator;
      storage := new Storage();
      retrier := new Retrier();
      transactions := map[];
    }

    method GetOrCreateTx(t: TxID, ghost s: System, ghost clock: Clock) returns (tx: ServerTx)
      requires Valid() && Holds(s, clock)
      modifies this
      ensures Valid() && t in transactions && tx == transactions[t] && fresh(Repr() - old(Repr()))
      ensures Holds(s, clock)
    {
      if t !in transactions {
        var record := new ServerTx(storage, retrier, generator);
        transactions := transactions[t := record];
      }
      tx := transactions[t];
    }

    /** A known transaction's turn, at a timestamp of its own. */
    method TickTx(clock: Clock, t: TxID, msgs: seq<Message>, scheduled: seq<Message>, ghost s: System)
      returns (r: seq<Message>, threw: bool)
      requires Valid() && Holds(s, clock) && Enabled(s, ServerTick(t, msgs)) && t != UNDEFINED_TX_ID
      requires t in transactions
      modifies transactions[t], storage, retrier, generator, clock
      ensures threw == ServerWorld(s, t, msgs).threw
      ensures !threw ==> Valid() && Holds(Next(s, ServerTick(t, msgs)), clock)
      ensures !threw ==> r == scheduled + ServerWorld(s, t, msgs).out
    {
      hide HandleAll, Enabled, Next;
      NextServer(s, t, msgs);
      var tx := transactions[t];
      var ts := clock.Next();
      r, threw := tx.Tick(ts, msgs, scheduled);
    }

    /** The turn of any transaction: its record is created when missing. */
    method TakeTurn(clock: Clock, t: TxID, msgs: seq<Message>, scheduled: seq<Message>, ghost s: System)
      returns (r: seq<Message>, threw: bool)
      requires Valid() && Holds(s, clock) && Enabled(s, ServerTick(t, msgs)) && t != UNDEFINED_TX_ID
      modifies Repr(), generator, clock
      ensures fresh(Repr() - old(Repr()))
      ensures threw == ServerWorld(s, t, msgs).threw
      ensures !threw ==> Valid() && Holds(Next(s, ServerTick(t, msgs)), clock)
      ensures !threw ==> r == scheduled + ServerWorld(s, t, msgs).out
    {
      hide Valid, Holds, Enabled, Next, ServerWorld;
      var _ := GetOrCreateTx(t, s, clock);
      RecordInRepr(t);
      r, threw := TickTx(clock, t, msgs, scheduled, s);
    }

    /** Groups the messages by transaction; a message without one is an error. */
    method GroupByTx(msgs: seq<Message>) returns (perTx: map<TxID, seq<Message>>, threw: bool)
      ensures threw <==> exists m :: m in msgs && m.Txid() == UNDEFINED_TX_ID
      ensures !threw ==> forall t :: Lookup(perTx, t) == OfTx(msgs, t) && (t in perTx <==> OfTx(msgs, t) != [])
    {
      hide OfTx;
      perTx, threw := map[], false;
      OfTxNone();
      for i := 0 to |msgs|
        invariant forall k :: 0 <= k < i ==> msgs[k].Txid() != UNDEFINED_TX_ID
        invariant forall t :: Lookup(perTx, t) == OfTx(msgs[..i], t) && (t in perTx <==> OfTx(msgs[..i], t) != [])
      {
        forall t
          ensures OfTx(msgs[..i + 1], t)
               == if msgs[i].Txid() == t then OfTx(msgs[..i], t) + [msgs[i]] else OfTx(msgs[..i], t)
        {
          OfTxSnoc(msgs, i, t);
        }
        var t := msgs[i].Txid();
        if t == UNDEFINED_TX_ID {
          return map[], true;
        }
        perTx := perTx[t := Lookup(perTx, t) + [msgs[i]]];
      }
      assert msgs[..|msgs|] == msgs;
    }

    /**
      Handles a batch: every transaction with messages gets one tick with all of them, in some order. This is a run of
      the system, after which the batch is no longer in flight and `out` is.
     */
    method OnTick(clock: Clock, msgs: seq<Message>, ghost s: System)
      returns (out: seq<Message>, threw: bool, ghost steps: seq<Step>)
      requires Valid() && Holds(s, clock) && IdsBound(s) && InboxOf(s, msgs, s.server) && !s.threw
      modifies Repr(), generator, clock
      ensures fresh(Repr() - old(Repr()))
      ensures ValidRun(s, steps) && threw == Run(s, steps).threw
      ensures !threw ==> Valid() && Holds(Run(s, steps), clock)
      ensures !threw ==> Underway(s, Run(s, steps), steps, msgs, {}, out)
    {
      hide Holds, Valid, Midway, ServerSteps, InboxOf, IdsBound, ValidRun, Run, Next, Enabled, ServerWorld, OfTx;
      steps, out := [], [];
      var perTx;
      perTx, threw := GroupByTx(msgs);
      if threw {
        ghost var m :| m in msgs && m.Txid() == UNDEFINED_TX_ID;
        steps := [ServerTick(UNDEFINED_TX_ID, [m])];
        UndefinedThrows(s, msgs, m);
        return;
      }
      var todo := perTx.Keys;
      ghost var cur := s;
      UnderwayStart(s, msgs, todo);
      while exists t :: t in todo
        invariant Valid() && Holds(cur, clock) && fresh(Repr() - old(Repr()))
        invariant todo <= perTx.Keys && !cur.threw && !threw
        invariant Underway(s, cur, steps, msgs, todo, out)
        decreases |todo|
      {
        var t :| t in todo;
        assert perTx[t] == Lookup(perTx, t);
        NotUndefined(msgs, t);
        UnderwayStep(s, cur, steps, msgs, todo, out, t);
        out, threw := TakeTurn(clock, t, perTx[t], out, cur);
        steps, cur := steps + [ServerTick(t, perTx[t])], Next(cur, ServerTick(t, perTx[t]));
        if threw {
          return;
        }
        todo := todo - {t};
      }
      assert todo == {};
    }
  }

  lemma NotUndefined(msgs: seq<Message>, t: TxID)
    requires OfTx(msgs, t) != [] && forall m :: m in msgs ==> m.Txid() != UNDEFINED_TX_ID
    ensures t != UNDEFINED_TX_ID
  {}

  lemma NextServer(s: System, t: TxID, msgs: seq<Message>)
    requires Enabled(s, ServerTick(t, msgs)) && t != UNDEFINED_TX_ID
    ensures var n, w := Next(s, ServerTick(t, msgs)), ServerWorld(s, t, msgs);
            && n.server == s.server && n.clock == s.clock + 1 && n.ids == s.ids.(lastMsg := w.lastMsg)
            && n.txs == s.txs[t := w.tx] && n.store == w.data && n.clients == s.clients
            && n.threw == (s.threw || w.threw)
  {}

  lemma UndefinedThrows(s: System, msgs: seq<Message>, m: Message)
    requires InboxOf(s, msgs, s.server) && m in msgs && m.Txid() == UNDEFINED_TX_ID
    ensures ValidRun(s, [ServerTick(UNDEFINED_TX_ID, [m])]) && Run(s, [ServerTick(UNDEFINED_TX_ID, [m])]).threw
  {}
}
