/** The client actor: a list of transactions over one outbox. */
module ClientActor {
  import opened TxTypes
  import opened Outbox
  import opened ClientTransaction
  import opened Protocol
  import opened ActorTicks

  /** One of the client's first `n` transactions, which start at `base`, has this id. */
  ghost predicate HasTx(clients: seq<State>, base: nat, n: nat, t: TxID)
    requires base + n <= |clients|
  {
    t != UNDEFINED_TX_ID && exists k :: base <= k < base + n && clients[k].txid == t
  }

  /** The delivered messages for the first `n` transactions. */
  ghost function Taken(clients: seq<State>, base: nat, n: nat, msgs: seq<Message>): set<Message>
    requires base + n <= |clients|
  {
    set m | m in msgs && HasTx(clients, base, n, m.Txid())
  }

  /** After `n` transactions ticked: their messages are gone, what they sent is in flight, the rest is as before. */
  ghost predicate Midway(s: System, cur: System, base: nat, n: nat, actor: ActorID, msgs: seq<Message>,
                         scheduled: seq<Message>)
    requires base + n <= |s.clients|
  {
    && cur.server == s.server && cur.txs == s.txs && cur.store == s.store
    && |cur.clients| == |s.clients|
    && (forall k :: 0 <= k < |s.clients| && !(base <= k < base + n) ==> cur.clients[k] == s.clients[k])
    && cur.net == s.net - Taken(s.clients, base, n, msgs) + Posted(scheduled, actor)
    && Numbered(scheduled, s.ids.lastMsg, cur.ids.lastMsg)
  }

  /** The messages still held for each transaction: a vector that was moved out is empty. */
  ghost predicate Left(clients: seq<State>, base: nat, n: nat, msgs: seq<Message>, perTx: map<TxID, seq<Message>>)
    requires base + n <= |clients|
  {
    forall t :: t != UNDEFINED_TX_ID ==>
      Lookup(perTx, t) == if HasTx(clients, base, n, t) then [] else OfTx(msgs, t)
  }

  /** What a transaction is handed. */
  function Handed(perTx: map<TxID, seq<Message>>, t: TxID): seq<Message> {
    if t == UNDEFINED_TX_ID then [] else Lookup(perTx, t)
  }

  lemma HasTxNext(clients: seq<State>, base: nat, n: nat, t: TxID)
    requires base + n < |clients|
    ensures HasTx(clients, base, n + 1, t)
        <==> HasTx(clients, base, n, t) || (t != UNDEFINED_TX_ID && clients[base + n].txid == t)
  {}

  lemma LeftNext(clients: seq<State>, base: nat, n: nat, msgs: seq<Message>, perTx: map<TxID, seq<Message>>)
    requires base + n < |clients| && Left(clients, base, n, msgs, perTx)
    ensures Left(clients, base, n + 1, msgs, perTx[clients[base + n].txid := []])
  {}

  /** What the next transaction is handed are those of its messages that are still in flight. */
  lemma HandedHas(clients: seq<State>, base: nat, n: nat, msgs: seq<Message>, perTx: map<TxID, seq<Message>>)
    requires base + n < |clients| && Left(clients, base, n, msgs, perTx) && Distinct(msgs)
    ensures var h := Handed(perTx, clients[base + n].txid);
            && Distinct(h)
            && (forall m :: m in h <==> m in Taken(clients, base, n + 1, msgs) && m !in Taken(clients, base, n, msgs))
            && forall m :: m in h ==> m.Txid() == clients[base + n].txid
  {
    hide OfTx, HasTx;
    var t := clients[base + n].txid;
    OfTxHas(msgs, t);
    OfTxDistinct(msgs, t);
    forall m: Message | true
      ensures HasTx(clients, base, n + 1, m.Txid())
          <==> HasTx(clients, base, n, m.Txid()) || (m.Txid() != UNDEFINED_TX_ID && t == m.Txid())
    {
      HasTxNext(clients, base, n, m.Txid());
    }
  }

  lemma TurnEnabled(s: System, cur: System, base: nat, n: nat, actor: ActorID, msgs: seq<Message>,
                    scheduled: seq<Message>, perTx: map<TxID, seq<Message>>)
    requires base + n < |s.clients| && Midway(s, cur, base, n, actor, msgs, scheduled)
    requires Left(s.clients, base, n, msgs, perTx) && InboxOf(s, msgs, actor) && s.clients[base + n].actor == actor
    ensures Enabled(cur, ClientTick(base + n, Handed(perTx, s.clients[base + n].txid)))
  {
    hide OfTx, HasTx, Left;
    HandedHas(s.clients, base, n, msgs, perTx);
    assert cur.clients[base + n] == s.clients[base + n];
  }

  lemma TurnDone(s: System, cur: System, base: nat, n: nat, actor: ActorID, msgs: seq<Message>,
                 scheduled: seq<Message>, perTx: map<TxID, seq<Message>>)
    requires base + n < |s.clients| && Midway(s, cur, base, n, actor, msgs, scheduled)
    requires Left(s.clients, base, n, msgs, perTx) && InboxOf(s, msgs, actor) && s.clients[base + n].actor == actor
    requires IdsBound(s)
    requires Enabled(cur, ClientTick(base + n, Handed(perTx, s.clients[base + n].txid)))
    ensures var h := Handed(perTx, s.clients[base + n].txid);
            Midway(s, Next(cur, ClientTick(base + n, h)), base, n + 1, actor, msgs,
                   scheduled + ClientWorld(cur, base + n, h).out)
  {
    hide OfTx, HasTx, Left, Enabled, Tick;
    var h := Handed(perTx, s.clients[base + n].txid);
    HandedHas(s.clients, base, n, msgs, perTx);
    var w := ClientWorld(cur, base + n, h);
    TickNumbered(cur.clients[base + n], cur.ids, cur.clock + 1, h);
    NumberedAppend(scheduled, w.out, s.ids.lastMsg, cur.ids.lastMsg, w.ids.lastMsg);
    PostedAppend(scheduled, w.out, actor);
    PostedIsNew(s, scheduled, cur.ids.lastMsg, actor);
    TakenGrows(s.clients, base, n, msgs);
    assert s.net - Taken(s.clients, base, n, msgs) - Elements(h) == s.net - Taken(s.clients, base, n + 1, msgs);
  }

  lemma TakenGrows(clients: seq<State>, base: nat, n: nat, msgs: seq<Message>)
    requires base + n < |clients|
    ensures Taken(clients, base, n, msgs) <= Taken(clients, base, n + 1, msgs)
  {}

  ghost predicate GivenTo(steps: seq<Step>, m: Message) {
    exists k :: 0 <= k < |steps| && m in steps[k].msgs
  }

  /** One step for each of the first `n` transactions, together handling exactly the messages for them. */
  ghost predicate ClientSteps(steps: seq<Step>, clients: seq<State>, base: nat, n: nat, msgs: seq<Message>)
    requires base + n <= |clients|
  {
    && |steps| == n
    && (forall k :: 0 <= k < n ==> steps[k].ClientTick? && steps[k].i == base + k)
    && (forall k, m :: 0 <= k < n && m in steps[k].msgs ==> m in msgs)
    && (forall m :: m in Taken(clients, base, n, msgs) ==> GivenTo(steps, m))
  }

  lemma OneMoreStep(steps: seq<Step>, clients: seq<State>, base: nat, n: nat, msgs: seq<Message>, perTx: map<TxID,
                    seq<Message>>)
    requires base + n < |clients| && ClientSteps(steps, clients, base, n, msgs)
    requires Left(clients, base, n, msgs, perTx) && Distinct(msgs)
    ensures ClientSteps(steps + [ClientTick(base + n, Handed(perTx, clients[base + n].txid))],
                        clients, base, n + 1, msgs)
  {
    hide OfTx, HasTx, Left, Handed;
    var step := ClientTick(base + n, Handed(perTx, clients[base + n].txid));
    var after := steps + [step];
    HandedHas(clients, base, n, msgs, perTx);
    forall m | m in Taken(clients, base, n + 1, msgs) ensures GivenTo(after, m) {
      if m in Taken(clients, base, n, msgs) {
        var k :| 0 <= k < |steps| && m in steps[k].msgs;
        assert m in after[k].msgs;
      } else {
        assert m in after[n].msgs;
      }
    }
  }

  /** The state of a batch after `n` transactions ticked. */
  ghost predicate Underway(s: System, cur: System, steps: seq<Step>, base: nat, n: nat, actor: ActorID,
                           msgs: seq<Message>, scheduled: seq<Message>)
    requires base + n <= |s.clients|
  {
    && ValidRun(s, steps) && cur == Run(s, steps)
    && ClientSteps(steps, s.clients, base, n, msgs)
    && Midway(s, cur, base, n, actor, msgs, scheduled)
  }

  lemma UnderwayStart(s: System, base: nat, actor: ActorID, msgs: seq<Message>)
    requires base <= |s.clients|
    ensures Underway(s, s, [], base, 0, actor, msgs, [])
  {
    assert Taken(s.clients, base, 0, msgs) == {};
  }

  lemma UnderwayStep(s: System, cur: System, steps: seq<Step>, base: nat, n: nat, actor: ActorID, msgs: seq<Message>,
                     scheduled: seq<Message>, perTx: map<TxID, seq<Message>>)
    requires base + n < |s.clients| && Underway(s, cur, steps, base, n, actor, msgs, scheduled)
    requires Left(s.clients, base, n, msgs, perTx) && InboxOf(s, msgs, actor) && s.clients[base + n].actor == actor
    requires IdsBound(s)
    ensures var step := ClientTick(base + n, Handed(perTx, s.clients[base + n].txid));
            && cur.clients[base + n] == s.clients[base + n] && Enabled(cur, step)
            && |Next(cur, step).clients| == |s.clients|
            && Underway(s, Next(cur, step), steps + [step], base, n + 1, actor, msgs,
                        scheduled + ClientWorld(cur, base + n, step.msgs).out)
            && Next(cur, step).threw == (cur.threw || ClientWorld(cur, base + n, step.msgs).threw)
  {
    var step := ClientTick(base + n, Handed(perTx, s.clients[base + n].txid));
    assert cur.clients[base + n] == s.clients[base + n];
    hide OfTx, HasTx, Left, Midway, ClientSteps, IdsBound, Handed, Tick;
    TurnEnabled(s, cur, base, n, actor, msgs, scheduled, perTx);
    TurnDone(s, cur, base, n, actor, msgs, scheduled, perTx);
    OneMoreStep(steps, s.clients, base, n, msgs, perTx);
    hide InboxOf;
    RunOne(cur, step);
    RunAppend(s, steps, [step]);
  }

  class Client {
    const actor: ActorID
    const server: ActorID
    const retrier: Retrier
    const generator: Generator
    const transactions: seq<ClientTx>
    /** Where this client's transactions are in the system's list. */
    ghost const base: nat

    ghost var Repr: set<object>

    ghost predicate Own(j: nat)
      requires j < |transactions|
      reads this, Repr
    {
      && transactions[j] in Repr && transactions[j].Repr() <= Repr - {this, retrier}
      && transactions[j].Valid()
      && transactions[j].actor == actor && transactions[j].server == server
      && transactions[j].retrier == retrier && transactions[j].generator == generator
    }

    ghost predicate Apart(j: nat, k: nat)
      requires j < |transactions| && k < |transactions| && Own(j) && Own(k)
      reads this, Repr
    {
      j != k ==> transactions[j].Repr() !! transactions[k].Repr()
    }

    ghost predicate Valid()
      reads this, Repr
    {
      && this in Repr && retrier in Repr && generator !in Repr && retrier.scheduled == []
      && (forall j: nat :: j < |transactions| ==> Own(j))
      && forall j: nat, k: nat :: j < |transactions| && k < |transactions| ==> Apart(j, k)
    }

    /** The objects hold this client's part of the system state. */
    ghost predicate Stores(s: System)
      requires Valid()
      reads this, Repr
    {
      && s.server == server
      && base + |transactions| <= |s.clients|
      && forall j: nat :: j < |transactions| ==> Own(j) && s.clients[base + j] == transactions[j].View()
    }

    ghost predicate Holds(s: System, clock: Clock)
      requires Valid()
      reads this, Repr, generator, clock
    {
      clock !in Repr && Stores(s) && InStep(s, clock, generator)
    }

    constructor (actor: ActorID, specs: seq<TxSpec>, server: ActorID, generator: Generator, ghost base: nat)
      ensures Valid() && fresh(Repr)
      ensures this.actor == actor && this.server == server && this.generator == generator && this.base == base
      ensures |transactions| == |specs|
      ensures forall j: nat :: j < |specs| ==> Own(j) && transactions[j].View() == Initial(actor, specs[j], server)
    {
      var outbox := new Retrier();
      ghost var footprint: set<object> := {outbox};
      var txs: seq<ClientTx> := [];
      for j := 0 to |specs|
        invariant |txs| == j && fresh(footprint) && outbox in footprint && outbox.scheduled == []
        invariant forall k :: 0 <= k < j ==>
          && txs[k] in footprint && txs[k].Repr() <= footprint && txs[k].Valid()
          && txs[k].View() == Initial(actor, specs[k], server)
          && txs[k].actor == actor && txs[k].server == server
          && txs[k].retrier == outbox && txs[k].generator == generator
        invariant forall i, k :: 0 <= i < k < j ==> txs[i].Repr() !! txs[k].Repr()
      {
        var tx := new ClientTx(actor, specs[j], server, outbox, generator);
        footprint := footprint + tx.Repr();
        txs := txs + [tx];
      }
      this.actor, this.server, this.generator, this.base := actor, server, generator, base;
      retrier, transactions := outbox, txs;
      Repr := {this} + footprint;
    }

    /** A tick of one transaction, which may get new parts, leaves the others alone. */
    twostate lemma OthersKept(j: nat)
      requires old(Valid()) && j < |transactions|
      requires transactions[j] in Repr && transactions[j].Valid() && retrier.scheduled == []
      requires fresh(transactions[j].Repr() - old(transactions[j].Repr()))
      requires Repr == old(Repr) + transactions[j].Repr()
      requires forall o :: o in old(Repr) - old(transactions[j].Repr()) - {this, retrier} ==> unchanged(o)
      ensures Valid() && Own(j)
      ensures forall k: nat :: k < |transactions| && k != j ==>
        Own(k) && old(Own(k)) && transactions[k].View() == old(transactions[k].View())
    {
      assert old(Own(j));
      forall k: nat | k < |transactions| && k != j
        ensures Own(k) && old(Own(k)) && transactions[k].View() == old(transactions[k].View())
        ensures transactions[k].Repr() == old(transactions[k].Repr())
        ensures transactions[k].Repr() !! transactions[j].Repr()
      {
        assert old(Own(k)) && old(Apart(j, k));
        assert forall o :: o in old(transactions[k].Repr()) ==>
          o in old(Repr) - old(transactions[j].Repr()) - {this, retrier};
      }
      assert Own(j);
      forall i: nat, k: nat | i < |transactions| && k < |transactions| ensures Apart(i, k) {
        assert old(Own(i)) && old(Own(k)) && old(Apart(i, k));
      }
    }

    lemma OwnParts(j: nat)
      requires Valid() && j < |transactions|
      ensures Own(j) && this in Repr && retrier in Repr && generator !in Repr && retrier.scheduled == []
    {}

    /** A transaction's turn, at a timestamp of its own. */
    method TickTx(clock: Clock, j: nat, msgs: seq<Message>, scheduled: seq<Message>, ghost s: System)
      returns (r: seq<Message>, threw: bool)
      requires j < |transactions| && Valid() && Holds(s, clock) && Enabled(s, ClientTick(base + j, msgs))
      modifies Repr, generator, clock
      ensures fresh(Repr - old(Repr))
      ensures threw == ClientWorld(s, base + j, msgs).threw
      ensures !threw ==> Valid() && Holds(Next(s, ClientTick(base + j, msgs)), clock)
      ensures !threw ==> r == scheduled + ClientWorld(s, base + j, msgs).out
    {
      hide Valid, Tick, Enabled, Next, Apart;
      NextClient(s, base + j, msgs);
      OwnParts(j);
      var tx := transactions[j];
      var ts := clock.Next();
      r, threw := tx.DoTick(ts, msgs, scheduled);
      if threw {
        return;
      }
      Repr := Repr + tx.Repr();
      OthersKept(j);
      ghost var s' := Next(s, ClientTick(base + j, msgs));
      assert s'.clients == s.clients[base + j := tx.View()];
      StoresNow(s, s', j);
    }

    lemma StoresNow(s: System, s': System, j: nat)
      requires Valid() && j < |transactions| && Own(j) && s'.server == s.server == server
      requires base + |transactions| <= |s.clients| && s'.clients == s.clients[base + j := transactions[j].View()]
      requires forall k: nat :: k < |transactions| && k != j ==> Own(k) && s.clients[base + k] == transactions[k].View()
      ensures Stores(s')
    {}

    /** Groups the messages that belong to a transaction; others are dropped. */
    method GroupByTx(msgs: seq<Message>) returns (perTx: map<TxID, seq<Message>>)
      ensures forall t :: t != UNDEFINED_TX_ID ==> Lookup(perTx, t) == OfTx(msgs, t)
    {
      hide OfTx;
      perTx := map[];
      OfTxNone();
      for i := 0 to |msgs|
        invariant forall t :: t != UNDEFINED_TX_ID ==> Lookup(perTx, t) == OfTx(msgs[..i], t)
      {
        forall t
          ensures OfTx(msgs[..i + 1], t)
               == if msgs[i].Txid() == t then OfTx(msgs[..i], t) + [msgs[i]] else OfTx(msgs[..i], t)
        {
          OfTxSnoc(msgs, i, t);
        }
        var t := msgs[i].Txid();
        ghost var before := perTx;
        if t != UNDEFINED_TX_ID {
          perTx := perTx[t := Lookup(perTx, t) + [msgs[i]]];
        }
        assert forall u :: u != UNDEFINED_TX_ID ==>
          Lookup(perTx, u) == if u == t then Lookup(before, u) + [msgs[i]] else Lookup(before, u);
      }
      assert msgs[..|msgs|] == msgs;
    }

    /**
      Every transaction ticks once, in the order of the specs, with the messages for it. This is a run of the system,
      after which those messages are no longer in flight and `out` is.
     */
    method OnTick(clock: Clock, msgs: seq<Message>, ghost s: System)
      returns (out: seq<Message>, threw: bool, ghost steps: seq<Step>)
      requires Valid() && Holds(s, clock) && IdsBound(s) && InboxOf(s, msgs, actor) && !s.threw
      modifies Repr, generator, clock
      ensures fresh(Repr - old(Repr))
      ensures ValidRun(s, steps) && threw == Run(s, steps).threw
      ensures !threw ==> Valid() && Holds(Run(s, steps), clock)
      ensures !threw ==> Underway(s, Run(s, steps), steps, base, |transactions|, actor, msgs, out)
    {
      hide Midway, ClientSteps, InboxOf, IdsBound, ValidRun, Run, Next, Enabled, Tick, OfTx, HasTx, Apart;
      steps, out, threw := [], [], false;
      var perTx := GroupByTx(msgs);
      ghost var cur := s;
      UnderwayStart(s, base, actor, msgs);
      NoneLeft(s.clients, base, msgs, perTx);
      for j := 0 to |transactions|
        invariant Valid() && Holds(cur, clock) && fresh(Repr - old(Repr))
        invariant !cur.threw && !threw && |cur.clients| == |s.clients|
        invariant Underway(s, cur, steps, base, j, actor, msgs, out)
        invariant Left(s.clients, base, j, msgs, perTx)
      {
        var t := transactions[j].txid;
        var handed := Handed(perTx, t);
        UnderwayStep(s, cur, steps, base, j, actor, msgs, out, perTx);
        LeftNext(s.clients, base, j, msgs, perTx);
        perTx := perTx[t := []];
        out, threw := TickTx(clock, j, handed, out, cur);
        steps, cur := steps + [ClientTick(base + j, handed)], Next(cur, ClientTick(base + j, handed));
        if threw {
          return;
        }
      }
    }
  }

  lemma NoneLeft(clients: seq<State>, base: nat, msgs: seq<Message>, perTx: map<TxID, seq<Message>>)
    requires base <= |clients| && forall t :: t != UNDEFINED_TX_ID ==> Lookup(perTx, t) == OfTx(msgs, t)
    ensures Left(clients, base, 0, msgs, perTx)
  {}

  lemma NextClient(s: System, i: nat, msgs: seq<Message>)
    requires Enabled(s, ClientTick(i, msgs))
    ensures var n, w := Next(s, ClientTick(i, msgs)), ClientWorld(s, i, msgs);
            && n.server == s.server && n.clock == s.clock + 1 && n.ids == w.ids && n.clients == s.clients[i := w.tx]
            && n.txs == s.txs && n.store == s.store && n.threw == (s.threw || w.threw)
  {}
}
