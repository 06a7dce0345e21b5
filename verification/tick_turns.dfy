/** The turns of all actors in one tick add up to a tick of the system. */
module TickTurns {
  import opened TxTypes
  import Client = ClientTransaction
  import opened Protocol
  import opened Channel
  import opened Safety
  import opened Progress
  import opened ActorTicks
  import ServerActor
  import ClientActor

  /** The actor whose turn a step belongs to. */
  ghost function Owner(s: System, step: Step): ActorID {
    match step
    case ServerTick(_, _) => s.server
    case ClientTick(i, _) => if i < |s.clients| then s.clients[i].actor else UNDEFINED_ACTOR_ID
  }

  /**
    The steps are the turns of the actors `served`, in a tick that starts at `s`: nothing but what was in flight is
    handled, all of it that was for these actors is, each of their client transactions ticks, and nothing ticks twice.
   */
  ghost predicate Turns(s: System, steps: seq<Step>, served: set<ActorID>) {
    && (forall k :: 0 <= k < |steps| ==> Owner(s, steps[k]) in served)
    && NoRepeats(steps)
    && (forall k: nat, m :: Delivers(steps, k, m) ==> m in s.net)
    && (forall m :: m in s.net && m.destination in served ==> Delivered(steps, m))
    && (forall i: nat :: i < |s.clients| && s.clients[i].actor in served ==> HasClientTick(steps, i))
  }

  ghost predicate Delivered(steps: seq<Step>, m: Message) {
    exists k: nat :: Delivers(steps, k, m)
  }

  lemma NoTurns(s: System)
    ensures Turns(s, [], {})
  {}

  /** The actors come in the order of `ids`. */
  ghost predicate InTurnOrder(s: System, steps: seq<Step>, ids: seq<ActorID>) {
    forall i, j, a, b | && 0 <= i < j < |steps| && 0 <= a < |ids| && 0 <= b < |ids|
                        && ids[a] == Owner(s, steps[i]) && ids[b] == Owner(s, steps[j])
      :: a <= b
  }

  lemma NoTurnOrder(s: System, ids: seq<ActorID>)
    ensures InTurnOrder(s, [], ids)
  {}

  /** The turn of the next actor comes after the turns of those before it. */
  lemma NextInTurn(s: System, steps: seq<Step>, turn: seq<Step>, ids: seq<ActorID>, k: nat, served: set<ActorID>)
    requires InTurnOrder(s, steps, ids) && k < |ids|
    requires Turns(s, steps, served) && Turns(s, turn, {ids[k]})
    requires forall j :: 0 <= j < |ids| && ids[j] in served ==> j < k
    requires forall j :: 0 <= j < |ids| && ids[j] == ids[k] ==> j == k
    ensures InTurnOrder(s, steps + turn, ids)
  {
    hide NoRepeats, Delivered;
    var all := steps + turn;
    forall i, j, a, b | && 0 <= i < j < |all| && 0 <= a < |ids| && 0 <= b < |ids|
                        && ids[a] == Owner(s, all[i]) && ids[b] == Owner(s, all[j])
      ensures a <= b
    {
      if j < |steps| {
        assert all[i] == steps[i] && all[j] == steps[j];
      } else {
        assert all[j] == turn[j - |steps|] && Owner(s, turn[j - |steps|]) == ids[k];
        assert all[i] == if i < |steps| then steps[i] else turn[i - |steps|];
      }
    }
  }

  lemma LaterDelivers(a: seq<Step>, b: seq<Step>, k: nat, m: Message)
    ensures Delivers(a + b, k, m) <==> if k < |a| then Delivers(a, k, m) else Delivers(b, k - |a|, m)
  {}

  lemma SameOwner(s: System, steps: seq<Step>, j: nat, k: nat)
    ensures SameActor(steps, j, k) ==> Owner(s, steps[j]) == Owner(s, steps[k])
  {}

  lemma SameActorLeft(a: seq<Step>, b: seq<Step>, j: nat, k: nat)
    requires j < k < |a|
    ensures SameActor(a + b, j, k) == SameActor(a, j, k)
  {}

  lemma SameActorRight(a: seq<Step>, b: seq<Step>, j: nat, k: nat)
    ensures SameActor(a + b, |a| + j, |a| + k) == SameActor(b, j, k)
  {}

  lemma TurnsAppend(s: System, a: seq<Step>, b: seq<Step>, served: set<ActorID>, actor: ActorID)
    requires Turns(s, a, served) && Turns(s, b, {actor}) && actor !in served
    ensures Turns(s, a + b, served + {actor})
  {
    var steps := a + b;
    forall j: nat, k: nat | j < k ensures !SameActor(steps, j, k) {
      SameOwner(s, steps, j, k);
      if k < |a| {
        SameActorLeft(a, b, j, k);
      } else if |a| <= j {
        SameActorRight(a, b, j - |a|, k - |a|);
      }
    }
    forall k: nat, m | Delivers(steps, k, m) ensures m in s.net {
      LaterDelivers(a, b, k, m);
    }
    forall m | m in s.net && m.destination in served + {actor} ensures Delivered(steps, m) {
      if m.destination in served {
        var k: nat :| Delivers(a, k, m);
        assert Delivers(steps, k, m);
      } else {
        var k: nat :| Delivers(b, k, m);
        assert Delivers(steps, |a| + k, m);
      }
    }
    forall i: nat | i < |s.clients| && s.clients[i].actor in served + {actor} ensures HasClientTick(steps, i) {
      if s.clients[i].actor in served {
        assert HasClientTick(a, i);
        var k: nat :| TicksClient(a, k, i);
        assert TicksClient(steps, k, i);
      } else {
        assert HasClientTick(b, i);
        var k: nat :| TicksClient(b, k, i);
        assert TicksClient(steps, |a| + k, i);
      }
    }
  }

  /** `msgs` is everything in flight for the actor when the tick starts. */
  ghost predicate WholeInbox(s: System, msgs: seq<Message>, actor: ActorID) {
    && Distinct(msgs)
    && forall m :: m in msgs <==> m in s.net && m.destination == actor
  }

  lemma ServerTurns(s: System, steps: seq<Step>, msgs: seq<Message>)
    requires WholeInbox(s, msgs, s.server) && ServerActor.ServerSteps(steps, msgs, {})
    requires forall i :: 0 <= i < |s.clients| ==> s.clients[i].actor != s.server
    ensures Turns(s, steps, {s.server})
  {
    hide OfTx;
    forall k: nat, m | Delivers(steps, k, m) ensures m in s.net {
      OfTxHas(msgs, steps[k].txid);
    }
    forall m | m in s.net && m.destination == s.server ensures Delivered(steps, m) {
      assert m in msgs && ServerActor.HandledBy(steps, m.Txid());
      var k: nat :| k < |steps| && steps[k].ServerTick? && steps[k].txid == m.Txid();
      OfTxHas(msgs, steps[k].txid);
      assert Delivers(steps, k, m);
    }
  }

  lemma ClientTurns(s: System, clients: seq<Client.State>, steps: seq<Step>, msgs: seq<Message>, base: nat, n: nat,
                    actor: ActorID)
    requires base + n <= |s.clients| == |clients| && WholeInbox(s, msgs, actor)
    requires ClientActor.ClientSteps(steps, clients, base, n, msgs)
    requires forall i :: 0 <= i < |s.clients| ==> (s.clients[i].actor == actor <==> base <= i < base + n)
    requires forall m :: m in msgs ==> ClientActor.HasTx(clients, base, n, m.Txid())
    ensures Turns(s, steps, {actor})
  {
    hide ClientActor.HasTx;
    forall m | m in s.net && m.destination == actor ensures Delivered(steps, m) {
      assert m in ClientActor.Taken(clients, base, n, msgs);
      var k: nat :| k < |steps| && m in steps[k].msgs;
      assert Delivers(steps, k, m);
    }
    forall i: nat | i < |s.clients| && s.clients[i].actor == actor ensures HasClientTick(steps, i) {
      assert TicksClient(steps, i - base, i);
    }
  }

  /** Every message in flight is for the server or for the client actor of its transaction. */
  lemma Addressed(s: System, m: Message)
    requires Safety.Inv(s) && m in s.net
    ensures m.Txid() != UNDEFINED_TX_ID
    ensures exists i :: && 0 <= i < |s.clients| && s.clients[i].txid == m.Txid()
                        && (m.destination == s.server || m.destination == s.clients[i].actor)
  {
    assert HasOwner(s.clients, m.Txid());
    var i :| 0 <= i < |s.clients| && s.clients[i].txid == m.Txid();
    var l := LocalOf(s, i);
    assert Channel.Inv(l) && m in l.ch;
    AddressedLocal(l, m);
  }

  lemma AddressedLocal(l: Local, m: Message)
    requires Channel.Inv(l) && m in l.ch
    ensures m.destination == l.c.server || m.destination == l.c.actor
  {
    hide Barrier;
    if l.c.phase.Open? {
      var arrived :| Flow(l, arrived);
      assert MessageTracked(l, arrived, m);
    }
  }

  lemma InvBoundsIds(s: System)
    requires Safety.Inv(s)
    ensures IdsBound(s)
  {
    forall m | m in s.net ensures m.msgId <= s.ids.lastMsg {
      assert HasOwner(s.clients, m.Txid());
      var i :| 0 <= i < |s.clients| && s.clients[i].txid == m.Txid();
      assert IdsUpTo(LocalOf(s, i), s.ids.lastMsg) && m in LocalOf(s, i).ch;
    }
  }

  /** A message for a client actor is for one of its transactions. */
  lemma ForOwnTx(s: System, m: Message, base: nat, n: nat, actor: ActorID)
    requires Safety.Inv(s) && m in s.net && m.destination == actor != s.server && base + n <= |s.clients|
    requires forall i :: 0 <= i < |s.clients| ==> (s.clients[i].actor == actor <==> base <= i < base + n)
    ensures ClientActor.HasTx(s.clients, base, n, m.Txid())
  {
    hide Safety.Inv;
    Addressed(s, m);
  }

  /** When every actor had its turn, that was a tick. */
  lemma TurnsAreTick(s: System, steps: seq<Step>, served: set<ActorID>)
    requires Safety.Inv(s) && ValidRun(s, steps) && Turns(s, steps, served)
    requires s.server in served && forall i :: 0 <= i < |s.clients| ==> s.clients[i].actor in served
    ensures IsTick(s, steps)
  {
    hide Safety.Inv, ValidRun;
    forall m | m in s.net ensures exists k: nat :: Delivers(steps, k, m) {
      Addressed(s, m);
      assert Delivered(steps, m);
    }
  }
}
