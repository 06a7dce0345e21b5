/** The tick runtime: a message queue, one inbox per actor, and a loop that lets every actor tick. */
module TickRuntime {
  import opened TxTypes
  import Tx = ClientTransaction
  import opened Protocol
  import opened Channel
  import opened Safety
  import opened Progress
  import opened ProgressTicks
  import opened ActorTicks
  import opened TickTurns
  import opened Delivery
  import ServerActor
  import ClientActor

  datatype Actor = ServerNode(server: ServerActor.Server) | ClientNode(client: ClientActor.Client)
  {
    function Id(): ActorID {
      match this
      case ServerNode(v) => v.actor
      case ClientNode(c) => c.actor
    }

    function Object(): object {
      match this
      case ServerNode(v) => v
      case ClientNode(c) => c
    }

    ghost function Parts(): (parts: set<object>)
      reads Object()
      ensures Object() in parts
    {
      match this
      case ServerNode(v) => v.Repr()
      case ClientNode(c) => {c} + c.Repr
    }

    /** The actor holds its part of the system state. */
    ghost predicate Fits(s: System, clock: Clock, generator: Generator)
      reads Parts()
    {
      match this
      case ServerNode(v) =>
        v.Valid() && v.generator == generator && v.Stores(s)
      case ClientNode(c) =>
        c.Valid() && c.generator == generator && c.Stores(s) && clock !in c.Repr && OwnRange(c, s)
    }

    /** What this actor holds is the same in both states. */
    ghost predicate Untouched(s: System, s': System) {
      && SameActors(s, s')
      && match this
         case ServerNode(_) => s'.txs == s.txs && s'.store == s.store
         case ClientNode(c) =>
           forall i :: 0 <= i < |s.clients| && c.base <= i < c.base + |c.transactions| ==> s'.clients[i] == s.clients[i]
    }
  }

  /** The client's transactions are those of the system with its id. */
  ghost predicate OwnRange(c: ClientActor.Client, s: System) {
    forall i :: 0 <= i < |s.clients| ==> (s.clients[i].actor == c.actor <==> c.base <= i < c.base + |c.transactions|)
  }

  ghost predicate SameActors(s: System, s': System) {
    && s'.server == s.server && |s'.clients| == |s.clients|
    && forall i :: 0 <= i < |s.clients| ==> s'.clients[i].actor == s.clients[i].actor
  }

  /** An actor's turn was a run of the system that took its messages out of flight and put its own in. */
  ghost predicate TurnRan(s: System, s': System, steps: seq<Step>, msgs: seq<Message>, out: seq<Message>,
                          actor: ActorID) {
    && ValidRun(s, steps) && s' == Run(s, steps)
    && s'.net == s.net - Elements(msgs) + Posted(out, actor)
    && Numbered(out, s.ids.lastMsg, s'.ids.lastMsg)
  }

  ghost function InOrderOf(actors: seq<Actor>): (ids: seq<ActorID>)
    ensures |ids| == |actors| && forall j :: 0 <= j < |ids| ==> ids[j] == actors[j].Id()
  {
    seq(|actors|, j requires 0 <= j < |actors| => actors[j].Id())
  }

  /** The ids of the first `k` actors. */
  ghost function IdsOf(actors: seq<Actor>, k: nat): set<ActorID>
    requires k <= |actors|
  {
    set j | 0 <= j < k :: actors[j].Id()
  }

  /** The server and every client of the system are registered, and no other actor has the server's id. */
  ghost predicate AllRegistered(actors: seq<Actor>, s: System) {
    && (forall k :: 0 <= k < |actors| ==> (actors[k].Id() == s.server <==> actors[k].ServerNode?))
    && s.server in IdsOf(actors, |actors|)
    && forall i :: 0 <= i < |s.clients| ==> s.clients[i].actor in IdsOf(actors, |actors|)
  }

  lemma RegisteredStill(actors: seq<Actor>, s: System, s': System)
    requires AllRegistered(actors, s) && SameActors(s, s')
    ensures AllRegistered(actors, s')
  {}

  /** What was in flight at the start of a tick for the actors still to be served. */
  ghost function Waiting(start: System, served: set<ActorID>): set<Message> {
    set m | m in start.net && m.destination !in served
  }

  /** During a tick, what is in flight waits in an inbox or was queued in this tick. */
  ghost predicate NetSplit(start: System, s: System, served: set<ActorID>, q: Queue) {
    && s.net == Queued(q) + Waiting(start, served)
    && start.ids.lastMsg <= s.ids.lastMsg
    && forall y :: y in q ==> start.ids.lastMsg < y.msg.msgId <= s.ids.lastMsg
  }

  lemma SplitStart(start: System, q: Queue)
    requires q == multiset{}
    ensures NetSplit(start, start, {}, q)
  {}

  lemma SplitTurn(start: System, s: System, s': System, served: set<ActorID>, q: Queue, q': Queue, steps: seq<Step>,
                  msgs: seq<Message>, out: seq<Message>, actor: ActorID)
    requires NetSplit(start, s, served, q) && IdsBound(start) && actor !in served
    requires WholeInbox(start, msgs, actor) && TurnRan(s, s', steps, msgs, out, actor)
    requires Queued(q') == Queued(q) + Posted(out, actor)
    requires forall y :: y in q' ==> y in q || s.ids.lastMsg < y.msg.msgId <= s'.ids.lastMsg
    ensures NetSplit(start, s', served + {actor}, q')
  {
    assert Waiting(start, served) - Elements(msgs) == Waiting(start, served + {actor});
    assert Queued(q) !! Elements(msgs);
  }

  lemma AfterTurn(start: System, steps: seq<Step>, s: System, s': System, turn: seq<Step>, msgs: seq<Message>,
                  out: seq<Message>, actor: ActorID, served: set<ActorID>, q: Queue, q': Queue)
    requires ValidRun(start, steps) && s == Run(start, steps) && Turns(start, steps, served) && actor !in served
    requires TurnRan(s, s', turn, msgs, out, actor) && Turns(start, turn, {actor})
    requires SameActors(start, s) && SameActors(s, s')
    requires NetSplit(start, s, served, q) && IdsBound(start) && WholeInbox(start, msgs, actor)
    requires Queued(q') == Queued(q) + Posted(out, actor)
    requires forall y :: y in q' ==> y in q || s.ids.lastMsg < y.msg.msgId <= s'.ids.lastMsg
    ensures ValidRun(start, steps + turn) && s' == Run(start, steps + turn) && SameActors(start, s')
    ensures Turns(start, steps + turn, served + {actor}) && NetSplit(start, s', served + {actor}, q')
  {
    hide ValidRun, Run, Turns, NetSplit, IdsBound, WholeInbox, Queued;
    SplitTurn(start, s, s', served, q, q', turn, msgs, out, actor);
    RunAppend(start, steps, turn);
    TurnsAppend(start, steps, turn, served, actor);
  }

  lemma SplitEnd(start: System, s: System, served: set<ActorID>, q: Queue)
    requires NetSplit(start, s, served, q) && Safety.Inv(start)
    requires start.server in served && forall i :: 0 <= i < |start.clients| ==> start.clients[i].actor in served
    ensures s.net == Queued(q)
  {
    hide Safety.Inv;
    forall m | m in start.net ensures m.destination in served {
      Addressed(start, m);
    }
    assert Waiting(start, served) == {};
  }

  class Runtime {
    const clock: Clock
    const generator: Generator
    var actors: seq<Actor>
    var inboxes: Inboxes
    var timestamp: Timestamp
    var queue: Queue
    /** The system state that the objects hold. */
    ghost var sys: System
    ghost var Repr: set<object>

    ghost predicate Member(k: nat, s: System)
      requires k < |actors|
      reads this`actors, this`Repr, Repr
    {
      actors[k].Object() in Repr && actors[k].Parts() <= Repr && actors[k].Fits(s, clock, generator)
    }

    ghost predicate Apart(j: nat, k: nat)
      requires j < |actors| && k < |actors| && actors[j].Object() in Repr && actors[k].Object() in Repr
      reads this`actors, this`Repr, Repr
    {
      j != k ==> actors[j].Id() != actors[k].Id() && actors[j].Parts() !! actors[k].Parts()
    }

    ghost predicate Agrees()
      reads this`actors, this`sys, this`Repr, Repr, clock, generator
    {
      && this !in Repr && clock !in Repr && generator !in Repr
      && InStep(sys, clock, generator)
      && (forall k: nat :: k < |actors| ==> Member(k, sys))
      && forall j: nat, k: nat :: j < |actors| && k < |actors| ==> Member(j, sys) && Member(k, sys) && Apart(j, k)
    }

    /** The inboxes are those of the registered actors. */
    ghost predicate Known()
      reads this`actors, this`inboxes
    {
      inboxes.Keys == IdsOf(actors, |actors|)
    }

    constructor (generator: Generator, ghost initial: System)
      requires Init(initial) && generator.ids == initial.ids
      ensures Agrees() && Known() && sys == initial && Repr == {} && fresh(clock) && this.generator == generator
      ensures actors == [] && queue == multiset{} && timestamp == 0
    {
      this.generator := generator;
      clock := new Clock();
      actors, inboxes, timestamp, queue := [], map[], 0, multiset{};
      sys, Repr := initial, {};
    }

    /** Ids are unique: a second actor with the same id is refused. */
    method Register(actor: Actor) returns (threw: bool)
      requires Agrees() && Known()
      requires actor.Fits(sys, clock, generator) && actor.Parts() !! Repr + {this, clock, generator}
      modifies this
      ensures threw <==> actor.Id() in IdsOf(old(actors), |old(actors)|)
      ensures Agrees() && Known() && sys == old(sys) && queue == old(queue) && timestamp == old(timestamp)
      ensures actors == if threw then old(actors) else old(actors) + [actor]
      ensures inboxes == if threw then old(inboxes) else old(inboxes)[actor.Id() := []]
      ensures Repr == if threw then old(Repr) else old(Repr) + actor.Parts()
    {
      hide Actor.Fits, Actor.Parts, Actor.Id;
      if actor.Id() in inboxes {
        return true;
      }
      inboxes := inboxes[actor.Id() := []];
      actors := actors + [actor];
      Repr := Repr + actor.Parts();
      threw := false;
      ghost var n := |old(actors)|;
      forall k: nat | k < |actors| ensures Member(k, sys) {
        if k < n {
          assert old(Member(k, sys));
        }
      }
      forall j: nat, k: nat | j < |actors| && k < |actors| ensures Member(j, sys) && Member(k, sys) && Apart(j, k) {
        assert j < n ==> old(Member(j, sys)) && actors[j].Id() in old(inboxes);
        assert k < n ==> old(Member(k, sys)) && actors[k].Id() in old(inboxes);
        assert j < n && k < n ==> old(Apart(j, k));
      }
      IdsOfSnoc(old(actors), actor);
    }

    /** A turn of one actor, which may get new parts, leaves the others alone. */
    twostate lemma OthersFit(k: nat)
      requires old(Agrees()) && k < |actors| && actors == old(actors)
      requires actors[k].Object() in Repr && actors[k].Fits(sys, clock, generator) && InStep(sys, clock, generator)
      requires fresh(actors[k].Parts() - old(actors[k].Parts()))
      requires Repr == old(Repr) + actors[k].Parts()
      requires forall o :: o in old(Repr) - old(actors[k].Parts()) ==> unchanged(o)
      requires forall j: nat :: j < |actors| && j != k ==> actors[j].Untouched(old(sys), sys)
      ensures Agrees()
    {
      hide Actor.Parts, Actor.Id, InStep;
      assert old(Member(k, sys));
      forall j: nat | j < |actors| && j != k
        ensures Member(j, sys) && actors[j].Parts() == old(actors[j].Parts()) && actors[j].Parts() !! actors[k].Parts()
      {
        assert old(Member(j, sys)) && old(Apart(j, k));
        assert forall o :: o in old(actors[j].Parts()) ==> o in old(Repr) - old(actors[k].Parts());
        StillFits(j);
      }
      assert Member(k, sys);
      forall i: nat, j: nat | i < |actors| && j < |actors| ensures Member(i, sys) && Member(j, sys) && Apart(i, j) {
        assert old(Member(i, sys)) && old(Member(j, sys)) && old(Apart(i, j));
      }
    }

    twostate lemma StillFits(j: nat)
      requires j < |actors| && actors == old(actors) && old(actors[j].Fits(sys, clock, generator))
      requires forall o :: o in old(actors[j].Parts()) ==> unchanged(o)
      requires actors[j].Untouched(old(sys), sys)
      ensures actors[j].Parts() == old(actors[j].Parts()) && actors[j].Fits(sys, clock, generator)
    {
    }

    /** The server's turn, on the whole system state. */
    method ServerTurn(k: nat, msgs: seq<Message>) returns (out: seq<Message>, threw: bool, ghost steps: seq<Step>)
      requires Agrees() && k < |actors| && actors[k].ServerNode?
      requires IdsBound(sys) && !sys.threw && InboxOf(sys, msgs, actors[k].Id())
      modifies Repr, clock, generator, this`Repr, this`sys
      ensures fresh(Repr - old(Repr))
      ensures ValidRun(old(sys), steps) && sys == Run(old(sys), steps) && threw == sys.threw
      ensures !threw ==> Agrees() && ServerActor.Underway(old(sys), sys, steps, msgs, {}, out)
      ensures !threw ==> SameActors(old(sys), sys)
      ensures !threw ==> forall j: nat :: j < |actors| && j != k ==> actors[j].Untouched(old(sys), sys)
    {
      hide ServerActor.Underway, IdsBound, InboxOf, ValidRun, Run, Actor.Untouched, SameActors;
      assert Member(k, sys);
      ghost var before := sys;
      var v := actors[k].server;
      out, threw, steps := v.OnTick(clock, msgs, sys);
      sys := Run(sys, steps);
      if threw {
        return;
      }
      Repr := Repr + actors[k].Parts();
      forall j: nat | j < |actors| && j != k ensures actors[j].Untouched(before, sys) {
        assert old(Member(j, sys)) && old(Apart(j, k));
        ServerLeaves(actors[j], before, sys, steps, msgs, out);
      }
      ServerLeaves(actors[k], before, sys, steps, msgs, out);
      OthersFit(k);
    }

    /** A client's turn, on the whole system state. */
    method ClientTurn(k: nat, msgs: seq<Message>) returns (out: seq<Message>, threw: bool, ghost steps: seq<Step>)
      requires Agrees() && k < |actors| && actors[k].ClientNode?
      requires IdsBound(sys) && !sys.threw && InboxOf(sys, msgs, actors[k].Id())
      modifies Repr, clock, generator, this`Repr, this`sys
      ensures fresh(Repr - old(Repr))
      ensures ValidRun(old(sys), steps) && sys == Run(old(sys), steps) && threw == sys.threw
      ensures var c := actors[k].client;
              !threw ==>
                && Agrees()
                && c.base + |c.transactions| <= |old(sys).clients|
                && ClientActor.Underway(old(sys), sys, steps, c.base, |c.transactions|, c.actor, msgs, out)
                && SameActors(old(sys), sys)
      ensures !threw ==> forall j: nat :: j < |actors| && j != k ==> actors[j].Untouched(old(sys), sys)
    {
      hide ClientActor.Underway, IdsBound, InboxOf, ValidRun, Run, Actor.Untouched, SameActors;
      assert Member(k, sys);
      ghost var before := sys;
      var c := actors[k].client;
      out, threw, steps := c.OnTick(clock, msgs, sys);
      sys := Run(sys, steps);
      if threw {
        return;
      }
      Repr := Repr + actors[k].Parts();
      OwnActors(c);
      forall j: nat | j < |actors| && j != k ensures actors[j].Untouched(before, sys) {
        assert old(Member(j, sys)) && old(Apart(j, k));
        ClientLeaves(actors[j], c, before, sys, steps, msgs, out);
      }
      ClientFits(c, before, sys, steps, msgs, out);
      OthersFit(k);
    }

    /** The turn of any actor: nothing is thrown. */
    method Turn(k: nat, msgs: seq<Message>, ghost start: System) returns (out: seq<Message>, ghost steps: seq<Step>)
      requires Agrees() && k < |actors| && Safety.Inv(sys) && SameActors(start, sys)
      requires WholeInbox(start, msgs, actors[k].Id()) && forall m :: m in msgs ==> m in sys.net
      requires actors[k].Id() == sys.server <==> actors[k].ServerNode?
      modifies Repr, clock, generator, this`Repr, this`sys
      ensures fresh(Repr - old(Repr))
      ensures Agrees() && Safety.Inv(sys) && SameActors(old(sys), sys)
      ensures TurnRan(old(sys), sys, steps, msgs, out, actors[k].Id()) && Turns(start, steps, {actors[k].Id()})
      ensures forall j: nat :: j < |actors| && j != k ==> actors[j].Untouched(old(sys), sys)
    {
      hide Safety.Inv, ValidRun, Run, Actor.Untouched, Agrees;
      TimeNow();
      assert InboxOf(sys, msgs, actors[k].Id());
      InvBoundsIds(sys);
      SafeNow(sys);
      ghost var before := sys;
      var threw;
      match actors[k] {
        case ServerNode(v) =>
          out, threw, steps := ServerTurn(k, msgs);
          RunKeeps(before, steps);
          SafeNow(sys);
          ServerRan(start, before, sys, steps, msgs, out);
        case ClientNode(c) =>
          ClientRange(k);
          out, threw, steps := ClientTurn(k, msgs);
          RunKeeps(before, steps);
          SafeNow(sys);
          ClientRan(c, start, before, sys, steps, msgs, out);
      }
    }

    lemma ClientRange(k: nat)
      requires Agrees() && k < |actors| && actors[k].ClientNode?
      ensures OwnRange(actors[k].client, sys)
    {
      assert Member(k, sys);
    }

    /** A message is queued with the time of the tick and is due at the current time of the clock. */
    method Send(m: Message)
      modifies this`queue
      ensures queue == old(queue) + multiset{SentMessage(timestamp, clock.now, m)}
    {
      queue := queue + multiset{SentMessage(timestamp, clock.now, m)};
    }

    ghost predicate SentNow(y: SentMessage, first: MsgID, last: MsgID)
      reads this, clock
    {
      y.sendTs == timestamp && y.deliveryTs == clock.now && first < y.msg.msgId <= last
    }

    /** The proxy of an actor stamps the actor on each message. */
    method SendAll(out: seq<Message>, actor: ActorID, ghost first: MsgID, ghost last: MsgID)
      requires Unique(queue) && Numbered(out, first, last) && forall y :: y in queue ==> y.msg.msgId <= first
      modifies this`queue
      ensures Unique(queue) && Queued(queue) == old(Queued(queue)) + Posted(out, actor)
      ensures forall y :: y in queue ==> y in old(queue) || SentNow(y, first, last)
    {
      hide Unique, Queued, Posted, Numbered;
      NoneSent(queue, out, actor);
      for i := 0 to |out|
        invariant Unique(queue) && Queued(queue) == old(Queued(queue)) + Posted(out[..i], actor)
        invariant forall y :: y in queue ==> y in old(queue) || SentNow(y, first, first + i)
      {
        var m := out[i].(source := actor);
        SentNext(old(queue), queue, out, i, actor, first, last, SentMessage(timestamp, clock.now, m));
        Send(m);
      }
      NumberedLength(out, first, last);
      assert out[..|out|] == out;
    }

    method ClearInboxes()
      modifies this`inboxes
      ensures inboxes.Keys == old(inboxes).Keys && forall d :: d in inboxes ==> inboxes[d] == []
    {
      var todo := inboxes.Keys;
      while exists d :: d in todo
        invariant inboxes.Keys == old(inboxes).Keys && todo <= inboxes.Keys
        invariant forall d :: d in inboxes && d !in todo ==> inboxes[d] == []
        decreases |todo|
      {
        var d :| d in todo;
        inboxes := inboxes[d := []];
        todo := todo - {d};
      }
    }

    /**
      Moves every message that is due to the inbox of its destination, in the order of the queue. An unknown
      destination is an error.
     */
    method FillInboxes() returns (threw: bool)
      requires Unique(queue) && forall d :: d in inboxes ==> inboxes[d] == []
      modifies this`inboxes, this`queue
      ensures inboxes.Keys == old(inboxes).Keys
      ensures threw <==> exists x :: x in old(queue) && x.deliveryTs <= timestamp && x.msg.destination !in inboxes
      ensures !threw ==> Moved(old(queue), queue, inboxes, timestamp) && forall x :: x in queue ==>
        x.deliveryTs > timestamp
    {
      hide Moved, IsTop, Unique;
      threw := false;
      MovedStart(queue, inboxes, timestamp);
      while queue != multiset{}
        invariant inboxes.Keys == old(inboxes).Keys && Moved(old(queue), queue, inboxes, timestamp)
        decreases |queue|
      {
        TopExists(queue);
        var x :| IsTop(queue, x);
        TopDecides(old(queue), queue, inboxes, timestamp, x);
        if x.deliveryTs > timestamp {
          break;
        }
        if x.msg.destination !in inboxes {
          queue := queue - multiset{x};
          return true;
        }
        MovedStep(old(queue), queue, inboxes, timestamp, x);
        queue := queue - multiset{x};
        inboxes := inboxes[x.msg.destination := inboxes[x.msg.destination] + [x.msg]];
      }
      AllHadInboxes(old(queue), queue, inboxes, timestamp);
    }

    /** Each inbox holds exactly what is in flight for its actor. */
    ghost predicate Filled(from: nat, s: System)
      reads this`actors, this`inboxes
    {
      forall k :: from <= k < |actors| ==>
        actors[k].Id() in inboxes && WholeInbox(s, inboxes[actors[k].Id()], actors[k].Id())
    }

    /** A tick that started at `start` after the turns of the first `k` actors. */
    ghost predicate Partway(k: nat, start: System, steps: seq<Step>)
      requires k <= |actors|
      reads this, Repr, clock, generator
    {
      && this !in Repr && Agrees() && Safety.Inv(sys)
      && ValidRun(start, steps) && sys == Run(start, steps) && SameActors(start, sys)
      && Turns(start, steps, IdsOf(actors, k)) && Filled(k, start)
      && NetSplit(start, sys, IdsOf(actors, k), queue) && Unique(queue)
      && forall y :: y in queue ==> y.deliveryTs <= clock.now
    }

    /** An actor takes its whole inbox and ticks. */
    method TakeTurn(k: nat, ghost start: System, ghost steps: seq<Step>)
      returns (out: seq<Message>, ghost msgs: seq<Message>, ghost turn: seq<Step>)
      requires k < |actors| && Partway(k, start, steps)
      requires actors[k].Id() == sys.server <==> actors[k].ServerNode?
      modifies this`inboxes, this`Repr, this`sys, Repr, clock, generator
      ensures fresh(Repr - old(Repr))
      ensures actors == old(actors) && inboxes.Keys == old(inboxes).Keys
      ensures this !in Repr && Agrees() && Safety.Inv(sys) && SameActors(old(sys), sys) && Filled(k + 1, start)
      ensures clock.now >= old(clock.now) && WholeInbox(start, msgs, actors[k].Id())
      ensures TurnRan(old(sys), sys, turn, msgs, out, actors[k].Id()) && Turns(start, turn, {actors[k].Id()})
    {
      hide Agrees, Safety.Inv, ValidRun, Run, Turns, WholeInbox, TurnRan, Actor.Untouched, IdsOf, SameActors, Unique;
      hide Waiting, InboxOf, Queued, Posted, Numbered;
      var id := actors[k].Id();
      var inbox := inboxes[id];
      NextServed(k);
      WaitingHas(start, IdsOf(actors, k), inbox, id);
      TimeNow();
      ghost var before := sys;
      inboxes := inboxes[id := []];
      out, turn := Turn(k, inbox, start);
      msgs := inbox;
      TimeNow();
      TurnFacts(before, sys, turn, msgs, out, id);
    }

    /** One actor's turn, after which its messages are queued. */
    method DeliverTo(k: nat, ghost start: System, ghost steps: seq<Step>) returns (ghost turn: seq<Step>)
      requires k < |actors| && Partway(k, start, steps) && IdsBound(start) && AllRegistered(actors, sys)
      modifies this`inboxes, this`queue, this`Repr, this`sys, Repr, clock, generator
      ensures fresh(Repr - old(Repr))
      ensures actors == old(actors) && inboxes.Keys == old(inboxes).Keys && timestamp == old(timestamp)
      ensures Partway(k + 1, start, steps + turn) && AllRegistered(actors, sys)
      ensures Turns(start, turn, {actors[k].Id()})
    {
      hide Agrees, Safety.Inv, ValidRun, Run, Turns, WholeInbox, TurnRan, Actor.Untouched, IdsOf, SameActors;
      hide IdsBound, Unique;
      hide Waiting, InboxOf, Queued, Posted, Numbered, Filled;
      assert actors[k].Id() == sys.server <==> actors[k].ServerNode?;
      hide AllRegistered;
      NextServed(k);
      ghost var before, queued := sys, queue;
      var id := actors[k].Id();
      var out;
      ghost var msgs;
      out, msgs, turn := TakeTurn(k, start, steps);
      TurnFacts(before, sys, turn, msgs, out, id);
      SendAll(out, id, before.ids.lastMsg, sys.ids.lastMsg);
      AfterTurn(start, steps, before, sys, turn, msgs, out, id, IdsOf(actors, k), queued, queue);
      RegisteredStill(actors, before, sys);
    }

    /** Every actor ticks once, in the order of registration, with its whole inbox: together, a tick of the system. */
    method SendToActors() returns (ghost steps: seq<Step>)
      requires Agrees() && Known() && AllRegistered(actors, sys) && Safety.Inv(sys) && queue == multiset{}
      requires Filled(0, sys)
      modifies this`inboxes, this`queue, this`Repr, this`sys, Repr, clock, generator
      ensures fresh(Repr - old(Repr))
      ensures Agrees() && Known() && AllRegistered(actors, sys) && Safety.Inv(sys) && actors == old(actors)
      ensures inboxes.Keys == old(inboxes).Keys
      ensures timestamp == old(timestamp)
      ensures IsTick(old(sys), steps) && sys == Run(old(sys), steps)
      ensures InTurnOrder(old(sys), steps, InOrderOf(actors))
      ensures Unique(queue) && Queued(queue) == sys.net && forall y :: y in queue ==> y.deliveryTs <= clock.now
    {
      hide Partway, Agrees, AllRegistered, Safety.Inv, IsTick, Run, Unique, InTurnOrder, Turns;
      steps := [];
      NoTurnOrder(sys, InOrderOf(actors));
      ghost var start := sys;
      TimeNow();
      InvBoundsIds(start);
      PartwayStart();
      for k := 0 to |actors|
        invariant actors == old(actors) && inboxes.Keys == old(inboxes).Keys && timestamp == old(timestamp)
        invariant Partway(k, start, steps) && fresh(Repr - old(Repr)) && AllRegistered(actors, sys)
        invariant InTurnOrder(start, steps, InOrderOf(actors))
      {
        ServedBefore(k, start, steps);
        ghost var turn := DeliverTo(k, start, steps);
        NextInTurn(start, steps, turn, InOrderOf(actors), k, IdsOf(actors, k));
        steps := steps + turn;
      }
      PartwayEnd(start, steps);
    }

    /** The actors served so far are those in front. */
    lemma ServedBefore(k: nat, start: System, steps: seq<Step>)
      requires k < |actors| && Partway(k, start, steps)
      ensures Turns(start, steps, IdsOf(actors, k))
      ensures forall j :: 0 <= j < |actors| && InOrderOf(actors)[j] in IdsOf(actors, k) ==> j < k
      ensures forall j :: 0 <= j < |actors| && InOrderOf(actors)[j] == actors[k].Id() ==> j == k
    {
      hide Safety.Inv, ValidRun, Run, Turns, NetSplit, Unique, Filled, Actor.Fits, Actor.Parts;
      forall i: nat, j: nat | i < |actors| && j < |actors| && i != j ensures actors[i].Id() != actors[j].Id() {
        assert Member(i, sys) && Member(j, sys) && Apart(i, j);
      }
    }

    lemma PartwayStart()
      requires Agrees() && Safety.Inv(sys) && queue == multiset{} && Filled(0, sys)
      ensures Partway(0, sys, [])
    {
      TimeNow();
      hide Agrees, Safety.Inv, ValidRun, Run, Turns, NetSplit, Unique, Queued;
      RunNone(sys);
      NoTurns(sys);
      NoneQueued(queue);
      SplitStart(sys, queue);
    }

    lemma PartwayEnd(start: System, steps: seq<Step>)
      requires Partway(|actors|, start, steps) && AllRegistered(actors, sys) && Safety.Inv(start)
      ensures Agrees() && Safety.Inv(sys) && IsTick(start, steps) && sys == Run(start, steps)
      ensures Unique(queue) && Queued(queue) == sys.net && forall y :: y in queue ==> y.deliveryTs <= clock.now
    {
      hide Agrees, Safety.Inv, ValidRun, Run, Turns, NetSplit, Unique, Queued, IsTick;
      SplitEnd(start, sys, IdsOf(actors, |actors|), queue);
      TurnsAreTick(start, steps, IdsOf(actors, |actors|));
    }

    lemma TimeNow()
      requires Agrees()
      ensures sys.clock == clock.now && this !in Repr && clock !in Repr
    {}

    /** Ids differ, so the next actor was not served yet and its inbox is not that of a later one. */
    lemma NextServed(k: nat)
      requires Agrees() && k < |actors|
      ensures actors[k].Id() !in IdsOf(actors, k) && IdsOf(actors, k + 1) == IdsOf(actors, k) + {actors[k].Id()}
      ensures forall j :: k < j < |actors| ==> actors[j].Id() != actors[k].Id()
    {
      forall j: nat | j < |actors| && j != k ensures actors[j].Id() != actors[k].Id() {
        assert Member(j, sys) && Member(k, sys) && Apart(j, k);
      }
    }

    /** Between ticks: the queue is what is in flight, and all of it is due in the next tick. */
    ghost predicate Valid()
      reads this, Repr, clock, generator
    {
      && Agrees() && Known() && AllRegistered(actors, sys) && Safety.Inv(sys)
      && Unique(queue) && Queued(queue) == sys.net
      && forall y :: y in queue ==> y.deliveryTs <= clock.now
    }

    /** Once all actors of an initial state are registered, the runtime can run. */
    lemma ReadyToRun()
      requires Agrees() && Known() && AllRegistered(actors, sys) && Init(sys) && queue == multiset{}
      ensures Valid()
    {
      hide Agrees, AllRegistered, Safety.Inv;
      InitKeeps(sys);
      NoneQueued(queue);
    }

    /** No message lacks a destination, and afterwards the queue is empty and every inbox complete. */
    lemma AfterFill(q: Queue, threw: bool)
      requires Known() && AllRegistered(actors, sys) && Safety.Inv(sys) && Queued(q) == sys.net
      requires forall y :: y in q ==> y.deliveryTs <= timestamp
      requires threw <==> exists x :: x in q && x.deliveryTs <= timestamp && x.msg.destination !in inboxes
      requires !threw ==> Moved(q, queue, inboxes, timestamp) && forall x :: x in queue ==> x.deliveryTs > timestamp
      ensures !threw && queue == multiset{} && Filled(0, sys)
    {
      hide Safety.Inv, InOrder;
      forall x | x in q ensures x.msg.destination in inboxes {
        assert x.msg in Queued(q);
        Addressed(sys, x.msg);
      }
      assert forall x :: x in queue ==> x in q;
      assert queue == multiset{};
      forall k | 0 <= k < |actors|
        ensures actors[k].Id() in inboxes && WholeInbox(sys, inboxes[actors[k].Id()], actors[k].Id())
      {
        InboxIsWhole(q, inboxes, timestamp, sys, actors[k].Id());
      }
    }

    lemma WhenValid()
      requires Valid()
      ensures Agrees() && Known() && AllRegistered(actors, sys) && Safety.Inv(sys)
      ensures Unique(queue) && Queued(queue) == sys.net && forall y :: y in queue ==> y.deliveryTs <= clock.now
      ensures sys.clock == clock.now && this !in Repr
    {
      hide AllRegistered, Safety.Inv, Unique, Queued;
    }

    /** The first half of a round: everything in flight is moved to the inboxes. */
    method FillAll()
      requires Valid()
      modifies this`inboxes, this`timestamp, this`queue
      ensures timestamp == clock.now == sys.clock && queue == multiset{} && Filled(0, sys)
      ensures Agrees() && Known() && AllRegistered(actors, sys) && Safety.Inv(sys) && this !in Repr
    {
      hide Valid, Agrees, AllRegistered, Safety.Inv, Unique, Moved, Filled, IdsOf, Queued;
      WhenValid();
      ClearInboxes();
      timestamp := clock.now;
      ghost var q := queue;
      var threw := FillInboxes();
      AfterFill(q, threw);
    }

    /** When nobody ticked, the runtime advances the clock itself. */
    method AdvanceClock()
      requires Agrees() && Safety.Inv(sys)
      modifies this`timestamp, this`sys, clock
      ensures Agrees() && Safety.Inv(sys) && sys == old(sys).(clock := old(sys).clock + 1)
      ensures clock.now == old(clock.now) + 1 == timestamp
    {
      hide Actor.Fits, Actor.Parts, Actor.Id, Safety.Inv, InStep;
      TimeNow();
      ClockMayAdvance(sys);
      sys := sys.(clock := sys.clock + 1);
      timestamp := clock.Next();
      forall k: nat | k < |actors| ensures Member(k, sys) && actors[k].Parts() == old(actors[k].Parts()) {
        assert old(Member(k, sys));
        StillFits(k);
      }
      forall j: nat, k: nat | j < |actors| && k < |actors| ensures Member(j, sys) && Member(k, sys) && Apart(j, k) {
        assert old(Member(j, sys)) && old(Member(k, sys)) && old(Apart(j, k));
      }
      StillInStep();
    }

    twostate lemma StillInStep()
      requires sys == old(sys).(clock := old(sys).clock + 1)
      requires clock.now == old(clock.now) + 1 && generator.ids == old(generator.ids)
      requires old(InStep(sys, clock, generator))
      ensures InStep(sys, clock, generator)
    {}

    /** One round of the loop: a tick of the system, after which the clock is past the time of the tick. */
    method Tick() returns (ghost steps: seq<Step>)
      requires Valid()
      modifies this, Repr, clock, generator
      ensures Valid() && fresh(Repr - old(Repr)) && actors == old(actors)
      ensures IsTick(old(sys), steps) && sys == RoundEnd(old(sys), Run(old(sys), steps))
      ensures InTurnOrder(old(sys), steps, InOrderOf(actors))
      ensures clock.now == sys.clock > old(clock.now) == old(sys).clock
      ensures timestamp == if Run(old(sys), steps).clock == old(sys).clock then clock.now else old(clock.now)
    {
      hide Valid, Agrees, Known, AllRegistered, Safety.Inv, Unique, Filled, IsTick, Run, Queued, InTurnOrder;
      FillAll();
      ghost var start := sys;
      steps := SendToActors();
      TimeNow();
      ClockNotBefore(start, steps);
      if clock.now == timestamp {
        ghost var ran := sys;
        AdvanceClock();
        RegisteredStill(actors, ran, sys);
      }
      ValidAgain();
    }

    lemma ValidAgain()
      requires Agrees() && Known() && AllRegistered(actors, sys) && Safety.Inv(sys)
      requires Unique(queue) && Queued(queue) == sys.net && forall y :: y in queue ==> y.deliveryTs <= clock.now
      ensures Valid()
    {}

    /**
      As many rounds as asked for: a run of the system by ticks, with increasing times, that decides every COMMIT
      transaction if there are enough of them. Without any client transaction only the clock moves.
     */
    method RunFor(ticks: nat) returns (ghost runs: seq<seq<Step>>)
      requires Valid()
      modifies this, Repr, clock, generator
      ensures Valid() && fresh(Repr - old(Repr)) && actors == old(actors)
      ensures |runs| == ticks && clock.now >= old(clock.now) + ticks && |sys.clients| == |old(sys).clients|
      ensures old(sys).clients != [] ==> IsTicks(old(sys), runs) && sys == RunTicks(old(sys), runs)
      ensures old(sys).clients == [] ==> sys == old(sys).(clock := old(sys).clock + ticks)
      ensures forall i: nat, latest :: EnoughTicks(old(sys), i, latest, ticks) ==>
        i < |sys.clients| && Decided(sys.clients[i])
    {
      hide Valid, IsTicks, RunTicks, IsTick, Run, RoundEnd, InTurnOrder;
      runs := [];
      NoTicks(sys);
      for i := 0 to ticks
        invariant Valid() && fresh(Repr - old(Repr)) && actors == old(actors)
        invariant |runs| == i && clock.now >= old(clock.now) + i && |sys.clients| == |old(sys).clients|
        invariant old(sys).clients != [] ==> IsTicks(old(sys), runs) && sys == RunTicks(old(sys), runs)
        invariant old(sys).clients == [] ==> sys == old(sys).(clock := old(sys).clock + i)
      {
        WhenValid();
        ghost var before := sys;
        ghost var steps := Tick();
        RoundFacts(before, steps);
        if before.clients != [] {
          TicksSnoc(old(sys), runs, steps);
        }
        runs := runs + [steps];
      }
      if old(sys).clients != [] {
        DecidedInTime(old(sys), runs);
      }
    }

    lemma OwnActors(c: ClientActor.Client)
      requires c.Valid() && c.Stores(sys)
      ensures forall i :: c.base <= i < c.base + |c.transactions| ==> sys.clients[i].actor == c.actor
    {
      forall i | c.base <= i < c.base + |c.transactions| ensures sys.clients[i].actor == c.actor {
        assert c.Own(i - c.base);
      }
    }
  }

  lemma ClientFits(c: ClientActor.Client, s: System, s': System, steps: seq<Step>, msgs: seq<Message>,
                   out: seq<Message>)
    requires c.base + |c.transactions| <= |s.clients|
    requires ClientActor.Underway(s, s', steps, c.base, |c.transactions|, c.actor, msgs, out)
    requires OwnRange(c, s)
    requires forall i :: c.base <= i < c.base + |c.transactions| && i < |s'.clients| ==> s'.clients[i].actor == c.actor
    ensures OwnRange(c, s') && SameActors(s, s')
  {}

  lemma ClientLeaves(a: Actor, c: ClientActor.Client, s: System, s': System, steps: seq<Step>, msgs: seq<Message>,
                     out: seq<Message>)
    requires c.base + |c.transactions| <= |s.clients|
    requires ClientActor.Underway(s, s', steps, c.base, |c.transactions|, c.actor, msgs, out)
    requires OwnRange(c, s)
    requires forall i :: c.base <= i < c.base + |c.transactions| && i < |s'.clients| ==> s'.clients[i].actor == c.actor
    requires a.ClientNode? ==> a.client.actor != c.actor && OwnRange(a.client, s)
    ensures a.Untouched(s, s')
  {}

  lemma ServerLeaves(a: Actor, s: System, s': System, steps: seq<Step>, msgs: seq<Message>, out: seq<Message>)
    requires ServerActor.Underway(s, s', steps, msgs, {}, out)
    ensures a.ClientNode? ==> a.Untouched(s, s')
    ensures SameActors(s, s')
  {}

  lemma SafeNow(s: System)
    requires Safety.Inv(s)
    ensures !s.threw && forall i :: 0 <= i < |s.clients| ==> s.clients[i].actor != s.server
  {}

  lemma ServerRan(start: System, s: System, s': System, steps: seq<Step>, msgs: seq<Message>, out: seq<Message>)
    requires ServerActor.Underway(s, s', steps, msgs, {}, out) && SameActors(start, s)
    requires WholeInbox(start, msgs, s.server) && forall i :: 0 <= i < |s.clients| ==> s.clients[i].actor != s.server
    ensures TurnRan(s, s', steps, msgs, out, s.server) && Turns(start, steps, {s.server})
  {
    hide ServerActor.ServerSteps;
    assert Pending(msgs, {}) == {};
    ServerTurns(start, steps, msgs);
  }

  lemma ClientRan(c: ClientActor.Client, start: System, s: System, s': System, steps: seq<Step>, msgs: seq<Message>,
                  out: seq<Message>)
    requires c.base + |c.transactions| <= |s.clients| && Safety.Inv(s) && c.actor != s.server
    requires ClientActor.Underway(s, s', steps, c.base, |c.transactions|, c.actor, msgs, out)
    requires SameActors(start, s) && OwnRange(c, s)
    requires WholeInbox(start, msgs, c.actor) && forall m :: m in msgs ==> m in s.net
    ensures TurnRan(s, s', steps, msgs, out, c.actor) && Turns(start, steps, {c.actor})
  {
    hide ClientActor.ClientSteps, ClientActor.HasTx, Safety.Inv;
    forall m | m in msgs ensures ClientActor.HasTx(s.clients, c.base, |c.transactions|, m.Txid()) {
      ForOwnTx(s, m, c.base, |c.transactions|, c.actor);
    }
    assert ClientActor.Taken(s.clients, c.base, |c.transactions|, msgs) == Elements(msgs);
    ClientTurns(start, s.clients, steps, msgs, c.base, |c.transactions|, c.actor);
  }

  lemma WaitingHas(start: System, served: set<ActorID>, msgs: seq<Message>, actor: ActorID)
    requires WholeInbox(start, msgs, actor) && actor !in served
    ensures forall m :: m in msgs ==> m in Waiting(start, served)
  {}

  lemma TurnFacts(s: System, s': System, steps: seq<Step>, msgs: seq<Message>, out: seq<Message>, actor: ActorID)
    requires TurnRan(s, s', steps, msgs, out, actor) && Safety.Inv(s)
    ensures ValidRun(s, steps) && s' == Run(s, steps) && Numbered(out, s.ids.lastMsg, s'.ids.lastMsg)
    ensures s.ids.lastMsg <= s'.ids.lastMsg && s.clock <= s'.clock
  {
    hide ValidRun, Run, Safety.Inv;
    if steps == [] {
      RunNone(s);
    } else {
      ClockAdvances(s, steps);
    }
  }

  lemma InboxIsWhole(q: Queue, inboxes: Inboxes, ts: Timestamp, s: System, d: ActorID)
    requires Moved(q, multiset{}, inboxes, ts) && Queued(q) == s.net && d in inboxes
    ensures WholeInbox(s, inboxes[d], d)
  {}

  predicate Decided(c: Tx.State) {
    c.phase.Committed? || c.phase.RolledBack?
  }

  /** From an initial state, this many ticks are enough for the transaction. */
  ghost predicate EnoughTicks(s: System, i: nat, latest: Timestamp, ticks: nat) {
    && Init(s) && i < |s.clients|
    && s.clients[i].spec.action.CommitAction? && TimesPassed(s.clients[i].spec, latest)
    && ticks >= (if latest > 1 then latest - 1 else 0) + |s.clients[i].spec.puts| + 7
  }

  lemma DecidedInTime(s: System, runs: seq<seq<Step>>)
    requires IsTicks(s, runs)
    ensures forall i: nat, latest :: EnoughTicks(s, i, latest, |runs|) ==>
      i < |RunTicks(s, runs).clients| && Decided(RunTicks(s, runs).clients[i])
  {
    hide IsTicks, RunTicks;
    forall i: nat, latest | EnoughTicks(s, i, latest, |runs|)
      ensures i < |RunTicks(s, runs).clients| && Decided(RunTicks(s, runs).clients[i])
    {
      BoundedProgress(s, runs, i, latest);
    }
  }

  lemma NoTicks(s: System)
    ensures IsTicks(s, []) && RunTicks(s, []) == s
  {}

  lemma {:induction false} TicksSnoc(s: System, runs: seq<seq<Step>>, steps: seq<Step>)
    requires IsTicks(s, runs) && IsTick(RunTicks(s, runs), steps)
    ensures IsTicks(s, runs + [steps]) && RunTicks(s, runs + [steps]) == Run(RunTicks(s, runs), steps)
    decreases |runs|
  {
    hide Run;
    if runs == [] {
      assert [] + [steps] == [steps] && [steps][1..] == [];
      NoTicks(Run(s, steps));
    } else {
      assert (runs + [steps])[0] == runs[0] && (runs + [steps])[1..] == runs[1..] + [steps];
      TicksSnoc(Run(s, runs[0]), runs[1..], steps);
    }
  }

  /** The state after a round: the clock moves on even if nobody ticked. */
  function RoundEnd(start: System, s: System): System {
    if s.clock == start.clock then s.(clock := s.clock + 1) else s
  }

  lemma ClockMayAdvance(s: System)
    requires Safety.Inv(s)
    ensures Safety.Inv(s.(clock := s.clock + 1))
  {
    var s' := s.(clock := s.clock + 1);
    forall i | 0 <= i < |s'.clients| ensures Channel.Inv(LocalOf(s', i)) && IdsUpTo(LocalOf(s', i), s'.ids.lastMsg) {
      assert LocalOf(s', i) == LocalOf(s, i);
    }
  }

  lemma ClockNotBefore(s: System, steps: seq<Step>)
    requires Safety.Inv(s) && IsTick(s, steps)
    ensures Run(s, steps).clock >= s.clock
  {
    hide Safety.Inv, Run;
    SameCount(s, steps, |steps|);
    AtEnd(s, steps);
  }

  /** With a client transaction a round is a tick; without one it is empty. */
  lemma RoundFacts(s: System, steps: seq<Step>)
    requires Safety.Inv(s) && IsTick(s, steps)
    ensures |RoundEnd(s, Run(s, steps)).clients| == |s.clients|
    ensures s.clients != [] ==> RoundEnd(s, Run(s, steps)) == Run(s, steps)
    ensures s.clients == [] ==> RoundEnd(s, Run(s, steps)) == s.(clock := s.clock + 1)
  {
    hide Safety.Inv, Run;
    SameCount(s, steps, |steps|);
    AtEnd(s, steps);
    if s.clients != [] {
      TickAdvances(s, steps, 0);
    } else {
      if steps != [] {
        StepsNeedClients(s, steps[0]);
        assert false;
      }
      RunNone(s);
    }
  }

  lemma StepsNeedClients(s: System, step: Step)
    requires Safety.Inv(s) && Enabled(s, step)
    ensures s.clients != []
  {
    if step.ServerTick? {
      assert step.msgs[0] in step.msgs;
    }
  }

  lemma NoneSent(q: Queue, out: seq<Message>, actor: ActorID)
    ensures Queued(q) == Queued(q) + Posted(out[..0], actor)
  {}

  lemma NumberedLength(out: seq<Message>, first: MsgID, last: MsgID)
    requires Numbered(out, first, last)
    ensures first + |out| == last
  {}

  /** The next message of an actor joins the queue. */
  lemma SentNext(q0: Queue, q: Queue, out: seq<Message>, i: nat, actor: ActorID, first: MsgID, last: MsgID,
                 x: SentMessage)
    requires Numbered(out, first, last) && i < |out| && x.msg == out[i].(source := actor)
    requires Unique(q) && Queued(q) == Queued(q0) + Posted(out[..i], actor)
    requires forall y :: y in q0 ==> y.msg.msgId <= first
    requires forall y :: y in q ==> y in q0 || y.msg.msgId <= first + i
    ensures Unique(q + multiset{x}) && Queued(q + multiset{x}) == Queued(q0) + Posted(out[..i + 1], actor)
    ensures forall y :: y in q + multiset{x} <==> y in q || y == x
    ensures x.msg.msgId == first + i + 1
  {
    hide Unique, Queued;
    assert out[..i + 1] == out[..i] + [out[i]];
    PostedAppend(out[..i], [out[i]], actor);
    Joins(q, x);
    assert Posted([out[i]], actor) == {x.msg};
  }

  lemma IdsOfSnoc(actors: seq<Actor>, a: Actor)
    ensures IdsOf(actors + [a], |actors| + 1) == IdsOf(actors, |actors|) + {a.Id()}
  {
    assert (actors + [a])[|actors|] == a;
    assert forall k :: 0 <= k < |actors| ==> (actors + [a])[k] == actors[k];
  }
}
