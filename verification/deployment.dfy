/** Whole deployments: a server and any number of clients are built, registered and run until all is decided. */
module Deployment {
  import opened TxTypes
  import opened VersionStore
  import Tx = ClientTransaction
  import opened Protocol
  import opened Progress
  import opened PutOrder
  import opened TickRuntime
  import ServerActor
  import ClientActor

  /** A client actor and the transactions it is to run. */
  datatype ClientSpecs = ClientSpecs(actor: ActorID, specs: seq<Tx.TxSpec>)

  /** Every actor has an id of its own. */
  predicate OwnIds(server: ActorID, cs: seq<ClientSpecs>) {
    && (forall k :: 0 <= k < |cs| ==> cs[k].actor != server)
    && forall j, k :: 0 <= j < k < |cs| ==> cs[j].actor != cs[k].actor
  }

  function InitialOf(c: ClientSpecs, server: ActorID): (r: seq<Tx.State>)
    ensures |r| == |c.specs| && forall j :: 0 <= j < |r| ==> r[j] == Tx.Initial(c.actor, c.specs[j], server)
  {
    seq(|c.specs|, j requires 0 <= j < |c.specs| => Tx.Initial(c.actor, c.specs[j], server))
  }

  /** The transactions of all clients, client by client. */
  function AllClients(cs: seq<ClientSpecs>, server: ActorID): seq<Tx.State> {
    if cs == [] then [] else AllClients(cs[..|cs| - 1], server) + InitialOf(cs[|cs| - 1], server)
  }

  function BaseOf(cs: seq<ClientSpecs>, server: ActorID, k: nat): nat
    requires k <= |cs|
  {
    |AllClients(cs[..k], server)|
  }

  function InitialSystem(cs: seq<ClientSpecs>, server: ActorID, ids: Ids): System {
    System(server, 0, ids, {}, map[], map[], AllClients(cs, server), false)
  }

  ghost predicate HasActor(cs: seq<ClientSpecs>, actor: ActorID) {
    exists k :: 0 <= k < |cs| && cs[k].actor == actor
  }

  /** All are as they start, and each belongs to one of the clients. */
  ghost predicate Unstarted(all: seq<Tx.State>, cs: seq<ClientSpecs>, server: ActorID) {
    forall i :: 0 <= i < |all| ==>
      all[i] == Tx.Initial(all[i].actor, all[i].spec, server) && HasActor(cs, all[i].actor)
  }

  lemma UnstartedKept(all: seq<Tx.State>, cs: seq<ClientSpecs>, d: ClientSpecs, server: ActorID)
    requires Unstarted(all, cs, server)
    ensures Unstarted(all + InitialOf(d, server), cs + [d], server)
  {
    forall actor | HasActor(cs, actor) || actor == d.actor ensures HasActor(cs + [d], actor) {
      if actor == d.actor {
        assert (cs + [d])[|cs|].actor == actor;
      } else {
        var k :| 0 <= k < |cs| && cs[k].actor == actor;
        assert (cs + [d])[k].actor == actor;
      }
    }
  }

  lemma {:induction false} ActorsOf(cs: seq<ClientSpecs>, server: ActorID)
    ensures Unstarted(AllClients(cs, server), cs, server)
  {
    if cs == [] {
    } else {
      hide Unstarted, InitialOf;
      var n := |cs| - 1;
      ActorsOf(cs[..n], server);
      UnstartedKept(AllClients(cs[..n], server), cs[..n], cs[n], server);
      assert cs == cs[..n] + [cs[n]];
    }
  }

  /** The transactions of client `c` are those from `base` on, and no others have its id. */
  ghost predicate Range(all: seq<Tx.State>, base: nat, c: ClientSpecs, server: ActorID) {
    && base + |c.specs| <= |all|
    && (forall j :: 0 <= j < |c.specs| ==> all[base + j] == Tx.Initial(c.actor, c.specs[j], server))
    && forall i :: 0 <= i < |all| ==> (all[i].actor == c.actor <==> base <= i < base + |c.specs|)
  }

  lemma RangeKept(all: seq<Tx.State>, base: nat, c: ClientSpecs, d: ClientSpecs, server: ActorID)
    requires Range(all, base, c, server) && d.actor != c.actor
    ensures Range(all + InitialOf(d, server), base, c, server)
  {}

  lemma RangeLast(all: seq<Tx.State>, c: ClientSpecs, server: ActorID)
    requires forall i :: 0 <= i < |all| ==> all[i].actor != c.actor
    ensures Range(all + InitialOf(c, server), |all|, c, server)
  {}

  /** Where the `k`-th client's transactions are. */
  lemma {:induction false} RangeOf(cs: seq<ClientSpecs>, server: ActorID, k: nat)
    requires OwnIds(server, cs) && k < |cs|
    ensures Range(AllClients(cs, server), BaseOf(cs, server, k), cs[k], server)
    decreases |cs|
  {
    hide Range, InitialOf;
    var last := |cs| - 1;
    var front := AllClients(cs[..last], server);
    if k < last {
      assert cs[..last][..k] == cs[..k];
      RangeOf(cs[..last], server, k);
      RangeKept(front, BaseOf(cs, server, k), cs[k], cs[last], server);
    } else {
      ActorsOf(cs[..last], server);
      forall i | 0 <= i < |front| ensures front[i].actor != cs[k].actor {
        assert HasActor(cs[..last], front[i].actor);
        var j :| 0 <= j < last && cs[..last][j].actor == front[i].actor;
        assert cs[j].actor != cs[k].actor;
      }
      RangeLast(front, cs[k], server);
    }
  }

  lemma IsInitial(cs: seq<ClientSpecs>, server: ActorID, ids: Ids)
    requires OwnIds(server, cs) && CountedUp(ids)
    ensures Init(InitialSystem(cs, server, ids))
  {
    ActorsOf(cs, server);
  }

  predicate IsClient(a: Actor, c: ClientSpecs) {
    && a.ClientNode? && a.Id() == c.actor && |a.client.transactions| == |c.specs|
    && forall j :: 0 <= j < |c.specs| ==> a.client.transactions[j].spec == c.specs[j]
  }

  /** The server and the first `k` clients are registered, in this order. */
  ghost predicate Registered(actors: seq<Actor>, cs: seq<ClientSpecs>, server: ActorID, k: nat)
    requires k <= |cs|
  {
    && |actors| == k + 1
    && actors[0].ServerNode? && actors[0].Id() == server
    && forall j :: 0 < j <= k ==> IsClient(actors[j], cs[j - 1])
  }

  lemma NextIsNew(actors: seq<Actor>, cs: seq<ClientSpecs>, server: ActorID, k: nat)
    requires k < |cs| && OwnIds(server, cs) && Registered(actors, cs, server, k)
    ensures cs[k].actor !in IdsOf(actors, |actors|)
  {
    assert forall j :: 0 <= j < |actors| ==> actors[j].Id() != cs[k].actor;
  }

  lemma AllThere(actors: seq<Actor>, cs: seq<ClientSpecs>, server: ActorID, ids: Ids)
    requires OwnIds(server, cs) && Registered(actors, cs, server, |cs|)
    ensures AllRegistered(actors, InitialSystem(cs, server, ids))
  {
    ActorsOf(cs, server);
    var all := AllClients(cs, server);
    forall i | 0 <= i < |all| ensures all[i].actor in IdsOf(actors, |actors|) {
      var k :| 0 <= k < |cs| && cs[k].actor == all[i].actor;
      assert IsClient(actors[k + 1], cs[k]);
    }
    assert actors[0].Id() in IdsOf(actors, |actors|);
  }

  /** Builds a client and registers it; it is not refused. */
  method AddClient(rt: Runtime, server: ActorID, cs: seq<ClientSpecs>, k: nat)
    requires k < |cs| && OwnIds(server, cs) && Registered(rt.actors, cs, server, k)
    requires rt.Agrees() && rt.Known() && rt.sys == InitialSystem(cs, server, rt.sys.ids)
    modifies rt
    ensures rt.Agrees() && rt.Known() && rt.sys == old(rt.sys) && rt.queue == old(rt.queue)
    ensures rt.timestamp == old(rt.timestamp) && fresh(rt.Repr - old(rt.Repr))
    ensures Registered(rt.actors, cs, server, k + 1)
  {
    hide OwnIds, AllClients, Range, Registered, IsClient, Runtime.Agrees, Runtime.Known, IdsOf;
    ghost var before := rt.actors;
    RangeOf(cs, server, k);
    NextIsNew(before, cs, server, k);
    var client := new ClientActor.Client(cs[k].actor, cs[k].specs, server, rt.generator, BaseOf(cs, server, k));
    ClientFitsIn(rt, server, cs, k, client);
    var refused := rt.Register(ClientNode(client));
    assert !refused;
    NextIsThere(before, cs, server, k, ClientNode(client));
  }

  lemma ClientFitsIn(rt: Runtime, server: ActorID, cs: seq<ClientSpecs>, k: nat, c: ClientActor.Client)
    requires k < |cs| && rt.sys == InitialSystem(cs, server, rt.sys.ids) && rt.clock !in c.Repr
    requires c.Valid() && c.actor == cs[k].actor && c.server == server && c.generator == rt.generator
    requires c.base == BaseOf(cs, server, k) && |c.transactions| == |cs[k].specs|
    requires forall j: nat :: j < |c.transactions| ==>
               c.Own(j) && c.transactions[j].View() == Tx.Initial(c.actor, cs[k].specs[j], server)
    requires Range(AllClients(cs, server), BaseOf(cs, server, k), cs[k], server)
    ensures ClientNode(c).Fits(rt.sys, rt.clock, rt.generator)
  {
    hide AllClients, BaseOf;
  }

  /** Builds the runtime and the server and registers the server. */
  method StartServer(server: ActorID, cs: seq<ClientSpecs>, generator: Generator) returns (rt: Runtime)
    requires OwnIds(server, cs) && CountedUp(generator.ids)
    ensures rt.Agrees() && rt.Known() && rt.sys == InitialSystem(cs, server, generator.ids) && rt.queue == multiset{}
    ensures Registered(rt.actors, cs, server, 0) && rt.generator == generator
    ensures fresh(rt) && fresh(rt.Repr) && fresh(rt.clock)
  {
    hide OwnIds, AllClients, Registered, Init, IdsOf, Runtime.Agrees;
    IsInitial(cs, server, generator.ids);
    rt := new Runtime(generator, InitialSystem(cs, server, generator.ids));
    var node := new ServerActor.Server(server, generator);
    NoIds();
    var refused := rt.Register(ServerNode(node));
    assert !refused;
    FirstIsThere(rt.actors, cs, server);
  }

  /** Builds the runtime, the server and the clients and registers them; nothing is refused. */
  method Deploy(server: ActorID, cs: seq<ClientSpecs>, generator: Generator) returns (rt: Runtime)
    requires OwnIds(server, cs) && CountedUp(generator.ids)
    ensures rt.Valid() && rt.sys == InitialSystem(cs, server, generator.ids) && rt.clock.now == 0
    ensures Registered(rt.actors, cs, server, |cs|) && rt.generator == generator
    ensures fresh(rt) && fresh(rt.Repr) && fresh(rt.clock)
  {
    hide OwnIds, AllClients, Registered, Init, IdsOf, Runtime.Agrees, Runtime.Known;
    rt := StartServer(server, cs, generator);
    for k := 0 to |cs|
      invariant rt.Agrees() && rt.Known() && rt.sys == InitialSystem(cs, server, generator.ids)
      invariant rt.queue == multiset{} && fresh(rt) && fresh(rt.Repr) && fresh(rt.clock)
      invariant Registered(rt.actors, cs, server, k)
    {
      AddClient(rt, server, cs, k);
    }
    IsInitial(cs, server, generator.ids);
    AllThere(rt.actors, cs, server, generator.ids);
    rt.TimeNow();
    rt.ReadyToRun();
  }

  lemma NoIds()
    ensures IdsOf([], 0) == {}
  {}

  lemma FirstIsThere(actors: seq<Actor>, cs: seq<ClientSpecs>, server: ActorID)
    requires |actors| == 1 && actors[0].ServerNode? && actors[0].Id() == server
    ensures Registered(actors, cs, server, 0)
  {}

  lemma NextIsThere(actors: seq<Actor>, cs: seq<ClientSpecs>, server: ActorID, k: nat, a: Actor)
    requires k < |cs| && Registered(actors, cs, server, k)
    requires IsClient(a, cs[k])
    ensures Registered(actors + [a], cs, server, k + 1)
  {}

  /** A COMMIT spec for which that many ticks are enough. */
  predicate Covered(spec: Tx.TxSpec, latest: Timestamp, ticks: nat) {
    && spec.action.CommitAction? && TimesPassed(spec, latest)
    && ticks >= (if latest > 1 then latest - 1 else 0) + |spec.puts| + 7
  }

  predicate AllCovered(cs: seq<ClientSpecs>, latest: Timestamp, ticks: nat) {
    forall c, spec :: c in cs && spec in c.specs ==> Covered(spec, latest, ticks)
  }

  lemma {:induction false} EnoughForAll(cs: seq<ClientSpecs>, server: ActorID, latest: Timestamp, ticks: nat)
    requires AllCovered(cs, latest, ticks)
    ensures forall i :: 0 <= i < |AllClients(cs, server)| ==> Covered(AllClients(cs, server)[i].spec, latest, ticks)
  {
    if cs == [] {
    } else {
      var n := |cs| - 1;
      EnoughForAll(cs[..n], server, latest, ticks);
      forall i | 0 <= i < |InitialOf(cs[n], server)|
        ensures Covered(InitialOf(cs[n], server)[i].spec, latest, ticks)
      {
        assert cs[n].specs[i] in cs[n].specs;
      }
    }
  }

  /** A transaction's object is decided, and the store is as the decision says. */
  ghost predicate TxSettled(tx: Tx.ClientTx, spec: Tx.TxSpec, data: Data)
    reads tx, tx.Repr()
  {
    && tx.Valid() && tx.spec == spec
    && (tx.phase.Committed? || tx.phase.RolledBack?)
    && Settled(tx.View(), data)
  }

  ghost predicate ClientSettled(a: Actor, c: ClientSpecs, data: Data)
    reads a.Parts()
  {
    && a.ClientNode? && |a.client.transactions| == |c.specs|
    && forall j: nat :: j < |c.specs| ==> a.client.Own(j) && TxSettled(a.client.transactions[j], c.specs[j], data)
  }

  /** Every transaction of every client is settled in the storage of the server. */
  ghost predicate AllSettled(rt: Runtime, cs: seq<ClientSpecs>)
    reads rt, rt.Repr
  {
    && |rt.actors| == |cs| + 1 && rt.actors[0].ServerNode? && rt.actors[0].server.storage in rt.Repr
    && forall k: nat :: 0 < k < |rt.actors| ==>
         && rt.actors[k].Object() in rt.Repr && rt.actors[k].Parts() <= rt.Repr
         && ClientSettled(rt.actors[k], cs[k - 1], rt.actors[0].server.storage.data)
  }

  /**
    Any number of clients with any COMMIT specs, from nothing, whatever ids the process used before: after enough ticks
    the object of every transaction is committed or rolled back. A committed one exports the puts of its spec, and the
    server's storage holds under its id exactly the first put of each key; under the id of a rolled back one, nothing.
   */
  method RunAll(server: ActorID, cs: seq<ClientSpecs>, generator: Generator, latest: Timestamp, ticks: nat)
    returns (rt: Runtime)
    requires OwnIds(server, cs) && AllCovered(cs, latest, ticks) && CountedUp(generator.ids)
    modifies generator
    ensures rt.Valid() && rt.clock.now >= ticks && Registered(rt.actors, cs, server, |cs|) && AllSettled(rt, cs)
    ensures rt.generator == generator && fresh(rt) && fresh(rt.Repr) && fresh(rt.clock) && CountedUp(generator.ids)
  {
    hide OwnIds, AllClients, AllCovered, Registered, Runtime.Valid, Init, Covered, IsTicks, RunTicks, Settled;
    hide ClientSettled;
    rt := Deploy(server, cs, generator);
    ghost var start := rt.sys;
    ghost var runs := rt.RunFor(ticks);
    IsInitial(cs, server, start.ids);
    EnoughForAll(cs, server, latest, ticks);
    AllCounted(rt.actors, cs, server);
    AfterRun(rt);
    forall i: nat | i < |rt.sys.clients|
      ensures Decided(rt.sys.clients[i]) && Settled(rt.sys.clients[i], rt.sys.store)
    {
      EnoughIs(cs, server, start.ids, i, latest, ticks);
      DecidedIsSettled(start, runs, i);
    }
    forall k: nat | 0 < k < |rt.actors|
      ensures rt.actors[k].Object() in rt.Repr && rt.actors[k].Parts() <= rt.Repr
      ensures ClientSettled(rt.actors[k], cs[k - 1], rt.actors[0].server.storage.data)
    {
      HasTransactions(rt.actors, cs, server, k);
      StateInObjects(rt, k, cs[k - 1]);
    }
  }

  /** A second deployment of the same process starts with the ids that the first one left, and leaves it alone. */
  method RunTwice(server: ActorID, cs: seq<ClientSpecs>, ds: seq<ClientSpecs>, latest: Timestamp, ticks: nat)
    returns (first: Runtime, second: Runtime)
    requires OwnIds(server, cs) && AllCovered(cs, latest, ticks)
    requires OwnIds(server, ds) && AllCovered(ds, latest, ticks)
    ensures AllSettled(first, cs) && AllSettled(second, ds) && first != second
  {
    hide OwnIds, AllCovered, Registered, Runtime.Valid, AllSettled;
    var generator := new Generator();
    first := RunAll(server, cs, generator, latest, ticks);
    AfterRun(first);
    second := RunAll(server, ds, generator, latest, ticks);
  }

  lemma AfterRun(rt: Runtime)
    requires rt.Valid()
    ensures CountedUp(rt.generator.ids) && rt.generator !in rt.Repr
    ensures |rt.actors| > 0 && rt.actors[0].ServerNode? ==> rt.actors[0].server.storage in rt.Repr
  {
    if |rt.actors| > 0 {
      assert rt.Member(0, rt.sys);
    }
  }

  lemma EnoughIs(cs: seq<ClientSpecs>, server: ActorID, ids: Ids, i: nat, latest: Timestamp, ticks: nat)
    requires Init(InitialSystem(cs, server, ids)) && i < |AllClients(cs, server)|
    requires Covered(AllClients(cs, server)[i].spec, latest, ticks)
    ensures EnoughTicks(InitialSystem(cs, server, ids), i, latest, ticks)
  {}

  lemma AllCounted(actors: seq<Actor>, cs: seq<ClientSpecs>, server: ActorID)
    requires Registered(actors, cs, server, |cs|)
    ensures |actors| == |cs| + 1 && actors[0].ServerNode?
  {}

  lemma HasTransactions(actors: seq<Actor>, cs: seq<ClientSpecs>, server: ActorID, k: nat)
    requires Registered(actors, cs, server, |cs|) && 0 < k < |actors|
    ensures k <= |cs| && IsClient(actors[k], cs[k - 1])
  {}

  /** The objects of a valid runtime hold the state of the system. */
  lemma StateInObjects(rt: Runtime, k: nat, c: ClientSpecs)
    requires rt.Valid() && k < |rt.actors| && rt.actors[0].ServerNode? && IsClient(rt.actors[k], c)
    requires forall i: nat :: i < |rt.sys.clients| ==>
               Decided(rt.sys.clients[i]) && Settled(rt.sys.clients[i], rt.sys.store)
    ensures rt.actors[k].Object() in rt.Repr && rt.actors[k].Parts() <= rt.Repr
    ensures ClientSettled(rt.actors[k], c, rt.actors[0].server.storage.data)
  {
    hide Settled;
    assert rt.Member(k, rt.sys) && rt.Member(0, rt.sys);
    var client := rt.actors[k].client;
    forall j: nat | j < |c.specs| ensures client.Own(j) {}
    forall j: nat | j < |c.specs|
      ensures TxSettled(client.transactions[j], c.specs[j], rt.actors[0].server.storage.data)
    {
      assert client.Own(j);
      assert Decided(rt.sys.clients[client.base + j]);
    }
  }
}
