/**
  The whole system as a state machine: one server, any number of client transactions, a clock, and a network
  that delivers messages in any order.

  Every message carries an id that is never reused, so a network without loss or duplication is a set.
 */
module Protocol {
  import opened TxTypes
  import opened VersionStore
  import Server = ServerTransaction
  import Client = ClientTransaction

  datatype System = System(
    server: ActorID,
    clock: Timestamp,
    ids: Ids,
    net: set<Message>,
    txs: map<TxID, Server.State>,
    store: Data,
    clients: seq<Client.State>,
    threw: bool)

  /** Nothing has happened yet, except that other runtimes of the process may have used up ids. */
  ghost predicate Init(s: System) {
    && s == System(s.server, 0, s.ids, {}, map[], map[], s.clients, false) && CountedUp(s.ids)
    && forall i :: 0 <= i < |s.clients| ==>
         && s.clients[i] == Client.Initial(s.clients[i].actor, s.clients[i].spec, s.server)
         && s.clients[i].actor != s.server
  }

  /** One transaction handles a batch of the messages that are in flight for it. */
  datatype Step =
    | ServerTick(txid: TxID, msgs: seq<Message>)
    | ClientTick(i: nat, msgs: seq<Message>)

  ghost predicate Distinct(msgs: seq<Message>) {
    forall i, j :: 0 <= i < j < |msgs| ==> msgs[i] != msgs[j]
  }

  /** `msgs` lists, in some order, some of the messages in flight to `actor` for transaction `txid`. */
  ghost predicate InFlight(net: set<Message>, msgs: seq<Message>, actor: ActorID, txid: TxID) {
    && Distinct(msgs)
    && forall m :: m in msgs ==> m in net && m.destination == actor && m.Txid() == txid
  }

  ghost predicate Enabled(s: System, step: Step) {
    match step
    case ServerTick(t, msgs) =>
      msgs != [] && InFlight(s.net, msgs, s.server, t)
    case ClientTick(i, msgs) =>
      && i < |s.clients|
      && InFlight(s.net, msgs, s.clients[i].actor, s.clients[i].txid)
      && (s.clients[i].txid == UNDEFINED_TX_ID ==> msgs == [])
  }

  function TxOf(txs: map<TxID, Server.State>, t: TxID): Server.State {
    if t in txs then txs[t] else Server.FRESH
  }

  function Elements(msgs: seq<Message>): set<Message> {
    set m | m in msgs
  }

  /** The runtime proxy stamps the sender on every message it posts. */
  function Posted(out: seq<Message>, actor: ActorID): set<Message> {
    set m | m in out :: m.(source := actor)
  }

  function ServerWorld(s: System, t: TxID, msgs: seq<Message>): Server.World {
    Server.HandleAll(Server.World(TxOf(s.txs, t), s.store, s.ids.lastMsg, [], false), s.clock + 1, msgs)
  }

  function ClientWorld(s: System, i: nat, msgs: seq<Message>): Client.World
    requires i < |s.clients|
  {
    Client.Tick(s.clients[i], s.ids, s.clock + 1, msgs)
  }

  /** Each tick of a transaction has its own timestamp. A message without a transaction makes the server throw. */
  ghost function Next(s: System, step: Step): System
    requires Enabled(s, step)
  {
    match step
    case ServerTick(t, msgs) =>
      if t == UNDEFINED_TX_ID then s.(threw := true)
      else
        var w := ServerWorld(s, t, msgs);
        s.(clock := s.clock + 1,
           ids := s.ids.(lastMsg := w.lastMsg),
           net := s.net - Elements(msgs) + Posted(w.out, s.server),
           txs := s.txs[t := w.tx],
           store := w.data,
           threw := s.threw || w.threw)
    case ClientTick(i, msgs) =>
      var w := ClientWorld(s, i, msgs);
      s.(clock := s.clock + 1,
         ids := w.ids,
         net := s.net - Elements(msgs) + Posted(w.out, s.clients[i].actor),
         clients := s.clients[i := w.tx],
         threw := s.threw || w.threw)
  }

  ghost predicate ValidRun(s: System, steps: seq<Step>)
    decreases |steps|
  {
    steps == [] || (Enabled(s, steps[0]) && ValidRun(Next(s, steps[0]), steps[1..]))
  }

  ghost function Run(s: System, steps: seq<Step>): System
    requires ValidRun(s, steps)
    decreases |steps|
  {
    if steps == [] then s else Run(Next(s, steps[0]), steps[1..])
  }
}
