/**
  The part of the system that belongs to one transaction: its client, its server record and the messages between
  them. No other transaction's step touches it, so its invariant is proved here on its own.
 */
module Channel {
  import opened TxTypes
  import opened PutRequests
  import opened Participants
  import Server = ServerTransaction
  import Client = ClientTransaction

  datatype Local = Local(c: Client.State, srv: Server.State, ch: set<Message>)
  {
    ghost function P(): Participant
      requires c.participant.Some?
    {
      c.participant.value
    }

    ghost function R(): Requests
      requires c.participant.Some?
    {
      c.participant.value.reqs
    }
  }

  function SpecPuts(spec: Client.TxSpec): seq<KeyValue> {
    seq(|spec.puts|, j requires 0 <= j < |spec.puts| => spec.puts[j].put)
  }

  predicate IsLetter(m: Message, source: ActorID, destination: ActorID, payload: Payload) {
    m.source == source && m.destination == destination && m.payload == payload
  }

  ghost predicate Sole(ch: set<Message>, source: ActorID, destination: ActorID, payload: Payload) {
    exists m :: m in ch && ch == {m} && IsLetter(m, source, destination, payload)
  }

  ghost predicate SoleRollback(l: Local) {
    exists m :: && m in l.ch && l.ch == {m} && m.payload.RolledBackByServer?
                && IsLetter(m, l.c.server, l.c.actor, Payload.RolledBackByServer(l.c.txid, m.payload.conflictTxid))
  }

  // --- The phases of a transaction ---

  ghost predicate Linked(l: Local) {
    && l.c.participant.Some?
    && l.c.coordinator == l.c.server
    && l.P().client == l.c.actor
    && l.P().server == l.c.server
    && l.P().txid == l.c.txid
    && l.c.txid != UNDEFINED_TX_ID
  }

  ghost predicate Starting(l: Local)
    requires Linked(l)
  {
    && l.P().phase.StartMsgSent?
    && l.R() == EMPTY
    && l.P().readTs == UNDEFINED_TS
    && l.c.nextPut == 0
    && l.c.readTs == l.c.commitTs == UNDEFINED_TS
    && l.c.conflictTxid == UNDEFINED_TX_ID
    && (|| (&& l.srv == Server.FRESH
            && Sole(l.ch, l.c.actor, l.c.server, Payload.Start(l.c.txid)))
        || (&& l.srv == Server.State(Server.Phase.Open, l.c.txid, l.srv.readTs, UNDEFINED_TS, [])
            && l.srv.readTs != UNDEFINED_TS
            && Sole(l.ch, l.c.server, l.c.actor, Payload.StartAck(l.c.txid, l.srv.readTs))))
  }

  /** Client and server agree on the transaction's id and snapshot. */
  ghost predicate Opened(l: Local)
    requires Linked(l)
  {
    && l.P().phase.TxOpen?
    && l.srv.txid == l.c.txid
    && l.srv.readTs == l.P().readTs == l.c.readTs != UNDEFINED_TS
  }

  /** The client has asked for a prefix of its spec's puts and sent all it asked for. */
  ghost predicate Asked(l: Local)
    requires Linked(l)
  {
    && Accounting(l.R())
    && l.R().next == |l.R().puts| == l.c.nextPut <= |l.c.spec.puts|
    && forall j :: 0 <= j < |l.R().puts| ==> l.R().puts[j].put == l.c.spec.puts[j].put
  }

  ghost function StatusOf(r: Requests, id: MsgID): Status
    requires Indexed(r.scheduled, |r.puts|) && id in r.scheduled
  {
    r.puts[r.scheduled[id]].status
  }

  ghost function PutOf(r: Requests, id: MsgID): KeyValue
    requires Indexed(r.scheduled, |r.puts|) && id in r.scheduled
  {
    r.puts[r.scheduled[id]].put
  }

  ghost function PutMessage(l: Local, id: MsgID): Message
    requires Linked(l) && Indexed(l.R().scheduled, |l.R().puts|) && id in l.R().scheduled
  {
    Message(l.c.actor, l.c.server, id, Payload.Put(l.c.txid, PutOf(l.R(), id)))
  }

  ghost predicate IsPutOf(l: Local, m: Message)
    requires Linked(l) && Indexed(l.R().scheduled, |l.R().puts|)
  {
    m.msgId in l.R().scheduled && m == PutMessage(l, m.msgId)
  }

  ghost predicate IsReplyOf(l: Local, m: Message)
    requires Linked(l)
  {
    && m.payload.PutReply?
    && IsLetter(m, l.c.server, l.c.actor, Payload.PutReply(l.c.txid, m.payload.originalId))
    && m.payload.originalId in l.R().scheduled
  }

  ghost predicate HasReply(ch: set<Message>, id: MsgID) {
    exists m :: m in ch && m.payload.PutReply? && m.payload.originalId == id
  }

  /** `arrived` lists the ids of the PUTs the server has handled, in that order. */
  ghost predicate Arrivals(l: Local, arrived: seq<MsgID>)
    requires Linked(l) && Indexed(l.R().scheduled, |l.R().puts|)
  {
    && (forall i, j :: 0 <= i < j < |arrived| ==> arrived[i] != arrived[j])
    && (forall id :: id in arrived ==> id in l.R().scheduled)
    && |l.srv.puts| == |arrived|
    && forall i :: 0 <= i < |arrived| ==> l.srv.puts[i] == PutOf(l.R(), arrived[i])
  }

  /** Every sent put is in one place: its PUT in flight, its PUT_REPLY in flight, or acknowledged. */
  ghost predicate PutsTracked(l: Local, arrived: seq<MsgID>)
    requires Linked(l) && Indexed(l.R().scheduled, |l.R().puts|)
  {
    forall id :: id in l.R().scheduled ==> PutTracked(l, arrived, id)
  }

  ghost predicate PutTracked(l: Local, arrived: seq<MsgID>, id: MsgID)
    requires Linked(l) && Indexed(l.R().scheduled, |l.R().puts|) && id in l.R().scheduled
  {
    if id !in arrived then
      StatusOf(l.R(), id) == Started && PutMessage(l, id) in l.ch
    else
      StatusOf(l.R(), id) == Started ==> HasReply(l.ch, id)
  }

  /** Nothing else is in flight. */
  ghost predicate MessagesTracked(l: Local, arrived: seq<MsgID>)
    requires Linked(l) && Indexed(l.R().scheduled, |l.R().puts|)
  {
    forall m :: m in l.ch ==> MessageTracked(l, arrived, m)
  }

  ghost predicate MessageTracked(l: Local, arrived: seq<MsgID>, m: Message)
    requires Linked(l) && Indexed(l.R().scheduled, |l.R().puts|)
  {
    || (IsPutOf(l, m) && m.msgId !in arrived)
    || (IsReplyOf(l, m) && m.payload.originalId in arrived && StatusOf(l.R(), m.payload.originalId) == Started)
  }

  ghost predicate RepliesUnique(ch: set<Message>) {
    forall m, n | m in ch && n in ch && m.payload.PutReply? && n.payload.PutReply? ::
      m.payload.originalId == n.payload.originalId ==> m == n
  }

  ghost predicate Flow(l: Local, arrived: seq<MsgID>)
    requires Linked(l) && Indexed(l.R().scheduled, |l.R().puts|)
  {
    && Arrivals(l, arrived)
    && PutsTracked(l, arrived)
    && MessagesTracked(l, arrived)
    && RepliesUnique(l.ch)
  }

  ghost predicate Flowing(l: Local)
    requires Linked(l)
  {
    && Opened(l) && Asked(l)
    && l.srv.phase.Open? && l.srv.commitTs == l.c.commitTs == UNDEFINED_TS
    && l.c.conflictTxid == UNDEFINED_TX_ID
    && exists arrived :: Flow(l, arrived)
  }

  /** The commit barrier: the server holds every put of the spec exactly once, and the client knows. */
  ghost predicate Barrier(l: Local)
    requires Linked(l)
  {
    && Opened(l) && Asked(l)
    && l.c.spec.action.CommitAction?
    && |l.R().puts| == |l.c.spec.puts|
    && (forall j :: 0 <= j < |l.R().puts| ==> l.R().puts[j].status == Completed)
    && multiset(l.srv.puts) == multiset(SpecPuts(l.c.spec))
  }

  ghost predicate Deciding(l: Local)
    requires Linked(l)
  {
    && Barrier(l)
    && l.c.commitTs == UNDEFINED_TS && l.c.conflictTxid == UNDEFINED_TX_ID
    && (|| (&& l.srv.phase.Open? && l.srv.commitTs == UNDEFINED_TS
            && Sole(l.ch, l.c.actor, l.c.server, Payload.Commit(l.c.txid)))
        || (&& l.srv.phase.Committed?
            && Sole(l.ch, l.c.server, l.c.actor, Payload.CommitAck(l.c.txid, l.srv.commitTs)))
        || (l.srv.phase.RolledBack? && SoleRollback(l)))
  }

  ghost predicate Finished(l: Local)
    requires Linked(l)
  {
    && Barrier(l)
    && l.ch == {}
    && (if l.c.phase.Committed? then
          l.srv.phase.Committed? && l.c.commitTs == l.srv.commitTs && l.c.conflictTxid == UNDEFINED_TX_ID
        else
          l.srv.phase.RolledBack? && l.c.commitTs == UNDEFINED_TS)
  }

  ghost predicate Inv(l: Local) {
    match l.c.phase
    case NotStarted => l == Local(Client.Initial(l.c.actor, l.c.spec, l.c.server), Server.FRESH, {})
    case StartSent => Linked(l) && Starting(l)
    case Open => Linked(l) && Flowing(l)
    case CommitSent => Linked(l) && Deciding(l)
    case Committed => Linked(l) && Finished(l)
    case RolledBack => Linked(l) && Finished(l)
  }

  /** Message ids in use are not larger than `last`. */
  ghost predicate IdsUpTo(l: Local, last: MsgID) {
    && (forall m :: m in l.ch ==> m.msgId <= last)
    && (l.c.participant.Some? ==> forall id :: id in l.R().scheduled ==> id <= last)
  }
}
