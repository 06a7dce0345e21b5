/** The client side of a transaction: START, then one PUT per tick, then COMMIT once all are acknowledged. */
module ClientTransaction {
  import opened TxTypes
  import opened PutRequests
  import opened Participants
  import opened Outbox

  datatype ClientPhase = NotStarted | StartSent | Open | CommitSent | Committed | RolledBack

  datatype PutSpec = PutSpec(earliestTs: Timestamp, put: KeyValue)

  datatype Action = UndefinedAction | CommitAction | RollbackAction

  datatype TxSpec = TxSpec(earliestStartTs: Timestamp, earliestCommitTs: Timestamp, puts: seq<PutSpec>, action: Action)

  /** Discovery of a single-node system always answers `server`, so there is at most one participant. */
  datatype State = State(
    actor: ActorID,
    spec: TxSpec,
    server: ActorID,
    phase: ClientPhase,
    coordinator: ActorID,
    participant: Option<Participant>,
    txid: TxID,
    conflictTxid: TxID,
    readTs: Timestamp,
    commitTs: Timestamp,
    nextPut: nat)

  function Initial(actor: ActorID, spec: TxSpec, server: ActorID): State {
    State(actor, spec, server, ClientPhase.NotStarted, UNDEFINED_ACTOR_ID, None, UNDEFINED_TX_ID, UNDEFINED_TX_ID,
          UNDEFINED_TS, UNDEFINED_TS, 0)
  }

  function ProgressState(phase: ClientPhase): ClientPhase {
    match phase
    case NotStarted => StartSent
    case StartSent => Open
    case Open => CommitSent
    case CommitSent => Committed
    case Committed => Committed
    case RolledBack => Committed
  }

  /** The state with the id counters, what the tick has scheduled so far, and whether it threw. */
  datatype World = World(tx: State, ids: Ids, out: seq<Message>, threw: bool)

  /** The replies a participant receives: START_ACK and PUT_REPLY that come from it. */
  predicate IsReplyFrom(m: Message, server: ActorID) {
    (m.payload.StartAck? || m.payload.PutReply?) && m.source == server
  }

  function Replies(msgs: seq<Message>, server: ActorID): seq<Message>
  {
    if msgs == [] then []
    else
      var last := msgs[|msgs| - 1];
      Replies(msgs[..|msgs| - 1], server) + if IsReplyFrom(last, server) then [last] else []
  }

  ghost function RepliesAt(msgs: seq<Message>, server: ActorID): set<nat> {
    set k: nat | k < |msgs| && IsReplyFrom(msgs[k], server)
  }

  lemma RepliesAtNext(msgs: seq<Message>, server: ActorID)
    requires msgs != []
    ensures var n := |msgs| - 1;
            RepliesAt(msgs, server)
            == RepliesAt(msgs[..n], server) + if IsReplyFrom(msgs[n], server) then {n as nat} else {}
  {}

  /** A participant is handed each reply of its server once, no other message, and in the order of the batch. */
  lemma {:induction false} ReplyPositions(msgs: seq<Message>, server: ActorID) returns (idx: seq<nat>)
    ensures Lists(idx, RepliesAt(msgs, server)) && |Replies(msgs, server)| == |idx|
    ensures forall i :: 0 <= i < |idx| ==> idx[i] < |msgs| && Replies(msgs, server)[i] == msgs[idx[i]]
  {
    if msgs == [] {
      idx := [];
    } else {
      var n := |msgs| - 1;
      idx := ReplyPositions(msgs[..n], server);
      RepliesAtNext(msgs, server);
      if IsReplyFrom(msgs[n], server) {
        assert forall k :: k in RepliesAt(msgs[..n], server) ==> k < n;
        hide RepliesAt, Lists;
        ListsNext(idx, RepliesAt(msgs[..n], server), n);
        idx := idx + [n];
      }
    }
  }

  lemma NoReplies(msgs: seq<Message>)
    ensures forall a :: Replies(msgs[..0], a) == []
    ensures msgs[..|msgs|] == msgs
  {}

  lemma NextReply(msgs: seq<Message>, i: nat)
    requires i < |msgs|
    ensures forall a :: Replies(msgs[..i + 1], a)
                     == Replies(msgs[..i], a) + if IsReplyFrom(msgs[i], a) then [msgs[i]] else []
  {
    assert msgs[..i + 1][..i] == msgs[..i];
  }

  function Receive(w: World, msgs: seq<Message>): World {
    if w.tx.participant.None? then w
    else match Incoming(w.tx.participant.value, Replies(msgs, w.tx.participant.value.server))
      case None => w.(threw := true)
      case Some(p) => w.(tx := w.tx.(participant := Some(p)))
  }

  function StartTransaction(w: World): World {
    var p := NewParticipant(w.tx.actor, w.tx.server);
    w.(tx := w.tx.(phase := ProgressState(w.tx.phase), coordinator := w.tx.server,
                   participant := Some(AfterStart(p, w.ids)), txid := w.ids.lastTx + 1),
       ids := Ids(w.ids.lastMsg + 1, w.ids.lastTx + 1),
       out := w.out + [StartMessage(p, w.ids)])
  }

  function MaybeAddPut(w: World, ts: Timestamp): World
    requires w.tx.participant.Some?
  {
    var c := w.tx;
    if c.nextPut < |c.spec.puts| && ts >= c.spec.puts[c.nextPut].earliestTs then
      var p := c.participant.value;
      w.(tx := c.(participant := Some(p.(reqs := AddPut(p.reqs, c.spec.puts[c.nextPut].put))),
                 nextPut := c.nextPut + 1))
    else w
  }

  function MaybeCommit(w: World, ts: Timestamp): World
    requires w.tx.participant.Some?
  {
    var c := w.tx;
    if && c.participant.value.reqs.completed == |c.spec.puts|
       && ts >= c.spec.earliestCommitTs && c.spec.action.CommitAction?
    then
      w.(tx := c.(phase := ProgressState(c.phase)),
         ids := w.ids.(lastMsg := w.ids.lastMsg + 1),
         out := w.out + [Message(c.actor, c.coordinator, w.ids.lastMsg + 1, Payload.Commit(c.txid))])
    else w
  }

  /** The decision, one message at a time. */
  function Decide(w: World, msgs: seq<Message>): World
  {
    if msgs == [] then w
    else
      var d, last := Decide(w, msgs[..|msgs| - 1]), msgs[|msgs| - 1];
      if d.threw then d
      else match last.payload
        case RolledBackByServer(_, conflict) => d.(tx := d.tx.(phase := RolledBack, conflictTxid := conflict))
        case CommitAck(_, ts) => d.(tx := d.tx.(commitTs := ts, phase := ProgressState(d.tx.phase)))
        case _ => d.(threw := true)
  }

  predicate IsDecision(m: Message) {
    m.payload.CommitAck? || m.payload.RolledBackByServer?
  }

  /** Waiting for the decision, a batch with any other message in it is an error, and no other batch is. */
  lemma {:induction false} DecideThrowsIff(w: World, msgs: seq<Message>)
    ensures Decide(w, msgs).threw <==> w.threw || exists m :: m in msgs && !IsDecision(m)
  {
    if msgs == [] {
    } else {
      var n := |msgs| - 1;
      assert msgs == msgs[..n] + [msgs[n]];
      DecideThrowsIff(w, msgs[..n]);
      assert msgs[n] in msgs && forall m :: m in msgs[..n] ==> m in msgs;
      assert forall m :: m in msgs ==> m in msgs[..n] || m == msgs[n];
    }
  }

  function Advance(w: World, ts: Timestamp, msgs: seq<Message>): World
  {
    var c := w.tx;
    match c.phase
    case NotStarted =>
      if msgs != [] then w.(threw := true)
      else if ts >= c.spec.earliestStartTs then StartTransaction(w) else w
    case StartSent =>
      if c.participant.None? then w.(threw := true)
      else if !c.participant.value.phase.TxOpen? then w
      else if c.participant.value.readTs == UNDEFINED_TS then w.(threw := true)
      else w.(tx := c.(readTs := c.participant.value.readTs, phase := ProgressState(c.phase)))
    case Open =>
      if c.participant.None? then w.(threw := true) else MaybeCommit(MaybeAddPut(w, ts), ts)
    case CommitSent => Decide(w, msgs)
    case Committed => w
    case RolledBack => w
  }

  function ScheduleAll(w: World): World {
    if w.tx.participant.None? then w
    else
      var p := w.tx.participant.value;
      var b := Scheduled(p, w.ids.lastMsg);
      w.(tx := w.tx.(participant := Some(p.(reqs := b.reqs))),
         ids := w.ids.(lastMsg := b.lastMsg),
         out := w.out + b.out)
  }

  /** One tick: replies go to the participant, then the state machine moves, then new requests are sent. */
  function Tick(c: State, ids: Ids, ts: Timestamp, msgs: seq<Message>): World
  {
    var received := Receive(World(c, ids, [], false), msgs);
    if received.threw then received
    else
      var advanced := Advance(received, ts, msgs);
      if advanced.threw then advanced else ScheduleAll(advanced)
  }

  /**
    Before START a tick sends START, and nothing else, exactly if its time is not before the earliest start of the spec;
    otherwise nothing changes. A message would be an error.
   */
  lemma StartsOnTime(c: State, ids: Ids, ts: Timestamp, msgs: seq<Message>)
    requires c.phase.NotStarted? && c.participant.None?
    ensures Tick(c, ids, ts, msgs).threw <==> msgs != []
    ensures msgs == [] ==>
              if ts < c.spec.earliestStartTs then Tick(c, ids, ts, msgs) == World(c, ids, [], false)
              else
                var w := Tick(c, ids, ts, msgs);
                && w.out == [Message(c.actor, c.server, ids.lastMsg + 1, Payload.Start(ids.lastTx + 1))]
                && w.ids == Ids(ids.lastMsg + 1, ids.lastTx + 1)
                && w.tx.phase.StartSent? && w.tx.txid == ids.lastTx + 1
  {}

  /** The acknowledged puts of the transaction, in spec order. */
  function ExportedPuts(c: State): seq<KeyValue> {
    if c.participant.None? then [] else Exported(c.participant.value.reqs.puts)
  }

  class ClientTx {
    const actor: ActorID
    const spec: TxSpec
    const server: ActorID
    const retrier: Retrier
    const generator: Generator
    var phase: ClientPhase
    var coordinator: ActorID
    var participant: TxParticipant?
    var txid: TxID
    var conflictTxid: TxID
    var readTs: Timestamp
    var commitTs: Timestamp
    var nextPut: nat

    ghost function Repr(): set<object>
      reads this
    {
      {this} + if participant == null then {} else {participant, participant.manager}
    }

    ghost predicate Valid()
      reads this, Repr()
    {
      participant != null ==>
        && participant.Valid()
        && participant.retrier == retrier && participant.generator == generator
        && participant.server == server
    }

    function View(): State
      requires Valid()
      reads this, Repr()
    {
      State(actor, spec, server, phase, coordinator, if participant == null then None else Some(participant.View()),
            txid, conflictTxid, readTs, commitTs, nextPut)
    }

    ghost function Sees(): World
      requires Valid()
      reads this, Repr(), retrier, generator
    {
      World(View(), generator.ids, retrier.scheduled, false)
    }

    constructor (actor: ActorID, spec: TxSpec, server: ActorID, retrier: Retrier, generator: Generator)
      ensures Valid() && View() == Initial(actor, spec, server) && fresh(Repr())
      ensures this.retrier == retrier && this.generator == generator
    {
      this.actor, this.spec, this.server, this.retrier, this.generator := actor, spec, server, retrier, generator;
      phase, coordinator, participant := ClientPhase.NotStarted, UNDEFINED_ACTOR_ID, null;
      txid, conflictTxid := UNDEFINED_TX_ID, UNDEFINED_TX_ID;
      readTs, commitTs, nextPut := UNDEFINED_TS, UNDEFINED_TS, 0;
    }

    method GroupReplies(msgs: seq<Message>) returns (repliesPerActor: map<ActorID, seq<Message>>)
      ensures forall a :: (if a in repliesPerActor then repliesPerActor[a] else []) == Replies(msgs, a)
    {
      hide Replies;
      NoReplies(msgs);
      repliesPerActor := map[];
      for i := 0 to |msgs|
        invariant forall a :: (if a in repliesPerActor then repliesPerActor[a] else []) == Replies(msgs[..i], a)
      {
        NextReply(msgs, i);
        var m := msgs[i];
        if m.payload.StartAck? || m.payload.PutReply? {
          var earlier := if m.source in repliesPerActor then repliesPerActor[m.source] else [];
          repliesPerActor := repliesPerActor[m.source := earlier + [m]];
        }
      }
      assert msgs[..|msgs|] == msgs;
    }

    /** Hands the participant the replies that come from its server. */
    method DeliverReplies(msgs: seq<Message>) returns (threw: bool)
      requires Valid()
      modifies Repr() - {this}
      ensures Valid() && threw == Receive(old(Sees()), msgs).threw
      ensures !threw ==> Sees() == Receive(old(Sees()), msgs)
    {
      var repliesPerActor := GroupReplies(msgs);
      threw := false;
      if participant != null {
        var own := if participant.server in repliesPerActor then repliesPerActor[participant.server] else [];
        threw := participant.ProcessIncoming(own);
      }
    }

    method ConfigureCoordinator()
      requires Valid()
      modifies this, retrier, generator
      ensures Valid() && fresh(Repr() - {this})
      ensures Sees() == StartTransaction(old(Sees())).(tx := StartTransaction(old(Sees())).tx.(phase := old(phase)))
    {
      coordinator := server;
      participant := new TxParticipant(actor, coordinator, retrier, generator);
      participant.ScheduleStart();
      txid := participant.txid;
    }

    method SendNextPut(ts: Timestamp)
      requires Valid() && participant != null
      modifies Repr()
      ensures Valid() && participant == old(participant) && Sees() == MaybeAddPut(old(Sees()), ts)
    {
      if nextPut < |spec.puts| && ts >= spec.puts[nextPut].earliestTs {
        participant.manager.Add(spec.puts[nextPut].put);
        nextPut := nextPut + 1;
      }
    }

    method SendCommit(ts: Timestamp)
      requires Valid() && participant != null
      modifies this, retrier, generator
      ensures Valid() && participant == old(participant) && Sees() == MaybeCommit(old(Sees()), ts)
    {
      if participant.manager.completed == |spec.puts| && ts >= spec.earliestCommitTs && spec.action.CommitAction? {
        var msgId := generator.NextMsgId();
        var _ := retrier.Schedule(Message(actor, coordinator, msgId, Payload.Commit(txid)));
        phase := ProgressState(phase);
      }
    }

    method ProcessRepliesCommitSent(msgs: seq<Message>) returns (threw: bool)
      requires Valid()
      modifies this
      ensures Valid() && participant == old(participant) && threw == Decide(old(Sees()), msgs).threw
      ensures !threw ==> Sees() == Decide(old(Sees()), msgs)
    {
      for i := 0 to |msgs|
        invariant participant == old(participant) && Valid() && Sees() == Decide(old(Sees()), msgs[..i])
      {
        assert msgs[..i + 1][..i] == msgs[..i];
        match msgs[i].payload {
          case RolledBackByServer(_, conflict) =>
            phase := ClientPhase.RolledBack;
            conflictTxid := conflict;
          case CommitAck(_, ts) =>
            commitTs := ts;
            phase := ProgressState(phase);
          case _ =>
            DecideThrew(old(Sees()), msgs, i + 1);
            return true;
        }
      }
      assert msgs[..|msgs|] == msgs;
      threw := false;
    }

    method Move(ts: Timestamp, msgs: seq<Message>) returns (threw: bool)
      requires Valid()
      modifies Repr(), retrier, generator
      ensures Valid() && fresh(Repr() - old(Repr()))
      ensures threw == Advance(old(Sees()), ts, msgs).threw
      ensures !threw ==> Sees() == Advance(old(Sees()), ts, msgs)
    {
      threw := false;
      match phase {
        case NotStarted =>
          if msgs != [] {
            return true;
          }
          if ts >= spec.earliestStartTs {
            ConfigureCoordinator();
            phase := ProgressState(phase);
          }
        case StartSent =>
          if participant == null {
            return true;
          }
          if participant.phase == Participants.Phase.TxOpen {
            if participant.readTs == UNDEFINED_TS {
              return true;
            }
            readTs := participant.readTs;
            phase := ProgressState(phase);
          }
        case Open =>
          if participant == null {
            return true;
          }
          SendNextPut(ts);
          SendCommit(ts);
        case CommitSent =>
          threw := ProcessRepliesCommitSent(msgs);
        case _ =>
      }
    }

    /** One tick; everything scheduled moves to the end of `scheduled`. */
    method DoTick(ts: Timestamp, msgs: seq<Message>, scheduled: seq<Message>) returns (r: seq<Message>, threw: bool)
      requires Valid() && retrier.scheduled == []
      modifies Repr(), retrier, generator
      ensures Valid() && fresh(Repr() - old(Repr()))
      ensures var w := Tick(old(View()), old(generator.ids), ts, msgs);
              && threw == w.threw
              && (!threw ==> && View() == w.tx && generator.ids == w.ids
                             && r == scheduled + w.out && retrier.scheduled == [])
    {
      r := scheduled;
      threw := DeliverReplies(msgs);
      if threw {
        return;
      }
      threw := Move(ts, msgs);
      if threw {
        return;
      }
      if participant != null {
        participant.ScheduleRequests();
      }
      r := retrier.GetScheduled(scheduled);
    }

    method ExportResults() returns (puts: seq<KeyValue>)
      requires Valid()
      ensures puts == ExportedPuts(View())
    {
      puts := [];
      if participant != null {
        puts := participant.manager.ExportResults(puts);
      }
    }
  }

  lemma {:induction false} DecideThrew(w: World, msgs: seq<Message>, i: nat)
    requires i <= |msgs| && Decide(w, msgs[..i]).threw
    ensures Decide(w, msgs).threw
    decreases |msgs|
  {
    if i < |msgs| {
      assert msgs[..|msgs| - 1][..i] == msgs[..i];
      DecideThrew(w, msgs[..|msgs| - 1], i);
    } else {
      assert msgs[..i] == msgs;
    }
  }
}
