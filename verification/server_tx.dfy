/** One transaction on the server: collects puts, then commits them or rolls back. */
module ServerTransaction {
  import opened TxTypes
  import opened VersionStore
  import opened Outbox

  datatype Phase = NotStarted | Open | Committed | RolledBack

  datatype State = State(phase: Phase, txid: TxID, readTs: Timestamp, commitTs: Timestamp, puts: seq<KeyValue>)

  const FRESH := State(NotStarted, UNDEFINED_TX_ID, UNDEFINED_TS, UNDEFINED_TS, [])

  /** What handling a message reads and changes; `out` is what it schedules. */
  datatype World = World(tx: State, data: Data, lastMsg: MsgID, out: seq<Message>, threw: bool)
  {
    function Send(m: Message): World
    {
      this.(out := out + [m.(msgId := lastMsg + 1)], lastMsg := lastMsg + 1)
    }
  }

  /** The tag of the newest version, if it is newer than `readTs`. */
  function ConflictOn(data: Data, k: Key, readTs: Timestamp): Option<TxID> {
    var last := GetLast(data, k);
    if last.Some? && last.value.ts > readTs then Some(last.value.txid) else None
  }

  function FirstConflict(data: Data, puts: seq<KeyValue>, readTs: Timestamp): Option<TxID>
  {
    if puts == [] then None
    else
      var c := ConflictOn(data, puts[0].key, readTs);
      if c.Some? then c else FirstConflict(data, puts[1..], readTs)
  }

  /** The `i`-th put is the first one with a version newer than `readTs`, and `v` is the newest version of its key. */
  ghost predicate FirstNewer(data: Data, puts: seq<KeyValue>, readTs: Timestamp, i: nat, v: Version) {
    && i < |puts| && Newest(data, puts[i].key, v) && readTs < v.ts
    && forall j, u :: 0 <= j < i && u in HistoryOf(data, puts[j].key) ==> u.ts <= readTs
  }

  function ApplyAll(data: Data, txid: TxID, ts: Timestamp, puts: seq<KeyValue>): Data
  {
    if puts == [] then data
    else
      var last := puts[|puts| - 1];
      Apply(ApplyAll(data, txid, ts, puts[..|puts| - 1]), last.key, Version(ts, txid, last.value))
  }

  function HandleCommit(w: World, ts: Timestamp, m: Message): World
  {
    match FirstConflict(w.data, w.tx.puts, w.tx.readTs)
    case Some(conflict) =>
      w.(tx := w.tx.(phase := RolledBack, commitTs := ts))
      .Send(Message(m.destination, m.source, 0, Payload.RolledBackByServer(w.tx.txid, conflict)))
    case None =>
      w.(tx := w.tx.(phase := Committed, commitTs := ts), data := ApplyAll(w.data, w.tx.txid, ts, w.tx.puts))
      .Send(Message(m.destination, m.source, 0, Payload.CommitAck(w.tx.txid, ts)))
  }

  function Handle(w: World, ts: Timestamp, m: Message): World
  {
    if w.threw then w
    else match w.tx.phase
      case NotStarted =>
        if m.payload.Start? then
          if w.tx.readTs != UNDEFINED_TS then w.(threw := true)
          else
            w.(tx := w.tx.(phase := Open, readTs := ts, txid := m.payload.txid))
            .Send(Message(m.destination, m.source, 0, Payload.StartAck(m.payload.txid, ts)))
        else w
      case Open =>
        (match m.payload
         case Put(_, put) =>
           w.(tx := w.tx.(puts := w.tx.puts + [put]))
           .Send(Message(m.destination, m.source, 0, Payload.PutReply(w.tx.txid, m.msgId)))
         case Commit(_) => HandleCommit(w, ts, m)
         case _ => w)
      case Committed => w.(threw := true)
      case RolledBack => w.(threw := true)
  }

  /** One tick: every message of the batch in turn, at the same timestamp. */
  function HandleAll(w: World, ts: Timestamp, msgs: seq<Message>): World
  {
    if msgs == [] then w
    else Handle(HandleAll(w, ts, msgs[..|msgs| - 1]), ts, msgs[|msgs| - 1])
  }

  class ServerTx {
    const storage: Storage
    const retrier: Retrier
    const generator: Generator
    var phase: Phase
    var txid: TxID
    var readTs: Timestamp
    var commitTs: Timestamp
    var puts: seq<KeyValue>

    function View(): State reads this { State(phase, txid, readTs, commitTs, puts) }

    ghost function Sees(): World
      reads this, storage, retrier, generator
    {
      World(View(), storage.data, generator.ids.lastMsg, retrier.scheduled, false)
    }

    constructor (storage: Storage, retrier: Retrier, generator: Generator)
      ensures View() == FRESH
      ensures this.storage == storage && this.retrier == retrier && this.generator == generator
    {
      this.storage, this.retrier, this.generator := storage, retrier, generator;
      phase, txid, readTs, commitTs, puts := NotStarted, UNDEFINED_TX_ID, UNDEFINED_TS, UNDEFINED_TS, [];
    }

    method ProcessNotStarted(ts: Timestamp, m: Message) returns (threw: bool)
      requires phase == NotStarted
      modifies this, storage, retrier, generator
      ensures Sees().(threw := threw) == Handle(old(Sees()), ts, m)
      ensures !m.payload.Start? ==> !threw && Sees() == old(Sees())
      ensures generator.ids.lastTx == old(generator.ids.lastTx)
    {
      threw := false;
      match m.payload {
        case Start(id) =>
          if readTs != UNDEFINED_TS {
            return true;
          }
          readTs := ts;
          txid := id;
          var msgId := generator.NextMsgId();
          var _ := retrier.Schedule(Message(m.destination, m.source, msgId, Payload.StartAck(txid, readTs)));
          phase := Open;
        case _ =>
      }
    }

    method FindConflict() returns (conflict: Option<TxID>)
      ensures conflict == FirstConflict(storage.data, puts, readTs)
      ensures conflict.None? ==>
        forall j, u :: 0 <= j < |puts| && u in HistoryOf(storage.data, puts[j].key) ==> u.ts <= readTs
      ensures conflict.Some? ==>
        exists i: nat, v :: FirstNewer(storage.data, puts, readTs, i, v) && v.txid == conflict.value
    {
      conflict := None;
      for i := 0 to |puts|
        invariant FirstConflict(storage.data, puts, readTs) == FirstConflict(storage.data, puts[i..], readTs)
        invariant forall j, u :: 0 <= j < i && u in HistoryOf(storage.data, puts[j].key) ==> u.ts <= readTs
      {
        var p := storage.GetLastVersion(puts[i].key);
        if p.None? {
          continue;
        }
        if p.value.ts > readTs {
          assert FirstNewer(storage.data, puts, readTs, i, p.value);
          return Some(p.value.txid);
        }
      }
    }

    method InstallPuts()
      modifies storage
      ensures storage.data == ApplyAll(old(storage.data), txid, commitTs, puts)
    {
      for i := 0 to |puts|
        invariant storage.data == ApplyAll(old(storage.data), txid, commitTs, puts[..i])
      {
        assert puts[..i + 1][..i] == puts[..i];
        storage.ApplyPut(txid, commitTs, puts[i]);
      }
      assert puts[..|puts|] == puts;
    }

    method ProcessOpen(ts: Timestamp, m: Message)
      requires phase == Open
      modifies this, storage, retrier, generator
      ensures Sees() == Handle(old(Sees()), ts, m)
      ensures !m.payload.Put? && !m.payload.Commit? ==> Sees() == old(Sees())
      ensures generator.ids.lastTx == old(generator.ids.lastTx)
    {
      hide FirstConflict, ApplyAll;
      match m.payload {
        case Put(_, put) =>
          puts := puts + [put];
          var msgId := generator.NextMsgId();
          retrier.SendOnce(Message(m.destination, m.source, msgId, Payload.PutReply(txid, m.msgId)));
        case Commit(_) =>
          commitTs := ts;
          var conflict := FindConflict();
          if conflict.Some? {
            phase := RolledBack;
            var msgId := generator.NextMsgId();
            var _ := retrier.Schedule(
              Message(m.destination, m.source, msgId, Payload.RolledBackByServer(txid, conflict.value)));
          } else {
            phase := Committed;
            InstallPuts();
            var msgId := generator.NextMsgId();
            var _ := retrier.Schedule(Message(m.destination, m.source, msgId, Payload.CommitAck(txid, commitTs)));
          }
        case _ =>
      }
    }

    /** Handles a batch, then moves everything scheduled so far to `scheduled`. */
    method Tick(ts: Timestamp, msgs: seq<Message>, scheduled: seq<Message>)
      returns (r: seq<Message>, threw: bool)
      modifies this, storage, retrier, generator
      ensures var w := HandleAll(old(Sees()), ts, msgs);
              && threw == w.threw
              && (!threw ==> View() == w.tx && storage.data == w.data && generator.ids.lastMsg == w.lastMsg
                             && r == scheduled + w.out && retrier.scheduled == [])
      ensures generator.ids.lastTx == old(generator.ids.lastTx)
    {
      r, threw := scheduled, false;
      for i := 0 to |msgs|
        invariant Sees() == HandleAll(old(Sees()), ts, msgs[..i])
        invariant generator.ids.lastTx == old(generator.ids.lastTx)
      {
        assert msgs[..i + 1][..i] == msgs[..i];
        match phase {
          case NotStarted =>
            threw := ProcessNotStarted(ts, msgs[i]);
          case Open =>
            ProcessOpen(ts, msgs[i]);
          case _ =>
            threw := true;
        }
        if threw {
          ThrewStays(old(Sees()), ts, msgs, i + 1);
          return;
        }
      }
      assert msgs[..|msgs|] == msgs;
      r := retrier.GetScheduled(scheduled);
    }
  }

  /** A batch for a record that is decided throws and changes nothing else. */
  lemma {:induction false} LateMessagesThrow(w: World, ts: Timestamp, msgs: seq<Message>)
    requires w.tx.phase.Committed? || w.tx.phase.RolledBack?
    ensures HandleAll(w, ts, msgs) == w.(threw := w.threw || msgs != [])
  {
    if msgs == [] {
    } else {
      LateMessagesThrow(w, ts, msgs[..|msgs| - 1]);
    }
  }

  /** An exception ends the tick: the rest of the batch changes nothing. */
  lemma {:induction false} ThrewStays(w: World, ts: Timestamp, msgs: seq<Message>, i: nat)
    requires i <= |msgs| && HandleAll(w, ts, msgs[..i]).threw
    ensures HandleAll(w, ts, msgs).threw
    decreases |msgs|
  {
    if i < |msgs| {
      assert msgs[..|msgs| - 1][..i] == msgs[..i];
      ThrewStays(w, ts, msgs[..|msgs| - 1], i);
    } else {
      assert msgs[..i] == msgs;
    }
  }
}
