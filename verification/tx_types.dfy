/** Identifiers, payloads and messages shared by clients, server and runtime. */
module TxTypes {
  type ActorID = int
  type TxID = int
  type Timestamp = int
  type MsgID = int
  type Key = int
  type Value = int

  const UNDEFINED_TX_ID: TxID := -1
  const UNDEFINED_ACTOR_ID: ActorID := -1
  const UNDEFINED_TS: Timestamp := -1

  datatype Option<+T> = None | Some(value: T)

  datatype KeyValue = KeyValue(key: Key, value: Value)

  datatype Payload =
    | Undefined
    | Start(txid: TxID)
    | StartAck(txid: TxID, readTs: Timestamp)
    | Put(txid: TxID, put: KeyValue)
    | PutReply(txid: TxID, originalId: MsgID)
    | Commit(txid: TxID)
    | CommitAck(txid: TxID, commitTs: Timestamp)
    | RolledBackByServer(txid: TxID, conflictTxid: TxID)

  datatype Message = Message(source: ActorID, destination: ActorID, msgId: MsgID, payload: Payload)
  {
    function Txid(): TxID {
      if payload.Undefined? then UNDEFINED_TX_ID else payload.txid
    }
  }

  /** The last identifiers handed out; the next ones are one larger. */
  datatype Ids = Ids(lastMsg: MsgID, lastTx: TxID)

  const INITIAL_IDS := Ids(0, 1000)

  /** The counters are shared by the whole process and never reset: a later runtime starts from larger ones. */
  predicate CountedUp(ids: Ids) {
    ids.lastTx >= INITIAL_IDS.lastTx
  }

  /** `idx` lists the chosen positions, all of them and in increasing order. */
  ghost predicate Lists(idx: seq<nat>, chosen: set<nat>) {
    && (forall i, j :: 0 <= i < j < |idx| ==> idx[i] < idx[j])
    && (forall i :: 0 <= i < |idx| ==> idx[i] in chosen)
    && forall k :: k in chosen ==> k in idx
  }

  lemma ListsNext(idx: seq<nat>, chosen: set<nat>, n: nat)
    requires Lists(idx, chosen) && forall k :: k in chosen ==> k < n
    ensures Lists(idx + [n], chosen + {n})
  {
    assert (idx + [n])[|idx|] == n;
    forall k | k in chosen ensures k in idx + [n] {
      assert k in idx;
    }
  }

  /** The process-wide counters behind every `CreateMsg*` function. */
  class Generator {
    var ids: Ids

    constructor ()
      ensures ids == INITIAL_IDS && CountedUp(ids)
    {
      ids := INITIAL_IDS;
    }

    method NextMsgId() returns (id: MsgID)
      modifies this
      ensures id == old(ids).lastMsg + 1
      ensures ids == old(ids).(lastMsg := id)
    {
      ids := ids.(lastMsg := ids.lastMsg + 1);
      id := ids.lastMsg;
    }

    method NextTxId() returns (id: TxID)
      modifies this
      ensures id == old(ids).lastTx + 1
      ensures ids == old(ids).(lastTx := id)
    {
      ids := ids.(lastTx := ids.lastTx + 1);
      id := ids.lastTx;
    }
  }

  /** The logical clock all actors share. */
  class Clock {
    var now: Timestamp

    constructor ()
      ensures now == 0
    {
      now := 0;
    }

    method Next() returns (ts: Timestamp)
      modifies this
      ensures now == old(now) + 1 && ts == now
    {
      now := now + 1;
      ts := now;
    }
  }
}
