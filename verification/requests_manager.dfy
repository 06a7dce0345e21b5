/** Accounting of the puts a client transaction has asked for, sent and seen acknowledged. */
module PutRequests {
  import opened TxTypes

  datatype Status = NotStarted | Started | Completed

  datatype Request = Request(status: Status, put: KeyValue)

  /** `next` is the first request not sent yet; `scheduled` maps the id of each sent PUT to its request. */
  datatype Requests = Requests(puts: seq<Request>, next: nat, completed: nat, scheduled: map<MsgID, nat>)

  const EMPTY := Requests([], 0, 0, map[])

  function AddPut(r: Requests, put: KeyValue): Requests {
    r.(puts := r.puts + [Request(NotStarted, put)])
  }

  /** The id belongs to a PUT that was sent and not acknowledged. */
  predicate IsOutstanding(r: Requests, id: MsgID) {
    id in r.scheduled && r.scheduled[id] < |r.puts| && r.puts[r.scheduled[id]].status == Started
  }

  function CompleteRequest(r: Requests, id: MsgID): Requests {
    if IsOutstanding(r, id) then
      var j := r.scheduled[id];
      r.(puts := r.puts[j := r.puts[j].(status := Completed)], completed := r.completed + 1)
    else r
  }

  /** Requests together with the id counter and the messages scheduled so far. */
  datatype Batch = Batch(reqs: Requests, lastMsg: MsgID, out: seq<Message>)

  function PrepareOne(b: Batch, client: ActorID, server: ActorID, txid: TxID): Batch
    requires b.reqs.next < |b.reqs.puts|
  {
    var r := b.reqs;
    var id := b.lastMsg + 1;
    Batch(
      Requests(r.puts[r.next := r.puts[r.next].(status := Started)], r.next + 1, r.completed,
               r.scheduled[id := r.next]),
      id,
      b.out + [Message(client, server, id, Payload.Put(txid, r.puts[r.next].put))])
  }

  function Prepare(b: Batch, client: ActorID, server: ActorID, txid: TxID): Batch
    decreases |b.reqs.puts| - b.reqs.next
  {
    if |b.reqs.puts| <= b.reqs.next then b
    else Prepare(PrepareOne(b, client, server, txid), client, server, txid)
  }

  /** The acknowledged puts, in the order they were asked for. */
  function Exported(puts: seq<Request>): seq<KeyValue> {
    if puts == [] then []
    else
      var last := puts[|puts| - 1];
      Exported(puts[..|puts| - 1]) + if last.status == Completed then [last.put] else []
  }

  // --- What is exported and what is sent ---

  ghost function AcknowledgedAt(puts: seq<Request>): set<nat> {
    set k: nat | k < |puts| && puts[k].status == Completed
  }

  lemma AcknowledgedNext(puts: seq<Request>)
    requires puts != []
    ensures var n := |puts| - 1;
            AcknowledgedAt(puts) == AcknowledgedAt(puts[..n]) + if puts[n].status == Completed then {n as nat} else {}
  {}

  /** The export has the put of each acknowledged position, of no other one, in the order they were asked for. */
  lemma {:induction false} ExportedPositions(puts: seq<Request>) returns (idx: seq<nat>)
    ensures Lists(idx, AcknowledgedAt(puts)) && |Exported(puts)| == |idx|
    ensures forall i :: 0 <= i < |idx| ==> idx[i] < |puts| && Exported(puts)[i] == puts[idx[i]].put
  {
    if puts == [] {
      idx := [];
    } else {
      var n := |puts| - 1;
      idx := ExportedPositions(puts[..n]);
      AcknowledgedNext(puts);
      if puts[n].status == Completed {
        assert forall k :: k in AcknowledgedAt(puts[..n]) ==> k < n;
        hide AcknowledgedAt, Lists;
        ListsNext(idx, AcknowledgedAt(puts[..n]), n);
        idx := idx + [n];
      }
    }
  }

  /** One PUT for each pending request, in order, with the next ids, and every request counts as sent. */
  lemma {:induction false} PrepareSends(b: Batch, client: ActorID, server: ActorID, txid: TxID)
    requires b.reqs.next <= |b.reqs.puts|
    ensures var s, first, sent := Prepare(b, client, server, txid), b.reqs.next, |b.out|;
            && |s.out| == sent + |b.reqs.puts| - first && s.out[..sent] == b.out
            && s.lastMsg == b.lastMsg + |b.reqs.puts| - first
            && forall i :: sent <= i < |s.out| ==>
                 s.out[i] == Message(client, server, b.lastMsg + 1 + i - sent,
                                     Payload.Put(txid, b.reqs.puts[first + i - sent].put))
    ensures var s := Prepare(b, client, server, txid);
            && |s.reqs.puts| == |b.reqs.puts| && s.reqs.completed == b.reqs.completed
            && forall j :: 0 <= j < |s.reqs.puts| ==>
                 s.reqs.puts[j]
                 == if j < b.reqs.next then b.reqs.puts[j] else Request(Started, b.reqs.puts[j].put)
    decreases |b.reqs.puts| - b.reqs.next
  {
    if |b.reqs.puts| <= b.reqs.next {
    } else {
      var c := PrepareOne(b, client, server, txid);
      PrepareSends(c, client, server, txid);
      var s := Prepare(b, client, server, txid);
      assert c.out == b.out + [c.out[|b.out|]];
      assert s.out[..|b.out|] == s.out[..|c.out|][..|b.out|];
      assert s.out[|b.out|] == s.out[..|c.out|][|b.out|];
    }
  }

  /** Each new id leads to the request that its PUT was sent for, and older ids lead where they did. */
  lemma {:induction false} PrepareIndexes(b: Batch, client: ActorID, server: ActorID, txid: TxID)
    requires b.reqs.next <= |b.reqs.puts|
    ensures var s, first := Prepare(b, client, server, txid), b.reqs.next;
            && (forall id :: id in s.reqs.scheduled <==>
                  id in b.reqs.scheduled || b.lastMsg < id <= b.lastMsg + |b.reqs.puts| - first)
            && forall id :: id in s.reqs.scheduled ==>
                 s.reqs.scheduled[id]
                 == if b.lastMsg < id <= b.lastMsg + |b.reqs.puts| - first then first + id - b.lastMsg - 1
                    else b.reqs.scheduled[id]
    decreases |b.reqs.puts| - b.reqs.next
  {
    if |b.reqs.puts| <= b.reqs.next {
    } else {
      var c := PrepareOne(b, client, server, txid);
      PrepareIndexes(c, client, server, txid);
      var s := Prepare(b, client, server, txid);
      assert s == Prepare(c, client, server, txid);
      forall id | id in c.reqs.scheduled
        ensures id in b.reqs.scheduled || id == b.lastMsg + 1
        ensures c.reqs.scheduled[id] == if id == b.lastMsg + 1 then b.reqs.next else b.reqs.scheduled[id]
      {}
    }
  }

  // --- The accounting every operation keeps ---

  /** Ids lead one to one to the sent requests. */
  ghost predicate Indexed(scheduled: map<MsgID, nat>, next: nat) {
    && (forall id :: id in scheduled ==> scheduled[id] < next)
    && (forall a, b :: a in scheduled && b in scheduled && scheduled[a] == scheduled[b] ==> a == b)
    && (forall j: nat :: j < next ==> HasId(scheduled, j))
  }

  ghost predicate HasId(scheduled: map<MsgID, nat>, j: nat) {
    exists id :: id in scheduled && scheduled[id] == j
  }

  ghost predicate SentInOrder(puts: seq<Request>, next: nat) {
    && next <= |puts|
    && forall j :: 0 <= j < |puts| ==> (puts[j].status == NotStarted <==> next <= j)
  }

  ghost predicate Accounting(r: Requests) {
    && r.completed == |Exported(r.puts)|
    && SentInOrder(r.puts, r.next)
    && Indexed(r.scheduled, r.next)
  }

  lemma AddPutKeepsAccounting(r: Requests, put: KeyValue)
    requires Accounting(r)
    ensures Accounting(AddPut(r, put)) && AddPut(r, put).completed == r.completed
  {}

  /** Marking one request changes the number of acknowledged ones by what its own status changes. */
  lemma {:induction false} ExportedAfterUpdate(puts: seq<Request>, j: nat, q: Request)
    requires j < |puts|
    ensures |Exported(puts[j := q])| + (if puts[j].status == Completed then 1 else 0)
         == |Exported(puts)| + (if q.status == Completed then 1 else 0)
  {
    var n := |puts| - 1;
    if j == n {
      assert puts[j := q][..n] == puts[..n];
    } else {
      assert puts[j := q][..n] == puts[..n][j := q];
      ExportedAfterUpdate(puts[..n], j, q);
    }
  }

  /** A reply counts once: the first reply to a sent put raises the count, any other reply changes nothing. */
  lemma CompleteRequestKeepsAccounting(r: Requests, id: MsgID)
    requires Accounting(r)
    ensures Accounting(CompleteRequest(r, id))
    ensures CompleteRequest(r, id).completed == r.completed + (if IsOutstanding(r, id) then 1 else 0)
    ensures !IsOutstanding(CompleteRequest(r, id), id)
  {
    if IsOutstanding(r, id) {
      var j := r.scheduled[id];
      ExportedAfterUpdate(r.puts, j, r.puts[j].(status := Completed));
    }
  }

  lemma IndexedAfterSend(scheduled: map<MsgID, nat>, next: nat, id: MsgID)
    requires Indexed(scheduled, next) && id !in scheduled
    ensures Indexed(scheduled[id := next], next + 1)
  {
    var s := scheduled[id := next];
    forall j: nat | j < next + 1 ensures HasId(s, j) {
      if j < next {
        assert HasId(scheduled, j);
        var earlier :| earlier in scheduled && scheduled[earlier] == j;
        assert earlier in s && s[earlier] == j;
      } else {
        assert id in s && s[id] == j;
      }
    }
  }

  /** Sending everything pending keeps the accounting, because message ids are never reused. */
  lemma {:induction false} PrepareKeepsAccounting(b: Batch, client: ActorID, server: ActorID, txid: TxID)
    requires Accounting(b.reqs)
    requires forall id :: id in b.reqs.scheduled ==> id <= b.lastMsg
    ensures var s := Prepare(b, client, server, txid);
            && Accounting(s.reqs) && s.reqs.completed == b.reqs.completed
            && s.reqs.next == |s.reqs.puts| == |b.reqs.puts|
    decreases |b.reqs.puts| - b.reqs.next
  {
    if b.reqs.next < |b.reqs.puts| {
      var r, c := b.reqs, PrepareOne(b, client, server, txid);
      ExportedAfterUpdate(r.puts, r.next, c.reqs.puts[r.next]);
      IndexedAfterSend(r.scheduled, r.next, b.lastMsg + 1);
      PrepareKeepsAccounting(c, client, server, txid);
    }
  }

  /** The accounting survives a send exactly when the id is new: a reused one overwrites an earlier put's entry. */
  lemma SendKeepsIndexIffIdIsFresh(scheduled: map<MsgID, nat>, next: nat, id: MsgID)
    requires Indexed(scheduled, next)
    ensures Indexed(scheduled[id := next], next + 1) <==> id !in scheduled
  {
    if id in scheduled {
      var j := scheduled[id];
      assert !HasId(scheduled[id := next], j);
    } else {
      IndexedAfterSend(scheduled, next, id);
    }
  }

  class RequestsManager {
    var puts: seq<Request>
    var next: nat
    var completed: nat
    var scheduled: map<MsgID, nat>

    ghost predicate Valid() reads this {
      next <= |puts| && forall id :: id in scheduled ==> scheduled[id] < next
    }

    function View(): Requests
      requires Valid()
      reads this
    {
      Requests(puts, next, completed, scheduled)
    }

    constructor ()
      ensures Valid() && View() == EMPTY
    {
      puts, next, completed, scheduled := [], 0, 0, map[];
    }

    method Add(put: KeyValue)
      requires Valid()
      modifies this
      ensures Valid() && View() == AddPut(old(View()), put)
    {
      puts := puts + [Request(NotStarted, put)];
    }

    method Complete(id: MsgID)
      requires Valid()
      modifies this
      ensures Valid() && View() == CompleteRequest(old(View()), id)
    {
      if id in scheduled {
        var j := scheduled[id];
        if puts[j].status == Started {
          puts := puts[j := puts[j].(status := Completed)];
          completed := completed + 1;
        }
      }
    }

    /** Schedules a PUT for every request not sent yet; returns the messages in that order. */
    method PrepareMessages(client: ActorID, server: ActorID, txid: TxID, generator: Generator)
      returns (out: seq<Message>)
      requires Valid()
      modifies this, generator
      ensures Valid()
      ensures Batch(View(), generator.ids.lastMsg, out)
           == Prepare(Batch(old(View()), old(generator.ids.lastMsg), []), client, server, txid)
      ensures generator.ids.lastTx == old(generator.ids.lastTx)
    {
      out := [];
      while next < |puts|
        invariant Valid()
        invariant Prepare(Batch(View(), generator.ids.lastMsg, out), client, server, txid)
               == Prepare(Batch(old(View()), old(generator.ids.lastMsg), []), client, server, txid)
        invariant generator.ids.lastTx == old(generator.ids.lastTx)
        decreases |puts| - next
      {
        ghost var before := Batch(View(), generator.ids.lastMsg, out);
        puts := puts[next := puts[next].(status := Started)];
        var id := generator.NextMsgId();
        out := out + [Message(client, server, id, Payload.Put(txid, puts[next].put))];
        scheduled := scheduled[id := next];
        next := next + 1;
        assert Batch(View(), generator.ids.lastMsg, out) == PrepareOne(before, client, server, txid);
      }
    }

    method ExportResults(exported: seq<KeyValue>) returns (r: seq<KeyValue>)
      ensures r == exported + Exported(puts)
    {
      r := exported;
      for i := 0 to |puts|
        invariant r == exported + Exported(puts[..i])
      {
        assert puts[..i + 1][..i] == puts[..i];
        if puts[i].status != Completed {
          continue;
        }
        r := r + [puts[i].put];
      }
      assert puts[..|puts|] == puts;
    }
  }
}
