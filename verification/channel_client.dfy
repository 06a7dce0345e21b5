/** The client's side of a channel: a tick with any batch of replies keeps the invariant and never throws. */
module ChannelClient {
  import opened TxTypes
  import opened PutRequests
  import opened Participants
  import Client = ClientTransaction
  import opened Protocol
  import opened Channel

  // --- Replies reach the participant ---

  lemma {:induction false} RepliesAll(msgs: seq<Message>, server: ActorID)
    requires forall m :: m in msgs ==> Client.IsReplyFrom(m, server)
    ensures Client.Replies(msgs, server) == msgs
  {
    if msgs == [] {
    } else {
      RepliesAll(msgs[..|msgs| - 1], server);
    }
  }

  lemma {:induction false} RepliesNone(msgs: seq<Message>, server: ActorID)
    requires forall m :: m in msgs ==> !Client.IsReplyFrom(m, server)
    ensures Client.Replies(msgs, server) == []
  {
    if msgs == [] {
    } else {
      RepliesNone(msgs[..|msgs| - 1], server);
    }
  }

  // --- Acknowledgements ---

  ghost function WithRequests(l: Local, r: Requests, ch: set<Message>): Local
    requires l.c.participant.Some?
  {
    Local(l.c.(participant := Some(l.P().(reqs := r))), l.srv, ch)
  }

  ghost predicate Tracked(l: Local, arrived: seq<MsgID>) {
    && Linked(l)
    && Accounting(l.R())
    && l.R().next == |l.R().puts|
    && Flow(l, arrived)
  }

  lemma FromServerIsReply(l: Local, arrived: seq<MsgID>, m: Message)
    requires Tracked(l, arrived) && m in l.ch && m.destination == l.c.actor != l.c.server
    ensures IsReplyOf(l, m) && m.payload.originalId in arrived
    ensures StatusOf(l.R(), m.payload.originalId) == Started
  {}

  /** A reply leaves the network and its put becomes acknowledged. */
  lemma AcknowledgeOne(l: Local, arrived: seq<MsgID>, m: Message)
    requires Tracked(l, arrived) && m in l.ch && m.destination == l.c.actor != l.c.server
    ensures m.payload.PutReply?
    ensures Tracked(WithRequests(l, CompleteRequest(l.R(), m.payload.originalId), l.ch - {m}), arrived)
  {
    FromServerIsReply(l, arrived, m);
    var id := m.payload.originalId;
    var r := CompleteRequest(l.R(), id);
    CompleteRequestKeepsAccounting(l.R(), id);
    AcknowledgedFlow(l, arrived, m, r);
  }

  lemma AcknowledgedFlow(l: Local, arrived: seq<MsgID>, m: Message, r: Requests)
    requires Linked(l) && Indexed(l.R().scheduled, |l.R().puts|) && Flow(l, arrived)
    requires m in l.ch && IsReplyOf(l, m) && m.payload.originalId in arrived
    requires StatusOf(l.R(), m.payload.originalId) == Started
    requires r == CompleteRequest(l.R(), m.payload.originalId)
    ensures Flow(WithRequests(l, r, l.ch - {m}), arrived)
  {
    var id := m.payload.originalId;
    var k := WithRequests(l, r, l.ch - {m});
    forall other | other in r.scheduled
      ensures PutOf(r, other) == PutOf(l.R(), other)
      ensures StatusOf(r, other) == if other == id then Completed else StatusOf(l.R(), other)
    {}
    forall other | other in r.scheduled ensures PutTracked(k, arrived, other) {
      assert PutTracked(l, arrived, other);
      if other in arrived && StatusOf(r, other) == Started {
        var n :| n in l.ch && n.payload.PutReply? && n.payload.originalId == other;
        assert n in k.ch;
      }
    }
    forall n | n in k.ch ensures MessageTracked(k, arrived, n) {
      assert MessageTracked(l, arrived, n);
    }
  }

  lemma {:induction false} AcknowledgeBatch(l: Local, arrived: seq<MsgID>, msgs: seq<Message>)
    requires Tracked(l, arrived) && l.c.actor != l.c.server
    requires InFlight(l.ch, msgs, l.c.actor, l.c.txid)
    ensures Tracked(WithRequests(l, Acknowledged(l.R(), msgs), l.ch - Elements(msgs)), arrived)
    ensures |Acknowledged(l.R(), msgs).puts| == |l.R().puts|
    ensures Acknowledged(l.R(), msgs).scheduled == l.R().scheduled
    ensures forall j :: 0 <= j < |l.R().puts| ==> Acknowledged(l.R(), msgs).puts[j].put == l.R().puts[j].put
  {
    hide Accounting, Flow;
    if msgs == [] {
      assert WithRequests(l, Acknowledged(l.R(), msgs), l.ch - Elements(msgs)) == l;
      return;
    }
    var n := |msgs| - 1;
    var front, m := msgs[..n], msgs[n];
    AcknowledgeBatch(l, arrived, front);
    var k := WithRequests(l, Acknowledged(l.R(), front), l.ch - Elements(front));
    assert m in k.ch;
    AcknowledgeOne(k, arrived, m);
    assert msgs == front + [m];
    assert l.ch - Elements(front) - {m} == l.ch - Elements(msgs);
  }

  // --- The barrier ---

  /** The counter reaches the number of puts exactly when every put is acknowledged. */
  lemma {:induction false} AllExported(puts: seq<Request>)
    ensures |Exported(puts)| <= |puts|
    ensures |Exported(puts)| == |puts| <==> forall j :: 0 <= j < |puts| ==> puts[j].status == Completed
    ensures |Exported(puts)| == |puts| ==> forall j :: 0 <= j < |puts| ==> Exported(puts)[j] == puts[j].put
  {
    if puts == [] {
    } else {
      AllExported(puts[..|puts| - 1]);
    }
  }

  ghost predicate IsPermutation(index: seq<nat>, n: nat) {
    && (forall i :: 0 <= i < |index| ==> index[i] < n)
    && (forall i, j :: 0 <= i < j < |index| ==> index[i] != index[j])
    && (forall k: nat :: k < n ==> k in index)
  }

  lemma RemoveLargest(index: seq<nat>, n: nat) returns (q: nat)
    requires IsPermutation(index, n + 1)
    ensures q < |index| && index[q] == n
    ensures IsPermutation(index[..q] + index[q + 1..], n)
  {
    assert n in index;
    q :| 0 <= q < |index| && index[q] == n;
    var rest := index[..q] + index[q + 1..];
    forall k: nat | k < n ensures k in rest {
      assert k in index;
      var i :| 0 <= i < |index| && index[i] == k;
      assert rest[if i < q then i else i - 1] == k;
    }
  }

  lemma MultisetRemove(s: seq<KeyValue>, q: nat)
    requires q < |s|
    ensures multiset(s) == multiset(s[..q] + s[q + 1..]) + multiset{s[q]}
  {
    assert s == s[..q] + [s[q]] + s[q + 1..];
  }

  /** Values picked through a one-to-one index are a permutation of the values. */
  lemma {:induction false} Permuted(index: seq<nat>, vals: seq<KeyValue>, got: seq<KeyValue>)
    requires IsPermutation(index, |vals|) && |got| == |index|
    requires forall i :: 0 <= i < |got| ==> index[i] < |vals| && got[i] == vals[index[i]]
    ensures multiset(got) == multiset(vals)
    decreases |vals|
  {
    if index == [] {
      assert vals != [] ==> 0 in index;
      assert got == vals;
    } else {
      assert index[0] < |vals|;
      hide IsPermutation;
      var n := |vals| - 1;
      var q := RemoveLargest(index, n);
      var rest, left := index[..q] + index[q + 1..], got[..q] + got[q + 1..];
      assert vals[..n] + vals[n + 1..] == vals[..n];
      MultisetRemove(got, q);
      MultisetRemove(vals, n);
      RestPicks(index, vals, got, q);
      Permuted(rest, vals[..n], left);
    }
  }

  lemma RestPicks(index: seq<nat>, vals: seq<KeyValue>, got: seq<KeyValue>, q: nat)
    requires vals != [] && |got| == |index| && q < |index| && index[q] == |vals| - 1
    requires forall i :: 0 <= i < |got| ==> index[i] < |vals| && got[i] == vals[index[i]]
    requires IsPermutation(index[..q] + index[q + 1..], |vals| - 1)
    ensures var rest, left := index[..q] + index[q + 1..], got[..q] + got[q + 1..];
            forall i :: 0 <= i < |left| ==> rest[i] < |vals| - 1 && left[i] == vals[..|vals| - 1][rest[i]]
  {}

  lemma ArrivalsArePermutation(l: Local, arrived: seq<MsgID>) returns (index: seq<nat>)
    requires Tracked(l, arrived) && forall id :: id in l.R().scheduled ==> id in arrived
    ensures |index| == |arrived| && IsPermutation(index, |l.R().puts|)
    ensures forall i :: 0 <= i < |arrived| ==> arrived[i] in l.R().scheduled && index[i] == l.R().scheduled[arrived[i]]
  {
    var scheduled := l.R().scheduled;
    assert forall i :: 0 <= i < |arrived| ==> arrived[i] in arrived;
    index := seq(|arrived|, i requires 0 <= i < |arrived| => scheduled[arrived[i]]);
    forall k: nat | k < |l.R().puts| ensures k in index {
      assert HasId(scheduled, k);
      var id :| id in scheduled && scheduled[id] == k;
      var i :| 0 <= i < |arrived| && arrived[i] == id;
      assert index[i] == k;
    }
  }

  /** Something in flight means some put is not acknowledged. */
  lemma MessageMeansPending(l: Local, arrived: seq<MsgID>, m: Message)
    requires Tracked(l, arrived) && m in l.ch
    ensures exists j :: 0 <= j < |l.R().puts| && l.R().puts[j].status == Started
  {}

  /** When all puts are acknowledged nothing is in flight and the server holds each of them exactly once. */
  lemma BarrierReached(l: Local, arrived: seq<MsgID>)
    requires Tracked(l, arrived) && l.R().completed == |l.R().puts|
    ensures l.ch == {}
    ensures forall j :: 0 <= j < |l.R().puts| ==> l.R().puts[j].status == Completed
    ensures multiset(l.srv.puts) == multiset(Exported(l.R().puts))
  {
    var r := l.R();
    AllExported(r.puts);
    if l.ch != {} {
      var m :| m in l.ch;
      MessageMeansPending(l, arrived, m);
      assert false;
    }
    forall id | id in r.scheduled ensures id in arrived {
      assert PutTracked(l, arrived, id);
    }
    var index := ArrivalsArePermutation(l, arrived);
    Permuted(index, Exported(r.puts), l.srv.puts);
  }

  // --- Sending the next put ---

  lemma SendOne(l: Local, arrived: seq<MsgID>, put: KeyValue, id: MsgID)
    requires Tracked(l, arrived)
    requires forall other :: other in l.R().scheduled ==> other < id
    requires forall m :: m in l.ch ==> m.msgId < id
    ensures var b := Prepare(Batch(AddPut(l.R(), put), id - 1, []), l.c.actor, l.c.server, l.c.txid);
            && b.lastMsg == id
            && b.out == [Message(l.c.actor, l.c.server, id, Payload.Put(l.c.txid, put))]
            && b.reqs.completed == l.R().completed
            && b.reqs.puts == l.R().puts + [Request(Started, put)]
            && b.reqs.scheduled == l.R().scheduled[id := |l.R().puts|]
            && Tracked(WithRequests(l, b.reqs, l.ch + {b.out[0]}), arrived)
  {
    hide Flow;
    var r := l.R();
    var a := AddPut(r, put);
    var b := Batch(a, id - 1, []);
    AddPutKeepsAccounting(r, put);
    PrepareKeepsAccounting(b, l.c.actor, l.c.server, l.c.txid);
    var c := PrepareOne(b, l.c.actor, l.c.server, l.c.txid);
    assert Prepare(c, l.c.actor, l.c.server, l.c.txid) == c;
    assert c.reqs.puts == r.puts + [Request(Started, put)];
    SentFlow(l, arrived, c.reqs, id, c.out[0]);
  }

  /** A put sent last leaves the others as they were. */
  lemma SentFrame(q: Requests, r: Requests, id: MsgID)
    requires Indexed(q.scheduled, |q.puts|) && id !in q.scheduled
    requires |r.puts| == |q.puts| + 1 && r.puts[..|q.puts|] == q.puts && r.scheduled == q.scheduled[id := |q.puts|]
    requires Indexed(r.scheduled, |r.puts|)
    ensures StatusOf(r, id) == r.puts[|q.puts|].status && PutOf(r, id) == r.puts[|q.puts|].put
    ensures forall other :: other in q.scheduled ==>
      other in r.scheduled && StatusOf(r, other) == StatusOf(q, other) && PutOf(r, other) == PutOf(q, other)
  {
    assert forall j :: 0 <= j < |q.puts| ==> r.puts[j] == r.puts[..|q.puts|][j];
  }

  /** `r` and `ch` are the requests and the channel after the PUT `m` with the new id `id` was sent. */
  ghost predicate SentTo(l: Local, arrived: seq<MsgID>, r: Requests, id: MsgID, m: Message) {
    && Linked(l) && Indexed(l.R().scheduled, |l.R().puts|) && Flow(l, arrived)
    && (forall other :: other in l.R().scheduled ==> other < id)
    && |r.puts| == |l.R().puts| + 1 && r.puts[..|l.R().puts|] == l.R().puts
    && r.puts[|l.R().puts|].status == Started
    && r.scheduled == l.R().scheduled[id := |l.R().puts|]
    && Indexed(r.scheduled, |r.puts|)
    && m == Message(l.c.actor, l.c.server, id, Payload.Put(l.c.txid, r.puts[|l.R().puts|].put))
  }

  lemma SentPutTracked(l: Local, arrived: seq<MsgID>, r: Requests, id: MsgID, m: Message, other: MsgID)
    requires SentTo(l, arrived, r, id, m) && other in r.scheduled
    ensures PutTracked(WithRequests(l, r, l.ch + {m}), arrived, other)
  {
    SentFrame(l.R(), r, id);
    assert other != id ==> PutTracked(l, arrived, other);
    hide Indexed, StatusOf, PutOf, MessagesTracked, RepliesUnique;
    assert id !in arrived;
    if HasReply(l.ch, other) {
      var n :| n in l.ch && n.payload.PutReply? && n.payload.originalId == other;
      assert n in l.ch + {m};
    }
  }

  lemma SentMessageTracked(l: Local, arrived: seq<MsgID>, r: Requests, id: MsgID, m: Message, n: Message)
    requires SentTo(l, arrived, r, id, m) && n in l.ch + {m}
    ensures MessageTracked(WithRequests(l, r, l.ch + {m}), arrived, n)
  {
    SentFrame(l.R(), r, id);
    assert n != m ==> MessageTracked(l, arrived, n);
    hide Indexed, StatusOf, PutOf, PutsTracked, RepliesUnique;
    assert id !in arrived;
  }

  lemma SentFlow(l: Local, arrived: seq<MsgID>, r: Requests, id: MsgID, m: Message)
    requires SentTo(l, arrived, r, id, m)
    ensures Flow(WithRequests(l, r, l.ch + {m}), arrived)
  {
    hide StatusOf, PutOf, PutTracked, MessageTracked;
    SentFrame(l.R(), r, id);
    forall other | other in r.scheduled ensures PutTracked(WithRequests(l, r, l.ch + {m}), arrived, other) {
      SentPutTracked(l, arrived, r, id, m, other);
    }
    forall n | n in l.ch + {m} ensures MessageTracked(WithRequests(l, r, l.ch + {m}), arrived, n) {
      SentMessageTracked(l, arrived, r, id, m, n);
    }
  }
}
