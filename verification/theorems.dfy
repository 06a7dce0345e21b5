/** What the invariant means: results about every reachable state, and about everything that can follow it. */
module Theorems {
  import opened TxTypes
  import opened VersionStore
  import opened PutRequests
  import Server = ServerTransaction
  import Client = ClientTransaction
  import opened Protocol
  import opened Channel
  import opened ChannelClient
  import opened ChannelTick
  import opened StoreSafety
  import opened Safety

  // --- No bad branch ---

  /** No exception is thrown and no assertion fails, in any run. */
  lemma NothingThrows(s: System)
    requires Reachable(s)
    ensures !s.threw
  {
    ReachableInv(s);
  }

  // --- Agreement ---

  lemma VersionsOf(txs: Records, data: Data, t: TxID, k: Key, v: Version)
    requires StoreInv(txs, data) && v in HistoryOf(data, k) && v.txid == t
    ensures t in txs && txs[t].phase.Committed? && v == Version(txs[t].commitTs, t, v.value)
    ensures FirstPut(txs[t].puts, k) == Some(v.value)
  {}

  lemma InstalledIsStored(txs: Records, data: Data, t: TxID, k: Key)
    requires StoreInv(txs, data) && t in txs && txs[t].phase.Committed? && Writes(txs[t], k)
    ensures Version(txs[t].commitTs, t, FirstPut(txs[t].puts, k).value) in HistoryOf(data, k)
  {}

  lemma RecordExists(s: System, i: nat)
    requires Safety.Inv(s) && i < |s.clients| && PastBarrier(s.clients[i])
    ensures s.clients[i].txid in s.txs
  {
    var t := s.clients[i].txid;
    assert Channel.Inv(LocalOf(s, i));
    assert TxOf(s.txs, t).phase != Server.Phase.NotStarted;
  }

  /**
    A client that sees COMMITTED agrees with its server record on both timestamps, the record holds exactly the puts
    of the spec, and the store has, at that commit time and no other, one version per written key: its first put.
   */
  lemma CommittedAgrees(s: System, i: nat)
    requires Reachable(s) && i < |s.clients| && s.clients[i].phase.Committed?
    ensures var c := s.clients[i];
            && c.txid in s.txs
            && var tx := s.txs[c.txid];
            && tx.phase.Committed? && tx.commitTs == c.commitTs && tx.readTs == c.readTs
            && multiset(tx.puts) == multiset(SpecPuts(c.spec))
            && Client.ExportedPuts(c) == SpecPuts(c.spec) && c.conflictTxid == UNDEFINED_TX_ID
            && (forall k :: Writes(tx, k) ==>
                  Version(c.commitTs, c.txid, FirstPut(tx.puts, k).value) in HistoryOf(s.store, k))
            && (forall k, v :: v in HistoryOf(s.store, k) && v.txid == c.txid ==>
                  v.ts == c.commitTs && FirstPut(tx.puts, k) == Some(v.value))
  {
    ReachableInv(s);
    var l := LocalOf(s, i);
    assert Channel.Inv(l);
    RecordExists(s, i);
    AllExported(l.R().puts);
    SpecIsExported(l);
    var t := s.clients[i].txid;
    forall k | Writes(s.txs[t], k)
      ensures Version(s.txs[t].commitTs, t, FirstPut(s.txs[t].puts, k).value) in HistoryOf(s.store, k)
    {
      InstalledIsStored(s.txs, s.store, t, k);
    }
    forall k, v | v in HistoryOf(s.store, k) && v.txid == t
      ensures v.ts == s.txs[t].commitTs && FirstPut(s.txs[t].puts, k) == Some(v.value)
    {
      VersionsOf(s.txs, s.store, t, k, v);
    }
  }

  /**
    A client that sees ROLLED_BACK_BY_SERVER was rolled back by the server, left nothing in the store, and the
    conflict it was told about is a committed transaction that wrote a common key after its snapshot.
   */
  lemma RolledBackAgrees(s: System, i: nat)
    requires Reachable(s) && i < |s.clients| && s.clients[i].phase.RolledBack?
    ensures var c := s.clients[i];
            && c.txid in s.txs && s.txs[c.txid].phase.RolledBack?
            && c.commitTs == UNDEFINED_TS
            && ConflictWitness(s.txs, c.txid, c.conflictTxid)
            && Answered(s.store, s.txs[c.txid], c.conflictTxid)
            && forall k, v :: v in HistoryOf(s.store, k) ==> v.txid != c.txid
  {
    ReachableInv(s);
    assert Channel.Inv(LocalOf(s, i));
    RecordExists(s, i);
    forall k, v | v in HistoryOf(s.store, k) ensures v.txid != s.clients[i].txid {
      assert Installed(s.txs, k, v);
    }
  }

  /** What is acknowledged has arrived. */
  lemma AcknowledgedArrived(l: Local, arrived: seq<MsgID>, k: nat)
    requires Linked(l) && Asked(l) && Flow(l, arrived) && k < |l.R().puts| && l.R().puts[k].status == Completed
    ensures l.R().puts[k].put in l.srv.puts
  {
    assert HasId(l.R().scheduled, k);
    var id :| id in l.R().scheduled && l.R().scheduled[id] == k;
    assert PutTracked(l, arrived, id);
    var i :| 0 <= i < |arrived| && arrived[i] == id;
    assert l.srv.puts[i] == PutOf(l.R(), id);
  }

  lemma ExportsArrived(l: Local, k: nat)
    requires Channel.Inv(l) && l.c.participant.Some? && k < |l.R().puts| && l.R().puts[k].status == Completed
    ensures l.R().puts[k].put in l.srv.puts
  {
    if l.c.phase.Open? {
      var arrived :| Flow(l, arrived);
      AcknowledgedArrived(l, arrived, k);
    } else {
      assert Barrier(l);
      assert SpecPuts(l.c.spec)[k] in multiset(SpecPuts(l.c.spec));
      assert l.R().puts[k].put in multiset(l.srv.puts);
    }
  }

  /**
    In every reachable state, at any time of its life, a client exports only puts that its server record holds: exactly
    those it has seen acknowledged, each at its place in the order in which they were asked for.
   */
  lemma ExportsAreHeld(s: System, i: nat)
    requires Reachable(s) && i < |s.clients|
    ensures var c := s.clients[i];
            forall p :: p in Client.ExportedPuts(c) ==> c.txid in s.txs && p in s.txs[c.txid].puts
  {
    hide Safety.Inv, Channel.Inv, Exported;
    ReachableInv(s);
    InvOfChannel(s, i);
    var l := LocalOf(s, i);
    forall p | p in Client.ExportedPuts(l.c) ensures l.c.txid in s.txs && p in s.txs[l.c.txid].puts {
      var idx := ExportedPositions(l.R().puts);
      var j :| 0 <= j < |idx| && Exported(l.R().puts)[j] == p;
      assert idx[j] in AcknowledgedAt(l.R().puts);
      ExportsArrived(l, idx[j]);
    }
  }

  ghost function PutsOf(msgs: seq<Message>): (r: seq<KeyValue>)
    requires forall m :: m in msgs ==> m.payload.Put?
    ensures |r| == |msgs|
  {
    seq(|msgs|, i requires 0 <= i < |msgs| => assert msgs[i] in msgs; msgs[i].payload.put)
  }

  ghost function AnswersTo(txid: TxID, last: MsgID, msgs: seq<Message>): (r: seq<Message>)
    ensures |r| == |msgs|
  {
    seq(|msgs|, i requires 0 <= i < |msgs| =>
      Message(msgs[i].destination, msgs[i].source, last + 1 + i, Payload.PutReply(txid, msgs[i].msgId)))
  }

  lemma LastOf(txid: TxID, last: MsgID, msgs: seq<Message>)
    requires msgs != [] && forall m :: m in msgs ==> m.payload.Put?
    ensures var k := |msgs| - 1;
            && msgs[k].payload.Put? && PutsOf(msgs) == PutsOf(msgs[..k]) + [msgs[k].payload.put]
            && AnswersTo(txid, last, msgs)
               == AnswersTo(txid, last, msgs[..k])
                + [Message(msgs[k].destination, msgs[k].source, last + |msgs|, Payload.PutReply(txid, msgs[k].msgId))]
  {
    assert msgs[|msgs| - 1] in msgs;
  }

  /** A record and an outbox with more puts and more messages. */
  ghost function WithPuts(w: Server.World, puts: seq<KeyValue>, answers: seq<Message>): Server.World {
    Server.World(w.tx.(puts := w.tx.puts + puts), w.data, w.lastMsg + |answers|, w.out + answers, false)
  }

  lemma WithMorePuts(w: Server.World, puts: seq<KeyValue>, answers: seq<Message>, put: KeyValue, answer: Message)
    ensures WithPuts(WithPuts(w, puts, answers), [put], [answer]) == WithPuts(w, puts + [put], answers + [answer])
  {
    assert w.tx.puts + puts + [put] == w.tx.puts + (puts + [put]);
    assert w.out + answers + [answer] == w.out + (answers + [answer]);
  }

  lemma HandlePutKeeps(w: Server.World, ts: Timestamp, m: Message)
    requires !w.threw && w.tx.phase.Open? && m.payload.Put?
    ensures Server.Handle(w, ts, m)
         == WithPuts(w, [m.payload.put], [Message(m.destination, m.source, w.lastMsg + 1,
                                                  Payload.PutReply(w.tx.txid, m.msgId))])
  {}

  lemma NoMorePuts(w: Server.World)
    requires !w.threw
    ensures WithPuts(w, PutsOf([]), AnswersTo(w.tx.txid, w.lastMsg, [])) == w
  {}

  lemma StillOpen(w: Server.World, puts: seq<KeyValue>, answers: seq<Message>)
    ensures var v := WithPuts(w, puts, answers);
            && !v.threw && v.tx.phase == w.tx.phase && v.tx.txid == w.tx.txid && v.lastMsg == w.lastMsg + |answers|
  {}

  /** An open record keeps the puts of a batch in the order of the batch, and answers them in that order. */
  lemma {:induction false} PutsAreKept(w: Server.World, ts: Timestamp, msgs: seq<Message>)
    requires !w.threw && w.tx.phase.Open? && forall m :: m in msgs ==> m.payload.Put?
    ensures Server.HandleAll(w, ts, msgs) == WithPuts(w, PutsOf(msgs), AnswersTo(w.tx.txid, w.lastMsg, msgs))
  {
    hide Server.Handle, PutsOf, AnswersTo, WithPuts;
    if msgs == [] {
      NoMorePuts(w);
    } else {
      var k := |msgs| - 1;
      assert forall m :: m in msgs[..k] ==> m in msgs;
      LastOf(w.tx.txid, w.lastMsg, msgs);
      PutsAreKept(w, ts, msgs[..k]);
      var puts, answers := PutsOf(msgs[..k]), AnswersTo(w.tx.txid, w.lastMsg, msgs[..k]);
      StillOpen(w, puts, answers);
      HandlePutKeeps(WithPuts(w, puts, answers), ts, msgs[k]);
      WithMorePuts(w, puts, answers, msgs[k].payload.put,
                   Message(msgs[k].destination, msgs[k].source, w.lastMsg + |msgs|,
                           Payload.PutReply(w.tx.txid, msgs[k].msgId)));
    }
  }

  // --- Snapshot isolation ---

  /** Of two versions of a key, the newer one's writer took its snapshot after the older one was committed. */
  lemma VersionsAreSeen(s: System, k: Key, i: nat, j: nat)
    requires Reachable(s) && i < j < |HistoryOf(s.store, k)|
    ensures var h := HistoryOf(s.store, k);
            h[j].txid in s.txs && h[i].ts < s.txs[h[j].txid].readTs <= h[j].ts
  {
    ReachableInv(s);
    var h := HistoryOf(s.store, k);
    var a, b := h[i].txid, h[j].txid;
    assert h[i] in h && h[j] in h;
    assert Installed(s.txs, k, h[i]) && Installed(s.txs, k, h[j]);
    assert h[i].ts < h[j].ts;
    assert Writes(s.txs[a], k) && Writes(s.txs[b], k);
    assert WriteInCommon(s.txs[a], s.txs[b]);
  }

  /** Committed transactions that wrote a common key ran one after the other: their intervals do not meet. */
  lemma IntervalsAreDisjoint(s: System, a: TxID, b: TxID)
    requires Reachable(s) && a in s.txs && b in s.txs && a != b
    requires s.txs[a].phase.Committed? && s.txs[b].phase.Committed? && WriteInCommon(s.txs[a], s.txs[b])
    ensures || s.txs[a].readTs <= s.txs[a].commitTs < s.txs[b].readTs <= s.txs[b].commitTs
            || s.txs[b].readTs <= s.txs[b].commitTs < s.txs[a].readTs <= s.txs[a].commitTs
  {
    ReachableInv(s);
  }

  /** `order` lists the committed transactions by commit time. */
  ghost predicate CommitOrder(txs: Records, order: seq<TxID>) {
    && (forall i :: 0 <= i < |order| ==> order[i] in txs && txs[order[i]].phase.Committed?)
    && (forall t :: t in txs && txs[t].phase.Committed? ==> t in order)
    && (forall i, j :: 0 <= i < j < |order| ==> txs[order[i]].commitTs < txs[order[j]].commitTs)
  }

  /** The value of `k` after running the listed transactions one by one. */
  ghost function SerialValue(txs: Records, order: seq<TxID>, k: Key): Option<Value>
    requires forall i :: 0 <= i < |order| ==> order[i] in txs
  {
    if order == [] then None
    else
      var n := |order| - 1;
      var written := FirstPut(txs[order[n]].puts, k);
      if written.Some? then written else SerialValue(txs, order[..n], k)
  }

  lemma {:induction false} LastWriter(txs: Records, order: seq<TxID>, k: Key)
    requires forall i :: 0 <= i < |order| ==> order[i] in txs
    ensures SerialValue(txs, order, k).None? ==> forall i :: 0 <= i < |order| ==> !Writes(txs[order[i]], k)
    ensures SerialValue(txs, order, k).Some? ==>
              exists i :: && 0 <= i < |order| && FirstPut(txs[order[i]].puts, k) == SerialValue(txs, order, k)
                          && forall j :: i < j < |order| ==> !Writes(txs[order[j]], k)
  {
    if order == [] {
    } else {
      var n := |order| - 1;
      assert order == order[..n] + [order[n]];
      if FirstPut(txs[order[n]].puts, k).None? {
        LastWriter(txs, order[..n], k);
        if SerialValue(txs, order[..n], k).Some? {
          var i :| && 0 <= i < n && FirstPut(txs[order[..n][i]].puts, k) == SerialValue(txs, order[..n], k)
                   && forall j :: i < j < n ==> !Writes(txs[order[..n][j]], k);
          assert forall j :: i < j < n ==> order[..n][j] == order[j];
          assert FirstPut(txs[order[i]].puts, k) == SerialValue(txs, order, k);
        }
      } else {
        assert FirstPut(txs[order[n]].puts, k) == SerialValue(txs, order, k);
      }
    }
  }

  /** Reading the newest version of a key is reading the result of running the committed transactions serially. */
  lemma StoreIsSerial(s: System, order: seq<TxID>, k: Key)
    requires Reachable(s) && CommitOrder(s.txs, order)
    ensures SerialValue(s.txs, order, k)
         == match GetLast(s.store, k) { case Some(v) => Some(v.value) case None => None }
  {
    hide Safety.Inv, StoreInv, CommitOrder, SerialValue;
    ReachableInv(s);
    StoreIsSound(s);
    NewestIsSerial(s.txs, s.store, order, k);
  }

  lemma StoreIsSound(s: System)
    requires Safety.Inv(s)
    ensures StoreInv(s.txs, s.store)
  {}

  lemma NewestIsSerial(txs: Records, data: Data, order: seq<TxID>, k: Key)
    requires StoreInv(txs, data) && CommitOrder(txs, order)
    ensures GetLast(data, k).None? ==> SerialValue(txs, order, k).None?
    ensures GetLast(data, k).Some? ==> SerialValue(txs, order, k) == Some(GetLast(data, k).value.value)
  {
    hide SerialValue, FirstPut, TimesDistinct, FirstCommitterWins;
    LastWriter(txs, order, k);
    var last := GetLast(data, k);
    if last.Some? {
      assert last.value in HistoryOf(data, k);
      assert Installed(txs, k, last.value);
      assert last.value.txid in order;
      var j :| 0 <= j < |order| && order[j] == last.value.txid;
      LastVersionIsLastWriter(txs, data, order, k, j);
    } else if SerialValue(txs, order, k).Some? {
      var i :| 0 <= i < |order| && FirstPut(txs[order[i]].puts, k) == SerialValue(txs, order, k);
      InstalledIsStored(txs, data, order[i], k);
    }
  }

  /** No transaction after the writer of the newest version, in commit order, writes the key. */
  lemma LastVersionIsLastWriter(txs: Records, data: Data, order: seq<TxID>, k: Key, j: nat)
    requires StoreInv(txs, data) && CommitOrder(txs, order) && j < |order|
    requires GetLast(data, k).Some? && GetLast(data, k).value.txid == order[j]
    requires Installed(txs, k, GetLast(data, k).value)
    ensures forall i :: j < i < |order| ==> !Writes(txs[order[i]], k)
  {
    forall i | j < i < |order| ensures !Writes(txs[order[i]], k) {
      if Writes(txs[order[i]], k) {
        InstalledIsStored(txs, data, order[i], k);
        LastIsNewest(data, k, Version(txs[order[i]].commitTs, order[i], FirstPut(txs[order[i]].puts, k).value));
      }
    }
  }

  /** The committed transactions of a reachable state can be listed by commit time. */
  lemma CommitOrderExists(s: System) returns (order: seq<TxID>)
    requires Reachable(s)
    ensures CommitOrder(s.txs, order)
  {
    ReachableInv(s);
    var times := map t | t in s.txs && s.txs[t].phase.Committed? :: s.txs[t].commitTs;
    order := OrderOf(times);
  }

  /** The transaction with the latest time. */
  lemma {:induction false} Latest(times: map<TxID, Timestamp>) returns (t: TxID)
    requires exists a :: a in times
    ensures t in times && forall a :: a in times ==> times[a] <= times[t]
    decreases |times|
  {
    var first :| first in times;
    var rest := times - {first};
    t := first;
    if exists a :: a in rest {
      var u := Latest(rest);
      t := if times[first] < times[u] then u else first;
    }
    forall a | a in times ensures times[a] <= times[t] {
      assert a == first || a in rest;
    }
  }

  /** `order` lists exactly the keys, by increasing time. */
  ghost predicate InOrder(times: map<TxID, Timestamp>, order: seq<TxID>) {
    && (forall t :: t in times ==> t in order)
    && (forall i :: 0 <= i < |order| ==> order[i] in times)
    && (forall i, j :: 0 <= i < j < |order| ==> times[order[i]] < times[order[j]])
  }

  lemma LatestComesLast(times: map<TxID, Timestamp>, t: TxID, rest: seq<TxID>)
    requires t in times && forall a :: a in times && a != t ==> times[a] < times[t]
    requires InOrder(times - {t}, rest)
    ensures InOrder(times, rest + [t])
  {
    var order, earlier := rest + [t], times - {t};
    assert order[|rest|] == t;
    forall a | a in times ensures a in order {
      assert a == t || a in earlier;
    }
    forall i | 0 <= i < |rest| ensures order[i] in times && times[order[i]] < times[t] {
      assert rest[i] in earlier && rest[i] in times && rest[i] != t;
    }
    forall i, j | 0 <= i < j < |rest| ensures times[order[i]] < times[order[j]] {
      assert earlier[rest[i]] < earlier[rest[j]];
    }
  }

  lemma {:induction false} OrderOf(times: map<TxID, Timestamp>) returns (order: seq<TxID>)
    requires forall a, b :: a in times && b in times && a != b ==> times[a] != times[b]
    ensures InOrder(times, order)
    decreases |times|
  {
    if exists a :: a in times {
      hide InOrder;
      var t := Latest(times);
      var rest := OrderOf(times - {t});
      LatestComesLast(times, t, rest);
      order := rest + [t];
    } else {
      order := [];
    }
  }

  // --- The decision ---

  /**
    COMMIT rolls an open transaction back exactly when some version of some key it put is newer than its snapshot.
    A rollback leaves the store alone and names the writer of the newest version of the first put key that has one.
   */
  lemma DecisionIsExact(w: Server.World, ts: Timestamp, m: Message)
    requires !w.threw && w.tx.phase.Open? && m.payload.Commit?
    ensures var v := Server.Handle(w, ts, m);
            && (v.tx.phase.RolledBack? || v.tx.phase.Committed?)
            && (v.tx.phase.RolledBack? <==>
                  exists p, u :: p in w.tx.puts && NewerVersion(w.data, p.key, w.tx.readTs, u))
            && (v.tx.phase.RolledBack? ==>
                  && v.data == w.data
                  && v.out[|v.out| - 1].payload.RolledBackByServer?
                  && exists i: nat, u :: && Server.FirstNewer(w.data, w.tx.puts, w.tx.readTs, i, u)
                                         && u.txid == v.out[|v.out| - 1].payload.conflictTxid)
  {
    hide Server.FirstConflict, Server.ApplyAll;
    ConflictTestIsExact(w.data, w.tx.puts, w.tx.readTs);
    if Server.FirstConflict(w.data, w.tx.puts, w.tx.readTs).None? {
      forall p, u | p in w.tx.puts ensures !NewerVersion(w.data, p.key, w.tx.readTs, u) {
        assert u in HistoryOf(w.data, p.key) ==> u.ts <= w.tx.readTs;
      }
    } else {
      var i: nat, u :| && Server.FirstNewer(w.data, w.tx.puts, w.tx.readTs, i, u)
                       && u.txid == Server.FirstConflict(w.data, w.tx.puts, w.tx.readTs).value;
      assert w.tx.puts[i] in w.tx.puts && NewerVersion(w.data, w.tx.puts[i].key, w.tx.readTs, u);
    }
  }

  /** A rolled back record has a client that was told of a conflict, or a message on its way that tells of it. */
  lemma RollbackIsKnown(s: System, t: TxID) returns (c: TxID)
    requires Safety.Inv(s) && t in s.txs && s.txs[t].phase.RolledBack?
    ensures Reported(s.txs, s.store, t, c)
  {
    hide Reported, StoreInv, IdsInv, TimesInv, Flowing, Barrier;
    assert HasOwner(s.clients, t);
    var i: nat :| i < |s.clients| && s.clients[i].txid == t;
    var l := LocalOf(s, i);
    InvOfChannel(s, i);
    OnlyDecidedRollsBack(l);
    if l.c.phase.RolledBack? {
      c := l.c.conflictTxid;
    } else {
      var m :| m in l.ch && m.payload.RolledBackByServer? && m.payload.txid == t;
      c := m.payload.conflictTxid;
    }
  }

  lemma OnlyDecidedRollsBack(l: Local)
    requires Channel.Inv(l) && l.srv.phase.RolledBack?
    ensures l.c.phase.RolledBack?
         || exists m :: m in l.ch && m.payload.RolledBackByServer? && m.payload.txid == l.c.txid
  {}

  /**
    The conflict rule over whole histories: a decided transaction was rolled back if and only if some other transaction
    that wrote a common key committed between its snapshot and its decision.
   */
  lemma RolledBackIff(s: System, t: TxID)
    requires Reachable(s) && t in s.txs && (s.txs[t].phase.Committed? || s.txs[t].phase.RolledBack?)
    ensures s.txs[t].phase.RolledBack? <==> exists c :: Overtaken(s.txs, t, c)
  {
    hide Safety.Inv, StoreInv;
    ReachableInv(s);
    if s.txs[t].phase.RolledBack? {
      var c := RollbackIsKnown(s, t);
      assert Overtaken(s.txs, t, c);
    } else {
      StoreIsSound(s);
      forall c | Overtaken(s.txs, t, c) ensures false {
        NotBothCommitted(s.txs, s.store, t, c);
      }
    }
  }

  lemma NotBothCommitted(txs: Records, data: Data, t: TxID, c: TxID)
    requires StoreInv(txs, data) && Overtaken(txs, t, c)
    ensures !txs[t].phase.Committed?
  {
    hide HistoryExact, TimesDistinct, WriteInCommon;
  }

  // --- The commit barrier ---

  predicate PastBarrier(c: Client.State) {
    c.phase.CommitSent? || c.phase.Committed? || c.phase.RolledBack?
  }

  /**
    When the server is handed a transaction's COMMIT, that is all it is handed and all that is in flight, the
    transaction is open, and it holds every put of the spec exactly once.
   */
  lemma CommitBarrier(s: System, t: TxID, msgs: seq<Message>, i: nat, m: Message)
    requires Reachable(s) && Enabled(s, ServerTick(t, msgs)) && m in msgs && m.payload.Commit?
    requires i < |s.clients| && s.clients[i].txid == t
    ensures msgs == [m] && ChannelOf(s.net, t) == {m}
    ensures t in s.txs && s.txs[t].phase.Open?
    ensures multiset(s.txs[t].puts) == multiset(SpecPuts(s.clients[i].spec))
    ensures PastBarrier(s.clients[i])
  {
    ReachableInv(s);
    var l := LocalOf(s, i);
    assert Channel.Inv(l) && m in l.ch;
    assert t != UNDEFINED_TX_ID;
    OnlyCommit(l, m);
    SoleDelivery(l.ch, msgs, s.server, t, m);
  }

  lemma OnlyCommit(l: Local, m: Message)
    requires Channel.Inv(l) && m in l.ch && m.payload.Commit? && l.c.actor != l.c.server
    ensures l.c.phase.CommitSent? && l.ch == {m} && l.srv.phase.Open?
    ensures multiset(l.srv.puts) == multiset(SpecPuts(l.c.spec))
  {
    if l.c.phase.Open? {
      NoCommitInFlow(l);
    }
  }

  lemma NoCommitInFlow(l: Local)
    requires Linked(l) && Flowing(l)
    ensures forall m :: m in l.ch ==> !m.payload.Commit?
  {}

  /** Past the barrier no PUT of the transaction is in flight. */
  lemma NoPutPastBarrier(s: System, i: nat)
    requires Safety.Inv(s) && i < |s.clients| && PastBarrier(s.clients[i])
    ensures forall m :: m in s.net && m.Txid() == s.clients[i].txid ==> !m.payload.Put?
  {
    var l := LocalOf(s, i);
    assert Channel.Inv(l);
    forall m | m in s.net && m.Txid() == s.clients[i].txid ensures !m.payload.Put? {
      assert m in l.ch;
    }
  }

  lemma PastBarrierStays(s: System, step: Step, i: nat)
    requires Enabled(s, step) && i < |s.clients| && PastBarrier(s.clients[i])
    ensures i < |Next(s, step).clients| && PastBarrier(Next(s, step).clients[i])
    ensures Next(s, step).clients[i].txid == s.clients[i].txid
  {
    hide PastBarrier, Client.Tick;
    if step.ClientTick? && step.i == i {
      TickStaysPastBarrier(s.clients[i], s.ids, s.clock + 1, step.msgs);
    }
  }

  lemma TickStaysPastBarrier(c: Client.State, ids: Ids, ts: Timestamp, msgs: seq<Message>)
    requires PastBarrier(c)
    ensures PastBarrier(Client.Tick(c, ids, ts, msgs).tx) && Client.Tick(c, ids, ts, msgs).tx.txid == c.txid
  {
    hide Client.Receive, Client.ScheduleAll, Client.Decide;
    var received := Client.Receive(Client.World(c, ids, [], false), msgs);
    ReceiveKeepsOutcome(Client.World(c, ids, [], false), msgs);
    DecideStays(received, msgs);
    ScheduleAllKeepsOutcome(Client.Advance(received, ts, msgs));
  }

  lemma {:induction false} DecideStays(w: Client.World, msgs: seq<Message>)
    requires PastBarrier(w.tx)
    ensures PastBarrier(Client.Decide(w, msgs).tx) && Client.Decide(w, msgs).tx.txid == w.tx.txid
  {
    if msgs == [] {
    } else {
      DecideStays(w, msgs[..|msgs| - 1]);
    }
  }

  /** Once a client has sent COMMIT, no PUT of its transaction is ever in flight again. */
  lemma {:induction false} NoPutAfterCommit(s: System, steps: seq<Step>, i: nat)
    requires Reachable(s) && ValidRun(s, steps) && i < |s.clients| && PastBarrier(s.clients[i])
    ensures forall m :: m in Run(s, steps).net && m.Txid() == s.clients[i].txid ==> !m.payload.Put?
    decreases |steps|
  {
    ReachableInv(s);
    PastBarrierOverRun(s, steps, i);
    RunKeeps(s, steps);
    NoPutPastBarrier(Run(s, steps), i);
  }

  lemma {:induction false} PastBarrierOverRun(s: System, steps: seq<Step>, i: nat)
    requires ValidRun(s, steps) && i < |s.clients| && PastBarrier(s.clients[i])
    ensures i < |Run(s, steps).clients| && PastBarrier(Run(s, steps).clients[i])
    ensures Run(s, steps).clients[i].txid == s.clients[i].txid
    decreases |steps|
  {
    hide Next, Enabled;
    if steps == [] {
    } else {
      PastBarrierStays(s, steps[0], i);
      PastBarrierOverRun(Next(s, steps[0]), steps[1..], i);
    }
  }

  // --- Nothing is revised ---

  /** A snapshot is taken once, puts are only added, and a decision is final. */
  ghost predicate Evolves(a: Server.State, b: Server.State) {
    && (!a.phase.NotStarted? ==> !b.phase.NotStarted? && b.readTs == a.readTs && b.txid == a.txid && a.puts <= b.puts)
    && Kept(a, b)
  }

  lemma {:induction false} HandleAllEvolves(w: Server.World, ts: Timestamp, msgs: seq<Message>)
    ensures Evolves(w.tx, Server.HandleAll(w, ts, msgs).tx)
  {
    if msgs == [] {
    } else {
      HandleAllEvolves(w, ts, msgs[..|msgs| - 1]);
    }
  }

  lemma {:induction false} RecordsEvolve(s: System, steps: seq<Step>, t: TxID)
    requires ValidRun(s, steps) && t in s.txs
    ensures t in Run(s, steps).txs && Evolves(s.txs[t], Run(s, steps).txs[t])
    decreases |steps|
  {
    if steps == [] {
    } else {
      var s' := Next(s, steps[0]);
      if steps[0].ServerTick? && steps[0].txid == t && t != UNDEFINED_TX_ID {
        HandleAllEvolves(Server.World(TxOf(s.txs, t), s.store, s.ids.lastMsg, [], false), s.clock + 1, steps[0].msgs);
      }
      assert t in s'.txs && Evolves(s.txs[t], s'.txs[t]);
      RecordsEvolve(s', steps[1..], t);
    }
  }

  lemma OutcomeKept(s: System, i: nat, msgs: seq<Message>)
    requires Safety.Inv(s) && Enabled(s, ClientTick(i, msgs))
    requires s.clients[i].phase.Committed? || s.clients[i].phase.RolledBack?
    ensures ClientWorld(s, i, msgs).tx == s.clients[i]
  {
    hide Safety.Inv, Channel.Inv, Client.Tick;
    InvOfChannel(s, i);
    DecidedStays(LocalOf(s, i), s.ids, s.clock + 1, msgs);
  }

  /** What a client has been told never changes: in particular a rollback never turns into a commit. */
  lemma OutcomeStays(s: System, step: Step, i: nat)
    requires Safety.Inv(s) && Enabled(s, step) && i < |s.clients|
    requires s.clients[i].phase.Committed? || s.clients[i].phase.RolledBack?
    ensures Next(s, step).clients[i] == s.clients[i]
  {
    hide Safety.Inv, ClientWorld, ServerWorld;
    if step.ClientTick? && step.i == i {
      OutcomeKept(s, i, step.msgs);
    }
  }

  lemma {:induction false} OutcomeIsFinal(s: System, steps: seq<Step>, i: nat)
    requires Safety.Inv(s) && ValidRun(s, steps) && i < |s.clients|
    requires s.clients[i].phase.Committed? || s.clients[i].phase.RolledBack?
    ensures i < |Run(s, steps).clients| && Run(s, steps).clients[i] == s.clients[i]
    decreases |steps|
  {
    hide Safety.Inv, Next, Enabled;
    if steps == [] {
    } else {
      SameClients(s, steps[0]);
      OutcomeStays(s, steps[0], i);
      StepKeeps(s, steps[0]);
      OutcomeIsFinal(Next(s, steps[0]), steps[1..], i);
    }
  }

  lemma SameClients(s: System, step: Step)
    requires Enabled(s, step)
    ensures |Next(s, step).clients| == |s.clients|
  {}

  /**
    A client waiting for the decision is handed nothing or exactly one decision, so within the tick that handles it the
    state is still COMMIT_SENT when a message is applied: the arm that turns a rollback into COMMITTED is not taken.
   */
  lemma OneDecision(s: System, i: nat, msgs: seq<Message>)
    requires Reachable(s) && Enabled(s, ClientTick(i, msgs)) && s.clients[i].phase.CommitSent?
    ensures |msgs| <= 1
    ensures forall m :: m in msgs ==> m.payload.CommitAck? || m.payload.RolledBackByServer?
    ensures var before := Client.Receive(Client.World(s.clients[i], s.ids, [], false), msgs);
            forall k :: 0 <= k < |msgs| ==> Client.Decide(before, msgs[..k]).tx.phase.CommitSent?
  {
    hide StoreInv, ConflictsInv, Barrier, Safety.Inv;
    ReachableInv(s);
    InvOfChannel(s, i);
    var l := LocalOf(s, i);
    var m :| m in l.ch && l.ch == {m};
    SoleDelivery(l.ch, msgs, l.c.actor, l.c.txid, m);
    var before := Client.Receive(Client.World(s.clients[i], s.ids, [], false), msgs);
    ReceiveKeepsOutcome(Client.World(s.clients[i], s.ids, [], false), msgs);
    assert Client.Decide(before, msgs[..0]) == before;
  }

  lemma InvOfChannel(s: System, i: nat)
    requires Safety.Inv(s) && i < |s.clients|
    ensures Channel.Inv(LocalOf(s, i)) && s.clients[i].actor != s.server == s.clients[i].server
  {}
}
