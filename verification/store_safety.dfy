/**
  Snapshot-isolation safety of the store. The results here hold for any messages at all: they need only that every
  tick of a server transaction has its own, later timestamp.
 */
module StoreSafety {
  import opened TxTypes
  import opened VersionStore
  import opened ServerTransaction

  type Records = map<TxID, State>

  /** The value of the earliest put of `k`. */
  function FirstPut(puts: seq<KeyValue>, k: Key): Option<Value> {
    if puts == [] then None
    else
      var earlier, last := FirstPut(puts[..|puts| - 1], k), puts[|puts| - 1];
      if earlier.Some? then earlier else if last.key == k then Some(last.value) else None
  }

  predicate Writes(tx: State, k: Key) {
    FirstPut(tx.puts, k).Some?
  }

  lemma {:induction false} FirstPutIsFirst(puts: seq<KeyValue>, k: Key)
    ensures FirstPut(puts, k).None? <==> forall i :: 0 <= i < |puts| ==> puts[i].key != k
    ensures FirstPut(puts, k).Some? ==>
              exists i :: && 0 <= i < |puts| && puts[i] == KeyValue(k, FirstPut(puts, k).value)
                          && forall j :: 0 <= j < i ==> puts[j].key != k
  {
    if puts == [] {
    } else {
      var n := |puts| - 1;
      FirstPutIsFirst(puts[..n], k);
      if FirstPut(puts[..n], k).Some? {
        var i :| && 0 <= i < n && puts[..n][i] == KeyValue(k, FirstPut(puts[..n], k).value)
                 && forall j :: 0 <= j < i ==> puts[..n][j].key != k;
        assert forall j :: 0 <= j < i ==> puts[j].key == puts[..n][j].key;
        assert puts[i] == KeyValue(k, FirstPut(puts, k).value);
      } else if puts[n].key == k {
        assert forall j :: 0 <= j < n ==> puts[j].key == puts[..n][j].key;
        assert puts[n] == KeyValue(k, FirstPut(puts, k).value);
      } else {
        assert forall j :: 0 <= j < n ==> puts[j].key == puts[..n][j].key;
      }
    }
  }

  // --- Installing a transaction ---

  lemma InsertNewest(h: History, v: Version)
    requires forall u :: u in h ==> u.ts < v.ts
    ensures Insert(h, v) == h + [v]
  {}

  lemma InsertAgain(h: History, v: Version)
    requires h != [] && h[|h| - 1].ts == v.ts
    ensures Insert(h, v) == h
  {}

  /** A commit adds one version, holding the first put, to the history of each key it writes, and nothing else. */
  lemma {:induction false} ApplyAllAppends(data: Data, txid: TxID, ts: Timestamp, puts: seq<KeyValue>, k: Key)
    requires forall v :: v in HistoryOf(data, k) ==> v.ts < ts
    ensures HistoryOf(ApplyAll(data, txid, ts, puts), k)
         == HistoryOf(data, k) + match FirstPut(puts, k) { case Some(x) => [Version(ts, txid, x)] case None => [] }
  {
    if puts == [] {
    } else {
      var n := |puts| - 1;
      ApplyAllAppends(data, txid, ts, puts[..n], k);
      var h := HistoryOf(ApplyAll(data, txid, ts, puts[..n]), k);
      var v := Version(ts, txid, puts[n].value);
      if puts[n].key == k {
        if FirstPut(puts[..n], k).Some? {
          InsertAgain(h, v);
        } else {
          InsertNewest(h, v);
        }
      }
    }
  }

  // --- The conflict test ---

  ghost predicate NewerVersion(data: Data, k: Key, readTs: Timestamp, v: Version) {
    v in HistoryOf(data, k) && v.ts > readTs
  }

  /** Looking only at the newest version of each key decides whether any version is newer than the snapshot. */
  lemma {:induction false} ConflictTestIsExact(data: Data, puts: seq<KeyValue>, readTs: Timestamp)
    ensures FirstConflict(data, puts, readTs).None? <==>
              forall p, v :: p in puts && v in HistoryOf(data, p.key) ==> v.ts <= readTs
    ensures FirstConflict(data, puts, readTs).Some? ==>
              exists i: nat, v :: && FirstNewer(data, puts, readTs, i, v)
                                  && v.txid == FirstConflict(data, puts, readTs).value
  {
    if puts == [] {
    } else {
      ConflictTestIsExact(data, puts[1..], readTs);
      var last := GetLast(data, puts[0].key);
      forall v | v in HistoryOf(data, puts[0].key) ensures last.Some? && v.ts <= last.value.ts {
        LastIsNewest(data, puts[0].key, v);
      }
      if last.Some? && last.value.ts > readTs {
        assert puts[0] in puts && FirstNewer(data, puts, readTs, 0, last.value);
      } else {
        assert forall p :: p in puts ==> p == puts[0] || p in puts[1..];
        assert forall p :: p in puts[1..] ==> p in puts;
        if FirstConflict(data, puts[1..], readTs).Some? {
          var i: nat, v :| && FirstNewer(data, puts[1..], readTs, i, v)
                           && v.txid == FirstConflict(data, puts[1..], readTs).value;
          assert FirstNewer(data, puts, readTs, i + 1, v) by { NewerBehind(data, puts, readTs, i, v); }
        }
      }
    }
  }

  /** A put without newer versions in front does not change which one comes first. */
  lemma NewerBehind(data: Data, puts: seq<KeyValue>, readTs: Timestamp, i: nat, v: Version)
    requires puts != [] && FirstNewer(data, puts[1..], readTs, i, v)
    requires forall u :: u in HistoryOf(data, puts[0].key) ==> u.ts <= readTs
    ensures FirstNewer(data, puts, readTs, i + 1, v)
  {
    forall j, u | 0 <= j < i + 1 && u in HistoryOf(data, puts[j].key) ensures u.ts <= readTs {
      assert j > 0 ==> puts[j] == puts[1..][j - 1];
    }
  }

  // --- The invariant ---

  ghost predicate RecordOk(t: TxID, tx: State) {
    match tx.phase
    case NotStarted => tx == FRESH
    case Open => tx.txid == t && tx.readTs > UNDEFINED_TS && tx.commitTs == UNDEFINED_TS
    case _ => tx.txid == t && UNDEFINED_TS < tx.readTs <= tx.commitTs
  }

  /** Each version is the first put of a key by one committed transaction, and each such put is there. */
  ghost predicate Installed(txs: Records, k: Key, v: Version) {
    && v.txid in txs
    && txs[v.txid].phase.Committed?
    && txs[v.txid].commitTs == v.ts
    && FirstPut(txs[v.txid].puts, k) == Some(v.value)
  }

  ghost predicate HistoryExact(txs: Records, data: Data) {
    forall k, v :: v in HistoryOf(data, k) <==> Installed(txs, k, v)
  }

  /** A commit time is shared with no other transaction. */
  ghost predicate TimesDistinct(txs: Records) {
    forall a, b :: a in txs && b in txs && a != b && txs[a].phase.Committed? ==>
      && (!txs[b].phase.NotStarted? ==> txs[a].commitTs != txs[b].readTs)
      && (txs[b].phase.Committed? ==> txs[a].commitTs != txs[b].commitTs)
  }

  ghost predicate WriteInCommon(a: State, b: State) {
    exists k :: Writes(a, k) && Writes(b, k)
  }

  /** First committer wins: of two committed writers of a key, one committed before the other took its snapshot. */
  ghost predicate FirstCommitterWins(txs: Records) {
    forall a, b :: && a in txs && b in txs && a != b && txs[a].phase.Committed? && txs[b].phase.Committed?
                   && WriteInCommon(txs[a], txs[b])
      ==> txs[a].commitTs < txs[b].readTs || txs[b].commitTs < txs[a].readTs
  }

  ghost predicate StoreInv(txs: Records, data: Data) {
    && (forall t :: t in txs ==> RecordOk(t, txs[t]))
    && HistoryExact(txs, data)
    && TimesDistinct(txs)
    && FirstCommitterWins(txs)
  }

  /** All times recorded by transactions other than `t` are before `ts`. */
  ghost predicate OthersBefore(txs: Records, t: TxID, ts: Timestamp) {
    forall a :: a in txs && a != t ==> txs[a].readTs < ts && txs[a].commitTs < ts
  }

  /** A decision is never revised. */
  ghost predicate Kept(old_tx: State, new_tx: State) {
    old_tx.phase.Committed? || old_tx.phase.RolledBack? ==> new_tx == old_tx
  }

  /** `c` committed a write to a key that `t` also writes, after `t` took its snapshot and before `t` was decided. */
  ghost predicate Overtaken(txs: Records, t: TxID, c: TxID) {
    && t in txs && c in txs && t != c
    && txs[c].phase.Committed?
    && WriteInCommon(txs[t], txs[c])
    && txs[t].readTs < txs[c].commitTs < txs[t].commitTs
  }

  ghost predicate ConflictWitness(txs: Records, t: TxID, c: TxID) {
    Overtaken(txs, t, c) && txs[t].phase.RolledBack?
  }

  /** `v` is the newest version of `k` from before time `end`. */
  ghost predicate NewestBefore(data: Data, k: Key, end: Timestamp, v: Version) {
    v in HistoryOf(data, k) && v.ts < end && forall u :: u in HistoryOf(data, k) && u.ts < end ==> u.ts <= v.ts
  }

  /**
    At time `end` the `i`-th put was the first one with a version newer than `readTs`, and `v` was the newest version
    of its key.
   */
  ghost predicate FirstNewerBefore(data: Data, puts: seq<KeyValue>, readTs: Timestamp, end: Timestamp, i: nat,
                                   v: Version)
  {
    && i < |puts| && NewestBefore(data, puts[i].key, end, v) && readTs < v.ts
    && forall j, u :: 0 <= j < i && u in HistoryOf(data, puts[j].key) && u.ts < end ==> u.ts <= readTs
  }

  /** `c` is what the conflict test of `t` answered: the writer of that version. */
  ghost predicate Answered(data: Data, tx: State, c: TxID) {
    exists i: nat, v :: FirstNewerBefore(data, tx.puts, tx.readTs, tx.commitTs, i, v) && v.txid == c
  }

  /** `t` was rolled back because of `c`. */
  ghost predicate Reported(txs: Records, data: Data, t: TxID, c: TxID) {
    ConflictWitness(txs, t, c) && Answered(data, txs[t], c)
  }

  // --- Each message keeps the invariant ---

  lemma UncommittedKeepsHistory(txs: Records, data: Data, t: TxID, tx: State)
    requires HistoryExact(txs, data) && t in txs && !txs[t].phase.Committed? && !tx.phase.Committed?
    ensures HistoryExact(txs[t := tx], data)
  {
    hide FirstPut;
    forall k, v ensures v in HistoryOf(data, k) <==> Installed(txs[t := tx], k, v) {
      assert v in HistoryOf(data, k) <==> Installed(txs, k, v);
    }
  }

  lemma UncommittedKeepsOrder(txs: Records, t: TxID, tx: State)
    requires FirstCommitterWins(txs) && t in txs && !txs[t].phase.Committed? && !tx.phase.Committed?
    ensures FirstCommitterWins(txs[t := tx])
  {
    hide WriteInCommon;
  }

  /** Opening a transaction or collecting a put leaves the committed transactions as they were. */
  lemma UncommittedStep(txs: Records, data: Data, t: TxID, tx: State, ts: Timestamp)
    requires StoreInv(txs, data) && OthersBefore(txs, t, ts) && RecordOk(t, tx)
    requires t in txs && !txs[t].phase.Committed? && !tx.phase.Committed?
    requires tx.readTs == txs[t].readTs || tx.readTs == ts
    ensures StoreInv(txs[t := tx], data)
  {
    hide FirstPut, WriteInCommon;
    UncommittedKeepsHistory(txs, data, t, tx);
    UncommittedKeepsOrder(txs, t, tx);
    hide HistoryExact, FirstCommitterWins;
  }

  lemma VersionsAreOlder(txs: Records, data: Data, t: TxID, ts: Timestamp, k: Key)
    requires StoreInv(txs, data) && OthersBefore(txs, t, ts) && t in txs && !txs[t].phase.Committed?
    ensures forall v :: v in HistoryOf(data, k) ==> v.ts < ts
  {}

  /** Without a conflict, the transactions whose writes this one touches all committed before its snapshot. */
  lemma NoConflictMeansOlder(txs: Records, data: Data, t: TxID, a: TxID)
    requires StoreInv(txs, data) && t in txs && txs[t].phase.Open?
    requires FirstConflict(data, txs[t].puts, txs[t].readTs).None?
    requires a in txs && a != t && txs[a].phase.Committed? && WriteInCommon(txs[t], txs[a])
    ensures txs[a].commitTs < txs[t].readTs
  {
    var k :| Writes(txs[t], k) && Writes(txs[a], k);
    var v := Version(txs[a].commitTs, a, FirstPut(txs[a].puts, k).value);
    assert Installed(txs, k, v);
    ConflictTestIsExact(data, txs[t].puts, txs[t].readTs);
    FirstPutIsFirst(txs[t].puts, k);
    var i :| 0 <= i < |txs[t].puts| && txs[t].puts[i].key == k;
    assert txs[t].puts[i] in txs[t].puts;
    assert v in HistoryOf(data, k);
  }

  ghost predicate MayCommit(txs: Records, data: Data, t: TxID, ts: Timestamp) {
    && StoreInv(txs, data) && OthersBefore(txs, t, ts)
    && t in txs && txs[t].phase.Open? && txs[t].readTs <= ts
    && FirstConflict(data, txs[t].puts, txs[t].readTs).None?
  }

  ghost function WithCommit(txs: Records, t: TxID, ts: Timestamp): Records
    requires t in txs
  {
    txs[t := txs[t].(phase := Committed, commitTs := ts)]
  }

  lemma CommitKeepsHistory(txs: Records, data: Data, t: TxID, ts: Timestamp)
    requires MayCommit(txs, data, t, ts)
    ensures HistoryExact(WithCommit(txs, t, ts), ApplyAll(data, t, ts, txs[t].puts))
  {
    hide FirstConflict, ApplyAll, FirstPut, TimesDistinct, FirstCommitterWins;
    var after, data' := WithCommit(txs, t, ts), ApplyAll(data, t, ts, txs[t].puts);
    forall k, v ensures v in HistoryOf(data', k) <==> Installed(after, k, v) {
      VersionsAreOlder(txs, data, t, ts, k);
      ApplyAllAppends(data, t, ts, txs[t].puts, k);
      assert v in HistoryOf(data, k) <==> Installed(txs, k, v);
    }
  }

  lemma CommitKeepsOrder(txs: Records, data: Data, t: TxID, ts: Timestamp, a: TxID)
    requires MayCommit(txs, data, t, ts)
    requires a in txs && a != t && txs[a].phase.Committed?
    requires WriteInCommon(txs[t], txs[a])
    ensures txs[a].commitTs < WithCommit(txs, t, ts)[t].readTs
  {
    NoConflictMeansOlder(txs, data, t, a);
  }

  lemma CommonWriteFrame(txs: Records, t: TxID, ts: Timestamp, a: TxID, b: TxID)
    requires t in txs && a in txs && b in txs
    requires WriteInCommon(WithCommit(txs, t, ts)[a], WithCommit(txs, t, ts)[b])
    ensures WriteInCommon(txs[a], txs[b]) && WriteInCommon(txs[b], txs[a])
  {
    var k :| Writes(WithCommit(txs, t, ts)[a], k) && Writes(WithCommit(txs, t, ts)[b], k);
    assert Writes(txs[a], k) && Writes(txs[b], k);
  }

  lemma CommitKeepsFirstCommitterWins(txs: Records, data: Data, t: TxID, ts: Timestamp)
    requires MayCommit(txs, data, t, ts)
    ensures FirstCommitterWins(WithCommit(txs, t, ts))
  {
    var after := WithCommit(txs, t, ts);
    forall a, b | && a in after && b in after && a != b && after[a].phase.Committed? && after[b].phase.Committed?
                  && WriteInCommon(after[a], after[b])
      ensures after[a].commitTs < after[b].readTs || after[b].commitTs < after[a].readTs
    {
      hide HistoryExact, TimesDistinct, Writes, WriteInCommon;
      CommonWriteFrame(txs, t, ts, a, b);
      if b == t {
        CommitKeepsOrder(txs, data, t, ts, a);
      } else if a == t {
        CommitKeepsOrder(txs, data, t, ts, b);
      }
    }
  }

  /** Committing without a conflict keeps the invariant. */
  lemma CommitStep(txs: Records, data: Data, t: TxID, ts: Timestamp)
    requires MayCommit(txs, data, t, ts)
    ensures StoreInv(WithCommit(txs, t, ts), ApplyAll(data, t, ts, txs[t].puts))
  {
    hide HistoryExact, FirstCommitterWins;
    CommitKeepsHistory(txs, data, t, ts);
    CommitKeepsFirstCommitterWins(txs, data, t, ts);
  }

  /** A version newer than the snapshot was committed by another writer of its key. */
  lemma NewerMeansWitness(txs: Records, data: Data, t: TxID, tx: State, p: KeyValue, v: Version)
    requires StoreInv(txs, data) && t in txs && txs[t].phase.Open?
    requires p in txs[t].puts && NewerVersion(data, p.key, txs[t].readTs, v)
    requires tx == txs[t].(phase := RolledBack, commitTs := tx.commitTs) && OthersBefore(txs, t, tx.commitTs)
    ensures ConflictWitness(txs[t := tx], t, v.txid)
  {
    hide FirstPut, TimesDistinct, FirstCommitterWins;
    assert Installed(txs, p.key, v);
    hide HistoryExact, StoreInv;
    FirstPutIsFirst(txs[t].puts, p.key);
    assert Writes(tx, p.key) && Writes(txs[v.txid], p.key);
  }

  /** The transaction named in a rollback really committed a conflicting write, and is the one the test finds first. */
  lemma RollbackHasWitness(txs: Records, data: Data, t: TxID, tx: State)
    requires StoreInv(txs, data) && t in txs && txs[t].phase.Open?
    requires FirstConflict(data, txs[t].puts, txs[t].readTs).Some?
    requires tx == txs[t].(phase := RolledBack, commitTs := tx.commitTs) && OthersBefore(txs, t, tx.commitTs)
    ensures Reported(txs[t := tx], data, t, FirstConflict(data, txs[t].puts, txs[t].readTs).value)
  {
    hide StoreInv, ConflictWitness, FirstConflict, FirstNewerBefore;
    ConflictTestIsExact(data, txs[t].puts, txs[t].readTs);
    var i: nat, v :| && FirstNewer(data, txs[t].puts, txs[t].readTs, i, v)
                     && v.txid == FirstConflict(data, txs[t].puts, txs[t].readTs).value;
    assert txs[t].puts[i] in txs[t].puts;
    NewerMeansWitness(txs, data, t, tx, txs[t].puts[i], v);
    forall k: Key, u: Version | u in HistoryOf(data, k) ensures u.ts < tx.commitTs {
      VersionsAreOlder(txs, data, t, tx.commitTs, k);
    }
    FirstNewerIsBefore(data, tx.puts, tx.readTs, tx.commitTs, i, v);
  }

  lemma FirstNewerIsBefore(data: Data, puts: seq<KeyValue>, readTs: Timestamp, end: Timestamp, i: nat, v: Version)
    requires FirstNewer(data, puts, readTs, i, v)
    requires forall k: Key, u: Version :: u in HistoryOf(data, k) ==> u.ts < end
    ensures FirstNewerBefore(data, puts, readTs, end, i, v)
  {}

  // --- A whole tick ---

  /** Every rollback message names a real conflict. */
  ghost predicate Honest(txs: Records, data: Data, t: TxID, out: seq<Message>) {
    forall m :: m in out && m.payload.RolledBackByServer? ==> Reported(txs, data, t, m.payload.conflictTxid)
  }

  /** What holds between two messages of a tick at time `ts`. */
  ghost predicate MidTick(txs: Records, t: TxID, w: World, ts: Timestamp) {
    && t in txs && txs[t] == w.tx && t != UNDEFINED_TX_ID
    && StoreInv(txs, w.data)
    && OthersBefore(txs, t, ts)
    && UNDEFINED_TS < ts && w.tx.readTs <= ts && w.tx.commitTs <= ts
    && Honest(txs, w.data, t, w.out)
  }

  /** A transaction that is not rolled back has sent no rollback. */
  lemma HonestBefore(txs: Records, data: Data, t: TxID, out: seq<Message>)
    requires t in txs && !txs[t].phase.RolledBack? && Honest(txs, data, t, out)
    ensures forall m :: m in out ==> !m.payload.RolledBackByServer?
  {}

  /** The first message beyond `out` is the only one that can be a rollback. */
  lemma HonestAfter(txs: Records, data: Data, after: Records, data': Data, t: TxID, out: seq<Message>, m: Message)
    requires t in txs && !txs[t].phase.RolledBack? && Honest(txs, data, t, out)
    requires m.payload.RolledBackByServer? ==> Reported(after, data', t, m.payload.conflictTxid)
    ensures Honest(after, data', t, out + [m])
  {
    HonestBefore(txs, data, t, out);
  }

  /** Handling a message other than COMMIT, or nothing because of an exception. */
  lemma OtherKeepsStore(txs: Records, t: TxID, w: World, ts: Timestamp, m: Message)
    requires MidTick(txs, t, w, ts) && m.Txid() == t && (w.threw || !w.tx.phase.Open? || !m.payload.Commit?)
    ensures var v := Handle(w, ts, m); MidTick(txs[t := v.tx], t, v, ts) && Kept(w.tx, v.tx)
  {
    hide HistoryExact, TimesDistinct, FirstCommitterWins, Reported, FirstConflict, ApplyAll;
    var v := Handle(w, ts, m);
    if v.out == w.out {
      assert txs[t := v.tx] == txs;
    } else {
      UncommittedStep(txs, w.data, t, v.tx, ts);
      hide StoreInv;
      HonestAfter(txs, w.data, txs[t := v.tx], v.data, t, w.out, v.out[|w.out|]);
    }
  }

  /** Handling a COMMIT that meets a conflict. */
  lemma RollbackKeepsStore(txs: Records, t: TxID, w: World, ts: Timestamp, m: Message)
    requires MidTick(txs, t, w, ts) && w.tx.phase.Open?
    requires FirstConflict(w.data, w.tx.puts, w.tx.readTs).Some?
    ensures var v := HandleCommit(w, ts, m); MidTick(txs[t := v.tx], t, v, ts)
  {
    hide HistoryExact, TimesDistinct, FirstCommitterWins, Reported, FirstConflict, ApplyAll;
    var v := HandleCommit(w, ts, m);
    UncommittedStep(txs, w.data, t, v.tx, ts);
    RollbackHasWitness(txs, w.data, t, v.tx);
    hide StoreInv;
    HonestAfter(txs, w.data, txs[t := v.tx], v.data, t, w.out, v.out[|w.out|]);
  }

  /** Handling a COMMIT without a conflict. */
  lemma CommitKeepsStore(txs: Records, t: TxID, w: World, ts: Timestamp, m: Message)
    requires MidTick(txs, t, w, ts) && w.tx.phase.Open?
    requires FirstConflict(w.data, w.tx.puts, w.tx.readTs).None?
    ensures var v := HandleCommit(w, ts, m); MidTick(txs[t := v.tx], t, v, ts)
  {
    hide HistoryExact, TimesDistinct, FirstCommitterWins, Reported, FirstConflict, ApplyAll;
    var v := HandleCommit(w, ts, m);
    CommitStep(txs, w.data, t, ts);
    hide StoreInv;
    HonestAfter(txs, w.data, txs[t := v.tx], v.data, t, w.out, v.out[|w.out|]);
  }

  lemma HandleKeepsStore(txs: Records, t: TxID, w: World, ts: Timestamp, m: Message)
    requires MidTick(txs, t, w, ts) && m.Txid() == t
    ensures var v := Handle(w, ts, m); MidTick(txs[t := v.tx], t, v, ts) && Kept(w.tx, v.tx)
  {
    hide HandleCommit, MidTick;
    if w.threw || !w.tx.phase.Open? || !m.payload.Commit? {
      OtherKeepsStore(txs, t, w, ts, m);
    } else {
      if FirstConflict(w.data, w.tx.puts, w.tx.readTs).Some? {
        RollbackKeepsStore(txs, t, w, ts, m);
      } else {
        CommitKeepsStore(txs, t, w, ts, m);
      }
    }
  }

  lemma {:induction false} HandleAllKeepsStore(txs: Records, t: TxID, w: World, ts: Timestamp, msgs: seq<Message>)
    requires MidTick(txs, t, w, ts) && forall m :: m in msgs ==> m.Txid() == t
    ensures var v := HandleAll(w, ts, msgs); MidTick(txs[t := v.tx], t, v, ts) && Kept(w.tx, v.tx)
  {
    if msgs == [] {
      assert txs[t := w.tx] == txs;
    } else {
      hide MidTick, Handle;
      var n := |msgs| - 1;
      HandleAllKeepsStore(txs, t, w, ts, msgs[..n]);
      var u := HandleAll(w, ts, msgs[..n]);
      HandleKeepsStore(txs[t := u.tx], t, u, ts, msgs[n]);
      var v := HandleAll(w, ts, msgs);
      assert txs[t := u.tx][t := v.tx] == txs[t := v.tx];
    }
  }

  /** A record that has handled nothing yet makes no difference. */
  lemma AddFresh(txs: Records, data: Data, t: TxID)
    requires StoreInv(txs, data) && t !in txs
    ensures StoreInv(txs[t := FRESH], data)
  {
    hide FirstPut;
    var after := txs[t := FRESH];
    forall k, v ensures v in HistoryOf(data, k) <==> Installed(after, k, v) {
      assert v in HistoryOf(data, k) <==> Installed(txs, k, v);
    }
  }

  // --- What a later tick leaves ---

  predicate IsDecided(tx: State) {
    tx.phase.Committed? || tx.phase.RolledBack?
  }

  /** A snapshot is taken, and a decision made, at time `ts`, and neither is revised. */
  predicate Stamped(a: State, b: State, ts: Timestamp) {
    && (if a.phase.NotStarted? then b.phase.NotStarted? || b.readTs == ts
        else !b.phase.NotStarted? && b.readTs == a.readTs)
    && (if IsDecided(a) then b == a else IsDecided(b) ==> b.commitTs == ts)
  }

  lemma HandleStamps(w: World, ts: Timestamp, m: Message, a: State)
    requires Stamped(a, w.tx, ts)
    ensures Stamped(a, Handle(w, ts, m).tx, ts)
  {
    hide FirstConflict, ApplyAll;
  }

  lemma {:induction false} HandleAllStamps(w: World, ts: Timestamp, msgs: seq<Message>)
    ensures Stamped(w.tx, HandleAll(w, ts, msgs).tx, ts)
  {
    if msgs == [] {
    } else {
      hide Handle, Stamped;
      var n := |msgs| - 1;
      HandleAllStamps(w, ts, msgs[..n]);
      HandleStamps(HandleAll(w, ts, msgs[..n]), ts, msgs[n], w.tx);
    }
  }

  /** Versions are kept, and new ones have the time `ts` or a later one. */
  ghost predicate GrowsFrom(data: Data, data': Data, ts: Timestamp) {
    forall k: Key, v: Version ::
      if v in HistoryOf(data, k) then v in HistoryOf(data', k) else v in HistoryOf(data', k) ==> v.ts >= ts
  }

  /** A tick at time `ts` adds versions of that time only. */
  lemma TickGrows(txs: Records, data: Data, t: TxID, tx: State, data': Data, ts: Timestamp)
    requires HistoryExact(txs, data) && HistoryExact(txs[t := tx], data')
    requires Stamped(if t in txs then txs[t] else FRESH, tx, ts)
    ensures GrowsFrom(data, data', ts)
  {
    hide FirstPut;
    forall k: Key, v: Version
      ensures if v in HistoryOf(data, k) then v in HistoryOf(data', k) else v in HistoryOf(data', k) ==> v.ts >= ts
    {
      assert v in HistoryOf(data, k) <==> Installed(txs, k, v);
      assert v in HistoryOf(data', k) <==> Installed(txs[t := tx], k, v);
    }
  }

  /** Witnesses of past conflicts stay valid, because decisions are kept. */
  lemma WitnessKept(txs: Records, t: TxID, tx: State, a: TxID, c: TxID)
    requires ConflictWitness(txs, a, c)
    requires t in txs ==> Kept(txs[t], tx)
    ensures ConflictWitness(txs[t := tx], a, c)
  {}

  /** What a test answered stays so, because later versions do not count. */
  lemma AnswerKept(data: Data, data': Data, tx: State, c: TxID, ts: Timestamp)
    requires Answered(data, tx, c) && GrowsFrom(data, data', ts) && tx.commitTs <= ts
    ensures Answered(data', tx, c)
  {
    var i: nat, v :| FirstNewerBefore(data, tx.puts, tx.readTs, tx.commitTs, i, v) && v.txid == c;
    assert FirstNewerBefore(data', tx.puts, tx.readTs, tx.commitTs, i, v);
  }

  lemma ReportKept(txs: Records, data: Data, t: TxID, tx: State, data': Data, ts: Timestamp, a: TxID, c: TxID)
    requires Reported(txs, data, a, c) && GrowsFrom(data, data', ts) && txs[a].commitTs <= ts
    requires t in txs ==> Kept(txs[t], tx)
    ensures Reported(txs[t := tx], data', a, c)
  {
    hide Answered, GrowsFrom;
    WitnessKept(txs, t, tx, a, c);
    AnswerKept(data, data', txs[a], c, ts);
  }
}
