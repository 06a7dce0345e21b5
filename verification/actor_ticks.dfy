/** What one actor does in a tick, as a sequence of transaction steps. */
module ActorTicks {
  import opened TxTypes
  import opened PutRequests
  import opened Participants
  import Server = ServerTransaction
  import Client = ClientTransaction
  import opened Protocol

  // --- Runs ---

  lemma {:induction false} RunAppend(s: System, a: seq<Step>, b: seq<Step>)
    requires ValidRun(s, a) && ValidRun(Run(s, a), b)
    ensures ValidRun(s, a + b) && Run(s, a + b) == Run(Run(s, a), b)
    decreases |a|
  {
    hide Enabled, Next;
    if a == [] {
      assert a + b == b;
    } else {
      assert (a + b)[0] == a[0] && (a + b)[1..] == a[1..] + b;
      RunAppend(Next(s, a[0]), a[1..], b);
    }
  }

  lemma RunNone(s: System)
    ensures ValidRun(s, []) && Run(s, []) == s
  {}

  lemma RunOne(s: System, step: Step)
    requires Enabled(s, step)
    ensures ValidRun(s, [step]) && Run(s, [step]) == Next(s, step)
  {}

  // --- Message ids are handed out one by one ---

  ghost predicate Numbered(out: seq<Message>, first: MsgID, last: MsgID) {
    && last == first + |out|
    && forall i :: 0 <= i < |out| ==> out[i].msgId == first + 1 + i
  }

  lemma NumberedAppend(a: seq<Message>, b: seq<Message>, first: MsgID, middle: MsgID, last: MsgID)
    requires Numbered(a, first, middle) && Numbered(b, middle, last)
    ensures Numbered(a + b, first, last)
  {}

  lemma HandleNumbered(w: Server.World, ts: Timestamp, m: Message, first: MsgID)
    requires Numbered(w.out, first, w.lastMsg)
    ensures Numbered(Server.Handle(w, ts, m).out, first, Server.Handle(w, ts, m).lastMsg)
  {
    hide Server.FirstConflict, Server.ApplyAll;
  }

  lemma {:induction false} HandleAllNumbered(w: Server.World, ts: Timestamp, msgs: seq<Message>, first: MsgID)
    requires Numbered(w.out, first, w.lastMsg)
    ensures Numbered(Server.HandleAll(w, ts, msgs).out, first, Server.HandleAll(w, ts, msgs).lastMsg)
  {
    if msgs == [] {
    } else {
      hide Server.Handle, Numbered;
      var n := |msgs| - 1;
      HandleAllNumbered(w, ts, msgs[..n], first);
      HandleNumbered(Server.HandleAll(w, ts, msgs[..n]), ts, msgs[n], first);
    }
  }

  lemma {:induction false} PrepareNumbered(b: Batch, client: ActorID, server: ActorID, txid: TxID, first: MsgID)
    requires Numbered(b.out, first, b.lastMsg)
    ensures var p := Prepare(b, client, server, txid); Numbered(p.out, first, p.lastMsg)
    decreases |b.reqs.puts| - b.reqs.next
  {
    if b.reqs.next < |b.reqs.puts| {
      PrepareNumbered(PrepareOne(b, client, server, txid), client, server, txid, first);
    }
  }

  lemma {:induction false} DecideSendsNothing(w: Client.World, msgs: seq<Message>)
    ensures Client.Decide(w, msgs).out == w.out && Client.Decide(w, msgs).ids == w.ids
  {
    if msgs == [] {
    } else {
      DecideSendsNothing(w, msgs[..|msgs| - 1]);
    }
  }

  lemma AdvanceNumbered(w: Client.World, ts: Timestamp, msgs: seq<Message>)
    requires w.out == []
    ensures Numbered(Client.Advance(w, ts, msgs).out, w.ids.lastMsg, Client.Advance(w, ts, msgs).ids.lastMsg)
  {
    DecideSendsNothing(w, msgs);
  }

  lemma TickNumbered(c: Client.State, ids: Ids, ts: Timestamp, msgs: seq<Message>)
    ensures Numbered(Client.Tick(c, ids, ts, msgs).out, ids.lastMsg, Client.Tick(c, ids, ts, msgs).ids.lastMsg)
  {
    var received := Client.Receive(Client.World(c, ids, [], false), msgs);
    AdvanceNumbered(received, ts, msgs);
    var w := Client.Advance(received, ts, msgs);
    hide Client.Advance, Client.Receive;
    if !received.threw && !w.threw && w.tx.participant.Some? && w.tx.participant.value.phase.TxOpen? {
      var p := w.tx.participant.value;
      PrepareNumbered(Batch(p.reqs, w.ids.lastMsg, []), p.client, p.server, p.txid, w.ids.lastMsg);
      NumberedAppend(w.out, Scheduled(p, w.ids.lastMsg).out, ids.lastMsg, w.ids.lastMsg, Scheduled(p,
                     w.ids.lastMsg).lastMsg);
    }
  }

  /** Every message in flight has an id that was handed out. */
  ghost predicate IdsBound(s: System) {
    forall m :: m in s.net ==> m.msgId <= s.ids.lastMsg
  }

  // --- Grouping by transaction ---

  function OfTx(msgs: seq<Message>, t: TxID): seq<Message>
  {
    if msgs == [] then []
    else
      var n := |msgs| - 1;
      OfTx(msgs[..n], t) + if msgs[n].Txid() == t then [msgs[n]] else []
  }

  lemma OfTxSnoc(msgs: seq<Message>, i: nat, t: TxID)
    requires i < |msgs|
    ensures OfTx(msgs[..i + 1], t) == if msgs[i].Txid() == t then OfTx(msgs[..i], t) + [msgs[i]] else OfTx(msgs[..i], t)
  {
    assert msgs[..i + 1][..i] == msgs[..i];
  }

  ghost function OfTxAt(msgs: seq<Message>, t: TxID): set<nat> {
    set k: nat | k < |msgs| && msgs[k].Txid() == t
  }

  lemma OfTxAtNext(msgs: seq<Message>, t: TxID)
    requires msgs != []
    ensures var n := |msgs| - 1;
            OfTxAt(msgs, t) == OfTxAt(msgs[..n], t) + if msgs[n].Txid() == t then {n as nat} else {}
  {}

  /** A transaction is handed each of its messages once, no other one, and in the order of the batch. */
  lemma {:induction false} OfTxPositions(msgs: seq<Message>, t: TxID) returns (idx: seq<nat>)
    ensures Lists(idx, OfTxAt(msgs, t)) && |OfTx(msgs, t)| == |idx|
    ensures forall i :: 0 <= i < |idx| ==> idx[i] < |msgs| && OfTx(msgs, t)[i] == msgs[idx[i]]
  {
    if msgs == [] {
      idx := [];
    } else {
      var n := |msgs| - 1;
      idx := OfTxPositions(msgs[..n], t);
      OfTxAtNext(msgs, t);
      if msgs[n].Txid() == t {
        assert forall k :: k in OfTxAt(msgs[..n], t) ==> k < n;
        hide OfTxAt, Lists;
        ListsNext(idx, OfTxAt(msgs[..n], t), n);
        idx := idx + [n];
      }
    }
  }

  lemma OfTxNone()
    ensures forall t :: OfTx([], t) == []
  {}

  function Lookup(perTx: map<TxID, seq<Message>>, t: TxID): seq<Message> {
    if t in perTx then perTx[t] else []
  }

  lemma {:induction false} OfTxHas(msgs: seq<Message>, t: TxID)
    ensures forall m :: m in OfTx(msgs, t) <==> m in msgs && m.Txid() == t
  {
    if msgs == [] {
    } else {
      var n := |msgs| - 1;
      assert msgs == msgs[..n] + [msgs[n]];
      OfTxHas(msgs[..n], t);
    }
  }

  lemma {:induction false} OfTxDistinct(msgs: seq<Message>, t: TxID)
    requires Distinct(msgs)
    ensures Distinct(OfTx(msgs, t))
  {
    if msgs == [] {
    } else {
      var n := |msgs| - 1;
      OfTxDistinct(msgs[..n], t);
      OfTxHas(msgs[..n], t);
    }
  }

  /** The delivered messages whose transactions still have to tick. */
  function Pending(msgs: seq<Message>, todo: set<TxID>): set<Message> {
    set m | m in msgs && m.Txid() in todo
  }

  lemma PostedAppend(a: seq<Message>, b: seq<Message>, actor: ActorID)
    ensures Posted(a + b, actor) == Posted(a, actor) + Posted(b, actor)
  {}

  /** Messages posted since `s` are not among those in flight at `s`. */
  lemma PostedIsNew(s: System, out: seq<Message>, last: MsgID, actor: ActorID)
    requires IdsBound(s) && Numbered(out, s.ids.lastMsg, last)
    ensures Posted(out, actor) !! s.net
    ensures forall m :: m in Posted(out, actor) ==> s.ids.lastMsg < m.msgId <= last
  {}

  /** `msgs` lists messages in flight to `actor`, each once. */
  ghost predicate InboxOf(s: System, msgs: seq<Message>, actor: ActorID) {
    Distinct(msgs) && forall m :: m in msgs ==> m in s.net && m.destination == actor
  }

  /** The clock and the id counters that all actors share are those of the system state. */
  ghost predicate InStep(s: System, clock: Clock, generator: Generator)
    reads clock, generator
  {
    s.clock == clock.now && s.ids == generator.ids
  }
}
