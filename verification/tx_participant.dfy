/** What one client transaction knows about the server it talks to. */
module Participants {
  import opened TxTypes
  import opened PutRequests
  import opened Outbox

  datatype Phase = NotStarted | StartMsgSent | TxOpen

  datatype Participant = Participant(
    client: ActorID,
    server: ActorID,
    phase: Phase,
    txid: TxID,
    readTs: Timestamp,
    reqs: Requests)

  function NewParticipant(client: ActorID, server: ActorID): Participant {
    Participant(client, server, Phase.NotStarted, UNDEFINED_TX_ID, UNDEFINED_TS, EMPTY)
  }

  function StartMessage(p: Participant, ids: Ids): Message {
    Message(p.client, p.server, ids.lastMsg + 1, Payload.Start(ids.lastTx + 1))
  }

  function AfterStart(p: Participant, ids: Ids): Participant {
    p.(phase := StartMsgSent, txid := ids.lastTx + 1)
  }

  /** `None` stands for an exception or a failed assertion. */
  function OpenedBy(p: Participant, msgs: seq<Message>): Option<Participant>
  {
    if msgs == [] then Some(p)
    else if exists i :: 0 <= i < |msgs| && !IsStartAck(msgs[i]) then None
    else if p.readTs != UNDEFINED_TS then None
    else Some(p.(readTs := msgs[|msgs| - 1].payload.readTs, phase := TxOpen))
  }

  /** A START_ACK that carries a timestamp. */
  predicate IsStartAck(m: Message) {
    m.payload.StartAck? && m.payload.readTs != UNDEFINED_TS
  }

  /** Every PUT_REPLY of the batch completes its request; other messages are ignored. */
  function Acknowledged(r: Requests, msgs: seq<Message>): Requests
  {
    if msgs == [] then r
    else
      var front, last := Acknowledged(r, msgs[..|msgs| - 1]), msgs[|msgs| - 1];
      if last.payload.PutReply? then CompleteRequest(front, last.payload.originalId) else front
  }

  function Incoming(p: Participant, msgs: seq<Message>): Option<Participant>
  {
    match p.phase
    case NotStarted => None
    case StartMsgSent => OpenedBy(p, msgs)
    case TxOpen => Some(p.(reqs := Acknowledged(p.reqs, msgs)))
  }

  /** The participant with the message-id counter after its pending puts are scheduled, and those PUT messages. */
  function Scheduled(p: Participant, lastMsg: MsgID): Batch
  {
    var b := Batch(p.reqs, lastMsg, []);
    if p.phase.TxOpen? then Prepare(b, p.client, p.server, p.txid) else b
  }

  lemma {:induction false} AcknowledgedKeepsAccounting(r: Requests, msgs: seq<Message>)
    requires Accounting(r)
    ensures Accounting(Acknowledged(r, msgs))
  {
    if msgs == [] {
    } else {
      var front, last := msgs[..|msgs| - 1], msgs[|msgs| - 1];
      AcknowledgedKeepsAccounting(r, front);
      if last.payload.PutReply? {
        CompleteRequestKeepsAccounting(Acknowledged(r, front), last.payload.originalId);
      }
    }
  }

  class TxParticipant {
    const client: ActorID
    const server: ActorID
    const retrier: Retrier
    const generator: Generator
    const manager: RequestsManager
    var txid: TxID
    var readTs: Timestamp
    var phase: Phase

    ghost predicate Valid() reads this, manager { manager.Valid() }

    function View(): Participant
      requires Valid()
      reads this, manager
    {
      Participant(client, server, phase, txid, readTs, manager.View())
    }

    constructor (client: ActorID, server: ActorID, retrier: Retrier, generator: Generator)
      ensures Valid() && View() == NewParticipant(client, server) && fresh(manager)
      ensures this.retrier == retrier && this.generator == generator
    {
      this.client, this.server, this.retrier, this.generator := client, server, retrier, generator;
      manager := new RequestsManager();
      txid, readTs, phase := UNDEFINED_TX_ID, UNDEFINED_TS, Phase.NotStarted;
    }

    method ScheduleStart()
      requires Valid()
      modifies this, retrier, generator
      ensures Valid() && View() == AfterStart(old(View()), old(generator.ids))
      ensures retrier.scheduled == old(retrier.scheduled) + [StartMessage(old(View()), old(generator.ids))]
      ensures generator.ids == Ids(old(generator.ids).lastMsg + 1, old(generator.ids).lastTx + 1)
    {
      var msgId := generator.NextMsgId();
      txid := generator.NextTxId();
      var _ := retrier.Schedule(Message(client, server, msgId, Payload.Start(txid)));
      phase := StartMsgSent;
    }

    method ProcessRepliesStartSent(msgs: seq<Message>) returns (threw: bool)
      requires Valid() && phase == StartMsgSent
      modifies this
      ensures Valid() && threw == OpenedBy(old(View()), msgs).None?
      ensures !threw ==> View() == OpenedBy(old(View()), msgs).value
      ensures threw <==> msgs != [] && (old(readTs) != UNDEFINED_TS || exists m :: m in msgs && !IsStartAck(m))
      ensures !threw ==>
        if msgs == [] then View() == old(View())
        else View() == old(View()).(phase := TxOpen, readTs := msgs[|msgs| - 1].payload.readTs)
    {
      if msgs == [] {
        return false;
      }
      var ts := UNDEFINED_TS;
      for i := 0 to |msgs|
        invariant forall j :: 0 <= j < i ==> IsStartAck(msgs[j])
        invariant i > 0 ==> ts == msgs[i - 1].payload.readTs
      {
        if !msgs[i].payload.StartAck? {
          return true;
        }
        ts := msgs[i].payload.readTs;
        if ts == UNDEFINED_TS {
          return true;
        }
      }
      if readTs != UNDEFINED_TS {
        return true;
      }
      readTs := ts;
      phase := TxOpen;
      threw := false;
    }

    method ProcessRepliesOpen(msgs: seq<Message>)
      requires Valid()
      modifies manager
      ensures Valid() && manager.View() == Acknowledged(old(manager.View()), msgs)
    {
      for i := 0 to |msgs|
        invariant Valid() && manager.View() == Acknowledged(old(manager.View()), msgs[..i])
      {
        assert msgs[..i + 1][..i] == msgs[..i];
        match msgs[i].payload {
          case PutReply(_, originalId) => manager.Complete(originalId);
          case _ =>
        }
      }
      assert msgs[..|msgs|] == msgs;
    }

    method ProcessIncoming(msgs: seq<Message>) returns (threw: bool)
      requires Valid()
      modifies this, manager
      ensures Valid() && threw == Incoming(old(View()), msgs).None?
      ensures !threw ==> View() == Incoming(old(View()), msgs).value
    {
      threw := false;
      match phase {
        case NotStarted => threw := true;
        case StartMsgSent => threw := ProcessRepliesStartSent(msgs);
        case TxOpen => ProcessRepliesOpen(msgs);
      }
    }

    method ScheduleRequests()
      requires Valid()
      modifies manager, retrier, generator
      ensures Valid()
      ensures var b := Scheduled(old(View()), old(generator.ids).lastMsg);
              && View() == old(View()).(reqs := b.reqs)
              && generator.ids == old(generator.ids).(lastMsg := b.lastMsg)
              && retrier.scheduled == old(retrier.scheduled) + b.out
    {
      if phase != TxOpen {
        return;
      }
      var out := manager.PrepareMessages(client, server, txid, generator);
      for i := 0 to |out|
        invariant retrier.scheduled == old(retrier.scheduled) + out[..i]
        modifies retrier
      {
        var _ := retrier.Schedule(out[i]);
      }
    }
  }
}
