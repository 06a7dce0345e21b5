/** The outbox that the transactions of one actor share. */
module Outbox {
  import opened TxTypes

  class Retrier {
    var scheduled: seq<Message>

    constructor ()
      ensures scheduled == []
    {
      scheduled := [];
    }

    method SendOnce(m: Message)
      modifies this
      ensures scheduled == old(scheduled) + [m]
    {
      scheduled := scheduled + [m];
    }

    method Schedule(m: Message) returns (handle: int)
      modifies this
      ensures scheduled == old(scheduled) + [m] && handle == -1
    {
      SendOnce(m);
      handle := -1;
    }

    /** Moves every scheduled message to the end of `messages`. */
    method GetScheduled(messages: seq<Message>) returns (r: seq<Message>)
      modifies this
      ensures r == messages + old(scheduled) && scheduled == []
    {
      r := messages;
      for i := 0 to |scheduled|
        invariant scheduled == old(scheduled)
        invariant r == messages + scheduled[..i]
      {
        r := r + [scheduled[i]];
      }
      scheduled := [];
    }
  }
}
