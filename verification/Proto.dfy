/** internal/proto/messages.go, as far as the loops look at messages: the type, and
    whether a payload that is decoded is well formed. */
module Proto {
  import opened Bytes

  datatype Payload<T> = Good(value: T) | Malformed

  datatype Message =
    | Output(data: Bytes)
    | Idle
    | Exited(code: Payload<int>)
    | Started(pid: Payload<int>)
    | Type(text: Payload<Bytes>)
    | CtrlC
    | Shutdown
    | Unknown(name: string)

  /** When a context is cancelled, counted in the times it is asked. */
  datatype Patience = Forever | For(polls: nat)

  class Context {
    var patience: Patience

    constructor (patience: Patience)
      ensures this.patience == patience
    {
      this.patience := patience;
    }

    /** Has the context been cancelled by now? */
    method Err() returns (cancelled: bool)
      modifies this
      ensures cancelled == Exhausted(old(patience)) && patience == Asked(old(patience))
    {
      match patience {
        case Forever => cancelled := false;
        case For(polls) =>
          cancelled := polls == 0;
          patience := For(if polls == 0 then 0 else polls - 1);
      }
    }
  }

  predicate Exhausted(p: Patience) {
    p == For(0)
  }

  function Asked(p: Patience): Patience {
    match p
    case Forever => Forever
    case For(polls) => For(if polls == 0 then 0 else polls - 1)
  }

  /** The context can be asked `n` times without being found cancelled. */
  predicate Lasts(p: Patience, n: nat) {
    p.For? ==> n <= p.polls
  }

  function Later(p: Patience, n: nat): Patience
    requires Lasts(p, n)
  {
    match p
    case Forever => Forever
    case For(polls) => For(polls - n)
  }

  // ---------- the backend's end of a connection ----------

  datatype Incoming =
    | Received(at: int, msg: Message)
    | ReceiveFails

  /** The messages still to come, after which the connection is closed, and every
      message handed over for sending. */
  class Conn {
    const sendFails: nat -> bool
    var incoming: seq<Incoming>
    var sent: seq<Message>
    var closed: bool

    constructor (incoming: seq<Incoming>, sendFails: nat -> bool)
      ensures this.incoming == incoming && this.sendFails == sendFails && sent == [] && !closed
    {
      this.incoming, this.sendFails := incoming, sendFails;
      sent, closed := [], false;
    }

    method Receive() returns (r: Incoming)
      modifies `incoming
      ensures r == if old(incoming) == [] then ReceiveFails else old(incoming)[0]
      ensures incoming == if old(incoming) == [] then [] else old(incoming)[1..]
    {
      if incoming == [] {
        return ReceiveFails;
      }
      r := incoming[0];
      incoming := incoming[1..];
    }

    method Send(m: Message) returns (failed: bool)
      modifies `sent
      ensures sent == old(sent) + [m] && failed == sendFails(|old(sent)|)
    {
      failed := sendFails(|sent|);
      sent := sent + [m];
    }

    method Close()
      modifies `closed
      ensures closed
    {
      closed := true;
    }
  }
}
