/** Messages of the video overlay socket and the close handshake state. */
module VideoWire {

  /** What the decoder process sends: a decoded sample, a new page rectangle, or a close request. */
  datatype Down = Frame(sequence: nat) | Rect | Hide(sequence: nat)

  /** What the display process answers: a sample is free again, or the overlay is closed. */
  datatype Up = Release(sequence: nat) | CloseComplete(sequence: nat)

  /** What handing a message to the socket came to. */
  datatype SendResult = Sent | WouldBlock | Broken

  /** The producer's view of one close request. */
  class VideoCloseState {
    var sequence: nat
    var confirmed: bool

    constructor ()
      ensures sequence == 0 && !confirmed
    {
      sequence, confirmed := 0, false;
    }

    predicate Pending()
      reads this
    {
      sequence != 0 && !confirmed
    }

    method Request(next: nat)
      modifies this
      ensures sequence == next && !confirmed
    {
      sequence := next;
      confirmed := false;
    }

    method Acknowledge(answer: nat) returns (accepted: bool)
      modifies this
      ensures accepted <==> old(Pending()) && answer == old(sequence)
      ensures sequence == old(sequence) && confirmed == (old(confirmed) || accepted)
    {
      if sequence == 0 || answer != sequence || confirmed {
        return false;
      }
      confirmed := true;
      return true;
    }

    method Reset()
      modifies this
      ensures sequence == 0 && !confirmed
    {
      sequence, confirmed := 0, false;
    }
  }
}

/** The consumer's bounded queue of answers that the socket has not taken yet. */
module VideoReleaseQueue {
  import opened VideoWire

  datatype AddResult = Added | Duplicate | Overflow

  class ReleaseQueue {
    const limit: nat
    var messages: seq<Up>

    constructor (limit: nat := 64)
      ensures this.limit == limit && messages == []
    {
      this.limit := limit;
      messages := [];
    }

    /** Appends at most once, never past the limit, and never the null sequence. */
    method Add(message: Up) returns (result: AddResult)
      modifies this
      ensures result == Duplicate <==> message.sequence == 0 || message in old(messages)
      ensures result == Overflow <==> result != Duplicate && |old(messages)| >= limit
      ensures messages == if result == Added then old(messages) + [message] else old(messages)
    {
      if message.sequence == 0 || message in messages {
        return Duplicate;
      }
      if |messages| >= limit {
        return Overflow;
      }
      messages := messages + [message];
      return Added;
    }

    method Pop()
      requires messages != []
      modifies this
      ensures messages == old(messages)[1..]
    {
      messages := messages[1..];
    }

    method Clear()
      modifies this
      ensures messages == []
    {
      messages := [];
    }
  }
}
