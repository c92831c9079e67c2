/**
 The decoder side of the hole punch: RockchipVideoOverlayChannel.

 Every method runs under the channel's lock.  What the socket calls return is arbitrary, or foreseen;
 the answers a drain reads are a parameter.  Every effect is logged as a step of VideoProtocol.PNext.
 */
module VideoProducer {
  import opened VideoWire
  import opened VideoProtocol
  import opened Wrappers

  /** A sample kept alive until its release arrives. */
  datatype InFlightSample = InFlightSample(sequence: nat, sample: nat)

  function Sequences(samples: seq<InFlightSample>): set<nat> {
    set e | e in samples :: e.sequence
  }

  predicate Distinct(samples: seq<InFlightSample>) {
    forall i, j :: 0 <= i < j < |samples| ==> samples[i].sequence != samples[j].sequence
  }

  lemma SequencesAppend(samples: seq<InFlightSample>, e: InFlightSample)
    ensures Sequences(samples + [e]) == Sequences(samples) + {e.sequence}
  {
  }

  lemma SequencesRemove(samples: seq<InFlightSample>, i: nat)
    requires i < |samples| && Distinct(samples)
    ensures Sequences(samples[..i] + samples[i + 1..]) == Sequences(samples) - {samples[i].sequence}
    ensures Distinct(samples[..i] + samples[i + 1..])
  {
    var rest := samples[..i] + samples[i + 1..];
    forall s | s in Sequences(samples) - {samples[i].sequence}
      ensures s in Sequences(rest)
    {
      var k :| 0 <= k < |samples| && samples[k].sequence == s;
      assert samples[k] == rest[if k < i then k else k - 1];
    }
  }

  lemma {:induction false} SequencesCount(samples: seq<InFlightSample>)
    requires Distinct(samples)
    ensures |Sequences(samples)| == |samples|
  {
    if samples != [] {
      var n := |samples| - 1;
      SequencesCount(samples[..n]);
      assert samples == samples[..n] + [samples[n]];
      SequencesAppend(samples[..n], samples[n]);
    }
  }

  /** What the socket calls return. */
  datatype Answers = Answers(sends: Forecast<SendResult>, connects: Forecast<bool>)

  class Network {
    var answers: Answers

    constructor (answers: Answers)
      ensures this.answers == answers
    {
      this.answers := answers;
    }
  }

  /** Where the awaited close answer is, or the length. */
  function CloseAt(answers: seq<Up>, closing: nat): (n: nat)
    ensures n <= |answers| && (n < |answers| ==> closing != 0 && answers[n] == CloseComplete(closing))
    ensures forall i :: 0 <= i < n ==> closing == 0 || answers[i] != CloseComplete(closing)
  {
    if answers == [] || (closing != 0 && answers[0] == CloseComplete(closing)) then 0
    else 1 + CloseAt(answers[1..], closing)
  }

  /** The samples that answers give back. */
  function Freed(answers: seq<Up>): set<nat> {
    set a | a in answers && a.Release? :: a.sequence
  }

  lemma FreedSnoc(answers: seq<Up>, i: nat)
    requires i < |answers|
    ensures Freed(answers[..i + 1]) == Freed(answers[..i]) + if answers[i].Release? then {answers[i].sequence} else {}
  {
    assert answers[..i + 1] == answers[..i] + [answers[i]];
  }

  class VideoOverlayChannel {
    const network: Network
    var socket: int
    var ackSource: bool
    var writeSource: bool
    const close: VideoCloseState
    var hasPendingControl: bool
    var pendingControl: Down
    var owner: nat              // 0 for none
    var rect: int
    var inFlightSamples: seq<InFlightSample>
    var nextSequence: nat

    ghost var inHand: nat       // a sample sent under the lock but not yet recorded, 0 for none
    ghost var model: Producer
    ghost var steps: seq<PStep>

    ghost predicate Logged()
      reads this`model, this`steps
    {
      PRun(steps) == Some(model)
    }

    ghost function Lent(): set<nat>
      reads this`inFlightSamples, this`inHand
    {
      Sequences(inFlightSamples) + (if inHand == 0 then {} else {inHand})
    }

    ghost predicate Core()
      reads this, close
    {
      && Logged()
      && -1 <= socket == model.socket
      && model.inFlight == Lent()
      && Distinct(inFlightSamples)
      && (forall e :: e in inFlightSamples ==> 0 < e.sequence < nextSequence)
      && |inFlightSamples| <= MAXIMUM_IN_FLIGHT
      && model.closing == (if close.Pending() then close.sequence else 0)
      && (owner != 0 ==> model.closing == 0)
      && (ackSource <==> socket >= 0)
      && (hasPendingControl ==> socket >= 0 && writeSource)
      && (hasPendingControl && pendingControl.Hide? ==> model.hideUnsent && pendingControl.sequence == model.closing)
      && (hasPendingControl ==> !pendingControl.Frame?)
      && (model.hideUnsent ==> model.closing != 0 && socket >= 0)
      && 0 < nextSequence
    }

    ghost predicate Valid()
      reads this, close
    {
      && Core() && inHand == 0 && model.next == nextSequence
      // no lost wakeup: an unsent close request is waiting for the socket to take it
      && (model.hideUnsent ==> hasPendingControl && pendingControl == Hide(model.closing))
    }

    ghost method Log(step: PStep)
      requires Logged() && PNext(model, step).Some?
      modifies this`model, this`steps
      ensures Logged() && PNext(old(model), step) == Some(model) && steps == old(steps) + [step]
    {
      PRunSnoc(steps, step);
      steps := steps + [step];
      model := PNext(model, step).value;
    }

    constructor (network: Network)
      ensures Valid() && fresh(close) && steps == [] && this.network == network
      ensures socket == -1 && inFlightSamples == [] && owner == 0 && model.closing == 0 && nextSequence == 1
    {
      this.network := network;
      socket, ackSource, writeSource := -1, false, false;
      close := new VideoCloseState();
      hasPendingControl, pendingControl := false, Rect;
      owner, rect, inFlightSamples, nextSequence := 0, 0, [], 1;
      inHand, model, steps := 0, PRODUCER_INIT, [];
    }

    /** closeLocked: the samples stay retained, for a disconnect does not prove the plane is off. */
    method CloseLocked()
      requires Core()
      modifies this`ackSource, this`writeSource, this`socket, this`hasPendingControl, this`model, this`steps
      ensures Core() && socket == -1 && !hasPendingControl && !model.hideUnsent && old(steps) <= steps
      ensures model == old(model).(socket := -1, hideUnsent := false)
    {
      hide PRun, Logged, Distinct, Sequences;
      ackSource := false;
      writeSource := false;
      socket := -1;
      hasPendingControl := false;
      Log(Disconnect);
    }

    /** Hands a message to the socket; a broken socket is closed. */
    method TransferLocked() returns (result: SendResult)
      requires Core()
      modifies this`ackSource, this`writeSource, this`socket, this`hasPendingControl, this`model, this`steps
      ensures Core() && old(steps) <= steps
      ensures result == Broken ==> socket == -1 && !hasPendingControl
                                   && model == old(model).(socket := -1, hideUnsent := false)
      ensures result != Broken ==> socket == old(socket) && model == old(model) && steps == old(steps)
                                   && hasPendingControl == old(hasPendingControl) && writeSource == old(writeSource)
      ensures old(socket) < 0 ==> result == WouldBlock
      ensures old(socket) >= 0 && network.answers.sends.Always? ==> result == network.answers.sends.value
    {
      if socket < 0 {
        return WouldBlock;
      }
      result := Ask(network.answers.sends);
      if result == Broken {
        CloseLocked();
      }
    }

    /** The message went out, or waits for the socket, or the connection is gone. */
    twostate predicate Handed(message: Down)
      reads this, network
    {
      var sent := steps == old(steps) + [if message.Hide? then SendHide else SendRect] && socket == old(socket);
      var waits := steps == old(steps) && socket == old(socket) && hasPendingControl && pendingControl == message && writeSource;
      && (socket == -1 || sent || waits)
      && (old(socket) >= 0 && network.answers.sends.Always? ==>
            match network.answers.sends.value
            case Sent => sent
            case WouldBlock => waits
            case Broken => socket == -1)
    }

    /** A control message goes out, or waits for the socket; only the newest one waits. */
    method SendControlLocked(message: Down)
      requires Core() && !message.Frame?
      requires message.Hide? && socket >= 0 ==> model.hideUnsent && message.sequence == model.closing
      requires message == Rect ==> !model.hideUnsent
      requires hasPendingControl ==> !pendingControl.Hide?
      modifies this`ackSource, this`writeSource, this`socket, this`hasPendingControl, this`pendingControl,
               this`model, this`steps
      ensures Core() && old(steps) <= steps && model.next == old(model.next) && model.closing == old(model.closing)
      ensures model.hideUnsent ==> hasPendingControl && pendingControl == Hide(model.closing)
      ensures Handed(message)
    {
      hide PRun, Logged, Distinct, Sequences;
      var result := TransferLocked();
      if result == Sent {
        Log(if message.Hide? then SendHide else SendRect);
        return;
      }
      if socket < 0 {
        return;
      }
      pendingControl := message;
      hasPendingControl := true;
      writeSource := true;
    }

    /**
     The socket takes messages again: the waiting control message goes out, or waits on, or is
     given up with the connection.  keep tells the main loop whether to go on watching.
     */
    method WriteReady() returns (keep: bool)
      requires Valid() && writeSource
      modifies this`ackSource, this`writeSource, this`socket, this`hasPendingControl, this`model, this`steps
      ensures Valid() && old(steps) <= steps && (socket == old(socket) || socket == -1)
      ensures keep <==> hasPendingControl
      ensures keep ==> writeSource && steps == old(steps)
      ensures !keep && socket >= 0 ==>
                && !writeSource && !model.hideUnsent
                && steps == old(steps) + if !old(hasPendingControl) then []
                                         else if pendingControl.Hide? then [SendHide] else [SendRect]
      ensures old(hasPendingControl) && network.answers.sends.Always? ==>
                && (network.answers.sends.value == Sent ==> !keep && socket == old(socket))
                && (network.answers.sends.value == WouldBlock ==> keep)
    {
      hide PRun, Logged, Distinct, Sequences;
      if hasPendingControl && socket >= 0 {
        var result := TransferLocked();
        if result != Sent {
          return socket >= 0;
        }
        Log(if pendingControl.Hide? then SendHide else SendRect);
      }
      hasPendingControl := false;
      writeSource := false;
      return false;
    }

    /** As Handed, after the request was made out. */
    twostate predicate Asked(message: Down)
      reads this, network
    {
      var sent := steps == old(steps) + [RequestClose, SendHide] && socket == old(socket);
      var waits := steps == old(steps) + [RequestClose] && socket == old(socket) && hasPendingControl && pendingControl == message && writeSource;
      && (socket == -1 || sent || waits)
      && (network.answers.sends.Always? ==>
            match network.answers.sends.value
            case Sent => sent
            case WouldBlock => waits
            case Broken => socket == -1)
    }

    /** release: the sink gives the overlay up; the display is asked to take the plane off. */
    method ReleaseOwner(candidate: nat)
      requires Valid() && candidate != 0
      modifies this, close
      ensures Valid() && old(steps) <= steps
      ensures owner == if old(owner) == candidate then 0 else old(owner)
      ensures inFlightSamples == old(inFlightSamples)
      ensures old(owner) == candidate ==>
                if inFlightSamples == [] then socket == -1 else model.closing == old(nextSequence)
      ensures old(owner) == candidate && inFlightSamples != [] && old(socket) >= 0 ==> Asked(Hide(old(nextSequence)))
      ensures old(owner) != candidate ==> steps == old(steps) && socket == old(socket)
    {
      hide PRun, Logged, Distinct, Sequences, PNext;
      if owner != candidate {
        return;
      }
      if inFlightSamples == [] {
        CloseLocked();
      } else {
        RequestClosing();
        if socket >= 0 {
          SendControlLocked(Hide(close.sequence));
        }
      }
      owner := 0;
    }

    /** The next number becomes a close request, to be sent. */
    method RequestClosing()
      requires Valid() && owner != 0 && inFlightSamples != []
      modifies this`nextSequence, this`owner, this`model, this`steps, close
      ensures Core() && inHand == 0 && model.next == nextSequence == old(nextSequence) + 1 && steps == old(steps) + [RequestClose]
      ensures owner == 0 && model.closing == close.sequence == old(nextSequence)
      ensures hasPendingControl ==> !pendingControl.Hide?
      ensures model.hideUnsent <==> socket >= 0
    {
      hide PRun, Logged, Distinct, Sequences;
      SequencesCount(inFlightSamples);
      close.Request(nextSequence);
      nextSequence := nextSequence + 1;
      owner := 0;
      Log(RequestClose);
    }

    /** setRectangle: the page moved the video. */
    method SetRectangle(candidate: nat, rectangle: int)
      requires Valid() && candidate != 0
      modifies this
      ensures Valid() && old(steps) <= steps
      ensures inFlightSamples == old(inFlightSamples) && owner == old(owner)
      ensures rect == if owner == candidate then rectangle else old(rect)
      ensures owner == candidate && old(rect) != rectangle && old(socket) >= 0 ==> Handed(Rect)
      ensures owner != candidate || old(rect) == rectangle || old(socket) < 0 ==> steps == old(steps) && socket == old(socket)
    {
      if owner != candidate || rect == rectangle {
        return;
      }
      rect := rectangle;
      if socket < 0 {
        return;
      }
      SendControlLocked(Rect);
    }

    /** ensureConnectedLocked: never while samples are quarantined or a close is unanswered. */
    method EnsureConnectedLocked() returns (connected: bool)
      requires Valid()
      modifies this`socket, this`ackSource, this`model, this`steps
      ensures Valid() && old(steps) <= steps && model.closing == old(model.closing)
      ensures connected <==> socket >= 0
      ensures old(socket) < 0 && (inFlightSamples != [] || close.Pending()) ==> !connected
      ensures old(socket) >= 0 ==> socket == old(socket)
      ensures old(socket) < 0 && inFlightSamples == [] && !close.Pending() && network.answers.connects.Always? ==>
                connected == network.answers.connects.value
    {
      hide PRun, Logged, Distinct, Sequences, Core;
      if socket >= 0 {
        return true;
      }
      if inFlightSamples != [] || close.Pending() {
        return false;
      }
      var fd: nat := *;
      var established := Ask(network.answers.connects);
      if !established {
        return false;
      }
      Connected(fd);
      return true;
    }

    method Connected(fd: nat)
      requires Valid() && socket < 0 && inFlightSamples == [] && !close.Pending()
      modifies this`socket, this`ackSource, this`model, this`steps
      ensures Valid() && old(steps) <= steps && model.closing == old(model.closing) && socket == fd >= 0 && ackSource
    {
      hide PRun, Logged, Distinct;
      socket := fd;
      ackSource := true;
      Log(Connect(fd));
    }

    /**
     drainReleaseAcksLocked: takes the answers the socket delivers before it runs dry, or ends.
     A released sample leaves; a close answer ends the connection.
     */
    method DrainReleaseAcksLocked(answers: seq<Up>, ends: bool)
      requires Valid()
      modifies this, close
      ensures Valid() && old(steps) <= steps
      ensures owner == old(owner) && rect == old(rect) && nextSequence == old(nextSequence)
      ensures forall e :: e in inFlightSamples ==> e in old(inFlightSamples)
      ensures old(socket) < 0 ==> inFlightSamples == old(inFlightSamples) && socket == old(socket) && model.closing == old(model.closing)
      ensures old(socket) >= 0 ==>
                var n := CloseAt(answers, old(model.closing));
                && Sequences(inFlightSamples) == Sequences(old(inFlightSamples)) - Freed(answers[..n])
                && model.closing == (if n < |answers| then 0 else old(model.closing))
                && socket == if n < |answers| || ends then -1 else old(socket)
    {
      hide Freed, CloseAt, PRun, Distinct, Core;
      if socket < 0 {
        return;
      }
      ghost var closing := model.closing;
      NothingFreed();
      for i := 0 to |answers|
        invariant Valid() && old(steps) <= steps && socket == old(socket) >= 0
        invariant owner == old(owner) && rect == old(rect) && nextSequence == old(nextSequence)
        invariant forall e :: e in inFlightSamples ==> e in old(inFlightSamples)
        invariant Sequences(inFlightSamples) == Sequences(old(inFlightSamples)) - Freed(answers[..i])
        invariant model.closing == closing && i <= CloseAt(answers, closing)
      {
        FreedSnoc(answers, i);
        CloseAtFirst(answers, closing);
        match answers[i] {
          case Release(sequence) =>
            TakeRelease(sequence);
          case CloseComplete(sequence) =>
            var finished := TakeClose(sequence);
            if finished {
              return;
            }
        }
      }
      CloseAtFirst(answers, closing);
      if ends {
        CloseLocked();
      }
    }

    static lemma NothingFreed()
      ensures Freed([]) == {}
    {
    }

    static lemma CloseAtFirst(answers: seq<Up>, closing: nat)
      ensures var n := CloseAt(answers, closing);
        && n <= |answers| && (n < |answers| ==> closing != 0 && answers[n] == CloseComplete(closing))
        && forall i :: 0 <= i < n ==> closing == 0 || answers[i] != CloseComplete(closing)
    {
    }

    method TakeRelease(sequence: nat)
      requires Valid() && socket >= 0
      modifies this`inFlightSamples, this`model, this`steps
      ensures Valid() && old(steps) <= steps && model.closing == old(model.closing)
      ensures Sequences(inFlightSamples) == Sequences(old(inFlightSamples)) - {sequence}
      ensures forall e :: e in inFlightSamples ==> e in old(inFlightSamples)
      ensures forall e :: e in old(inFlightSamples) && e !in inFlightSamples ==> e.sequence == sequence
    {
      hide PRun, Logged;
      Log(TakeAnswer(Release(sequence)));
      for index := 0 to |inFlightSamples|
        invariant inFlightSamples == old(inFlightSamples)
        invariant forall k :: 0 <= k < index ==> inFlightSamples[k].sequence != sequence
      {
        if inFlightSamples[index].sequence == sequence {
          SequencesRemove(inFlightSamples, index);
          inFlightSamples := inFlightSamples[..index] + inFlightSamples[index + 1..];
          return;
        }
      }
    }

    /** True when the answer was the awaited one; samples still lent out then stay quarantined. */
    method TakeClose(sequence: nat) returns (finished: bool)
      requires Valid() && socket >= 0
      modifies this`ackSource, this`writeSource, this`socket, this`hasPendingControl, this`model, this`steps, close
      ensures Valid() && old(steps) <= steps
      ensures finished <==> sequence == old(model.closing) != 0
      ensures if finished then socket == -1 && model.closing == 0 && close.confirmed == (inFlightSamples != [])
              else socket == old(socket) && model == old(model)
    {
      hide PRun, Logged, Distinct, Sequences;
      var accepted := close.Acknowledge(sequence);
      Log(TakeAnswer(CloseComplete(sequence)));
      if !accepted {
        return false;
      }
      if inFlightSamples == [] {
        close.Reset();
      }
      ackSource, writeSource, socket, hasPendingControl := false, false, -1, false;
      return true;
    }

    /**
     sendFrame: lends the sample to the display, if the overlay is free for this sink, a
     connection exists and fewer than four samples are out.  answers are what the socket delivers
     when the channel looks for releases first.
     */
    method SendFrame(candidate: nat, rectangle: int, sample: nat, answers: seq<Up>, ends: bool)
      requires Valid() && candidate != 0
      modifies this, close
      ensures Valid() && old(steps) <= steps
      ensures |inFlightSamples| <= MAXIMUM_IN_FLIGHT
      ensures owner == if old(owner) == 0 && old(model.closing) == 0 then candidate else old(owner)
      ensures forall e :: e in inFlightSamples ==>
                e in old(inFlightSamples) || e == InFlightSample(old(nextSequence), sample)
      ensures !old(Admits(candidate)) ==> inFlightSamples == old(inFlightSamples) && nextSequence == old(nextSequence)
                                          && socket == old(socket) && rect == old(rect) && steps == old(steps)
      ensures old(Admits(candidate)) ==> rect == rectangle
      ensures old(Admits(candidate)) && old(socket) < 0 && (old(inFlightSamples) != [] || network.answers.connects == Always(false)) ==>
                inFlightSamples == old(inFlightSamples) && nextSequence == old(nextSequence) && socket < 0
      ensures old(Admits(candidate)) && (old(socket) >= 0 || (old(inFlightSamples) == [] && network.answers.connects == Always(true))) ==>
                SentOn(sample, answers, ends)
    {
      hide Freed, CloseAt, PRun, Logged, Distinct, Core, Sequences;
      PendingIsClosing();
      CountSamples();
      if close.Pending() {
        return;
      }
      if owner != candidate {
        if owner != 0 {
          return;
        }
        TakeOver(candidate, rectangle);
      } else if rect != rectangle {
        TakeOver(candidate, rectangle);
      }
      SendForOwner(sample, answers, ends);
    }

    method SendForOwner(sample: nat, answers: seq<Up>, ends: bool)
      requires Valid() && model.closing == 0
      modifies this, close
      ensures Valid() && old(steps) <= steps && owner == old(owner) && rect == old(rect)
      ensures |inFlightSamples| <= MAXIMUM_IN_FLIGHT
      ensures forall e :: e in inFlightSamples ==>
                e in old(inFlightSamples) || e == InFlightSample(old(nextSequence), sample)
      ensures old(socket) < 0 && (old(inFlightSamples) != [] || network.answers.connects == Always(false)) ==>
                inFlightSamples == old(inFlightSamples) && nextSequence == old(nextSequence) && socket < 0
      ensures old(socket) >= 0 || (old(inFlightSamples) == [] && network.answers.connects == Always(true)) ==>
                SentOn(sample, answers, ends)
    {
      hide Freed, CloseAt, PRun, Logged, Distinct, Core, Sequences;
      PendingIsClosing();
      CountSamples();
      var connected := EnsureConnectedLocked();
      if connected {
        SendOnConnection(sample, answers, ends);
      }
    }

    /** The channel looks for releases first. */
    method SendOnConnection(sample: nat, answers: seq<Up>, ends: bool)
      requires Valid() && model.closing == 0 && socket >= 0
      modifies this, close
      ensures Valid() && old(steps) <= steps && owner == old(owner) && rect == old(rect)
      ensures |inFlightSamples| <= MAXIMUM_IN_FLIGHT
      ensures forall e :: e in inFlightSamples ==>
                e in old(inFlightSamples) || e == InFlightSample(old(nextSequence), sample)
      ensures SentOn(sample, answers, ends)
    {
      hide Freed, CloseAt, PRun, Logged, Distinct, Core, Sequences;
      CountSamples();
      DrainReleaseAcksLocked(answers, ends);
      CountSamples();
      CloseAtFirst(answers, 0);
      assert answers[..|answers|] == answers;
      if |inFlightSamples| >= MAXIMUM_IN_FLIGHT {
        return;
      }
      LendSample(sample);
      CountSamples();
    }

    /** No close is awaited, and nobody else has the overlay. */
    predicate Admits(candidate: nat)
      reads this, close
    {
      !close.Pending() && (owner == 0 || owner == candidate)
    }

    /**
     What a connected channel does with a sample: the answers free what they name, and with room left
     and the socket open the sample is lent under the next number, if the socket takes it.
     */
    twostate predicate SentOn(sample: nat, answers: seq<Up>, ends: bool)
      reads this, network
    {
      var rest := Sequences(old(inFlightSamples)) - Freed(answers);
      var lent := inFlightSamples != [] && inFlightSamples[|inFlightSamples| - 1] == InFlightSample(old(nextSequence), sample)
                  && Sequences(inFlightSamples) == rest + {old(nextSequence)};
      && (lent || Sequences(inFlightSamples) == rest)
      && nextSequence == old(nextSequence) + (if |rest| < MAXIMUM_IN_FLIGHT then 1 else 0)
      && (|rest| >= MAXIMUM_IN_FLIGHT || ends ==> Sequences(inFlightSamples) == rest)
      && (|rest| < MAXIMUM_IN_FLIGHT && !ends && network.answers.sends.Always? ==>
            if network.answers.sends.value == Sent then lent else Sequences(inFlightSamples) == rest)
    }

    lemma PendingIsClosing()
      requires Valid()
      ensures close.Pending() <==> model.closing != 0
      ensures owner != 0 ==> model.closing == 0
    {
      hide PRun, Distinct, Sequences;
    }

    lemma CountSamples()
      requires Valid()
      ensures |Sequences(inFlightSamples)| == |inFlightSamples| <= MAXIMUM_IN_FLIGHT
    {
      SequencesCount(inFlightSamples);
    }

    method TakeOver(candidate: nat, rectangle: int)
      requires Valid() && !close.Pending()
      modifies this`owner, this`rect
      ensures Valid() && owner == candidate && rect == rectangle
    {
      hide PRun, Distinct, Sequences;
      owner := candidate;
      rect := rectangle;
    }

    /** Sends the next frame; once the socket has it, the sample is retained. */
    method LendSample(sample: nat)
      requires Valid() && model.closing == 0 && |inFlightSamples| < MAXIMUM_IN_FLIGHT
      modifies this
      ensures Valid() && old(steps) <= steps && owner == old(owner) && rect == old(rect)
      ensures nextSequence == old(nextSequence) + 1
      ensures || inFlightSamples == old(inFlightSamples)
              || (&& inFlightSamples == old(inFlightSamples) + [InFlightSample(old(nextSequence), sample)]
                  && Sequences(inFlightSamples) == Sequences(old(inFlightSamples)) + {old(nextSequence)} && old(socket) >= 0)
      ensures old(socket) >= 0 && network.answers.sends.Always? ==>
                (|inFlightSamples| > |old(inFlightSamples)| <==> network.answers.sends.value == Sent)
    {
      var sequence := nextSequence;
      nextSequence := nextSequence + 1;
      var sent := SendFrameLocked(sequence);
      if !sent {
        return;
      }
      SequencesAppend(inFlightSamples, InFlightSample(sequence, sample));
      inFlightSamples := inFlightSamples + [InFlightSample(sequence, sample)];
      inHand := 0;
    }

    method SendFrameLocked(sequence: nat) returns (sent: bool)
      requires Core() && inHand == 0 && model.next == sequence > 0 && nextSequence == sequence + 1 && model.closing == 0
      requires model.hideUnsent ==> hasPendingControl && pendingControl == Hide(model.closing)
      requires |inFlightSamples| < MAXIMUM_IN_FLIGHT
      requires forall e :: e in inFlightSamples ==> e.sequence < sequence
      modifies this`ackSource, this`writeSource, this`socket, this`hasPendingControl, this`inHand,
               this`model, this`steps
      ensures Core() && old(steps) <= steps && model.next == nextSequence && model.closing == 0
      ensures inHand == if sent then sequence else 0
      ensures sent ==> old(socket) >= 0
      ensures old(socket) >= 0 && network.answers.sends.Always? ==> (sent <==> network.answers.sends.value == Sent)
      ensures model.hideUnsent ==> hasPendingControl && pendingControl == Hide(model.closing)
    {
      hide PRun, Logged, Distinct, Sequences;
      var result := TransferLocked();
      if result == Sent {
        SequencesCount(inFlightSamples);
        Log(PStep.SendFrame);
        inHand := sequence;
        assert Lent() == old(Lent()) + {sequence};
        return true;
      }
      Log(SkipSequence);
      return false;
    }
  }
}
