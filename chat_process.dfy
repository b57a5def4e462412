/** One chat process: the state that chat_process.py's ChatProcess keeps and
    updates in place, and one sequential step of each of its handlers. */
module Chat {
  import opened Seqs
  import opened Holdback
  import opened Unicast

  /** `line[:-1]`: the input line with its last character (the newline) cut. */
  function StripLast(line: string): (r: string)
    ensures |line| == 0 ==> r == []
    ensures |line| > 0 ==> r + [line[|line| - 1]] == line
  {
    if |line| == 0 then [] else line[..|line| - 1]
  }

  class ChatProcess {
    const myId: nat
    const numProcesses: nat
    const delayTime: real
    const dropRate: real
    /** The vector clock V, one entry per process. */
    const myTimestamp: array<nat>

    var messageIdCounter: nat
    var hasReceived: set<(nat, nat)>
    var hasAcknowledged: set<(nat, nat)>
    var unackMessages: seq<Unacked>
    var holdbackQueue: seq<Held>
    /** The send queue, in the order packets were put into it. */
    var outbox: seq<Packet>
    /** Every (sender, payload) handed to `Deliver`, in order. */
    var delivered: seq<(nat, string)>

    ghost predicate Valid()
      reads this`holdbackQueue, this`unackMessages, this`messageIdCounter
    {
      && myId < numProcesses
      && myTimestamp.Length == numProcesses
      && Fits(holdbackQueue, numProcesses)
      && Ordered(unackMessages, messageIdCounter + 1, numProcesses)
    }

    /** The timestamp a send carries: the one given, else a copy of V. */
    function Stamp(timestamp: Option<seq<nat>>): (ts: seq<nat>)
      reads myTimestamp
    {
      if timestamp.Some? then timestamp.value else myTimestamp[..]
    }

    constructor (processId: nat, delayTime: real, dropRate: real, numProcesses: nat)
      requires processId < numProcesses
      ensures Valid() && fresh(myTimestamp)
      ensures myId == processId && this.numProcesses == numProcesses
      ensures this.delayTime == delayTime && this.dropRate == dropRate
      ensures myTimestamp[..] == seq(numProcesses, _ => 0)
      ensures messageIdCounter == 0 && hasReceived == {} && hasAcknowledged == {}
      ensures unackMessages == [] && holdbackQueue == [] && outbox == [] && delivered == []
    {
      myId := processId;
      this.numProcesses := numProcesses;
      this.delayTime := delayTime;
      this.dropRate := dropRate;
      messageIdCounter := 0;
      hasReceived := {};
      hasAcknowledged := {};
      unackMessages := [];
      holdbackQueue := [];
      outbox := [];
      delivered := [];
      myTimestamp := new nat[numProcesses](_ => 0);
    }

    /** Sends one message to `destination`. A data message without an id
        gets the next id and an unacknowledged record; acks and
        retransmissions keep the id they are given. A draw `roll` at or
        below the drop rate loses the packet; the record is kept anyway. */
    method UnicastSend(destination: nat, message: string, msgId: Option<nat>, isAck: bool,
                       timestamp: Option<seq<nat>>, roll: real, delay: real)
      requires Valid() && destination < numProcesses
      modifies this`messageIdCounter, this`unackMessages, this`outbox
      ensures Valid()
      ensures if !isAck && msgId.None? then
                && messageIdCounter == old(messageIdCounter) + 1
                && unackMessages == old(unackMessages)
                     + [Unacked(destination, messageIdCounter, message, Stamp(timestamp))]
                && outbox == old(outbox)
                     + Enqueue(Packet(destination, myId, Some(messageIdCounter), false,
                                      Stamp(timestamp), message, delay), roll, dropRate)
              else
                && messageIdCounter == old(messageIdCounter)
                && unackMessages == old(unackMessages)
                && outbox == old(outbox)
                     + Enqueue(Packet(destination, myId, msgId, isAck, Stamp(timestamp), message, delay),
                               roll, dropRate)
    {
      var ts := Stamp(timestamp);
      var id := msgId;
      if !isAck && msgId.None? {
        messageIdCounter := messageIdCounter + 1;
        id := Some(messageIdCounter);
        OrderedSnoc(unackMessages, Unacked(destination, messageIdCounter, message, ts),
                    messageIdCounter + 1, numProcesses);
        unackMessages := unackMessages + [Unacked(destination, messageIdCounter, message, ts)];
      }
      if roll <= dropRate {
        return;
      }
      outbox := outbox + [Packet(destination, myId, id, isAck, ts, message, delay)];
    }

    /** The release test for one held entry against the current clock. */
    method ShouldRemove(e: Held) returns (remove: bool)
      requires Valid() && |e.ts| <= numProcesses
      ensures remove == Deliverable(e, myTimestamp[..])
    {
      remove := true;
      for i := 0 to |e.ts|
        invariant remove == forall j | 0 <= j < i ::
          if j == e.sender then e.ts[j] == myTimestamp[j] + 1 else e.ts[j] <= myTimestamp[j]
      {
        if i == e.sender {
          if e.ts[i] != myTimestamp[i] + 1 {
            remove := false;
          }
        } else {
          if e.ts[i] > myTimestamp[i] {
            remove := false;
          }
        }
      }
    }

    /** One pass over the holdback queue, testing every entry against the
        clock as it is now: the entries kept and the entries to release. */
    method SplitHoldback() returns (kept: seq<Held>, removed: seq<Held>)
      requires Valid()
      ensures (kept, removed) == Partition(holdbackQueue, myTimestamp[..])
    {
      kept, removed := [], [];
      for k := 0 to |holdbackQueue|
        invariant (kept, removed) == Partition(holdbackQueue[..k], myTimestamp[..])
      {
        var e := holdbackQueue[k];
        var remove := ShouldRemove(e);
        assert holdbackQueue[..k + 1][..k] == holdbackQueue[..k];
        if remove {
          removed := removed + [e];
        } else {
          kept := kept + [e];
        }
      }
      assert holdbackQueue[..|holdbackQueue|] == holdbackQueue;
    }

    /** Stands in for printing a delivered message. */
    method Deliver(sender: nat, message: string)
      modifies this`delivered
      ensures delivered == old(delivered) + [(sender, message)]
    {
      delivered := delivered + [(sender, message)];
    }

    /** Releases `removed` in order: one increment of the sender's entry and
        one delivery per entry. */
    method ReleaseAll(removed: seq<Held>)
      requires Valid() && SendersIn(removed, numProcesses)
      modifies myTimestamp, this`delivered
      ensures myTimestamp[..] == Bump(old(myTimestamp[..]), removed)
      ensures delivered == old(delivered) + Deliveries(removed)
    {
      for j := 0 to |removed|
        invariant myTimestamp[..] == Bump(old(myTimestamp[..]), removed[..j])
        invariant delivered == old(delivered) + Deliveries(removed[..j])
      {
        var e := removed[j];
        assert removed[..j + 1][..j] == removed[..j];
        myTimestamp[e.sender] := myTimestamp[e.sender] + 1;
        Deliver(e.sender, e.payload);
      }
      assert removed[..|removed|] == removed;
    }

    /** One pass of the release loop: every held entry is tested against
        the clock as it is when the pass begins; the entries that pass are
        released in queue order, the others stay held. */
    method HoldbackPass() returns (released: seq<Held>)
      requires Valid()
      modifies this`holdbackQueue, this`delivered, myTimestamp
      ensures Valid()
      ensures var p := Partition(old(holdbackQueue), old(myTimestamp[..]));
        && holdbackQueue == p.0
        && released == p.1
        && myTimestamp[..] == Bump(old(myTimestamp[..]), p.1)
        && delivered == old(delivered) + Deliveries(p.1)
    {
      var kept, removed := SplitHoldback();
      PartitionFits(holdbackQueue, myTimestamp[..], numProcesses);
      ReleaseAll(removed);
      holdbackQueue := kept;
      released := removed;
    }

    /** Repeats passes over the holdback queue until one releases nothing.
        Each pass decides against the clock as it was when the pass began;
        the clock advances only after the pass. */
    method UpdateHoldbackQueue()
      requires Valid()
      modifies this`holdbackQueue, this`delivered, myTimestamp
      ensures Valid()
      ensures var s := Settle(old(holdbackQueue), old(myTimestamp[..]));
        && holdbackQueue == s.queue
        && myTimestamp[..] == s.clock
        && delivered == old(delivered) + Deliveries(s.released)
      ensures forall e | e in holdbackQueue :: !Deliverable(e, myTimestamp[..])
      ensures forall i | 0 <= i < numProcesses :: old(myTimestamp[i]) <= myTimestamp[i]
    {
      ghost var q0, v0 := holdbackQueue, myTimestamp[..];
      ghost var goal := Settle(q0, v0);
      ghost var done: seq<Held> := [];
      assert [] + goal.released == goal.released;
      while true
        invariant Valid()
        invariant Reaches(holdbackQueue, myTimestamp[..], done, goal)
        invariant delivered == old(delivered) + Deliveries(done)
        decreases |holdbackQueue|
      {
        ghost var q, v, d := holdbackQueue, myTimestamp[..], delivered;
        var released := HoldbackPass();
        DeliveriesStep(old(delivered), d, delivered, done, released);
        if |released| == 0 {
          ReachesAtStop(q, v, done, goal);
          assert done + released == done;
          break;
        }
        ReachesAfterPass(q, v, done, goal);
        done := done + released;
      }
      SettleFixedPoint(q0, v0);
      SettleClock(q0, v0);
    }

    /** Handles one decoded packet. An ack only records (sender, id) as
        acknowledged. A data packet is always acknowledged to its sender
        with the same id, even when it is a duplicate; a new one is recorded
        as received, queued for causal release, and reported by `true`. */
    method UnicastReceive(sender: nat, messageId: nat, isAck: bool, messageTimestamp: seq<nat>,
                          message: string, roll: real, delay: real) returns (isNew: bool)
      requires Valid()
      requires !isAck ==> sender < numProcesses
      requires !isAck && (sender, messageId) !in hasReceived ==> |messageTimestamp| <= numProcesses
      modifies this`hasAcknowledged, this`hasReceived, this`holdbackQueue, this`delivered,
               this`messageIdCounter, this`unackMessages, this`outbox, myTimestamp
      ensures Valid()
      ensures messageIdCounter == old(messageIdCounter) && unackMessages == old(unackMessages)
      ensures isNew == (!isAck && (sender, messageId) !in old(hasReceived))
      ensures isAck ==>
        && hasAcknowledged == old(hasAcknowledged) + {(sender, messageId)}
        && outbox == old(outbox)
      ensures !isAck ==>
        && hasAcknowledged == old(hasAcknowledged)
        && outbox == old(outbox)
             + Enqueue(Packet(sender, myId, Some(messageId), true, old(myTimestamp[..]), "", delay),
                       roll, dropRate)
      ensures !isNew ==>
        && hasReceived == old(hasReceived)
        && holdbackQueue == old(holdbackQueue)
        && myTimestamp[..] == old(myTimestamp[..])
        && delivered == old(delivered)
      ensures isNew ==>
        && hasReceived == old(hasReceived) + {(sender, messageId)}
        && var s := Settle(old(holdbackQueue) + [Held(sender, messageTimestamp, message)],
                           old(myTimestamp[..]));
           && holdbackQueue == s.queue
           && myTimestamp[..] == s.clock
           && delivered == old(delivered) + Deliveries(s.released)
    {
      isNew := false;
      if isAck {
        hasAcknowledged := hasAcknowledged + {(sender, messageId)};
      } else {
        UnicastSend(sender, "", Some(messageId), true, None, roll, delay);
        if (sender, messageId) !in hasReceived {
          hasReceived := hasReceived + {(sender, messageId)};
          FitsSnoc(holdbackQueue, Held(sender, messageTimestamp, message), numProcesses);
          holdbackQueue := holdbackQueue + [Held(sender, messageTimestamp, message)];
          UpdateHoldbackQueue();
          isNew := true;
        }
      }
    }

    /** Sends `message` to every process, process i with the i-th draw and
        delay. All copies carry the current clock; ids are consecutive. */
    method Multicast(message: string, rolls: seq<real>, delays: seq<real>)
      requires Valid() && |rolls| == numProcesses && |delays| == numProcesses
      modifies this`messageIdCounter, this`unackMessages, this`outbox
      ensures Valid()
      ensures messageIdCounter == old(messageIdCounter) + numProcesses
      ensures unackMessages == old(unackMessages)
                + FreshRecords(old(messageIdCounter) + 1, message, myTimestamp[..], numProcesses)
      ensures outbox == old(outbox)
                + Transmit(FreshPackets(old(messageIdCounter) + 1, myId, message, myTimestamp[..], delays, numProcesses),
                           rolls, dropRate)
    {
      ghost var c0 := messageIdCounter;
      ghost var ts := myTimestamp[..];
      for id := 0 to numProcesses
        invariant Valid()
        invariant messageIdCounter == c0 + id && myTimestamp[..] == ts
        invariant unackMessages == old(unackMessages) + FreshRecords(c0 + 1, message, ts, id)
        invariant outbox == old(outbox) + Transmit(FreshPackets(c0 + 1, myId, message, ts, delays, id), rolls, dropRate)
      {
        ghost var recsBefore, sentBefore := unackMessages, outbox;
        UnicastSend(id, message, None, false, None, rolls[id], delays[id]);
        assert Stamp(None) == ts && messageIdCounter == c0 + 1 + id;
        assert Unacked(id, messageIdCounter, message, Stamp(None)) == Unacked(id, c0 + 1 + id, message, ts);
        FreshRecordStep(old(unackMessages), recsBefore, unackMessages, c0 + 1, message, ts, id);
        FreshPacketStep(old(outbox), sentBefore, outbox, c0 + 1, myId, message, ts, delays, rolls, dropRate, id);
      }
    }

    /** One line of user input: the process's own clock entry goes up by one,
        then the line (without its last character) is multicast. */
    method UserInputLine(line: string, rolls: seq<real>, delays: seq<real>)
      requires Valid() && |rolls| == numProcesses && |delays| == numProcesses
      modifies myTimestamp, this`messageIdCounter, this`unackMessages, this`outbox
      ensures Valid()
      ensures myTimestamp[..] == old(myTimestamp[..])[myId := old(myTimestamp[myId]) + 1]
      ensures messageIdCounter == old(messageIdCounter) + numProcesses
      ensures unackMessages == old(unackMessages)
                + FreshRecords(old(messageIdCounter) + 1, StripLast(line), myTimestamp[..], numProcesses)
      ensures outbox == old(outbox)
                + Transmit(FreshPackets(old(messageIdCounter) + 1, myId, StripLast(line), myTimestamp[..], delays, numProcesses),
                           rolls, dropRate)
    {
      var text := StripLast(line);
      myTimestamp[myId] := myTimestamp[myId] + 1;
      Multicast(text, rolls, delays);
    }

    /** Resends record `u` with its original id, payload and timestamp. */
    method Retransmit(u: Unacked, roll: real, delay: real)
      requires Valid() && u.dest < numProcesses
      modifies this`messageIdCounter, this`unackMessages, this`outbox
      ensures Valid()
      ensures messageIdCounter == old(messageIdCounter) && unackMessages == old(unackMessages)
      ensures outbox == old(outbox) + Enqueue(Resend(u, myId, delay), roll, dropRate)
    {
      UnicastSend(u.dest, u.payload, Some(u.id), false, Some(u.ts), roll, delay);
    }

    /** The retransmission scan's loop body for record `recs[k]`: unless its
        (destination, id) has been acknowledged, it is kept and resent with
        the next draw and delay. */
    method ScanRecord(recs: seq<Unacked>, k: nat, kept: seq<Unacked>, rolls: seq<real>, delays: seq<real>,
                      ghost base: seq<Packet>)
      returns (kept': seq<Unacked>)
      requires Valid() && unackMessages == recs && k < |recs|
      requires |rolls| == |delays| == |Pending(recs, hasAcknowledged)|
      requires kept == Pending(recs[..k], hasAcknowledged) && |kept| <= |rolls|
      requires outbox == base + Transmit(Resends(kept, myId, delays), rolls, dropRate)
      modifies this`messageIdCounter, this`unackMessages, this`outbox
      ensures Valid() && unackMessages == recs && messageIdCounter == old(messageIdCounter)
      ensures kept' == Pending(recs[..k + 1], hasAcknowledged) && |kept'| <= |rolls|
      ensures outbox == base + Transmit(Resends(kept', myId, delays), rolls, dropRate)
    {
      var u := recs[k];
      PendingSnoc(recs, hasAcknowledged, k);
      kept' := kept;
      PendingPrefix(recs, hasAcknowledged, k + 1);
      if (u.dest, u.id) !in hasAcknowledged {
        var j := |kept|;
        ghost var sentBefore := outbox;
        Retransmit(u, rolls[j], delays[j]);
        ResendStep(base, sentBefore, outbox, kept, u, myId, delays, rolls, dropRate);
        kept' := kept + [u];
      }
    }

    /** One retransmission scan: records whose (destination, id) has been
        acknowledged are dropped; every other record is kept, in order, and
        resent with its original id, payload and timestamp, the k-th resend
        with the k-th draw and delay. */
    method AckHandlerScan(rolls: seq<real>, delays: seq<real>)
      requires Valid()
      requires |rolls| == |Pending(unackMessages, hasAcknowledged)|
      requires |delays| == |Pending(unackMessages, hasAcknowledged)|
      modifies this`unackMessages, this`outbox, this`messageIdCounter
      ensures Valid()
      ensures messageIdCounter == old(messageIdCounter)
      ensures unackMessages == Pending(old(unackMessages), hasAcknowledged)
      ensures outbox == old(outbox) + Transmit(Resends(unackMessages, myId, delays), rolls, dropRate)
    {
      var recs := unackMessages;
      var newUnack: seq<Unacked> := [];
      for k := 0 to |recs|
        invariant Valid() && unackMessages == recs && messageIdCounter == old(messageIdCounter)
        invariant newUnack == Pending(recs[..k], hasAcknowledged) && |newUnack| <= |rolls|
        invariant outbox == old(outbox) + Transmit(Resends(newUnack, myId, delays), rolls, dropRate)
      {
        newUnack := ScanRecord(recs, k, newUnack, rolls, delays, old(outbox));
      }
      assert recs[..|recs|] == recs;
      PendingStaysOrdered(recs, hasAcknowledged, messageIdCounter + 1, numProcesses);
      unackMessages := newUnack;
    }
  }
}
