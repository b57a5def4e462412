/** The reliable unicast layer of chat_process.py as values: what goes into
    the send queue, the record kept for every unacknowledged data message,
    the drop decision of the fault-injecting queue, and the filter that one
    retransmission scan applies to the records. */
module Unicast {
  import opened Seqs

  datatype Option<T> = None | Some(value: T)

  /** A packet placed in the send queue: the destination process, then the
      five envelope fields (sender, message id, ack flag, vector timestamp,
      payload), and the artificial delay drawn for it. */
  datatype Packet = Packet(dest: nat, sender: nat, msgId: Option<nat>, isAck: bool,
                           ts: seq<nat>, payload: string, delay: real)

  /** A data message sent and not yet acknowledged, kept for retransmission
      with its original id and timestamp. */
  datatype Unacked = Unacked(dest: nat, id: nat, payload: string, ts: seq<nat>)

  /** What reaches the send queue for one packet: a draw `roll` at or below
      the drop rate loses it. */
  function Enqueue(p: Packet, roll: real, dropRate: real): (q: seq<Packet>)
  {
    if roll <= dropRate then [] else [p]
  }

  /** What reaches the send queue for packets sent one after another, the
      i-th with draw `rolls[i]`. */
  function Transmit(ps: seq<Packet>, rolls: seq<real>, dropRate: real): (out: seq<Packet>)
    requires |ps| <= |rolls|
    ensures |out| <= |ps|
    decreases |ps|
  {
    if ps == [] then []
    else Transmit(ps[..|ps| - 1], rolls, dropRate) + Enqueue(ps[|ps| - 1], rolls[|ps| - 1], dropRate)
  }

  /** Dropping never reorders: what is queued is a subsequence of what was sent. */
  lemma {:induction false} TransmitKeepsOrder(ps: seq<Packet>, rolls: seq<real>, dropRate: real)
    requires |ps| <= |rolls|
    ensures SubsequenceOf(Transmit(ps, rolls, dropRate), ps)
    decreases |ps|
  {
    if ps != [] {
      var init, p := ps[..|ps| - 1], ps[|ps| - 1];
      var rest := Transmit(init, rolls, dropRate);
      TransmitKeepsOrder(init, rolls, dropRate);
      SubsequenceSnoc(rest, init, p);
      assert init + [p] == ps;
      if rolls[|ps| - 1] <= dropRate {
        assert Transmit(ps, rolls, dropRate) == rest + [] == rest;
      } else {
        assert Transmit(ps, rolls, dropRate) == rest + [p];
      }
    }
  }

  lemma TransmitAppend(ps: seq<Packet>, p: Packet, rolls: seq<real>, dropRate: real)
    requires |ps| < |rolls|
    ensures Transmit(ps + [p], rolls, dropRate)
            == Transmit(ps, rolls, dropRate) + Enqueue(p, rolls[|ps|], dropRate)
  {
    assert (ps + [p])[..|ps|] == ps;
  }

  /** Draws of random.random() lie in [0, 1). */
  predicate Draws(rolls: seq<real>)
  {
    forall i | 0 <= i < |rolls| :: 0.0 <= rolls[i] < 1.0
  }

  /** With a drop rate of 1 or more every packet is lost: nothing ever
      reaches the send queue. */
  lemma {:induction false} TransmitAllDropped(ps: seq<Packet>, rolls: seq<real>, dropRate: real)
    requires |ps| <= |rolls| && Draws(rolls) && dropRate >= 1.0
    ensures Transmit(ps, rolls, dropRate) == []
    decreases |ps|
  {
    if ps != [] {
      TransmitAllDropped(ps[..|ps| - 1], rolls, dropRate);
    }
  }

  /** When every draw is above the drop rate, every packet is queued, in
      send order. */
  lemma {:induction false} TransmitNoneDropped(ps: seq<Packet>, rolls: seq<real>, dropRate: real)
    requires |ps| <= |rolls|
    requires forall i | 0 <= i < |rolls| :: rolls[i] > dropRate
    ensures Transmit(ps, rolls, dropRate) == ps
    decreases |ps|
  {
    if ps != [] {
      TransmitNoneDropped(ps[..|ps| - 1], rolls, dropRate);
      assert ps[..|ps| - 1] + [ps[|ps| - 1]] == ps;
    }
  }

  /** The packet that retransmits record `u`: a data packet with the
      record's original id, payload and timestamp. */
  function Resend(u: Unacked, me: nat, delay: real): (p: Packet)
  {
    Packet(u.dest, me, Some(u.id), false, u.ts, u.payload, delay)
  }

  /** The retransmissions of `us`, in order, the i-th with delay `delays[i]`. */
  function Resends(us: seq<Unacked>, me: nat, delays: seq<real>): (ps: seq<Packet>)
    requires |us| <= |delays|
  {
    seq(|us|, i requires 0 <= i < |us| => Resend(us[i], me, delays[i]))
  }

  /** The records one multicast appends: process i is sent id `first + i`,
      all with the same payload and timestamp. */
  function FreshRecords(first: nat, payload: string, ts: seq<nat>, n: nat): (recs: seq<Unacked>)
  {
    seq(n, i requires 0 <= i < n => Unacked(i, first + i, payload, ts))
  }

  /** The first `n` packets one multicast sends, process i getting id
      `first + i` and delay `delays[i]`. */
  function FreshPackets(first: nat, me: nat, payload: string, ts: seq<nat>, delays: seq<real>, n: nat): (ps: seq<Packet>)
    requires n <= |delays|
  {
    seq(n, i requires 0 <= i < n => Packet(i, me, Some(first + i), false, ts, payload, delays[i]))
  }

  /** The records still awaiting an acknowledgement after one scan: exactly
      those whose (destination, id) has not been acknowledged, in their
      original order. */
  function Pending(recs: seq<Unacked>, acked: set<(nat, nat)>): (r: seq<Unacked>)
    ensures |r| <= |recs|
    decreases |recs|
  {
    if recs == [] then []
    else
      var rest := Pending(recs[..|recs| - 1], acked);
      var u := recs[|recs| - 1];
      if (u.dest, u.id) in acked then rest else rest + [u]
  }

  /** The scan keeps the surviving records in their original order. */
  lemma {:induction false} PendingKeepsOrder(recs: seq<Unacked>, acked: set<(nat, nat)>)
    ensures SubsequenceOf(Pending(recs, acked), recs)
    decreases |recs|
  {
    if recs != [] {
      var init, u := recs[..|recs| - 1], recs[|recs| - 1];
      PendingKeepsOrder(init, acked);
      SubsequenceSnoc(Pending(init, acked), init, u);
      assert init + [u] == recs;
    }
  }

  /** A record survives the scan exactly when it was there and its
      (destination, id) has not been acknowledged. */
  lemma {:induction false} PendingMembers(recs: seq<Unacked>, acked: set<(nat, nat)>)
    ensures forall u :: u in Pending(recs, acked) <==> u in recs && (u.dest, u.id) !in acked
    decreases |recs|
  {
    if recs != [] {
      var init := recs[..|recs| - 1];
      assert recs == init + [recs[|recs| - 1]];
      PendingMembers(init, acked);
    }
  }

  /** Scanning one more record: it is kept, at the end, unless acknowledged. */
  lemma PendingSnoc(recs: seq<Unacked>, acked: set<(nat, nat)>, k: nat)
    requires k < |recs|
    ensures (recs[k].dest, recs[k].id) in acked ==> Pending(recs[..k + 1], acked) == Pending(recs[..k], acked)
    ensures (recs[k].dest, recs[k].id) !in acked ==>
              Pending(recs[..k + 1], acked) == Pending(recs[..k], acked) + [recs[k]]
  {
    assert recs[..k + 1][..k] == recs[..k];
  }

  /** Scanning a prefix leaves a prefix of what scanning the whole leaves. */
  lemma {:induction false} PendingPrefix(recs: seq<Unacked>, acked: set<(nat, nat)>, k: nat)
    requires k <= |recs|
    ensures |Pending(recs[..k], acked)| <= |Pending(recs, acked)|
    decreases |recs| - k
  {
    if k < |recs| {
      PendingPrefix(recs, acked, k + 1);
      PendingSnoc(recs, acked, k);
    } else {
      assert recs[..k] == recs;
    }
  }

  /** Message ids strictly increase along the list. */
  predicate IdsIncreasing(recs: seq<Unacked>)
  {
    forall i, j | 0 <= i < j < |recs| :: recs[i].id < recs[j].id
  }

  /** The shape the record list keeps: ids strictly increasing and all
      below `below`, every destination below `n`. */
  predicate Ordered(recs: seq<Unacked>, below: int, n: nat)
  {
    && IdsIncreasing(recs)
    && forall i | 0 <= i < |recs| :: recs[i].dest < n && recs[i].id < below
  }

  /** Appending a record with the next id keeps the list ordered. */
  lemma OrderedSnoc(recs: seq<Unacked>, u: Unacked, below: int, n: nat)
    requires Ordered(recs, u.id, n) && u.dest < n && u.id < below
    ensures Ordered(recs + [u], below, n)
  {
  }

  /** The scan keeps the list ordered, under the same bounds. */
  lemma {:induction false} PendingStaysOrdered(recs: seq<Unacked>, acked: set<(nat, nat)>, below: int, n: nat)
    requires Ordered(recs, below, n)
    ensures Ordered(Pending(recs, acked), below, n)
    decreases |recs|
  {
    if recs != [] {
      var init, u := recs[..|recs| - 1], recs[|recs| - 1];
      PendingStaysOrdered(init, acked, u.id, n);
      var rest := Pending(init, acked);
      if (u.dest, u.id) !in acked {
        OrderedSnoc(rest, u, below, n);
      }
    }
  }

  /** A send queue holding the retransmissions of `us` that gets one more,
      of `u`, holds the retransmissions of `us + [u]`. */
  lemma ResendStep(base: seq<Packet>, before: seq<Packet>, after: seq<Packet>,
                   us: seq<Unacked>, u: Unacked, me: nat,
                   delays: seq<real>, rolls: seq<real>, dropRate: real)
    requires |us| < |delays| && |us| < |rolls|
    requires before == base + Transmit(Resends(us, me, delays), rolls, dropRate)
    requires after == before + Enqueue(Resend(u, me, delays[|us|]), rolls[|us|], dropRate)
    ensures after == base + Transmit(Resends(us + [u], me, delays), rolls, dropRate)
  {
    var p := Resend(u, me, delays[|us|]);
    var sent := Resends(us, me, delays);
    assert Resends(us + [u], me, delays) == sent + [p];
    TransmitAppend(sent, p, rolls, dropRate);
    AppendAssoc(base, Transmit(sent, rolls, dropRate), Enqueue(p, rolls[|us|], dropRate));
  }

  /** A record list ending in the first k records of a multicast that gets
      the next one ends in the first k + 1. */
  lemma FreshRecordStep(base: seq<Unacked>, before: seq<Unacked>, after: seq<Unacked>,
                        first: nat, payload: string, ts: seq<nat>, k: nat)
    requires before == base + FreshRecords(first, payload, ts, k)
    requires after == before + [Unacked(k, first + k, payload, ts)]
    ensures after == base + FreshRecords(first, payload, ts, k + 1)
  {
    var r := Unacked(k, first + k, payload, ts);
    assert FreshRecords(first, payload, ts, k + 1) == FreshRecords(first, payload, ts, k) + [r];
    AppendAssoc(base, FreshRecords(first, payload, ts, k), [r]);
  }

  /** The same for the send queue and the first k packets of a multicast. */
  lemma FreshPacketStep(base: seq<Packet>, before: seq<Packet>, after: seq<Packet>,
                        first: nat, me: nat, payload: string, ts: seq<nat>,
                        delays: seq<real>, rolls: seq<real>, dropRate: real, k: nat)
    requires k < |delays| && k < |rolls|
    requires before == base + Transmit(FreshPackets(first, me, payload, ts, delays, k), rolls, dropRate)
    requires after == before
               + Enqueue(Packet(k, me, Some(first + k), false, ts, payload, delays[k]), rolls[k], dropRate)
    ensures after == base + Transmit(FreshPackets(first, me, payload, ts, delays, k + 1), rolls, dropRate)
  {
    var p := Packet(k, me, Some(first + k), false, ts, payload, delays[k]);
    var sent := FreshPackets(first, me, payload, ts, delays, k);
    assert FreshPackets(first, me, payload, ts, delays, k + 1) == sent + [p];
    TransmitAppend(sent, p, rolls, dropRate);
    AppendAssoc(base, Transmit(sent, rolls, dropRate), Enqueue(p, rolls[k], dropRate));
  }
}
