/** The causal delivery engine of chat_process.py, as pure definitions: the
    vector-clock release test, one pass over the holdback queue, the clock
    after a pass, and the repetition of passes until one releases nothing. */
module Holdback {
  import opened Seqs

  /** A holdback queue entry: the sender's process id, the vector timestamp
      the sender attached, and the payload. */
  datatype Held = Held(sender: nat, ts: seq<nat>, payload: string)

  /** The release test of one entry against the local clock `v`: the
      sender's index must be exactly one ahead of `v` and every other index
      at most `v`'s. Every index of the entry's timestamp is examined; an
      index beyond `v` makes the entry undeliverable. */
  predicate Deliverable(e: Held, v: seq<nat>)
  {
    && |e.ts| <= |v|
    && forall i | 0 <= i < |e.ts| ::
         if i == e.sender then e.ts[i] == v[i] + 1 else e.ts[i] <= v[i]
  }

  /** Every entry names a sender that indexes the clock. */
  predicate SendersIn(q: seq<Held>, n: nat)
  {
    forall e | e in q :: e.sender < n
  }

  /** One pass over the queue against the clock `v` as it was when the pass
      began: the entries kept (first) and the entries released (second). */
  function Partition(q: seq<Held>, v: seq<nat>): (p: (seq<Held>, seq<Held>))
    ensures |p.0| + |p.1| == |q|
    ensures forall e | e in p.0 :: e in q && !Deliverable(e, v)
    ensures forall e | e in p.1 :: e in q && Deliverable(e, v)
    decreases |q|
  {
    if q == [] then ([], [])
    else
      var p := Partition(q[..|q| - 1], v);
      var e := q[|q| - 1];
      if Deliverable(e, v) then (p.0, p.1 + [e]) else (p.0 + [e], p.1)
  }

  /** Entries whose sender is below `n` and whose timestamp has at most `n`
      entries: what a process with `n` peers can hold back. */
  predicate Fits(q: seq<Held>, n: nat)
  {
    forall i | 0 <= i < |q| :: q[i].sender < n && |q[i].ts| <= n
  }

  lemma FitsSnoc(q: seq<Held>, e: Held, n: nat)
    requires Fits(q, n) && e.sender < n && |e.ts| <= n
    ensures Fits(q + [e], n)
  {
  }

  lemma PartitionFits(q: seq<Held>, v: seq<nat>, n: nat)
    requires Fits(q, n)
    ensures Fits(Partition(q, v).0, n) && Fits(Partition(q, v).1, n)
    ensures SendersIn(Partition(q, v).1, n)
  {
  }

  /** A pass loses and invents nothing: the queue is the kept entries plus
      the released ones, counted with multiplicity. */
  lemma {:induction false} PartitionConserves(q: seq<Held>, v: seq<nat>)
    ensures multiset(Partition(q, v).0) + multiset(Partition(q, v).1) == multiset(q)
    decreases |q|
  {
    if q != [] {
      PartitionConserves(q[..|q| - 1], v);
      assert q == q[..|q| - 1] + [q[|q| - 1]];
    }
  }

  /** Every entry of the queue ends up on the side its test decides: an
      entry that fails the test against the pass-start clock stays held,
      one that passes it is released. */
  lemma PartitionBySide(q: seq<Held>, v: seq<nat>)
    ensures forall e | e in q :: (e in Partition(q, v).0 <==> !Deliverable(e, v))
    ensures forall e | e in q :: (e in Partition(q, v).1 <==> Deliverable(e, v))
  {
    var p := Partition(q, v);
    PartitionConserves(q, v);
    forall e | e in q
      ensures e in p.0 || e in p.1
    {
      assert multiset(q)[e] > 0;
    }
  }

  /** A pass keeps both halves in queue order: the kept entries stay in
      their relative order and the released ones are delivered in the order
      they were queued. */
  lemma {:induction false} PartitionKeepsOrder(q: seq<Held>, v: seq<nat>)
    ensures SubsequenceOf(Partition(q, v).0, q)
    ensures SubsequenceOf(Partition(q, v).1, q)
    decreases |q|
  {
    if q != [] {
      var q' := q[..|q| - 1];
      PartitionKeepsOrder(q', v);
      var p := Partition(q', v);
      var e := q[|q| - 1];
      if Deliverable(e, v) {
        assert (p.1 + [e])[..|p.1|] == p.1;
      } else {
        assert (p.0 + [e])[..|p.0|] == p.0;
      }
    }
  }

  /** Number of entries of `r` sent by process `i`. */
  function Count(r: seq<Held>, i: nat): (c: nat)
    decreases |r|
  {
    if r == [] then 0
    else Count(r[..|r| - 1], i) + (if r[|r| - 1].sender == i then 1 else 0)
  }

  lemma {:induction false} CountAppend(a: seq<Held>, b: seq<Held>, i: nat)
    ensures Count(a + b, i) == Count(a, i) + Count(b, i)
    decreases |b|
  {
    if b == [] {
      assert a + b == a;
    } else {
      assert (a + b)[..|a + b| - 1] == a + b[..|b| - 1];
      assert (a + b)[|a + b| - 1] == b[|b| - 1];
      CountAppend(a, b[..|b| - 1], i);
    }
  }

  lemma {:induction false} CountPositive(r: seq<Held>, e: Held)
    requires e in r
    ensures Count(r, e.sender) >= 1
    decreases |r|
  {
    if r[|r| - 1] != e {
      assert r == r[..|r| - 1] + [r[|r| - 1]];
      CountPositive(r[..|r| - 1], e);
    }
  }

  /** The clock after the released entries `r` are delivered in order, each
      adding one to its sender's index. */
  function Bump(v: seq<nat>, r: seq<Held>): (w: seq<nat>)
    requires SendersIn(r, |v|)
    ensures |w| == |v|
    ensures forall i | 0 <= i < |v| :: w[i] == v[i] + Count(r, i)
    decreases |r|
  {
    if r == [] then v
    else
      var w := Bump(v, r[..|r| - 1]);
      var s := r[|r| - 1].sender;
      w[s := w[s] + 1]
  }

  /** The result of the release loop: the queue left held, the clock, and
      every entry released, in delivery order. */
  datatype Settlement = Settlement(queue: seq<Held>, clock: seq<nat>, released: seq<Held>)

  /** Passes repeated until one releases nothing. Each pass tests every entry
      against the clock as it was at the start of the pass and only then
      advances the clock. */
  function Settle(q: seq<Held>, v: seq<nat>): (s: Settlement)
    requires SendersIn(q, |v|)
    ensures |s.clock| == |v|
    decreases |q|
  {
    var p := Partition(q, v);
    if p.1 == [] then Settlement(p.0, v, [])
    else
      var rest := Settle(p.0, Bump(v, p.1));
      Settlement(rest.queue, rest.clock, p.1 + rest.released)
  }

  /** The loop loses and invents nothing: the queue it started from is what
      stays held plus what was released, counted with multiplicity. */
  lemma {:induction false} SettleConserves(q: seq<Held>, v: seq<nat>)
    requires SendersIn(q, |v|)
    ensures multiset(q) == multiset(Settle(q, v).queue) + multiset(Settle(q, v).released)
    decreases |q|
  {
    var p := Partition(q, v);
    PartitionConserves(q, v);
    if p.1 != [] {
      var w := Bump(v, p.1);
      SettleConserves(p.0, w);
      var rest := Settle(p.0, w);
      assert Settle(q, v) == Settlement(rest.queue, rest.clock, p.1 + rest.released);
    }
  }

  /** The order in which `deliver` is called for released entries. */
  function Deliveries(r: seq<Held>): (d: seq<(nat, string)>)
    decreases |r|
  {
    if r == [] then []
    else Deliveries(r[..|r| - 1]) + [(r[|r| - 1].sender, r[|r| - 1].payload)]
  }

  lemma {:induction false} DeliveriesAppend(a: seq<Held>, b: seq<Held>)
    ensures Deliveries(a + b) == Deliveries(a) + Deliveries(b)
    decreases |b|
  {
    if b == [] {
      assert a + b == a;
    } else {
      assert (a + b)[..|a + b| - 1] == a + b[..|b| - 1];
      assert (a + b)[|a + b| - 1] == b[|b| - 1];
      DeliveriesAppend(a, b[..|b| - 1]);
    }
  }

  /** A delivery log holding the deliveries of `done` that gets those of
      `more` holds the deliveries of `done + more`. */
  lemma DeliveriesStep(base: seq<(nat, string)>, before: seq<(nat, string)>, after: seq<(nat, string)>,
                       done: seq<Held>, more: seq<Held>)
    requires before == base + Deliveries(done)
    requires after == before + Deliveries(more)
    ensures after == base + Deliveries(done + more)
  {
    DeliveriesAppend(done, more);
    AppendAssoc(base, Deliveries(done), Deliveries(more));
  }

  /** `goal` is what the release loop reaches from `q` and `v` once the
      entries `done` have already been released. */
  predicate Reaches(q: seq<Held>, v: seq<nat>, done: seq<Held>, goal: Settlement)
    requires SendersIn(q, |v|)
  {
    var s := Settle(q, v);
    s.queue == goal.queue && s.clock == goal.clock && done + s.released == goal.released
  }

  /** A pass that releases something leaves the loop with the same goal
      from the kept entries and the advanced clock. */
  lemma ReachesAfterPass(q: seq<Held>, v: seq<nat>, done: seq<Held>, goal: Settlement)
    requires SendersIn(q, |v|) && Reaches(q, v, done, goal)
    requires Partition(q, v).1 != []
    ensures var p := Partition(q, v);
      SendersIn(p.0, |v|) && Reaches(p.0, Bump(v, p.1), done + p.1, goal)
  {
    var p := Partition(q, v);
    var rest := Settle(p.0, Bump(v, p.1));
    assert Settle(q, v) == Settlement(rest.queue, rest.clock, p.1 + rest.released);
    AppendAssoc(done, p.1, rest.released);
  }

  /** A pass that releases nothing ends the loop at the goal. */
  lemma ReachesAtStop(q: seq<Held>, v: seq<nat>, done: seq<Held>, goal: Settlement)
    requires SendersIn(q, |v|) && Reaches(q, v, done, goal)
    requires Partition(q, v).1 == []
    ensures Partition(q, v).0 == goal.queue && v == goal.clock && done == goal.released
  {
    assert done + [] == done;
  }

  /** The loop stops at a fixed point: nothing left held is deliverable
      against the final clock. */
  lemma {:induction false} SettleFixedPoint(q: seq<Held>, v: seq<nat>)
    requires SendersIn(q, |v|)
    ensures var s := Settle(q, v); forall e | e in s.queue :: !Deliverable(e, s.clock)
    decreases |q|
  {
    var p := Partition(q, v);
    if p.1 != [] {
      var w := Bump(v, p.1);
      SettleFixedPoint(p.0, w);
      assert Settle(q, v).queue == Settle(p.0, w).queue;
      assert Settle(q, v).clock == Settle(p.0, w).clock;
    }
  }

  /** The clock only moves forward: each index grows by exactly the number of
      released entries from that sender. */
  lemma {:induction false} SettleClock(q: seq<Held>, v: seq<nat>)
    requires SendersIn(q, |v|)
    ensures var s := Settle(q, v);
      forall i | 0 <= i < |v| :: s.clock[i] == v[i] + Count(s.released, i) && s.clock[i] >= v[i]
    decreases |q|
  {
    var p := Partition(q, v);
    if p.1 != [] {
      var w := Bump(v, p.1);
      SettleClock(p.0, w);
      var rest := Settle(p.0, w);
      forall i | 0 <= i < |v|
        ensures Settle(q, v).clock[i] == v[i] + Count(Settle(q, v).released, i)
      {
        CountAppend(p.1, rest.released, i);
      }
    }
  }

  /** What stays held keeps its relative queue order. */
  lemma {:induction false} SettleKeepsOrder(q: seq<Held>, v: seq<nat>)
    requires SendersIn(q, |v|)
    ensures SubsequenceOf(Settle(q, v).queue, q)
    decreases |q|
  {
    var p := Partition(q, v);
    PartitionKeepsOrder(q, v);
    if p.1 != [] {
      SettleKeepsOrder(p.0, Bump(v, p.1));
      SubsequenceTransitive(Settle(p.0, Bump(v, p.1)).queue, p.0, q);
    }
  }

  /** A pass's own clock advance covers the timestamps of what it released. */
  lemma BumpCoversReleased(v: seq<nat>, r: seq<Held>, e: Held, i: nat)
    requires SendersIn(r, |v|)
    requires e in r && Deliverable(e, v) && i < |e.ts|
    ensures i < |v| && e.ts[i] <= Bump(v, r)[i]
  {
    CountPositive(r, e);
  }

  /** The clock `c` covers every timestamp of `r`: each of its indices is
      within `c` and at most `c`'s. */
  predicate Covers(r: seq<Held>, c: seq<nat>)
  {
    forall e | e in r ::
      && |e.ts| <= |c|
      && forall i | 0 <= i < |e.ts| :: e.ts[i] <= c[i]
  }

  lemma CoversAt(r: seq<Held>, c: seq<nat>, e: Held, i: nat)
    requires Covers(r, c) && e in r && i < |e.ts|
    ensures i < |c| && e.ts[i] <= c[i]
  {
  }

  /** After the loop the clock is at least every released entry's timestamp
      at every index. (This does not mean every causal predecessor was
      delivered: a process's own copies are counted in the clock before they
      arrive and stay held; see `ScenarioOwnCopyOvertaken`.) */
  lemma {:induction false} SettleCoversReleased(q: seq<Held>, v: seq<nat>)
    requires SendersIn(q, |v|)
    ensures Covers(Settle(q, v).released, Settle(q, v).clock)
    decreases |q|
  {
    var p := Partition(q, v);
    if p.1 != [] {
      var w := Bump(v, p.1);
      var rest := Settle(p.0, w);
      assert Settle(q, v) == Settlement(rest.queue, rest.clock, p.1 + rest.released);
      SettleCoversReleased(p.0, w);
      SettleClock(p.0, w);
      forall e, i | e in p.1 + rest.released && 0 <= i < |e.ts|
        ensures i < |rest.clock| && e.ts[i] <= rest.clock[i]
      {
        if e in p.1 {
          BumpCoversReleased(v, p.1, e, i);
          assert rest.clock[i] >= w[i];
        } else {
          CoversAt(rest.released, rest.clock, e, i);
        }
      }
    }
  }

  lemma {:induction false} CountAbsent(r: seq<Held>, i: nat)
    requires forall e | e in r :: e.sender != i
    ensures Count(r, i) == 0
    decreases |r|
  {
    if r != [] {
      CountAbsent(r[..|r| - 1], i);
    }
  }

  /** A process's own multicast comes back to it stamped with its own index
      equal to (not one above) the local clock's, because the clock is
      advanced before the copy is taken. Such an entry is never released:
      while every held entry from `me` has its `me` index at most the
      clock's, the loop releases nothing from `me`, leaves the clock's `me`
      index where it was, and keeps all of those entries held. */
  lemma {:induction false} OwnCopyStaysHeld(q: seq<Held>, v: seq<nat>, me: nat)
    requires SendersIn(q, |v|) && me < |v|
    requires forall e | e in q && e.sender == me :: me < |e.ts| && e.ts[me] <= v[me]
    ensures var s := Settle(q, v);
      && (forall e | e in s.released :: e.sender != me)
      && s.clock[me] == v[me]
      && (forall e | e in q && e.sender == me :: e in s.queue)
    decreases |q|
  {
    var p := Partition(q, v);
    PartitionConserves(q, v);
    forall e | e in q && e.sender == me
      ensures e in p.0
    {
      assert multiset(q)[e] > 0;
      assert e !in p.1;
    }
    if p.1 != [] {
      CountAbsent(p.1, me);
      var w := Bump(v, p.1);
      OwnCopyStaysHeld(p.0, w, me);
      var rest := Settle(p.0, w);
      assert Settle(q, v) == Settlement(rest.queue, rest.clock, p.1 + rest.released);
    }
  }

  /** The entries of the three-process scenario below: "A" is process 0's
      first message; "B" is process 1's first message, sent after process 1
      delivered "A". */
  predicate ScenarioEntries(a: Held, b: Held)
  {
    a == Held(0, [1, 0, 0], "A") && b == Held(1, [1, 1, 0], "B")
  }

  /** At process 2 (clock [0, 0, 0]), "B" arriving alone stays held. */
  lemma ScenarioSuccessorHeld(a: Held, b: Held, v0: seq<nat>)
    requires ScenarioEntries(a, b) && v0 == [0, 0, 0]
    ensures Settle([b], v0) == Settlement([b], v0, [])
  {
    assert !Deliverable(b, v0) by { assert b.ts[0] > v0[0]; }
    assert [b][..0] == [] && [b][0] == b;
    assert Partition([], v0).0 + [b] == [b];
    assert Partition([b], v0) == ([b], []);
  }

  /** "A" arriving behind the held "B": the first pass releases "A" alone. */
  lemma ScenarioFirstPass(a: Held, b: Held, v0: seq<nat>)
    requires ScenarioEntries(a, b) && v0 == [0, 0, 0]
    ensures Partition([b, a], v0) == ([b], [a])
    ensures Bump(v0, [a]) == [1, 0, 0]
  {
    ScenarioSuccessorHeld(a, b, v0);
    assert Deliverable(a, v0);
    assert [b, a][..1] == [b] && [b, a][1] == a;
    assert Partition([], v0).1 + [a] == [a];
    assert [a][..0] == [] && [a][0] == a;
  }

  /** With "A" delivered (clock [1, 0, 0]), the next pass releases "B". */
  lemma ScenarioSecondPartition(a: Held, b: Held, v1: seq<nat>)
    requires ScenarioEntries(a, b) && v1 == [1, 0, 0]
    ensures Partition([b], v1) == ([], [b])
    ensures Bump(v1, [b]) == [1, 1, 0]
  {
    assert Deliverable(b, v1);
    assert [b][..0] == [] && [b][0] == b;
    assert Partition([], v1).1 + [b] == [b];
  }

  /** ... and the pass after that releases nothing: the clock is [1, 1, 0]. */
  lemma ScenarioSecondPass(a: Held, b: Held, v1: seq<nat>)
    requires ScenarioEntries(a, b) && v1 == [1, 0, 0]
    ensures Settle([b], v1) == Settlement([], [1, 1, 0], [b])
  {
    ScenarioSecondPartition(a, b, v1);
    var v2 := Bump(v1, [b]);
    assert Settle([], v2) == Settlement([], v2, []);
    assert [b] + [] == [b];
  }

  /** Once "A" arrives behind the held "B", one call releases "A" and then
      "B", in that order, and the clock becomes [1, 1, 0]. */
  lemma ScenarioChainReleased(a: Held, b: Held, v0: seq<nat>)
    requires ScenarioEntries(a, b) && v0 == [0, 0, 0]
    ensures Settle([b, a], v0) == Settlement([], [1, 1, 0], [a, b])
  {
    ScenarioFirstPass(a, b, v0);
    ScenarioSecondPass(a, b, [1, 0, 0]);
    assert [a] + [b] == [a, b];
  }

  /** Process 0 (clock [1, 0]) holds its own copy "x" stamped [1, 0]; process 1,
      having delivered "x", sent "y" stamped [1, 1]. The loop releases "y"
      and keeps "x" held for good: a message is delivered here before its
      causal predecessor, which never is. */
  lemma ScenarioOwnCopyOvertaken(x: Held, y: Held, v: seq<nat>)
    requires x == Held(0, [1, 0], "x") && y == Held(1, [1, 1], "y") && v == [1, 0]
    ensures Settle([x, y], v) == Settlement([x], [1, 1], [y])
  {
    assert !Deliverable(x, v) by { assert x.ts[0] != v[0] + 1; }
    assert Deliverable(y, v);
    assert [x, y][..1] == [x] && [x, y][1] == y;
    assert [x][..0] == [] && [x][0] == x;
    assert Partition([], v).0 + [x] == [x];
    assert Partition([], v).1 + [y] == [y];
    assert Partition([x, y], v) == ([x], [y]);
    var w := Bump(v, [y]);
    assert w == [1, 1] by { assert [y][..0] == []; }
    assert !Deliverable(x, w) by { assert x.ts[0] != w[0] + 1; }
    assert Partition([], w).0 + [x] == [x];
    assert Partition([x], w) == ([x], []);
    assert [y] + [] == [y];
  }
}
