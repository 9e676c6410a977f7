/** Eviction windows: which evictions bring a device into quarantine, from the clock values at which
    they happened. */
module ReassemblyWindow {
  import opened Common
  import opened Reassembly

  /** The operation makes device `d` drop a chunk of its own: an out-of-order chunk within the segment's
      budget takes the device over its cap, and the device has something waiting. */
  predicate Evicts(b: Budgets, s: Buffers, op: Op, d: nat) {
    && op.Chunk? && op.key.dev == d && d !in s.quarantined && op.dv.Some?
    && op.offset > SegOf(s, op.key).next && SegOf(s, op.key).bytes + |op.data| <= b.l2
    && ConnOf(s, d) + |op.data| > b.l25
  }

  /** Clock values of the evictions in device `d` over a run. */
  ghost function EvictionTimes(b: Budgets, s: Buffers, ops: seq<Op>, d: nat): seq<nat>
    requires LegalRun(b, s, ops)
    decreases |ops|
  {
    if ops == [] then []
    else
      var later := EvictionTimes(b, Apply(b, s, ops[0]).s, ops[1..], d);
      if Evicts(b, s, ops[0], d) then [s.now] + later else later
  }

  /** How many of the first evictions come up to `bound`. */
  function Leading(times: seq<nat>, bound: nat): (n: nat)
    ensures n <= |times|
  {
    if times == [] || times[0] > bound then 0 else 1 + Leading(times[1..], bound)
  }

  /** The evictions are cut into windows: the first one opens a window, which takes every eviction up to
      `window` later; the next one opens the next window. Some window takes `threshold` evictions. */
  predicate SomeWindowFills(window: nat, threshold: nat, times: seq<nat>)
    decreases |times|
  {
    times != []
    && var n := 1 + Leading(times[1..], times[0] + window);
       n >= threshold || SomeWindowFills(window, threshold, times[n..])
  }

  /** The same from the middle of a window that opened at `start` and has taken `n` evictions. */
  predicate Fills(window: nat, threshold: nat, n: nat, start: nat, times: seq<nat>) {
    var m := Leading(times, start + window);
    n + m >= threshold || SomeWindowFills(window, threshold, times[m..])
  }

  /** The next eviction joins the window or opens another one. */
  lemma FillsNext(window: nat, threshold: nat, n: nat, start: nat, t: nat, later: seq<nat>)
    requires n < threshold
    ensures Fills(window, threshold, n, start, [t] + later)
       <==> if t <= start + window then Fills(window, threshold, n + 1, start, later)
            else Fills(window, threshold, 1, t, later)
  {
    var times := [t] + later;
    assert times[1..] == later;
    if t <= start + window {
      var m := Leading(later, start + window);
      assert Leading(times, start + window) == 1 + m;
      assert times[1 + m..] == later[m..];
    } else {
      var m := Leading(later, t + window);
      assert Leading(times, start + window) == 0 && times[0..] == times;
      assert times[1 + m..] == later[m..];
    }
  }

  /** The first eviction opens a window. */
  lemma FirstOpens(window: nat, threshold: nat, t: nat, later: seq<nat>)
    ensures SomeWindowFills(window, threshold, [t] + later) <==> Fills(window, threshold, 1, t, later)
  {
    var times, m := [t] + later, Leading(later, t + window);
    assert times[1..] == later && times[1 + m..] == later[m..];
  }

  // ---- One operation ----

  /** The eviction counter of `d`: none, or its count and the clock value its window opened at. */
  predicate CounterIs(s: Buffers, d: nat, n: nat, start: nat) {
    d in s.evict && s.evict[d] == EvictState(n, start)
  }

  /** What an eviction at the clock value `s.now` makes of the counter; quarantine drops it. */
  predicate Counted(b: Budgets, s: Buffers, s': Buffers, d: nat, n: nat, start: nat) {
    if n >= b.threshold then d in s'.quarantined && d !in s'.evict
    else d !in s'.quarantined && CounterIs(s', d, n, start)
  }

  lemma RoomCounts(b: Budgets, s: Buffers, d: nat, v: Victim)
    requires Holds(s, v) && d !in s.quarantined
    ensures var s' := EvictInDev(b, s, d, Some(v)).s;
            && (d !in s.evict ==> Counted(b, s, s', d, 1, s.now))
            && (d in s.evict && s.now > s.evict[d].windowStart + b.window ==> Counted(b, s, s', d, 1, s.now))
            && (d in s.evict && s.now <= s.evict[d].windowStart + b.window ==>
                 Counted(b, s, s', d, s.evict[d].streak + 1, s.evict[d].windowStart))
  {}

  /** Neither storing, draining nor global eviction touches counters or quarantine. */
  predicate SameWatch(s: Buffers, s': Buffers) { s'.evict == s.evict && s'.quarantined == s.quarantined }

  lemma {:induction false} DrainWatches(s: Buffers, k: SegKey)
    ensures SameWatch(s, Drain(s, k).s)
    decreases |SegOf(s, k).pending|
  {
    if Drainable(s, k) {
      Smaller(s.segs[k].pending, s.segs[k].next);
      DrainWatches(DrainStep(s, k), k);
    }
  }

  lemma AdmitWatches(b: Budgets, s: Buffers, k: SegKey, p: Piece, dv: Option<Victim>, gv: Option<Victim>)
    requires LegalVictims(b, s, k, p, dv, gv)
    ensures SameWatch(MakeRoomInDev(b, s, k, p, dv).s, Admit(b, s, k, p, dv, gv).s)
  {
    var s1 := MakeRoomInDev(b, s, k, p, dv).s;
    DrainWatches(Store(MakeRoom(b, s1, p, gv).s, k, p), k);
  }

  lemma EvictingOp(b: Budgets, s: Buffers, op: Op, d: nat)
    requires LegalOp(b, s, op) && Evicts(b, s, op, d)
    ensures SameWatch(EvictInDev(b, s, d, op.dv).s, Apply(b, s, op).s)
    ensures Holds(s, op.dv.value)
  {
    var p := Piece(op.offset, op.data);
    assert Trimmed(s, op.key, op.offset, op.data) == p;
    AdmitWatches(b, s, op.key, p, op.dv, op.gv);
  }

  /** The counter and the quarantine of `d` are as they were. */
  predicate SameCounter(s: Buffers, s': Buffers, d: nat) {
    && (d in s'.quarantined <==> d in s.quarantined)
    && (d in s'.evict <==> d in s.evict) && (d in s.evict ==> s'.evict[d] == s.evict[d])
  }

  lemma OtherRoom(b: Budgets, s: Buffers, e: nat, dv: Option<Victim>, d: nat)
    requires (dv.Some? ==> Holds(s, dv.value)) && (e != d || dv.None?)
    ensures SameCounter(s, EvictInDev(b, s, e, dv).s, d)
  {}

  lemma OtherOp(b: Budgets, s: Buffers, op: Op, d: nat)
    requires LegalOp(b, s, op) && !Evicts(b, s, op, d)
    ensures SameCounter(s, Apply(b, s, op).s, d)
  {
    if op.Chunk? && op.key.dev !in s.quarantined && !Covered(s, op.key, op.offset, op.data) {
      var p := Trimmed(s, op.key, op.offset, op.data);
      if !OverL2(b, s, op.key, p) {
        AdmitWatches(b, s, op.key, p, op.dv, op.gv);
        if OverL25(b, s, op.key, p) {
          OtherRoom(b, s, op.key.dev, op.dv, d);
        }
      }
    }
  }

  // ---- Whole runs ----

  lemma {:induction false} QuarantineStays(b: Budgets, s: Buffers, ops: seq<Op>, d: nat)
    requires LegalRun(b, s, ops) && d in s.quarantined
    ensures d in Run(b, s, ops).s.quarantined && EvictionTimes(b, s, ops, d) == []
    decreases |ops|
  {
    if ops != [] {
      OtherOp(b, s, ops[0], d);
      QuarantineStays(b, Apply(b, s, ops[0]).s, ops[1..], d);
    }
  }

  /** From a counter at `n` in the window opened at `start`. */
  lemma {:induction false} CountedRun(b: Budgets, s: Buffers, ops: seq<Op>, d: nat, n: nat, start: nat)
    requires LegalRun(b, s, ops) && d !in s.quarantined && CounterIs(s, d, n, start) && n < b.threshold
    ensures d in Run(b, s, ops).s.quarantined
       <==> Fills(b.window, b.threshold, n, start, EvictionTimes(b, s, ops, d))
    decreases |ops|
  {
    if ops != [] {
      var s1 := Apply(b, s, ops[0]).s;
      if Evicts(b, s, ops[0], d) {
        EvictingOp(b, s, ops[0], d);
        RoomCounts(b, s, d, ops[0].dv.value);
        FillsNext(b.window, b.threshold, n, start, s.now, EvictionTimes(b, s1, ops[1..], d));
        if s.now <= start + b.window {
          AfterEviction(b, s, s1, ops, d, n + 1, start);
        } else {
          AfterEviction(b, s, s1, ops, d, 1, s.now);
        }
      } else {
        OtherOp(b, s, ops[0], d);
        CountedRun(b, s1, ops[1..], d, n, start);
      }
    }
  }

  /** An eviction has just set the counter to `n` in the window opened at `start`. */
  lemma AfterEviction(b: Budgets, s: Buffers, s1: Buffers, ops: seq<Op>, d: nat, n: nat, start: nat)
    requires LegalRun(b, s, ops) && ops != [] && s1 == Apply(b, s, ops[0]).s && Counted(b, s, s1, d, n, start)
    ensures d in Run(b, s, ops).s.quarantined
       <==> Fills(b.window, b.threshold, n, start, EvictionTimes(b, s1, ops[1..], d))
    decreases |ops|, 0
  {
    if n >= b.threshold {
      QuarantineStays(b, s1, ops[1..], d);
    } else {
      CountedRun(b, s1, ops[1..], d, n, start);
    }
  }

  /** A device that was not evicted from before and is not in quarantine: a run puts it there exactly
      when some window of its evictions takes `threshold` of them. */
  lemma {:induction false} QuarantinedExactly(b: Budgets, s: Buffers, ops: seq<Op>, d: nat)
    requires LegalRun(b, s, ops) && d !in s.quarantined && d !in s.evict
    ensures d in Run(b, s, ops).s.quarantined
       <==> SomeWindowFills(b.window, b.threshold, EvictionTimes(b, s, ops, d))
    decreases |ops|
  {
    if ops != [] {
      var s1 := Apply(b, s, ops[0]).s;
      if Evicts(b, s, ops[0], d) {
        EvictingOp(b, s, ops[0], d);
        RoomCounts(b, s, d, ops[0].dv.value);
        FirstOpens(b.window, b.threshold, s.now, EvictionTimes(b, s1, ops[1..], d));
        AfterEviction(b, s, s1, ops, d, 1, s.now);
      } else {
        OtherOp(b, s, ops[0], d);
        QuarantinedExactly(b, s1, ops[1..], d);
      }
    }
  }

  /** The clock after some operations: what the last one that sets it says. */
  function ClockAfter(now: nat, ops: seq<Op>): nat
    decreases |ops|
  {
    if ops == [] then now else ClockAfter(if ops[0].Clock? then ops[0].now else now, ops[1..])
  }

  lemma {:induction false} DrainKeepsClock(s: Buffers, k: SegKey)
    ensures Drain(s, k).s.now == s.now
    decreases |SegOf(s, k).pending|
  {
    if Drainable(s, k) {
      Smaller(s.segs[k].pending, s.segs[k].next);
      DrainKeepsClock(DrainStep(s, k), k);
    }
  }

  lemma AdmitKeepsClock(b: Budgets, s: Buffers, k: SegKey, p: Piece, dv: Option<Victim>, gv: Option<Victim>)
    requires LegalVictims(b, s, k, p, dv, gv)
    ensures Admit(b, s, k, p, dv, gv).s.now == s.now
  {
    DrainKeepsClock(Store(MakeRoom(b, MakeRoomInDev(b, s, k, p, dv).s, p, gv).s, k, p), k);
  }

  /** The clock values of the evictions are those set by the operations before them. */
  lemma {:induction false} ClockIs(b: Budgets, s: Buffers, ops: seq<Op>)
    requires LegalRun(b, s, ops)
    ensures Run(b, s, ops).s.now == ClockAfter(s.now, ops)
    decreases |ops|
  {
    if ops != [] {
      var op := ops[0];
      ClockIs(b, Apply(b, s, op).s, ops[1..]);
      if op.Chunk? && op.key.dev !in s.quarantined && !Covered(s, op.key, op.offset, op.data) {
        var p := Trimmed(s, op.key, op.offset, op.data);
        if !OverL2(b, s, op.key, p) {
          AdmitKeepsClock(b, s, op.key, p, op.dv, op.gv);
        }
      }
    }
  }

  // ---- Two cases ----

  /** Each eviction comes more than a window after the one before. */
  predicate Spaced(window: nat, times: seq<nat>) {
    forall i :: 0 < i < |times| ==> times[i] > times[i - 1] + window
  }

  lemma {:induction false} SpacedNeverFills(window: nat, threshold: nat, times: seq<nat>)
    requires threshold >= 2 && Spaced(window, times)
    ensures !SomeWindowFills(window, threshold, times)
    decreases |times|
  {
    if times != [] {
      assert |times| > 1 ==> times[1..][0] == times[1];
      assert Leading(times[1..], times[0] + window) == 0;
      assert forall i :: 0 < i < |times[1..]| ==> times[1..][i] == times[i + 1] && times[1..][i - 1] == times[i];
      SpacedNeverFills(window, threshold, times[1..]);
    }
  }

  /** A device whose evictions each come after the window of the one before is never quarantined. */
  lemma SpacedIsSafe(b: Budgets, s: Buffers, ops: seq<Op>, d: nat)
    requires LegalRun(b, s, ops) && d !in s.quarantined && d !in s.evict && b.threshold >= 2
    requires Spaced(b.window, EvictionTimes(b, s, ops, d))
    ensures d !in Run(b, s, ops).s.quarantined
  {
    QuarantinedExactly(b, s, ops, d);
    SpacedNeverFills(b.window, b.threshold, EvictionTimes(b, s, ops, d));
  }

  lemma {:induction false} AllLead(times: seq<nat>, bound: nat)
    requires forall i :: 0 <= i < |times| ==> times[i] <= bound
    ensures Leading(times, bound) == |times|
  {
    if times != [] {
      AllLead(times[1..], bound);
    }
  }

  /** All evictions within one window of the first: quarantine at the `threshold`-th. */
  lemma OneWindowExactly(b: Budgets, s: Buffers, ops: seq<Op>, d: nat)
    requires LegalRun(b, s, ops) && d !in s.quarantined && d !in s.evict && b.threshold >= 1
    requires var times := EvictionTimes(b, s, ops, d);
             forall i :: 0 <= i < |times| ==> times[i] <= times[0] + b.window
    ensures d in Run(b, s, ops).s.quarantined <==> |EvictionTimes(b, s, ops, d)| >= b.threshold
  {
    QuarantinedExactly(b, s, ops, d);
    var times := EvictionTimes(b, s, ops, d);
    if times != [] {
      AllLead(times[1..], times[0] + b.window);
      assert times[|times|..] == [];
    }
  }
}
