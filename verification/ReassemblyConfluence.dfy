/** Order does not matter. Segments are cut into chunks; the chunks arrive in any order, interleaved
    over any number of segments and repeated at will, within the budgets. What a segment then holds
    and has appended depends only on the set of its chunks that arrived. */
module ReassemblyConfluence {
  import opened Common
  import opened Sums
  import opened Reassembly
  import opened ReassemblyBudget

  /** An aligned chunking of one segment. */
  type Chunks = seq<seq<byte>>

  predicate Proper(cs: Chunks) { forall i :: 0 <= i < |cs| ==> |cs[i]| > 0 }

  function Start(cs: Chunks, i: nat): nat
    requires i <= |cs|
  {
    if i == 0 then 0 else Start(cs, i - 1) + |cs[i - 1]|
  }

  lemma {:induction false} StartOrder(cs: Chunks, i: nat, j: nat)
    requires Proper(cs) && i < j <= |cs|
    ensures Start(cs, i) + |cs[i]| <= Start(cs, j)
    decreases j
  {
    if i < j - 1 {
      StartOrder(cs, i, j - 1);
    }
  }

  lemma StartInjective(cs: Chunks, i: nat, j: nat)
    requires Proper(cs) && i <= |cs| && j <= |cs| && Start(cs, i) == Start(cs, j)
    ensures i == j
  {
    if i < j {
      StartOrder(cs, i, j);
    } else if j < i {
      StartOrder(cs, j, i);
    }
  }

  /** The head is at chunk `f`; waiting are exactly the chunks of `got` from `f` on. */
  ghost predicate Shape(cs: Chunks, got: set<nat>, f: nat, g: Seg) {
    && f <= |cs| && g.next == Start(cs, f)
    && (forall i :: f <= i < |cs| && i in got ==> Start(cs, i) in g.pending && g.pending[Start(cs, i)] == cs[i])
    && (forall o :: o in g.pending ==> exists i :: f <= i < |cs| && i in got && Start(cs, i) == o)
  }

  /** Chunks below `f` arrived, chunk `f` did not. */
  predicate Front(got: set<nat>, f: nat) { f !in got && Arrived(got, f) }

  predicate Arrived(got: set<nat>, f: nat) { forall i :: 0 <= i < f ==> i in got }

  predicate Indexes(got: set<nat>, cs: Chunks) { forall i :: i in got ==> i < |cs| }

  ghost predicate Settled(cs: Chunks, got: set<nat>, f: nat, g: Seg) { Shape(cs, got, f, g) && Front(got, f) }

  /** Nothing is counted that is not there. */
  ghost predicate Exact(g: Seg) { g.bytes == Stored(g.pending) }

  lemma PopShape(cs: Chunks, got: set<nat>, f: nat, g: Seg)
    requires Proper(cs) && Shape(cs, got, f, g) && g.next in g.pending
    ensures f < |cs| && f in got && Shape(cs, got, f + 1, Popped(g))
  {
    var i :| f <= i < |cs| && i in got && Start(cs, i) == g.next;
    StartInjective(cs, i, f);
    var h := Popped(g);
    forall j | f + 1 <= j < |cs| && j in got ensures Start(cs, j) in h.pending && h.pending[Start(cs, j)] == cs[j] {
      StartOrder(cs, f, j);
    }
    forall o | o in h.pending ensures exists j :: f + 1 <= j < |cs| && j in got && Start(cs, j) == o {
      var j :| f <= j < |cs| && j in got && Start(cs, j) == o;
      assert f + 1 <= j;
    }
  }

  lemma PopExact(g: Seg)
    requires Exact(g) && g.next in g.pending
    ensures Exact(Popped(g))
  {
    SumDrop(g.pending, ChunkLen(), g.next);
  }

  lemma DrainUnfolds(s: Buffers, k: SegKey)
    requires Drainable(s, k)
    ensures k in DrainStep(s, k).segs && DrainStep(s, k).segs[k] == Popped(s.segs[k])
    ensures |Popped(s.segs[k]).pending| < |s.segs[k].pending|
    ensures Drain(s, k).s == Drain(DrainStep(s, k), k).s
  {
    Smaller(s.segs[k].pending, s.segs[k].next);
  }

  lemma {:induction false} DrainExact(s: Buffers, k: SegKey)
    requires k in s.segs && Exact(s.segs[k])
    ensures k in Drain(s, k).s.segs && Exact(Drain(s, k).s.segs[k])
    decreases |s.segs[k].pending|
  {
    if Drainable(s, k) {
      DrainUnfolds(s, k);
      PopExact(s.segs[k]);
      DrainExact(DrainStep(s, k), k);
    }
  }

  lemma {:induction false} DrainShape(cs: Chunks, got: set<nat>, s: Buffers, k: SegKey, j: nat) returns (f: nat)
    requires Proper(cs) && k in s.segs && Shape(cs, got, j, s.segs[k])
    requires Arrived(got, j) && Indexes(got, cs)
    ensures var t := Drain(s, k).s; k in t.segs && Settled(cs, got, f, t.segs[k])
    decreases |s.segs[k].pending|
  {
    var g := s.segs[k];
    if Drainable(s, k) {
      DrainUnfolds(s, k);
      PopShape(cs, got, j, g);
      f := DrainShape(cs, got, DrainStep(s, k), k, j + 1);
    } else {
      f := j;
      NothingAtHead(cs, got, j, g);
    }
  }

  lemma NothingAtHead(cs: Chunks, got: set<nat>, j: nat, g: Seg)
    requires Shape(cs, got, j, g) && g.next !in g.pending && Arrived(got, j) && Indexes(got, cs)
    ensures Settled(cs, got, j, g)
  {}

  lemma StoreShape(cs: Chunks, got: set<nat>, f: nat, g: Seg, i: nat, bytes: nat)
    requires Proper(cs) && Shape(cs, got, f, g) && f <= i < |cs|
    ensures Shape(cs, got + {i}, f, g.(bytes := bytes, pending := g.pending[Start(cs, i) := cs[i]]))
  {
    var h := g.(bytes := bytes, pending := g.pending[Start(cs, i) := cs[i]]);
    forall j | f <= j < |cs| && j in got + {i}
      ensures Start(cs, j) in h.pending && h.pending[Start(cs, j)] == cs[j]
    {
      if Start(cs, j) == Start(cs, i) {
        StartInjective(cs, i, j);
      }
    }
    forall o | o in h.pending ensures exists j :: f <= j < |cs| && j in got + {i} && Start(cs, j) == o {
      if o == Start(cs, i) {
        assert i in got + {i};
      } else {
        var j :| f <= j < |cs| && j in got && Start(cs, j) == o;
        assert j in got + {i};
      }
    }
  }

  lemma StoreExact(cs: Chunks, got: set<nat>, f: nat, g: Seg, i: nat)
    requires Proper(cs) && Shape(cs, got, f, g) && i < |cs| && i !in got && Exact(g)
    ensures Exact(g.(bytes := g.bytes + |cs[i]|, pending := g.pending[Start(cs, i) := cs[i]]))
  {
    SumPut(g.pending, ChunkLen(), Start(cs, i), cs[i]);
    NotWaiting(cs, got, f, g, i);
  }

  lemma NotWaiting(cs: Chunks, got: set<nat>, f: nat, g: Seg, i: nat)
    requires Proper(cs) && Shape(cs, got, f, g) && i < |cs| && i !in got
    ensures Start(cs, i) !in g.pending
  {
    forall o | o in g.pending ensures o != Start(cs, i) {
      var j :| f <= j < |cs| && j in got && Start(cs, j) == o;
      if Start(cs, j) == Start(cs, i) {
        StartInjective(cs, i, j);
      }
    }
  }

  // ---- Deliveries ----

  datatype Delivery = Delivery(key: SegKey, index: nat)

  type Plan = map<SegKey, Chunks>

  predicate Planned(plan: Plan, d: Delivery) {
    d.key in plan && Proper(plan[d.key]) && d.index < |plan[d.key]|
  }

  function OpOf(plan: Plan, d: Delivery): Op
    requires Planned(plan, d)
  {
    Chunk(d.key, Start(plan[d.key], d.index), plan[d.key][d.index], None, None)
  }

  /** This chunk meets no budget limit and no quarantine. */
  ghost predicate Roomy(b: Budgets, s: Buffers, op: Op)
    requires op.Chunk?
  {
    && op.key.dev !in s.quarantined
    && (!Covered(s, op.key, op.offset, op.data) ==>
         (var p := Trimmed(s, op.key, op.offset, op.data);
          !OverL2(b, s, op.key, p) && !OverL25(b, s, op.key, p) && !OverL3(b, s, p)))
  }

  function OpsOf(plan: Plan, ds: seq<Delivery>): (ops: seq<Op>)
    requires forall i :: 0 <= i < |ds| ==> Planned(plan, ds[i])
    ensures |ops| == |ds| && forall i :: 0 <= i < |ds| ==> ops[i] == OpOf(plan, ds[i])
  {
    seq(|ds|, i requires 0 <= i < |ds| => OpOf(plan, ds[i]))
  }

  ghost predicate RoomyRun(b: Budgets, s: Buffers, ops: seq<Op>)
    decreases |ops|
  {
    ops == [] || (ops[0].Chunk? && Roomy(b, s, ops[0]) && LegalOp(b, s, ops[0])
                  && RoomyRun(b, Apply(b, s, ops[0]).s, ops[1..]))
  }

  lemma {:induction false} RoomyLegal(b: Budgets, s: Buffers, ops: seq<Op>)
    requires RoomyRun(b, s, ops)
    ensures LegalRun(b, s, ops)
    decreases |ops|
  {
    if ops != [] {
      RoomyLegal(b, Apply(b, s, ops[0]).s, ops[1..]);
    }
  }

  /** Chunks of segment `k` among the deliveries. */
  ghost function Got(ds: seq<Delivery>, k: SegKey): set<nat> {
    set d | d in ds && d.key == k :: d.index
  }

  lemma Elsewhere(b: Budgets, s: Buffers, op: Op, k: SegKey)
    requires Inv(b, s) && op.Chunk? && Roomy(b, s, op) && LegalOp(b, s, op) && op.key != k
    ensures SegOf(Apply(b, s, op).s, k) == SegOf(s, k)
  {
    if !Covered(s, op.key, op.offset, op.data) {
      var p := Trimmed(s, op.key, op.offset, op.data);
      StoreSound(s, op.key, p);
      DrainSound(Store(s, op.key, p), op.key);
    }
  }

  /** One chunk of segment `k`. */
  lemma Deliver(b: Budgets, s: Buffers, k: SegKey, cs: Chunks, got: set<nat>, f: nat, i: nat) returns (f1: nat)
    requires Proper(cs) && i < |cs| && (forall j :: j in got ==> j < |cs|)
    requires Settled(cs, got, f, SegOf(s, k))
    requires var op := Chunk(k, Start(cs, i), cs[i], None, None); Roomy(b, s, op) && LegalOp(b, s, op)
    ensures var t := Apply(b, s, Chunk(k, Start(cs, i), cs[i], None, None)).s;
            && Settled(cs, got + {i}, f1, SegOf(t, k))
            && (Exact(SegOf(s, k)) && i !in got ==> Exact(SegOf(t, k)))
  {
    if i < f {
      StartOrder(cs, i, f);
      f1 := f;
      assert got + {i} == got;
    } else {
      if f < i {
        StartOrder(cs, f, i);
      }
      var p := Piece(Start(cs, i), cs[i]);
      assert !Covered(s, k, p.offset, p.data) && Trimmed(s, k, p.offset, p.data) == p;
      f1 := DeliverNew(s, k, cs, got, f, i);
    }
  }

  lemma DeliverNew(s: Buffers, k: SegKey, cs: Chunks, got: set<nat>, f: nat, i: nat) returns (f1: nat)
    requires Proper(cs) && f <= i < |cs| && (forall j :: j in got ==> j < |cs|)
    requires Settled(cs, got, f, SegOf(s, k))
    ensures var t := Drain(Store(s, k, Piece(Start(cs, i), cs[i])), k).s;
            && Settled(cs, got + {i}, f1, SegOf(t, k))
            && (Exact(SegOf(s, k)) && i !in got ==> Exact(SegOf(t, k)))
  {
    StoreShape(cs, got, f, SegOf(s, k), i, SegOf(s, k).bytes + |cs[i]|);
    f1 := DrainShape(cs, got + {i}, Store(s, k, Piece(Start(cs, i), cs[i])), k, f);
    if Exact(SegOf(s, k)) && i !in got {
      DeliverExact(s, k, cs, got, f, i);
    }
  }

  lemma DeliverExact(s: Buffers, k: SegKey, cs: Chunks, got: set<nat>, f: nat, i: nat)
    requires Proper(cs) && i < |cs| && i !in got && Shape(cs, got, f, SegOf(s, k)) && Exact(SegOf(s, k))
    ensures Exact(SegOf(Drain(Store(s, k, Piece(Start(cs, i), cs[i])), k).s, k))
  {
    StoreExact(cs, got, f, SegOf(s, k), i);
    DrainExact(Store(s, k, Piece(Start(cs, i), cs[i])), k);
  }

  ghost predicate NoRepeats(ds: seq<Delivery>) { forall i, j :: 0 <= i < j < |ds| ==> ds[i] != ds[j] }

  ghost predicate Unseen(ds: seq<Delivery>, k: SegKey, got: set<nat>) {
    forall i :: 0 <= i < |ds| && ds[i].key == k ==> ds[i].index !in got
  }

  lemma FirstDelivery(b: Budgets, plan: Plan, s: Buffers, ds: seq<Delivery>)
    requires ds != [] && forall i :: 0 <= i < |ds| ==> Planned(plan, ds[i])
    requires RoomyRun(b, s, OpsOf(plan, ds)) && LegalRun(b, s, OpsOf(plan, ds))
    ensures var op := OpOf(plan, ds[0]);
            && Roomy(b, s, op) && LegalOp(b, s, op)
            && RoomyRun(b, Apply(b, s, op).s, OpsOf(plan, ds[1..]))
            && LegalRun(b, Apply(b, s, op).s, OpsOf(plan, ds[1..]))
            && Run(b, s, OpsOf(plan, ds)).s == Run(b, Apply(b, s, op).s, OpsOf(plan, ds[1..])).s
  {
    assert OpsOf(plan, ds)[1..] == OpsOf(plan, ds[1..]);
  }

  /** What `RunSettles` concludes about segment `k`. */
  ghost predicate Reached(cs: Chunks, got: set<nat>, f: nat, g: Seg, exact: bool) {
    Settled(cs, got, f, g) && (exact ==> Exact(g))
  }

  ghost predicate Once(ds: seq<Delivery>, k: SegKey, got: set<nat>) { NoRepeats(ds) && Unseen(ds, k, got) }

  lemma OnceRest(ds: seq<Delivery>, k: SegKey, got: set<nat>)
    requires ds != [] && Once(ds, k, got)
    ensures (ds[0].key == k ==> ds[0].index !in got) && Once(ds[1..], k, GotAfter(ds[0], k, got))
  {
    var rest := ds[1..];
    assert forall i :: 0 <= i < |rest| ==> rest[i] == ds[i + 1];
    assert NoRepeats(rest);
    if ds[0].key == k {
      forall i | 0 <= i < |rest| && rest[i].key == k ensures rest[i].index !in got + {ds[0].index} {
        assert ds[0] != ds[i + 1];
      }
    }
  }

  lemma GotRest(ds: seq<Delivery>, k: SegKey, got: set<nat>)
    requires ds != []
    ensures GotAfter(ds[0], k, got) + Got(ds[1..], k) == got + Got(ds, k)
  {
    assert ds == [ds[0]] + ds[1..];
  }

  /** What segment `k` has after one delivery. */
  function GotAfter(d: Delivery, k: SegKey, got: set<nat>): set<nat> {
    if d.key == k then got + {d.index} else got
  }

  lemma SettleOne(b: Budgets, plan: Plan, s: Buffers, d: Delivery, k: SegKey, got: set<nat>, f: nat, exact: bool)
    returns (f1: nat)
    requires Inv(b, s) && k in plan && Proper(plan[k]) && Planned(plan, d) && (forall j :: j in got ==> j < |plan[k]|)
    requires Roomy(b, s, OpOf(plan, d)) && LegalOp(b, s, OpOf(plan, d))
    requires Reached(plan[k], got, f, SegOf(s, k), exact) && (exact && d.key == k ==> d.index !in got)
    ensures Reached(plan[k], GotAfter(d, k, got), f1, SegOf(Apply(b, s, OpOf(plan, d)).s, k), exact)
    ensures forall j :: j in GotAfter(d, k, got) ==> j < |plan[k]|
  {
    if d.key == k {
      f1 := Deliver(b, s, k, plan[k], got, f, d.index);
    } else {
      f1 := f;
      Elsewhere(b, s, OpOf(plan, d), k);
    }
  }

  lemma {:induction false} RunSettles(b: Budgets, plan: Plan, s: Buffers, ds: seq<Delivery>, k: SegKey,
                                      got: set<nat>, f: nat, exact: bool) returns (f1: nat)
    requires Inv(b, s) && k in plan && Proper(plan[k])
    requires forall i :: 0 <= i < |ds| ==> Planned(plan, ds[i])
    requires forall j :: j in got ==> j < |plan[k]|
    requires Reached(plan[k], got, f, SegOf(s, k), exact) && (exact ==> Once(ds, k, got))
    requires RoomyRun(b, s, OpsOf(plan, ds)) && LegalRun(b, s, OpsOf(plan, ds))
    ensures Reached(plan[k], got + Got(ds, k), f1, SegOf(Run(b, s, OpsOf(plan, ds)).s, k), exact)
    decreases |ds|
  {
    if ds == [] {
      f1 := f;
      assert got + Got(ds, k) == got;
    } else {
      var op := OpOf(plan, ds[0]);
      var s1 := Apply(b, s, op).s;
      FirstDelivery(b, plan, s, ds);
      ApplyInv(b, s, op);
      GotRest(ds, k, got);
      if exact {
        OnceRest(ds, k, got);
      }
      var f0 := SettleOne(b, plan, s, ds[0], k, got, f, exact);
      f1 := RunSettles(b, plan, s1, ds[1..], k, GotAfter(ds[0], k, got), f0, exact);
    }
  }

  /** Budgets kept, segment not yet known: a start from which deliveries are considered. */
  ghost predicate Ready(b: Budgets, plan: Plan, s: Buffers, ds: seq<Delivery>) {
    && Inv(b, s)
    && (forall i :: 0 <= i < |ds| ==> Planned(plan, ds[i]))
    && RoomyRun(b, s, OpsOf(plan, ds)) && LegalRun(b, s, OpsOf(plan, ds))
  }

  /** A segment not yet known, at the start of a run. */
  lemma FreshSettles(b: Budgets, plan: Plan, s: Buffers, ds: seq<Delivery>, k: SegKey) returns (f: nat)
    requires Ready(b, plan, s, ds) && k in plan && Proper(plan[k]) && k !in s.segs
    ensures Reached(plan[k], Got(ds, k), f, SegOf(Run(b, s, OpsOf(plan, ds)).s, k), NoRepeats(ds))
  {
    NothingStored();
    f := RunSettles(b, plan, s, ds, k, {}, 0, NoRepeats(ds));
    assert {} + Got(ds, k) == Got(ds, k);
  }
}
