/** Order independence for whole runs of deliveries. */
module ReassemblyOrder {
  import opened Common
  import opened Sums
  import opened Reassembly
  import opened ReassemblyBudget
  import opened ReassemblyFidelity
  import opened ReassemblyConfluence

  lemma FrontUnique(got: set<nat>, f: nat, g: nat)
    requires Front(got, f) && Front(got, g)
    ensures f == g
  {}

  /** The waiting chunks and the head are a function of the chunks that arrived. */
  lemma SettledUnique(cs: Chunks, got: set<nat>, f: nat, f1: nat, g: Seg, g1: Seg)
    requires Proper(cs) && Settled(cs, got, f, g) && Settled(cs, got, f1, g1)
    ensures g.next == g1.next && g.pending == g1.pending
  {
    FrontUnique(got, f, f1);
    assert g.pending.Keys == g1.pending.Keys;
    forall o | o in g.pending ensures g.pending[o] == g1.pending[o] {
      var i :| f <= i < |cs| && i in got && Start(cs, i) == o;
    }
  }

  /** Two runs that deliver the same chunks of a segment, in any order, with any repeats and whatever
      else they deliver, leave it with the same head and the same waiting chunks. */
  lemma Confluence(b: Budgets, plan: Plan, s: Buffers, s1: Buffers, ds: seq<Delivery>, ds1: seq<Delivery>, k: SegKey)
    requires Ready(b, plan, s, ds) && Ready(b, plan, s1, ds1)
    requires k in plan && Proper(plan[k]) && k !in s.segs && k !in s1.segs
    requires Got(ds, k) == Got(ds1, k)
    ensures var g, g1 := SegOf(Run(b, s, OpsOf(plan, ds)).s, k), SegOf(Run(b, s1, OpsOf(plan, ds1)).s, k);
            g.next == g1.next && g.pending == g1.pending
  {
    var f := FreshSettles(b, plan, s, ds, k);
    var f1 := FreshSettles(b, plan, s1, ds1, k);
    SettledUnique(plan[k], Got(ds, k), f, f1,
      SegOf(Run(b, s, OpsOf(plan, ds)).s, k), SegOf(Run(b, s1, OpsOf(plan, ds1)).s, k));
  }

  ghost predicate Complete(plan: Plan, ds: seq<Delivery>, k: SegKey) {
    k in plan && Proper(plan[k]) && forall i :: 0 <= i < |plan[k]| ==> Delivery(k, i) in ds
  }

  lemma Complete1(b: Budgets, plan: Plan, s: Buffers, ds: seq<Delivery>, k: SegKey)
    requires Ready(b, plan, s, ds) && k !in s.segs && Complete(plan, ds, k)
    ensures var g := SegOf(Run(b, s, OpsOf(plan, ds)).s, k);
            && g.next == Start(plan[k], |plan[k]|) && g.pending == map[]
            && (NoRepeats(ds) ==> g.bytes == 0)
  {
    var f := FreshSettles(b, plan, s, ds, k);
    var cs, got, g := plan[k], Got(ds, k), SegOf(Run(b, s, OpsOf(plan, ds)).s, k);
    forall i | 0 <= i < |cs| ensures i in got {
      assert Delivery(k, i) in ds;
    }
    assert f == |cs|;
    assert g.pending.Keys == {};
    NothingStored();
  }

  /** A fully delivered segment: nothing waits, the head is at its end, and its seal answers
      `Sealed`. */
  lemma CompleteSegment(b: Budgets, plan: Plan, s: Buffers, ds: seq<Delivery>, k: SegKey)
    requires Ready(b, plan, s, ds) && k !in s.segs && Complete(plan, ds, k) && plan[k] != []
    ensures var t, size := Run(b, s, OpsOf(plan, ds)).s, Start(plan[k], |plan[k]|);
            && SegOf(t, k).next == size && SegOf(t, k).pending == map[]
            && Seal(t, k, size).events == Skips(t, k) + [Sealed(k, size)]
  {
    Complete1(b, plan, s, ds, k);
    StartOrder(plan[k], 0, |plan[k]|);
  }

  /** Every planned segment delivered exactly once: all counters are back at zero. */
  lemma CountersReturnToZero(b: Budgets, plan: Plan, now: nat, ds: seq<Delivery>)
    requires Ready(b, plan, EMPTY.(now := now), ds) && NoRepeats(ds)
    requires forall k :: k in plan ==> Complete(plan, ds, k)
    ensures var t := Run(b, EMPTY.(now := now), OpsOf(plan, ds)).s;
            && t.global == 0 && (forall d :: ConnOf(t, d) == 0)
            && (forall k :: k in t.segs ==> t.segs[k].bytes == 0)
  {
    var s := EMPTY.(now := now);
    var t := Run(b, s, OpsOf(plan, ds)).s;
    BooksBalance(b, s, OpsOf(plan, ds));
    forall k | k in t.segs ensures t.segs[k].bytes == 0 {
      OnlyPlanned(b, plan, s, ds, k);
      Complete1(b, plan, s, ds, k);
    }
    SumZero(t.segs, AllBytes());
    forall d ensures ConnOf(t, d) == 0 {
      SumZero(t.segs, DevBytes(d));
    }
  }

  lemma {:induction false} OnlyPlanned(b: Budgets, plan: Plan, s: Buffers, ds: seq<Delivery>, k: SegKey)
    requires Ready(b, plan, s, ds) && k in Run(b, s, OpsOf(plan, ds)).s.segs
    ensures k in plan || k in s.segs
    decreases |ds|
  {
    if ds != [] {
      var op := OpOf(plan, ds[0]);
      var s1 := Apply(b, s, op).s;
      FirstDelivery(b, plan, s, ds);
      ApplyInv(b, s, op);
      OnlyPlanned(b, plan, s1, ds[1..], k);
      if !Covered(s, op.key, op.offset, op.data) {
        var p := Trimmed(s, op.key, op.offset, op.data);
        StoreSound(s, op.key, p);
        DrainSound(Store(s, op.key, p), op.key);
      }
    }
  }

  /** The data plane got exactly the segment. */
  lemma CompleteFile(src: Source, b: Budgets, plan: Plan, now: nat, ds: seq<Delivery>, k: SegKey)
    requires Ready(b, plan, EMPTY.(now := now), ds) && Complete(plan, ds, k)
    requires forall j, i :: j in plan && 0 <= i < |plan[j]| ==> FromSource(src, j, Start(plan[j], i), plan[j][i])
    ensures Written(Some([]), Run(b, EMPTY.(now := now), OpsOf(plan, ds)).events, k)
         == Some(Prefix(src, k, Start(plan[k], |plan[k]|)))
  {
    var s := EMPTY.(now := now);
    Complete1(b, plan, s, ds, k);
    RunFollows(src, b, s, OpsOf(plan, ds));
    assert Written(File(src, s, k), Run(b, s, OpsOf(plan, ds)).events, k)
        == File(src, Run(b, s, OpsOf(plan, ds)).s, k);
    assert Prefix(src, k, 0) == [];
  }

  // ---- When the budgets suffice ----

  function TotalLen(ops: seq<Op>): nat
    decreases |ops|
  {
    if ops == [] then 0 else (if ops[0].Chunk? then |ops[0].data| else 0) + TotalLen(ops[1..])
  }

  lemma CountersBelowGlobal(b: Budgets, s: Buffers, k: SegKey)
    requires Inv(b, s)
    ensures ConnOf(s, k.dev) <= s.global && SegOf(s, k).bytes <= s.global
  {
    SumMono(s.segs, DevBytes(k.dev), AllBytes());
    SumPut(s.segs, AllBytes(), k, SegOf(s, k));
  }

  lemma GlobalGrowth(b: Budgets, s: Buffers, op: Op)
    requires Inv(b, s) && op.Chunk? && Roomy(b, s, op) && LegalOp(b, s, op)
    ensures Apply(b, s, op).s.global <= s.global + |op.data|
    ensures Apply(b, s, op).s.quarantined == s.quarantined
  {
    if !Covered(s, op.key, op.offset, op.data) {
      DrainShrinks(Store(s, op.key, Trimmed(s, op.key, op.offset, op.data)), op.key);
    }
  }

  lemma {:induction false} DrainShrinks(s: Buffers, k: SegKey)
    ensures Drain(s, k).s.global <= s.global && Drain(s, k).s.quarantined == s.quarantined
    decreases |SegOf(s, k).pending|
  {
    if Drainable(s, k) {
      Smaller(s.segs[k].pending, s.segs[k].next);
      DrainShrinks(DrainStep(s, k), k);
    }
  }

  /** Chunks whose total size fits every cap never meet a limit, in any order. */
  lemma {:induction false} SmallTotalsAreRoomy(b: Budgets, s: Buffers, ops: seq<Op>)
    requires Inv(b, s) && s.quarantined == {}
    requires forall i :: 0 <= i < |ops| ==> ops[i].Chunk?
    requires s.global + TotalLen(ops) <= Min(b.l2, Min(b.l25, b.l3))
    ensures RoomyRun(b, s, ops)
    decreases |ops|
  {
    if ops != [] {
      CountersBelowGlobal(b, s, ops[0].key);
      assert Roomy(b, s, ops[0]);
      assert LegalOp(b, s, ops[0]);
      ApplyInv(b, s, ops[0]);
      GlobalGrowth(b, s, ops[0]);
      SmallTotalsAreRoomy(b, Apply(b, s, ops[0]).s, ops[1..]);
    }
  }
}
