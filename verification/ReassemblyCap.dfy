/** The device budget as documented and as it is. */
module ReassemblyCap {
  import opened Common
  import opened Reassembly
  import opened ReassemblyBudget
  import opened ReassemblyConnBound
  import opened ReassemblyWindow

  // ---- The bound that holds ----

  lemma StartBounded(b: Budgets, m: nat, t0: nat)
    requires b.threshold >= 1
    ensures Bounded(b, m, t0, EMPTY.(now := t0))
  {
    var s := EMPTY.(now := t0);
    forall e ensures DevBound(b, m, s, e) {
      AllowanceStep(b, m, 0);
      AllowanceStep(b, m, 1);
      NothingPendingStored(s, e);
    }
  }

  lemma WithinThreshold(b: Budgets, m: nat, s: Buffers, d: nat)
    requires b.threshold >= 1 && DevBound(b, m, s, d)
    ensures ConnOf(s, d) <= b.l25 + b.threshold * m
  {
    if d in s.quarantined {
      MoreChunks(1, b.threshold, m);
    } else {
      MoreChunks(Streak(s, d) + 1, b.threshold, m);
    }
  }

  lemma MoreChunks(i: nat, j: nat, m: nat)
    requires i <= j
    ensures i * m <= j * m
  {}

  /** Whatever arrives, as long as the clock stays within one eviction window: a device never counts
      more than its cap plus `threshold` chunks. */
  lemma ConnCounterBound(b: Budgets, m: nat, t0: nat, ops: seq<Op>, d: nat)
    requires b.threshold >= 1 && LegalRun(b, EMPTY.(now := t0), ops)
    requires forall i :: 0 <= i < |ops| ==> Mild(b, m, t0, ops[i])
    ensures ConnOf(Run(b, EMPTY.(now := t0), ops).s, d) <= b.l25 + b.threshold * m
  {
    StartBounded(b, m, t0);
    RunBounded(b, m, t0, EMPTY.(now := t0), ops);
    WithinThreshold(b, m, Run(b, EMPTY.(now := t0), ops).s, d);
  }

  // ---- The documented hard cap ----

  /** Bytes of the device that its own eviction returns: none without overflow or without victim, all
      of them when it ends in quarantine, else the victim's. */
  function FreedInDev(b: Budgets, s: Buffers, k: SegKey, p: Piece, dv: Option<Victim>): nat
    requires OverL25(b, s, k, p) && dv.Some? ==> Holds(s, dv.value)
  {
    if !OverL25(b, s, k, p) || dv.None? then 0
    else if NextStreak(b, s, k.dev).streak >= b.threshold then ConnOf(s, k.dev)
    else |s.segs[dv.value.key].pending[dv.value.offset]|
  }

  /** Bytes of the device that a global eviction returns: its victim may be a chunk of any device. */
  function FreedGlobally(b: Budgets, s: Buffers, d: nat, p: Piece, gv: Option<Victim>): nat
    requires OverL3(b, s, p) && gv.Some? ==> Holds(s, gv.value)
  {
    if OverL3(b, s, p) && gv.Some? && gv.value.key.dev == d then |s.segs[gv.value.key].pending[gv.value.offset]| else 0
  }

  lemma EvictedCounter(s: Buffers, v: Victim, d: nat)
    requires Sound(s) && Holds(s, v)
    ensures var sz := if v.key.dev == d then |s.segs[v.key].pending[v.offset]| else 0;
            ConnOf(EvictOne(s, v), d) + sz == ConnOf(s, d)
  {
    var g := s.segs[v.key];
    var sz := |g.pending[v.offset]|;
    ChunkFits(g, v.offset);
    CreditSound(s, v.key, g.(pending := g.pending - {v.offset}, bytes := SatSub(g.bytes, sz)), sz);
  }

  lemma RoomInDevCounter(b: Budgets, s: Buffers, k: SegKey, p: Piece, dv: Option<Victim>)
    requires Inv(b, s) && k.dev !in s.quarantined && (OverL25(b, s, k, p) ==> OldestInDev(s, k.dev, dv))
    ensures ConnOf(MakeRoomInDev(b, s, k, p, dv).s, k.dev) + FreedInDev(b, s, k, p, dv) == ConnOf(s, k.dev)
  {
    if OverL25(b, s, k, p) && dv.Some? {
      EvictedCounter(s, dv.value, k.dev);
    }
  }

  /** An out-of-order piece waits: storing it adds its length and drains nothing. */
  lemma StoredWaits(b: Budgets, s: Buffers, k: SegKey, p: Piece)
    requires Inv(b, s) && p.offset > SegOf(s, k).next
    ensures Drain(Store(s, k, p), k).s == Store(s, k, p)
  {
    assert k in s.segs ==> !Drainable(s, k);
  }

  /** The device's counter after an out-of-order piece, and with it exactly when the device is within
      its cap: overflow or not, with or without a victim, global eviction included. */
  lemma CapHoldsExactly(b: Budgets, s: Buffers, k: SegKey, p: Piece, dv: Option<Victim>, gv: Option<Victim>)
    requires Inv(b, s) && k.dev !in s.quarantined && p.offset > SegOf(s, k).next
    requires LegalVictims(b, s, k, p, dv, gv)
    ensures var freed := FreedInDev(b, s, k, p, dv) + FreedGlobally(b, MakeRoomInDev(b, s, k, p, dv).s, k.dev, p, gv);
            && ConnOf(Admit(b, s, k, p, dv, gv).s, k.dev) + freed == ConnOf(s, k.dev) + |p.data|
            && (ConnOf(Admit(b, s, k, p, dv, gv).s, k.dev) <= b.l25 <==> ConnOf(s, k.dev) + |p.data| <= b.l25 + freed)
  {
    var s1 := MakeRoomInDev(b, s, k, p, dv).s;
    MakeRoomInDevInv(b, s, k, p, dv);
    RoomInDevCounter(b, s, k, p, dv);
    MakeRoomInv(b, s1, k, p, gv);
    if OverL3(b, s1, p) && gv.Some? {
      EvictedCounter(s1, gv.value, k.dev);
    }
    StoredWaits(b, MakeRoom(b, s1, p, gv).s, k, p);
  }

  /** The global budget, after the device has made room: a piece that waits is stored as it is while all
      bytes and the piece fit; beyond that the victim's bytes go first, if there is one. */
  lemma GlobalCapExactly(b: Budgets, s: Buffers, k: SegKey, p: Piece, dv: Option<Victim>, gv: Option<Victim>)
    requires Inv(b, s) && k.dev !in s.quarantined && p.offset > SegOf(s, k).next
    requires LegalVictims(b, s, k, p, dv, gv)
    ensures var s1, t := MakeRoomInDev(b, s, k, p, dv).s, Admit(b, s, k, p, dv, gv).s;
            if s1.global + |p.data| > b.l3 && gv.Some? then
              && OldestGlobal(s1, gv)
              && t.global + |s1.segs[gv.value.key].pending[gv.value.offset]| == s1.global + |p.data|
            else t == Store(s1, k, p) && t.global == s1.global + |p.data|
  {
    var s1 := MakeRoomInDev(b, s, k, p, dv).s;
    MakeRoomInDevInv(b, s, k, p, dv);
    MakeRoomInv(b, s1, k, p, gv);
    StoredWaits(b, MakeRoom(b, s1, p, gv).s, k, p);
    if OverL3(b, s1, p) && gv.Some? {
      EvictedGlobal(s1, gv.value);
    }
  }

  lemma EvictedGlobal(s: Buffers, v: Victim)
    requires Sound(s) && Holds(s, v)
    ensures EvictOne(s, v).global + |s.segs[v.key].pending[v.offset]| == s.global
  {
    var g := s.segs[v.key];
    var sz := |g.pending[v.offset]|;
    ChunkFits(g, v.offset);
    CreditSound(s, v.key, g.(pending := g.pending - {v.offset}, bytes := SatSub(g.bytes, sz)), sz);
  }

  /** A piece at the head meets the global budget only: a chunk is evicted exactly when all bytes and the
      piece exceed it and there is a victim. */
  lemma HeadEvictsExactly(b: Budgets, s: Buffers, k: SegKey, p: Piece, dv: Option<Victim>, gv: Option<Victim>)
    requires k.dev !in s.quarantined && p.offset == SegOf(s, k).next && LegalVictims(b, s, k, p, dv, gv)
    ensures var events := Admit(b, s, k, p, dv, gv).events;
            (exists e :: e in events && e.Evict?) <==> s.global + |p.data| > b.l3 && gv.Some?
  {
    var s2 := MakeRoom(b, s, p, gv).s;
    DrainAppends(Store(s2, k, p), k);
    if OverL3(b, s, p) && gv.Some? {
      assert EvictEvent(s, gv.value) in Admit(b, s, k, p, dv, gv).events;
    }
  }

  lemma {:induction false} DrainAppends(s: Buffers, k: SegKey)
    ensures forall e :: e in Drain(s, k).events ==> e.Append?
    decreases |SegOf(s, k).pending|
  {
    if Drainable(s, k) {
      Smaller(s.segs[k].pending, s.segs[k].next);
      DrainAppends(DrainStep(s, k), k);
    }
  }

  /** Without a victim the device's counter is bytes that overwritten chunks left behind. Nothing can be
      freed, so the cap is always broken. */
  lemma NoVictimBreaksCap(b: Budgets, s: Buffers, k: SegKey, p: Piece, gv: Option<Victim>)
    requires Inv(b, s) && k.dev !in s.quarantined && OverL25(b, s, k, p) && LegalVictims(b, s, k, p, None, gv)
    ensures ConnOf(Admit(b, s, k, p, None, gv).s, k.dev) > b.l25
  {
    CapHoldsExactly(b, s, k, p, None, gv);
    assert MakeRoomInDev(b, s, k, p, None).s == s && NothingPending(s, k.dev);
  }

  const CAP_TWO := Budgets(100, 2, 100, 30, 3)
  const CAP_KEY := SegKey(1, 0)

  /** A device with cap 2: one-byte chunks at 10 and 20, then two bytes at 30. */
  function CapExample(): seq<Op> {
    [Chunk(CAP_KEY, 10, [1], None, None), Chunk(CAP_KEY, 20, [2], None, None),
     Chunk(CAP_KEY, 30, [3, 4], Some(Victim(CAP_KEY, 10)), None)]
  }

  function CapState(pending: map<nat, seq<byte>>, n: nat): Buffers {
    EMPTY.(segs := map[CAP_KEY := Seg(New, 0, None, pending, n, 0)], conn := map[1 := n], global := n)
  }

  lemma FirstChunk()
    ensures LegalOp(CAP_TWO, EMPTY, CapExample()[0])
    ensures Apply(CAP_TWO, EMPTY, CapExample()[0]).s == CapState(map[10 := [1]], 1)
  {}

  lemma SecondChunk()
    ensures LegalOp(CAP_TWO, CapState(map[10 := [1]], 1), CapExample()[1])
    ensures Apply(CAP_TWO, CapState(map[10 := [1]], 1), CapExample()[1]).s == CapState(map[10 := [1], 20 := [2]], 2)
  {
    assert Trimmed(CapState(map[10 := [1]], 1), CAP_KEY, 20, [2]) == Piece(20, [2]);
    assert map[10 := [1]][20 := [2]] == map[10 := [1], 20 := [2]];
  }

  lemma ThirdChunk()
    ensures var s := CapState(map[10 := [1], 20 := [2]], 2);
            LegalOp(CAP_TWO, s, CapExample()[2]) && ConnOf(Apply(CAP_TWO, s, CapExample()[2]).s, 1) == 3
  {
    var s, k, v, p := CapState(map[10 := [1], 20 := [2]], 2), CAP_KEY, Victim(CAP_KEY, 10), Piece(30, [3, 4]);
    forall y | Candidate(s, y) ensures v.offset <= y.offset {
      assert y.offset == 10 || y.offset == 20;
    }
    assert OldestInDev(s, 1, Some(v));
    assert Trimmed(s, k, 30, [3, 4]) == p;
    var s1 := MakeRoomInDev(CAP_TWO, s, k, p, Some(v)).s;
    assert s1.segs[k].pending == map[20 := [2]] && ConnOf(s1, 1) == 1 && s1.global == 1;
    assert !Drainable(Store(s1, k, p), k);
  }

  lemma RunOfTwo(b: Budgets, s: Buffers, ops: seq<Op>, s1: Buffers)
    requires |ops| == 2 && LegalOp(b, s, ops[0]) && Apply(b, s, ops[0]).s == s1 && LegalOp(b, s1, ops[1])
    ensures LegalRun(b, s, ops) && Run(b, s, ops).s == Apply(b, s1, ops[1]).s
  {
    var s2 := Apply(b, s1, ops[1]).s;
    assert LegalRun(b, s2, []) && Run(b, s2, []).s == s2;
    assert ops[1..][1..] == [];
    assert LegalRun(b, s1, ops[1..]) && Run(b, s1, ops[1..]).s == s2;
  }

  lemma RunOfThree(b: Budgets, s: Buffers, ops: seq<Op>, s1: Buffers, s2: Buffers)
    requires |ops| == 3 && LegalOp(b, s, ops[0]) && Apply(b, s, ops[0]).s == s1
    requires LegalOp(b, s1, ops[1]) && Apply(b, s1, ops[1]).s == s2 && LegalOp(b, s2, ops[2])
    ensures LegalRun(b, s, ops) && Run(b, s, ops).s == Apply(b, s2, ops[2]).s
  {
    RunOfTwo(b, s1, ops[1..], s2);
  }

  /** The documentation calls the cap hard; here the counter ends at 3. */
  lemma HardCapFails()
    ensures LegalRun(CAP_TWO, EMPTY, CapExample())
    ensures ConnOf(Run(CAP_TWO, EMPTY, CapExample()).s, 1) == 3 && CAP_TWO.l25 == 2
  {
    FirstChunk();
    SecondChunk();
    ThirdChunk();
    RunOfThree(CAP_TWO, EMPTY, CapExample(), CapState(map[10 := [1]], 1), CapState(map[10 := [1], 20 := [2]], 2));
  }

  /** The same cap with one byte sent twice at 1, then the head byte, which appends both: nothing waits
      and one byte stays counted. Two bytes at 5 then find no victim. */
  function LeakExample(): seq<Op> {
    [Chunk(CAP_KEY, 1, [1], None, None), Chunk(CAP_KEY, 1, [1], None, None), Chunk(CAP_KEY, 0, [0], None, None),
     Chunk(CAP_KEY, 5, [3, 4], None, None)]
  }

  const LEAKED :=
    EMPTY.(segs := map[CAP_KEY := Seg(Unfinished, 2, None, map[], 1, 0)], conn := map[1 := 1], global := 1)

  lemma LeakStarts()
    ensures LegalOp(CAP_TWO, EMPTY, LeakExample()[0])
    ensures Apply(CAP_TWO, EMPTY, LeakExample()[0]).s == CapState(map[1 := [1]], 1)
    ensures LegalOp(CAP_TWO, CapState(map[1 := [1]], 1), LeakExample()[1])
    ensures Apply(CAP_TWO, CapState(map[1 := [1]], 1), LeakExample()[1]).s == CapState(map[1 := [1]], 2)
  {
    assert Trimmed(CapState(map[1 := [1]], 1), CAP_KEY, 1, [1]) == Piece(1, [1]);
    assert map[1 := [1]][1 := [1]] == map[1 := [1]];
  }

  lemma HeadDrains()
    ensures Drain(Store(CapState(map[1 := [1]], 2), CAP_KEY, Piece(0, [0])), CAP_KEY).s == LEAKED
  {
    var k, t := CAP_KEY, Store(CapState(map[1 := [1]], 2), CAP_KEY, Piece(0, [0]));
    var t1 := DrainStep(t, k);
    assert t1.segs[k].pending == map[1 := [1]] && t1.segs[k].next == 1;
    var t2 := DrainStep(t1, k);
    assert t2 == LEAKED;
    assert Drain(t, k).s == Drain(t1, k).s == Drain(t2, k).s == t2;
  }

  lemma HeadArrives()
    ensures LegalOp(CAP_TWO, CapState(map[1 := [1]], 2), LeakExample()[2])
    ensures Apply(CAP_TWO, CapState(map[1 := [1]], 2), LeakExample()[2]).s == LEAKED
  {
    assert Trimmed(CapState(map[1 := [1]], 2), CAP_KEY, 0, [0]) == Piece(0, [0]);
    HeadDrains();
  }

  lemma NoVictimLeft()
    ensures LegalOp(CAP_TWO, LEAKED, LeakExample()[3])
    ensures ConnOf(Apply(CAP_TWO, LEAKED, LeakExample()[3]).s, 1) == 3
  {
    assert Trimmed(LEAKED, CAP_KEY, 5, [3, 4]) == Piece(5, [3, 4]);
    assert NothingPending(LEAKED, 1);
    assert !Drainable(Store(LEAKED, CAP_KEY, Piece(5, [3, 4])), CAP_KEY);
  }

  /** A reachable overflow without victim. */
  lemma LeakFails()
    ensures LegalRun(CAP_TWO, EMPTY, LeakExample())
    ensures ConnOf(Run(CAP_TWO, EMPTY, LeakExample()).s, 1) == 3 && CAP_TWO.l25 == 2
  {
    LeakStarts();
    HeadArrives();
    NoVictimLeft();
    var ops := LeakExample();
    var s1 := CapState(map[1 := [1]], 1);
    RunOfThree(CAP_TWO, s1, ops[1..], CapState(map[1 := [1]], 2), LEAKED);
    assert Run(CAP_TWO, EMPTY, ops).s == Run(CAP_TWO, s1, ops[1..]).s;
  }

  // ---- A cap of zero ----

  /** A cap of 0 is documented as no limit. Every piece past the head overflows it; the device is left
      alone, as without a limit, exactly when it has nothing waiting. */
  lemma ZeroCapExactly(b: Budgets, s: Buffers, k: SegKey, p: Piece, dv: Option<Victim>)
    requires b.l25 == 0 && Inv(b, s) && k.dev !in s.quarantined
    requires p.data != [] && p.offset > SegOf(s, k).next && OldestInDev(s, k.dev, dv)
    ensures OverL25(b, s, k, p)
    ensures MakeRoomInDev(b, s, k, p, dv).s == s <==> NothingPending(s, k.dev)
  {
    if dv.Some? {
      var v := dv.value;
      assert v.offset !in EvictOne(s, v).segs[v.key].pending;
      assert MakeRoomInDev(b, s, k, p, dv).s.segs[v.key] != s.segs[v.key];
    }
  }

  const CAP_ZERO := Budgets(100, 0, 100, 30, 1)

  /** One byte at 10, one at 20. */
  function ZeroExample(): seq<Op> {
    [Chunk(CAP_KEY, 10, [1], None, None), Chunk(CAP_KEY, 20, [2], Some(Victim(CAP_KEY, 10)), None)]
  }

  lemma ZeroFirst()
    ensures LegalOp(CAP_ZERO, EMPTY, ZeroExample()[0])
    ensures Apply(CAP_ZERO, EMPTY, ZeroExample()[0]).s == CapState(map[10 := [1]], 1)
  {}

  lemma ZeroSecond()
    ensures var s := CapState(map[10 := [1]], 1);
            LegalOp(CAP_ZERO, s, ZeroExample()[1]) && 1 in Apply(CAP_ZERO, s, ZeroExample()[1]).s.quarantined
  {
    var s, k, v, p := CapState(map[10 := [1]], 1), CAP_KEY, Victim(CAP_KEY, 10), Piece(20, [2]);
    assert OldestInDev(s, 1, Some(v));
    assert Trimmed(s, k, 20, [2]) == p;
    var s1 := MakeRoomInDev(CAP_ZERO, s, k, p, Some(v)).s;
    assert 1 in s1.quarantined && s1.segs[k].pending == map[];
    DrainWatches(Store(s1, k, p), k);
  }

  /** With threshold 1 the second out-of-order chunk quarantines the device. */
  lemma ZeroCapQuarantines()
    ensures LegalRun(CAP_ZERO, EMPTY, ZeroExample())
    ensures 1 in Run(CAP_ZERO, EMPTY, ZeroExample()).s.quarantined
  {
    ZeroFirst();
    ZeroSecond();
    RunOfTwo(CAP_ZERO, EMPTY, ZeroExample(), CapState(map[10 := [1]], 1));
  }
}
