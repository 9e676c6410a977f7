/** What the per-device budget really bounds. One chunk is evicted per overflow, a chunk written twice
    at one offset is counted twice, and the chunk that triggers quarantine is still stored; so the
    device counter can pass `l25`, but by at most one chunk per eviction counted towards quarantine. */
module ReassemblyConnBound {
  import opened Common
  import opened Sums
  import opened Reassembly
  import opened ReassemblyBudget

  ghost function StoredFor(d: nat, k: SegKey, g: Seg): nat { if k.dev == d then Stored(g.pending) else 0 }

  ghost function DevStored(d: nat): (SegKey, Seg) -> nat { (k: SegKey, g: Seg) => StoredFor(d, k, g) }

  /** Bytes of device `d` really waiting. */
  ghost function StoredOf(s: Buffers, d: nat): nat { SumBy(s.segs, DevStored(d)) }

  /** Bytes the device counter counts beyond that. */
  ghost function Leak(s: Buffers, d: nat): int { ConnOf(s, d) - StoredOf(s, d) }

  function Streak(s: Buffers, d: nat): nat { if d in s.evict then s.evict[d].streak else 0 }

  function Allowance(b: Budgets, m: nat, n: nat): nat { b.l25 + n * m }

  ghost predicate DevBound(b: Budgets, m: nat, s: Buffers, d: nat) {
    if d in s.quarantined then ConnOf(s, d) <= m
    else
      && Streak(s, d) < b.threshold
      && ConnOf(s, d) <= Allowance(b, m, Streak(s, d) + 1)
      && Leak(s, d) <= Allowance(b, m, Streak(s, d))
  }

  ghost predicate SmallChunks(m: nat, s: Buffers) {
    forall k, o :: k in s.segs && o in s.segs[k].pending ==> |s.segs[k].pending[o]| <= m
  }

  /** The clock stays inside one eviction window that starts at `t0`. */
  ghost predicate OneWindow(b: Budgets, t0: nat, s: Buffers) {
    t0 <= s.now <= t0 + b.window && forall d :: d in s.evict ==> t0 <= s.evict[d].windowStart
  }

  ghost predicate Bounded(b: Budgets, m: nat, t0: nat, s: Buffers) {
    && Inv(b, s) && SmallChunks(m, s) && OneWindow(b, t0, s)
    && forall d :: DevBound(b, m, s, d)
  }

  /** Device `e` is no worse off in `t` than in `s`. */
  ghost predicate Eased(s: Buffers, t: Buffers, e: nat) {
    && ConnOf(t, e) <= ConnOf(s, e) && Leak(t, e) <= Leak(s, e)
    && (e in t.quarantined <==> e in s.quarantined)
    && Streak(t, e) == Streak(s, e)
  }

  // ---- Effect of single updates on one device ----

  lemma PutStored(s: Buffers, k: SegKey, g: Seg, d: nat)
    ensures StoredOf(Put(s, k, g), d)
         == StoredOf(s, d) + if d == k.dev then Stored(g.pending) - Stored(SegOf(s, k).pending) else 0
  {
    NothingStored();
    SumPut(s.segs, DevStored(d), k, g);
  }

  lemma PopEased(s: Buffers, k: SegKey, o: nat, g: Seg, e: nat)
    requires Sound(s) && k in s.segs && o in s.segs[k].pending
    requires g.pending == s.segs[k].pending - {o} && g.bytes + |s.segs[k].pending[o]| == s.segs[k].bytes
    ensures Eased(s, Credit(Put(s, k, g), k.dev, |s.segs[k].pending[o]|), e)
  {
    PutStored(s, k, g, e);
    ChunkFits(s.segs[k], o);
    CreditSound(s, k, g, |s.segs[k].pending[o]|);
  }

  lemma DrainStepEased(s: Buffers, k: SegKey, e: nat)
    requires Sound(s) && Drainable(s, k)
    ensures Eased(s, DrainStep(s, k), e)
  {
    ChunkFits(s.segs[k], s.segs[k].next);
    PopEased(s, k, s.segs[k].next, Popped(s.segs[k]), e);
  }

  lemma {:induction false} DrainEased(s: Buffers, k: SegKey, e: nat)
    requires Sound(s)
    ensures Eased(s, Drain(s, k).s, e)
    decreases |SegOf(s, k).pending|
  {
    if Drainable(s, k) {
      DrainStepEased(s, k, e);
      DrainStepSound(s, k);
      Smaller(s.segs[k].pending, s.segs[k].next);
      DrainEased(DrainStep(s, k), k, e);
    }
  }

  lemma {:induction false} DrainSmall(m: nat, s: Buffers, k: SegKey)
    requires SmallChunks(m, s)
    ensures SmallChunks(m, Drain(s, k).s)
    ensures Drain(s, k).s.now == s.now && Drain(s, k).s.evict == s.evict
    decreases |SegOf(s, k).pending|
  {
    if Drainable(s, k) {
      Smaller(s.segs[k].pending, s.segs[k].next);
      DrainSmall(m, DrainStep(s, k), k);
    }
  }

  lemma EvictOneEased(s: Buffers, v: Victim, e: nat)
    requires Sound(s) && Holds(s, v)
    ensures Eased(s, EvictOne(s, v), e)
  {
    var g := s.segs[v.key];
    ChunkFits(g, v.offset);
    var sz := |g.pending[v.offset]|;
    PopEased(s, v.key, v.offset, g.(pending := g.pending - {v.offset}, bytes := SatSub(g.bytes, sz)), e);
  }

  /** A segment whose chunks are dropped with their counter. */
  lemma ClearedEased(s: Buffers, k: SegKey, g: Seg, e: nat)
    requires Sound(s) && k in s.segs && g.pending == map[] && g.bytes == 0
    ensures Eased(s, Credit(Put(s, k, g), k.dev, s.segs[k].bytes), e)
  {
    NothingStored();
    PutStored(s, k, g, e);
    CreditSound(s, k, g, s.segs[k].bytes);
  }

  lemma ReleasedEased(b: Budgets, s: Buffers, k: SegKey, e: nat)
    requires Inv(b, s) && k in s.segs
    ensures Eased(s, Release(s, k), e)
  {
    ReleaseInv(b, s, k);
    SumDrop(s.segs, DevStored(e), k);
  }

  lemma SamePendingEased(s: Buffers, k: SegKey, g: Seg, e: nat)
    requires k in s.segs && g.pending == s.segs[k].pending
    ensures Eased(s, Put(s, k, g), e)
  {
    PutStored(s, k, g, e);
  }

  lemma NothingPendingStored(s: Buffers, d: nat)
    requires NothingPending(s, d)
    ensures StoredOf(s, d) == 0
  {
    NothingStored();
    SumZero(s.segs, DevStored(d));
  }

  lemma QuarantinedElsewhere(s: Buffers, d: nat, e: nat)
    requires e != d
    ensures Eased(s, Quarantined(s, d), e)
  {
    SumSplit(s.segs, Quarantined(s, d).segs, DevStored(e), Zero(), DevStored(e));
    SumZero(s.segs, Zero());
  }

  lemma StoreElsewhere(s: Buffers, k: SegKey, p: Piece, e: nat)
    requires e != k.dev
    ensures Eased(s, Store(s, k, p), e)
  {
    PutStored(s, k, Store(s, k, p).segs[k], e);
  }

  // ---- Making room ----

  lemma EasedOne(b: Budgets, m: nat, s: Buffers, t: Buffers, e: nat)
    requires DevBound(b, m, s, e) && Eased(s, t, e)
    ensures DevBound(b, m, t, e)
  {}

  lemma EasedKeeps(b: Budgets, m: nat, s: Buffers, t: Buffers, e: nat)
    requires (forall d :: DevBound(b, m, s, d)) && Eased(s, t, e)
    ensures DevBound(b, m, t, e)
  {
    EasedOne(b, m, s, t, e);
  }

  function Replaced(s: Buffers, k: SegKey, o: nat): nat {
    if o in SegOf(s, k).pending then |SegOf(s, k).pending[o]| else 0
  }

  /** After making room, storing the piece keeps the device within its allowance. */
  ghost predicate Room(b: Budgets, m: nat, s: Buffers, k: SegKey, p: Piece) {
    var d := k.dev;
    if d in s.quarantined then ConnOf(s, d) + |p.data| <= m
    else
      && Streak(s, d) < b.threshold
      && ConnOf(s, d) + |p.data| <= Allowance(b, m, Streak(s, d) + 1)
      && Leak(s, d) + Replaced(s, k, p.offset) <= Allowance(b, m, Streak(s, d))
  }

  lemma AllowanceStep(b: Budgets, m: nat, n: nat)
    ensures Allowance(b, m, n + 1) == Allowance(b, m, n) + m
    ensures Allowance(b, m, 0) == b.l25 <= Allowance(b, m, n)
  {}

  lemma ReplacedSmall(m: nat, s: Buffers, k: SegKey, o: nat)
    requires SmallChunks(m, s)
    ensures Replaced(s, k, o) <= m
  {}

  /** No overflow: the counter itself bounds the leak. */
  lemma RoomWithout(b: Budgets, m: nat, t0: nat, s: Buffers, k: SegKey, p: Piece)
    requires Bounded(b, m, t0, s) && k.dev !in s.quarantined
    requires p.offset > SegOf(s, k).next && !OverL25(b, s, k, p)
    ensures Room(b, m, s, k, p)
  {
    AllowanceStep(b, m, Streak(s, k.dev));
    AllowanceStep(b, m, Streak(s, k.dev) + 1);
    assert DevBound(b, m, s, k.dev);
    ReplacedWithin(s, k, p.offset);
  }

  lemma ReplacedWithin(s: Buffers, k: SegKey, o: nat)
    requires Sound(s)
    ensures Leak(s, k.dev) + Replaced(s, k, o) <= ConnOf(s, k.dev)
  {
    if o in SegOf(s, k).pending {
      SumPut(SegOf(s, k).pending, ChunkLen(), o, []);
      SumPut(s.segs, DevStored(k.dev), k, s.segs[k]);
    }
  }

  /** Overflow with nothing to evict: all that is counted is leak. */
  lemma RoomNothing(b: Budgets, m: nat, t0: nat, s: Buffers, k: SegKey, p: Piece)
    requires Bounded(b, m, t0, s) && k.dev !in s.quarantined && |p.data| <= m
    requires NothingPending(s, k.dev)
    ensures Room(b, m, s, k, p)
  {
    assert DevBound(b, m, s, k.dev);
    NothingPendingStored(s, k.dev);
    AllowanceStep(b, m, Streak(s, k.dev));
  }

  /** The streak after an eviction inside the window. */
  lemma StreakCounts(b: Budgets, t0: nat, s: Buffers, d: nat)
    requires OneWindow(b, t0, s)
    ensures NextStreak(b, s, d).streak == Streak(s, d) + 1
    ensures t0 <= NextStreak(b, s, d).windowStart
  {}

  /** Overflow with a victim, below the threshold. */
  lemma RoomEvicted(b: Budgets, m: nat, t0: nat, s: Buffers, k: SegKey, p: Piece, v: Victim)
    requires Bounded(b, m, t0, s) && k.dev !in s.quarantined && |p.data| <= m
    requires Holds(s, v)
    requires NextStreak(b, s, k.dev).streak < b.threshold
    ensures Room(b, m, EvictOne(s, v).(evict := s.evict[k.dev := NextStreak(b, s, k.dev)]), k, p)
  {
    var d := k.dev;
    assert DevBound(b, m, s, d);
    StreakCounts(b, t0, s, d);
    EvictOneEased(s, v, d);
    var t := EvictOne(s, v).(evict := s.evict[d := NextStreak(b, s, d)]);
    assert SmallChunks(m, t);
    ReplacedSmall(m, t, k, p.offset);
    AllowanceStep(b, m, Streak(s, d));
    AllowanceStep(b, m, Streak(s, d) + 1);
    assert StoredOf(t, d) == StoredOf(EvictOne(s, v), d);
  }

  lemma RoomInDev(b: Budgets, m: nat, t0: nat, s: Buffers, k: SegKey, p: Piece, dv: Option<Victim>)
    requires Bounded(b, m, t0, s) && k.dev !in s.quarantined && |p.data| <= m
    requires p.offset > SegOf(s, k).next
    requires OverL25(b, s, k, p) ==> OldestInDev(s, k.dev, dv)
    ensures Room(b, m, MakeRoomInDev(b, s, k, p, dv).s, k, p)
  {
    if !OverL25(b, s, k, p) {
      RoomWithout(b, m, t0, s, k, p);
    } else if dv.None? {
      RoomNothing(b, m, t0, s, k, p);
    } else {
      var s1 := EvictOne(s, dv.value).(evict := s.evict[k.dev := NextStreak(b, s, k.dev)]);
      if NextStreak(b, s, k.dev).streak < b.threshold {
        RoomEvicted(b, m, t0, s, k, p, dv.value);
      } else {
        assert MakeRoomInDev(b, s, k, p, dv).s == Quarantined(s1, k.dev);
      }
    }
  }

  /** Making room in one device: the others are untouched, and all side conditions stay. */
  lemma InDevElsewhere(b: Budgets, s: Buffers, k: SegKey, p: Piece, dv: Option<Victim>, e: nat)
    requires Sound(s) && e != k.dev
    requires OverL25(b, s, k, p) ==> OldestInDev(s, k.dev, dv)
    ensures Eased(s, MakeRoomInDev(b, s, k, p, dv).s, e)
  {
    if OverL25(b, s, k, p) && dv.Some? {
      var s1 := EvictOne(s, dv.value).(evict := s.evict[k.dev := NextStreak(b, s, k.dev)]);
      EvictOneEased(s, dv.value, e);
      assert StoredOf(s1, e) == StoredOf(EvictOne(s, dv.value), e);
      assert Eased(s, s1, e);
      QuarantinedElsewhere(s1, k.dev, e);
    }
  }

  lemma InDevSides(b: Budgets, m: nat, t0: nat, s: Buffers, k: SegKey, p: Piece, dv: Option<Victim>)
    requires SmallChunks(m, s) && OneWindow(b, t0, s)
    requires OverL25(b, s, k, p) ==> OldestInDev(s, k.dev, dv)
    ensures var t := MakeRoomInDev(b, s, k, p, dv).s; SmallChunks(m, t) && OneWindow(b, t0, t)
  {
    StreakCounts(b, t0, s, k.dev);
  }

  lemma RoomGlobal(b: Budgets, m: nat, s: Buffers, k: SegKey, p: Piece, gv: Option<Victim>)
    requires Sound(s) && SmallChunks(m, s) && Room(b, m, s, k, p)
    requires OverL3(b, s, p) ==> OldestGlobal(s, gv)
    ensures var t := MakeRoom(b, s, p, gv).s; Room(b, m, t, k, p) && SmallChunks(m, t)
  {
    if OverL3(b, s, p) && gv.Some? {
      EvictOneEased(s, gv.value, k.dev);
    }
  }

  lemma StoreBound(b: Budgets, m: nat, s: Buffers, k: SegKey, p: Piece)
    requires Room(b, m, s, k, p)
    ensures DevBound(b, m, Store(s, k, p), k.dev)
  {
    var g := SegOf(s, k);
    PutStored(s, k, Store(s, k, p).segs[k], k.dev);
    SumPut(g.pending, ChunkLen(), p.offset, p.data);
    assert StoredOf(Store(s, k, p), k.dev) == StoredOf(Put(s, k, Store(s, k, p).segs[k]), k.dev);
  }

  // ---- Operations ----

  /** A piece at the head costs nothing. */
  lemma HeadEased(s: Buffers, k: SegKey, p: Piece, e: nat)
    requires Sound(s) && p.offset == SegOf(s, k).next && p.offset !in SegOf(s, k).pending
    ensures Eased(s, Drain(Store(s, k, p), k).s, e)
  {
    var t := Store(s, k, p);
    StoreSound(s, k, p);
    StoreAtHead(s, k, p);
    DrainStepSound(t, k);
    var u := DrainStep(t, k);
    NothingStored();
    PutStored(s, k, u.segs[k], e);
    assert StoredOf(u, e) == StoredOf(Put(s, k, u.segs[k]), e);
    DrainEased(u, k, e);
    assert Drain(t, k).s == Drain(u, k).s;
  }

  lemma AdmitElsewhere(b: Budgets, s: Buffers, k: SegKey, p: Piece,
                       dv: Option<Victim>, gv: Option<Victim>, e: nat)
    requires Inv(b, s) && LegalVictims(b, s, k, p, dv, gv) && e != k.dev
    ensures Eased(s, Admit(b, s, k, p, dv, gv).s, e)
  {
    InDevElsewhere(b, s, k, p, dv, e);
    MakeRoomInDevInv(b, s, k, p, dv);
    var s1 := MakeRoomInDev(b, s, k, p, dv).s;
    RoomEased(b, s1, p, gv, e);
    MakeRoomInv(b, s1, k, p, gv);
    StoredElsewhere(MakeRoom(b, s1, p, gv).s, k, p, e);
  }

  lemma AdmitAhead(b: Budgets, m: nat, t0: nat, s: Buffers, k: SegKey, p: Piece, dv: Option<Victim>, gv: Option<Victim>)
    requires Bounded(b, m, t0, s) && k.dev !in s.quarantined && |p.data| <= m
    requires p.offset > SegOf(s, k).next && LegalVictims(b, s, k, p, dv, gv)
    ensures DevBound(b, m, Admit(b, s, k, p, dv, gv).s, k.dev)
  {
    MakeRoomInDevInv(b, s, k, p, dv);
    RoomInDev(b, m, t0, s, k, p, dv);
    InDevSides(b, m, t0, s, k, p, dv);
    AdmitRoom(b, m, MakeRoomInDev(b, s, k, p, dv).s, k, p, gv);
  }

  lemma AdmitRoom(b: Budgets, m: nat, s1: Buffers, k: SegKey, p: Piece, gv: Option<Victim>)
    requires Inv(b, s1) && SmallChunks(m, s1) && Room(b, m, s1, k, p)
    requires OverL3(b, s1, p) ==> OldestGlobal(s1, gv)
    ensures DevBound(b, m, Drain(Store(MakeRoom(b, s1, p, gv).s, k, p), k).s, k.dev)
  {
    MakeRoomInv(b, s1, k, p, gv);
    RoomGlobal(b, m, s1, k, p, gv);
    StoredHere(b, m, MakeRoom(b, s1, p, gv).s, k, p);
  }

  lemma StoredHere(b: Budgets, m: nat, s: Buffers, k: SegKey, p: Piece)
    requires Sound(s) && Room(b, m, s, k, p)
    ensures DevBound(b, m, Drain(Store(s, k, p), k).s, k.dev)
  {
    StoreSound(s, k, p);
    StoreBound(b, m, s, k, p);
    EasedBound(b, m, Store(s, k, p), k);
  }

  lemma EasedBound(b: Budgets, m: nat, s: Buffers, k: SegKey)
    requires Sound(s) && DevBound(b, m, s, k.dev)
    ensures DevBound(b, m, Drain(s, k).s, k.dev)
  {
    DrainEased(s, k, k.dev);
  }

  lemma StoredElsewhere(s: Buffers, k: SegKey, p: Piece, e: nat)
    requires Sound(s) && e != k.dev
    ensures Eased(s, Drain(Store(s, k, p), k).s, e)
  {
    StoreElsewhere(s, k, p, e);
    StoreSound(s, k, p);
    DrainEased(Store(s, k, p), k, e);
  }

  lemma AdmitAtHead(b: Budgets, m: nat, t0: nat, s: Buffers, k: SegKey, p: Piece, dv: Option<Victim>,
                    gv: Option<Victim>)
    requires Bounded(b, m, t0, s)
    requires p.offset == SegOf(s, k).next && LegalVictims(b, s, k, p, dv, gv)
    ensures DevBound(b, m, Admit(b, s, k, p, dv, gv).s, k.dev)
  {
    MakeRoomInv(b, s, k, p, gv);
    var s2 := MakeRoom(b, s, p, gv).s;
    RoomEased(b, s, p, gv, k.dev);
    EasedKeeps(b, m, s, s2, k.dev);
    AtHead(b, m, s2, k, p);
  }

  lemma RoomEased(b: Budgets, s: Buffers, p: Piece, gv: Option<Victim>, e: nat)
    requires Sound(s) && (OverL3(b, s, p) ==> OldestGlobal(s, gv))
    ensures Eased(s, MakeRoom(b, s, p, gv).s, e)
  {
    if OverL3(b, s, p) && gv.Some? {
      EvictOneEased(s, gv.value, e);
    }
  }

  lemma AtHead(b: Budgets, m: nat, s: Buffers, k: SegKey, p: Piece)
    requires Inv(b, s) && DevBound(b, m, s, k.dev) && p.offset == SegOf(s, k).next
    ensures DevBound(b, m, Drain(Store(s, k, p), k).s, k.dev)
  {
    assert k in s.segs ==> !Drainable(s, k);
    HeadEased(s, k, p, k.dev);
    EasedOne(b, m, s, Drain(Store(s, k, p), k).s, k.dev);
  }

  lemma RoomSides(b: Budgets, m: nat, t0: nat, s: Buffers, k: SegKey, p: Piece, gv: Option<Victim>)
    requires SmallChunks(m, s) && OneWindow(b, t0, s) && |p.data| <= m
    requires OverL3(b, s, p) ==> OldestGlobal(s, gv)
    ensures var t := Drain(Store(MakeRoom(b, s, p, gv).s, k, p), k).s; SmallChunks(m, t) && OneWindow(b, t0, t)
  {
    var s2 := MakeRoom(b, s, p, gv).s;
    assert SmallChunks(m, s2);
    DrainSmall(m, Store(s2, k, p), k);
  }

  lemma AdmitBounded(b: Budgets, m: nat, t0: nat, s: Buffers, k: SegKey, p: Piece, dv: Option<Victim>,
                     gv: Option<Victim>)
    requires Bounded(b, m, t0, s) && k.dev !in s.quarantined && |p.data| <= m
    requires p.offset >= SegOf(s, k).next && LegalVictims(b, s, k, p, dv, gv)
    requires Inv(b, Admit(b, s, k, p, dv, gv).s)
    ensures Bounded(b, m, t0, Admit(b, s, k, p, dv, gv).s)
  {
    InDevSides(b, m, t0, s, k, p, dv);
    RoomSides(b, m, t0, MakeRoomInDev(b, s, k, p, dv).s, k, p, gv);
    if p.offset > SegOf(s, k).next {
      AdmitAhead(b, m, t0, s, k, p, dv, gv);
    } else {
      AdmitAtHead(b, m, t0, s, k, p, dv, gv);
    }
    AdmitOthers(b, m, s, k, p, dv, gv);
  }

  lemma AdmitOthers(b: Budgets, m: nat, s: Buffers, k: SegKey, p: Piece, dv: Option<Victim>, gv: Option<Victim>)
    requires Inv(b, s) && LegalVictims(b, s, k, p, dv, gv) && (forall d :: DevBound(b, m, s, d))
    ensures forall e :: e != k.dev ==> DevBound(b, m, Admit(b, s, k, p, dv, gv).s, e)
  {
    var t := Admit(b, s, k, p, dv, gv).s;
    forall e | e != k.dev ensures DevBound(b, m, t, e) {
      AdmitElsewhere(b, s, k, p, dv, gv, e);
      EasedKeeps(b, m, s, t, e);
    }
  }

  lemma DupBounded(b: Budgets, m: nat, t0: nat, s: Buffers, k: SegKey)
    requires Bounded(b, m, t0, s) && Inv(b, CountDup(s, k))
    ensures Bounded(b, m, t0, CountDup(s, k))
  {
    var t := CountDup(s, k);
    forall e ensures DevBound(b, m, t, e) {
      assert DevBound(b, m, s, e);
      if k in s.segs {
        SamePendingEased(s, k, t.segs[k], e);
      }
    }
  }

  lemma ErrorBounded(b: Budgets, m: nat, t0: nat, s: Buffers, k: SegKey)
    requires Bounded(b, m, t0, s)
    ensures Bounded(b, m, t0, MarkError(s, k).s)
  {
    MarkErrorInv(b, s, k);
    var t := MarkError(s, k).s;
    forall e ensures DevBound(b, m, t, e) {
      assert DevBound(b, m, s, e);
      if k in s.segs {
        ClearedEased(s, k, s.segs[k].(state := Error, pending := map[], bytes := 0), e);
      }
    }
  }

  lemma PlaceBounded(b: Budgets, m: nat, t0: nat, s: Buffers, k: SegKey, offset: nat, data: seq<byte>,
                     dv: Option<Victim>, gv: Option<Victim>)
    requires Bounded(b, m, t0, s) && |data| <= m && Legal(b, s, k, offset, data, dv, gv)
    ensures Bounded(b, m, t0, Place(b, s, k, offset, data, dv, gv).s)
  {
    PlaceInv(b, s, k, offset, data, dv, gv);
    if k.dev in s.quarantined {
    } else if Covered(s, k, offset, data) {
      DupBounded(b, m, t0, s, k);
    } else {
      var p := Trimmed(s, k, offset, data);
      if OverL2(b, s, k, p) {
        ErrorBounded(b, m, t0, s, k);
      } else {
        AdmitBounded(b, m, t0, s, k, p, dv, gv);
      }
    }
  }

  lemma SealEased(b: Budgets, s: Buffers, k: SegKey, size: nat, e: nat)
    requires Inv(b, s)
    ensures Eased(s, Seal(s, k, size).s, e)
  {
    var s1 := if k.no > LastSeq(s, k.dev) then s.(lastSeq := s.lastSeq[k.dev := k.no]) else s;
    SameExcept(b, s, s1);
    assert StoredOf(s1, e) == StoredOf(s, e);
    if k in s.segs {
      if s.segs[k].next == size {
        ReleasedEased(b, s1, k, e);
      } else {
        SamePendingEased(s1, k, s1.segs[k].(sealedSize := Some(size)), e);
      }
    }
  }

  lemma SealSides(m: nat, s: Buffers, k: SegKey, size: nat)
    requires SmallChunks(m, s)
    ensures var t := Seal(s, k, size).s; SmallChunks(m, t) && t.now == s.now && t.evict == s.evict
  {}

  lemma SealBounded(b: Budgets, m: nat, t0: nat, s: Buffers, k: SegKey, size: nat)
    requires Bounded(b, m, t0, s)
    ensures Bounded(b, m, t0, Seal(s, k, size).s)
  {
    SealInv(b, s, k, size);
    var t := Seal(s, k, size).s;
    forall e ensures DevBound(b, m, t, e) {
      SealEased(b, s, k, size, e);
      EasedKeeps(b, m, s, t, e);
    }
    SealSides(m, s, k, size);
  }

  /** The run of one window: chunks of at most `m` bytes, clock within `[t0, t0 + window]`. */
  ghost predicate Mild(b: Budgets, m: nat, t0: nat, op: Op) {
    && (op.Chunk? ==> |op.data| <= m)
    && (op.Clock? ==> t0 <= op.now <= t0 + b.window)
  }

  lemma ApplyBounded(b: Budgets, m: nat, t0: nat, s: Buffers, op: Op)
    requires Bounded(b, m, t0, s) && LegalOp(b, s, op) && Mild(b, m, t0, op)
    ensures Bounded(b, m, t0, Apply(b, s, op).s)
  {
    match op {
      case Chunk(k, offset, data, dv, gv) => PlaceBounded(b, m, t0, s, k, offset, data, dv, gv);
      case SealAt(k, size) => SealBounded(b, m, t0, s, k, size);
      case Clock(now) =>
        var t := s.(now := now);
        SameExcept(b, s, t);
        forall e ensures DevBound(b, m, t, e) {
          assert DevBound(b, m, s, e);
          assert StoredOf(t, e) == StoredOf(s, e);
        }
    }
  }

  lemma {:induction false} RunBounded(b: Budgets, m: nat, t0: nat, s: Buffers, ops: seq<Op>)
    requires Bounded(b, m, t0, s) && LegalRun(b, s, ops)
    requires forall i :: 0 <= i < |ops| ==> Mild(b, m, t0, ops[i])
    ensures Bounded(b, m, t0, Run(b, s, ops).s)
    decreases |ops|
  {
    if ops != [] {
      ApplyBounded(b, m, t0, s, ops[0]);
      RunBounded(b, m, t0, Apply(b, s, ops[0]).s, ops[1..]);
    }
  }
}
