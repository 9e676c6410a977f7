/** The byte accounting of the reassembler in every reachable state. */
module ReassemblyBudget {
  import opened Common
  import opened Sums
  import opened Reassembly

  function LenOf(o: nat, c: seq<byte>): nat { |c| }

  function ChunkLen(): (nat, seq<byte>) -> nat { (o: nat, c: seq<byte>) => LenOf(o, c) }

  /** Bytes really waiting in a segment. */
  ghost function Stored(pending: map<nat, seq<byte>>): nat { SumBy(pending, ChunkLen()) }

  ghost predicate Balanced(s: Buffers) {
    && s.global == SumBy(s.segs, AllBytes())
    && forall d :: ConnOf(s, d) == SumBy(s.segs, DevBytes(d))
  }

  /** The counters add up, no segment counts less than it holds, and a device with waiting chunks has
      a counter. */
  ghost predicate Sound(s: Buffers) {
    && Balanced(s)
    && (forall k :: k in s.segs ==> Stored(s.segs[k].pending) <= s.segs[k].bytes)
    && (forall k :: k in s.segs && s.segs[k].pending != map[] ==> k.dev in s.conn)
  }

  /** No chunk waits exactly at the head of its segment. */
  ghost predicate Tidy(s: Buffers) {
    forall k :: k in s.segs ==> !Drainable(s, k)
  }

  ghost predicate Capped(b: Budgets, s: Buffers) {
    forall k :: k in s.segs ==> s.segs[k].bytes <= b.l2
  }

  ghost predicate Inv(b: Budgets, s: Buffers) { Sound(s) && Tidy(s) && Capped(b, s) }

  // ---- Single updates ----

  lemma PutBalance(s: Buffers, k: SegKey, g: Seg)
    ensures SumBy(Put(s, k, g).segs, AllBytes()) == SumBy(s.segs, AllBytes()) - SegOf(s, k).bytes + g.bytes
    ensures forall d :: SumBy(Put(s, k, g).segs, DevBytes(d))
              == SumBy(s.segs, DevBytes(d)) + if d == k.dev then g.bytes - SegOf(s, k).bytes else 0
    ensures SegOf(s, k).bytes <= SumBy(s.segs, AllBytes())
    ensures SegOf(s, k).bytes <= SumBy(s.segs, DevBytes(k.dev))
  {
    SumPut(s.segs, AllBytes(), k, g);
    SumPut(s.segs, DevBytes(k.dev), k, g);
    forall d ensures SumBy(Put(s, k, g).segs, DevBytes(d))
              == SumBy(s.segs, DevBytes(d)) + if d == k.dev then g.bytes - SegOf(s, k).bytes else 0
    {
      SumPut(s.segs, DevBytes(d), k, g);
    }
  }

  /** Taking `sz` bytes off a segment and crediting them: nothing underflows and the sums still hold. */
  lemma CreditBalance(s: Buffers, k: SegKey, g: Seg, sz: nat)
    requires Balanced(s) && k in s.segs && g.bytes + sz == s.segs[k].bytes
    ensures Balanced(Credit(Put(s, k, g), k.dev, sz))
    ensures sz <= s.global && sz <= ConnOf(s, k.dev)
  {
    PutBalance(s, k, g);
    var t := Credit(Put(s, k, g), k.dev, sz);
    forall d ensures ConnOf(t, d) == SumBy(t.segs, DevBytes(d)) {
      assert ConnOf(s, d) == SumBy(s.segs, DevBytes(d));
    }
  }

  lemma CreditSound(s: Buffers, k: SegKey, g: Seg, sz: nat)
    requires Sound(s) && k in s.segs && g.bytes + sz == s.segs[k].bytes
    requires Stored(g.pending) <= g.bytes
    requires g.pending != map[] ==> k.dev in s.conn
    ensures Sound(Credit(Put(s, k, g), k.dev, sz))
    ensures sz <= s.global && sz <= ConnOf(s, k.dev)
  {
    CreditBalance(s, k, g, sz);
  }

  lemma ChunkFits(g: Seg, o: nat)
    requires o in g.pending && Stored(g.pending) <= g.bytes
    ensures |g.pending[o]| <= g.bytes
    ensures Stored(g.pending - {o}) == Stored(g.pending) - |g.pending[o]|
  {
    SumDrop(g.pending, ChunkLen(), o);
  }

  lemma NothingStored()
    ensures Stored(map[]) == 0
  {}

  lemma DrainStepSound(s: Buffers, k: SegKey)
    requires Sound(s) && Drainable(s, k)
    ensures Sound(DrainStep(s, k))
    ensures DrainStep(s, k).segs[k].bytes <= s.segs[k].bytes
  {
    var g := s.segs[k];
    ChunkFits(g, g.next);
    CreditSound(s, k, Popped(g), |g.pending[g.next]|);
  }

  /** Draining touches one segment, keeps the books, and leaves nothing at the head. */
  lemma {:induction false} DrainSound(s: Buffers, k: SegKey)
    requires Sound(s)
    ensures var t := Drain(s, k).s;
            && Sound(t) && !Drainable(t, k)
            && t.segs.Keys == s.segs.Keys
            && (forall j :: j in s.segs && j != k ==> t.segs[j] == s.segs[j])
            && (k in s.segs ==> t.segs[k].bytes <= s.segs[k].bytes)
    decreases |SegOf(s, k).pending|
  {
    if Drainable(s, k) {
      var g := s.segs[k];
      DrainStepSound(s, k);
      Smaller(g.pending, g.next);
      DrainSound(DrainStep(s, k), k);
    }
  }

  lemma EvictOneSound(s: Buffers, v: Victim)
    requires Sound(s) && Holds(s, v)
    ensures Sound(EvictOne(s, v))
    ensures EvictOne(s, v).segs[v.key].bytes <= s.segs[v.key].bytes
  {
    var g := s.segs[v.key];
    ChunkFits(g, v.offset);
    var sz := |g.pending[v.offset]|;
    CreditSound(s, v.key, g.(pending := g.pending - {v.offset}, bytes := SatSub(g.bytes, sz)), sz);
  }

  lemma EvictOneInv(b: Budgets, s: Buffers, v: Victim)
    requires Inv(b, s) && Holds(s, v)
    ensures Inv(b, EvictOne(s, v))
  {
    EvictOneSound(s, v);
    var t := EvictOne(s, v);
    forall k | k in t.segs ensures !Drainable(t, k) && t.segs[k].bytes <= b.l2 {
      assert !Drainable(s, k);
    }
  }

  function Zero(): (SegKey, Seg) -> nat { (k: SegKey, g: Seg) => 0 }

  lemma SilencedSums(s: Buffers, d: nat)
    ensures var t := Quarantined(s, d);
            && SumBy(t.segs, AllBytes()) == SumBy(s.segs, AllBytes()) - SumBy(s.segs, DevBytes(d))
            && SumBy(t.segs, DevBytes(d)) == 0
    ensures SumBy(s.segs, DevBytes(d)) <= SumBy(s.segs, AllBytes())
  {
    var t := Quarantined(s, d);
    SumSplit(s.segs, t.segs, AllBytes(), DevBytes(d), AllBytes());
    SumZero(t.segs, DevBytes(d));
  }

  lemma OtherSums(s: Buffers, d: nat, e: nat)
    requires e != d
    ensures SumBy(Quarantined(s, d).segs, DevBytes(e)) == SumBy(s.segs, DevBytes(e))
  {
    SumSplit(s.segs, Quarantined(s, d).segs, DevBytes(e), Zero(), DevBytes(e));
    SumZero(s.segs, Zero());
  }

  lemma QuarantinedSound(s: Buffers, d: nat)
    requires Sound(s)
    ensures Sound(Quarantined(s, d))
    ensures SumBy(s.segs, DevBytes(d)) <= s.global
    ensures ConnOf(Quarantined(s, d), d) == 0
  {
    var t := Quarantined(s, d);
    NothingStored();
    SilencedSums(s, d);
    forall e ensures ConnOf(t, e) == SumBy(t.segs, DevBytes(e)) {
      if e != d {
        OtherSums(s, d, e);
        assert ConnOf(s, e) == SumBy(s.segs, DevBytes(e));
      }
    }
  }

  lemma QuarantinedInv(b: Budgets, s: Buffers, d: nat)
    requires Inv(b, s)
    ensures Inv(b, Quarantined(s, d))
  {
    QuarantinedSound(s, d);
    var t := Quarantined(s, d);
    forall k | k in t.segs ensures !Drainable(t, k) {
      assert !Drainable(s, k);
    }
  }

  lemma StoreSound(s: Buffers, k: SegKey, p: Piece)
    requires Sound(s)
    ensures Sound(Store(s, k, p))
  {
    var g := SegOf(s, k);
    var t := Store(s, k, p);
    PutBalance(s, k, t.segs[k]);
    SumPut(g.pending, ChunkLen(), p.offset, p.data);
    NothingStored();
    forall d ensures ConnOf(t, d) == SumBy(t.segs, DevBytes(d)) {
      assert ConnOf(s, d) == SumBy(s.segs, DevBytes(d));
    }
  }

  /** A piece stored at the head is appended at once; the counters are as before. */
  lemma StoreAtHead(s: Buffers, k: SegKey, p: Piece)
    requires Sound(s) && p.offset == SegOf(s, k).next && p.offset !in SegOf(s, k).pending
    ensures Drainable(Store(s, k, p), k)
    ensures var g := SegOf(s, k); var t := DrainStep(Store(s, k, p), k);
            && t.segs == s.segs[k := g.(next := g.next + |p.data|, state := Unfinished)]
            && t.global == s.global && ConnOf(t, k.dev) == ConnOf(s, k.dev)
  {
    var g := SegOf(s, k);
    assert g.pending[p.offset := p.data] - {p.offset} == g.pending;
  }

  lemma HeadKeepsBytes(s: Buffers, k: SegKey, p: Piece)
    requires Sound(s) && p.offset == SegOf(s, k).next && p.offset !in SegOf(s, k).pending
    ensures var t := Drain(Store(s, k, p), k).s; k in t.segs && t.segs[k].bytes <= SegOf(s, k).bytes
  {
    var t := Store(s, k, p);
    StoreSound(s, k, p);
    StoreAtHead(s, k, p);
    DrainStepSound(t, k);
    DrainSound(DrainStep(t, k), k);
    assert Drain(t, k).s == Drain(DrainStep(t, k), k).s;
  }

  lemma StoredCapped(b: Budgets, s: Buffers, k: SegKey, p: Piece)
    requires Inv(b, s)
    requires p.offset == SegOf(s, k).next || SegOf(s, k).bytes + |p.data| <= b.l2
    ensures Inv(b, Drain(Store(s, k, p), k).s)
  {
    var t, u := Store(s, k, p), Drain(Store(s, k, p), k).s;
    StoreSound(s, k, p);
    DrainSound(t, k);
    assert k in s.segs ==> !Drainable(s, k);
    if p.offset == SegOf(s, k).next {
      HeadKeepsBytes(s, k, p);
    }
    forall j | j in u.segs ensures !Drainable(u, j) && u.segs[j].bytes <= b.l2 {
      assert j != k ==> !Drainable(s, j);
    }
  }

  lemma MarkErrorInv(b: Budgets, s: Buffers, k: SegKey)
    requires Inv(b, s)
    ensures Inv(b, MarkError(s, k).s)
  {
    if k in s.segs {
      var g := s.segs[k].(state := Error, pending := map[], bytes := 0);
      NothingStored();
      CreditSound(s, k, g, s.segs[k].bytes);
      var t := MarkError(s, k).s;
      forall j | j in t.segs ensures !Drainable(t, j) {
        assert !Drainable(s, j);
      }
    }
  }

  lemma ReleaseInv(b: Budgets, s: Buffers, k: SegKey)
    requires Inv(b, s) && k in s.segs
    ensures Inv(b, Release(s, k))
    ensures s.segs[k].bytes <= s.global && s.segs[k].bytes <= ConnOf(s, k.dev)
  {
    var t := Release(s, k);
    SumDrop(s.segs, AllBytes(), k);
    SumDrop(s.segs, DevBytes(k.dev), k);
    forall d ensures ConnOf(t, d) == SumBy(t.segs, DevBytes(d)) {
      SumDrop(s.segs, DevBytes(d), k);
      assert ConnOf(s, d) == SumBy(s.segs, DevBytes(d));
    }
    forall j | j in t.segs ensures !Drainable(t, j) {
      assert !Drainable(s, j);
    }
  }

  /** Changing a segment without touching head, chunks or byte counter. */
  lemma SameBooks(b: Budgets, s: Buffers, k: SegKey, g: Seg)
    requires Inv(b, s) && k in s.segs
    requires g.next == s.segs[k].next && g.pending == s.segs[k].pending && g.bytes == s.segs[k].bytes
    ensures Inv(b, Put(s, k, g))
  {
    PutBalance(s, k, g);
    var t := Put(s, k, g);
    forall d ensures ConnOf(t, d) == SumBy(t.segs, DevBytes(d)) {
      assert ConnOf(s, d) == SumBy(s.segs, DevBytes(d));
    }
    forall j | j in t.segs ensures !Drainable(t, j) {
      assert !Drainable(s, j);
    }
  }

  // ---- Operations ----

  lemma EvictInDevInv(b: Budgets, s: Buffers, d: nat, v: Victim)
    requires Inv(b, s) && Holds(s, v)
    ensures Inv(b, EvictInDev(b, s, d, Some(v)).s)
  {
    EvictOneInv(b, s, v);
    var s1 := EvictOne(s, v).(evict := s.evict[d := NextStreak(b, s, d)]);
    SameExcept(b, EvictOne(s, v), s1);
    QuarantinedInv(b, s1, d);
  }

  lemma MakeRoomInDevInv(b: Budgets, s: Buffers, k: SegKey, p: Piece, dv: Option<Victim>)
    requires Inv(b, s) && (OverL25(b, s, k, p) ==> OldestInDev(s, k.dev, dv))
    ensures var t := MakeRoomInDev(b, s, k, p, dv).s;
            && Inv(b, t) && SegOf(t, k).next == SegOf(s, k).next && SegOf(t, k).bytes <= SegOf(s, k).bytes
  {
    if OverL25(b, s, k, p) && dv.Some? {
      EvictOneSound(s, dv.value);
      EvictInDevInv(b, s, k.dev, dv.value);
    }
  }

  /** The invariant does not look at the streaks, the quarantine set, the clock or the seal marks. */
  lemma SameExcept(b: Budgets, s: Buffers, t: Buffers)
    requires Inv(b, s) && t.segs == s.segs && t.conn == s.conn && t.global == s.global
    ensures Inv(b, t)
  {
    forall d ensures ConnOf(t, d) == SumBy(t.segs, DevBytes(d)) {
      assert ConnOf(s, d) == SumBy(s.segs, DevBytes(d));
    }
    forall j | j in t.segs ensures !Drainable(t, j) {
      assert !Drainable(s, j);
    }
  }

  lemma MakeRoomInv(b: Budgets, s: Buffers, k: SegKey, p: Piece, gv: Option<Victim>)
    requires Inv(b, s) && (OverL3(b, s, p) ==> OldestGlobal(s, gv))
    ensures var t := MakeRoom(b, s, p, gv).s;
            && Inv(b, t) && SegOf(t, k).next == SegOf(s, k).next && SegOf(t, k).bytes <= SegOf(s, k).bytes
  {
    if OverL3(b, s, p) && gv.Some? {
      EvictOneSound(s, gv.value);
      EvictOneInv(b, s, gv.value);
    }
  }

  lemma PlaceInv(b: Budgets, s: Buffers, k: SegKey, offset: nat, data: seq<byte>, dv: Option<Victim>,
                 gv: Option<Victim>)
    requires Inv(b, s) && Legal(b, s, k, offset, data, dv, gv)
    ensures Inv(b, Place(b, s, k, offset, data, dv, gv).s)
  {
    if k.dev in s.quarantined {
    } else if Covered(s, k, offset, data) {
      if k in s.segs {
        SameBooks(b, s, k, s.segs[k].(dups := s.segs[k].dups + 1));
      }
    } else {
      var p := Trimmed(s, k, offset, data);
      if OverL2(b, s, k, p) {
        MarkErrorInv(b, s, k);
      } else {
        AdmitInv(b, s, k, p, dv, gv);
      }
    }
  }

  lemma AdmitInv(b: Budgets, s: Buffers, k: SegKey, p: Piece, dv: Option<Victim>, gv: Option<Victim>)
    requires Inv(b, s) && LegalVictims(b, s, k, p, dv, gv)
    requires p.offset >= SegOf(s, k).next && !OverL2(b, s, k, p)
    ensures Inv(b, Admit(b, s, k, p, dv, gv).s)
  {
    MakeRoomInDevInv(b, s, k, p, dv);
    var s1 := MakeRoomInDev(b, s, k, p, dv).s;
    MakeRoomInv(b, s1, k, p, gv);
    StoredCapped(b, MakeRoom(b, s1, p, gv).s, k, p);
  }

  lemma SealInv(b: Budgets, s: Buffers, k: SegKey, size: nat)
    requires Inv(b, s)
    ensures Inv(b, Seal(s, k, size).s)
  {
    var s1 := if k.no > LastSeq(s, k.dev) then s.(lastSeq := s.lastSeq[k.dev := k.no]) else s;
    SameExcept(b, s, s1);
    if k in s.segs {
      if s.segs[k].next == size {
        ReleaseInv(b, s1, k);
      } else {
        SameBooks(b, s1, k, s1.segs[k].(sealedSize := Some(size)));
      }
    }
  }

  lemma ApplyInv(b: Budgets, s: Buffers, op: Op)
    requires Inv(b, s) && LegalOp(b, s, op)
    ensures Inv(b, Apply(b, s, op).s)
  {
    match op {
      case Chunk(k, offset, data, dv, gv) => PlaceInv(b, s, k, offset, data, dv, gv);
      case SealAt(k, size) => SealInv(b, s, k, size);
      case Clock(now) => SameExcept(b, s, s.(now := now));
    }
  }

  lemma EmptyInv(b: Budgets)
    ensures Inv(b, EMPTY)
  {}

  /** In every reachable state the books balance: the global counter is the sum of the segment
      counters, each device counter is the sum over its segments, each segment counter covers the
      bytes it holds and stays within the L2 cap, and no chunk waits at its head. */
  lemma {:induction false} BooksBalance(b: Budgets, s: Buffers, ops: seq<Op>)
    requires Inv(b, s) && LegalRun(b, s, ops)
    ensures Inv(b, Run(b, s, ops).s)
    decreases |ops|
  {
    if ops != [] {
      ApplyInv(b, s, ops[0]);
      BooksBalance(b, Apply(b, s, ops[0]).s, ops[1..]);
    }
  }
}
