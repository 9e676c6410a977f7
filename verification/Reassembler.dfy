/** The reassembler as the program runs it: one object whose maps and counters are changed in place.
    Counters are subtracted without clamping and map entries are read without a default wherever the
    program does so; that this never fails is part of what is proved. */
module Reassemblers {
  import opened Common
  import opened Ordering
  import opened Sums
  import opened Reassembly
  import opened ReassemblyBudget

  /** An eviction in its three parts: the chunk, the streak, the possible quarantine. */
  lemma EvictionParts(b: Budgets, s: Buffers, d: nat, v: Victim, st: EvictState, counted: Buffers)
    requires Holds(s, v) && st == NextStreak(b, EvictOne(s, v), d)
    requires counted == EvictOne(s, v).(evict := s.evict[d := st])
    ensures var out := if st.streak >= b.threshold && d !in counted.quarantined
                       then Out(Quarantined(counted, d), [Quarantine(d)]) else Out(counted, []);
            EvictInDev(b, s, d, Some(v)) == Out(out.s, [EvictEvent(s, v)] + out.events)
  {}

  class Reassembler {
    const budgets: Budgets
    var segs: map<SegKey, Seg>
    var conn: map<nat, nat>
    var quarantined: set<nat>
    var evict: map<nat, EvictState>
    var global: nat
    var lastSeq: map<nat, nat>
    var now: nat

    ghost function Value(): Buffers reads this {
      Buffers(segs, conn, quarantined, evict, global, lastSeq, now)
    }

    ghost predicate Valid() reads this { Inv(budgets, Value()) }

    constructor (b: Budgets)
      ensures budgets == b && Value() == EMPTY && Valid()
    {
      budgets := b;
      segs, conn, quarantined, evict, global, lastSeq, now := map[], map[], {}, map[], 0, map[], 0;
      new;
      EmptyInv(b);
    }

    method SetNow(t: nat)
      requires Valid()
      modifies this
      ensures Value() == old(Value()).(now := t) && Valid()
    {
      now := t;
      SameExcept(budgets, old(Value()), Value());
    }

    /** Shared tail of every path that takes counted bytes back: the subtraction is exact. */
    method TakeBack(k: SegKey, g: Seg, sz: nat)
      requires k in segs && k.dev in conn && sz <= global && sz <= conn[k.dev]
      modifies this
      ensures Value() == Credit(Put(old(Value()), k, g), k.dev, sz)
    {
      segs := segs[k := g];
      global := global - sz;
      conn := conn[k.dev := conn[k.dev] - sz];
    }

    method DrainContiguous(k: SegKey) returns (events: seq<Event>)
      requires Sound(Value())
      modifies this
      ensures Out(Value(), events) == Drain(old(Value()), k)
    {
      events := [];
      ghost var s0, s := Value(), Value();
      while k in segs && segs[k].next in segs[k].pending
        invariant s == Value() && StillToDrain(s0, s, k, events)
        decreases |SegOf(s, k).pending|
      {
        DrainTurn(s0, s, k, events);
        var event := PopHead(k);
        events := events + [event];
        s := DrainStep(s, k);
      }
    }

    /** Moves the chunk at the head out of the buffer. */
    method PopHead(k: SegKey) returns (event: Event)
      requires Sound(Value()) && Drainable(Value(), k)
      modifies this
      ensures Value() == DrainStep(old(Value()), k)
      ensures event == Append(k, old(segs[k].next), old(segs[k].pending[segs[k].next]))
    {
      var g := segs[k];
      var chunk := g.pending[g.next];
      PopIsExact(Value(), k);
      var g1 := Seg(Unfinished, g.next + |chunk|, g.sealedSize, g.pending - {g.next}, g.bytes - |chunk|, g.dups);
      TakeBack(k, g1, |chunk|);
      event := Append(k, g.next, chunk);
    }

    /** Drops one waiting chunk. */
    method RemoveChunk(v: Victim) returns (event: Event)
      requires Valid() && Holds(Value(), v)
      modifies this
      ensures Value() == EvictOne(old(Value()), v) && Valid()
      ensures event == EvictEvent(old(Value()), v)
    {
      var g := segs[v.key];
      var sz := |g.pending[v.offset]|;
      ChunkFits(g, v.offset);
      EvictOneInv(budgets, Value(), v);
      ghost var h := g.(pending := g.pending - {v.offset}, bytes := SatSub(g.bytes, sz));
      CreditBalance(Value(), v.key, h, sz);
      event := Evict(v.key, v.offset, sz);
      TakeBack(v.key, g.(pending := g.pending - {v.offset}, bytes := g.bytes - sz), sz);
    }

    method EvictOldestInDev(d: nat) returns (events: seq<Event>, ghost v: Option<Victim>)
      requires Valid()
      modifies this
      ensures OldestInDev(old(Value()), d, v)
      ensures Out(Value(), events) == EvictInDev(budgets, old(Value()), d, v)
      ensures Valid()
    {
      var target := FindOldestInDev(d);
      v := target;
      if target.None? {
        return [], v;
      }
      ghost var s := Value();
      var event := RemoveChunk(target.value);
      var st := CountEviction(d);
      ghost var counted := Value();
      var more := Escalate(d, st);
      events := [event] + more;
      EvictionParts(budgets, s, d, target.value, st, counted);
    }

    /** One more eviction in the window, or the first of a new one. */
    method CountEviction(d: nat) returns (st: EvictState)
      requires Valid()
      modifies this
      ensures st == NextStreak(budgets, old(Value()), d)
      ensures Value() == old(Value()).(evict := old(evict)[d := st]) && Valid()
    {
      ghost var before := Value();
      st := if d in evict then evict[d] else EvictState(0, now);
      if SatSub(now, st.windowStart) > budgets.window {
        st := EvictState(1, now);
      } else {
        st := st.(streak := st.streak + 1);
      }
      evict := evict[d := st];
      SameExcept(budgets, before, Value());
    }

    /** At the threshold the device is quarantined. */
    method Escalate(d: nat, st: EvictState) returns (events: seq<Event>)
      requires Valid()
      modifies this
      ensures Out(Value(), events) == if st.streak >= budgets.threshold && d !in old(quarantined)
                                      then Out(Quarantined(old(Value()), d), [Quarantine(d)])
                                      else Out(old(Value()), [])
      ensures Valid()
    {
      events := [];
      if st.streak >= budgets.threshold && d !in quarantined {
        var event := QuarantineDev(d);
        events := [event];
      }
    }

    /** The scan over all segments, in the arbitrary order of a hash map. */
    method FindOldestInDev(d: nat) returns (target: Option<Victim>)
      ensures OldestInDev(Value(), d, target)
    {
      target := None;
      var todo := segs.Keys;
      NatOrder();
      while todo != {}
        invariant todo <= segs.Keys
        invariant target.None? ==> forall k :: k in segs && k !in todo && k.dev == d ==> segs[k].pending == map[]
        invariant target.Some? ==> Candidate(Value(), target.value) && target.value.key.dev == d
        invariant target.Some? ==>
          forall y :: Candidate(Value(), y) && y.key !in todo && y.key.dev == d ==> target.value.offset <= y.offset
        decreases |todo|
      {
        var key :| key in todo;
        todo := todo - {key};
        if key.dev == d && segs[key].pending != map[] {
          var off := OldestOffset(segs[key].pending);
          if target.None? || off < target.value.offset {
            target := Some(Victim(key, off));
          }
        }
      }
    }

    method EvictOldestGlobal() returns (events: seq<Event>, ghost v: Option<Victim>)
      requires Valid()
      modifies this
      ensures OldestGlobal(old(Value()), v)
      ensures Out(Value(), events) == EvictGlobal(old(Value()), v)
      ensures Valid()
    {
      var target := FindOldestGlobal();
      v := target;
      if target.None? {
        return [], v;
      }
      var event := RemoveChunk(target.value);
      events := [event];
    }

    /** Chunks of quarantined devices go first, then the smallest offset. */
    method FindOldestGlobal() returns (target: Option<Victim>)
      ensures OldestGlobal(Value(), target)
    {
      target := None;
      var todo := segs.Keys;
      NatOrder();
      while todo != {}
        invariant todo <= segs.Keys
        invariant target.None? ==> forall k :: k in segs && k !in todo ==> segs[k].pending == map[]
        invariant target.Some? ==> Candidate(Value(), target.value)
        invariant target.Some? ==>
          forall y :: Candidate(Value(), y) && y.key !in todo ==> !Better(Value(), y, target.value)
        decreases |todo|
      {
        var key :| key in todo;
        todo := todo - {key};
        if segs[key].pending != map[] {
          var off := OldestOffset(segs[key].pending);
          var q := key.dev in quarantined;
          if target.None? {
            target := Some(Victim(key, off));
          } else {
            var tq := target.value.key.dev in quarantined;
            if (q && !tq) || (q == tq && off < target.value.offset) {
              target := Some(Victim(key, off));
            }
          }
        }
      }
    }

    method QuarantineDev(d: nat) returns (event: Event)
      requires Valid() && d !in quarantined
      modifies this
      ensures Value() == Quarantined(old(Value()), d) && event == Quarantine(d)
      ensures Valid()
    {
      ghost var s := Value();
      quarantined := quarantined + {d};
      SameExcept(budgets, s, Value());
      DropDevice(d);
      conn := conn - {d};
      evict := evict - {d};
      event := Quarantine(d);
      QuarantinedInv(budgets, s, d);
      assert Value() == Quarantined(s, d);
    }

    /** Every segment of the device loses its chunks and is marked skipped. */
    method DropDevice(d: nat)
      requires Sound(Value())
      modifies this
      ensures Value().(conn := map[]) == Dropped(old(Value()), d).(conn := map[])
      ensures conn - {d} == old(conn) - {d}
    {
      var todo := set k | k in segs && k.dev == d;
      while todo != {}
        invariant HalfDropped(old(Value()), Value(), d, todo)
        decreases |todo|
      {
        var key :| key in todo;
        HalfDroppedStep(old(Value()), Value(), d, todo, key);
        DropSegmentPending(key);
        todo := todo - {key};
      }
      AllDropped(old(Value()), Value(), d);
    }

    method DropSegmentPending(k: SegKey)
      requires Sound(Value()) && k in segs
      modifies this
      ensures Value() == Credit(Put(old(Value()), k, Silenced(old(segs[k]))), k.dev, old(segs[k].bytes))
      ensures Sound(Value())
    {
      var g := segs[k];
      NothingStored();
      CreditSound(Value(), k, Silenced(g), g.bytes);
      segs := segs[k := g.(state := Skipped, pending := map[], bytes := 0)];
      global := SatSub(global, g.bytes);
      if k.dev in conn {
        conn := conn[k.dev := SatSub(conn[k.dev], g.bytes)];
      }
    }

    method MarkSegmentError(k: SegKey) returns (events: seq<Event>)
      requires Valid()
      modifies this
      ensures Out(Value(), events) == MarkError(old(Value()), k) && Valid()
    {
      MarkErrorInv(budgets, Value(), k);
      var next := 0;
      if k in segs {
        var g := segs[k];
        next := g.next;
        segs := segs[k := g.(state := Error, pending := map[], bytes := 0)];
        global := SatSub(global, g.bytes);
        if k.dev in conn {
          conn := conn[k.dev := SatSub(conn[k.dev], g.bytes)];
        }
      }
      events := [SegmentError(k), Gap(k, next)];
    }

    method PlaceChunk(k: SegKey, offset: nat, data: seq<byte>)
      returns (events: seq<Event>, ghost dv: Option<Victim>, ghost gv: Option<Victim>)
      requires Valid()
      modifies this
      ensures Legal(budgets, old(Value()), k, offset, data, dv, gv)
      ensures Out(Value(), events) == Place(budgets, old(Value()), k, offset, data, dv, gv)
      ensures Valid()
    {
      dv, gv := None, None;
      if k.dev in quarantined {
        return [QuarantinedDrop(k.dev, |data|)], dv, gv;
      }
      var next := if k in segs then segs[k].next else 0;
      var bytes := if k in segs then segs[k].bytes else 0;
      if offset + |data| <= next {
        events := [Dup(k)];
        if k in segs {
          segs := segs[k := segs[k].(dups := segs[k].dups + 1)];
          SameBooks(budgets, old(Value()), k, segs[k]);
        }
        return;
      }
      var piece := if offset < next then Piece(next, data[next - offset..]) else Piece(offset, data);
      assert piece == Trimmed(Value(), k, offset, data);
      if piece.offset > next && bytes + |piece.data| > budgets.l2 {
        events := MarkSegmentError(k);
        return;
      }
      events, dv, gv := AdmitPiece(k, piece, next);
    }

    /** Room in the device, room overall, store, drain. */
    method AdmitPiece(k: SegKey, p: Piece, next: nat)
      returns (events: seq<Event>, ghost dv: Option<Victim>, ghost gv: Option<Victim>)
      requires Valid() && next == SegOf(Value(), k).next <= p.offset && !OverL2(budgets, Value(), k, p)
      modifies this
      ensures LegalVictims(budgets, old(Value()), k, p, dv, gv)
      ensures Out(Value(), events) == Admit(budgets, old(Value()), k, p, dv, gv)
      ensures Valid()
    {
      dv, gv := None, None;
      events := [];
      if p.offset > next {
        var used := if k.dev in conn then conn[k.dev] else 0;
        if used + |p.data| > budgets.l25 {
          events, dv := EvictOldestInDev(k.dev);
        }
      }
      ghost var o1 := MakeRoomInDev(budgets, old(Value()), k, p, dv);
      assert Out(Value(), events) == o1;
      if global + |p.data| > budgets.l3 {
        var evicted;
        evicted, gv := EvictOldestGlobal();
        events := events + evicted;
      }
      ghost var o2 := MakeRoom(budgets, o1.s, p, gv);
      assert Value() == o2.s && events == o1.events + o2.events;
      AdmitInv(budgets, old(Value()), k, p, dv, gv);
      StoreSound(Value(), k, p);
      StorePiece(k, p);
      var drained := DrainContiguous(k);
      events := events + drained;
    }

    method StorePiece(k: SegKey, p: Piece)
      modifies this
      ensures Value() == Store(old(Value()), k, p)
    {
      var g := if k in segs then segs[k] else BLANK_SEG;
      segs := segs[k := g.(bytes := g.bytes + |p.data|, pending := g.pending[p.offset := p.data])];
      global := global + |p.data|;
      conn := conn[k.dev := (if k.dev in conn then conn[k.dev] else 0) + |p.data|];
    }

    /** Segment numbers between the last seal and this one never arrived. */
    method AnnounceSkips(k: SegKey, last: nat) returns (events: seq<Event>)
      requires last == LastSeq(Value(), k.dev)
      ensures events == Skips(Value(), k)
    {
      events := [];
      if k.no > 0 && last > 0 && k.no > last + 1 {
        var miss := last + 1;
        while miss < k.no
          invariant last + 1 <= miss <= k.no
          invariant events + SkipsFrom(k.dev, miss, k.no) == SkipsFrom(k.dev, last + 1, k.no)
        {
          assert SkipsFrom(k.dev, miss, k.no) == [SeqSkipped(SegKey(k.dev, miss))] + SkipsFrom(k.dev, miss + 1, k.no);
          events := events + [SeqSkipped(SegKey(k.dev, miss))];
          miss := miss + 1;
        }
      }
    }

    method SealSegment(k: SegKey, size: nat) returns (events: seq<Event>)
      requires Valid()
      modifies this
      ensures Out(Value(), events) == Seal(old(Value()), k, size) && Valid()
    {
      SealInv(budgets, Value(), k, size);
      var last := if k.dev in lastSeq then lastSeq[k.dev] else 0;
      events := AnnounceSkips(k, last);
      if k.no > last {
        lastSeq := lastSeq[k.dev := k.no];
      }
      if k !in segs {
        return;
      }
      var next := segs[k].next;
      if next == size {
        ReleaseSegment(k);
        events := events + [Sealed(k, size)];
      } else {
        segs := segs[k := segs[k].(sealedSize := Some(size))];
        events := events + [SealGap(k, next, size)];
      }
    }

    method ReleaseSegment(k: SegKey)
      requires k in segs
      modifies this
      ensures Value() == Release(old(Value()), k)
    {
      var g := segs[k];
      segs := segs - {k};
      global := SatSub(global, g.bytes);
      if k.dev in conn {
        conn := conn[k.dev := SatSub(conn[k.dev], g.bytes)];
      }
    }
  }

  /** The drain of `s0` is what `events` says so far plus the drain of `s`. */
  ghost predicate StillToDrain(s0: Buffers, s: Buffers, k: SegKey, events: seq<Event>) {
    Sound(s) && Drain(s0, k) == Out(Drain(s, k).s, events + Drain(s, k).events)
  }

  /** Nothing underflows when the head chunk is taken out. */
  lemma PopIsExact(s: Buffers, k: SegKey)
    requires Sound(s) && Drainable(s, k)
    ensures var g := s.segs[k]; var sz := |g.pending[g.next]|;
            && sz <= g.bytes && k.dev in s.conn && sz <= s.conn[k.dev] && sz <= s.global
            && Popped(g) == Seg(Unfinished, g.next + sz, g.sealedSize, g.pending - {g.next}, g.bytes - sz, g.dups)
  {
    var g := s.segs[k];
    ChunkFits(g, g.next);
    CreditSound(s, k, Popped(g), |g.pending[g.next]|);
  }

  /** One turn of the drain loop. */
  lemma DrainTurn(s0: Buffers, s: Buffers, k: SegKey, events: seq<Event>)
    requires StillToDrain(s0, s, k, events) && Drainable(s, k)
    ensures var g := s.segs[k];
            && StillToDrain(s0, DrainStep(s, k), k, events + [Append(k, g.next, g.pending[g.next])])
            && |SegOf(DrainStep(s, k), k).pending| < |g.pending|
  {
    var g := s.segs[k];
    DrainStepSound(s, k);
    Smaller(g.pending, g.next);
    DrainSplits(s, k, events);
  }

  lemma DrainSplits(s: Buffers, k: SegKey, events: seq<Event>)
    requires Drainable(s, k)
    ensures var rest := Drain(DrainStep(s, k), k); var g := s.segs[k];
            Out(Drain(s, k).s, events + Drain(s, k).events)
            == Out(rest.s, (events + [Append(k, g.next, g.pending[g.next])]) + rest.events)
  {
    var g, rest := s.segs[k], Drain(DrainStep(s, k), k);
    assert Drain(s, k).events == [Append(k, g.next, g.pending[g.next])] + rest.events;
    assert events + Drain(s, k).events == (events + [Append(k, g.next, g.pending[g.next])]) + rest.events;
  }

  /** The quarantine loop without its last three assignments. */
  ghost function Dropped(s: Buffers, d: nat): Buffers {
    s.(segs := Quarantined(s, d).segs, global := Quarantined(s, d).global)
  }

  /** The quarantine loop when the segments in `todo` are still untouched. */
  ghost predicate HalfDropped(s: Buffers, t: Buffers, d: nat, todo: set<SegKey>) {
    && Sound(t)
    && t == s.(segs := t.segs, conn := t.conn, global := t.global)
    && t.conn - {d} == s.conn - {d}
    && t.segs.Keys == s.segs.Keys && todo <= s.segs.Keys
    && (forall k :: k in todo ==> k.dev == d)
    && (forall k :: k in s.segs && k.dev == d && k !in todo ==> t.segs[k] == Silenced(s.segs[k]))
    && (forall k :: k in s.segs && (k.dev != d || k in todo) ==> t.segs[k] == s.segs[k])
  }

  lemma HalfDroppedStep(s: Buffers, t: Buffers, d: nat, todo: set<SegKey>, k: SegKey)
    requires HalfDropped(s, t, d, todo) && k in todo
    ensures HalfDropped(s, Credit(Put(t, k, Silenced(t.segs[k])), d, t.segs[k].bytes), d, todo - {k})
  {
    NothingStored();
    CreditSound(t, k, Silenced(t.segs[k]), t.segs[k].bytes);
  }

  lemma SameSegs(s: Buffers, t: Buffers, d: nat)
    requires HalfDropped(s, t, d, {})
    ensures t.segs == Quarantined(s, d).segs && t.global == SumBy(t.segs, AllBytes())
  {
    assert t.segs.Keys == Quarantined(s, d).segs.Keys;
  }

  lemma AllDropped(s: Buffers, t: Buffers, d: nat)
    requires Sound(s) && HalfDropped(s, t, d, {})
    ensures t.(conn := map[]) == Dropped(s, d).(conn := map[])
  {
    SameSegs(s, t, d);
    QuarantinedSound(s, d);
  }

  method OldestOffset(pending: map<nat, seq<byte>>) returns (off: nat)
    requires pending != map[]
    ensures off in pending && forall o :: o in pending ==> off <= o
  {
    assert pending.Keys != {} by { assert |pending| > 0; }
    NatOrder();
    off := First(NatLt, pending.Keys);
    assert forall o :: o in pending ==> o == off || NatLt(off, o);
  }
}
