/** What the events of a whole run account for: every byte taken in, every repeated chunk, every segment
    number that was passed over. */
module ReassemblyLedger {
  import opened Common
  import opened Reassembly
  import opened ReassemblyBudget
  import opened ReassemblyCap
  import opened ReassemblyOutcomes
  import opened ReassemblyWindow
  import opened Sums

  // ---- Bytes ----

  /** Bytes that an event reports as leaving the buffers. */
  function Leaving(e: Event): nat {
    match e
    case Append(_, _, data) => |data|
    case Evict(_, _, n) => n
    case _ => 0
  }

  function Left(events: seq<Event>): nat
    decreases |events|
  {
    if events == [] then 0 else Leaving(events[0]) + Left(events[1..])
  }

  lemma {:induction false} LeftConcat(a: seq<Event>, b: seq<Event>)
    ensures Left(a + b) == Left(a) + Left(b)
    decreases |a|
  {
    if a == [] {
      assert a + b == b;
    } else {
      assert (a + b)[1..] == a[1..] + b;
      LeftConcat(a[1..], b);
    }
  }

  /** Bytes an operation brings in: those past the head of a chunk that is served. */
  function Taken(b: Budgets, s: Buffers, op: Op): nat {
    if op.Chunk? && op.key.dev !in s.quarantined && BringsNew(s, op.key, op.offset, op.data)
       && !NoRoom(b, s, op.key, op.offset, op.data)
    then op.offset + |op.data| - Max(op.offset, SegOf(s, op.key).next)
    else 0
  }

  /** Bytes an operation throws away without reporting each: a refused segment's, those of a device that
      goes into quarantine except the evicted chunk, and what waits in a segment when it is sealed. */
  ghost function Thrown(b: Budgets, s: Buffers, op: Op): nat
    requires LegalOp(b, s, op)
  {
    match op
    case Chunk(k, offset, data, dv, gv) =>
      if k.dev in s.quarantined then 0
      else if NoRoom(b, s, k, offset, data) then SegOf(s, k).bytes
      else if Banned(s, Apply(b, s, op).s, k.dev) && dv.Some? && Holds(s, dv.value) then
        SatSub(ConnOf(s, k.dev), |s.segs[dv.value.key].pending[dv.value.offset]|)
      else 0
    case SealAt(k, size) => if k in s.segs && s.segs[k].next == size then s.segs[k].bytes else 0
    case Clock(_) => 0
  }

  lemma {:induction false} DrainLeaves(s: Buffers, k: SegKey)
    requires Sound(s)
    ensures Drain(s, k).s.global + Left(Drain(s, k).events) == s.global
    decreases |SegOf(s, k).pending|
  {
    if Drainable(s, k) {
      var g := s.segs[k];
      DrainStepLeaves(s, k);
      Smaller(g.pending, g.next);
      DrainLeaves(DrainStep(s, k), k);
      assert Drain(s, k).events[1..] == Drain(DrainStep(s, k), k).events;
    }
  }

  lemma DrainStepLeaves(s: Buffers, k: SegKey)
    requires Sound(s) && Drainable(s, k)
    ensures Sound(DrainStep(s, k)) && DrainStep(s, k).global + |s.segs[k].pending[s.segs[k].next]| == s.global
  {
    var g := s.segs[k];
    ChunkFits(g, g.next);
    CreditSound(s, k, Popped(g), |g.pending[g.next]|);
  }

  lemma LeftOne(e: Event)
    ensures Left([e]) == Leaving(e)
  {
    assert [e][1..] == [];
  }

  lemma LeftTwo(e: Event, f: Event)
    ensures Left([e, f]) == Leaving(e) + Leaving(f)
  {
    assert [e, f][1..] == [f];
    LeftOne(f);
  }

  lemma QuarantineThrows(s: Buffers, d: nat)
    requires Sound(s)
    ensures Quarantined(s, d).global + ConnOf(s, d) == s.global
  {
    QuarantinedSound(s, d);
    assert ConnOf(s, d) == SumBy(s.segs, DevBytes(d));
  }

  lemma VictimTaken(b: Budgets, s: Buffers, v: Victim, st: EvictState)
    requires Inv(b, s) && Holds(s, v)
    ensures var s1, sz := EvictOne(s, v).(evict := s.evict[v.key.dev := st]), |s.segs[v.key].pending[v.offset]|;
            Sound(s1) && s1.global + sz == s.global && ConnOf(s1, v.key.dev) + sz == ConnOf(s, v.key.dev)
  {
    EvictedGlobal(s, v);
    EvictedCounter(s, v, v.key.dev);
    EvictOneInv(b, s, v);
    SameExcept(b, EvictOne(s, v), EvictOne(s, v).(evict := s.evict[v.key.dev := st]));
  }

  /** The two outcomes of an eviction in a device. */
  lemma Escalates(b: Budgets, s: Buffers, d: nat, v: Victim, s1: Buffers)
    requires Holds(s, v) && v.key.dev == d && d !in s.quarantined
    requires s1 == EvictOne(s, v).(evict := s.evict[d := NextStreak(b, s, d)])
    ensures var o := EvictInDev(b, s, d, Some(v));
            || (o == Out(s1, [EvictEvent(s, v)]) && d !in o.s.quarantined)
            || (o == Out(Quarantined(s1, d), [EvictEvent(s, v), Quarantine(d)]) && d in o.s.quarantined)
  {}

  /** A device's eviction reports its victim; a quarantine throws away the rest of the device. */
  lemma EvictedLeaves(b: Budgets, s: Buffers, d: nat, v: Victim)
    requires Inv(b, s) && Holds(s, v) && v.key.dev == d && d !in s.quarantined
    ensures var o, sz := EvictInDev(b, s, d, Some(v)), |s.segs[v.key].pending[v.offset]|;
            && sz <= ConnOf(s, d) && Left(o.events) == sz
            && o.s.global + sz + (if d in o.s.quarantined then ConnOf(s, d) - sz else 0) == s.global
  {
    var st := NextStreak(b, s, d);
    var s1 := EvictOne(s, v).(evict := s.evict[d := st]);
    Escalates(b, s, d, v, s1);
    VictimTaken(b, s, v, st);
    LeftOne(EvictEvent(s, v));
    LeftTwo(EvictEvent(s, v), Quarantine(d));
    QuarantineThrows(s1, d);
  }

  lemma RoomInDevLeaves(b: Budgets, s: Buffers, k: SegKey, p: Piece, dv: Option<Victim>)
    requires Inv(b, s) && k.dev !in s.quarantined && (OverL25(b, s, k, p) ==> OldestInDev(s, k.dev, dv))
    ensures var o := MakeRoomInDev(b, s, k, p, dv);
            s.global == o.s.global + Left(o.events)
              + if Banned(s, o.s, k.dev) && dv.Some? && Holds(s, dv.value)
                then SatSub(ConnOf(s, k.dev), |s.segs[dv.value.key].pending[dv.value.offset]|) else 0
  {
    if OverL25(b, s, k, p) && dv.Some? {
      EvictedLeaves(b, s, k.dev, dv.value);
    }
  }

  lemma RoomLeaves(b: Budgets, s: Buffers, p: Piece, gv: Option<Victim>)
    requires Sound(s) && (OverL3(b, s, p) ==> OldestGlobal(s, gv))
    ensures var o := MakeRoom(b, s, p, gv); s.global == o.s.global + Left(o.events)
  {
    if OverL3(b, s, p) && gv.Some? {
      EvictedGlobal(s, gv.value);
      LeftOne(EvictEvent(s, gv.value));
    }
  }

  lemma StoreLeaves(s: Buffers, k: SegKey, p: Piece)
    requires Sound(s)
    ensures var o := Drain(Store(s, k, p), k); s.global + |p.data| == o.s.global + Left(o.events)
  {
    StoreSound(s, k, p);
    DrainLeaves(Store(s, k, p), k);
  }

  lemma AdmitLeaves(b: Budgets, s: Buffers, k: SegKey, p: Piece, dv: Option<Victim>, gv: Option<Victim>)
    requires Inv(b, s) && k.dev !in s.quarantined && LegalVictims(b, s, k, p, dv, gv)
    ensures var o := Admit(b, s, k, p, dv, gv);
            s.global + |p.data| == o.s.global + Left(o.events)
              + if Banned(s, o.s, k.dev) && dv.Some? && Holds(s, dv.value)
                then SatSub(ConnOf(s, k.dev), |s.segs[dv.value.key].pending[dv.value.offset]|) else 0
  {
    var o1 := MakeRoomInDev(b, s, k, p, dv);
    var o2 := MakeRoom(b, o1.s, p, gv);
    var o3 := Drain(Store(o2.s, k, p), k);
    MakeRoomInDevInv(b, s, k, p, dv);
    RoomsInv(b, s, k, p, dv, gv);
    RoomInDevLeaves(b, s, k, p, dv);
    RoomLeaves(b, o1.s, p, gv);
    StoreLeaves(o2.s, k, p);
    AdmitWatches(b, s, k, p, dv, gv);
    LeftConcat(o1.events + o2.events, o3.events);
    LeftConcat(o1.events, o2.events);
  }

  lemma ServedLeaves(b: Budgets, s: Buffers, op: Op)
    requires Inv(b, s) && LegalOp(b, s, op) && op.Chunk? && op.key.dev !in s.quarantined
    requires BringsNew(s, op.key, op.offset, op.data) && !NoRoom(b, s, op.key, op.offset, op.data)
    ensures var o := Apply(b, s, op);
            s.global + Taken(b, s, op) == o.s.global + Left(o.events) + Thrown(b, s, op)
  {
    TrimmedEnds(s, op.key, op.offset, op.data);
    AdmitLeaves(b, s, op.key, Trimmed(s, op.key, op.offset, op.data), op.dv, op.gv);
  }

  lemma RefusedLeaves(b: Budgets, s: Buffers, op: Op)
    requires Inv(b, s) && LegalOp(b, s, op) && op.Chunk? && op.key.dev !in s.quarantined
    requires NoRoom(b, s, op.key, op.offset, op.data)
    ensures var o := Apply(b, s, op);
            s.global + Taken(b, s, op) == o.s.global + Left(o.events) + Thrown(b, s, op)
  {
    RefusedExactly(b, s, op.key, op.offset, op.data, op.dv, op.gv);
    LeftTwo(SegmentError(op.key), Gap(op.key, SegOf(s, op.key).next));
  }

  lemma {:induction false} SkipsLeave(d: nat, from: nat, until: nat)
    ensures Left(SkipsFrom(d, from, until)) == 0
    decreases until - from
  {
    if from < until {
      SkipsLeave(d, from + 1, until);
      assert SkipsFrom(d, from, until)[1..] == SkipsFrom(d, from + 1, until);
    }
  }

  lemma SealedLeaves(b: Budgets, s: Buffers, k: SegKey)
    requires Inv(b, s) && k in s.segs
    ensures Release(s, k).global + s.segs[k].bytes == s.global
  {
    ReleaseInv(b, s, k);
  }

  /** The skips in front of a seal's own event count nothing. */
  lemma SealEvent(s: Buffers, k: SegKey, e: Event)
    requires Leaving(e) == 0
    ensures Left(Skips(s, k)) == 0 && Left(Skips(s, k) + [e]) == 0
  {
    SkipsLeave(k.dev, LastSeq(s, k.dev) + 1, k.no);
    LeftConcat(Skips(s, k), [e]);
    LeftOne(e);
  }

  lemma SealLeaves(b: Budgets, s: Buffers, k: SegKey, size: nat)
    requires Inv(b, s)
    ensures var o := Seal(s, k, size);
            s.global == o.s.global + Left(o.events) + Thrown(b, s, SealAt(k, size))
  {
    SealEvent(s, k, Sealed(k, size));
    if k in s.segs {
      SealEvent(s, k, SealGap(k, s.segs[k].next, size));
      SealedLeaves(b, s, k);
    }
  }

  lemma ApplyLeaves(b: Budgets, s: Buffers, op: Op)
    requires Inv(b, s) && LegalOp(b, s, op)
    ensures var o := Apply(b, s, op);
            s.global + Taken(b, s, op) == o.s.global + Left(o.events) + Thrown(b, s, op)
  {
    match op {
      case Chunk(k, offset, data, dv, gv) =>
        if k.dev in s.quarantined {
          LeftOne(QuarantinedDrop(k.dev, |data|));
        } else if NoRoom(b, s, k, offset, data) {
          RefusedLeaves(b, s, op);
        } else if BringsNew(s, k, offset, data) {
          ServedLeaves(b, s, op);
        } else {
          LeftOne(Dup(k));
        }
      case SealAt(k, size) => SealLeaves(b, s, k, size);
      case Clock(now) =>
    }
  }

  ghost function TakenIn(b: Budgets, s: Buffers, ops: seq<Op>): nat
    requires LegalRun(b, s, ops)
    decreases |ops|
  {
    if ops == [] then 0 else Taken(b, s, ops[0]) + TakenIn(b, Apply(b, s, ops[0]).s, ops[1..])
  }

  ghost function ThrownIn(b: Budgets, s: Buffers, ops: seq<Op>): nat
    requires LegalRun(b, s, ops)
    decreases |ops|
  {
    if ops == [] then 0 else Thrown(b, s, ops[0]) + ThrownIn(b, Apply(b, s, ops[0]).s, ops[1..])
  }

  /** Over any run every byte taken in has been reported as appended or evicted, has been thrown away by
      an error, a quarantine or a seal, or is still counted. */
  lemma {:induction false} BytesAreAccounted(b: Budgets, s: Buffers, ops: seq<Op>)
    requires Inv(b, s) && LegalRun(b, s, ops)
    ensures var o := Run(b, s, ops);
            s.global + TakenIn(b, s, ops) == o.s.global + Left(o.events) + ThrownIn(b, s, ops)
    decreases |ops|
  {
    if ops != [] {
      var o := Apply(b, s, ops[0]);
      ApplyInv(b, s, ops[0]);
      ApplyLeaves(b, s, ops[0]);
      BytesAreAccounted(b, o.s, ops[1..]);
      LeftConcat(o.events, Run(b, o.s, ops[1..]).events);
    }
  }

  // ---- Segment numbers passed over ----

  /** How often an event occurs. */
  function Times(events: seq<Event>, e: Event): nat { multiset(events)[e] }

  lemma TimesConcat(a: seq<Event>, b: seq<Event>, e: Event)
    ensures Times(a + b, e) == Times(a, e) + Times(b, e)
  {}

  /** Segment numbers sealed for device `d`, in order. */
  function SealedNumbers(ops: seq<Op>, d: nat): seq<nat>
    decreases |ops|
  {
    if ops == [] then []
    else
      var later := SealedNumbers(ops[1..], d);
      if ops[0].SealAt? && ops[0].key.dev == d then [ops[0].key.no] + later else later
  }

  /** Seal `j` is the first with a number from `n` on, and its number is past `n`. */
  predicate Jumps(nos: seq<nat>, n: nat, j: nat) { j < |nos| && nos[j] > n && forall i :: 0 <= i < j ==> nos[i] < n }

  /** Some seal before `j` has a number other than 0. */
  predicate Started(nos: seq<nat>, j: nat) { exists i :: 0 <= i < j <= |nos| && nos[i] > 0 }

  /** After seals up to `last`, number `n` is passed over by `nos`. */
  ghost predicate PassedOver(last: nat, nos: seq<nat>, n: nat) {
    last < n && exists j :: Jumps(nos, n, j) && (last > 0 || Started(nos, j))
  }

  lemma PassedNext(last: nat, no: nat, later: seq<nat>, n: nat)
    ensures PassedOver(last, [no] + later, n)
       <==> (0 < last < n < no) || (no < n && PassedOver(Max(last, no), later, n))
  {
    var nos := [no] + later;
    if 0 < last < n < no {
      assert Jumps(nos, n, 0);
    }
    if no < n && PassedOver(Max(last, no), later, n) {
      var j :| Jumps(later, n, j) && (Max(last, no) > 0 || Started(later, j));
      PassedLater(last, no, later, n, j);
    }
    if PassedOver(last, nos, n) && no <= n {
      var j :| Jumps(nos, n, j) && (last > 0 || Started(nos, j));
      PassedEarlier(last, no, later, n, j);
    }
    assert forall j :: Jumps(nos, n, j) && j > 0 ==> nos[0] < n;
  }

  lemma PassedLater(last: nat, no: nat, later: seq<nat>, n: nat, j: nat)
    requires no < n && last < n && Jumps(later, n, j) && (Max(last, no) > 0 || Started(later, j))
    ensures PassedOver(last, [no] + later, n)
  {
    var nos := [no] + later;
    assert forall i :: 0 <= i < j + 1 ==> nos[i] == if i == 0 then no else later[i - 1];
    assert Jumps(nos, n, j + 1);
    if last == 0 && no == 0 {
      var i :| 0 <= i < j <= |later| && later[i] > 0;
      assert nos[i + 1] > 0;
    } else if last == 0 {
      assert nos[0] > 0;
    }
  }

  lemma PassedEarlier(last: nat, no: nat, later: seq<nat>, n: nat, j: nat)
    requires no <= n && last < n && Jumps([no] + later, n, j) && (last > 0 || Started([no] + later, j))
    ensures no < n && PassedOver(Max(last, no), later, n)
  {
    var nos := [no] + later;
    assert nos[0] < n;
    assert forall i :: 0 <= i < j - 1 ==> later[i] == nos[i + 1];
    assert Jumps(later, n, j - 1);
    if last == 0 && no == 0 {
      var i :| 0 <= i < j <= |nos| && nos[i] > 0;
      assert later[i - 1] > 0;
    }
  }

  lemma {:induction false} SkipsOnce(d: nat, from: nat, until: nat, n: nat)
    ensures Times(SkipsFrom(d, from, until), SeqSkipped(SegKey(d, n))) == if from <= n < until then 1 else 0
    decreases until - from
  {
    if from < until {
      SkipsOnce(d, from + 1, until, n);
      TimesConcat([SeqSkipped(SegKey(d, from))], SkipsFrom(d, from + 1, until), SeqSkipped(SegKey(d, n)));
    }
  }

  lemma {:induction false} SkipsElsewhere(d: nat, from: nat, until: nat, e: Event)
    requires !e.SeqSkipped? || e.key.dev != d
    ensures Times(SkipsFrom(d, from, until), e) == 0
    decreases until - from
  {
    if from < until {
      SkipsElsewhere(d, from + 1, until, e);
    }
  }

  lemma SkipTimes(s: Buffers, k: SegKey, d: nat, n: nat)
    ensures Times(Skips(s, k), SeqSkipped(SegKey(d, n)))
         == if k.dev == d && 0 < LastSeq(s, d) < n < k.no then 1 else 0
  {
    if k.dev == d {
      SkipsOnce(d, LastSeq(s, d) + 1, k.no, n);
    } else {
      SkipsElsewhere(k.dev, LastSeq(s, k.dev) + 1, k.no, SeqSkipped(SegKey(d, n)));
    }
  }

  /** A seal reports its skips, and one event of its own if it knows the segment. */
  lemma SealTimes(s: Buffers, k: SegKey, size: nat, e: Event)
    requires !e.Sealed? && !e.SealGap?
    ensures Times(Seal(s, k, size).events, e) == Times(Skips(s, k), e)
  {
    TimesConcat(Skips(s, k), [Sealed(k, size)], e);
    if k in s.segs {
      TimesConcat(Skips(s, k), [SealGap(k, s.segs[k].next, size)], e);
    }
  }

  lemma SealMark(s: Buffers, k: SegKey, size: nat, d: nat)
    ensures LastSeq(Seal(s, k, size).s, d) == if k.dev == d then Max(LastSeq(s, d), k.no) else LastSeq(s, d)
  {}

  lemma SealSkips(s: Buffers, k: SegKey, size: nat, d: nat, n: nat)
    ensures Times(Seal(s, k, size).events, SeqSkipped(SegKey(d, n)))
         == if k.dev == d && 0 < LastSeq(s, d) < n < k.no then 1 else 0
    ensures LastSeq(Seal(s, k, size).s, d) == if k.dev == d then Max(LastSeq(s, d), k.no) else LastSeq(s, d)
  {
    SkipTimes(s, k, d, n);
    SealTimes(s, k, size, SeqSkipped(SegKey(d, n)));
    SealMark(s, k, size, d);
  }

  lemma {:induction false} DrainKeepsMarks(s: Buffers, k: SegKey)
    ensures Drain(s, k).s.lastSeq == s.lastSeq
    decreases |SegOf(s, k).pending|
  {
    if Drainable(s, k) {
      Smaller(s.segs[k].pending, s.segs[k].next);
      DrainKeepsMarks(DrainStep(s, k), k);
    }
  }

  lemma AdmitKeepsMarks(b: Budgets, s: Buffers, k: SegKey, p: Piece, dv: Option<Victim>, gv: Option<Victim>)
    requires LegalVictims(b, s, k, p, dv, gv)
    ensures Admit(b, s, k, p, dv, gv).s.lastSeq == s.lastSeq
  {
    DrainKeepsMarks(Store(MakeRoom(b, MakeRoomInDev(b, s, k, p, dv).s, p, gv).s, k, p), k);
  }

  lemma ChunkSkips(b: Budgets, s: Buffers, op: Op, e: Event)
    requires LegalOp(b, s, op) && op.Chunk? && e.SeqSkipped?
    ensures e !in Apply(b, s, op).events && Apply(b, s, op).s.lastSeq == s.lastSeq
  {
    var k := op.key;
    if k.dev !in s.quarantined && BringsNew(s, k, op.offset, op.data) && !NoRoom(b, s, k, op.offset, op.data) {
      AdmitEvents(b, s, k, Trimmed(s, k, op.offset, op.data), op.dv, op.gv);
      AdmitKeepsMarks(b, s, k, Trimmed(s, k, op.offset, op.data), op.dv, op.gv);
    }
  }

  /** Over a run a segment number is announced as skipped at most once, and exactly when the first seal with
      a number from it on lies past it and another seal of the device came before. */
  lemma {:induction false} SkippedExactly(b: Budgets, s: Buffers, ops: seq<Op>, d: nat, n: nat)
    requires LegalRun(b, s, ops)
    ensures Times(Run(b, s, ops).events, SeqSkipped(SegKey(d, n)))
         == if PassedOver(LastSeq(s, d), SealedNumbers(ops, d), n) then 1 else 0
    decreases |ops|
  {
    if ops != [] {
      var o, e := Apply(b, s, ops[0]), SeqSkipped(SegKey(d, n));
      SkippedExactly(b, o.s, ops[1..], d, n);
      TimesConcat(o.events, Run(b, o.s, ops[1..]).events, e);
      match ops[0] {
        case Chunk(_, _, _, _, _) => ChunkSkips(b, s, ops[0], e);
        case SealAt(k, size) =>
          SealSkips(s, k, size, d, n);
          if k.dev == d {
            PassedNext(LastSeq(s, d), k.no, SealedNumbers(ops[1..], d), n);
          }
        case Clock(_) =>
      }
    }
  }

  // ---- Repeats ----

  lemma {:induction false} DrainKeepsDups(s: Buffers, k: SegKey, j: SegKey)
    ensures var t := Drain(s, k).s; t.segs.Keys == s.segs.Keys && SegOf(t, j).dups == SegOf(s, j).dups
    decreases |SegOf(s, k).pending|
  {
    if Drainable(s, k) {
      Smaller(s.segs[k].pending, s.segs[k].next);
      DrainKeepsDups(DrainStep(s, k), k, j);
    }
  }

  /** Segment `j` is known on both sides, with the same counter of repeats. */
  predicate SameDups(s: Buffers, t: Buffers, j: SegKey) {
    j in s.segs && j in t.segs && t.segs[j].dups == s.segs[j].dups
  }

  lemma RoomInDevKeepsDups(b: Budgets, s: Buffers, k: SegKey, p: Piece, dv: Option<Victim>, j: SegKey)
    requires j in s.segs && (OverL25(b, s, k, p) && dv.Some? ==> Holds(s, dv.value))
    ensures SameDups(s, MakeRoomInDev(b, s, k, p, dv).s, j)
  {}

  lemma RoomKeepsDups(b: Budgets, s: Buffers, p: Piece, gv: Option<Victim>, j: SegKey)
    requires j in s.segs && (OverL3(b, s, p) && gv.Some? ==> Holds(s, gv.value))
    ensures SameDups(s, MakeRoom(b, s, p, gv).s, j)
  {}

  lemma StoreKeepsDups(s: Buffers, k: SegKey, p: Piece, j: SegKey)
    requires j in s.segs
    ensures SameDups(s, Drain(Store(s, k, p), k).s, j)
  {
    DrainKeepsDups(Store(s, k, p), k, j);
  }

  lemma AdmitKeepsDups(b: Budgets, s: Buffers, k: SegKey, p: Piece, dv: Option<Victim>, gv: Option<Victim>, j: SegKey)
    requires LegalVictims(b, s, k, p, dv, gv) && j in s.segs
    ensures SameDups(s, Admit(b, s, k, p, dv, gv).s, j)
  {
    var s1 := MakeRoomInDev(b, s, k, p, dv).s;
    RoomInDevKeepsDups(b, s, k, p, dv, j);
    RoomKeepsDups(b, s1, p, gv, j);
    StoreKeepsDups(MakeRoom(b, s1, p, gv).s, k, p, j);
  }

  lemma ServedDups(b: Budgets, s: Buffers, op: Op, j: SegKey)
    requires LegalOp(b, s, op) && op.Chunk? && j in s.segs && op.key.dev !in s.quarantined
    requires BringsNew(s, op.key, op.offset, op.data) && !NoRoom(b, s, op.key, op.offset, op.data)
    ensures SameDups(s, Apply(b, s, op).s, j) && Dup(j) !in Apply(b, s, op).events
  {
    var p := Trimmed(s, op.key, op.offset, op.data);
    AdmitKeepsDups(b, s, op.key, p, op.dv, op.gv, j);
    AdmitEvents(b, s, op.key, p, op.dv, op.gv);
  }

  lemma RefusedDups(s: Buffers, k: SegKey, j: SegKey)
    requires j in s.segs
    ensures SameDups(s, MarkError(s, k).s, j) && Dup(j) !in MarkError(s, k).events
  {}

  lemma PlaceDups(b: Budgets, s: Buffers, op: Op, j: SegKey)
    requires LegalOp(b, s, op) && op.Chunk? && j in s.segs
    ensures var o := Apply(b, s, op);
            j in o.s.segs && o.s.segs[j].dups == s.segs[j].dups + Times(o.events, Dup(j))
  {
    var k := op.key;
    if k.dev in s.quarantined {
      assert Times(Apply(b, s, op).events, Dup(j)) == 0;
    } else if NoRoom(b, s, k, op.offset, op.data) {
      RefusedDups(s, k, j);
    } else if BringsNew(s, k, op.offset, op.data) {
      ServedDups(b, s, op, j);
    } else {
      assert Apply(b, s, op) == Out(CountDup(s, k), [Dup(k)]);
    }
  }

  lemma SealDups(s: Buffers, k: SegKey, size: nat, j: SegKey)
    requires j in s.segs && Sealed(j, size) !in Seal(s, k, size).events
    ensures SameDups(s, Seal(s, k, size).s, j) && Times(Seal(s, k, size).events, Dup(j)) == 0
  {
    SealTimes(s, k, size, Dup(j));
    SkipsElsewhere(k.dev, LastSeq(s, k.dev) + 1, k.no, Dup(j));
    if k in s.segs {
      SealExactly(s, k, size);
    }
  }

  lemma ApplyDups(b: Budgets, s: Buffers, op: Op, j: SegKey)
    requires LegalOp(b, s, op) && j in s.segs && forall size :: Sealed(j, size) !in Apply(b, s, op).events
    ensures var o := Apply(b, s, op);
            j in o.s.segs && o.s.segs[j].dups == s.segs[j].dups + Times(o.events, Dup(j))
  {
    match op {
      case Chunk(_, _, _, _, _) => PlaceDups(b, s, op, j);
      case SealAt(k, size) => SealDups(s, k, size, j);
      case Clock(_) =>
    }
  }

  /** While a segment is not released, its counter of repeats grows by one with each repeat reported. */
  lemma {:induction false} DupsAreCounted(b: Budgets, s: Buffers, ops: seq<Op>, j: SegKey)
    requires LegalRun(b, s, ops) && j in s.segs && forall size :: Sealed(j, size) !in Run(b, s, ops).events
    ensures var o := Run(b, s, ops);
            j in o.s.segs && o.s.segs[j].dups == s.segs[j].dups + Times(o.events, Dup(j))
    decreases |ops|
  {
    if ops != [] {
      var o := Apply(b, s, ops[0]);
      var rest := Run(b, o.s, ops[1..]);
      assert forall e :: e in o.events || e in rest.events ==> e in Run(b, s, ops).events;
      ApplyDups(b, s, ops[0], j);
      DupsAreCounted(b, o.s, ops[1..], j);
      TimesConcat(o.events, rest.events, Dup(j));
    }
  }
}
