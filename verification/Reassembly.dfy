/** The reassembler as a function on values: placing a chunk, draining, the three byte budgets,
    eviction, quarantine and sealing. Where the program walks a hash map and keeps the first of
    equally old chunks, the choice is an argument, so every statement holds for every choice. */
module Reassembly {
  import opened Common
  import opened Sums

  datatype SegKey = SegKey(dev: nat, no: nat)

  datatype SegState = New | Unfinished | Closed | Skipped | Error

  datatype Event =
    | Append(key: SegKey, offset: nat, data: seq<byte>)
    | Dup(key: SegKey)
    | Gap(key: SegKey, start: nat)
    | Sealed(key: SegKey, size: nat)
    | SealGap(key: SegKey, next: nat, size: nat)
    | SeqSkipped(key: SegKey)
    | SegmentError(key: SegKey)
    | Evict(key: SegKey, offset: nat, bytes: nat)
    | Quarantine(dev: nat)
    | QuarantinedDrop(dev: nat, bytes: nat)

  datatype Budgets = Budgets(l2: nat, l25: nat, l3: nat, window: nat, threshold: nat)

  /** One segment: the head `next`, the chunks waiting beyond it, and the byte counter of the latter. */
  datatype Seg = Seg(
    state: SegState, next: nat, sealedSize: Option<nat>,
    pending: map<nat, seq<byte>>, bytes: nat, dups: nat)

  const BLANK_SEG := Seg(New, 0, None, map[], 0, 0)

  datatype EvictState = EvictState(streak: nat, windowStart: nat)

  datatype Buffers = Buffers(
    segs: map<SegKey, Seg>,
    conn: map<nat, nat>,
    quarantined: set<nat>,
    evict: map<nat, EvictState>,
    global: nat,
    lastSeq: map<nat, nat>,
    now: nat)

  const EMPTY := Buffers(map[], map[], {}, map[], 0, map[], 0)

  datatype Out = Out(s: Buffers, events: seq<Event>)

  datatype Victim = Victim(key: SegKey, offset: nat)

  function ConnOf(s: Buffers, d: nat): nat { if d in s.conn then s.conn[d] else 0 }

  function SegOf(s: Buffers, k: SegKey): Seg { if k in s.segs then s.segs[k] else BLANK_SEG }

  function Put(s: Buffers, k: SegKey, g: Seg): Buffers { s.(segs := s.segs[k := g]) }

  /** Gives `sz` bytes of device `d` back to the connection and the global counter. */
  function Credit(s: Buffers, d: nat, sz: nat): Buffers {
    s.(global := SatSub(s.global, sz),
       conn := if d in s.conn then s.conn[d := SatSub(s.conn[d], sz)] else s.conn)
  }

  // ---- Draining ----

  predicate Drainable(s: Buffers, k: SegKey) { k in s.segs && s.segs[k].next in s.segs[k].pending }

  function Popped(g: Seg): Seg
    requires g.next in g.pending
  {
    var sz := |g.pending[g.next]|;
    g.(pending := g.pending - {g.next}, next := g.next + sz, bytes := SatSub(g.bytes, sz), state := Unfinished)
  }

  function DrainStep(s: Buffers, k: SegKey): Buffers
    requires Drainable(s, k)
  {
    Credit(Put(s, k, Popped(s.segs[k])), k.dev, |s.segs[k].pending[s.segs[k].next]|)
  }

  /** `drain_contiguous`: while a chunk waits at the head, append it. */
  function Drain(s: Buffers, k: SegKey): Out
    decreases |SegOf(s, k).pending|
  {
    if !Drainable(s, k) then Out(s, [])
    else
      var g := s.segs[k];
      assert |g.pending - {g.next}| == |g.pending| - 1 by { Smaller(g.pending, g.next); }
      var rest := Drain(DrainStep(s, k), k);
      Out(rest.s, [Append(k, g.next, g.pending[g.next])] + rest.events)
  }

  lemma Smaller<V>(m: map<nat, V>, k: nat)
    requires k in m
    ensures |m - {k}| == |m| - 1
  {
    assert (m - {k}).Keys == m.Keys - {k};
    assert |m.Keys - {k}| == |m.Keys| - 1;
    assert |m| == |m.Keys| && |m - {k}| == |(m - {k}).Keys|;
  }

  // ---- Eviction ----

  /** The oldest chunk of some segment: what one turn of an eviction scan looks at. */
  ghost predicate Candidate(s: Buffers, v: Victim) {
    v.key in s.segs && v.offset in s.segs[v.key].pending
    && forall o :: o in s.segs[v.key].pending ==> v.offset <= o
  }

  ghost predicate NothingPending(s: Buffers, d: nat) {
    forall k :: k in s.segs && k.dev == d ==> s.segs[k].pending == map[]
  }

  /** A possible result of the scan for the oldest chunk of device `d`. */
  ghost predicate OldestInDev(s: Buffers, d: nat, v: Option<Victim>) {
    match v
    case None => NothingPending(s, d)
    case Some(x) =>
      Candidate(s, x) && x.key.dev == d
      && forall y :: Candidate(s, y) && y.key.dev == d ==> x.offset <= y.offset
  }

  /** Quarantined devices first, then the smaller offset. */
  predicate Better(s: Buffers, x: Victim, y: Victim) {
    var qx, qy := x.key.dev in s.quarantined, y.key.dev in s.quarantined;
    (qx && !qy) || (qx == qy && x.offset < y.offset)
  }

  /** A possible result of the scan for the best victim of all. */
  ghost predicate OldestGlobal(s: Buffers, v: Option<Victim>) {
    match v
    case None => forall k :: k in s.segs ==> s.segs[k].pending == map[]
    case Some(x) => Candidate(s, x) && forall y :: Candidate(s, y) ==> !Better(s, y, x)
  }

  predicate Holds(s: Buffers, v: Victim) { v.key in s.segs && v.offset in s.segs[v.key].pending }

  function EvictOne(s: Buffers, v: Victim): Buffers
    requires Holds(s, v)
  {
    var g := s.segs[v.key];
    var sz := |g.pending[v.offset]|;
    Credit(Put(s, v.key, g.(pending := g.pending - {v.offset}, bytes := SatSub(g.bytes, sz))), v.key.dev, sz)
  }

  function EvictEvent(s: Buffers, v: Victim): Event
    requires Holds(s, v)
  {
    Evict(v.key, v.offset, |s.segs[v.key].pending[v.offset]|)
  }

  function NextStreak(b: Budgets, s: Buffers, d: nat): EvictState {
    var st := if d in s.evict then s.evict[d] else EvictState(0, s.now);
    if SatSub(s.now, st.windowStart) > b.window then EvictState(1, s.now) else st.(streak := st.streak + 1)
  }

  function Silenced(g: Seg): Seg { g.(state := Skipped, pending := map[], bytes := 0) }

  function BytesFor(d: nat, k: SegKey, g: Seg): nat { if k.dev == d then g.bytes else 0 }

  function DevBytes(d: nat): (SegKey, Seg) -> nat { (k: SegKey, g: Seg) => BytesFor(d, k, g) }

  function AllBytes(): (SegKey, Seg) -> nat { (k: SegKey, g: Seg) => g.bytes }

  /** `quarantine`. */
  ghost function Quarantined(s: Buffers, d: nat): Buffers {
    s.(quarantined := s.quarantined + {d},
       segs := map k | k in s.segs :: if k.dev == d then Silenced(s.segs[k]) else s.segs[k],
       global := SatSub(s.global, SumBy(s.segs, DevBytes(d))),
       conn := s.conn - {d},
       evict := s.evict - {d})
  }

  /** `evict_oldest_in_dev`, the L2.5 answer: drop one chunk, count it, escalate at the threshold. */
  ghost function EvictInDev(b: Budgets, s: Buffers, d: nat, v: Option<Victim>): Out
    requires v.Some? ==> Holds(s, v.value)
  {
    match v
    case None => Out(s, [])
    case Some(x) =>
      var st := NextStreak(b, s, d);
      var s1 := EvictOne(s, x).(evict := s.evict[d := st]);
      if st.streak >= b.threshold && d !in s.quarantined then
        Out(Quarantined(s1, d), [EvictEvent(s, x), Quarantine(d)])
      else Out(s1, [EvictEvent(s, x)])
  }

  /** `evict_oldest_global`, the L3 answer. */
  function EvictGlobal(s: Buffers, v: Option<Victim>): Out
    requires v.Some? ==> Holds(s, v.value)
  {
    match v
    case None => Out(s, [])
    case Some(x) => Out(EvictOne(s, x), [EvictEvent(s, x)])
  }

  // ---- Placing ----

  /** A chunk with the part below the head cut off. */
  datatype Piece = Piece(offset: nat, data: seq<byte>)

  predicate Covered(s: Buffers, k: SegKey, offset: nat, data: seq<byte>) {
    offset + |data| <= SegOf(s, k).next
  }

  function Trimmed(s: Buffers, k: SegKey, offset: nat, data: seq<byte>): Piece
    requires !Covered(s, k, offset, data)
  {
    var next := SegOf(s, k).next;
    if offset < next then Piece(next, data[next - offset..]) else Piece(offset, data)
  }

  function CountDup(s: Buffers, k: SegKey): Buffers {
    if k in s.segs then Put(s, k, s.segs[k].(dups := s.segs[k].dups + 1)) else s
  }

  predicate OverL2(b: Budgets, s: Buffers, k: SegKey, p: Piece) {
    p.offset > SegOf(s, k).next && SegOf(s, k).bytes + |p.data| > b.l2
  }

  predicate OverL25(b: Budgets, s: Buffers, k: SegKey, p: Piece) {
    p.offset > SegOf(s, k).next && ConnOf(s, k.dev) + |p.data| > b.l25
  }

  predicate OverL3(b: Budgets, s: Buffers, p: Piece) { s.global + |p.data| > b.l3 }

  /** `mark_segment_error`. */
  function MarkError(s: Buffers, k: SegKey): Out {
    var s1 :=
      if k in s.segs then
        Credit(Put(s, k, s.segs[k].(state := Error, pending := map[], bytes := 0)), k.dev, s.segs[k].bytes)
      else s;
    Out(s1, [SegmentError(k), Gap(k, SegOf(s, k).next)])
  }

  /** Inserts the piece, replacing a chunk at the same offset, and counts its bytes. */
  function Store(s: Buffers, k: SegKey, p: Piece): Buffers {
    var g := SegOf(s, k);
    var g1 := g.(bytes := g.bytes + |p.data|, pending := g.pending[p.offset := p.data]);
    Put(s, k, g1).(
      global := s.global + |p.data|,
      conn := s.conn[k.dev := ConnOf(s, k.dev) + |p.data|])
  }

  ghost function MakeRoomInDev(b: Budgets, s: Buffers, k: SegKey, p: Piece, dv: Option<Victim>): Out
    requires OverL25(b, s, k, p) && dv.Some? ==> Holds(s, dv.value)
  {
    if OverL25(b, s, k, p) then EvictInDev(b, s, k.dev, dv) else Out(s, [])
  }

  function MakeRoom(b: Budgets, s: Buffers, p: Piece, gv: Option<Victim>): Out
    requires OverL3(b, s, p) && gv.Some? ==> Holds(s, gv.value)
  {
    if OverL3(b, s, p) then EvictGlobal(s, gv) else Out(s, [])
  }

  /** The victims are ones the scans may return. */
  ghost predicate LegalVictims(b: Budgets, s: Buffers, k: SegKey, p: Piece, dv: Option<Victim>, gv: Option<Victim>) {
    && (OverL25(b, s, k, p) ==> OldestInDev(s, k.dev, dv))
    && (var s1 := MakeRoomInDev(b, s, k, p, dv).s; OverL3(b, s1, p) ==> OldestGlobal(s1, gv))
  }

  /** The tail of `place_chunk`, for a piece that is new and within L2. */
  ghost function Admit(b: Budgets, s: Buffers, k: SegKey, p: Piece, dv: Option<Victim>, gv: Option<Victim>): Out
    requires LegalVictims(b, s, k, p, dv, gv)
  {
    var o1 := MakeRoomInDev(b, s, k, p, dv);
    var o2 := MakeRoom(b, o1.s, p, gv);
    var o3 := Drain(Store(o2.s, k, p), k);
    Out(o3.s, o1.events + o2.events + o3.events)
  }

  ghost predicate Legal(b: Budgets, s: Buffers, k: SegKey, offset: nat, data: seq<byte>,
                        dv: Option<Victim>, gv: Option<Victim>)
  {
    k.dev in s.quarantined || Covered(s, k, offset, data)
    || var p := Trimmed(s, k, offset, data);
       OverL2(b, s, k, p) || LegalVictims(b, s, k, p, dv, gv)
  }

  /** `place_chunk`. */
  ghost function Place(b: Budgets, s: Buffers, k: SegKey, offset: nat, data: seq<byte>,
                       dv: Option<Victim>, gv: Option<Victim>): Out
    requires Legal(b, s, k, offset, data, dv, gv)
  {
    if k.dev in s.quarantined then Out(s, [QuarantinedDrop(k.dev, |data|)])
    else if Covered(s, k, offset, data) then Out(CountDup(s, k), [Dup(k)])
    else
      var p := Trimmed(s, k, offset, data);
      if OverL2(b, s, k, p) then MarkError(s, k) else Admit(b, s, k, p, dv, gv)
  }

  // ---- Sealing ----

  function LastSeq(s: Buffers, d: nat): nat { if d in s.lastSeq then s.lastSeq[d] else 0 }

  function SkipsFrom(d: nat, from: nat, until: nat): (r: seq<Event>)
    ensures |r| == if from < until then until - from else 0
    ensures forall i :: 0 <= i < |r| ==> r[i] == SeqSkipped(SegKey(d, from + i))
    decreases until - from
  {
    if from >= until then [] else [SeqSkipped(SegKey(d, from))] + SkipsFrom(d, from + 1, until)
  }

  /** Segment numbers that never arrived, when this seal jumps ahead of the last one seen. */
  function Skips(s: Buffers, k: SegKey): seq<Event> {
    var last := LastSeq(s, k.dev);
    if k.no > 0 && last > 0 && k.no > last + 1 then SkipsFrom(k.dev, last + 1, k.no) else []
  }

  function Release(s: Buffers, k: SegKey): Buffers
    requires k in s.segs
  {
    Credit(s.(segs := s.segs - {k}), k.dev, s.segs[k].bytes)
  }

  /** `seal`. */
  function Seal(s: Buffers, k: SegKey, size: nat): Out {
    var s1 := if k.no > LastSeq(s, k.dev) then s.(lastSeq := s.lastSeq[k.dev := k.no]) else s;
    var skips := Skips(s, k);
    if k !in s.segs then Out(s1, skips)
    else if s.segs[k].next == size then Out(Release(s1, k), skips + [Sealed(k, size)])
    else Out(Put(s1, k, s1.segs[k].(sealedSize := Some(size))), skips + [SealGap(k, s.segs[k].next, size)])
  }

  // ---- Runs ----

  datatype Op =
    | Chunk(key: SegKey, offset: nat, data: seq<byte>, dv: Option<Victim>, gv: Option<Victim>)
    | SealAt(key: SegKey, size: nat)
    | Clock(now: nat)

  ghost predicate LegalOp(b: Budgets, s: Buffers, op: Op) {
    op.Chunk? ==> Legal(b, s, op.key, op.offset, op.data, op.dv, op.gv)
  }

  ghost function Apply(b: Budgets, s: Buffers, op: Op): Out
    requires LegalOp(b, s, op)
  {
    match op
    case Chunk(k, offset, data, dv, gv) => Place(b, s, k, offset, data, dv, gv)
    case SealAt(k, size) => Seal(s, k, size)
    case Clock(now) => Out(s.(now := now), [])
  }

  ghost predicate LegalRun(b: Budgets, s: Buffers, ops: seq<Op>)
    decreases |ops|
  {
    ops == [] || (LegalOp(b, s, ops[0]) && LegalRun(b, Apply(b, s, ops[0]).s, ops[1..]))
  }

  /** State and all events after a run. */
  ghost function Run(b: Budgets, s: Buffers, ops: seq<Op>): Out
    requires LegalRun(b, s, ops)
    decreases |ops|
  {
    if ops == [] then Out(s, [])
    else
      var o := Apply(b, s, ops[0]);
      var rest := Run(b, o.s, ops[1..]);
      Out(rest.s, o.events + rest.events)
  }
}
