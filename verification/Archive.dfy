/** Epoch boundaries and pruning. Every frozen epoch has a boundary row written just before it was
    frozen; a windowed query may skip the epochs whose boundary misses the window. */
module Archives {
  import opened Common
  import opened Ordering
  import opened Codec
  import opened KeyCodec
  import opened Store
  import opened Qr
  import opened QrLockstep
  import opened QrDurability
  import opened Ttl
  import opened TtlScans
  import opened Query

  // ---- What every epoch keeps ----

  /** Every request index row stands beside the record it was opened by, and every QR_PAIR row carries
      a terminal status. */
  ghost predicate Indexed(e: Epoch) {
    && (forall h, ts, q :: KConnQr(h, ts, q) in e ==> KRecord(ts, q) in e)
    && (forall ts, q :: KQrTime(ts, q) in e ==> KRecord(ts, q) in e)
    && TerminalRows(e)
  }

  lemma MigrateIndexed(t: Txns, q: nat, o: Outcome)
    requires Indexed(t.epoch) && Terminal(o)
    ensures Indexed(Migrate(t, q, o).epoch)
    ensures Sub(t.epoch, Migrate(t, q, o).epoch)
  {}

  lemma Exec1Indexed(t: Txns, pr: Prim, h: nat, r: IndexedRecord)
    requires Indexed(t.epoch) && KRecord(r.rec.ts, r.Idx()) in t.epoch && ProperPrim(pr, h, r)
    ensures Indexed(Exec1(t, pr).epoch) && KRecord(r.rec.ts, r.Idx()) in Exec1(t, pr).epoch
  {
    if pr.Settle? {
      MigrateIndexed(t, pr.sq, pr.outcome);
    }
  }

  lemma {:induction false} ExecIndexed(t: Txns, ps: seq<Prim>, h: nat, r: IndexedRecord)
    requires Indexed(t.epoch) && KRecord(r.rec.ts, r.Idx()) in t.epoch && Proper(ps, h, r)
    ensures Indexed(Exec(t, ps).epoch)
    decreases |ps|
  {
    if ps != [] {
      Exec1Indexed(t, ps[0], h, r);
      ExecIndexed(Exec1(t, ps[0]), ps[1..], h, r);
    }
  }

  lemma IngestIndexed(p: Params, b: Batch, r: IndexedRecord)
    requires Indexed(b.t.epoch)
    ensures Indexed(Ingest(p, b, r).t.epoch)
  {
    var t := Logged(b.t, r);
    assert Indexed(t.epoch) && KRecord(r.rec.ts, r.Idx()) in t.epoch;
    if r.rec.proto == TCP {
      var (h, dir) := Locate(p, b, r);
      ProcessByPlan(p, t, StateFor(b, h, r), h, dir, r);
      var ps: seq<Prim> :| Proper(ps, h, r) && Ingest(p, b, r).t == Exec(t, ps);
      ExecIndexed(t, ps, h, r);
    }
  }

  lemma {:induction false} IngestAllIndexed(p: Params, b: Batch, rs: seq<IndexedRecord>)
    requires Indexed(b.t.epoch)
    ensures Indexed(IngestAll(p, b, rs).t.epoch)
    decreases |rs|
  {
    if rs != [] {
      IngestIndexed(p, b, rs[0]);
      IngestAllIndexed(p, Ingest(p, b, rs[0]), rs[1..]);
    }
  }

  lemma {:induction false} VisitAllIndexed(c: Timeouts, now: nat, s: Sweep, ks: seq<TtlKey>, ttl: map<TtlKey, TtlVal>)
    requires Indexed(s.t.epoch) && forall i :: 0 <= i < |ks| ==> ks[i] in ttl
    ensures Indexed(VisitAll(c, now, s, ks, ttl).t.epoch)
    decreases |ks|
  {
    if ks != [] {
      MigrateIndexed(s.t, ttl[ks[0]].q, Ended(TIMEOUT));
      VisitAllIndexed(c, now, Visit(c, now, s, ks[0], ttl[ks[0]].q), ks[1..], ttl);
    }
  }

  lemma ScanIndexed(c: Timeouts, now: nat, t: Txns)
    requires Indexed(t.epoch)
    ensures Indexed(TtlScan(c, now, t).epoch)
  {
    if c.qrSecs != 0 {
      var ks := TtlKeys(t.live.ttl, c.ScanHi(now));
      assert forall i :: 0 <= i < |ks| ==> ks[i] in ks;
      VisitAllIndexed(c, now, Sweep(t, map[], 0, 0), ks, t.live.ttl);
    }
  }

  lemma TakeIndexed(p: Params, d: Durable, s: Step)
    requires Indexed(d.epoch)
    ensures Indexed(QrDurability.Take(p, d, s).epoch)
  {
    if s.BatchStep? {
      IngestAllIndexed(p, Begin(d.live, d.epoch), s.rs);
    } else if s.ScanStep? {
      ScanIndexed(s.c, s.now, Txns(d.live, d.epoch));
    }
  }

  // ---- Boundaries ----

  datatype Boundary = Boundary(minTs: Option<nat>, maxTs: Option<nat>, count: nat)

  datatype RecordKey = RecordKey(ts: nat, idx: nat)

  predicate RecordLt(a: RecordKey, b: RecordKey) { a.ts < b.ts || (a.ts == b.ts && a.idx < b.idx) }

  ghost function RecordKeys(e: Epoch): set<RecordKey> {
    set k | k in e && k.KRecord? :: RecordKey(k.ts, k.idx)
  }

  lemma RecordOrder()
    ensures StrictOrder(RecordLt)
  {}

  /** `current_epoch_bounds`: times of the first and the last RECORD_TS key, and their number. */
  ghost function CurrentBounds(e: Epoch): Boundary {
    RecordOrder();
    var ks := Ascend(RecordLt, RecordKeys(e));
    if ks == [] then Boundary(None, None, 0) else Boundary(Some(ks[0].ts), Some(ks[|ks| - 1].ts), |ks|)
  }

  lemma RecordKeysAre(e: Epoch, ts: nat, idx: nat)
    ensures RecordKey(ts, idx) in RecordKeys(e) <==> KRecord(ts, idx) in e
  {}

  /** An epoch without records has no boundary; another one has that of its first and last keys. */
  lemma BoundsAre(e: Epoch) returns (first: RecordKey, last: RecordKey)
    ensures var b, keys := CurrentBounds(e), RecordKeys(e);
            if keys == {} then b == Boundary(None, None, 0)
            else b == Boundary(Some(first.ts), Some(last.ts), |keys|)
                 && IsLeast(RecordLt, keys, first) && IsGreatest(RecordLt, keys, last)
  {
    RecordOrder();
    var keys := RecordKeys(e);
    var ks := Ascend(RecordLt, keys);
    if keys == {} {
      assert ks == [];
      first, last := RecordKey(0, 0), RecordKey(0, 0);
    } else {
      AscendEnds(RecordLt, keys);
      first, last := ks[0], ks[|ks| - 1];
    }
  }

  /** The boundary of an epoch: the number of its records, and the earliest and latest of their times if
      there is one. */
  lemma BoundsExactly(e: Epoch)
    ensures var b := CurrentBounds(e);
            && b.count == |RecordKeys(e)| && (b.count == 0 <==> b.minTs == None) && (b.count == 0 <==> b.maxTs == None)
            && (forall ts, idx :: KRecord(ts, idx) in e ==> Within(b, ts))
            && (b.minTs.Some? ==> exists idx :: KRecord(b.minTs.value, idx) in e)
            && (b.maxTs.Some? ==> exists idx :: KRecord(b.maxTs.value, idx) in e)
  {
    var first, last := BoundsAre(e);
    forall ts, idx | KRecord(ts, idx) in e ensures Within(CurrentBounds(e), ts) {
      RecordKeysAre(e, ts, idx);
    }
    RecordKeysAre(e, first.ts, first.idx);
    RecordKeysAre(e, last.ts, last.idx);
  }

  predicate Within(b: Boundary, ts: nat) { b.minTs.Some? && b.maxTs.Some? && b.minTs.value <= ts <= b.maxTs.value }

  /** The boundary covers every time stamp a windowed scan may ask for. */
  ghost predicate Covers(b: Boundary, e: Epoch) {
    && (forall ts, idx :: KRecord(ts, idx) in e ==> Within(b, ts))
    && (forall h, ts, q :: KConnQr(h, ts, q) in e ==> Within(b, ts))
    && (forall ts, q :: KQrTime(ts, q) in e ==> Within(b, ts))
  }

  lemma RecordWithin(e: Epoch, ts: nat, idx: nat)
    requires KRecord(ts, idx) in e
    ensures Within(CurrentBounds(e), ts)
  {
    RecordOrder();
    assert RecordKey(ts, idx) in RecordKeys(e);
    BetweenEnds(RecordLt, RecordKeys(e), RecordKey(ts, idx));
  }

  lemma BoundsCover(e: Epoch)
    requires Indexed(e)
    ensures Covers(CurrentBounds(e), e)
  {
    forall ts, idx | KRecord(ts, idx) in e ensures Within(CurrentBounds(e), ts) {
      RecordWithin(e, ts, idx);
    }
    forall h, ts, q | KConnQr(h, ts, q) in e ensures Within(CurrentBounds(e), ts) {
      RecordWithin(e, ts, q);
    }
    forall ts, q | KQrTime(ts, q) in e ensures Within(CurrentBounds(e), ts) {
      RecordWithin(e, ts, q);
    }
  }

  // ---- The system with boundaries ----

  /** Durable stores plus the ledger's boundary rows; epoch `i` is the `i`-th in order. */
  datatype Archive = Archive(d: Durable, bounds: map<nat, Boundary>)

  /** Work on the stores; the boundary written and the process stopped before the rotation; or both. */
  datatype Move = Work(step: Step) | MarkOnly | MarkAndRotate

  ghost function Marked(a: Archive): Archive {
    a.(bounds := a.bounds[|a.d.past| := CurrentBounds(a.d.epoch)])
  }

  ghost function Act(p: Params, a: Archive, m: Move): Archive {
    match m
    case Work(s) => if s.RotateStep? then a else a.(d := QrDurability.Take(p, a.d, s))
    case MarkOnly => Marked(a)
    case MarkAndRotate => Marked(a).(d := QrDurability.Take(p, a.d, RotateStep))
  }

  ghost function ActAll(p: Params, a: Archive, ms: seq<Move>): Archive
    decreases |ms|
  {
    if ms == [] then a else ActAll(p, Act(p, a, ms[0]), ms[1..])
  }

  ghost predicate FiledAt(a: Archive, i: nat)
    requires i < |a.d.past|
  {
    Indexed(a.d.past[i]) && i in a.bounds && Covers(a.bounds[i], a.d.past[i])
  }

  /** Every frozen epoch has a boundary row that covers it. */
  ghost predicate Filed(a: Archive) {
    && Indexed(a.d.epoch)
    && forall i :: 0 <= i < |a.d.past| ==> FiledAt(a, i)
  }

  lemma RotatedFiled(a: Archive)
    requires Filed(a)
    ensures Filed(Marked(a))
    ensures var z := Marked(a); Filed(z.(d := Durable(z.d.live, z.d.past + [z.d.epoch], map[])))
  {
    var z := Marked(a);
    forall i | 0 <= i < |a.d.past| ensures FiledAt(z, i) {
      assert FiledAt(a, i);
    }
    var t := z.(d := Durable(z.d.live, z.d.past + [z.d.epoch], map[]));
    BoundsCover(a.d.epoch);
    forall i | 0 <= i < |t.d.past| ensures FiledAt(t, i) {
      assert i < |z.d.past| ==> FiledAt(z, i);
    }
    NothingIndexed();
  }

  lemma NothingIndexed()
    ensures Indexed(map[])
  {}

  lemma WorkFiled(p: Params, a: Archive, s: Step)
    requires Filed(a) && !s.RotateStep?
    ensures Filed(a.(d := QrDurability.Take(p, a.d, s)))
  {
    TakeIndexed(p, a.d, s);
    var z := a.(d := QrDurability.Take(p, a.d, s));
    assert z.d.past == a.d.past;
    forall i | 0 <= i < |z.d.past| ensures FiledAt(z, i) {
      assert FiledAt(a, i);
    }
  }

  lemma ActKeepsFiled(p: Params, a: Archive, m: Move)
    requires Filed(a)
    ensures Filed(Act(p, a, m))
  {
    if m.Work? {
      if !m.step.RotateStep? {
        WorkFiled(p, a, m.step);
      }
    } else {
      RotatedFiled(a);
    }
  }

  /** In every reachable state, stops between the boundary write and the rotation included, every
      frozen epoch is covered by its boundary row. */
  lemma {:induction false} FrozenAreCovered(p: Params, a: Archive, ms: seq<Move>)
    requires Filed(a)
    ensures Filed(ActAll(p, a, ms))
    decreases |ms|
  {
    if ms != [] {
      ActKeepsFiled(p, a, ms[0]);
      FrozenAreCovered(p, Act(p, a, ms[0]), ms[1..]);
    }
  }

  /** From an archive without epochs, every frozen epoch of every reachable state is covered. */
  lemma CoveredFromNothing(p: Params, live: Live, ms: seq<Move>)
    ensures Filed(ActAll(p, Archive(Durable(live, [], map[]), map[]), ms))
  {
    NothingIndexed();
    FrozenAreCovered(p, Archive(Durable(live, [], map[]), map[]), ms);
  }

  /** A restart after a rotation that failed once it had created the next epoch's directory: the registry
      opens the highest epoch, so the old one is frozen with the boundary written before the failure. */
  ghost function Overtaken(a: Archive): Archive {
    a.(d := Durable(a.d.live, a.d.past + [a.d.epoch], map[]))
  }

  /** They stay covered exactly when that boundary still covers the old epoch as it is now. */
  lemma OvertakenFiled(a: Archive)
    requires Filed(a) && |a.d.past| in a.bounds
    ensures Filed(Overtaken(a)) <==> Covers(a.bounds[|a.d.past|], a.d.epoch)
  {
    var t, n := Overtaken(a), |a.d.past|;
    assert t.d.past[n] == a.d.epoch;
    NothingIndexed();
    forall i | 0 <= i < n ensures FiledAt(t, i) {
      assert FiledAt(a, i);
    }
    assert Filed(t) ==> FiledAt(t, n);
  }

  ghost predicate AllWork(ms: seq<Move>) { forall i :: 0 <= i < |ms| ==> ms[i].Work? }

  /** Step `s` commits records to the epoch store. */
  predicate Records(s: Step) { s.BatchStep? && s.stop != NothingCommitted }

  /** Every record committed by `ms` has a time within the boundary. */
  ghost predicate TimesWithin(b: Boundary, ms: seq<Move>) {
    forall i, j :: 0 <= i < |ms| && ms[i].Work? && Records(ms[i].step) && 0 <= j < |ms[i].step.rs| ==>
      Within(b, ms[i].step.rs[j].rec.ts)
  }

  ghost predicate RecordedIn(ms: seq<Move>, ts: nat, idx: nat) {
    exists i :: 0 <= i < |ms| && ms[i].Work? && Records(ms[i].step) && RecordedBy(ms[i].step.rs, ts, idx)
  }

  lemma ScanRecords(c: Timeouts, now: nat, t: Txns, key: EKey)
    requires key.KRecord?
    ensures key in TtlScan(c, now, t).epoch <==> key in t.epoch
  {
    if c.qrSecs > 0 {
      ScanIsExact(c, now, t);
      assert SameAt(t.epoch, TtlScan(c, now, t).epoch, key);
    }
  }

  lemma StepRecords(p: Params, d: Durable, s: Step, ts: nat, idx: nat)
    requires !s.RotateStep?
    ensures KRecord(ts, idx) in QrDurability.Take(p, d, s).epoch <==>
              KRecord(ts, idx) in d.epoch || (Records(s) && RecordedBy(s.rs, ts, idx))
  {
    if s.BatchStep? {
      BatchRecordsExactly(p, Begin(d.live, d.epoch), s.rs, ts, idx);
    } else {
      ScanRecords(s.c, s.now, Txns(d.live, d.epoch), KRecord(ts, idx));
    }
  }

  lemma RecordedInSplit(ms: seq<Move>, ts: nat, idx: nat)
    requires ms != []
    ensures RecordedIn(ms, ts, idx) <==>
              (ms[0].Work? && Records(ms[0].step) && RecordedBy(ms[0].step.rs, ts, idx)) || RecordedIn(ms[1..], ts, idx)
  {
    assert forall i :: 0 < i < |ms| ==> ms[i] == ms[1..][i - 1];
    if RecordedIn(ms[1..], ts, idx) {
      var i :| 0 <= i < |ms[1..]| && ms[1..][i].Work? && Records(ms[1..][i].step)
               && RecordedBy(ms[1..][i].step.rs, ts, idx);
      assert ms[i + 1] == ms[1..][i];
    }
  }

  /** Work adds to the epoch the records it commits, moves no boundary and freezes nothing. */
  lemma {:induction false} WorkRecords(p: Params, a: Archive, ms: seq<Move>, ts: nat, idx: nat)
    requires AllWork(ms)
    ensures var z := ActAll(p, a, ms);
            && (KRecord(ts, idx) in z.d.epoch <==> KRecord(ts, idx) in a.d.epoch || RecordedIn(ms, ts, idx))
            && z.bounds == a.bounds && z.d.past == a.d.past
    decreases |ms|
  {
    if ms != [] {
      if !ms[0].step.RotateStep? {
        StepRecords(p, a.d, ms[0].step, ts, idx);
      }
      WorkRecords(p, Act(p, a, ms[0]), ms[1..], ts, idx);
      RecordedInSplit(ms, ts, idx);
    }
  }

  /** Covering is about the records; the request indexes stand beside them. */
  lemma CoversRecords(b: Boundary, e: Epoch)
    requires Indexed(e)
    ensures Covers(b, e) <==> forall ts, idx :: KRecord(ts, idx) in e ==> Within(b, ts)
  {}

  lemma TimesAreRecorded(b: Boundary, ms: seq<Move>)
    ensures TimesWithin(b, ms) <==> forall ts, idx :: RecordedIn(ms, ts, idx) ==> Within(b, ts)
  {
    forall i, j | 0 <= i < |ms| && ms[i].Work? && Records(ms[i].step) && 0 <= j < |ms[i].step.rs|
      ensures RecordedIn(ms, ms[i].step.rs[j].rec.ts, ms[i].step.rs[j].Idx())
    {
      assert RecordedBy(ms[i].step.rs, ms[i].step.rs[j].rec.ts, ms[i].step.rs[j].Idx());
    }
  }

  /** A boundary written for a later freeze survives work in the old epoch if and only if every record
      committed since lies within the times the boundary names. */
  lemma OvertakenExactly(p: Params, a: Archive, ms: seq<Move>)
    requires Filed(a) && AllWork(ms)
    ensures Filed(Overtaken(ActAll(p, Marked(a), ms))) <==> TimesWithin(CurrentBounds(a.d.epoch), ms)
  {
    var b, z := CurrentBounds(a.d.epoch), ActAll(p, Marked(a), ms);
    RotatedFiled(a);
    FrozenAreCovered(p, Marked(a), ms);
    WorkRecords(p, Marked(a), ms, 0, 0);
    OvertakenFiled(z);
    CoversRecords(b, z.d.epoch);
    TimesAreRecorded(b, ms);
    forall ts, idx
      ensures KRecord(ts, idx) in z.d.epoch <==> KRecord(ts, idx) in a.d.epoch || RecordedIn(ms, ts, idx)
      ensures KRecord(ts, idx) in a.d.epoch ==> Within(b, ts)
    {
      WorkRecords(p, Marked(a), ms, ts, idx);
      if KRecord(ts, idx) in a.d.epoch {
        RecordWithin(a.d.epoch, ts, idx);
      }
    }
  }

  /** One record at time 10. */
  const AT_TEN := Archive(Durable(Live(map[], map[], map[], map[]), [],
                                  map[KRecord(10, 1) := VRecord(Summary(6, 0, 0, 0, 0, 0, 0))]), map[])

  lemma TenIsFiled()
    ensures Filed(AT_TEN) && CurrentBounds(AT_TEN.d.epoch) == Boundary(Some(10), Some(10), 1)
  {
    RecordOrder();
    assert RecordKeys(AT_TEN.d.epoch) == {RecordKey(10, 1)};
    AscendUnique(RecordLt, {RecordKey(10, 1)}, [RecordKey(10, 1)]);
  }

  /** The failing input: the boundary is written, the rotation fails, a record at time 20 is committed,
      and the process restarts. */
  lemma OvertakenFails(p: Params, r: IndexedRecord)
    requires r.rec.ts == 20
    ensures var z := ActAll(p, AT_TEN, [MarkOnly, Work(BatchStep([r], Through))]); Filed(z) && !Filed(Overtaken(z))
  {
    var ms := [Work(BatchStep([r], Through))];
    TenIsFiled();
    FrozenAreCovered(p, AT_TEN, [MarkOnly] + ms);
    OvertakenExactly(p, AT_TEN, ms);
    assert ([MarkOnly] + ms)[1..] == ms && Act(p, AT_TEN, MarkOnly) == Marked(AT_TEN);
    assert [MarkOnly] + ms == [MarkOnly, Work(BatchStep([r], Through))];
    assert Records(ms[0].step) && ms[0].step.rs[0] == r;
    assert !TimesWithin(Boundary(Some(10), Some(10), 1), ms);
  }

  // ---- No loss in reachable states ----

  /** The steps a sequence of moves takes on the stores. */
  ghost function Steps(ms: seq<Move>): seq<Step> {
    if ms == [] then []
    else
      (match ms[0]
       case Work(s) => if s.RotateStep? then [] else [s]
       case MarkOnly => []
       case MarkAndRotate => [RotateStep])
      + Steps(ms[1..])
  }

  lemma {:induction false} ActsAreSteps(p: Params, a: Archive, ms: seq<Move>)
    ensures ActAll(p, a, ms).d == TakeAll(p, a.d, Steps(ms))
    decreases |ms|
  {
    if ms != [] {
      var b, rest := Act(p, a, ms[0]), Steps(ms[1..]);
      ActsAreSteps(p, b, ms[1..]);
      if ms[0].MarkOnly? || (ms[0].Work? && ms[0].step.RotateStep?) {
        assert Steps(ms) == [] + rest == rest;
      } else {
        assert Steps(ms)[1..] == rest;
      }
    }
  }

  /** Whatever happened before and whatever happens after: a request that a reachable state holds
      pending is never lost. */
  lemma ReachableRequestIsNeverLost(p: Params, a: Archive, before: seq<Move>, after: seq<Move>, q: nat)
    requires Filed(a) && AllPending(a.d.live.pair) && q in ActAll(p, a, before).d.live.pair
    ensures var z := ActAll(p, a, before);
            var d' := ActAll(p, z, after).d;
            Safe(d', q, z.d.live.pair[q]) || exists j :: EndedBefore(z.d, d', q, j)
  {
    var z := ActAll(p, a, before);
    FrozenAreCovered(p, a, before);
    PendingAlways(p, a, before);
    forall j | 0 <= j < |z.d.Epochs()| ensures TerminalRows(z.d.Epochs()[j]) {
      assert j < |z.d.past| ==> z.d.Epochs()[j] == z.d.past[j] && FiledAt(z, j);
      assert Indexed(z.d.Epochs()[j]);
    }
    ActsAreSteps(p, z, after);
    CommittedRequestIsNeverLost(p, z.d, Steps(after), q);
  }

  // ---- Pruning ----

  function WindowStart(from: Option<nat>): nat { if from.Some? then from.value else 0 }

  function WindowEnd(until: Option<nat>): nat { if until.Some? then until.value else U64 - 1 }

  predicate Kept<V>(t: Target<V>, bounds: map<nat, Boundary>, from: Option<nat>, until: Option<nat>) {
    if t.isCurrent then true
    else if t.num !in bounds then true
    else
      var b := bounds[t.num];
      var bmin := if b.minTs.Some? then b.minTs.value else 0;
      var bmax := if b.maxTs.Some? then b.maxTs.value else U64 - 1;
      !(bmax < WindowStart(from) || bmin > WindowEnd(until))
  }

  function Filter<V>(targets: seq<Target<V>>, bounds: map<nat, Boundary>, from: Option<nat>,
                     until: Option<nat>): seq<Target<V>> {
    if targets == [] then []
    else
      (if Kept(targets[0], bounds, from, until) then [targets[0]] else [])
      + Filter(targets[1..], bounds, from, until)
  }

  /** `prune_targets_by_window`. */
  function Prune<V>(targets: seq<Target<V>>, bounds: map<nat, Boundary>, from: Option<nat>,
                    until: Option<nat>): seq<Target<V>> {
    if from.None? && until.None? then targets else Filter(targets, bounds, from, until)
  }

  function Earliest(b: Boundary): nat { if b.minTs.Some? then b.minTs.value else 0 }

  function Latest(b: Boundary): nat { if b.maxTs.Some? then b.maxTs.value else U64 - 1 }

  /** The time lies within the boundary and within the window. */
  predicate InBoth(b: Boundary, from: Option<nat>, until: Option<nat>, ts: nat) {
    && Earliest(b) <= ts <= Latest(b)
    && (from.Some? ==> from.value <= ts) && (until.Some? ==> ts <= until.value)
  }

  /** An epoch is left out exactly when it is frozen, its boundary is known, and no time lies both in the
      boundary and in the window. */
  lemma ScannedExactly<V(!new)>(targets: seq<Target<V>>, bounds: map<nat, Boundary>, from: Option<nat>,
                                until: Option<nat>, t: Target<V>)
    requires t in targets && WindowStart(from) <= WindowEnd(until) < U64
    requires t.num in bounds ==> Earliest(bounds[t.num]) <= Latest(bounds[t.num]) < U64
    ensures t in Prune(targets, bounds, from, until)
       <==> t.isCurrent || t.num !in bounds || exists ts :: InBoth(bounds[t.num], from, until, ts)
  {
    FilteredExactly(targets, bounds, from, until, t);
    if !t.isCurrent && t.num in bounds {
      var b := bounds[t.num];
      if Kept(t, bounds, from, until) {
        assert InBoth(b, from, until, Max(Earliest(b), WindowStart(from)));
      }
    }
  }

  lemma {:induction false} FilteredExactly<V(!new)>(targets: seq<Target<V>>, bounds: map<nat, Boundary>,
                                                    from: Option<nat>, until: Option<nat>, t: Target<V>)
    ensures t in Filter(targets, bounds, from, until) <==> t in targets && Kept(t, bounds, from, until)
  {
    if targets != [] {
      FilteredExactly(targets[1..], bounds, from, until, t);
      assert t in targets <==> t == targets[0] || t in targets[1..];
    }
  }

  /** Three databases have a time in their keys. */
  datatype TimeDb = Records | ConnQrs | QrTimes

  predicate InDb(db: TimeDb, k: EKey) {
    match db
    case Records => k.KRecord?
    case ConnQrs => k.KConnQr?
    case QrTimes => k.KQrTime?
  }

  /** One epoch's database as bytes; keys outside the machine ranges do not occur in the program. */
  ghost predicate Shows(t: Target<EVal>, e: Epoch, db: TimeDb) {
    forall b :: b in t.db <==> exists k :: k in e && InDb(db, k) && ETyped(k) && EBytes(k) == b
  }

  /** The session's targets are the epochs of the archive, the last one current. */
  ghost predicate TargetsOf(targets: seq<Target<EVal>>, a: Archive, db: TimeDb) {
    && |targets| == |a.d.Epochs()|
    && forall i :: 0 <= i < |targets| ==>
         targets[i].num == i && targets[i].isCurrent == (i == |a.d.past|) && Shows(targets[i], a.d.Epochs()[i], db)
  }

  /** Byte range of a windowed scan. */
  function Window(db: TimeDb, conn: nat, from: Option<nat>, until: Option<nat>): (Bytes, Bytes) {
    var s, e := WindowStart(from), WindowEnd(until);
    match db
    case ConnQrs => (Pack([8, 8, 8], [conn, s, 0]), Pack([8, 8, 8], [conn, e, U64 - 1]))
    case Records => (Pack([8, 8], [s, 0]), Pack([8, 8], [e, U64 - 1]))
    case QrTimes => (Pack([8, 8], [s, 0]), Pack([8, 8], [e, U64 - 1]))
  }

  predicate WindowTyped(conn: nat, from: Option<nat>, until: Option<nat>) {
    conn < U64 && WindowStart(from) < U64 && WindowEnd(until) < U64
  }

  function TimeOf(k: EKey): nat
    requires k.KRecord? || k.KConnQr? || k.KQrTime?
  {
    if k.KRecord? then k.ts else k.qTs
  }

  lemma InWindow(db: TimeDb, conn: nat, from: Option<nat>, until: Option<nat>, k: EKey)
    requires WindowTyped(conn, from, until) && InDb(db, k) && ETyped(k)
    requires InRange(Window(db, conn, from, until).0, Window(db, conn, from, until).1, EBytes(k))
    ensures WindowStart(from) <= TimeOf(k) <= WindowEnd(until)
  {
    var s, e := WindowStart(from), WindowEnd(until);
    match k {
      case KRecord(ts, idx) => WindowRange(ts, idx, s, e);
      case KQrTime(ts, q) => WindowRange(ts, q, s, e);
      case KConnQr(h, ts, q) => ConnWindowRange(h, ts, q, conn, s, e);
    }
  }

  /** No key of a pruned epoch has a time in the window. */
  lemma OutsideWindow(t: Target<EVal>, e: Epoch, db: TimeDb, bounds: map<nat, Boundary>,
                      from: Option<nat>, until: Option<nat>, k: EKey)
    requires !Kept(t, bounds, from, until) && Covers(bounds[t.num], e) && k in e && InDb(db, k)
    ensures !(WindowStart(from) <= TimeOf(k) <= WindowEnd(until))
  {
    assert Within(bounds[t.num], TimeOf(k));
  }

  /** An epoch that is pruned has no row in the window. */
  lemma PrunedIsEmpty(t: Target<EVal>, e: Epoch, db: TimeDb, bounds: map<nat, Boundary>,
                      conn: nat, from: Option<nat>, until: Option<nat>)
    requires WindowTyped(conn, from, until) && Shows(t, e, db) && !Kept(t, bounds, from, until)
    requires Covers(bounds[t.num], e)
    ensures RowsFrom(t, Window(db, conn, from, until).0, Window(db, conn, from, until).1, None) == []
  {
    var lo, hi := Window(db, conn, from, until).0, Window(db, conn, from, until).1;
    forall b | b in t.db ensures !InRange(lo, hi, b) {
      var k :| k in e && InDb(db, k) && ETyped(k) && EBytes(k) == b;
      OutsideWindow(t, e, db, bounds, from, until, k);
      NotInRange(db, conn, from, until, k);
    }
    NothingInRange(t, lo, hi);
  }

  lemma NotInRange(db: TimeDb, conn: nat, from: Option<nat>, until: Option<nat>, k: EKey)
    requires WindowTyped(conn, from, until) && InDb(db, k) && ETyped(k)
    requires !(WindowStart(from) <= TimeOf(k) <= WindowEnd(until))
    ensures !InRange(Window(db, conn, from, until).0, Window(db, conn, from, until).1, EBytes(k))
  {
    if InRange(Window(db, conn, from, until).0, Window(db, conn, from, until).1, EBytes(k)) {
      InWindow(db, conn, from, until, k);
    }
  }

  lemma NothingInRange(t: Target<EVal>, lo: Bytes, hi: Bytes)
    requires forall b :: b in t.db ==> !InRange(lo, hi, b)
    ensures RowsFrom(t, lo, hi, None) == []
  {
    RowsFromAre(t, lo, hi, None);
    assert KeysFrom(t, lo, hi, None) == {};
  }

  lemma {:induction false} FilterKeepsRows(targets: seq<Target<EVal>>, es: seq<Epoch>, db: TimeDb,
                                           bounds: map<nat, Boundary>, conn: nat, from: Option<nat>, until: Option<nat>)
    requires WindowTyped(conn, from, until) && |targets| == |es|
    requires forall i :: 0 <= i < |targets| ==> Shows(targets[i], es[i], db)
    requires forall i :: 0 <= i < |targets| && !Kept(targets[i], bounds, from, until) ==>
               Covers(bounds[targets[i].num], es[i])
    ensures var (lo, hi) := Window(db, conn, from, until);
            Full(Filter(targets, bounds, from, until), lo, hi) == Full(targets, lo, hi)
    decreases |targets|
  {
    if targets != [] {
      var (lo, hi) := Window(db, conn, from, until);
      FilterKeepsRows(targets[1..], es[1..], db, bounds, conn, from, until);
      var rest := Filter(targets[1..], bounds, from, until);
      if Kept(targets[0], bounds, from, until) {
        assert ([targets[0]] + rest)[1..] == rest;
      } else {
        PrunedIsEmpty(targets[0], es[0], db, bounds, conn, from, until);
        assert [] + rest == rest;
      }
    }
  }

  /** A windowed scan over the pruned epochs is the windowed scan over all of them, in every reachable
      state and for each of the three databases. */
  lemma PruningKeepsAnswers(p: Params, a: Archive, ms: seq<Move>, targets: seq<Target<EVal>>, db: TimeDb,
                            conn: nat, from: Option<nat>, until: Option<nat>)
    requires Filed(a) && WindowTyped(conn, from, until)
    requires TargetsOf(targets, ActAll(p, a, ms), db)
    ensures var (lo, hi) := Window(db, conn, from, until);
            Full(Prune(targets, ActAll(p, a, ms).bounds, from, until), lo, hi) == Full(targets, lo, hi)
  {
    var z := ActAll(p, a, ms);
    FrozenAreCovered(p, a, ms);
    forall i | 0 <= i < |targets| && !Kept(targets[i], z.bounds, from, until)
      ensures Covers(z.bounds[targets[i].num], z.d.Epochs()[i])
    {
      assert z.d.Epochs()[i] == z.d.past[i] && FiledAt(z, i);
    }
    FilterKeepsRows(targets, z.d.Epochs(), db, z.bounds, conn, from, until);
  }

  // ---- Status lookup on reachable states ----

  /** `tables` are QR_PAIR rows of the live store and of every epoch: all of them, or those that read back. */
  ghost predicate TablesOf(tables: seq<map<nat, QrPair>>, d: Durable) {
    && |tables| == |d.Epochs()| + 1 && Sub(tables[0], d.live.pair)
    && forall i, q :: 0 <= i < |d.Epochs()| && q in tables[i + 1] ==>
         KPair(q) in d.Epochs()[i] && d.Epochs()[i][KPair(q)] == VPair(tables[i + 1][q])
  }

  lemma RowKnown(a: Archive, tables: seq<map<nat, QrPair>>, i: nat, q: nat)
    requires Filed(a) && AllPending(a.d.live.pair) && TablesOf(tables, a.d)
    requires i < |tables| && q in tables[i]
    ensures tables[i][q].status < STATUSES
  {
    if i > 0 {
      assert KPair(q) in a.d.Epochs()[i - 1] && a.d.Epochs()[i - 1][KPair(q)] == VPair(tables[i][q]);
      assert i - 1 < |a.d.past| ==> a.d.Epochs()[i - 1] == a.d.past[i - 1];
      assert i - 1 < |a.d.past| ==> FiledAt(a, i - 1);
      assert Indexed(a.d.Epochs()[i - 1]);
    }
  }

  /** Every QR_PAIR row of a reachable state has a known status, so the batched and the point lookup
      agree on every request. */
  lemma LookupsAgreeAlways(p: Params, a: Archive, ms: seq<Move>, tables: seq<map<nat, QrPair>>, q: nat)
    requires Filed(a) && AllPending(a.d.live.pair)
    requires TablesOf(tables, ActAll(p, a, ms).d)
    ensures StatusOf(tables, q) == match RowByIdx(tables, q) case Some(row) => Some(row.status) case None => None
  {
    FrozenAreCovered(p, a, ms);
    PendingAlways(p, a, ms);
    FoundIsStored(tables, q);
    if RowByIdx(tables, q).Some? {
      var i :| 0 <= i < |tables| && q in tables[i] && tables[i][q] == RowByIdx(tables, q).value;
      RowKnown(ActAll(p, a, ms), tables, i, q);
    }
    LookupsAgree(tables, q);
  }

  lemma {:induction false} FoundIsStored(tables: seq<map<nat, QrPair>>, q: nat)
    ensures RowByIdx(tables, q).Some? ==>
              exists i :: 0 <= i < |tables| && q in tables[i] && tables[i][q] == RowByIdx(tables, q).value
  {
    if tables != [] && q !in tables[0] && RowByIdx(tables, q).Some? {
      FoundIsStored(tables[1..], q);
      var i :| 0 <= i < |tables[1..]| && q in tables[1..][i] && tables[1..][i][q] == RowByIdx(tables[1..], q).value;
      assert tables[i + 1] == tables[1..][i];
    }
  }

  lemma {:induction false} PendingAlways(p: Params, a: Archive, ms: seq<Move>)
    requires AllPending(a.d.live.pair)
    ensures AllPending(ActAll(p, a, ms).d.live.pair)
    decreases |ms|
  {
    if ms != [] {
      if ms[0].Work? {
        TakeStaysPending(p, a.d, ms[0].step);
      }
      PendingAlways(p, Act(p, a, ms[0]), ms[1..]);
    }
  }
}
