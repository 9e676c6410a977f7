/** The durable system over arbitrary runs: batches, timeout scans, rotations, and crashes at every
    commit point. No committed request is ever lost and no history row ever changes. */
module QrDurability {
  import opened Store
  import opened Qr
  import opened QrConvergence
  import opened QrLockstep
  import opened Ttl

  /** Everything on disk: live, the frozen epochs, the current epoch. */
  datatype Durable = Durable(live: Live, past: seq<Epoch>, epoch: Epoch) {
    function Epochs(): seq<Epoch> { past + [epoch] }
  }

  /** Where a two-store commit stops: it runs through, dies before the epoch commit, or dies between
      the epoch commit and the live commit. */
  datatype Stop = Through | NothingCommitted | EpochCommitted

  datatype Step =
    | BatchStep(rs: seq<IndexedRecord>, stop: Stop)
    | ScanStep(c: Timeouts, now: nat, stop: Stop)
    | RotateStep

  /** Epoch first, live second. */
  function CommitTo(d: Durable, t: Txns, stop: Stop): Durable {
    match stop
    case NothingCommitted => d
    case EpochCommitted => d.(epoch := t.epoch)
    case Through => d.(live := t.live, epoch := t.epoch)
  }

  ghost function Take(p: Params, d: Durable, s: Step): Durable {
    match s
    case BatchStep(rs, stop) => CommitTo(d, RunBatch(p, d.live, d.epoch, rs), stop)
    case ScanStep(c, now, stop) => CommitTo(d, TtlScan(c, now, Txns(d.live, d.epoch)), stop)
    case RotateStep => Durable(d.live, d.past + [d.epoch], map[])
  }

  ghost function TakeAll(p: Params, d: Durable, ss: seq<Step>): Durable
    decreases |ss|
  {
    if ss == [] then d else TakeAll(p, Take(p, d, ss[0]), ss[1..])
  }

  // ---- What one pair of transactions keeps ----

  predicate IsTerminal(status: nat) { status in {MATCHED, TIMEOUT, UNMATCHED, RST_ABORT} }

  /** `done` ends the request of the pending row `row`: same question, a terminal status. */
  ghost predicate Ends(row: QrPair, done: QrPair) {
    && IsTerminal(done.status)
    && row.qIdx <= done.qIdx && row.rIdx <= done.rIdx
    && done == row.(status := done.status, rTs := done.rTs, latencyMs := done.latencyMs,
                    rLen := done.rLen, qIdx := done.qIdx, rIdx := done.rIdx, respKey := done.respKey)
  }

  /** Request `q`, once pending as `row`, is still that row or has its ending in the epoch. */
  ghost predicate Held(t: Txns, q: nat, row: QrPair) {
    if KPair(q) in t.epoch then t.epoch[KPair(q)].VPair? && Ends(row, t.epoch[KPair(q)].row)
    else q in t.live.pair && t.live.pair[q] == row
  }

  lemma FinalEnds(o: Outcome, row: QrPair)
    requires Terminal(o)
    ensures Ends(row, Final(o, row))
  {}

  lemma MigrateHolds(t: Txns, id: nat, o: Outcome, q: nat, row: QrPair)
    requires Held(t, q, row) && row.status == PENDING && Terminal(o)
    ensures Held(Migrate(t, id, o), q, row)
  {
    if id == q {
      FinalEnds(o, row);
    }
  }

  lemma Exec1Holds(t: Txns, pr: Prim, h: nat, r: IndexedRecord, q: nat, row: QrPair)
    requires Held(t, q, row) && row.status == PENDING
    requires ProperPrim(pr, h, r)
    ensures Held(Exec1(t, pr), q, row)
  {
    if pr.Settle? {
      MigrateHolds(t, pr.sq, pr.outcome, q, row);
    }
  }

  lemma {:induction false} ExecHolds(t: Txns, ps: seq<Prim>, h: nat, r: IndexedRecord, q: nat, row: QrPair)
    requires Held(t, q, row) && row.status == PENDING && Proper(ps, h, r)
    ensures Held(Exec(t, ps), q, row)
    decreases |ps|
  {
    if ps != [] {
      Exec1Holds(t, ps[0], h, r, q, row);
      ExecHolds(Exec1(t, ps[0]), ps[1..], h, r, q, row);
    }
  }

  lemma IngestHolds(p: Params, b: Batch, r: IndexedRecord, q: nat, row: QrPair)
    requires Held(b.t, q, row) && row.status == PENDING
    ensures Held(Ingest(p, b, r).t, q, row)
  {
    var t := Logged(b.t, r);
    assert Held(t, q, row);
    if r.rec.proto == TCP {
      var (h, dir) := Locate(p, b, r);
      ProcessByPlan(p, t, StateFor(b, h, r), h, dir, r);
      var ps: seq<Prim> :| Proper(ps, h, r) && Ingest(p, b, r).t == Exec(t, ps);
      ExecHolds(t, ps, h, r, q, row);
    }
  }

  lemma {:induction false} IngestAllHolds(p: Params, b: Batch, rs: seq<IndexedRecord>, q: nat, row: QrPair)
    requires Held(b.t, q, row) && row.status == PENDING
    ensures Held(IngestAll(p, b, rs).t, q, row)
    decreases |rs|
  {
    if rs != [] {
      IngestHolds(p, b, rs[0], q, row);
      IngestAllHolds(p, Ingest(p, b, rs[0]), rs[1..], q, row);
    }
  }

  // ---- The timeout scan ----

  lemma VisitKeeps(c: Timeouts, now: nat, s: Sweep, k: TtlKey, id: nat)
    ensures Sub(s.t.epoch, Visit(c, now, s, k, id).t.epoch)
    ensures AllPending(s.t.live.pair) ==> AllPending(Visit(c, now, s, k, id).t.live.pair)
    ensures forall q, row :: Held(s.t, q, row) && row.status == PENDING ==> Held(Visit(c, now, s, k, id).t, q, row)
    ensures forall q :: q in Visit(c, now, s, k, id).t.live.pair ==> q in s.t.live.pair
    ensures forall q :: KPair(q) in Visit(c, now, s, k, id).t.epoch ==> KPair(q) in s.t.epoch || q in s.t.live.pair
  {
    var t1 := Migrate(s.t, id, Ended(TIMEOUT));
    forall q, row | Held(s.t, q, row) && row.status == PENDING ensures Held(t1, q, row) {
      MigrateHolds(s.t, id, Ended(TIMEOUT), q, row);
    }
  }

  ghost predicate SweepKept(t: Txns, u: Txns) {
    && Sub(t.epoch, u.epoch)
    && (AllPending(t.live.pair) ==> AllPending(u.live.pair))
    && (forall q, row :: Held(t, q, row) && row.status == PENDING ==> Held(u, q, row))
    && (forall q :: q in u.live.pair ==> q in t.live.pair)
    && (forall q :: KPair(q) in u.epoch ==> KPair(q) in t.epoch || q in t.live.pair)
  }

  lemma {:induction false} VisitAllKeeps(c: Timeouts, now: nat, s: Sweep, ks: seq<TtlKey>, ttl: map<TtlKey, TtlVal>)
    requires forall i :: 0 <= i < |ks| ==> ks[i] in ttl
    ensures SweepKept(s.t, VisitAll(c, now, s, ks, ttl).t)
    decreases |ks|
  {
    if ks != [] {
      var s1 := Visit(c, now, s, ks[0], ttl[ks[0]].q);
      VisitKeeps(c, now, s, ks[0], ttl[ks[0]].q);
      VisitAllKeeps(c, now, s1, ks[1..], ttl);
    }
  }

  lemma SweepKeptSame(t: Txns, u: Txns, v: Txns)
    requires SweepKept(t, u) && v.epoch == u.epoch && v.live.pair == u.live.pair
    ensures SweepKept(t, v)
  {
    forall q, row | Held(t, q, row) && row.status == PENDING ensures Held(v, q, row) {
      assert Held(u, q, row);
    }
  }

  lemma ScanKeeps(c: Timeouts, now: nat, t: Txns)
    ensures SweepKept(t, TtlScan(c, now, t))
  {
    if c.qrSecs != 0 {
      var ks := TtlKeys(t.live.ttl, c.ScanHi(now));
      assert forall i :: 0 <= i < |ks| ==> ks[i] in ks;
      VisitAllKeeps(c, now, Sweep(t, map[], 0, 0), ks, t.live.ttl);
      SweepKeptSame(t, SweepFrom(c, now, t).t, TtlScan(c, now, t));
    }
  }

  // ---- Whole runs ----

  ghost predicate EndedIn(e: Epoch, q: nat, row: QrPair) {
    KPair(q) in e && e[KPair(q)].VPair? && Ends(row, e[KPair(q)].row)
  }

  /** Request `q`, once committed pending as `row`, is pending in live unchanged, or some epoch
      holds its ending. */
  ghost predicate Safe(d: Durable, q: nat, row: QrPair) {
    || (q in d.live.pair && d.live.pair[q] == row)
    || (exists j :: 0 <= j < |d.Epochs()| && EndedIn(d.Epochs()[j], q, row))
  }

  /** The inductive form: frozen epochs hold the ending, or live and the current epoch hold the request. */
  ghost predicate Kept(d: Durable, q: nat, row: QrPair) {
    (exists j :: 0 <= j < |d.past| && EndedIn(d.past[j], q, row)) || Held(Txns(d.live, d.epoch), q, row)
  }

  lemma KeptIsSafe(d: Durable, q: nat, row: QrPair)
    requires Kept(d, q, row)
    ensures Safe(d, q, row)
  {
    if j :| 0 <= j < |d.past| && EndedIn(d.past[j], q, row) {
      assert d.Epochs()[j] == d.past[j];
    } else if KPair(q) in d.epoch {
      assert d.Epochs()[|d.past|] == d.epoch;
      assert EndedIn(d.Epochs()[|d.past|], q, row);
    }
  }

  lemma CommitKeeps(d: Durable, t: Txns, stop: Stop, q: nat, row: QrPair)
    requires Kept(d, q, row) && row.status == PENDING && Sub(d.epoch, t.epoch)
    requires Held(Txns(d.live, d.epoch), q, row) ==> Held(t, q, row)
    ensures Kept(CommitTo(d, t, stop), q, row)
  {
    var d' := CommitTo(d, t, stop);
    if j :| 0 <= j < |d.past| && EndedIn(d.past[j], q, row) {
      assert EndedIn(d'.past[j], q, row);
    }
  }

  lemma BatchHolds(p: Params, live: Live, epoch: Epoch, rs: seq<IndexedRecord>, q: nat, row: QrPair)
    requires row.status == PENDING
    ensures Sub(epoch, RunBatch(p, live, epoch, rs).epoch)
    ensures Held(Txns(live, epoch), q, row) ==> Held(RunBatch(p, live, epoch, rs), q, row)
  {
    IngestAllGrows(p, Begin(live, epoch), rs);
    if Held(Txns(live, epoch), q, row) {
      IngestAllHolds(p, Begin(live, epoch), rs, q, row);
      var b := IngestAll(p, Begin(live, epoch), rs);
      assert Held(b.t, q, row) <==> Held(RunBatch(p, live, epoch, rs), q, row);
    }
  }

  lemma TakeKeeps(p: Params, d: Durable, s: Step, q: nat, row: QrPair)
    requires Kept(d, q, row) && row.status == PENDING
    ensures Kept(Take(p, d, s), q, row)
  {
    match s
    case BatchStep(rs, stop) =>
      BatchHolds(p, d.live, d.epoch, rs, q, row);
      CommitKeeps(d, RunBatch(p, d.live, d.epoch, rs), stop, q, row);
    case ScanStep(c, now, stop) =>
      ScanKeeps(c, now, Txns(d.live, d.epoch));
      CommitKeeps(d, TtlScan(c, now, Txns(d.live, d.epoch)), stop, q, row);
    case RotateStep =>
      var d' := Take(p, d, s);
      if j :| 0 <= j < |d.past| && EndedIn(d.past[j], q, row) {
        assert d'.past[j] == d.past[j];
      } else if KPair(q) in d.epoch {
        assert d'.past[|d.past|] == d.epoch;
      }
  }

  lemma {:induction false} TakeAllKeeps(p: Params, d: Durable, ss: seq<Step>, q: nat, row: QrPair)
    requires Kept(d, q, row) && row.status == PENDING
    ensures Kept(TakeAll(p, d, ss), q, row)
    decreases |ss|
  {
    if ss != [] {
      TakeKeeps(p, d, ss[0], q, row);
      TakeAllKeeps(p, Take(p, d, ss[0]), ss[1..], q, row);
    }
  }

  lemma CommitStaysPending(d: Durable, t: Txns, stop: Stop)
    requires AllPending(d.live.pair) && AllPending(t.live.pair)
    ensures AllPending(CommitTo(d, t, stop).live.pair)
  {}

  lemma TakeStaysPending(p: Params, d: Durable, s: Step)
    requires AllPending(d.live.pair)
    ensures AllPending(Take(p, d, s).live.pair)
  {
    if s.BatchStep? {
      StaysPending(p, Begin(d.live, d.epoch), s.rs);
      CommitStaysPending(d, RunBatch(p, d.live, d.epoch, s.rs), s.stop);
    } else if s.ScanStep? {
      ScanKeeps(s.c, s.now, Txns(d.live, d.epoch));
      CommitStaysPending(d, TtlScan(s.c, s.now, Txns(d.live, d.epoch)), s.stop);
    }
  }

  /** Live holds PENDING rows only, in every state of every run: no commit point exposes another. */
  lemma {:induction false} LiveIsAlwaysPending(p: Params, d: Durable, ss: seq<Step>)
    requires AllPending(d.live.pair)
    ensures AllPending(TakeAll(p, d, ss).live.pair)
    decreases |ss|
  {
    if ss != [] {
      TakeStaysPending(p, d, ss[0]);
      LiveIsAlwaysPending(p, Take(p, d, ss[0]), ss[1..]);
    }
  }

  ghost predicate NoEpochHas(d: Durable, q: nat) {
    forall j :: 0 <= j < |d.Epochs()| ==> KPair(q) !in d.Epochs()[j]
  }

  // ---- History is immutable ----

  /** Every epoch of `d` is still there in `d'`, at the same number, with all its rows unchanged;
      a frozen one has gained nothing. */
  ghost predicate Extends(d: Durable, d': Durable) {
    && |d.past| <= |d'.past|
    && (forall j :: 0 <= j < |d.past| ==> d'.past[j] == d.past[j])
    && Sub(d.epoch, d'.Epochs()[|d.past|])
  }

  lemma CommitExtends(d: Durable, t: Txns, stop: Stop)
    requires Sub(d.epoch, t.epoch)
    ensures Extends(d, CommitTo(d, t, stop))
  {}

  lemma TakeExtends(p: Params, d: Durable, s: Step)
    ensures Extends(d, Take(p, d, s))
  {
    if s.BatchStep? {
      IngestAllGrows(p, Begin(d.live, d.epoch), s.rs);
      CommitExtends(d, RunBatch(p, d.live, d.epoch, s.rs), s.stop);
    } else if s.ScanStep? {
      ScanKeeps(s.c, s.now, Txns(d.live, d.epoch));
      CommitExtends(d, TtlScan(s.c, s.now, Txns(d.live, d.epoch)), s.stop);
    }
  }

  lemma ExtendsTrans(d: Durable, e: Durable, f: Durable)
    requires Extends(d, e) && Extends(e, f)
    ensures Extends(d, f)
  {
    if |d.past| < |e.past| {
      assert e.Epochs()[|d.past|] == e.past[|d.past|] == f.past[|d.past|] == f.Epochs()[|d.past|];
    }
  }

  /** An epoch row, once written, never changes. */
  lemma {:induction false} HistoryIsImmutable(p: Params, d: Durable, ss: seq<Step>)
    ensures Extends(d, TakeAll(p, d, ss))
    decreases |ss|
  {
    if ss != [] {
      var d1 := Take(p, d, ss[0]);
      TakeExtends(p, d, ss[0]);
      HistoryIsImmutable(p, d1, ss[1..]);
      ExtendsTrans(d, d1, TakeAll(p, d1, ss[1..]));
    }
  }

  // ---- No loss ----

  lemma FreshRequestIsSafe(p: Params, d: Durable, ss: seq<Step>, q: nat)
    requires AllPending(d.live.pair) && q in d.live.pair && NoEpochHas(d, q)
    ensures Safe(TakeAll(p, d, ss), q, d.live.pair[q])
  {
    assert d.Epochs()[|d.past|] == d.epoch;
    TakeAllKeeps(p, d, ss, q, d.live.pair[q]);
    KeptIsSafe(TakeAll(p, d, ss), q, d.live.pair[q]);
  }

  ghost predicate TerminalRows(e: Epoch) {
    forall q :: KPair(q) in e ==> e[KPair(q)].VPair? && IsTerminal(e[KPair(q)].row.status)
  }

  /** Epoch `j` of `d` already held an ending of `q`; it still does in `d'`, the same one. */
  ghost predicate EndedBefore(d: Durable, d': Durable, q: nat, j: nat) {
    && j < |d.Epochs()| && j < |d'.Epochs()| && KPair(q) in d.Epochs()[j]
    && KPair(q) in d'.Epochs()[j] && d'.Epochs()[j][KPair(q)] == d.Epochs()[j][KPair(q)]
    && d'.Epochs()[j][KPair(q)].VPair? && IsTerminal(d'.Epochs()[j][KPair(q)].row.status)
  }

  /** No loss: over every interleaving of batches, scans, rotations and crashes, a request committed
      pending stays that same row in live or has a terminal row about the same question in some epoch.
      Where an epoch held an ending of it already, as after a stop between the commits, that one stays.
      Rows are values here; the bytes of one cannot be read back when its answer ended more than 65535
      requests at once (QrReadback). */
  lemma CommittedRequestIsNeverLost(p: Params, d: Durable, ss: seq<Step>, q: nat)
    requires AllPending(d.live.pair) && q in d.live.pair
    requires forall j :: 0 <= j < |d.Epochs()| ==> TerminalRows(d.Epochs()[j])
    ensures var d' := TakeAll(p, d, ss); Safe(d', q, d.live.pair[q]) || exists j :: EndedBefore(d, d', q, j)
  {
    if NoEpochHas(d, q) {
      FreshRequestIsSafe(p, d, ss, q);
    } else {
      var j :| 0 <= j < |d.Epochs()| && KPair(q) in d.Epochs()[j];
      var d' := TakeAll(p, d, ss);
      HistoryIsImmutable(p, d, ss);
      assert j < |d.past| ==> d.Epochs()[j] == d.past[j] == d'.past[j] == d'.Epochs()[j];
      assert TerminalRows(d.Epochs()[j]);
      assert EndedBefore(d, d', q, j);
    }
  }

  // ---- Why the epoch store commits first ----

  /** The other order, dying between its two commits. */
  function LiveFirstCrash(d: Durable, t: Txns): Durable { d.(live := t.live) }

  /** `q` is nowhere on disk. */
  ghost predicate Absent(d: Durable, q: nat) { q !in d.live.pair && NoEpochHas(d, q) }

  ghost predicate NeverRecorded(ss: seq<Step>, q: nat) {
    forall i :: 0 <= i < |ss| && ss[i].BatchStep? ==>
      forall j :: 0 <= j < |ss[i].rs| ==> ss[i].rs[j].Idx() != q
  }

  ghost predicate Nowhere(t: Txns, q: nat) { q !in t.live.pair && KPair(q) !in t.epoch }

  lemma {:induction false} ExecNowhere(t: Txns, ps: seq<Prim>, h: nat, r: IndexedRecord, q: nat)
    requires Proper(ps, h, r) && r.Idx() != q && Nowhere(t, q)
    ensures Nowhere(Exec(t, ps), q)
    decreases |ps|
  {
    if ps != [] {
      ExecNowhere(Exec1(t, ps[0]), ps[1..], h, r, q);
    }
  }

  lemma {:induction false} IngestAllNowhere(p: Params, b: Batch, rs: seq<IndexedRecord>, q: nat)
    requires Nowhere(b.t, q) && forall j :: 0 <= j < |rs| ==> rs[j].Idx() != q
    ensures Nowhere(IngestAll(p, b, rs).t, q)
    decreases |rs|
  {
    if rs != [] {
      var r, t := rs[0], Logged(b.t, rs[0]);
      if r.rec.proto == TCP {
        var (h, dir) := Locate(p, b, r);
        ProcessByPlan(p, t, StateFor(b, h, r), h, dir, r);
        var ps: seq<Prim> :| Proper(ps, h, r) && Ingest(p, b, r).t == Exec(t, ps);
        ExecNowhere(t, ps, h, r, q);
      }
      IngestAllNowhere(p, Ingest(p, b, r), rs[1..], q);
    }
  }

  lemma CommitAbsent(d: Durable, t: Txns, stop: Stop, q: nat)
    requires Absent(d, q) && Nowhere(t, q)
    ensures Absent(CommitTo(d, t, stop), q)
  {
    var d' := CommitTo(d, t, stop);
    forall j | 0 <= j < |d'.Epochs()| ensures KPair(q) !in d'.Epochs()[j] {
      assert KPair(q) !in d.Epochs()[j];
    }
  }

  lemma RotateAbsent(d: Durable, q: nat)
    requires Absent(d, q)
    ensures Absent(Durable(d.live, d.past + [d.epoch], map[]), q)
  {
    var d' := Durable(d.live, d.past + [d.epoch], map[]);
    forall j | 0 <= j < |d'.Epochs()| ensures KPair(q) !in d'.Epochs()[j] {
      if j < |d.Epochs()| {
        assert d'.Epochs()[j] == d.Epochs()[j];
      }
    }
  }

  lemma TakeAbsent(p: Params, d: Durable, s: Step, q: nat)
    requires Absent(d, q)
    requires s.BatchStep? ==> forall j :: 0 <= j < |s.rs| ==> s.rs[j].Idx() != q
    ensures Absent(Take(p, d, s), q)
  {
    assert d.Epochs()[|d.past|] == d.epoch;
    if s.BatchStep? {
      IngestAllNowhere(p, Begin(d.live, d.epoch), s.rs, q);
      CommitAbsent(d, RunBatch(p, d.live, d.epoch, s.rs), s.stop, q);
    } else if s.ScanStep? {
      ScanKeeps(s.c, s.now, Txns(d.live, d.epoch));
      CommitAbsent(d, TtlScan(s.c, s.now, Txns(d.live, d.epoch)), s.stop, q);
    } else {
      RotateAbsent(d, q);
    }
  }

  lemma {:induction false} AbsentForever(p: Params, d: Durable, ss: seq<Step>, q: nat)
    requires Absent(d, q) && NeverRecorded(ss, q)
    ensures Absent(TakeAll(p, d, ss), q)
    decreases |ss|
  {
    if ss != [] {
      TakeAbsent(p, d, ss[0], q);
      AbsentForever(p, Take(p, d, ss[0]), ss[1..], q);
    }
  }

  /** Live-first order loses a request exactly when the batch ended it: after the crash it is nowhere
      on disk, and no later run that does not see its packet again brings it back. */
  lemma LiveFirstLosesExactly(p: Params, d: Durable, rs: seq<IndexedRecord>, q: nat, later: seq<Step>)
    requires q in d.live.pair && NoEpochHas(d, q) && NeverRecorded(later, q)
    ensures var t := RunBatch(p, d.live, d.epoch, rs);
            && (Absent(LiveFirstCrash(d, t), q) <==> q !in t.live.pair)
            && (q !in t.live.pair ==> Absent(TakeAll(p, LiveFirstCrash(d, t), later), q))
  {
    var d' := LiveFirstCrash(d, RunBatch(p, d.live, d.epoch, rs));
    assert d'.Epochs() == d.Epochs();
    if q !in d'.live.pair {
      AbsentForever(p, d', later, q);
    }
  }

  // ---- RECORD_TS ----

  ghost predicate RecordedBy(rs: seq<IndexedRecord>, ts: nat, idx: nat) {
    exists i :: 0 <= i < |rs| && rs[i].rec.ts == ts && rs[i].Idx() == idx
  }

  lemma {:induction false} ExecRecords(t: Txns, ps: seq<Prim>, h: nat, r: IndexedRecord, key: EKey)
    requires Proper(ps, h, r) && key.KRecord?
    ensures key in Exec(t, ps).epoch <==> key in t.epoch
    decreases |ps|
  {
    if ps != [] {
      ExecRecords(Exec1(t, ps[0]), ps[1..], h, r, key);
    }
  }

  lemma RecordedSplit(rs: seq<IndexedRecord>, ts: nat, idx: nat)
    requires rs != []
    ensures RecordedBy(rs, ts, idx) <==> (rs[0].rec.ts == ts && rs[0].Idx() == idx) || RecordedBy(rs[1..], ts, idx)
  {
    if RecordedBy(rs[1..], ts, idx) {
      var i :| 0 <= i < |rs[1..]| && rs[1..][i].rec.ts == ts && rs[1..][i].Idx() == idx;
      assert rs[i + 1] == rs[1..][i];
    }
    if RecordedBy(rs, ts, idx) {
      var i :| 0 <= i < |rs| && rs[i].rec.ts == ts && rs[i].Idx() == idx;
      assert i > 0 ==> rs[1..][i - 1] == rs[i];
    }
  }

  /** A batch adds exactly one RECORD_TS row per record, whatever else the record does. */
  lemma {:induction false} BatchRecordsExactly(p: Params, b: Batch, rs: seq<IndexedRecord>, ts: nat, idx: nat)
    ensures KRecord(ts, idx) in IngestAll(p, b, rs).t.epoch
      <==> KRecord(ts, idx) in b.t.epoch || RecordedBy(rs, ts, idx)
    decreases |rs|
  {
    if rs != [] {
      var r, t := rs[0], Logged(b.t, rs[0]);
      if r.rec.proto == TCP {
        var (h, dir) := Locate(p, b, r);
        ProcessByPlan(p, t, StateFor(b, h, r), h, dir, r);
        var ps: seq<Prim> :| Proper(ps, h, r) && Ingest(p, b, r).t == Exec(t, ps);
        ExecRecords(t, ps, h, r, KRecord(ts, idx));
      }
      BatchRecordsExactly(p, Ingest(p, b, r), rs[1..], ts, idx);
      RecordedSplit(rs, ts, idx);
    }
  }

  /** Replaying a batch after both stores committed it, from any later live store, leaves every
      RECORD_TS row as it is. */
  lemma ReplayAddsNoRecord(p: Params, live: Live, epoch: Epoch, rs: seq<IndexedRecord>, later: Live, key: EKey)
    requires key.KRecord?
    ensures var e1 := RunBatch(p, live, epoch, rs).epoch;
            var e2 := RunBatch(p, later, e1, rs).epoch;
            (key in e1 <==> key in e2) && (key in e1 ==> e2[key] == e1[key])
  {
    var e1 := RunBatch(p, live, epoch, rs).epoch;
    BatchRecordsExactly(p, Begin(live, epoch), rs, key.ts, key.idx);
    BatchRecordsExactly(p, Begin(later, e1), rs, key.ts, key.idx);
    IngestAllGrows(p, Begin(later, e1), rs);
  }
}
