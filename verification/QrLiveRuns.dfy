/** The live-store invariant over crash-free runs of batches, timeout scans and rotations. */
module QrLiveRuns {
  import opened Common
  import opened Connection
  import opened Store
  import opened Qr
  import opened QrConvergence
  import opened QrLockstep
  import opened QrLive
  import opened QrDurability
  import opened TtlLive

  // ---- What a plan can add to the request tables ----

  /** `t'` has no request key that `t` and record `r` on connection `h` do not account for. */
  ghost predicate Accounted(t: Txns, t': Txns, h: nat, r: IndexedRecord) {
    && (forall q :: q in t'.live.pair ==> q in t.live.pair || q == r.Idx())
    && (forall k :: k in t'.live.ttl ==> k in t.live.ttl || k == TtlKey(r.rec.ts, h))
    && (forall q :: KPair(q) in t'.epoch ==> KPair(q) in t.epoch || q in t.live.pair || q == r.Idx())
  }

  lemma {:induction false} ExecAccounted(t: Txns, ps: seq<Prim>, h: nat, r: IndexedRecord)
    requires Proper(ps, h, r)
    ensures Accounted(t, Exec(t, ps), h, r)
    decreases |ps|
  {
    if ps != [] {
      assert ProperPrim(ps[0], h, r);
      assert Accounted(t, Exec1(t, ps[0]), h, r);
      ExecAccounted(Exec1(t, ps[0]), ps[1..], h, r);
    }
  }

  lemma PlanAccounted(t: Txns, t': Txns, h: nat, r: IndexedRecord)
    requires ByPlan(t, t', h, r)
    ensures Accounted(t, t', h, r)
  {
    var ps: seq<Prim> :| Proper(ps, h, r) && t' == Exec(t, ps);
    ExecAccounted(t, ps, h, r);
  }

  /** Ending requests adds no live key, and only endings of live requests to the epoch. */
  lemma RebaseFresh(t: Txns, st: ConnState, h: nat, dir: Dir, r: IndexedRecord)
    requires Good(t, h, st) && FreshRequest(t, h, r)
    ensures FreshRequest(Rebase(t, st, h, dir, r).0, h, r)
  {
    EndScan(t, h, st, ByStatus(UNMATCHED), st.incarnation, U48_MAX);
    var hits := Scan(t.live.pending, h, st.incarnation, U48_MAX);
    assert forall q :: q in QueriesFrom(hits, 0) ==> q in t.live.pair by {
      ScanEndable(t, h, st, st.incarnation, U48_MAX);
    }
  }

  // ---- One record ----

  predicate Typed(r: IndexedRecord) { r.rec.seqNo < U32 && r.rec.origLen < U32 }

  /** The record starts cleanly on the connection as it stands after a possible rebirth. */
  ghost predicate CleanOn(t: Txns, st: ConnState, h: nat, dir: Dir, r: IndexedRecord) {
    !r.rec.rst ==> CleanStart(Rebase(t, st, h, dir, r).1, dir, r)
  }

  lemma ProcessGood(p: Params, t: Txns, st: ConnState, h: nat, dir: Dir, r: IndexedRecord)
    requires Good(t, h, st) && Typed(r) && CleanOn(t, st, h, dir, r)
    requires MayOpen(dir, r) ==> FreshRequest(t, h, r)
    ensures var out := Process(p, t, st, h, dir, r); Good(out.0, h, out.1)
  {
    var (t1, st1) := Rebase(t, st, h, dir, r);
    RebaseGood(t, st, h, dir, r);
    if MayOpen(dir, r) {
      RebaseFresh(t, st, h, dir, r);
    }
    if r.rec.rst {
      CascadeGood(t1, st1, h, r);
    } else if dir == C2S {
      ClientGood(p, t1, st1, h, r);
    } else {
      ServerGood(p, t1, st1, h, r);
    }
  }

  ghost function LoggedAt(live: Live, epoch: Epoch, r: IndexedRecord): Txns { Logged(Txns(live, epoch), r) }

  /** What the theorem asks of a record in a given pair of stores. */
  ghost predicate Admissible(p: Params, live: Live, epoch: Epoch, r: IndexedRecord) {
    r.rec.proto == TCP ==>
      var b := Begin(live, epoch);
      var (h, dir) := Locate(p, b, r);
      && Typed(r) && CleanOn(LoggedAt(live, epoch, r), StateFor(b, h, r), h, dir, r)
      && (MayOpen(dir, r) ==> FreshRequest(b.t, h, r))
  }

  lemma StartGood(live: Live, epoch: Epoch, h: nat, r: IndexedRecord)
    requires Linked(live, epoch)
    ensures Good(LoggedAt(live, epoch, r), h, StateFor(Begin(live, epoch), h, r))
  {
    var t, st := LoggedAt(live, epoch, r), StateFor(Begin(live, epoch), h, r);
    KnownFits(live, epoch, h);
    LinkedEpoch(live, epoch, t.epoch);
    forall k | k in live.pending && k.h == h ensures Fits(st, k) {
      assert k in PendingOf(live.pending, h);
    }
    Reconnect(live, t.epoch, h, st);
  }

  lemma OneUnfold(p: Params, live: Live, epoch: Epoch, r: IndexedRecord)
    ensures var b := Ingest(p, Begin(live, epoch), r);
            RunBatch(p, live, epoch, [r]) == Txns(CommittedLive(b), b.t.epoch)
  {
    assert [r][1..] == [];
    assert IngestAll(p, Begin(live, epoch), [r]) == Ingest(p, Begin(live, epoch), r);
  }

  lemma CommittedBegin(live: Live, epoch: Epoch)
    ensures Committed(Begin(live, epoch)) == live.conn
  {}

  lemma CountedPut(live: Live, t: Txns, h: nat, st: ConnState)
    requires Counted(live) && OthersKept(live.pending, t.live.pending, h)
    ensures Counted(t.live.(conn := live.conn[h := Recounted(st, t.live.pending, h)]))
  {
    forall o | o in live.conn && o != h ensures PendingOf(live.pending, o) == PendingOf(t.live.pending, o) {
      CountFrame(live.pending, t.live.pending, h, o);
    }
  }

  /** One admissible record keeps the live invariant. */
  lemma OneRecordKeepsInv(p: Params, live: Live, epoch: Epoch, r: IndexedRecord)
    requires LiveInv(live, epoch) && Admissible(p, live, epoch, r)
    ensures var t := RunBatch(p, live, epoch, [r]); LiveInv(t.live, t.epoch)
  {
    OneUnfold(p, live, epoch, r);
    CommittedBegin(live, epoch);
    var b := Begin(live, epoch);
    if r.rec.proto != TCP {
      LinkedEpoch(live, epoch, LoggedAt(live, epoch, r).epoch);
    } else {
      var (h, dir) := Locate(p, b, r);
      var t, st := LoggedAt(live, epoch, r), StateFor(b, h, r);
      StartGood(live, epoch, h, r);
      ProcessGood(p, t, st, h, dir, r);
      var out := Process(p, t, st, h, dir, r);
      CommittedStep(p, b, r);
      RegoodSame(out.0, h, out.1, Recounted(out.1, out.0.live.pending, h));
      ProcessByPlan(p, t, st, h, dir, r);
      PlanGrows(t, out.0, h, r);
      CountedPut(live, out.0, h, out.1);
      assert RunBatch(p, live, epoch, [r]).live
        == WithConn(out.0.live, h, Recounted(out.1, out.0.live.pending, h));
    }
  }

  lemma ProcessBreaks(p: Params, t: Txns, st: ConnState, h: nat, dir: Dir, r: IndexedRecord)
    requires Typed(r) && !CleanOn(t, st, h, dir, r)
    ensures var out := Process(p, t, st, h, dir, r); !Good(out.0, h, out.1)
  {
    var (t1, st1) := Rebase(t, st, h, dir, r);
    DirtyStartBreaks(p, t1, st1, h, r);
  }

  /** Clean is exactly what the invariant needs: a record within machine ranges, opening no request
      twice, keeps it if and only if it starts cleanly where it is met. */
  lemma CleanExactly(p: Params, live: Live, epoch: Epoch, r: IndexedRecord)
    requires LiveInv(live, epoch) && r.rec.proto == TCP && Typed(r)
    requires var (h, dir) := Locate(p, Begin(live, epoch), r); MayOpen(dir, r) ==> FreshRequest(Txns(live, epoch), h, r)
    ensures var t := RunBatch(p, live, epoch, [r]); LiveInv(t.live, t.epoch) <==> CleanRecord(p, live, epoch, r)
  {
    var b := Begin(live, epoch);
    var (h, dir) := Locate(p, b, r);
    var t, st := LoggedAt(live, epoch, r), StateFor(b, h, r);
    if CleanOn(t, st, h, dir, r) {
      OneRecordKeepsInv(p, live, epoch, r);
    } else {
      ProcessBreaks(p, t, st, h, dir, r);
      var out := Process(p, t, st, h, dir, r);
      OneUnfold(p, live, epoch, r);
      CommittedBegin(live, epoch);
      CommittedStep(p, b, r);
      ProcessByPlan(p, t, st, h, dir, r);
      PlanGrows(t, out.0, h, r);
      var row := Recounted(out.1, out.0.live.pending, h);
      assert RunBatch(p, live, epoch, [r]).live == WithConn(out.0.live, h, row);
      if Good(out.0, h, row) {
        RegoodSame(out.0, h, row, out.1);
      }
    }
  }

  // ---- A batch ----

  /** TCP payload: the only kind of record that may open a request. */
  predicate Asks(r: IndexedRecord) { r.rec.proto == TCP && !r.rec.rst && r.rec.origLen > 0 }

  /** The request a record may open is new: its place was never used, and on the connection it would be
      the client of no other request is pending that was opened at the same time. */
  ghost predicate NewAsk(p: Params, live: Live, epoch: Epoch, r: IndexedRecord) {
    r.Idx() !in live.pair && KPair(r.Idx()) !in epoch && TtlKey(r.rec.ts, ForwardHash(p, r)) !in live.ttl
  }

  predicate ApartAsks(p: Params, a: IndexedRecord, b: IndexedRecord) {
    a.Idx() != b.Idx() && (ForwardHash(p, a) == ForwardHash(p, b) ==> a.rec.ts != b.rec.ts)
  }

  /** Records with payload have places of their own, and those of one direction of a connection
      different time stamps. Nothing is asked of other records. */
  ghost predicate Distinct(p: Params, live: Live, epoch: Epoch, rs: seq<IndexedRecord>) {
    && (forall i :: 0 <= i < |rs| && Asks(rs[i]) ==> NewAsk(p, live, epoch, rs[i]))
    && (forall i, j :: 0 <= i < j < |rs| && Asks(rs[i]) && Asks(rs[j]) ==> ApartAsks(p, rs[i], rs[j]))
  }

  ghost predicate CleanRecord(p: Params, live: Live, epoch: Epoch, r: IndexedRecord) {
    r.rec.proto == TCP ==>
      var b := Begin(live, epoch);
      var (h, dir) := Locate(p, b, r);
      Typed(r) && CleanOn(LoggedAt(live, epoch, r), StateFor(b, h, r), h, dir, r)
  }

  /** Every record of the batch starts cleanly where it is met. */
  ghost predicate CleanBatch(p: Params, live: Live, epoch: Epoch, rs: seq<IndexedRecord>)
    decreases |rs|
  {
    rs == [] ||
    (&& CleanRecord(p, live, epoch, rs[0])
     && var t := RunBatch(p, live, epoch, [rs[0]]);
        CleanBatch(p, t.live, t.epoch, rs[1..]))
  }

  /** One record leaves every other request that may still come new. */
  lemma StaysNew(p: Params, live: Live, epoch: Epoch, r: IndexedRecord, x: IndexedRecord)
    requires NewAsk(p, live, epoch, x) && (Asks(r) ==> ApartAsks(p, r, x))
    ensures var t := RunBatch(p, live, epoch, [r]); NewAsk(p, t.live, t.epoch, x)
  {
    OneUnfold(p, live, epoch, r);
    if r.rec.proto == TCP {
      var b, t := Begin(live, epoch), LoggedAt(live, epoch, r);
      var (h, dir) := Locate(p, b, r);
      if MayOpen(dir, r) {
        ProcessByPlan(p, t, StateFor(b, h, r), h, dir, r);
        PlanAccounted(t, Ingest(p, b, r).t, h, r);
      } else {
        ProcessOpensNone(p, t, StateFor(b, h, r), h, dir, r);
      }
    }
  }

  lemma DistinctStep(p: Params, live: Live, epoch: Epoch, rs: seq<IndexedRecord>)
    requires rs != [] && Distinct(p, live, epoch, rs)
    ensures var t := RunBatch(p, live, epoch, [rs[0]]); Distinct(p, t.live, t.epoch, rs[1..])
  {
    var t, rest := RunBatch(p, live, epoch, [rs[0]]), rs[1..];
    forall i | 0 <= i < |rest| && Asks(rest[i]) ensures NewAsk(p, t.live, t.epoch, rest[i]) {
      assert rest[i] == rs[i + 1];
      StaysNew(p, live, epoch, rs[0], rest[i]);
    }
  }

  lemma LinkedAllPending(live: Live, epoch: Epoch)
    requires Linked(live, epoch)
    ensures AllPending(live.pair)
  {
    forall q | q in live.pair ensures live.pair[q].status == PENDING {
      assert RowOk(live, q);
    }
  }

  /** A whole batch of distinct, clean records keeps the live invariant. */
  lemma {:induction false} BatchKeepsInv(p: Params, live: Live, epoch: Epoch, rs: seq<IndexedRecord>)
    requires LiveInv(live, epoch) && Distinct(p, live, epoch, rs) && CleanBatch(p, live, epoch, rs)
    ensures var t := RunBatch(p, live, epoch, rs); LiveInv(t.live, t.epoch)
    decreases |rs|
  {
    if rs == [] {
      EmptyBatch(p, live, epoch);
    } else {
      var t := RunBatch(p, live, epoch, [rs[0]]);
      OneRecordKeepsInv(p, live, epoch, rs[0]);
      DistinctStep(p, live, epoch, rs);
      BatchKeepsInv(p, t.live, t.epoch, rs[1..]);
      LinkedAllPending(live, epoch);
      CutBatch(p, live, epoch, [rs[0]], rs[1..]);
      assert [rs[0]] + rs[1..] == rs;
    }
  }

  // ---- Crash-free runs ----

  /** The steps run through, and every batch brings distinct, clean records. */
  ghost predicate CleanRun(p: Params, d: Durable, ss: seq<Step>)
    decreases |ss|
  {
    ss == [] ||
    (&& (ss[0].BatchStep? ==>
           ss[0].stop == Through && Distinct(p, d.live, d.epoch, ss[0].rs) && CleanBatch(p, d.live, d.epoch, ss[0].rs))
     && (ss[0].ScanStep? ==> ss[0].stop == Through)
     && CleanRun(p, Take(p, d, ss[0]), ss[1..]))
  }

  /** In every committed state of a crash-free run the three request tables are in bijection, every
      pending request carries its connection's incarnation and lies between the consumed number and
      the head, and `qr_open` is exact. */
  lemma {:induction false} LiveInvAlways(p: Params, d: Durable, ss: seq<Step>)
    requires LiveInv(d.live, d.epoch) && CleanRun(p, d, ss)
    ensures var d' := TakeAll(p, d, ss); LiveInv(d'.live, d'.epoch)
    decreases |ss|
  {
    if ss != [] {
      var s := ss[0];
      if s.BatchStep? {
        BatchKeepsInv(p, d.live, d.epoch, s.rs);
      } else if s.ScanStep? {
        ScanKeepsInv(s.c, s.now, Txns(d.live, d.epoch));
      }
      LiveInvAlways(p, Take(p, d, s), ss[1..]);
    }
  }

  const NOTHING := Durable(Live(map[], map[], map[], map[]), [], map[])

  /** The empty database satisfies the invariant, so every state reached from it does. */
  lemma FromNothing(p: Params, ss: seq<Step>)
    requires CleanRun(p, NOTHING, ss)
    ensures var d := TakeAll(p, NOTHING, ss); LiveInv(d.live, d.epoch)
  {
    LiveInvAlways(p, NOTHING, ss);
  }
}
