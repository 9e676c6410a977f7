/** Replaying a record after both stores committed it, when only the watermark was lost. The design
    documents say such a replay converges; the code meets that for some records only. */
module QrReplay {
  import opened Common
  import opened Connection
  import opened Store
  import opened Qr
  import opened QrCounting
  import opened QrLockstep
  import opened QrLiveRuns

  /** The records whose replay is idle: those of other protocols, and resets - unless the reset also
      carries a SYN that did not start the incarnation but will, now that the connection is dead. */
  ghost predicate Replayable(p: Params, live: Live, epoch: Epoch, r: IndexedRecord) {
    var b := Begin(live, epoch);
    var (h, dir) := Locate(p, b, r);
    var st := StateFor(b, h, r);
    r.rec.proto != TCP || (r.rec.rst && (r.rec.syn ==> Settled(st, dir, r)))
  }

  predicate Settled(st: ConnState, dir: Dir, r: IndexedRecord) {
    Rebirth(st, dir, r) || !StreamOf(st, dir).active || r.Idx() == st.synPktIdx
  }

  // ---- The same connection again ----

  ghost function FirstOut(p: Params, live: Live, epoch: Epoch, r: IndexedRecord): (Txns, ConnState) {
    var b := Begin(live, epoch);
    var (h, dir) := Locate(p, b, r);
    Process(p, LoggedAt(live, epoch, r), StateFor(b, h, r), h, dir, r)
  }

  lemma FirstRun(p: Params, live: Live, epoch: Epoch, r: IndexedRecord)
    requires r.rec.proto == TCP
    ensures var (h, dir) := Locate(p, Begin(live, epoch), r);
            var out := FirstOut(p, live, epoch, r);
            var t := RunBatch(p, live, epoch, [r]);
            && t.live == out.0.live.(conn := live.conn[h := Recounted(out.1, out.0.live.pending, h)])
            && t.epoch == out.0.epoch
            && Locate(p, Begin(t.live, t.epoch), r) == (h, dir)
            && StateFor(Begin(t.live, t.epoch), h, r) == Recounted(out.1, out.0.live.pending, h)
  {
    OneUnfold(p, live, epoch, r);
    CommittedBegin(live, epoch);
    CommittedStep(p, Begin(live, epoch), r);
  }

  // ---- Ordinary records count twice ----

  lemma OrdinaryReplayCounts(p: Params, live: Live, epoch: Epoch, r: IndexedRecord)
    requires Ordinary(r)
    ensures var t := RunBatch(p, live, epoch, [r]); RunBatch(p, t.live, t.epoch, [r]) != t
  {
    assert OrdinaryIn([r]) == 1 + OrdinaryIn([r][1..]) && [r][1..] == [];
    BatchReplayCounts(p, live, epoch, [r]);
  }

  // ---- Resets ----

  lemma {:induction false} EndingDrops(t: Txns, e: Ending, hits: seq<Hit>, i: nat)
    requires i <= |hits|
    ensures var u := Exec(t, EndFrom(e, hits, i)).live.pending;
            && u.Keys <= t.live.pending.Keys
            && (forall j :: i <= j < |hits| ==> hits[j].key !in u)
    decreases |hits| - i
  {
    if i < |hits| {
      var ps := EndFrom(e, hits, i);
      assert ps[1..][1..] == EndFrom(e, hits, i + 1);
      EndingDrops(Exec1(Exec1(t, ps[0]), ps[1]), e, hits, i + 1);
    }
  }

  lemma ScanAfterEnding(t: Txns, e: Ending, h: nat, inc: nat)
    ensures var t' := Exec(t, EndFrom(e, Scan(t.live.pending, h, inc, U48_MAX), 0));
            Scan(t'.live.pending, h, inc, U48_MAX) == []
  {
    var hits := Scan(t.live.pending, h, inc, U48_MAX);
    var t' := Exec(t, EndFrom(e, hits, 0));
    ScanOrder(t.live.pending, h, inc, U48_MAX);
    EndingDrops(t, e, hits, 0);
    forall k | InScan(t.live.pending, h, inc, U48_MAX, k) ensures k !in t'.live.pending {
      var j :| 0 <= j < |hits| && hits[j].key == k;
    }
    NoneLeft(t.live.pending, t'.live.pending, h, inc);
  }

  lemma NoneLeft(m: map<PendKey, PendVal>, n: map<PendKey, PendVal>, h: nat, inc: nat)
    requires n.Keys <= m.Keys && forall k :: InScan(m, h, inc, U48_MAX, k) ==> k !in n
    ensures Scan(n, h, inc, U48_MAX) == []
  {
    ScanSize(n, h, inc, U48_MAX);
    assert forall k :: InScan(n, h, inc, U48_MAX, k) ==> InScan(m, h, inc, U48_MAX, k);
    assert ScanKeys(n, h, inc, U48_MAX) == {};
  }

  lemma ResetFlag(x: nat)
    ensures (SetBit(x, RESET) / SEQ_GAP) % 2 == (x / SEQ_GAP) % 2
    ensures SetBit(SetBit(x, RESET), RESET) == SetBit(x, RESET)
  {}

  lemma GapFlag(x: nat)
    ensures (SetBit(x, SEQ_GAP) / SEQ_GAP) % 2 == 1
  {}

  /** What a reset leaves of the connection. */
  function AfterReset(st: ConnState, r: IndexedRecord): ConnState {
    Flag(st.(state := RESET_STATE, rstSeen := r.rec.ts), RESET)
  }

  lemma CascadeState(t: Txns, st: ConnState, h: nat, r: IndexedRecord)
    ensures Norm(RstCascade(t, st, h, r).1) == Norm(AfterReset(st, r))
  {}

  /** Marking the same jump again and resetting again changes nothing. */
  lemma ResetTwice(st: ConnState, n: nat, dir: Dir, r: IndexedRecord)
    requires !r.rec.syn
    ensures var s := AfterReset(MarkJump(st, dir, r), r);
            Norm(AfterReset(MarkJump(s.(qrOpen := n), dir, r), r)) == Norm(s)
  {
    var m := MarkJump(st, dir, r);
    var s := AfterReset(m, r).(qrOpen := n);
    ResetFlag(m.anomalyFlags);
    GapFlag(st.anomalyFlags);
    assert StreamOf(s, dir) == StreamOf(st, dir);
    assert MarkJump(s, dir, r) == s;
  }

  lemma ResetRun(p: Params, live: Live, epoch: Epoch, h: nat, dir: Dir, r: IndexedRecord)
    requires r.rec.proto == TCP && r.rec.rst && Locate(p, Begin(live, epoch), r) == (h, dir)
    ensures var t0, st := LoggedAt(live, epoch, r), StateFor(Begin(live, epoch), h, r);
            var (t1, st1) := Rebase(t0, st, h, dir, r);
            FirstOut(p, live, epoch, r) == RstCascade(t1, st1, h, r)
  {}

  /** A second reset finds nothing to end. */
  lemma CascadeTwice(t: Txns, st: ConnState, h: nat, r: IndexedRecord, u: Txns, st': ConnState)
    requires st'.incarnation == st.incarnation && u.live.pending == RstCascade(t, st, h, r).0.live.pending
    ensures RstCascade(u, st', h, r).0 == u
  {
    ScanAfterEnding(t, ByStatus(RST_ABORT), h, st.incarnation);
    assert EndFrom(ByStatus(RST_ABORT), [], 0) == [];
  }

  /** After a reset the record's own rebirth test. */
  lemma RebirthAfterReset(st: ConnState, n: nat, dir: Dir, r: IndexedRecord)
    requires r.rec.rst
    ensures var st1 := if Rebirth(st, dir, r) then Reborn(st, dir, r) else MarkJump(st, dir, r);
            Rebirth(AfterReset(st1, r).(qrOpen := n), dir, r) <==> r.rec.syn && !Settled(st, dir, r)
  {
    var st1 := if Rebirth(st, dir, r) then Reborn(st, dir, r) else MarkJump(st, dir, r);
    var s := AfterReset(st1, r).(qrOpen := n);
    assert s.state == RESET_STATE && s.synPktIdx == st1.synPktIdx;
    assert StreamOf(s, dir) == StreamOf(st1, dir);
  }

  lemma RebaseState(t: Txns, st: ConnState, h: nat, dir: Dir, r: IndexedRecord)
    ensures Rebase(t, st, h, dir, r).1 == if Rebirth(st, dir, r) then Reborn(st, dir, r) else MarkJump(st, dir, r)
  {}

  /** The second pass of a replayable reset over what the first one left. */
  lemma ResetSecondPass(t: Txns, st: ConnState, h: nat, dir: Dir, r: IndexedRecord, u: Txns, s: ConnState)
    requires r.rec.rst && (r.rec.syn ==> Settled(st, dir, r))
    requires var (t1, st1) := Rebase(t, st, h, dir, r);
             var out := RstCascade(t1, st1, h, r);
             u.live.pending == out.0.live.pending && Norm(s) == Norm(out.1)
    ensures var (t2, st2) := Rebase(u, s, h, dir, r);
            RstCascade(t2, st2, h, r).0 == u && Norm(RstCascade(t2, st2, h, r).1) == Norm(s)
  {
    var (t1, st1) := Rebase(t, st, h, dir, r);
    RebaseState(t, st, h, dir, r);
    CascadeState(t1, st1, h, r);
    assert s == AfterReset(st1, r).(qrOpen := s.qrOpen);
    RebirthAfterReset(st, s.qrOpen, dir, r);
    var st2 := MarkJump(s, dir, r);
    CascadeTwice(t1, st1, h, r, u, st2);
    CascadeState(u, st2, h, r);
    if r.rec.syn {
      assert st2 == s;
      ResetFlag(st1.anomalyFlags);
    } else {
      ResetTwice(st, s.qrOpen, dir, r);
    }
  }

  lemma LoggedAgain(p: Params, live: Live, epoch: Epoch, r: IndexedRecord)
    requires r.rec.proto == TCP
    ensures var t := RunBatch(p, live, epoch, [r]); LoggedAt(t.live, t.epoch, r) == t
  {
    var t0 := LoggedAt(live, epoch, r);
    var (h, dir) := Locate(p, Begin(live, epoch), r);
    FirstRun(p, live, epoch, r);
    ProcessByPlan(p, t0, StateFor(Begin(live, epoch), h, r), h, dir, r);
    PlanGrows(t0, FirstOut(p, live, epoch, r).0, h, r);
    assert KRecord(r.rec.ts, r.Idx()) in t0.epoch;
  }

  /** A run that leaves transactions and connection as they are commits the same stores. */
  lemma SameOut(p: Params, t: Txns, r: IndexedRecord, h: nat)
    requires r.rec.proto == TCP && Locate(p, Begin(t.live, t.epoch), r).0 == h && h in t.live.conn
    requires var out := FirstOut(p, t.live, t.epoch, r);
             out.0 == t && Recounted(out.1, t.live.pending, h) == t.live.conn[h]
    ensures RunBatch(p, t.live, t.epoch, [r]) == t
  {
    FirstRun(p, t.live, t.epoch, r);
    assert t.live.conn[h := t.live.conn[h]] == t.live.conn;
  }

  lemma ReplayableResetIsIdle(p: Params, live: Live, epoch: Epoch, r: IndexedRecord)
    requires r.rec.proto == TCP && r.rec.rst && Replayable(p, live, epoch, r)
    ensures var t := RunBatch(p, live, epoch, [r]); RunBatch(p, t.live, t.epoch, [r]) == t
  {
    var t := RunBatch(p, live, epoch, [r]);
    var (h, dir) := Locate(p, Begin(live, epoch), r);
    FirstRun(p, live, epoch, r);
    ResetRun(p, live, epoch, h, dir, r);
    LoggedAgain(p, live, epoch, r);
    ResetRun(p, t.live, t.epoch, h, dir, r);
    ResetSecondPass(LoggedAt(live, epoch, r), StateFor(Begin(live, epoch), h, r), h, dir, r, t, t.live.conn[h]);
    SameOut(p, t, r, h);
  }

  lemma RebornMoves(st: ConnState, dir: Dir, r: IndexedRecord)
    ensures Reborn(st, dir, r).incarnation != st.incarnation
  {}

  lemma UnsettledResetRebirths(p: Params, live: Live, epoch: Epoch, r: IndexedRecord)
    requires r.rec.proto == TCP && r.rec.rst && !Replayable(p, live, epoch, r)
    ensures var t := RunBatch(p, live, epoch, [r]); RunBatch(p, t.live, t.epoch, [r]) != t
  {
    var t := RunBatch(p, live, epoch, [r]);
    var (h, dir) := Locate(p, Begin(live, epoch), r);
    var st := StateFor(Begin(live, epoch), h, r);
    FirstRun(p, live, epoch, r);
    ResetRun(p, live, epoch, h, dir, r);
    FirstRun(p, t.live, t.epoch, r);
    ResetRun(p, t.live, t.epoch, h, dir, r);
    var (t1, st1) := Rebase(LoggedAt(live, epoch, r), st, h, dir, r);
    RebaseState(LoggedAt(live, epoch, r), st, h, dir, r);
    CascadeState(t1, st1, h, r);
    var s := t.live.conn[h];
    assert s == AfterReset(st1, r).(qrOpen := s.qrOpen);
    RebirthAfterReset(st, s.qrOpen, dir, r);
    RebornMoves(s, dir, r);
    var u := LoggedAt(t.live, t.epoch, r);
    RebaseState(u, s, h, dir, r);
    var (t2, st2) := Rebase(u, s, h, dir, r);
    CascadeState(t2, st2, h, r);
    assert FirstOut(p, t.live, t.epoch, r).1.incarnation != s.incarnation;
  }

  /** A record replayed after its live commit leaves both stores as they are if and only if it is
      replayable: in particular no TCP record that is not a reset is. */
  lemma ReplayIsIdleExactly(p: Params, live: Live, epoch: Epoch, r: IndexedRecord)
    ensures var t := RunBatch(p, live, epoch, [r]);
            RunBatch(p, t.live, t.epoch, [r]) == t <==> Replayable(p, live, epoch, r)
  {
    if r.rec.proto != TCP {
      OneUnfold(p, live, epoch, r);
      CommittedBegin(live, epoch);
      var t := RunBatch(p, live, epoch, [r]);
      OneUnfold(p, t.live, t.epoch, r);
      CommittedBegin(t.live, t.epoch);
    } else if !r.rec.rst {
      OrdinaryReplayCounts(p, live, epoch, r);
    } else if Replayable(p, live, epoch, r) {
      ReplayableResetIsIdle(p, live, epoch, r);
    } else {
      UnsettledResetRebirths(p, live, epoch, r);
    }
  }
}
