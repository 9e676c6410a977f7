/** One ending per request. Scans and batches, wherever they stop, never write a second ending; a
    rotation may open the way to one, between a stop of a batch and its replay. */
module QrOnce {
  import opened Common
  import opened Connection
  import opened SeqStreams
  import opened Store
  import opened Qr
  import opened QrLockstep
  import opened QrConvergence
  import opened QrLive
  import opened QrDurability
  import opened QrConsume
  import opened Ttl

  /** No request has an ending in two frozen epochs; one that has an ending there is neither pending
      nor in the current epoch. */
  ghost predicate Once(d: Durable) {
    && (forall i, j, q :: 0 <= i < j < |d.past| && KPair(q) in d.past[i] ==> KPair(q) !in d.past[j])
    && (forall j, q :: 0 <= j < |d.past| && KPair(q) in d.past[j] ==> Nowhere(Txns(d.live, d.epoch), q))
  }

  /** No pending request has an ending in the current epoch. */
  ghost predicate Clear(t: Txns) {
    forall q :: q in t.live.pair ==> KPair(q) !in t.epoch
  }

  ghost predicate ClearNow(d: Durable) { Clear(Txns(d.live, d.epoch)) }

  ghost predicate Frozen(d: Durable, q: nat) {
    exists j :: 0 <= j < |d.past| && KPair(q) in d.past[j]
  }

  // ---- One request ----

  /** Ending one request, whatever the two stores hold: it has an ending afterwards exactly when it had one
      or was pending, one that was there stays as it is, and its live row goes in both cases and
      in no other. */
  lemma SettlesExactly(t: Txns, q: nat, o: Outcome)
    ensures var t', k := Migrate(t, q, o), KPair(q);
            && (k in t'.epoch <==> k in t.epoch || (q in t.live.pair && t.live.pair[q].status == PENDING))
            && (k in t.epoch ==> t'.epoch == t.epoch)
            && (q in t'.live.pair <==> q in t.live.pair && k !in t.epoch && t.live.pair[q].status != PENDING)
            && (forall o :: o in t.live.pair && o != q ==> o in t'.live.pair && t'.live.pair[o] == t.live.pair[o])
            && Sub(t.epoch, t'.epoch) && t'.epoch.Keys <= t.epoch.Keys + {k}
  {}

  // ---- One step ----

  lemma CommitOnce(d: Durable, t: Txns, stop: Stop)
    requires Once(d) && forall q :: Frozen(d, q) ==> Nowhere(t, q)
    ensures Once(CommitTo(d, t, stop))
  {
    var d' := CommitTo(d, t, stop);
    forall j, q | 0 <= j < |d'.past| && KPair(q) in d'.past[j] ensures Nowhere(Txns(d'.live, d'.epoch), q) {
      assert KPair(q) in d.past[j];
      assert Frozen(d, q);
    }
  }

  /** A rotation freezes the endings of the current epoch: fine unless one of them is still pending. */
  lemma RotateOnce(d: Durable)
    requires Once(d)
    ensures Once(Durable(d.live, d.past + [d.epoch], map[])) <==> ClearNow(d)
  {
    var d' := Durable(d.live, d.past + [d.epoch], map[]);
    assert d'.past[|d.past|] == d.epoch;
    if ClearNow(d) {
      forall i, j, q | 0 <= i < j < |d'.past| && KPair(q) in d'.past[i] ensures KPair(q) !in d'.past[j] {
        assert KPair(q) in d.past[i];
      }
      forall j, q | 0 <= j < |d'.past| && KPair(q) in d'.past[j] ensures Nowhere(Txns(d'.live, d'.epoch), q) {
        assert j < |d.past| ==> KPair(q) in d.past[j];
      }
    }
  }

  /** No record of the batch has a place whose request a frozen epoch has ended. */
  ghost predicate PlacesOpen(d: Durable, s: Step) {
    s.BatchStep? ==> forall i :: 0 <= i < |s.rs| ==> !Frozen(d, s.rs[i].Idx())
  }

  lemma BatchOnce(p: Params, d: Durable, rs: seq<IndexedRecord>, stop: Stop)
    requires Once(d) && forall i :: 0 <= i < |rs| ==> !Frozen(d, rs[i].Idx())
    ensures Once(CommitTo(d, RunBatch(p, d.live, d.epoch, rs), stop))
  {
    forall q | Frozen(d, q) ensures Nowhere(RunBatch(p, d.live, d.epoch, rs), q) {
      IngestAllNowhere(p, Begin(d.live, d.epoch), rs, q);
    }
    CommitOnce(d, RunBatch(p, d.live, d.epoch, rs), stop);
  }

  lemma ScanNowhere(c: Timeouts, now: nat, t: Txns, q: nat)
    requires Nowhere(t, q)
    ensures Nowhere(TtlScan(c, now, t), q)
  {
    ScanKeeps(c, now, t);
  }

  lemma ScanOnce(d: Durable, c: Timeouts, now: nat, stop: Stop)
    requires Once(d)
    ensures Once(CommitTo(d, TtlScan(c, now, Txns(d.live, d.epoch)), stop))
  {
    forall q | Frozen(d, q) ensures Nowhere(TtlScan(c, now, Txns(d.live, d.epoch)), q) {
      ScanNowhere(c, now, Txns(d.live, d.epoch), q);
    }
    CommitOnce(d, TtlScan(c, now, Txns(d.live, d.epoch)), stop);
  }

  /** Batches and scans, wherever they stop, keep one ending per request; a rotation does exactly when
      no pending request has an ending in the current epoch. */
  lemma TakeOnceExactly(p: Params, d: Durable, s: Step)
    requires Once(d) && PlacesOpen(d, s)
    ensures Once(Take(p, d, s)) <==> (s.RotateStep? ==> ClearNow(d))
  {
    match s
    case BatchStep(rs, stop) => BatchOnce(p, d, rs, stop);
    case ScanStep(c, now, stop) => ScanOnce(d, c, now, stop);
    case RotateStep => RotateOnce(d);
  }

  // ---- Whole runs ----

  ghost predicate AlwaysOnce(p: Params, d: Durable, ss: seq<Step>)
    decreases |ss|
  {
    Once(d) && (ss != [] ==> AlwaysOnce(p, Take(p, d, ss[0]), ss[1..]))
  }

  /** Every rotation finds the current epoch clear of pending requests. */
  ghost predicate ClearRotations(p: Params, d: Durable, ss: seq<Step>)
    decreases |ss|
  {
    ss != [] ==> (ss[0].RotateStep? ==> ClearNow(d)) && ClearRotations(p, Take(p, d, ss[0]), ss[1..])
  }

  ghost predicate AlwaysOpen(p: Params, d: Durable, ss: seq<Step>)
    decreases |ss|
  {
    ss != [] ==> PlacesOpen(d, ss[0]) && AlwaysOpen(p, Take(p, d, ss[0]), ss[1..])
  }

  /** Over any run, with crashes at any point: there is never a second ending exactly when every
      rotation finds no pending request with an ending in the current epoch. */
  lemma {:induction false} OnceExactly(p: Params, d: Durable, ss: seq<Step>)
    requires Once(d) && AlwaysOpen(p, d, ss)
    ensures AlwaysOnce(p, d, ss) <==> ClearRotations(p, d, ss)
    decreases |ss|
  {
    if ss != [] {
      TakeOnceExactly(p, d, ss[0]);
      if Once(Take(p, d, ss[0])) {
        OnceExactly(p, Take(p, d, ss[0]), ss[1..]);
      } else {
        assert !AlwaysOnce(p, Take(p, d, ss[0]), ss[1..]);
      }
    }
  }

  // ---- What keeps the current epoch clear ----

  lemma {:induction false} EndingClear(t: Txns, e: Ending, hits: seq<Hit>, i: nat)
    requires i <= |hits| && Clear(t)
    ensures Clear(Exec(t, EndFrom(e, hits, i)))
    decreases |hits| - i
  {
    if i < |hits| {
      var ps := EndFrom(e, hits, i);
      assert ps[1..][1..] == EndFrom(e, hits, i + 1);
      var u := Exec1(Exec1(t, ps[0]), ps[1]);
      assert Clear(u);
      EndingClear(u, e, hits, i + 1);
    }
  }

  lemma RebaseClear(t: Txns, st: ConnState, h: nat, dir: Dir, r: IndexedRecord)
    requires Clear(t)
    ensures Clear(Rebase(t, st, h, dir, r).0)
  {
    EndingClear(t, ByStatus(UNMATCHED), Scan(t.live.pending, h, st.incarnation, U48_MAX), 0);
  }

  lemma RequestClear(p: Params, t: Txns, st: ConnState, h: nat, r: IndexedRecord, fed: Fed)
    requires Clear(t) && Nowhere(t, r.Idx())
    ensures Clear(Request(p, t, st, h, r, fed).0)
  {
    OpenLive(p, t, st, h, r, fed.absStart, SatAdd(fed.absStart, fed.novel));
  }

  lemma ResponseClear(p: Params, t: Txns, st: ConnState, h: nat, r: IndexedRecord, fed: Fed, client: Stream)
    requires Clear(t)
    ensures Clear(Response(p, t, st, h, r, fed, client).0)
  {
    var limit := SatAdd(AbsOf(client, r.rec.ackNo), p.ackTol);
    EndingClear(t, ByAnswer(r), Scan(t.live.pending, h, st.incarnation, limit), 0);
  }

  lemma ExchangeClear(p: Params, t: Txns, st: ConnState, h: nat, dir: Dir, r: IndexedRecord)
    requires Clear(t) && Nowhere(t, r.Idx())
    ensures Clear(Exchange(p, t, st, h, dir, r).0)
  {
    var fed := Feed(StreamOf(st, dir), r.rec.seqNo, r.rec.origLen);
    var st1 := Count(Handshake(st, dir, r), dir, r);
    if dir == C2S {
      RequestClear(p, t, st1, h, r, fed);
    } else {
      ResponseClear(p, t, st1, h, r, fed, StreamC(st));
    }
  }

  lemma ProcessClear(p: Params, t: Txns, st: ConnState, h: nat, dir: Dir, r: IndexedRecord)
    requires Clear(t) && Nowhere(t, r.Idx())
    ensures Clear(Process(p, t, st, h, dir, r).0)
  {
    var (t1, st1) := Rebase(t, st, h, dir, r);
    RebaseClear(t, st, h, dir, r);
    RebaseOpensNone(t, st, h, dir, r);
    if r.rec.rst {
      EndingClear(t1, ByStatus(RST_ABORT), Scan(t1.live.pending, h, st1.incarnation, U48_MAX), 0);
    } else {
      ExchangeClear(p, t1, st1, h, dir, r);
    }
  }

  function Places(rs: seq<IndexedRecord>): (qs: seq<nat>)
    ensures |qs| == |rs| && forall i :: 0 <= i < |rs| ==> qs[i] == rs[i].Idx()
  {
    seq(|rs|, i requires 0 <= i < |rs| => rs[i].Idx())
  }

  /** The records have different places, none of which the stores know. */
  ghost predicate NewPlaces(t: Txns, rs: seq<IndexedRecord>) {
    AllDifferent(Places(rs)) && forall i :: 0 <= i < |rs| ==> Nowhere(t, Places(rs)[i])
  }

  lemma {:induction false} IngestAllClear(p: Params, b: Batch, rs: seq<IndexedRecord>)
    requires Clear(b.t) && NewPlaces(b.t, rs)
    ensures Clear(IngestAll(p, b, rs).t)
    decreases |rs|
  {
    if rs != [] {
      IngestClear(p, b, rs[0]);
      forall i | 0 <= i < |rs[1..]| ensures Nowhere(Ingest(p, b, rs[0]).t, Places(rs[1..])[i]) {
        assert Places(rs)[i + 1] == Places(rs[1..])[i] != Places(rs)[0];
        OneNowhere(p, b, rs[0], Places(rs)[i + 1]);
      }
      assert Places(rs[1..]) == Places(rs)[1..];
      IngestAllClear(p, Ingest(p, b, rs[0]), rs[1..]);
    }
  }

  lemma IngestClear(p: Params, b: Batch, r: IndexedRecord)
    requires Clear(b.t) && Nowhere(b.t, r.Idx())
    ensures Clear(Ingest(p, b, r).t)
  {
    if r.rec.proto == TCP {
      var (h, dir) := Locate(p, b, r);
      ProcessClear(p, Logged(b.t, r), StateFor(b, h, r), h, dir, r);
    }
  }

  lemma OneNowhere(p: Params, b: Batch, r: IndexedRecord, q: nat)
    requires Nowhere(b.t, q) && r.Idx() != q
    ensures Nowhere(Ingest(p, b, r).t, q)
  {
    IngestAllNowhere(p, b, [r], q);
    assert IngestAll(p, b, [r]) == IngestAll(p, Ingest(p, b, r), []);
  }

  lemma {:induction false} VisitAllClear(c: Timeouts, now: nat, s: Sweep, ks: seq<TtlKey>, ttl: map<TtlKey, TtlVal>)
    requires Clear(s.t) && forall i :: 0 <= i < |ks| ==> ks[i] in ttl
    ensures Clear(VisitAll(c, now, s, ks, ttl).t)
    decreases |ks|
  {
    if ks != [] {
      var s1 := Visit(c, now, s, ks[0], ttl[ks[0]].q);
      assert Clear(s1.t);
      VisitAllClear(c, now, s1, ks[1..], ttl);
    }
  }

  lemma ScanClear(c: Timeouts, now: nat, t: Txns)
    requires Clear(t)
    ensures Clear(TtlScan(c, now, t))
  {
    if c.qrSecs != 0 {
      var ks := TtlKeys(t.live.ttl, c.ScanHi(now));
      assert forall i :: 0 <= i < |ks| ==> ks[i] in ks;
      VisitAllClear(c, now, Sweep(t, map[], 0, 0), ks, t.live.ttl);
    }
  }

  // ---- Runs in which every batch is finished ----

  /** A batch with its failed attempts before the one that completes; a completed scan; a rotation. */
  datatype Round =
    | BatchRound(rs: seq<IndexedRecord>, failed: seq<Crash>)
    | ScanRound(c: Timeouts, now: nat)
    | RotateRound

  function StopOf(c: Crash): Stop { if c.BeforeEpoch? then NothingCommitted else EpochCommitted }

  function Attempts(rs: seq<IndexedRecord>, failed: seq<Crash>): seq<Step> {
    if failed == [] then [BatchStep(rs, Through)]
    else [BatchStep(rs, StopOf(failed[0]))] + Attempts(rs, failed[1..])
  }

  function StepsOf(round: Round): seq<Step> {
    match round
    case BatchRound(rs, failed) => Attempts(rs, failed)
    case ScanRound(c, now) => [ScanStep(c, now, Through)]
    case RotateRound => [RotateStep]
  }

  ghost function Play(p: Params, d: Durable, rounds: seq<Round>): Durable
    decreases |rounds|
  {
    if rounds == [] then d else Play(p, TakeAll(p, d, StepsOf(rounds[0])), rounds[1..])
  }

  /** The failed attempts leave no trace. */
  lemma {:induction false} AttemptsConverge(p: Params, d: Durable, rs: seq<IndexedRecord>, failed: seq<Crash>)
    requires AllPending(d.live.pair)
    ensures TakeAll(p, d, Attempts(rs, failed)) == Take(p, d, BatchStep(rs, Through))
    decreases |failed|
  {
    if failed == [] {
      TakeOne(p, d, BatchStep(rs, Through));
    } else {
      var first := BatchStep(rs, StopOf(failed[0]));
      var d1 := Take(p, d, first);
      AttemptsConverge(p, d1, rs, failed[1..]);
      assert ([first] + Attempts(rs, failed[1..]))[1..] == Attempts(rs, failed[1..]);
      CrashesConverge(p, d.live, d.epoch, rs, [failed[0]]);
      assert AfterCrashes(p, d.live, d.epoch, rs, [failed[0]]) == d1.epoch;
    }
  }

  lemma TakeOne(p: Params, d: Durable, s: Step)
    ensures TakeAll(p, d, [s]) == Take(p, d, s)
  {
    assert TakeAll(p, Take(p, d, s), []) == Take(p, d, s);
  }

  /** The round as one step of a crash-free run. */
  function StepOf(round: Round): Step {
    match round
    case BatchRound(rs, _) => BatchStep(rs, Through)
    case ScanRound(c, now) => ScanStep(c, now, Through)
    case RotateRound => RotateStep
  }

  lemma RoundIsStep(p: Params, d: Durable, round: Round)
    requires AllPending(d.live.pair)
    ensures TakeAll(p, d, StepsOf(round)) == Take(p, d, StepOf(round))
  {
    match round
    case BatchRound(rs, failed) => AttemptsConverge(p, d, rs, failed);
    case _ => TakeOne(p, d, StepOf(round));
  }

  function PlacesOf(rounds: seq<Round>): seq<nat> {
    if rounds == [] then []
    else (if rounds[0].BatchRound? then Places(rounds[0].rs) else []) + PlacesOf(rounds[1..])
  }

  /** One ending per request, and none for a pending one. */
  ghost predicate Settled(d: Durable) { Once(d) && ClearNow(d) && AllPending(d.live.pair) }

  lemma AbsentNowhere(d: Durable, q: nat)
    ensures Absent(d, q) ==> Nowhere(Txns(d.live, d.epoch), q) && !Frozen(d, q)
  {
    assert d.Epochs()[|d.past|] == d.epoch;
    assert forall j :: 0 <= j < |d.past| ==> d.Epochs()[j] == d.past[j];
  }

  lemma StepSettled(p: Params, d: Durable, s: Step)
    requires Settled(d) && (s.RotateStep? || s.stop.Through?)
    requires s.BatchStep? ==> AllDifferent(Places(s.rs)) && forall i :: 0 <= i < |s.rs| ==> Absent(d, Places(s.rs)[i])
    ensures Settled(Take(p, d, s))
  {
    TakeStaysPending(p, d, s);
    if s.BatchStep? {
      forall i | 0 <= i < |s.rs| ensures Nowhere(Txns(d.live, d.epoch), Places(s.rs)[i]) && !Frozen(d, s.rs[i].Idx()) {
        AbsentNowhere(d, Places(s.rs)[i]);
      }
      IngestAllClear(p, Begin(d.live, d.epoch), s.rs);
    } else if s.ScanStep? {
      ScanClear(s.c, s.now, Txns(d.live, d.epoch));
    }
    TakeOnceExactly(p, d, s);
  }

  lemma DifferentParts(a: seq<nat>, b: seq<nat>)
    requires AllDifferent(a + b)
    ensures AllDifferent(a) && AllDifferent(b) && forall i, j :: 0 <= i < |a| && 0 <= j < |b| ==> a[i] != b[j]
  {
    forall i, j | 0 <= i < j < |a| ensures a[i] != a[j] {
      assert (a + b)[i] == a[i] && (a + b)[j] == a[j];
    }
    forall i, j | 0 <= i < j < |b| ensures b[i] != b[j] {
      assert (a + b)[|a| + i] == b[i] && (a + b)[|a| + j] == b[j];
    }
    forall i, j | 0 <= i < |a| && 0 <= j < |b| ensures a[i] != b[j] {
      assert (a + b)[i] == a[i] && (a + b)[|a| + j] == b[j];
    }
  }

  /** Batches that are finished, after any failed attempts, before anything else happens, with places
      never used before: no request ever has a second ending, nor one while it is pending. */
  lemma {:induction false} FinishedRunIsSettled(p: Params, d: Durable, rounds: seq<Round>)
    requires Settled(d) && AllDifferent(PlacesOf(rounds)) && forall x :: x in PlacesOf(rounds) ==> Absent(d, x)
    ensures Settled(Play(p, d, rounds))
    decreases |rounds|
  {
    if rounds != [] {
      var s, later := StepOf(rounds[0]), PlacesOf(rounds[1..]);
      var own := if rounds[0].BatchRound? then Places(rounds[0].rs) else [];
      assert PlacesOf(rounds) == own + later;
      DifferentParts(own, later);
      RoundIsStep(p, d, rounds[0]);
      StepSettled(p, d, s);
      forall x | x in later ensures Absent(Take(p, d, s), x) {
        assert x in PlacesOf(rounds);
        TakeAbsent(p, d, s, x);
      }
      FinishedRunIsSettled(p, Take(p, d, s), rounds[1..]);
    }
  }

  /** Request `q`, once pending as `row`: pending still, and no epoch has it; or ended, in one epoch. */
  ghost predicate OnePlace(d: Durable, q: nat, row: QrPair) {
    || (q in d.live.pair && d.live.pair[q] == row && NoEpochHas(d, q))
    || (q !in d.live.pair
        && exists j :: 0 <= j < |d.Epochs()| && EndedIn(d.Epochs()[j], q, row) && OnlyIn(d, q, j))
  }

  ghost predicate OnlyIn(d: Durable, q: nat, j: nat) {
    forall i :: 0 <= i < |d.Epochs()| && i != j ==> KPair(q) !in d.Epochs()[i]
  }

  lemma SettledIsOnePlace(d: Durable, q: nat, row: QrPair)
    requires Settled(d) && Safe(d, q, row)
    ensures OnePlace(d, q, row)
  {
    assert d.Epochs()[|d.past|] == d.epoch;
    assert forall j :: 0 <= j < |d.past| ==> d.Epochs()[j] == d.past[j];
    if q in d.live.pair {
      assert NoEpochHas(d, q);
    } else {
      var j :| 0 <= j < |d.Epochs()| && EndedIn(d.Epochs()[j], q, row);
      assert OnlyIn(d, q, j);
    }
  }

  lemma {:induction false} PlayIsTake(p: Params, d: Durable, rounds: seq<Round>, q: nat, row: QrPair)
    requires Kept(d, q, row) && row.status == PENDING
    ensures Kept(Play(p, d, rounds), q, row)
    decreases |rounds|
  {
    if rounds != [] {
      TakeAllKeeps(p, d, StepsOf(rounds[0]), q, row);
      PlayIsTake(p, TakeAll(p, d, StepsOf(rounds[0])), rounds[1..], q, row);
    }
  }

  /** In such a run a pending request stays that row, with no ending, or has exactly one ending. */
  lemma RequestHasOnePlace(p: Params, d: Durable, rounds: seq<Round>, q: nat)
    requires Settled(d) && AllDifferent(PlacesOf(rounds)) && forall x :: x in PlacesOf(rounds) ==> Absent(d, x)
    requires q in d.live.pair
    ensures OnePlace(Play(p, d, rounds), q, d.live.pair[q])
  {
    FinishedRunIsSettled(p, d, rounds);
    PlayIsTake(p, d, rounds, q, d.live.pair[q]);
    KeptIsSafe(Play(p, d, rounds), q, d.live.pair[q]);
    SettledIsOnePlace(Play(p, d, rounds), q, d.live.pair[q]);
  }

  // ---- A rotation between a stop and its replay ----

  const TWO_PENDING := Durable(TWO_REQUESTS, [], map[])

  /** The batch dies between its commits, a rotation comes, and then the replay. */
  function RotatedTooEarly(rs: seq<IndexedRecord>): seq<Step> {
    [BatchStep(rs, EpochCommitted), RotateStep, BatchStep(rs, Through)]
  }

  lemma TakeTooEarly(p: Params, d: Durable, rs: seq<IndexedRecord>)
    ensures var t := RunBatch(p, d.live, map[], rs);
            TakeAll(p, d, RotatedTooEarly(rs))
            == Durable(t.live, d.past + [RunBatch(p, d.live, d.epoch, rs).epoch], t.epoch)
  {
    var ss := RotatedTooEarly(rs);
    var d1 := Take(p, d, ss[0]);
    var d2 := Take(p, d1, ss[1]);
    TakeOne(p, d2, ss[2]);
    assert ss[1..][1..] == [ss[2]];
    assert TakeAll(p, d1, ss[1..]) == TakeAll(p, d2, [ss[2]]);
  }

  lemma AnsweredTwice()
    ensures var d' := TakeAll(DEFAULTS, TWO_PENDING, RotatedTooEarly([ACK_100]));
            |d'.past| == 1 && EndedAs(d'.past[0], 1, MATCHED) && EndedAs(d'.epoch, 1, MATCHED)
  {
    CumulativeFails();
    TakeTooEarly(DEFAULTS, TWO_PENDING, [ACK_100]);
  }

  lemma PendingAreSettled()
    ensures Settled(TWO_PENDING)
  {
    TwoAreConsistent();
  }

  /** From stores without any ending: request 1 ends in both epochs. */
  lemma EndedTwice()
    ensures Settled(TWO_PENDING)
    ensures var d' := TakeAll(DEFAULTS, TWO_PENDING, RotatedTooEarly([ACK_100]));
            |d'.past| == 1 && EndedAs(d'.past[0], 1, MATCHED) && EndedAs(d'.epoch, 1, MATCHED)
  {
    PendingAreSettled();
    AnsweredTwice();
  }
}
