/** Replaying a whole batch after both stores committed it: idle exactly when the batch has no TCP
    record other than resets and no reset that the connections it left would take as new. */
module QrBatchReplay {
  import opened Common
  import opened Connection
  import opened Store
  import opened Qr
  import opened QrBookkeeping
  import opened QrConvergence
  import opened QrCounting
  import opened QrLockstep
  import opened QrLiveRuns
  import opened QrReplay

  predicate AllResets(rs: seq<IndexedRecord>) { forall i :: 0 <= i < |rs| ==> !Ordinary(rs[i]) }

  /** Records of the batch that share a forward key share the backward key. */
  predicate CollisionFree(p: Params, rs: seq<IndexedRecord>) {
    forall i, j :: 0 <= i < |rs| && 0 <= j < |rs| && ForwardHash(p, rs[i]) == ForwardHash(p, rs[j]) ==>
      BackwardHash(p, rs[i]) == BackwardHash(p, rs[j])
  }

  /** Connection and direction of a record against stored connections. */
  function Home(p: Params, l: Live, r: IndexedRecord): (nat, Dir) { Locate(p, Begin(l, map[]), r) }

  lemma HomeIs(p: Params, live: Live, epoch: Epoch, r: IndexedRecord)
    ensures Locate(p, Begin(live, epoch), r) == Home(p, live, r)
  {}

  /** Creating the connection of `r` leaves the connection of a located `x` where it is. */
  lemma HomeStays(p: Params, l: Live, u: Live, x: IndexedRecord, r: IndexedRecord)
    requires Home(p, l, x).0 in l.conn && u.conn.Keys == l.conn.Keys + {Home(p, l, r).0}
    requires ForwardHash(p, x) == ForwardHash(p, r) ==> BackwardHash(p, x) == BackwardHash(p, r)
    ensures Home(p, u, x) == Home(p, l, x)
  {}

  predicate ResetRow(st: ConnState) { st.state == RESET_STATE && SetBit(st.anomalyFlags, RESET) == st.anomalyFlags }

  /** Record `r` was processed, and its connection is reset and has nothing of its incarnation pending. */
  ghost predicate Met(p: Params, t: Txns, r: IndexedRecord) {
    KRecord(r.rec.ts, r.Idx()) in t.epoch && (r.rec.proto == TCP ==> MetAt(t, Home(p, t.live, r).0))
  }

  ghost predicate MetAt(t: Txns, h: nat) {
    && h in t.live.conn && ResetRow(t.live.conn[h])
    && Scan(t.live.pending, h, t.live.conn[h].incarnation, U48_MAX) == []
    && t.live.conn[h].qrOpen == |PendingOf(t.live.pending, h)|
  }

  /** The record starts no incarnation on its stored connection and marks no jump that is not marked. */
  predicate IdleAt(st: ConnState, dir: Dir, r: IndexedRecord) { !Rebirth(st, dir, r) && MarkJump(st, dir, r) == st }

  predicate IdleAgain(p: Params, l: Live, r: IndexedRecord) {
    var (h, dir) := Home(p, l, r);
    r.rec.proto == TCP ==> h in l.conn && IdleAt(l.conn[h], dir, r)
  }

  function Restamped(l: Live, h: nat, ts: nat): Live
    requires h in l.conn
  {
    l.(conn := l.conn[h := l.conn[h].(rstSeen := ts)])
  }

  /** An idle record again: only the time of the last reset moves. */
  lemma QuietStep(p: Params, t: Txns, r: IndexedRecord)
    requires Met(p, t, r) && IdleAgain(p, t.live, r) && !Ordinary(r)
    ensures RunBatch(p, t.live, t.epoch, [r])
         == if r.rec.proto == TCP then Txns(Restamped(t.live, Home(p, t.live, r).0, r.rec.ts), t.epoch) else t
  {
    assert LoggedAt(t.live, t.epoch, r) == t;
    if r.rec.proto != TCP {
      OneUnfold(p, t.live, t.epoch, r);
      CommittedBegin(t.live, t.epoch);
    } else {
      HomeIs(p, t.live, t.epoch, r);
      var (h, dir) := Home(p, t.live, r);
      FirstRun(p, t.live, t.epoch, r);
      ResetRun(p, t.live, t.epoch, h, dir, r);
      QuietCascade(t, t.live.conn[h], h, dir, r);
    }
  }

  lemma QuietCascade(t: Txns, st: ConnState, h: nat, dir: Dir, r: IndexedRecord)
    requires ResetRow(st) && IdleAt(st, dir, r) && Scan(t.live.pending, h, st.incarnation, U48_MAX) == []
    ensures Rebase(t, st, h, dir, r) == (t, st)
    ensures RstCascade(t, st, h, r).0 == t
    ensures Norm(RstCascade(t, st, h, r).1) == Norm(st.(rstSeen := r.rec.ts))
  {
    CascadeState(t, st, h, r);
    assert EndFrom(ByStatus(RST_ABORT), [], 0) == [];
  }

  // ---- The first pass ----

  /** The last reset of connection `h` came at `ts`. */
  predicate StampedBy(l: Live, h: nat, ts: nat) { h in l.conn && l.conn[h].rstSeen == ts }

  /** The connection that a reset meets, after a possible rebirth. */
  ghost function Rebased(p: Params, t: Txns, r: IndexedRecord): ConnState {
    var (h, dir) := Home(p, t.live, r);
    Rebase(LoggedAt(t.live, t.epoch, r), StateFor(Begin(t.live, t.epoch), h, r), h, dir, r).1
  }

  /** One reset: its connection's row is written, some of its requests end, nothing of the incarnation
      stays pending. */
  ghost predicate ResetBy(t: Txns, u: Txns, h: nat, st: ConnState, r: IndexedRecord) {
    && h in u.live.conn && u.live.conn == t.live.conn[h := u.live.conn[h]]
    && Norm(u.live.conn[h]) == Norm(AfterReset(st, r))
    && MetAt(u, h) && StampedBy(u.live, h, r.rec.ts)
    && u.live.pending.Keys <= t.live.pending.Keys && OthersKept(t.live.pending, u.live.pending, h)
    && Sub(t.epoch, u.epoch)
  }

  lemma CascadeLeaves(t: Txns, st: ConnState, h: nat, r: IndexedRecord, n: nat)
    ensures var out := RstCascade(t, st, h, r);
            && ResetRow(out.1.(qrOpen := n)) && out.1.rstSeen == r.rec.ts
            && Norm(out.1) == Norm(AfterReset(st, r))
            && Scan(out.0.live.pending, h, out.1.incarnation, U48_MAX) == []
            && out.0.live.pending.Keys <= t.live.pending.Keys
  {
    CascadeState(t, st, h, r);
    ScanAfterEnding(t, ByStatus(RST_ABORT), h, st.incarnation);
    EndingDrops(t, ByStatus(RST_ABORT), Scan(t.live.pending, h, st.incarnation, U48_MAX), 0);
    ResetFlag(st.anomalyFlags);
  }

  lemma ResetOnce(p: Params, t: Txns, r: IndexedRecord, u: Txns)
    requires r.rec.proto == TCP && r.rec.rst && u == RunBatch(p, t.live, t.epoch, [r])
    ensures ResetBy(t, u, Home(p, t.live, r).0, Rebased(p, t, r), r) && Met(p, u, r)
    ensures Home(p, u.live, r) == Home(p, t.live, r)
  {
    var (h, dir) := Home(p, t.live, r);
    HomeIs(p, t.live, t.epoch, r);
    FirstRun(p, t.live, t.epoch, r);
    LoggedAgain(p, t.live, t.epoch, r);
    ResetRun(p, t.live, t.epoch, h, dir, r);
    HomeIs(p, u.live, u.epoch, r);
    var t0, st := LoggedAt(t.live, t.epoch, r), StateFor(Begin(t.live, t.epoch), h, r);
    var (t1, st1) := Rebase(t0, st, h, dir, r);
    RebaseOpensNone(t0, st, h, dir, r);
    RebaseByPlan(t0, st, h, dir, r);
    PlanGrows(t0, t1, h, r);
    CascadeLeaves(t1, st1, h, r, u.live.conn[h].qrOpen);
    EndingByPlan(t1, ByStatus(RST_ABORT), h, st1.incarnation, U48_MAX, r);
    PlanGrows(t1, RstCascade(t1, st1, h, r).0, h, r);
  }

  lemma ScanShrinks(m: map<PendKey, PendVal>, n: map<PendKey, PendVal>, h: nat, inc: nat)
    requires n.Keys <= m.Keys && Scan(m, h, inc, U48_MAX) == []
    ensures Scan(n, h, inc, U48_MAX) == []
  {
    ScanSize(m, h, inc, U48_MAX);
    ScanSize(n, h, inc, U48_MAX);
    assert ScanKeys(n, h, inc, U48_MAX) <= ScanKeys(m, h, inc, U48_MAX);
  }

  /** A reset leaves what was met before as it was. */
  lemma MetKeeps(p: Params, t: Txns, x: IndexedRecord, r: IndexedRecord, u: Txns)
    requires Met(p, t, x) && r.rec.proto == TCP && r.rec.rst && u == RunBatch(p, t.live, t.epoch, [r])
    requires ForwardHash(p, x) == ForwardHash(p, r) ==> BackwardHash(p, x) == BackwardHash(p, r)
    ensures Met(p, u, x) && (x.rec.proto == TCP ==> Home(p, u.live, x) == Home(p, t.live, x))
  {
    ResetOnce(p, t, r, u);
    if x.rec.proto == TCP {
      HomeStays(p, t.live, u.live, x, r);
      var h, hx := Home(p, t.live, r).0, Home(p, t.live, x).0;
      if hx != h {
        ScanShrinks(t.live.pending, u.live.pending, hx, t.live.conn[hx].incarnation);
        CountFrame(t.live.pending, u.live.pending, h, hx);
      }
    }
  }

  /** Time of the last record of `rs` on connection `h`. */
  function LastStamp(p: Params, l: Live, rs: seq<IndexedRecord>, h: nat): Option<nat> {
    if rs == [] then None
    else
      var r := rs[|rs| - 1];
      if r.rec.proto == TCP && Home(p, l, r).0 == h then Some(r.rec.ts) else LastStamp(p, l, rs[..|rs| - 1], h)
  }

  lemma {:induction false} LastStampSame(p: Params, l: Live, u: Live, rs: seq<IndexedRecord>, h: nat)
    requires forall i :: 0 <= i < |rs| && rs[i].rec.proto == TCP ==> Home(p, u, rs[i]) == Home(p, l, rs[i])
    ensures LastStamp(p, u, rs, h) == LastStamp(p, l, rs, h)
    decreases |rs|
  {
    if rs != [] {
      LastStampSame(p, l, u, rs[..|rs| - 1], h);
    }
  }

  ghost predicate AllMet(p: Params, t: Txns, rs: seq<IndexedRecord>) {
    forall i :: 0 <= i < |rs| ==> Met(p, t, rs[i])
  }

  ghost predicate AllStamped(p: Params, l: Live, rs: seq<IndexedRecord>) {
    forall h :: LastStamp(p, l, rs, h).Some? ==> StampedBy(l, h, LastStamp(p, l, rs, h).value)
  }

  predicate AllIdle(p: Params, l: Live, rs: seq<IndexedRecord>) { forall i :: 0 <= i < |rs| ==> IdleAgain(p, l, rs[i]) }

  lemma OtherRun(p: Params, t: Txns, r: IndexedRecord, u: Txns)
    requires r.rec.proto != TCP && u == RunBatch(p, t.live, t.epoch, [r])
    ensures u.live == t.live && Sub(t.epoch, u.epoch) && Met(p, u, r)
  {
    OneUnfold(p, t.live, t.epoch, r);
    CommittedBegin(t.live, t.epoch);
  }

  /** One more reset, or record of another protocol, after records already met. */
  lemma FirstPassStep(p: Params, t: Txns, xs: seq<IndexedRecord>, r: IndexedRecord, u: Txns)
    requires !Ordinary(r) && CollisionFree(p, xs + [r]) && u == RunBatch(p, t.live, t.epoch, [r])
    requires AllMet(p, t, xs) && AllStamped(p, t.live, xs)
    ensures AllMet(p, u, xs + [r]) && AllStamped(p, u.live, xs + [r])
    ensures forall i :: 0 <= i < |xs| && xs[i].rec.proto == TCP ==> Home(p, u.live, xs[i]) == Home(p, t.live, xs[i])
  {
    var rs := xs + [r];
    assert rs[|xs|] == r && rs[..|xs|] == xs && forall i :: 0 <= i < |xs| ==> rs[i] == xs[i];
    if r.rec.proto != TCP {
      OtherRun(p, t, r, u);
      forall h ensures LastStamp(p, u.live, rs, h) == LastStamp(p, t.live, xs, h) {}
    } else {
      forall i | 0 <= i < |xs|
        ensures Met(p, u, xs[i]) && (xs[i].rec.proto == TCP ==> Home(p, u.live, xs[i]) == Home(p, t.live, xs[i]))
      {
        MetKeeps(p, t, xs[i], r, u);
      }
      ResetOnce(p, t, r, u);
      StampStep(p, t.live, u.live, xs, r);
    }
  }

  lemma StampStep(p: Params, l: Live, u: Live, xs: seq<IndexedRecord>, r: IndexedRecord)
    requires r.rec.proto == TCP && Home(p, u, r) == Home(p, l, r) && AllStamped(p, l, xs)
    requires forall i :: 0 <= i < |xs| && xs[i].rec.proto == TCP ==> Home(p, u, xs[i]) == Home(p, l, xs[i])
    requires var h := Home(p, l, r).0; StampedBy(u, h, r.rec.ts) && u.conn == l.conn[h := u.conn[h]]
    ensures AllStamped(p, u, xs + [r])
  {
    var rs := xs + [r];
    assert rs[|xs|] == r && rs[..|xs|] == xs;
    forall h | LastStamp(p, u, rs, h).Some? ensures StampedBy(u, h, LastStamp(p, u, rs, h).value) {
      LastStampSame(p, l, u, xs, h);
      assert h != Home(p, l, r).0 ==> StampedBy(l, h, LastStamp(p, l, xs, h).value);
    }
  }

  lemma FrontOf(p: Params, rs: seq<IndexedRecord>) returns (xs: seq<IndexedRecord>, r: IndexedRecord)
    requires rs != []
    ensures rs == xs + [r] && |xs| == |rs| - 1 && r == rs[|xs|] && forall i :: 0 <= i < |xs| ==> xs[i] == rs[i]
    ensures CollisionFree(p, rs) ==> CollisionFree(p, xs)
  {
    xs, r := rs[..|rs| - 1], rs[|rs| - 1];
  }

  /** After the first pass every record is met and every connection stamped by its last record. */
  lemma {:induction false} FirstPass(p: Params, live: Live, epoch: Epoch, rs: seq<IndexedRecord>)
    requires AllPending(live.pair) && AllResets(rs) && CollisionFree(p, rs)
    ensures var t := RunBatch(p, live, epoch, rs);
            AllPending(t.live.pair) && AllMet(p, t, rs) && AllStamped(p, t.live, rs)
    decreases |rs|
  {
    if rs == [] {
      EmptyBatch(p, live, epoch);
    } else {
      var xs, r := FrontOf(p, rs);
      var t := RunBatch(p, live, epoch, xs);
      FirstPass(p, live, epoch, xs);
      CutBatch(p, live, epoch, xs, [r]);
      FirstPassStep(p, t, xs, r, RunBatch(p, t.live, t.epoch, [r]));
      CutBatch(p, live, epoch, rs, []);
    }
  }

  // ---- The second pass over idle records ----

  /** `u` is `t` with the times of the last reset as `rs` leaves them. */
  ghost predicate RestampedAs(p: Params, t: Txns, rs: seq<IndexedRecord>, u: Txns) {
    && u.epoch == t.epoch && u.live == t.live.(conn := u.live.conn) && u.live.conn.Keys == t.live.conn.Keys
    && forall h :: h in t.live.conn ==>
         u.live.conn[h] == match LastStamp(p, t.live, rs, h)
                           case None => t.live.conn[h]
                           case Some(ts) => t.live.conn[h].(rstSeen := ts)
  }

  lemma SameHome(p: Params, l: Live, u: Live, r: IndexedRecord)
    requires u.conn.Keys == l.conn.Keys
    ensures Home(p, u, r) == Home(p, l, r)
  {}

  lemma QuietRestamped(p: Params, t: Txns, rs: seq<IndexedRecord>, u: Txns, r: IndexedRecord)
    requires Met(p, t, r) && RestampedAs(p, t, rs, u)
    ensures Met(p, u, r) && (IdleAgain(p, u.live, r) <==> IdleAgain(p, t.live, r))
  {
    if r.rec.proto == TCP {
      SameHome(p, t.live, u.live, r);
      var (h, dir) := Home(p, t.live, r);
      SameTest(t.live.conn[h], u.live.conn[h], dir, r);
    }
  }

  lemma SameTest(a: ConnState, b: ConnState, dir: Dir, r: IndexedRecord)
    requires b == a.(rstSeen := b.rstSeen)
    ensures IdleAt(a, dir, r) <==> IdleAt(b, dir, r)
  {
    assert StreamOf(a, dir) == StreamOf(b, dir);
  }

  lemma RestampedStep(p: Params, t: Txns, xs: seq<IndexedRecord>, r: IndexedRecord, u: Txns, v: Txns)
    requires RestampedAs(p, t, xs, u) && Met(p, u, r)
    requires v == if r.rec.proto == TCP then Txns(Restamped(u.live, Home(p, u.live, r).0, r.rec.ts), u.epoch) else u
    ensures RestampedAs(p, t, xs + [r], v)
  {
    var rs := xs + [r];
    assert rs[|xs|] == r && rs[..|xs|] == xs;
    SameHome(p, t.live, u.live, r);
  }

  /** The second pass over idle records. */
  lemma {:induction false} SecondPass(p: Params, t: Txns, rs: seq<IndexedRecord>)
    requires AllPending(t.live.pair) && AllResets(rs) && AllMet(p, t, rs) && AllIdle(p, t.live, rs)
    ensures RestampedAs(p, t, rs, RunBatch(p, t.live, t.epoch, rs))
    decreases |rs|
  {
    if rs == [] {
      EmptyBatch(p, t.live, t.epoch);
    } else {
      var xs, r := FrontOf(p, rs);
      var u := RunBatch(p, t.live, t.epoch, xs);
      SecondPass(p, t, xs);
      CutBatch(p, t.live, t.epoch, xs, [r]);
      QuietRestamped(p, t, xs, u, r);
      QuietStep(p, u, r);
      RestampedStep(p, t, xs, r, u, RunBatch(p, u.live, u.epoch, [r]));
    }
  }

  lemma StampsAgree(p: Params, t: Txns, rs: seq<IndexedRecord>, u: Txns)
    requires AllStamped(p, t.live, rs) && RestampedAs(p, t, rs, u)
    ensures u == t
  {
    forall h | h in t.live.conn ensures u.live.conn[h] == t.live.conn[h] {
      assert LastStamp(p, t.live, rs, h).Some? ==> StampedBy(t.live, h, LastStamp(p, t.live, rs, h).value);
    }
    assert u.live.conn == t.live.conn;
  }

  // ---- The second pass over a record that is not idle ----

  function IncAt(conn: map<nat, ConnState>, h: nat): nat { if h in conn then conn[h].incarnation else 0 }

  /** `n` rebirths. */
  predicate Turned(inc: nat, inc': nat, n: nat) { inc' == if n == 0 then inc else (inc + n) % U16 }

  lemma TurnedThen(a: nat, b: nat, c: nat, m: nat, n: nat)
    requires Turned(a, b, m) && Turned(b, c, n)
    ensures Turned(a, c, m + n)
  {}

  lemma TurnedMoves(a: nat, b: nat, n: nat)
    requires Turned(a, b, n) && 0 < n < U16
    ensures a != b
  {}

  function SynsIn(rs: seq<IndexedRecord>): nat {
    if rs == [] then 0 else (if rs[0].rec.proto == TCP && rs[0].rec.syn then 1 else 0) + SynsIn(rs[1..])
  }

  lemma ProcessTurns(p: Params, t: Txns, st: ConnState, h: nat, dir: Dir, r: IndexedRecord) returns (n: nat)
    ensures n == (if Rebirth(st, dir, r) then 1 else 0) && (n == 1 ==> r.rec.syn)
    ensures Turned(st.incarnation, Process(p, t, st, h, dir, r).1.incarnation, n)
  {
    TrackedExactly(p, t, st, h, dir, r);
    n := if Rebirth(st, dir, r) then 1 else 0;
  }

  lemma IngestTurns(p: Params, b: Batch, r: IndexedRecord, h: nat) returns (n: nat, inc: nat)
    ensures inc == IncAt(Committed(Ingest(p, b, r)), h) && Turned(IncAt(Committed(b), h), inc, n)
    ensures n <= if r.rec.proto == TCP && r.rec.syn then 1 else 0
  {
    n := 0;
    if r.rec.proto != TCP {
      OtherProtocol(p, b, r);
    } else {
      var at := Locate(p, b, r);
      CommittedView(b, at.0);
      CommittedStep(p, b, r);
      var m := ProcessTurns(p, Logged(b.t, r), StateFor(b, at.0, r), at.0, at.1, r);
      n := if h == at.0 then m else 0;
    }
    inc := IncAt(Committed(Ingest(p, b, r)), h);
  }

  /** Connection `h` was reborn at most as often as `rs` carries SYNs. */
  ghost predicate TurnedBy(a: map<nat, ConnState>, b: map<nat, ConnState>, h: nat, rs: seq<IndexedRecord>) {
    exists n: nat :: n <= SynsIn(rs) && Turned(IncAt(a, h), IncAt(b, h), n)
  }

  lemma TurnedNone(a: map<nat, ConnState>, h: nat)
    ensures TurnedBy(a, a, h, [])
  {
    assert Turned(IncAt(a, h), IncAt(a, h), 0);
  }

  lemma TurnedStep(a: map<nat, ConnState>, b: map<nat, ConnState>, c: map<nat, ConnState>, h: nat,
                   rs: seq<IndexedRecord>, m: nat)
    requires rs != [] && TurnedBy(b, c, h, rs[1..]) && Turned(IncAt(a, h), IncAt(b, h), m)
    requires m <= if rs[0].rec.proto == TCP && rs[0].rec.syn then 1 else 0
    ensures TurnedBy(a, c, h, rs)
  {
    var k: nat :| k <= SynsIn(rs[1..]) && Turned(IncAt(b, h), IncAt(c, h), k);
    TurnedThen(IncAt(a, h), IncAt(b, h), IncAt(c, h), m, k);
  }

  lemma {:induction false} IngestAllTurns(p: Params, b: Batch, rs: seq<IndexedRecord>, h: nat)
    ensures TurnedBy(Committed(b), Committed(IngestAll(p, b, rs)), h, rs)
    decreases |rs|
  {
    if rs == [] {
      TurnedNone(Committed(b), h);
    } else {
      var b1 := Ingest(p, b, rs[0]);
      var m, mid := IngestTurns(p, b, rs[0], h);
      IngestAllTurns(p, b1, rs[1..], h);
      TurnedStep(Committed(b), Committed(b1), Committed(IngestAll(p, b1, rs[1..])), h, rs, m);
    }
  }

  lemma BatchTurns(p: Params, t: Txns, rs: seq<IndexedRecord>, h: nat)
    ensures TurnedBy(t.live.conn, RunBatch(p, t.live, t.epoch, rs).live.conn, h, rs)
  {
    CommittedBegin(t.live, t.epoch);
    IngestAllTurns(p, Begin(t.live, t.epoch), rs, h);
  }

  /** A jump is marked. */
  predicate Gapped(st: ConnState) { (st.anomalyFlags / SEQ_GAP) % 2 == 1 }

  predicate GapAt(conn: map<nat, ConnState>, h: nat) { h in conn && Gapped(conn[h]) }

  lemma GapStays(st: ConnState, t: Txns, h: nat, dir: Dir, r: IndexedRecord)
    requires Gapped(st)
    ensures var (t1, st1) := Rebase(t, st, h, dir, r); Gapped(RstCascade(t1, st1, h, r).1)
  {
    var (t1, st1) := Rebase(t, st, h, dir, r);
    RebaseState(t, st, h, dir, r);
    GapFlag(st.anomalyFlags);
    CascadeState(t1, st1, h, r);
    ResetFlag(st1.anomalyFlags);
  }

  lemma IngestKeepsGap(p: Params, b: Batch, r: IndexedRecord, h: nat)
    requires GapAt(Committed(b), h) && !Ordinary(r)
    ensures GapAt(Committed(Ingest(p, b, r)), h)
  {
    if r.rec.proto != TCP {
      OtherProtocol(p, b, r);
    } else {
      var at := Locate(p, b, r);
      CommittedView(b, at.0);
      CommittedStep(p, b, r);
      if h == at.0 {
        GapStays(StateFor(b, h, r), Logged(b.t, r), h, at.1, r);
      }
    }
  }

  lemma {:induction false} IngestAllKeepsGap(p: Params, b: Batch, rs: seq<IndexedRecord>, h: nat)
    requires GapAt(Committed(b), h) && AllResets(rs)
    ensures GapAt(Committed(IngestAll(p, b, rs)), h)
    decreases |rs|
  {
    if rs != [] {
      IngestKeepsGap(p, b, rs[0], h);
      IngestAllKeepsGap(p, Ingest(p, b, rs[0]), rs[1..], h);
    }
  }

  lemma BatchKeepsGap(p: Params, t: Txns, rs: seq<IndexedRecord>, h: nat)
    requires GapAt(t.live.conn, h) && AllResets(rs)
    ensures GapAt(RunBatch(p, t.live, t.epoch, rs).live.conn, h)
  {
    CommittedBegin(t.live, t.epoch);
    IngestAllKeepsGap(p, Begin(t.live, t.epoch), rs, h);
  }

  lemma BusyRow(st: ConnState, dir: Dir, r: IndexedRecord, n: nat)
    requires !IdleAt(st, dir, r)
    ensures var st1 := if Rebirth(st, dir, r) then Reborn(st, dir, r) else MarkJump(st, dir, r);
            var s := AfterReset(st1, r).(qrOpen := n);
            if Rebirth(st, dir, r) then r.rec.syn && Turned(st.incarnation, s.incarnation, 1)
            else !Gapped(st) && Gapped(s)
  {
    var st1 := if Rebirth(st, dir, r) then Reborn(st, dir, r) else MarkJump(st, dir, r);
    GapFlag(st.anomalyFlags);
    ResetFlag(st1.anomalyFlags);
  }

  /** What a record that is not idle leaves behind. */
  lemma BusyStep(p: Params, t: Txns, r: IndexedRecord, u: Txns)
    requires r.rec.proto == TCP && r.rec.rst && Met(p, t, r) && !IdleAgain(p, t.live, r)
    requires u == RunBatch(p, t.live, t.epoch, [r])
    ensures var h := Home(p, t.live, r).0;
            || (r.rec.syn && Turned(IncAt(t.live.conn, h), IncAt(u.live.conn, h), 1))
            || (!GapAt(t.live.conn, h) && GapAt(u.live.conn, h))
  {
    var (h, dir) := Home(p, t.live, r);
    var st := t.live.conn[h];
    ResetOnce(p, t, r, u);
    RebasedIs(p, t, r);
    assert u.live.conn[h] == AfterReset(Rebased(p, t, r), r).(qrOpen := u.live.conn[h].qrOpen);
    BusyRow(st, dir, r, u.live.conn[h].qrOpen);
  }

  lemma RebasedIs(p: Params, t: Txns, r: IndexedRecord)
    ensures var (h, dir) := Home(p, t.live, r);
            var st := StateFor(Begin(t.live, t.epoch), h, r);
            Rebased(p, t, r) == if Rebirth(st, dir, r) then Reborn(st, dir, r) else MarkJump(st, dir, r)
  {
    var (h, dir) := Home(p, t.live, r);
    RebaseState(LoggedAt(t.live, t.epoch, r), StateFor(Begin(t.live, t.epoch), h, r), h, dir, r);
  }

  lemma {:induction false} SynsSplit(xs: seq<IndexedRecord>, ys: seq<IndexedRecord>)
    ensures SynsIn(xs + ys) == SynsIn(xs) + SynsIn(ys)
    decreases |xs|
  {
    if xs == [] {
      assert xs + ys == ys;
    } else {
      assert (xs + ys)[1..] == xs[1..] + ys;
      SynsSplit(xs[1..], ys);
    }
  }

  predicate LeftTrace(a: map<nat, ConnState>, b: map<nat, ConnState>, h: nat) {
    IncAt(b, h) != IncAt(a, h) || GapAt(b, h) != GapAt(a, h)
  }

  lemma TraceLasts(a: map<nat, ConnState>, b: map<nat, ConnState>, c: map<nat, ConnState>, h: nat,
                   ys: seq<IndexedRecord>)
    requires TurnedBy(b, c, h, ys) && (GapAt(b, h) ==> GapAt(c, h))
    requires (1 + SynsIn(ys) < U16 && Turned(IncAt(a, h), IncAt(b, h), 1)) || (!GapAt(a, h) && GapAt(b, h))
    ensures LeftTrace(a, c, h)
  {
    var n: nat :| n <= SynsIn(ys) && Turned(IncAt(b, h), IncAt(c, h), n);
    if 1 + SynsIn(ys) < U16 && Turned(IncAt(a, h), IncAt(b, h), 1) {
      TurnedThen(IncAt(a, h), IncAt(b, h), IncAt(c, h), 1, n);
      TurnedMoves(IncAt(a, h), IncAt(c, h), 1 + n);
    }
  }

  /** Whatever follows, a record that is not idle leaves a trace on its connection. */
  lemma BusyLasts(p: Params, u: Txns, r: IndexedRecord, v: Txns, ys: seq<IndexedRecord>)
    returns (w: map<nat, ConnState>)
    requires r.rec.proto == TCP && r.rec.rst && Met(p, u, r) && !IdleAgain(p, u.live, r)
    requires v == RunBatch(p, u.live, u.epoch, [r]) && AllResets(ys)
    requires r.rec.syn ==> 1 + SynsIn(ys) < U16
    ensures w == RunBatch(p, v.live, v.epoch, ys).live.conn && LeftTrace(u.live.conn, w, Home(p, u.live, r).0)
  {
    var h := Home(p, u.live, r).0;
    BusyStep(p, u, r, v);
    BatchTurns(p, v, ys, h);
    w := RunBatch(p, v.live, v.epoch, ys).live.conn;
    if GapAt(v.live.conn, h) {
      BatchKeepsGap(p, v, ys, h);
    }
    TraceLasts(u.live.conn, v.live.conn, w, h, ys);
  }

  /** The records before the first one that is not idle. */
  lemma {:induction false} FirstBusy(p: Params, l: Live, rs: seq<IndexedRecord>) returns (k: nat)
    requires !AllIdle(p, l, rs)
    ensures k < |rs| && !IdleAgain(p, l, rs[k]) && AllIdle(p, l, rs[..k])
    decreases |rs|
  {
    if !IdleAgain(p, l, rs[0]) {
      k := 0;
    } else {
      assert forall i :: 0 < i < |rs| ==> rs[i] == rs[1..][i - 1];
      var j := FirstBusy(p, l, rs[1..]);
      k := j + 1;
      assert forall i :: 0 < i < k ==> rs[..k][i] == rs[1..][..j][i - 1];
    }
  }

  lemma SynsAround(xs: seq<IndexedRecord>, r: IndexedRecord, ys: seq<IndexedRecord>)
    ensures SynsIn(ys) + (if r.rec.proto == TCP && r.rec.syn then 1 else 0) <= SynsIn(xs + ([r] + ys))
  {
    SynsSplit(xs, [r] + ys);
    assert ([r] + ys)[1..] == ys;
  }

  lemma TwoCuts(p: Params, t: Txns, xs: seq<IndexedRecord>, r: IndexedRecord, ys: seq<IndexedRecord>, u: Txns, v: Txns)
    requires AllPending(t.live.pair)
    requires u == RunBatch(p, t.live, t.epoch, xs) && v == RunBatch(p, u.live, u.epoch, [r])
    ensures RunBatch(p, t.live, t.epoch, xs + ([r] + ys)) == RunBatch(p, v.live, v.epoch, ys)
  {
    CutBatch(p, t.live, t.epoch, xs, [r] + ys);
    CutBatch(p, u.live, u.epoch, [r], ys);
  }

  lemma RestampedTrace(p: Params, t: Txns, rs: seq<IndexedRecord>, u: Txns, h: nat)
    requires RestampedAs(p, t, rs, u)
    ensures IncAt(u.live.conn, h) == IncAt(t.live.conn, h) && GapAt(u.live.conn, h) == GapAt(t.live.conn, h)
  {}

  /** The batch around its first record that is not idle. */
  lemma BusySplit(p: Params, t: Txns, rs: seq<IndexedRecord>)
    returns (xs: seq<IndexedRecord>, r: IndexedRecord, ys: seq<IndexedRecord>)
    requires AllResets(rs) && AllMet(p, t, rs) && !AllIdle(p, t.live, rs) && SynsIn(rs) < U16
    ensures rs == xs + ([r] + ys) && AllResets(xs) && AllResets(ys) && AllMet(p, t, xs) && AllIdle(p, t.live, xs)
    ensures r.rec.proto == TCP && r.rec.rst && Met(p, t, r) && !IdleAgain(p, t.live, r)
    ensures r.rec.syn ==> 1 + SynsIn(ys) < U16
  {
    var k := FirstBusy(p, t.live, rs);
    xs, r, ys := rs[..k], rs[k], rs[k + 1..];
    CutAround(rs, k);
    SynsAround(xs, r, ys);
    PartsOfResets(p, t, rs, k);
  }

  lemma CutAround<T>(s: seq<T>, k: nat)
    requires k < |s|
    ensures s == s[..k] + ([s[k]] + s[k + 1..])
  {}

  lemma PartsOfResets(p: Params, t: Txns, rs: seq<IndexedRecord>, k: nat)
    requires AllResets(rs) && AllMet(p, t, rs) && k < |rs|
    ensures AllResets(rs[..k]) && AllResets(rs[k + 1..]) && AllMet(p, t, rs[..k]) && Met(p, t, rs[k])
  {
    assert !Ordinary(rs[k]);
  }

  lemma TraceDiffers(a: map<nat, ConnState>, b: map<nat, ConnState>, h: nat)
    requires LeftTrace(a, b, h)
    ensures a != b
  {}

  lemma TraceBack(p: Params, t: Txns, xs: seq<IndexedRecord>, u: Txns, w: map<nat, ConnState>, h: nat)
    requires RestampedAs(p, t, xs, u) && LeftTrace(u.live.conn, w, h)
    ensures w != t.live.conn
  {
    RestampedTrace(p, t, xs, u, h);
    TraceDiffers(t.live.conn, w, h);
  }

  lemma BusyReplayMoves(p: Params, t: Txns, rs: seq<IndexedRecord>)
    requires AllPending(t.live.pair) && AllResets(rs) && AllMet(p, t, rs) && !AllIdle(p, t.live, rs)
    requires SynsIn(rs) < U16
    ensures RunBatch(p, t.live, t.epoch, rs).live.conn != t.live.conn
  {
    var xs, r, ys := BusySplit(p, t, rs);
    var u := RunBatch(p, t.live, t.epoch, xs);
    var v := RunBatch(p, u.live, u.epoch, [r]);
    TwoCuts(p, t, xs, r, ys, u, v);
    SecondPass(p, t, xs);
    QuietRestamped(p, t, xs, u, r);
    var w := BusyLasts(p, u, r, v, ys);
    TraceBack(p, t, xs, u, w, Home(p, u.live, r).0);
  }

  // ---- The exact condition ----

  lemma {:induction false} NoneOrdinary(rs: seq<IndexedRecord>)
    ensures OrdinaryIn(rs) <= |rs|
    ensures OrdinaryIn(rs) == 0 <==> AllResets(rs)
  {
    if rs != [] {
      NoneOrdinary(rs[1..]);
      assert forall i :: 0 < i < |rs| ==> rs[i] == rs[1..][i - 1];
      assert AllResets(rs) ==> !Ordinary(rs[0]);
    }
  }

  /** Without colliding keys, a committed batch leaves both stores as they are when it is replayed if
      and only if it has no TCP record other than resets, and none of its resets starts an incarnation
      or marks a new jump on the connections as they were committed. */
  lemma BatchReplayIsIdleExactly(p: Params, live: Live, epoch: Epoch, rs: seq<IndexedRecord>)
    requires AllPending(live.pair) && CollisionFree(p, rs) && |rs| < U64 && SynsIn(rs) < U16
    ensures var t := RunBatch(p, live, epoch, rs);
            RunBatch(p, t.live, t.epoch, rs) == t <==> AllResets(rs) && AllIdle(p, t.live, rs)
  {
    var t := RunBatch(p, live, epoch, rs);
    NoneOrdinary(rs);
    if !AllResets(rs) {
      BatchReplayCounts(p, live, epoch, rs);
    } else {
      FirstPass(p, live, epoch, rs);
      if AllIdle(p, t.live, rs) {
        SecondPass(p, t, rs);
        StampsAgree(p, t, rs, RunBatch(p, t.live, t.epoch, rs));
      } else {
        BusyReplayMoves(p, t, rs);
      }
    }
  }

  // ---- Resets without SYN ----

  /** Other protocols, and resets without SYN. */
  predicate Plain(r: IndexedRecord) { r.rec.proto == TCP ==> r.rec.rst && !r.rec.syn }

  predicate AllPlain(rs: seq<IndexedRecord>) { forall i :: 0 <= i < |rs| ==> Plain(rs[i]) }

  lemma MarkedAgain(st: ConnState, n: nat, dir: Dir, r: IndexedRecord)
    requires !r.rec.syn
    ensures IdleAt(AfterReset(MarkJump(st, dir, r), r).(qrOpen := n), dir, r)
  {
    var m := MarkJump(st, dir, r);
    var s := AfterReset(m, r).(qrOpen := n);
    ResetFlag(m.anomalyFlags);
    GapFlag(st.anomalyFlags);
    assert StreamOf(s, dir) == StreamOf(st, dir);
  }

  lemma MarkStays(st: ConnState, n: nat, dx: Dir, x: IndexedRecord, dir: Dir, r: IndexedRecord)
    requires IdleAt(st, dx, x) && !x.rec.syn && !r.rec.syn
    ensures IdleAt(AfterReset(MarkJump(st, dir, r), r).(qrOpen := n), dx, x)
  {
    var m := MarkJump(st, dir, r);
    var s := AfterReset(m, r).(qrOpen := n);
    ResetFlag(m.anomalyFlags);
    GapFlag(st.anomalyFlags);
    assert StreamOf(s, dx) == StreamOf(st, dx);
  }

  lemma PlainRebased(p: Params, t: Txns, r: IndexedRecord)
    requires r.rec.proto == TCP && Plain(r)
    ensures var (h, dir) := Home(p, t.live, r);
            Rebased(p, t, r) == MarkJump(StateFor(Begin(t.live, t.epoch), h, r), dir, r)
  {
    RebasedIs(p, t, r);
  }

  /** A plain reset is idle afterwards, and records idle before it stay so. */
  lemma PlainStep(p: Params, t: Txns, r: IndexedRecord, u: Txns, x: IndexedRecord)
    requires Plain(r) && r.rec.proto == TCP && u == RunBatch(p, t.live, t.epoch, [r]) && Plain(x)
    requires x == r || (IdleAgain(p, t.live, x) && (x.rec.proto == TCP ==> Home(p, u.live, x) == Home(p, t.live, x)))
    ensures IdleAgain(p, u.live, x)
  {
    ResetOnce(p, t, r, u);
    PlainRebased(p, t, r);
    var (h, dir) := Home(p, t.live, r);
    var st := StateFor(Begin(t.live, t.epoch), h, r);
    assert u.live.conn[h] == AfterReset(MarkJump(st, dir, r), r).(qrOpen := u.live.conn[h].qrOpen);
    MarkedAgain(st, u.live.conn[h].qrOpen, dir, r);
    if x != r && x.rec.proto == TCP && Home(p, t.live, x).0 == h {
      MarkStays(st, u.live.conn[h].qrOpen, Home(p, t.live, x).1, x, dir, r);
    }
  }

  lemma PlainPassStep(p: Params, t: Txns, xs: seq<IndexedRecord>, r: IndexedRecord, u: Txns)
    requires AllPlain(xs) && Plain(r) && AllIdle(p, t.live, xs) && u == RunBatch(p, t.live, t.epoch, [r])
    requires forall i :: 0 <= i < |xs| && xs[i].rec.proto == TCP ==> Home(p, u.live, xs[i]) == Home(p, t.live, xs[i])
    ensures AllIdle(p, u.live, xs + [r])
  {
    var rs := xs + [r];
    forall i | 0 <= i < |rs| ensures IdleAgain(p, u.live, rs[i]) {
      if r.rec.proto != TCP {
        OtherRun(p, t, r, u);
        assert i < |xs| ==> IdleAgain(p, t.live, xs[i]);
      } else {
        assert i < |xs| ==> Plain(xs[i]) && IdleAgain(p, t.live, xs[i]);
        PlainStep(p, t, r, u, rs[i]);
      }
    }
  }

  lemma {:induction false} PlainPass(p: Params, live: Live, epoch: Epoch, rs: seq<IndexedRecord>)
    requires AllPending(live.pair) && AllPlain(rs) && CollisionFree(p, rs)
    ensures AllIdle(p, RunBatch(p, live, epoch, rs).live, rs)
    decreases |rs|
  {
    if rs != [] {
      var xs, r := FrontOf(p, rs);
      var t := RunBatch(p, live, epoch, xs);
      PlainPass(p, live, epoch, xs);
      FirstPass(p, live, epoch, xs);
      CutBatch(p, live, epoch, xs, [r]);
      FirstPassStep(p, t, xs, r, RunBatch(p, t.live, t.epoch, [r]));
      PlainPassStep(p, t, xs, r, RunBatch(p, t.live, t.epoch, [r]));
    }
  }

  /** A batch of resets without SYN and other protocols is always idle. */
  lemma PlainReplayIsIdle(p: Params, live: Live, epoch: Epoch, rs: seq<IndexedRecord>)
    requires AllPending(live.pair) && AllPlain(rs) && CollisionFree(p, rs)
    ensures var t := RunBatch(p, live, epoch, rs); RunBatch(p, t.live, t.epoch, rs) == t
  {
    var t := RunBatch(p, live, epoch, rs);
    FirstPass(p, live, epoch, rs);
    PlainPass(p, live, epoch, rs);
    SecondPass(p, t, rs);
    StampsAgree(p, t, rs, RunBatch(p, t.live, t.epoch, rs));
  }
}
