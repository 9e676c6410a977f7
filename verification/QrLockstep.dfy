/** Replay and batching. Two runs over the same live rows, one of which may already own epoch rows
    the other still has to write, make the same primitive writes and commit the same stores. From
    this follow convergence after a crash between the two commits and independence of batch cuts. */
module QrLockstep {
  import opened Common
  import opened Connection
  import opened SeqStreams
  import opened Store
  import opened Qr

  ghost predicate AllPending(pair: map<nat, QrPair>) {
    forall q :: q in pair ==> pair[q].status == PENDING
  }

  /** Same live rows; `a`'s epoch inside `b`'s, `b`'s inside `bound`. CONN_STATE may differ. */
  ghost predicate Twin(a: Txns, b: Txns, bound: Epoch) {
    && a.live.pair == b.live.pair && a.live.pending == b.live.pending && a.live.ttl == b.live.ttl
    && AllPending(a.live.pair)
    && Sub(a.epoch, b.epoch) && Sub(b.epoch, bound)
  }

  /** Endings the matcher and the timeout scan use. */
  predicate Terminal(o: Outcome) { o.Answered? || o.status in {TIMEOUT, UNMATCHED, RST_ABORT} }

  /** A write that record `r` may make on connection `h`: it opens only its own request, as PENDING,
      puts only its own secondary index rows, and settles requests terminally. */
  predicate ProperPrim(p: Prim, h: nat, r: IndexedRecord) {
    match p
    case Put(k, _) => OwnIndexRow(k, h, r)
    case Open(q, row, pk, _, tk, _) =>
      row.status == PENDING && pk.h == h && q == r.Idx() && tk == TtlKey(r.rec.ts, h)
    case Settle(_, o) => Terminal(o)
    case Drop(pk, _) => pk.h == h
  }

  predicate OwnIndexRow(k: EKey, h: nat, r: IndexedRecord) {
    match k
    case KPair(_) => false
    case KRecord(_, _) => false
    case KPacket(i) => i == r.Idx()
    case KConnQr(c, ts, q) => c == h && ts == r.rec.ts && q == r.Idx()
    case KQrKey(_, ts, q) => ts == r.rec.ts && q == r.Idx()
    case KQrTime(ts, q) => ts == r.rec.ts && q == r.Idx()
  }

  ghost predicate Proper(ps: seq<Prim>, h: nat, r: IndexedRecord) {
    forall i :: 0 <= i < |ps| ==> ProperPrim(ps[i], h, r)
  }

  lemma Exec1Grows(t: Txns, p: Prim)
    ensures Sub(t.epoch, Exec1(t, p).epoch) && Exec1(t, p).live.conn == t.live.conn
  {}

  lemma {:induction false} ExecGrows(t: Txns, ps: seq<Prim>)
    ensures Sub(t.epoch, Exec(t, ps).epoch) && Exec(t, ps).live.conn == t.live.conn
    decreases |ps|
  {
    if ps != [] {
      Exec1Grows(t, ps[0]);
      ExecGrows(Exec1(t, ps[0]), ps[1..]);
    }
  }

  lemma Exec1Twin(a: Txns, b: Txns, bound: Epoch, p: Prim)
    requires Twin(a, b, bound) && Sub(Exec1(a, p).epoch, bound)
    requires p.Open? ==> p.row.status == PENDING
    ensures Twin(Exec1(a, p), Exec1(b, p), bound)
  {
    match p
    case Put(k, v) =>
    case Open(q, row, pk, pv, tk, tv) =>
    case Settle(q, o) =>
      if KPair(q) in b.epoch && Moves(a, q) {
        assert KPair(q) in Exec1(a, p).epoch;
      }
    case Drop(pk, tk) =>
  }

  lemma {:induction false} ExecTwin(a: Txns, b: Txns, bound: Epoch, ps: seq<Prim>, h: nat, r: IndexedRecord)
    requires Twin(a, b, bound) && Sub(Exec(a, ps).epoch, bound) && Proper(ps, h, r)
    ensures Twin(Exec(a, ps), Exec(b, ps), bound)
    decreases |ps|
  {
    if ps != [] {
      ExecGrows(Exec1(a, ps[0]), ps[1..]);
      Exec1Twin(a, b, bound, ps[0]);
      ExecTwin(Exec1(a, ps[0]), Exec1(b, ps[0]), bound, ps[1..], h, r);
    }
  }

  predicate Terminates(e: Ending) { e.ByAnswer? || e.status in {TIMEOUT, UNMATCHED, RST_ABORT} }

  lemma {:induction false} EndFromProper(e: Ending, hits: seq<Hit>, i: nat, h: nat, r: IndexedRecord)
    requires i <= |hits| && Terminates(e)
    requires forall k :: 0 <= k < |hits| ==> hits[k].key.h == h
    ensures Proper(EndFrom(e, hits, i), h, r)
    decreases |hits| - i
  {
    if i < |hits| {
      EndFromProper(e, hits, i + 1, h, r);
    }
  }

  // ---- Only the record's own connection is touched ----

  ghost predicate OthersKept(m: map<PendKey, PendVal>, n: map<PendKey, PendVal>, h: nat) {
    forall k: PendKey :: k.h != h ==> (k in m <==> k in n) && (k in m ==> n[k] == m[k])
  }

  lemma {:induction false} ExecFrame(t: Txns, ps: seq<Prim>, h: nat, r: IndexedRecord)
    requires Proper(ps, h, r)
    ensures OthersKept(t.live.pending, Exec(t, ps).live.pending, h)
    decreases |ps|
  {
    if ps != [] {
      var t1 := Exec1(t, ps[0]);
      assert OthersKept(t.live.pending, t1.live.pending, h);
      ExecFrame(t1, ps[1..], h, r);
    }
  }

  lemma CountFrame(m: map<PendKey, PendVal>, n: map<PendKey, PendVal>, h: nat, other: nat)
    requires OthersKept(m, n, h) && other != h
    ensures PendingOf(m, other) == PendingOf(n, other)
  {}

  // ---- One record ----

  /** What record `r` does to the transactions: some plan of proper writes on connection `h`. */
  ghost predicate ByPlan(t: Txns, t': Txns, h: nat, r: IndexedRecord) {
    exists ps: seq<Prim> :: Proper(ps, h, r) && t' == Exec(t, ps)
  }

  lemma {:induction false} ExecConcat(t: Txns, ps: seq<Prim>, qs: seq<Prim>)
    ensures Exec(t, ps + qs) == Exec(Exec(t, ps), qs)
    decreases |ps|
  {
    if ps == [] {
      assert ps + qs == qs;
    } else {
      assert (ps + qs)[1..] == ps[1..] + qs;
      ExecConcat(Exec1(t, ps[0]), ps[1..], qs);
    }
  }

  lemma ByPlanTrans(t: Txns, u: Txns, v: Txns, h: nat, r: IndexedRecord)
    requires ByPlan(t, u, h, r) && ByPlan(u, v, h, r)
    ensures ByPlan(t, v, h, r)
  {
    var ps: seq<Prim> :| Proper(ps, h, r) && u == Exec(t, ps);
    var qs: seq<Prim> :| Proper(qs, h, r) && v == Exec(u, qs);
    ExecConcat(t, ps, qs);
    assert Proper(ps + qs, h, r);
  }

  lemma ByPlanRefl(t: Txns, h: nat, r: IndexedRecord)
    ensures ByPlan(t, t, h, r)
  {
    var none: seq<Prim> := [];
    assert Proper(none, h, r) && t == Exec(t, none);
  }

  lemma EndingByPlan(t: Txns, e: Ending, h: nat, inc: nat, limit: nat, r: IndexedRecord)
    requires Terminates(e)
    ensures ByPlan(t, Exec(t, EndFrom(e, Scan(t.live.pending, h, inc, limit), 0)), h, r)
  {
    ScanOrder(t.live.pending, h, inc, limit);
    EndFromProper(e, Scan(t.live.pending, h, inc, limit), 0, h, r);
  }

  lemma RebaseByPlan(t: Txns, st: ConnState, h: nat, dir: Dir, r: IndexedRecord)
    ensures ByPlan(t, Rebase(t, st, h, dir, r).0, h, r)
  {
    EndingByPlan(t, ByStatus(UNMATCHED), h, st.incarnation, U48_MAX, r);
    ByPlanRefl(t, h, r);
  }

  lemma RequestByPlan(p: Params, t: Txns, st: ConnState, h: nat, r: IndexedRecord, fed: Fed)
    ensures ByPlan(t, Request(p, t, st, h, r, fed).0, h, r)
  {
    ByPlanRefl(t, h, r);
    var plan := OpenPlan(p, st, h, r, fed.absStart, SatAdd(fed.absStart, fed.novel));
    assert Proper(plan, h, r);
  }

  lemma ResponseByPlan(p: Params, t: Txns, st: ConnState, h: nat, r: IndexedRecord, fed: Fed, client: Stream)
    ensures ByPlan(t, Response(p, t, st, h, r, fed, client).0, h, r)
  {
    ByPlanRefl(t, h, r);
    var limit := SatAdd(AbsOf(client, r.rec.ackNo), p.ackTol);
    EndingByPlan(t, ByAnswer(r), h, st.incarnation, limit, r);
  }

  lemma ExchangeByPlan(p: Params, t: Txns, st: ConnState, h: nat, dir: Dir, r: IndexedRecord)
    ensures ByPlan(t, Exchange(p, t, st, h, dir, r).0, h, r)
  {
    var fed := Feed(StreamOf(st, dir), r.rec.seqNo, r.rec.origLen);
    var st1 := Count(Handshake(st, dir, r), dir, r);
    if dir == C2S {
      RequestByPlan(p, t, st1, h, r, fed);
    } else {
      ResponseByPlan(p, t, st1, h, r, fed, StreamC(st));
    }
  }

  /** Everything one record does to the stores is a plan of proper primitive writes. */
  lemma ProcessByPlan(p: Params, t: Txns, st: ConnState, h: nat, dir: Dir, r: IndexedRecord)
    ensures ByPlan(t, Process(p, t, st, h, dir, r).0, h, r)
  {
    var (t1, st1) := Rebase(t, st, h, dir, r);
    RebaseByPlan(t, st, h, dir, r);
    if r.rec.rst {
      EndingByPlan(t1, ByStatus(RST_ABORT), h, st1.incarnation, U48_MAX, r);
    } else {
      ExchangeByPlan(p, t1, st1, h, dir, r);
    }
    ByPlanTrans(t, t1, Process(p, t, st, h, dir, r).0, h, r);
  }

  lemma PlanGrows(t: Txns, t': Txns, h: nat, r: IndexedRecord)
    requires ByPlan(t, t', h, r)
    ensures Sub(t.epoch, t'.epoch) && t'.live.conn == t.live.conn
    ensures OthersKept(t.live.pending, t'.live.pending, h)
  {
    var ps: seq<Prim> :| Proper(ps, h, r) && t' == Exec(t, ps);
    ExecGrows(t, ps);
    ExecFrame(t, ps, h, r);
  }

  // ---- Only client payload opens a request ----

  /** `u` has no request that `t` has not, and endings of requests of `t` only. */
  ghost predicate OpensNone(t: Txns, u: Txns) {
    && Sub(u.live.pair, t.live.pair)
    && u.live.pending.Keys <= t.live.pending.Keys && u.live.ttl.Keys <= t.live.ttl.Keys
    && forall q :: KPair(q) in u.epoch ==> KPair(q) in t.epoch || q in t.live.pair
  }

  lemma {:induction false} EndingOpensNone(t: Txns, e: Ending, hits: seq<Hit>, i: nat)
    requires i <= |hits|
    ensures OpensNone(t, Exec(t, EndFrom(e, hits, i)))
    decreases |hits| - i
  {
    if i < |hits| {
      var ps := EndFrom(e, hits, i);
      assert ps[1..][1..] == EndFrom(e, hits, i + 1);
      var u := Exec1(Exec1(t, ps[0]), ps[1]);
      assert OpensNone(t, u);
      EndingOpensNone(u, e, hits, i + 1);
    }
  }

  predicate MayOpen(dir: Dir, r: IndexedRecord) { dir == C2S && !r.rec.rst && r.rec.origLen > 0 }

  lemma RebaseOpensNone(t: Txns, st: ConnState, h: nat, dir: Dir, r: IndexedRecord)
    ensures OpensNone(t, Rebase(t, st, h, dir, r).0)
  {
    EndingOpensNone(t, ByStatus(UNMATCHED), Scan(t.live.pending, h, st.incarnation, U48_MAX), 0);
  }

  lemma ResponseOpensNone(p: Params, t: Txns, st: ConnState, h: nat, r: IndexedRecord, fed: Fed, client: Stream)
    ensures OpensNone(t, Response(p, t, st, h, r, fed, client).0)
  {
    var limit := SatAdd(AbsOf(client, r.rec.ackNo), p.ackTol);
    EndingOpensNone(t, ByAnswer(r), Scan(t.live.pending, h, st.incarnation, limit), 0);
  }

  lemma ServerOpensNone(p: Params, t: Txns, st: ConnState, h: nat, r: IndexedRecord)
    ensures OpensNone(t, Exchange(p, t, st, h, S2C, r).0)
  {
    var st1 := Count(Handshake(st, S2C, r), S2C, r);
    ResponseOpensNone(p, t, st1, h, r, Feed(StreamS(st), r.rec.seqNo, r.rec.origLen), StreamC(st));
  }

  lemma OpensNoneTrans(t: Txns, u: Txns, v: Txns)
    requires OpensNone(t, u) && OpensNone(u, v)
    ensures OpensNone(t, v)
  {}

  /** Server records, resets and records without payload open no request. */
  lemma ProcessOpensNone(p: Params, t: Txns, st: ConnState, h: nat, dir: Dir, r: IndexedRecord)
    requires !MayOpen(dir, r)
    ensures OpensNone(t, Process(p, t, st, h, dir, r).0)
  {
    var (t1, st1) := Rebase(t, st, h, dir, r);
    RebaseOpensNone(t, st, h, dir, r);
    if r.rec.rst {
      EndingOpensNone(t1, ByStatus(RST_ABORT), Scan(t1.live.pending, h, st1.incarnation, U48_MAX), 0);
    } else if dir == S2C {
      ServerOpensNone(p, t1, st1, h, r);
    } else {
      assert Exchange(p, t1, st1, h, dir, r).0 == t1;
    }
    OpensNoneTrans(t, t1, Process(p, t, st, h, dir, r).0);
  }

  // ---- Lockstep ----

  lemma EndingTwin(a: Txns, b: Txns, bound: Epoch, e: Ending, h: nat, inc: nat, limit: nat, r: IndexedRecord)
    requires Twin(a, b, bound) && Terminates(e)
    requires Sub(Exec(a, EndFrom(e, Scan(a.live.pending, h, inc, limit), 0)).epoch, bound)
    ensures var plan := EndFrom(e, Scan(a.live.pending, h, inc, limit), 0);
            Twin(Exec(a, plan), Exec(b, plan), bound)
  {
    ScanOrder(a.live.pending, h, inc, limit);
    var hits := Scan(a.live.pending, h, inc, limit);
    EndFromProper(e, hits, 0, h, r);
    ExecTwin(a, b, bound, EndFrom(e, hits, 0), h, r);
  }

  lemma RebornNorm(sa: ConnState, sb: ConnState, dir: Dir, r: IndexedRecord)
    requires Norm(sa) == Norm(sb)
    ensures Reborn(sa, dir, r) == Reborn(sb, dir, r)
  {
    assert sb == sa.(qrOpen := sb.qrOpen);
  }

  lemma RebaseTwin(a: Txns, b: Txns, bound: Epoch, sa: ConnState, sb: ConnState, h: nat, dir: Dir, r: IndexedRecord)
    requires Twin(a, b, bound) && Norm(sa) == Norm(sb)
    requires Sub(Rebase(a, sa, h, dir, r).0.epoch, bound)
    ensures Twin(Rebase(a, sa, h, dir, r).0, Rebase(b, sb, h, dir, r).0, bound)
    ensures Norm(Rebase(a, sa, h, dir, r).1) == Norm(Rebase(b, sb, h, dir, r).1)
  {
    assert sb == sa.(qrOpen := sb.qrOpen);
    assert Rebirth(sa, dir, r) == Rebirth(sb, dir, r);
    if Rebirth(sa, dir, r) {
      EndingTwin(a, b, bound, ByStatus(UNMATCHED), h, sa.incarnation, U48_MAX, r);
      RebornNorm(sa, sb, dir, r);
    }
  }

  lemma CascadeTwin(a: Txns, b: Txns, bound: Epoch, sa: ConnState, sb: ConnState, h: nat, r: IndexedRecord)
    requires Twin(a, b, bound) && Norm(sa) == Norm(sb)
    requires Sub(RstCascade(a, sa, h, r).0.epoch, bound)
    ensures Twin(RstCascade(a, sa, h, r).0, RstCascade(b, sb, h, r).0, bound)
    ensures Norm(RstCascade(a, sa, h, r).1) == Norm(RstCascade(b, sb, h, r).1)
  {
    assert sb == sa.(qrOpen := sb.qrOpen);
    EndingTwin(a, b, bound, ByStatus(RST_ABORT), h, sa.incarnation, U48_MAX, r);
  }

  lemma ConsumeTwin(p: Params, a: Txns, b: Txns, bound: Epoch, sa: ConnState, sb: ConnState, h: nat,
                    r: IndexedRecord, ack: nat)
    requires Twin(a, b, bound) && Norm(sa) == Norm(sb)
    requires Sub(ConsumeR(p, a, sa, h, r, ack).0.epoch, bound)
    ensures Twin(ConsumeR(p, a, sa, h, r, ack).0, ConsumeR(p, b, sb, h, r, ack).0, bound)
    ensures Norm(ConsumeR(p, a, sa, h, r, ack).1) == Norm(ConsumeR(p, b, sb, h, r, ack).1)
  {
    assert sb == sa.(qrOpen := sb.qrOpen);
    EndingTwin(a, b, bound, ByAnswer(r), h, sa.incarnation, SatAdd(ack, p.ackTol), r);
  }

  lemma OpenTwin(p: Params, a: Txns, b: Txns, bound: Epoch, sa: ConnState, sb: ConnState, h: nat, r: IndexedRecord,
                 start: nat, end: nat)
    requires Twin(a, b, bound) && Norm(sa) == Norm(sb)
    requires Sub(OpenQ(p, a, sa, h, r, start, end).0.epoch, bound)
    ensures Twin(OpenQ(p, a, sa, h, r, start, end).0, OpenQ(p, b, sb, h, r, start, end).0, bound)
    ensures Norm(OpenQ(p, a, sa, h, r, start, end).1) == Norm(OpenQ(p, b, sb, h, r, start, end).1)
  {
    assert sb == sa.(qrOpen := sb.qrOpen);
    var plan := OpenPlan(p, sa, h, r, start, end);
    assert plan == OpenPlan(p, sb, h, r, start, end);
    assert Proper(plan, h, r);
    ExecTwin(a, b, bound, plan, h, r);
  }

  lemma BookkeepingNorm(sa: ConnState, sb: ConnState, dir: Dir, r: IndexedRecord)
    requires Norm(sa) == Norm(sb)
    ensures Norm(Count(Handshake(sa, dir, r), dir, r)) == Norm(Count(Handshake(sb, dir, r), dir, r))
  {
    assert sb == sa.(qrOpen := sb.qrOpen);
    HandshakeNorm(sa, sb.qrOpen, dir, r);
    CountNorm(Handshake(sa, dir, r), sb.qrOpen, dir, r);
  }

  lemma HandshakeNorm(st: ConnState, n: nat, dir: Dir, r: IndexedRecord)
    ensures Handshake(st.(qrOpen := n), dir, r) == Handshake(st, dir, r).(qrOpen := n)
  {}

  lemma CountNorm(st: ConnState, n: nat, dir: Dir, r: IndexedRecord)
    ensures Count(st.(qrOpen := n), dir, r) == Count(st, dir, r).(qrOpen := n)
  {}

  lemma SaveNorm(st: ConnState, n: nat, c: Stream, s: Stream)
    ensures SaveStreams(st.(qrOpen := n), c, s) == SaveStreams(st, c, s).(qrOpen := n)
  {}

  lemma RequestTwin(p: Params, a: Txns, b: Txns, bound: Epoch, sa: ConnState, sb: ConnState, h: nat,
                    r: IndexedRecord, fed: Fed)
    requires Twin(a, b, bound) && Norm(sa) == Norm(sb)
    requires Sub(Request(p, a, sa, h, r, fed).0.epoch, bound)
    ensures Twin(Request(p, a, sa, h, r, fed).0, Request(p, b, sb, h, r, fed).0, bound)
    ensures Norm(Request(p, a, sa, h, r, fed).1) == Norm(Request(p, b, sb, h, r, fed).1)
  {
    assert sb == sa.(qrOpen := sb.qrOpen);
    var end := SatAdd(fed.absStart, fed.novel);
    if r.rec.origLen != 0 && fed.novel > 0 && end > sa.consumedAckS {
      OpenTwin(p, a, b, bound, sa, sb, h, r, fed.absStart, end);
    }
  }

  lemma ResponseTwin(p: Params, a: Txns, b: Txns, bound: Epoch, sa: ConnState, sb: ConnState, h: nat,
                     r: IndexedRecord, fed: Fed, client: Stream)
    requires Twin(a, b, bound) && Norm(sa) == Norm(sb)
    requires Sub(Response(p, a, sa, h, r, fed, client).0.epoch, bound)
    ensures Twin(Response(p, a, sa, h, r, fed, client).0, Response(p, b, sb, h, r, fed, client).0, bound)
    ensures Norm(Response(p, a, sa, h, r, fed, client).1) == Norm(Response(p, b, sb, h, r, fed, client).1)
  {
    assert sb == sa.(qrOpen := sb.qrOpen);
    var sa1, sb1 := Responded(sa, fed), Responded(sb, fed);
    assert Norm(sa1) == Norm(sb1);
    var ack := AbsOf(client, r.rec.ackNo);
    if Accepted(sa1, client, ack) {
      ConsumeTwin(p, a, b, bound, sa1, sb1, h, r, ack);
    }
  }

  lemma ExchangeTwin(p: Params, a: Txns, b: Txns, bound: Epoch, sa: ConnState, sb: ConnState, h: nat, dir: Dir,
                     r: IndexedRecord)
    requires Twin(a, b, bound) && Norm(sa) == Norm(sb)
    requires Sub(Exchange(p, a, sa, h, dir, r).0.epoch, bound)
    ensures Twin(Exchange(p, a, sa, h, dir, r).0, Exchange(p, b, sb, h, dir, r).0, bound)
    ensures Norm(Exchange(p, a, sa, h, dir, r).1) == Norm(Exchange(p, b, sb, h, dir, r).1)
  {
    assert sb == sa.(qrOpen := sb.qrOpen);
    var fed := Feed(StreamOf(sa, dir), r.rec.seqNo, r.rec.origLen);
    var c := if dir == C2S then fed.stream else StreamC(sa);
    var s := if dir == C2S then StreamS(sa) else fed.stream;
    var sa1, sb1 := Count(Handshake(sa, dir, r), dir, r), Count(Handshake(sb, dir, r), dir, r);
    BookkeepingNorm(sa, sb, dir, r);
    var sa2, sb2;
    if dir == C2S {
      RequestTwin(p, a, b, bound, sa1, sb1, h, r, fed);
      sa2, sb2 := Request(p, a, sa1, h, r, fed).1, Request(p, b, sb1, h, r, fed).1;
    } else {
      ResponseTwin(p, a, b, bound, sa1, sb1, h, r, fed, c);
      sa2, sb2 := Response(p, a, sa1, h, r, fed, c).1, Response(p, b, sb1, h, r, fed, c).1;
    }
    assert sb2 == sa2.(qrOpen := sb2.qrOpen);
    SaveNorm(sa2, sb2.qrOpen, c, s);
  }

  /** Replaying one record against a longer epoch store makes the same live changes. */
  lemma ProcessTwin(p: Params, a: Txns, b: Txns, bound: Epoch, sa: ConnState, sb: ConnState, h: nat, dir: Dir,
                    r: IndexedRecord)
    requires Twin(a, b, bound) && Norm(sa) == Norm(sb)
    requires Sub(Process(p, a, sa, h, dir, r).0.epoch, bound)
    ensures Twin(Process(p, a, sa, h, dir, r).0, Process(p, b, sb, h, dir, r).0, bound)
    ensures Norm(Process(p, a, sa, h, dir, r).1) == Norm(Process(p, b, sb, h, dir, r).1)
  {
    var (a1, sa1) := Rebase(a, sa, h, dir, r);
    var (b1, sb1) := Rebase(b, sb, h, dir, r);
    if r.rec.rst {
      EndingByPlan(a1, ByStatus(RST_ABORT), h, sa1.incarnation, U48_MAX, r);
      PlanGrows(a1, RstCascade(a1, sa1, h, r).0, h, r);
    } else {
      ExchangeByPlan(p, a1, sa1, h, dir, r);
      PlanGrows(a1, Exchange(p, a1, sa1, h, dir, r).0, h, r);
    }
    RebaseTwin(a, b, bound, sa, sb, h, dir, r);
    if r.rec.rst {
      CascadeTwin(a1, b1, bound, sa1, sb1, h, r);
    } else {
      ExchangeTwin(p, a1, b1, bound, sa1, sb1, h, dir, r);
    }
  }

  // ---- Whole batches ----

  /** Two open batches that would commit the same CONN_STATE rows. */
  ghost predicate Sim(a: Batch, b: Batch, bound: Epoch) {
    Twin(a.t, b.t, bound) && Committed(a) == Committed(b)
  }

  lemma CommittedView(b: Batch, h: nat)
    ensures Known(b, h) <==> h in Committed(b)
    ensures Known(b, h) ==> Norm(Cached(b, h)) == Norm(Committed(b)[h])
  {}

  lemma LoggedTwin(a: Txns, b: Txns, bound: Epoch, r: IndexedRecord)
    requires Twin(a, b, bound) && Sub(Logged(a, r).epoch, bound)
    ensures Twin(Logged(a, r), Logged(b, r), bound)
  {
    Exec1Twin(a, b, bound, Put(KRecord(r.rec.ts, r.Idx()), VRecord(SummaryOf(r.rec))));
  }

  lemma WrittenBackPut(conns: map<nat, ConnState>, m: map<PendKey, PendVal>, n: map<PendKey, PendVal>, h: nat,
                       st: ConnState)
    requires OthersKept(m, n, h)
    ensures WrittenBack(conns[h := st], n) == WrittenBack(conns, m)[h := Recounted(st, n, h)]
  {
    var x, y := WrittenBack(conns[h := st], n), WrittenBack(conns, m)[h := Recounted(st, n, h)];
    assert x.Keys == y.Keys;
    forall o | o in x ensures x[o] == y[o] {
      if o != h {
        CountFrame(m, n, h, o);
      }
    }
  }

  lemma OverlayPut<K, V>(base: map<K, V>, over: map<K, V>, k: K, v: V)
    ensures base + over[k := v] == (base + over)[k := v]
  {}

  lemma CommittedPut(b: Batch, t: Txns, h: nat, st: ConnState)
    requires OthersKept(b.t.live.pending, t.live.pending, h) && t.live.conn == b.t.live.conn
    ensures Committed(Batch(t, b.conns[h := st])) == Committed(b)[h := Recounted(st, t.live.pending, h)]
  {
    WrittenBackPut(b.conns, b.t.live.pending, t.live.pending, h, st);
    OverlayPut(b.t.live.conn, WrittenBack(b.conns, b.t.live.pending), h, Recounted(st, t.live.pending, h));
  }

  /** Effect of one record on what the batch would commit: one CONN_STATE row, recounted. */
  lemma CommittedStep(p: Params, b: Batch, r: IndexedRecord)
    requires r.rec.proto == TCP
    ensures var (h, dir) := Locate(p, b, r);
            var out := Process(p, Logged(b.t, r), StateFor(b, h, r), h, dir, r);
            Committed(Ingest(p, b, r))
              == Committed(b)[h := Recounted(out.1, out.0.live.pending, h)]
  {
    var (h, dir) := Locate(p, b, r);
    var t := Logged(b.t, r);
    ProcessByPlan(p, t, StateFor(b, h, r), h, dir, r);
    var out := Process(p, t, StateFor(b, h, r), h, dir, r);
    PlanGrows(t, out.0, h, r);
    CommittedPut(b, out.0, h, out.1);
  }

  lemma IngestSim(p: Params, a: Batch, b: Batch, bound: Epoch, r: IndexedRecord)
    requires Sim(a, b, bound) && Sub(Ingest(p, a, r).t.epoch, bound)
    ensures Sim(Ingest(p, a, r), Ingest(p, b, r), bound)
  {
    if r.rec.proto != TCP {
      LoggedTwin(a.t, b.t, bound, r);
      return;
    }
    CommittedView(a, ForwardHash(p, r));
    CommittedView(b, ForwardHash(p, r));
    CommittedView(a, BackwardHash(p, r));
    CommittedView(b, BackwardHash(p, r));
    var (h, dir) := Locate(p, a, r);
    assert Locate(p, b, r) == (h, dir);
    var sa, sb := StateFor(a, h, r), StateFor(b, h, r);
    assert Norm(sa) == Norm(sb);
    var ta, tb := Logged(a.t, r), Logged(b.t, r);
    ProcessByPlan(p, ta, sa, h, dir, r);
    PlanGrows(ta, Process(p, ta, sa, h, dir, r).0, h, r);
    LoggedTwin(a.t, b.t, bound, r);
    ProcessTwin(p, ta, tb, bound, sa, sb, h, dir, r);
    CommittedStep(p, a, r);
    CommittedStep(p, b, r);
    var oa, ob := Process(p, ta, sa, h, dir, r), Process(p, tb, sb, h, dir, r);
    assert ob.1 == oa.1.(qrOpen := ob.1.qrOpen);
  }

  lemma IngestGrows(p: Params, b: Batch, r: IndexedRecord)
    ensures Sub(b.t.epoch, Ingest(p, b, r).t.epoch)
  {
    if r.rec.proto == TCP {
      var (h, dir) := Locate(p, b, r);
      ProcessByPlan(p, Logged(b.t, r), StateFor(b, h, r), h, dir, r);
      PlanGrows(Logged(b.t, r), Ingest(p, b, r).t, h, r);
    }
  }

  lemma {:induction false} IngestAllGrows(p: Params, b: Batch, rs: seq<IndexedRecord>)
    ensures Sub(b.t.epoch, IngestAll(p, b, rs).t.epoch)
    decreases |rs|
  {
    if rs != [] {
      IngestGrows(p, b, rs[0]);
      IngestAllGrows(p, Ingest(p, b, rs[0]), rs[1..]);
    }
  }

  lemma {:induction false} IngestAllSim(p: Params, a: Batch, b: Batch, bound: Epoch, rs: seq<IndexedRecord>)
    requires Sim(a, b, bound) && Sub(IngestAll(p, a, rs).t.epoch, bound)
    ensures Sim(IngestAll(p, a, rs), IngestAll(p, b, rs), bound)
    decreases |rs|
  {
    if rs != [] {
      IngestAllGrows(p, Ingest(p, a, rs[0]), rs[1..]);
      IngestSim(p, a, b, bound, rs[0]);
      IngestAllSim(p, Ingest(p, a, rs[0]), Ingest(p, b, rs[0]), bound, rs[1..]);
    }
  }
}
