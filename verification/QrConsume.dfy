/** Cumulative consumption: which requests one response ends, and how their rows read afterwards. */
module QrConsume {
  import opened Common
  import opened Connection
  import opened SeqStreams
  import opened Store
  import opened Qr
  import opened QrLockstep
  import opened QrLive
  import opened QrDurability
  import opened QrLiveRuns

  ghost predicate AllDifferent(qs: seq<nat>) {
    forall i, j :: 0 <= i < j < |qs| ==> qs[i] != qs[j]
  }

  lemma {:induction false} AddMissingAppends(qs: seq<nat>, others: seq<nat>)
    requires AllDifferent(qs + others)
    ensures AddMissing(qs, others) == qs + others
    decreases |others|
  {
    if others == [] {
      assert qs + others == qs;
    } else {
      assert (qs + others)[|qs|] == others[0];
      assert forall i :: 0 <= i < |qs| ==> (qs + others)[i] == qs[i];
      assert others[0] !in qs;
      assert qs + others == (qs + [others[0]]) + others[1..];
      AddMissingAppends(qs + [others[0]], others[1..]);
    }
  }

  /** Row `q` reads as answered by `r`, standing for the requests `qs`. */
  ghost predicate AnsweredRow(asked: QrPair, row: QrPair, r: IndexedRecord, qs: seq<nat>, key: seq<byte>) {
    row == asked.(status := MATCHED, rTs := r.rec.ts, latencyMs := SatSub(r.rec.ts, asked.qTs) / 1_000_000,
                 rLen := SatAdd32(asked.rLen, r.rec.origLen), rIdx := [r.Idx()], qIdx := qs, respKey := key)
  }

  /** The i-th hit's final row: the first one lists every consumed request, the others themselves. */
  ghost predicate AnsweredHit(t: Txns, e': Epoch, r: IndexedRecord, hits: seq<Hit>, i: nat)
    requires i < |hits|
  {
    var q := hits[i].q;
    && q in t.live.pair && KPair(q) in e' && e'[KPair(q)].VPair?
    && (if i == 0 then AnsweredRow(t.live.pair[q], e'[KPair(q)].row, r, Queries(hits), Prefix32(r.rec.payload))
        else AnsweredRow(t.live.pair[q], e'[KPair(q)].row, r, [q], t.live.pair[q].respKey))
  }

  /** The hits are pending requests without ending, and their rows are as they were opened. */
  ghost predicate Untouched(t: Txns, hits: seq<Hit>) {
    && Endable(t, hits, 0)
    && forall i :: 0 <= i < |hits| ==> t.live.pair[hits[i].q].qIdx == [hits[i].q] && t.live.pair[hits[i].q].rIdx == []
  }

  /** In consistent stores that holds of every scan. */
  lemma GoodIsUntouched(t: Txns, h: nat, st: ConnState, inc: nat, limit: nat)
    requires Good(t, h, st)
    ensures Untouched(t, Scan(t.live.pending, h, inc, limit))
  {
    var hits := Scan(t.live.pending, h, inc, limit);
    ScanEndable(t, h, st, inc, limit);
    forall i | 0 <= i < |hits| ensures t.live.pair[hits[i].q].qIdx == [hits[i].q] && t.live.pair[hits[i].q].rIdx == [] {
      assert RowOk(WithConn(t.live, h, st), hits[i].q);
    }
  }

  /** The requests a response ends are exactly the pending ones of its connection and incarnation with
      `end <= abs_ack + tolerance`, in stream order; the smallest one's row lists them all, once each;
      everything else stays. */
  lemma ConsumeIsExact(p: Params, t: Txns, st: ConnState, h: nat, r: IndexedRecord, ack: nat)
    requires Untouched(t, Scan(t.live.pending, h, st.incarnation, SatAdd(ack, p.ackTol)))
    ensures var limit := SatAdd(ack, p.ackTol);
            var hits := Scan(t.live.pending, h, st.incarnation, limit);
            var out := ConsumeR(p, t, st, h, r, ack);
            && out.0.live == Without(t.live, hits, 0)
            && out.0.live.pending == t.live.pending - ScanKeys(t.live.pending, h, st.incarnation, limit)
            && (forall i :: 0 <= i < |hits| ==> AnsweredHit(t, out.0.epoch, r, hits, i))
            && Sub(t.epoch, out.0.epoch)
            && (forall k :: k in out.0.epoch && k !in t.epoch ==> k.KPair? && k.q in Queries(hits))
            && out.1 == st.(qrOpen := SatSub(st.qrOpen, |hits|), consumedAckS := Max(ack, st.consumedAckS))
  {
    var limit := SatAdd(ack, p.ackTol);
    var hits := Scan(t.live.pending, h, st.incarnation, limit);
    var out := ConsumeR(p, t, st, h, r, ack);
    EndExactLive(t, ByAnswer(r), hits, 0);
    EndExactEpoch(t, ByAnswer(r), hits, 0);
    EndMovesAll(t, ByAnswer(r), hits, 0);
    ScanKeysFrom(t.live.pending, h, st.incarnation, limit);
    forall i | 0 <= i < |hits| ensures AnsweredHit(t, out.0.epoch, r, hits, i) {
      AnswerHit(t, out.0, r, hits, i);
    }
    forall k | k in out.0.epoch && k !in t.epoch ensures k.KPair? && k.q in Queries(hits) {
      var j :| 0 <= j < |hits| && hits[j].q == k.q;
      assert Queries(hits)[j] == k.q;
    }
  }

  lemma FinalAnswer(row: QrPair, r: IndexedRecord, q: nat, others: seq<nat>)
    requires row.qIdx == [q] && row.rIdx == []
    ensures AnsweredRow(row, Final(Answered(r, false, others), row), r, [q], row.respKey)
    ensures AllDifferent([q] + others) ==>
      AnsweredRow(row, Final(Answered(r, true, others), row), r, [q] + others, Prefix32(r.rec.payload))
  {
    if AllDifferent([q] + others) {
      AddMissingAppends([q], others);
    }
  }

  lemma AnswerHit(t: Txns, t': Txns, r: IndexedRecord, hits: seq<Hit>, i: nat)
    requires i < |hits| && Untouched(t, hits) && EndedRow(t, t', ByAnswer(r), hits, i)
    ensures AnsweredHit(t, t'.epoch, r, hits, i)
  {
    assert AllDifferent(Queries(hits));
    FinalAnswer(t.live.pair[hits[i].q], r, hits[i].q, Queries(hits[1..]));
    assert [hits[0].q] + Queries(hits[1..]) == Queries(hits);
  }

  // ---- One accepted response ----

  /** A response: TCP, from the server of a known connection, not a reset, and its acknowledgement is
      accepted. */
  ghost predicate AcceptedAnswer(p: Params, live: Live, epoch: Epoch, h: nat, r: IndexedRecord) {
    && r.rec.proto == TCP && !r.rec.rst
    && h in live.conn && Locate(p, Begin(live, epoch), r) == (h, S2C)
    && Accepted(live.conn[h], StreamC(live.conn[h]), AbsOf(StreamC(live.conn[h]), r.rec.ackNo))
  }

  /** The epoch holds an ending of `q` with this status. */
  ghost predicate EndedAs(e: Epoch, q: nat, status: nat) {
    KPair(q) in e && e[KPair(q)].VPair? && e[KPair(q)].row.status == status
  }

  /** Every request of connection `h` that `t` holds has ended in `t'`; `t'` opened none. */
  ghost predicate AllEnded(t: Txns, t': Txns, h: nat, status: nat) {
    && PendingOf(t'.live.pending, h) == {}
    && Sub(t'.live.pair, t.live.pair)
    && (forall q :: q in t.live.pair && t.live.pair[q].connHash == h ==>
         q !in t'.live.pair && EndedAs(t'.epoch, q, status))
  }

  function StatusOfEnding(e: Ending): nat { if e.ByAnswer? then MATCHED else e.status }

  lemma WholeConnectionEnds(t: Txns, h: nat, st: ConnState, e: Ending, limit: nat)
    requires Good(t, h, st) && (ActiveC(st) ==> limit >= st.absSeqC)
    ensures AllEnded(t, Exec(t, EndFrom(e, Scan(t.live.pending, h, st.incarnation, limit), 0)), h, StatusOfEnding(e))
  {
    var hits := Scan(t.live.pending, h, st.incarnation, limit);
    var t' := Exec(t, EndFrom(e, hits, 0));
    EndScan(t, h, st, e, st.incarnation, limit);
    NothingPending(t, t', h, st, limit);
    forall q | q in t.live.pair && t.live.pair[q].connHash == h
      ensures q !in t'.live.pair && EndedAs(t'.epoch, q, StatusOfEnding(e))
    {
      RowIsHit(t, h, st, limit, q);
      var j :| 0 <= j < |hits| && hits[j].q == q;
      HitEnded(t, t', e, hits, j);
    }
  }

  lemma HitEnded(t: Txns, t': Txns, e: Ending, hits: seq<Hit>, j: nat)
    requires j < |hits| && EndedRows(t, t', e, hits, 0) && t'.live == Without(t.live, hits, 0)
    ensures hits[j].q !in t'.live.pair && EndedAs(t'.epoch, hits[j].q, StatusOfEnding(e))
  {
    assert EndedRow(t, t', e, hits, j);
    assert hits[j].q in QueriesFrom(hits, 0);
  }

  lemma NothingPending(t: Txns, t': Txns, h: nat, st: ConnState, limit: nat)
    requires Good(t, h, st) && (ActiveC(st) ==> limit >= st.absSeqC)
    requires t'.live.pending == t.live.pending - ScanKeys(t.live.pending, h, st.incarnation, limit)
    ensures PendingOf(t'.live.pending, h) == {}
  {
    GoodFits(t, h, st);
    forall k | k in t.live.pending && k.h == h ensures k in ScanKeys(t.live.pending, h, st.incarnation, limit) {
      assert Fits(st, k);
    }
  }

  lemma RowIsHit(t: Txns, h: nat, st: ConnState, limit: nat, q: nat)
    requires Good(t, h, st) && (ActiveC(st) ==> limit >= st.absSeqC)
    requires q in t.live.pair && t.live.pair[q].connHash == h
    ensures exists j :: 0 <= j < |Scan(t.live.pending, h, st.incarnation, limit)|
                        && Scan(t.live.pending, h, st.incarnation, limit)[j].q == q
  {
    var l, row := WithConn(t.live, h, st), t.live.pair[q];
    assert RowOk(l, q);
    var k := PendKey(h, st.incarnation, row.absEnd);
    assert PendOk(l, k) && Fits(st, k);
    ScanOrder(t.live.pending, h, st.incarnation, limit);
    assert InScan(t.live.pending, h, st.incarnation, limit, k);
  }

  lemma AllEndedGrows(t: Txns, u: Txns, v: Txns, h: nat, status: nat)
    requires AllEnded(t, u, h, status) && Sub(u.epoch, v.epoch) && OpensNone(u, v)
    ensures AllEnded(t, v, h, status)
  {
    assert PendingOf(v.live.pending, h) <= PendingOf(u.live.pending, h);
  }

  /** The connection as an accepted response finds it when it scans. */
  ghost function Answering(st: ConnState, r: IndexedRecord): ConnState {
    Responded(Count(Handshake(st, S2C, r), S2C, r), Feed(StreamS(st), r.rec.seqNo, r.rec.origLen))
  }

  /** Since acknowledgements are clamped to the head, an accepted response scans past the head. */
  lemma AnswerConsumes(p: Params, t: Txns, st: ConnState, h: nat, r: IndexedRecord)
    requires Good(t, h, st)
    requires Accepted(st, StreamC(st), AbsOf(StreamC(st), r.rec.ackNo))
    ensures var st2, ack := Answering(st, r), AbsOf(StreamC(st), r.rec.ackNo);
            && Good(t, h, st2) && (ActiveC(st2) ==> SatAdd(ack, p.ackTol) >= st2.absSeqC)
            && Exchange(p, t, st, h, S2C, r).0 == ConsumeR(p, t, st2, h, r, ack).0
  {
    var st1 := Count(Handshake(st, S2C, r), S2C, r);
    BookkeepingFields(st, S2C, r);
    StreamFrame(st, r);
    var fed := Feed(StreamS(st), r.rec.seqNo, r.rec.origLen);
    var st2, ack := Answering(st, r), AbsOf(StreamC(st), r.rec.ackNo);
    RegoodSame(t, h, st, st2);
    GoodFits(t, h, st);
    if ActiveC(st) {
      AckCoversHead(st, r.rec.ackNo);
    }
    assert Response(p, t, st1, h, r, fed, StreamC(st)).0 == ConsumeR(p, t, st2, h, r, ack).0;
  }

  lemma ServerEnds(p: Params, t: Txns, st: ConnState, h: nat, r: IndexedRecord)
    requires Good(t, h, st)
    requires Accepted(st, StreamC(st), AbsOf(StreamC(st), r.rec.ackNo))
    ensures AllEnded(t, Exchange(p, t, st, h, S2C, r).0, h, MATCHED)
  {
    AnswerConsumes(p, t, st, h, r);
    WholeConnectionEnds(t, h, Answering(st, r), ByAnswer(r), SatAdd(AbsOf(StreamC(st), r.rec.ackNo), p.ackTol));
  }

  /** The status the response gives: a SYN that starts a new incarnation ends the old requests first. */
  ghost function AnswerStatus(st: ConnState, r: IndexedRecord): nat {
    if Rebirth(st, S2C, r) then UNMATCHED else MATCHED
  }

  lemma ProcessEnds(p: Params, t: Txns, st: ConnState, h: nat, r: IndexedRecord)
    requires Good(t, h, st) && !r.rec.rst
    requires Accepted(st, StreamC(st), AbsOf(StreamC(st), r.rec.ackNo))
    ensures AllEnded(t, Process(p, t, st, h, S2C, r).0, h, AnswerStatus(st, r))
  {
    if Rebirth(st, S2C, r) {
      var t1, st1 := FlipEpoch(t, st, h, S2C, r).0, Reborn(st, S2C, r);
      GoodFits(t, h, st);
      WholeConnectionEnds(t, h, st, ByStatus(UNMATCHED), U48_MAX);
      EndWholeConnection(t, h, st, ByStatus(UNMATCHED), U48_MAX, st1);
      ServerOpensNone(p, t1, st1, h, r);
      ExchangeByPlan(p, t1, st1, h, S2C, r);
      PlanGrows(t1, Exchange(p, t1, st1, h, S2C, r).0, h, r);
      AllEndedGrows(t, t1, Exchange(p, t1, st1, h, S2C, r).0, h, UNMATCHED);
    } else {
      RegoodSame(t, h, st, MarkJump(st, S2C, r));
      ServerEnds(p, t, MarkJump(st, S2C, r), h, r);
    }
  }

  /** Since acknowledgements are clamped to the head, an accepted response ends every pending request
      of its connection, however far it really reaches. */
  lemma AcceptedAnswerEndsAll(p: Params, live: Live, epoch: Epoch, h: nat, r: IndexedRecord)
    requires LiveInv(live, epoch) && AcceptedAnswer(p, live, epoch, h, r)
    ensures var t := RunBatch(p, live, epoch, [r]);
            && PendingOf(t.live.pending, h) == {}
            && (forall q :: q in live.pair && live.pair[q].connHash == h ==>
                 q !in t.live.pair && EndedAs(t.epoch, q, AnswerStatus(live.conn[h], r)))
  {
    var t0, st := LoggedAt(live, epoch, r), live.conn[h];
    OneUnfold(p, live, epoch, r);
    StartGood(live, epoch, h, r);
    ProcessEnds(p, t0, st, h, r);
    var out := Process(p, t0, st, h, S2C, r).0;
    var t := RunBatch(p, live, epoch, [r]);
    assert t.live.pair == out.live.pair && t.live.pending == out.live.pending && t.epoch == out.epoch;
  }

  /** A cumulative answer is described as ending the requests up to its number. For any absolute
      number `ack` it may stand for, the code meets that exactly when no pending request of the
      connection ends past `ack` plus tolerance. */
  lemma CumulativeExactly(p: Params, live: Live, epoch: Epoch, h: nat, r: IndexedRecord, ack: nat)
    requires LiveInv(live, epoch) && AcceptedAnswer(p, live, epoch, h, r)
    ensures var t, bound := RunBatch(p, live, epoch, [r]), SatAdd(ack, p.ackTol);
            (forall q :: q in live.pair && live.pair[q].connHash == h ==>
               (q !in t.live.pair <==> live.pair[q].absEnd <= bound))
            <==> (forall k :: k in live.pending && k.h == h ==> k.end <= bound)
  {
    AcceptedAnswerEndsAll(p, live, epoch, h, r);
    var t, bound := RunBatch(p, live, epoch, [r]), SatAdd(ack, p.ackTol);
    forall q | q in live.pair && live.pair[q].connHash == h
      ensures PendKey(h, live.conn[h].incarnation, live.pair[q].absEnd) in live.pending
    {
      assert RowOk(live, q);
    }
    forall k | k in live.pending && k.h == h
      ensures live.pending[k].q in live.pair && live.pair[live.pending[k].q].connHash == h
      ensures live.pair[live.pending[k].q].absEnd == k.end
    {
      assert PendOk(live, k);
    }
  }

  // A connection with two pending requests, ending at 100 and at 200, and an answer to the first.

  const CLIENT := 1
  const SERVER := 2
  const LINK := 7

  const DEFAULTS := Params(4, (dev, src, srcPort, dst, dstPort, proto) => if src == CLIENT then LINK else LINK + 1,
                           key => 0, NoMeta)

  const TWO_CONN := BLANK.(state := ESTABLISHED, absSeqC := 200, lastRawC := 200, dirFlags := 1, qrOpen := 2)

  function Asked(q: nat, ts: nat, start: nat): QrPair {
    QrPair(PENDING, LINK, ts, 0, 0, 100, 0, start, start + 100, 0, [q], [], [], [])
  }

  const TWO_REQUESTS := Live(
    map[LINK := TWO_CONN],
    map[1 := Asked(1, 10, 0), 2 := Asked(2, 20, 100)],
    map[PendKey(LINK, 0, 100) := PendVal(1, 10, 100), PendKey(LINK, 0, 200) := PendVal(2, 20, 100)],
    map[TtlKey(10, LINK) := TtlVal(1, 100), TtlKey(20, LINK) := TtlVal(2, 200)])

  /** A server packet that acknowledges byte 100. */
  const ACK_100 := IndexedRecord(0, 0, 3,
    WalRecord(30, SERVER, 80, CLIENT, 4000, TCP, false, true, false, false, 16, 0, 100, 10, []))

  lemma TwoAreConsistent()
    ensures LiveInv(TWO_REQUESTS, map[])
  {
    var l, k1, k2 := TWO_REQUESTS, PendKey(LINK, 0, 100), PendKey(LINK, 0, 200);
    assert PendOk(l, k1) && PendOk(l, k2) && RowOk(l, 1) && RowOk(l, 2);
    assert PendingOf(l.pending, LINK) == {k1, k2};
  }

  lemma AnswerIsAccepted()
    ensures AcceptedAnswer(DEFAULTS, TWO_REQUESTS, map[], LINK, ACK_100)
    ensures !Rebirth(TWO_CONN, S2C, ACK_100)
  {}

  /** The answer to the first request ends the second one too, as MATCHED. */
  lemma CumulativeFails()
    ensures LiveInv(TWO_REQUESTS, map[]) && AcceptedAnswer(DEFAULTS, TWO_REQUESTS, map[], LINK, ACK_100)
    ensures TWO_REQUESTS.pair[2].absEnd > SatAdd(ACK_100.rec.ackNo, DEFAULTS.ackTol)
    ensures var e := RunBatch(DEFAULTS, TWO_REQUESTS, map[], [ACK_100]).epoch;
            EndedAs(e, 1, MATCHED) && EndedAs(e, 2, MATCHED)
  {
    TwoAreConsistent();
    AnswerIsAccepted();
    AcceptedAnswerEndsAll(DEFAULTS, TWO_REQUESTS, map[], LINK, ACK_100);
  }

  /** Committing live first would lose all of them. */
  lemma LiveFirstLosesAnswered(p: Params, d: Durable, h: nat, r: IndexedRecord, q: nat, later: seq<Step>)
    requires LiveInv(d.live, d.epoch) && AcceptedAnswer(p, d.live, d.epoch, h, r)
    requires q in d.live.pair && d.live.pair[q].connHash == h && NoEpochHas(d, q) && NeverRecorded(later, q)
    ensures Absent(TakeAll(p, LiveFirstCrash(d, RunBatch(p, d.live, d.epoch, [r])), later), q)
  {
    AcceptedAnswerEndsAll(p, d.live, d.epoch, h, r);
    LiveFirstLosesExactly(p, d, [r], q, later);
  }
}
