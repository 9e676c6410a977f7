/** When a SYN starts a new incarnation of a connection, and what a new incarnation, a reset and an
    answer leave of the old requests: stated in the fields of record and connection. */
module QrGenerations {
  import opened Common
  import opened Connection
  import opened SeqStreams
  import opened Store
  import opened Qr
  import opened QrLive
  import opened QrConsume
  import opened QrBookkeeping
  import opened QrRequests

  ghost function OwnRows(l: Live, h: nat): set<nat> { set q | q in l.pair && l.pair[q].connHash == h }

  ghost function OwnDeadlines(l: Live, h: nat): set<TtlKey> { set k | k in l.ttl && k.h == h }

  /** The connection's requests, each with this status. */
  ghost function Endings(l: Live, h: nat, status: nat): Epoch {
    map q | q in l.pair && l.pair[q].connHash == h :: KPair(q) := VPair(l.pair[q].(status := status))
  }

  /** The connection's requests have left live and have this ending in the epoch; all else is as it was. */
  ghost function AllEndedAs(t: Txns, h: nat, status: nat): Txns {
    Txns(Emptied(t.live, h), t.epoch + Endings(t.live, h, status))
  }

  /** Live without the connection's requests. */
  ghost function Emptied(l: Live, h: nat): Live {
    Live(l.conn, l.pair - OwnRows(l, h), l.pending - PendingOf(l.pending, h), l.ttl - OwnDeadlines(l, h))
  }

  // ---- Ending a whole connection ----

  /** A hit carries its own row's connection and time. */
  lemma HitIsOwn(t: Txns, h: nat, st: ConnState, limit: nat, j: nat)
    requires Good(t, h, st) && j < |Scan(t.live.pending, h, st.incarnation, limit)|
    ensures var x := Scan(t.live.pending, h, st.incarnation, limit)[j];
            && x.key.h == h && x.key in t.live.pending
            && x.q in t.live.pair && t.live.pair[x.q].connHash == h && t.live.pair[x.q].qTs == x.qTs
            && TtlKey(x.qTs, h) in t.live.ttl
  {
    ScanOrder(t.live.pending, h, st.incarnation, limit);
    var l, x := WithConn(t.live, h, st), Scan(t.live.pending, h, st.incarnation, limit)[j];
    assert PendOk(l, x.key);
    assert RowOk(l, x.q);
  }

  lemma DeadlineIsOwn(t: Txns, h: nat, st: ConnState, k: TtlKey)
    requires Good(t, h, st) && k in t.live.ttl
    ensures var q := t.live.ttl[k].q; q in t.live.pair && t.live.pair[q].connHash == k.h && t.live.pair[q].qTs == k.qTs
  {
    assert TtlOk(WithConn(t.live, h, st), k);
  }

  lemma HitsAreOwn(t: Txns, h: nat, st: ConnState, limit: nat)
    requires Good(t, h, st)
    ensures var hits := Scan(t.live.pending, h, st.incarnation, limit);
            && QueriesFrom(hits, 0) <= OwnRows(t.live, h)
            && KeysFrom(hits, 0) <= PendingOf(t.live.pending, h)
            && TtlsFrom(hits, 0) <= OwnDeadlines(t.live, h)
  {
    var hits := Scan(t.live.pending, h, st.incarnation, limit);
    forall j | 0 <= j < |hits|
      ensures hits[j].q in OwnRows(t.live, h) && hits[j].key in PendingOf(t.live.pending, h)
      ensures TtlKey(hits[j].qTs, hits[j].key.h) in OwnDeadlines(t.live, h)
    {
      HitIsOwn(t, h, st, limit, j);
    }
  }

  lemma RowsAreHit(t: Txns, h: nat, st: ConnState, limit: nat)
    requires Good(t, h, st) && (ActiveC(st) ==> limit >= st.absSeqC)
    ensures OwnRows(t.live, h) <= QueriesFrom(Scan(t.live.pending, h, st.incarnation, limit), 0)
  {
    var hits := Scan(t.live.pending, h, st.incarnation, limit);
    forall q | q in OwnRows(t.live, h) ensures q in QueriesFrom(hits, 0) {
      RowIsHit(t, h, st, limit, q);
    }
  }

  lemma EntriesAreHit(t: Txns, h: nat, st: ConnState, limit: nat)
    requires Good(t, h, st) && (ActiveC(st) ==> limit >= st.absSeqC)
    ensures PendingOf(t.live.pending, h) <= KeysFrom(Scan(t.live.pending, h, st.incarnation, limit), 0)
  {
    GoodFits(t, h, st);
    ScanKeysFrom(t.live.pending, h, st.incarnation, limit);
    forall k | k in PendingOf(t.live.pending, h) ensures k in ScanKeys(t.live.pending, h, st.incarnation, limit) {
      assert Fits(st, k);
    }
  }

  lemma DeadlinesAreHit(t: Txns, h: nat, st: ConnState, limit: nat)
    requires Good(t, h, st) && (ActiveC(st) ==> limit >= st.absSeqC)
    ensures OwnDeadlines(t.live, h) <= TtlsFrom(Scan(t.live.pending, h, st.incarnation, limit), 0)
  {
    var hits := Scan(t.live.pending, h, st.incarnation, limit);
    forall k | k in OwnDeadlines(t.live, h) ensures k in TtlsFrom(hits, 0) {
      DeadlineIsOwn(t, h, st, k);
      RowIsHit(t, h, st, limit, t.live.ttl[k].q);
      var j :| 0 <= j < |hits| && hits[j].q == t.live.ttl[k].q;
      HitIsOwn(t, h, st, limit, j);
    }
  }

  /** The hits of a scan past the head are all requests, entries and deadlines of the connection. */
  lemma HitsAreAll(t: Txns, h: nat, st: ConnState, limit: nat)
    requires Good(t, h, st) && (ActiveC(st) ==> limit >= st.absSeqC)
    ensures var hits := Scan(t.live.pending, h, st.incarnation, limit);
            && QueriesFrom(hits, 0) == OwnRows(t.live, h)
            && KeysFrom(hits, 0) == PendingOf(t.live.pending, h)
            && TtlsFrom(hits, 0) == OwnDeadlines(t.live, h)
  {
    HitsAreOwn(t, h, st, limit);
    RowsAreHit(t, h, st, limit);
    EntriesAreHit(t, h, st, limit);
    DeadlinesAreHit(t, h, st, limit);
  }

  /** Rows of the given requests, and only those, joined the epoch with the status. */
  lemma EpochIsEnded(t: Txns, t': Txns, hits: seq<Hit>, h: nat, status: nat)
    requires EndedRows(t, t', ByStatus(status), hits, 0) && QueriesFrom(hits, 0) == OwnRows(t.live, h)
    requires forall q :: q in t.live.pair ==> KPair(q) !in t.epoch
    ensures t'.epoch == t.epoch + Endings(t.live, h, status)
  {
    var added := Endings(t.live, h, status);
    forall q | q in OwnRows(t.live, h) ensures KPair(q) in t'.epoch && t'.epoch[KPair(q)] == added[KPair(q)] {
      var j :| 0 <= j < |hits| && hits[j].q == q;
      assert EndedRow(t, t', ByStatus(status), hits, j);
    }
    EndingKeys(t.live, h, status);
    MapsAgree(t'.epoch, t.epoch, added);
  }

  lemma EndingKeys(l: Live, h: nat, status: nat)
    ensures forall k :: k in Endings(l, h, status) <==> k.KPair? && k.q in OwnRows(l, h)
  {}

  lemma MapsAgree<K, V>(m: map<K, V>, a: map<K, V>, b: map<K, V>)
    requires forall k :: k in m <==> k in a || k in b
    requires forall k :: k in b ==> m[k] == b[k]
    requires forall k :: k in a && k !in b ==> m[k] == a[k]
    ensures m == a + b
  {}

  lemma ScanEndsAll(t: Txns, h: nat, st: ConnState, status: nat, limit: nat)
    requires Good(t, h, st) && (ActiveC(st) ==> limit >= st.absSeqC)
    ensures Exec(t, EndFrom(ByStatus(status), Scan(t.live.pending, h, st.incarnation, limit), 0))
         == AllEndedAs(t, h, status)
  {
    var hits := Scan(t.live.pending, h, st.incarnation, limit);
    EndScan(t, h, st, ByStatus(status), st.incarnation, limit);
    HitsAreAll(t, h, st, limit);
    EpochIsEnded(t, Exec(t, EndFrom(ByStatus(status), hits, 0)), hits, h, status);
  }

  // ---- A new generation ----

  lemma EmptyScan(pending: map<PendKey, PendVal>, h: nat, inc: nat, limit: nat)
    requires PendingOf(pending, h) == {}
    ensures Scan(pending, h, inc, limit) == []
  {
    ScanSize(pending, h, inc, limit);
    assert forall k :: k in ScanKeys(pending, h, inc, limit) ==> k in PendingOf(pending, h);
    assert ScanKeys(pending, h, inc, limit) == {};
  }

  lemma EmptiedHasNone(l: Live, h: nat)
    ensures PendingOf(Emptied(l, h).pending, h) == {} && Emptied(l, h).conn == l.conn
    ensures (forall k :: k in Emptied(l, h).pending ==> k.h != h) && (forall k :: k in Emptied(l, h).ttl ==> k.h != h)
  {}

  /** Ending what an emptied connection has pending does nothing. */
  lemma NothingToEnd(t: Txns, e: Ending, h: nat, inc: nat, limit: nat)
    requires PendingOf(t.live.pending, h) == {}
    ensures Exec(t, EndFrom(e, Scan(t.live.pending, h, inc, limit), 0)) == t
  {
    EmptyScan(t.live.pending, h, inc, limit);
    assert EndFrom(e, [], 0) == [];
  }

  lemma FlipIs(t: Txns, st: ConnState, h: nat, dir: Dir, r: IndexedRecord)
    requires Good(t, h, st)
    ensures FlipEpoch(t, st, h, dir, r) == (AllEndedAs(t, h, UNMATCHED), Reborn(st, dir, r))
  {
    GoodFits(t, h, st);
    ScanEndsAll(t, h, st, UNMATCHED, U48_MAX);
  }

  lemma EmptyCascade(t: Txns, st: ConnState, h: nat, r: IndexedRecord)
    ensures RstCascade(AllEndedAs(t, h, UNMATCHED), st, h, r).0 == AllEndedAs(t, h, UNMATCHED)
  {
    EmptiedHasNone(t.live, h);
    NothingToEnd(AllEndedAs(t, h, UNMATCHED), ByStatus(RST_ABORT), h, st.incarnation, U48_MAX);
  }

  lemma CascadeIs(t: Txns, st: ConnState, h: nat, r: IndexedRecord)
    requires Good(t, h, st)
    ensures RstCascade(t, st, h, r).0 == AllEndedAs(t, h, RST_ABORT)
  {
    GoodFits(t, h, st);
    ScanEndsAll(t, h, st, RST_ABORT, U48_MAX);
  }

  /** A reset ends every request of its connection: RST_ABORT, or UNMATCHED when its SYN starts a
      generation. */
  lemma ResetExactly(p: Params, t: Txns, st: ConnState, h: nat, dir: Dir, r: IndexedRecord)
    requires Good(t, h, st) && RawTyped(st, r) && r.rec.rst
    ensures var (t', st') := Process(p, t, st, h, dir, r);
            && t' == AllEndedAs(t, h, if StartsGeneration(st, dir, r) then UNMATCHED else RST_ABORT)
            && st'.state == RESET_STATE && st'.rstSeen == r.rec.ts
            && (!StartsGeneration(st, dir, r) ==>
                 StreamC(st') == StreamC(st) && StreamS(st') == StreamS(st) && st'.consumedAckS == st.consumedAckS)
  {
    RebirthIs(st, dir, r);
    if Rebirth(st, dir, r) {
      FlipIs(t, st, h, dir, r);
      EmptyCascade(t, Reborn(st, dir, r), h, r);
    } else {
      RegoodSame(t, h, st, MarkJump(st, dir, r));
      CascadeIs(t, MarkJump(st, dir, r), h, r);
    }
  }

  lemma EmptiedPlace(t: Txns, h: nat, inc: nat, r: IndexedRecord, end: nat)
    requires r.Idx() !in t.live.pair
    ensures PlaceIsNew(AllEndedAs(t, h, UNMATCHED), h, inc, r, end)
  {
    EmptiedHasNone(t.live, h);
  }

  /** A record that starts a generation goes on from the emptied stores and the fresh connection. */
  lemma GenerationRuns(p: Params, t: Txns, st: ConnState, h: nat, dir: Dir, r: IndexedRecord)
    requires Good(t, h, st) && RawTyped(st, r) && !r.rec.rst && StartsGeneration(st, dir, r)
    ensures Process(p, t, st, h, dir, r) == Exchange(p, AllEndedAs(t, h, UNMATCHED), Reborn(st, dir, r), h, dir, r)
  {
    RebirthIs(st, dir, r);
    FlipIs(t, st, h, dir, r);
  }

  lemma RebornClient(st: ConnState, r: IndexedRecord)
    requires r.rec.seqNo < U32
    ensures var st1 := Reborn(st, C2S, r);
            && At(StreamC(st1), r.rec.seqNo) && StreamS(st1) == Stream(0, 0, false)
            && st1.consumedAckC == 0 && st1.consumedAckS == 0
            && st1.incarnation == (st.incarnation + 1) % U16 && SameBinding(st, st1)
  {}

  lemma RebornServer(st: ConnState, r: IndexedRecord)
    requires r.rec.seqNo < U32
    ensures var st1 := Reborn(st, S2C, r);
            && At(StreamS(st1), r.rec.seqNo) && StreamC(st1) == Stream(0, 0, false)
            && st1.consumedAckC == 0 && st1.consumedAckS == 0 && st1.incarnation == (st.incarnation + 1) % U16
  {}

  /** A client SYN that starts a generation: every request of the old one ends UNMATCHED, nothing is
      consumed, the client's stream stands past the SYN's own payload, which is the only thing asked
      for, and the server's stream is inactive. */
  lemma ClientGeneration(p: Params, t: Txns, st: ConnState, h: nat, r: IndexedRecord)
    requires Good(t, h, st) && RawTyped(st, r) && !r.rec.rst && StartsGeneration(st, C2S, r)
    requires r.rec.origLen < HALF32 && r.Idx() !in t.live.pair
    ensures var (t', st') := Process(p, t, st, h, C2S, r);
            var end := r.rec.seqNo + r.rec.origLen;
            && Requests(p, AllEndedAs(t, h, UNMATCHED), t', st.(incarnation := (st.incarnation + 1) % U16), h, r,
                        Span(r.rec.seqNo, end), r.rec.origLen > 0)
            && At(StreamC(st'), end) && StreamS(st') == Stream(0, 0, false)
            && st'.consumedAckC == 0 && st'.consumedAckS == 0 && st'.state == SYN_SENT
  {
    var t1, st1 := AllEndedAs(t, h, UNMATCHED), Reborn(st, C2S, r);
    GenerationRuns(p, t, st, h, C2S, r);
    RebornClient(st, r);
    EmptiedPlace(t, h, st1.incarnation, r, r.rec.seqNo + r.rec.origLen);
    FreshClient(p, t1, st1, h, r);
    StateFollowsTable(p, t, st, h, C2S, r);
  }

  lemma FeedFresh(s: Stream, raw: nat, len: nat)
    requires At(s, raw) && raw < U32 && len < HALF32
    ensures var f := Feed(s, raw, len); f.absStart == raw && f.novel == len && At(f.stream, raw + len)
  {
    FeedRefinesHighWater(s, raw, Packet(raw, len));
    assert raw % U32 == raw;
  }

  /** A client packet on a connection that has just started at its number. */
  lemma FreshClient(p: Params, t: Txns, st: ConnState, h: nat, r: IndexedRecord)
    requires At(StreamC(st), r.rec.seqNo) && StreamS(st) == Stream(0, 0, false)
    requires st.consumedAckC == 0 && st.consumedAckS == 0
    requires r.rec.seqNo < U32 && r.rec.origLen < HALF32
    requires PlaceIsNew(t, h, st.incarnation, r, r.rec.seqNo + r.rec.origLen)
    ensures var (t', st') := Exchange(p, t, st, h, C2S, r);
            var end := r.rec.seqNo + r.rec.origLen;
            && Requests(p, t, t', st, h, r, Span(r.rec.seqNo, end), r.rec.origLen > 0)
            && At(StreamC(st'), end) && StreamS(st') == Stream(0, 0, false)
            && st'.consumedAckC == 0 && st'.consumedAckS == 0
  {
    FeedFresh(StreamC(st), r.rec.seqNo, r.rec.origLen);
    ExchangeAsks(p, t, st, h, r, Span(r.rec.seqNo, r.rec.seqNo + r.rec.origLen));
    ExchangeOther(p, t, st, h, r);
  }

  /** A client packet leaves the server's stream and the client's consumed number alone. */
  lemma ExchangeOther(p: Params, t: Txns, st: ConnState, h: nat, r: IndexedRecord)
    ensures var st' := Exchange(p, t, st, h, C2S, r).1;
            StreamS(st') == StreamS(st) && st'.consumedAckC == st.consumedAckC
  {
    var fed := Feed(StreamC(st), r.rec.seqNo, r.rec.origLen);
    RequestFrame(p, t, Count(Handshake(st, C2S, r), C2S, r), h, r, fed);
  }

  /** A server SYN that starts a generation: every request of the old one ends UNMATCHED and none is
      open. The client's stream is inactive, so that the number the SYN acknowledges is taken as it is,
      up to the permitted lead. */
  lemma ServerGeneration(p: Params, t: Txns, st: ConnState, h: nat, r: IndexedRecord)
    requires Good(t, h, st) && RawTyped(st, r) && !r.rec.rst && StartsGeneration(st, S2C, r)
    requires r.rec.origLen < HALF32
    ensures var (t', st') := Process(p, t, st, h, S2C, r);
            && t' == AllEndedAs(t, h, UNMATCHED)
            && At(StreamS(st'), r.rec.seqNo + r.rec.origLen) && StreamC(st') == Stream(0, 0, false)
            && st'.consumedAckC == 0 && st'.consumedAckS == (if r.rec.ackNo <= ACK_LEAD_CAP then r.rec.ackNo else 0)
            && st'.state == HALF_OPEN_STATE
  {
    var t1, st1 := AllEndedAs(t, h, UNMATCHED), Reborn(st, S2C, r);
    GenerationRuns(p, t, st, h, S2C, r);
    RebornServer(st, r);
    EmptiedHasNone(t.live, h);
    FreshServer(p, t1, st1, h, r);
    StateFollowsTable(p, t, st, h, S2C, r);
    RebirthIs(st, S2C, r);
  }

  /** A server packet: an acknowledgement that moves forward without leading too far is consumed. */
  lemma ServerExchange(p: Params, t: Txns, st: ConnState, h: nat, r: IndexedRecord)
    ensures var ack := AbsOf(StreamC(st), r.rec.ackNo);
            var accepted := Accepted(st, StreamC(st), ack);
            var (t', st') := Exchange(p, t, st, h, S2C, r);
            && t' == (if accepted then ConsumeR(p, t, Answering(st, r), h, r, ack).0 else t)
            && st'.consumedAckS == (if accepted then ack else st.consumedAckS) && st'.consumedAckC == st.consumedAckC
            && StreamC(st') == StreamC(st) && StreamS(st') == Feed(StreamS(st), r.rec.seqNo, r.rec.origLen).stream
  {
    var fed := Feed(StreamS(st), r.rec.seqNo, r.rec.origLen);
    var st1 := Count(Handshake(st, S2C, r), S2C, r);
    StreamFrame(st, r);
    BookkeepingFields(st, S2C, r);
    ResponseFrame(p, t, st1, h, r, fed, StreamC(st));
    assert st1.consumedAckC == st.consumedAckC;
  }

  lemma FreshServer(p: Params, t: Txns, st: ConnState, h: nat, r: IndexedRecord)
    requires At(StreamS(st), r.rec.seqNo) && StreamC(st) == Stream(0, 0, false)
    requires st.consumedAckC == 0 && st.consumedAckS == 0
    requires r.rec.seqNo < U32 && r.rec.origLen < HALF32 && PendingOf(t.live.pending, h) == {}
    ensures var (t', st') := Exchange(p, t, st, h, S2C, r);
            && t' == t && At(StreamS(st'), r.rec.seqNo + r.rec.origLen) && StreamC(st') == Stream(0, 0, false)
            && st'.consumedAckC == 0 && st'.consumedAckS == (if r.rec.ackNo <= ACK_LEAD_CAP then r.rec.ackNo else 0)
  {
    FeedFresh(StreamS(st), r.rec.seqNo, r.rec.origLen);
    ServerExchange(p, t, st, h, r);
    NothingToEnd(t, ByAnswer(r), h, Answering(st, r).incarnation, SatAdd(r.rec.ackNo, p.ackTol));
  }

  // ---- Answers ----

  /** The connection's requests have left live, answered by `r`; the epoch gained nothing else. */
  ghost predicate AllAnswered(t: Txns, t': Txns, h: nat, r: IndexedRecord) {
    && t'.live == Emptied(t.live, h) && Sub(t.epoch, t'.epoch)
    && (forall q :: q in OwnRows(t.live, h) ==>
         KPair(q) in t'.epoch && t'.epoch[KPair(q)].VPair? && AnswersRow(t.live.pair[q], t'.epoch[KPair(q)].row, r))
    && (forall k :: k in t'.epoch && k !in t.epoch ==> k.KPair? && k.q in OwnRows(t.live, h))
  }

  /** The row is the question with the answer's fields, whatever requests it lists. */
  ghost predicate AnswersRow(asked: QrPair, row: QrPair, r: IndexedRecord) {
    AnsweredRow(asked, row, r, row.qIdx, row.respKey)
  }

  lemma ConsumeAnswersAll(p: Params, t: Txns, st: ConnState, h: nat, r: IndexedRecord, ack: nat)
    requires Good(t, h, st) && (ActiveC(st) ==> SatAdd(ack, p.ackTol) >= st.absSeqC)
    ensures AllAnswered(t, ConsumeR(p, t, st, h, r, ack).0, h, r)
  {
    var limit := SatAdd(ack, p.ackTol);
    var hits, t' := Scan(t.live.pending, h, st.incarnation, limit), ConsumeR(p, t, st, h, r, ack).0;
    GoodIsUntouched(t, h, st, st.incarnation, limit);
    ConsumeIsExact(p, t, st, h, r, ack);
    HitsAreAll(t, h, st, limit);
    forall q | q in OwnRows(t.live, h)
      ensures KPair(q) in t'.epoch && t'.epoch[KPair(q)].VPair? && AnswersRow(t.live.pair[q], t'.epoch[KPair(q)].row, r)
    {
      assert q in QueriesFrom(hits, 0);
      var j :| 0 <= j < |hits| && hits[j].q == q;
      assert AnsweredHit(t, t'.epoch, r, hits, j);
    }
    forall k | k in t'.epoch && k !in t.epoch ensures k.KPair? && k.q in OwnRows(t.live, h) {
      var j :| 0 <= j < |hits| && Queries(hits)[j] == k.q;
      assert hits[j].q in QueriesFrom(hits, 0);
    }
  }

  /** A server packet of the running incarnation that acknowledges true position `ack` of a client
      stream standing at `head`: it is an answer exactly when `ack`, or the head if that is past it,
      lies past the consumed number, and `ack` leads the head by at most 2^26. On consistent stores an
      answer ends every request of the connection as MATCHED; in any stores another packet changes
      nothing. */
  lemma AnswersExactly(p: Params, t: Txns, st: ConnState, h: nat, r: IndexedRecord, head: nat, ack: nat)
    requires RawTyped(st, r) && !r.rec.rst && !StartsGeneration(st, S2C, r)
    requires At(StreamC(st), head) && r.rec.ackNo == ack % U32 && Near(head, Packet(ack, 0))
    ensures var (t', st') := Process(p, t, st, h, S2C, r);
            if Max(ack, head) > st.consumedAckS && ack <= head + 0x400_0000 then
              (Good(t, h, st) ==> AllAnswered(t, t', h, r)) && st'.consumedAckS == Max(ack, head)
            else t' == t && st'.consumedAckS == st.consumedAckS
  {
    RebirthIs(st, S2C, r);
    var st1 := MarkJump(st, S2C, r);
    AbsOfClampsToHead(StreamC(st), head, ack);
    ServerExchange(p, t, st1, h, r);
    if Accepted(st1, StreamC(st1), AbsOf(StreamC(st1), r.rec.ackNo)) && Good(t, h, st) {
      RegoodSame(t, h, st, st1);
      AnswerConsumes(p, t, st1, h, r);
      ConsumeAnswersAll(p, t, Answering(st1, r), h, r, AbsOf(StreamC(st1), r.rec.ackNo));
    }
  }

  /** The server's stream advances like the client's, and a packet with new bytes counts as a response. */
  lemma RespondsExactly(p: Params, t: Txns, st: ConnState, h: nat, r: IndexedRecord, head: nat, start: nat)
    requires RawTyped(st, r) && !r.rec.rst && !StartsGeneration(st, S2C, r)
    requires At(StreamS(st), head) && r.rec.seqNo == start % U32 && Near(head, Packet(start, r.rec.origLen))
    ensures var st' := Process(p, t, st, h, S2C, r).1;
            var end := start + r.rec.origLen;
            && At(StreamS(st'), Max(head, end)) && StreamC(st') == StreamC(st)
            && st'.respCnt == (if r.rec.origLen > 0 && end > head then Wrap64(st.respCnt + 1) else st.respCnt)
  {
    RebirthIs(st, S2C, r);
    var st1 := MarkJump(st, S2C, r);
    FeedRefinesHighWater(StreamS(st), head, Packet(start, r.rec.origLen));
    ServerExchange(p, t, st1, h, r);
    ResponsesCounted(p, t, st1, h, r);
  }

  lemma ResponsesCounted(p: Params, t: Txns, st: ConnState, h: nat, r: IndexedRecord)
    ensures var fed := Feed(StreamS(st), r.rec.seqNo, r.rec.origLen);
            Exchange(p, t, st, h, S2C, r).1.respCnt == if fed.novel > 0 then Wrap64(st.respCnt + 1) else st.respCnt
  {
    var st1 := Count(Handshake(st, S2C, r), S2C, r);
    assert st1.respCnt == st.respCnt;
    ResponseCounted(p, t, st1, h, r, Feed(StreamS(st), r.rec.seqNo, r.rec.origLen), StreamC(st));
  }

  lemma ResponseCounted(p: Params, t: Txns, st: ConnState, h: nat, r: IndexedRecord, fed: Fed, client: Stream)
    ensures Response(p, t, st, h, r, fed, client).1.respCnt
         == if fed.novel > 0 then Wrap64(st.respCnt + 1) else st.respCnt
  {}

  /** While the client's stream is inactive no request is pending, and an acknowledgement is taken as
      it is: it moves the consumed number forward, up to the permitted lead. */
  lemma IdleAnswersExactly(p: Params, t: Txns, st: ConnState, h: nat, r: IndexedRecord)
    requires Good(t, h, st) && RawTyped(st, r) && !r.rec.rst && !StartsGeneration(st, S2C, r) && !ActiveC(st)
    ensures var (t', st') := Process(p, t, st, h, S2C, r);
            && t' == t && PendingOf(t.live.pending, h) == {}
            && st'.consumedAckS == (if st.consumedAckS < r.rec.ackNo <= st.absSeqC + 0x400_0000 then r.rec.ackNo
                                    else st.consumedAckS)
  {
    RebirthIs(st, S2C, r);
    var st1 := MarkJump(st, S2C, r);
    GoodFits(t, h, st);
    forall k | k in t.live.pending ensures k.h != h {
      assert k.h == h ==> Fits(st, k);
    }
    assert PendingOf(t.live.pending, h) == {};
    ServerExchange(p, t, st1, h, r);
    NothingToEnd(t, ByAnswer(r), h, Answering(st1, r).incarnation, SatAdd(r.rec.ackNo, p.ackTol));
  }
}
