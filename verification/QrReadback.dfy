/** Can the row of an answered request be read back? The first request an answer ends lists every
    request that ended with it, and the length of that list is stored in 16 bits. */
module QrReadback {
  import opened Common
  import opened Connection
  import opened SeqStreams
  import opened Store
  import opened Qr
  import opened QrLive
  import opened QrDurability
  import opened QrLiveRuns
  import opened QrConsume
  import RowCodec

  /** The stored bytes of a row decode to the row. */
  predicate ReadsBack(row: QrPair) { RowCodec.PairOfBytes(RowCodec.PairBytes(row)) == Some(row) }

  ghost predicate EndingReadsBack(e: Epoch, q: nat) {
    KPair(q) in e && e[KPair(q)].VPair? && ReadsBack(e[KPair(q)].row)
  }

  /** A pending row whose fields are within their machine types and whose keys are below 4 GiB. */
  predicate Storable(q: nat, row: QrPair) {
    q < U64 && RowCodec.PairTyped(row) && |row.reqKey| < U32 && |row.respKey| < U32
  }

  predicate StorableAnswer(r: IndexedRecord) { r.Idx() < U64 && r.rec.ts < U64 }

  lemma AnswerReadsBack(asked: QrPair, row: QrPair, r: IndexedRecord, qs: seq<nat>, key: seq<byte>)
    requires AnsweredRow(asked, row, r, qs, key) && RowCodec.PairTyped(asked) && |asked.reqKey| < U32 && |key| < U32
    requires StorableAnswer(r) && forall i :: 0 <= i < |qs| ==> qs[i] < U64
    ensures ReadsBack(row) <==> |qs| < U16
  {
    assert RowCodec.PairTyped(row);
    RowCodec.PairRoundTrip(row);
  }

  /** A timeout, a reset or a new incarnation leaves the list as it was opened: its row reads back. */
  lemma OtherEndingsReadBack(q: nat, row: QrPair, status: nat)
    requires Storable(q, row) && row.qIdx == [q] && row.rIdx == [] && IsTerminal(status)
    ensures ReadsBack(Final(Ended(status), row))
  {
    RowCodec.PairRoundTrip(Final(Ended(status), row));
  }

  /** Of the requests one answer ends, all rows read back but possibly the first; that one does exactly
      when fewer than 65536 requests ended. */
  lemma AnsweredReadBackExactly(p: Params, t: Txns, st: ConnState, h: nat, r: IndexedRecord, ack: nat)
    requires Untouched(t, Scan(t.live.pending, h, st.incarnation, SatAdd(ack, p.ackTol))) && StorableAnswer(r)
    requires forall q :: q in t.live.pair ==> Storable(q, t.live.pair[q])
    ensures var hits := Scan(t.live.pending, h, st.incarnation, SatAdd(ack, p.ackTol));
            var e' := ConsumeR(p, t, st, h, r, ack).0.epoch;
            forall i :: 0 <= i < |hits| ==> (EndingReadsBack(e', hits[i].q) <==> i > 0 || |hits| < U16)
  {
    var hits := Scan(t.live.pending, h, st.incarnation, SatAdd(ack, p.ackTol));
    var e' := ConsumeR(p, t, st, h, r, ack).0.epoch;
    ConsumeIsExact(p, t, st, h, r, ack);
    forall i | 0 <= i < |hits| ensures EndingReadsBack(e', hits[i].q) <==> i > 0 || |hits| < U16 {
      HitReadsBack(t, e', r, hits, i);
    }
  }

  lemma HitReadsBack(t: Txns, e': Epoch, r: IndexedRecord, hits: seq<Hit>, i: nat)
    requires i < |hits| && AnsweredHit(t, e', r, hits, i) && Untouched(t, hits) && StorableAnswer(r)
    requires forall q :: q in t.live.pair ==> Storable(q, t.live.pair[q])
    ensures EndingReadsBack(e', hits[i].q) <==> i > 0 || |hits| < U16
  {
    var q := hits[i].q;
    var asked, row := t.live.pair[q], e'[KPair(q)].row;
    if i == 0 {
      forall j | 0 <= j < |hits| ensures Queries(hits)[j] < U64 {
        assert Moves(t, hits[j].q);
      }
      AnswerReadsBack(asked, row, r, Queries(hits), Prefix32(r.rec.payload));
    } else {
      AnswerReadsBack(asked, row, r, [q], asked.respKey);
    }
  }

  // ---- A whole connection ----

  /** Every request of the connection reads back from the epoch. */
  ghost predicate AllReadBack(l: Live, e: Epoch, h: nat) {
    forall q :: q in l.pair && l.pair[q].connHash == h ==> EndingReadsBack(e, q)
  }

  /** A scan past the head meets all pending requests of the connection. */
  lemma ScanMeetsAll(t: Txns, h: nat, st: ConnState, limit: nat)
    requires Good(t, h, st) && (ActiveC(st) ==> limit >= st.absSeqC)
    ensures |Scan(t.live.pending, h, st.incarnation, limit)| == |PendingOf(t.live.pending, h)|
  {
    GoodFits(t, h, st);
    ScanSize(t.live.pending, h, st.incarnation, limit);
    forall k | k in PendingOf(t.live.pending, h) ensures k in ScanKeys(t.live.pending, h, st.incarnation, limit) {
      assert Fits(st, k);
    }
    assert ScanKeys(t.live.pending, h, st.incarnation, limit) == PendingOf(t.live.pending, h);
  }

  lemma ConsumeReadsBack(p: Params, t: Txns, st: ConnState, h: nat, r: IndexedRecord, ack: nat)
    requires Good(t, h, st) && (ActiveC(st) ==> SatAdd(ack, p.ackTol) >= st.absSeqC) && StorableAnswer(r)
    requires forall q :: q in t.live.pair ==> Storable(q, t.live.pair[q])
    ensures AllReadBack(t.live, ConsumeR(p, t, st, h, r, ack).0.epoch, h) <==> |PendingOf(t.live.pending, h)| < U16
  {
    var limit := SatAdd(ack, p.ackTol);
    var hits := Scan(t.live.pending, h, st.incarnation, limit);
    GoodIsUntouched(t, h, st, st.incarnation, limit);
    AnsweredReadBackExactly(p, t, st, h, r, ack);
    ScanMeetsAll(t, h, st, limit);
    forall q | q in t.live.pair && t.live.pair[q].connHash == h ensures exists j :: 0 <= j < |hits| && hits[j].q == q {
      RowIsHit(t, h, st, limit, q);
    }
    if |hits| > 0 {
      FirstIsOfConnection(t, h, st, limit);
      assert EndingReadsBack(ConsumeR(p, t, st, h, r, ack).0.epoch, hits[0].q) <==> |hits| < U16;
    }
  }

  lemma FirstIsOfConnection(t: Txns, h: nat, st: ConnState, limit: nat)
    requires Good(t, h, st) && |Scan(t.live.pending, h, st.incarnation, limit)| > 0
    ensures var q := Scan(t.live.pending, h, st.incarnation, limit)[0].q;
            q in t.live.pair && t.live.pair[q].connHash == h
  {
    ScanOrder(t.live.pending, h, st.incarnation, limit);
    assert PendOk(WithConn(t.live, h, st), Scan(t.live.pending, h, st.incarnation, limit)[0].key);
  }

  lemma ExchangeReadsBack(p: Params, t: Txns, st: ConnState, h: nat, r: IndexedRecord)
    requires Good(t, h, st) && StorableAnswer(r) && forall q :: q in t.live.pair ==> Storable(q, t.live.pair[q])
    requires Accepted(st, StreamC(st), AbsOf(StreamC(st), r.rec.ackNo))
    ensures AllReadBack(t.live, Exchange(p, t, st, h, S2C, r).0.epoch, h) <==> |PendingOf(t.live.pending, h)| < U16
  {
    AnswerConsumes(p, t, st, h, r);
    ConsumeReadsBack(p, t, Answering(st, r), h, r, AbsOf(StreamC(st), r.rec.ackNo));
  }

  /** On consistent stores: after an accepted response every request of its connection is an answered
      row that reads back, exactly when fewer than 65536 were pending. */
  lemma AnswerReadsBackExactly(p: Params, live: Live, epoch: Epoch, h: nat, r: IndexedRecord)
    requires LiveInv(live, epoch) && AcceptedAnswer(p, live, epoch, h, r) && !Rebirth(live.conn[h], S2C, r)
    requires StorableAnswer(r) && forall q :: q in live.pair ==> Storable(q, live.pair[q])
    ensures AllReadBack(live, RunBatch(p, live, epoch, [r]).epoch, h) <==> |PendingOf(live.pending, h)| < U16
  {
    var t0, st := LoggedAt(live, epoch, r), live.conn[h];
    OneUnfold(p, live, epoch, r);
    StartGood(live, epoch, h, r);
    RegoodSame(t0, h, st, MarkJump(st, S2C, r));
    ExchangeReadsBack(p, t0, MarkJump(st, S2C, r), h, r);
    assert RunBatch(p, live, epoch, [r]).epoch == Exchange(p, t0, MarkJump(st, S2C, r), h, S2C, r).0.epoch;
  }

  // ---- n requests of one byte each ----

  function ByteRow(i: nat): QrPair { QrPair(PENDING, LINK, i, 0, 0, 1, 0, SatSub(i, 1), i, 0, [i], [], [], []) }

  function ManyConn(head: nat): ConnState {
    BLANK.(state := ESTABLISHED, absSeqC := head, lastRawC := head, dirFlags := 1, qrOpen := head)
  }

  /** Requests 1 to `n` of a connection whose head is at `head`; request `i` is byte `i - 1`. */
  function Many(n: nat, head: nat): Live {
    if n == 0 then Live(map[LINK := ManyConn(head)], map[], map[], map[])
    else OneMore(Many(n - 1, head), n)
  }

  /** A server packet that acknowledges everything up to `head`. */
  function AckAll(head: nat): IndexedRecord {
    IndexedRecord(0, 1, 0,
      WalRecord(head + 1, SERVER, 80, CLIENT, 4000, TCP, false, true, false, false, 16, 0, head, 10, []))
  }

  /** A store of `n` such requests. */
  ghost predicate Numbered(l: Live, n: nat, head: nat) {
    && l.conn == map[LINK := ManyConn(head)] && |PendingOf(l.pending, LINK)| == n
    && (forall q :: q in l.pair ==> q <= n && l.pair[q] == ByteRow(q))
    && (forall k :: k in l.pending ==> k.end <= n) && (forall k :: k in l.ttl ==> k.qTs <= n)
  }

  function OneMore(l: Live, n: nat): Live {
    Adding(l, n, ByteRow(n), PendKey(LINK, 0, n), PendVal(n, n, 1), TtlKey(n, LINK), TtlVal(n, n))
  }

  lemma OneMoreLinked(l: Live, n: nat, head: nat)
    requires 0 < n <= head && Numbered(l, n - 1, head) && Linked(l, map[])
    ensures Linked(OneMore(l, n), map[])
  {
    AddLinked(l, map[], n, ByteRow(n), PendKey(LINK, 0, n), PendVal(n, n, 1), TtlKey(n, LINK), TtlVal(n, n));
  }

  lemma OneMoreNumbered(l: Live, n: nat, head: nat)
    requires 0 < n <= head && Numbered(l, n - 1, head)
    ensures Numbered(OneMore(l, n), n, head)
  {
    assert PendKey(LINK, 0, n) !in l.pending;
    assert PendingOf(OneMore(l, n).pending, LINK) == PendingOf(l.pending, LINK) + {PendKey(LINK, 0, n)};
  }

  lemma {:induction false} ManyAre(n: nat, head: nat)
    requires n <= head < U32
    ensures Numbered(Many(n, head), n, head) && Linked(Many(n, head), map[])
  {
    if n == 0 {
      assert PendingOf(map[], LINK) == {};
    } else {
      ManyAre(n - 1, head);
      OneMoreNumbered(Many(n - 1, head), n, head);
      OneMoreLinked(Many(n - 1, head), n, head);
    }
  }

  /** Such a store is consistent, and the packet is accepted. */
  lemma ManyAnswered(l: Live, n: nat)
    requires 0 < n < U32 && Numbered(l, n, n) && Linked(l, map[])
    ensures LiveInv(l, map[])
    ensures AcceptedAnswer(DEFAULTS, l, map[], LINK, AckAll(n)) && !Rebirth(ManyConn(n), S2C, AckAll(n))
  {
    AckIsHead(n);
  }

  lemma AckIsHead(n: nat)
    requires 0 < n < U32
    ensures AbsOf(Stream(n, n, true), n) == n
  {}

  lemma NumberedReadBack(l: Live, n: nat)
    requires 0 < n < U32 && Numbered(l, n, n) && Linked(l, map[])
    ensures AllReadBack(l, RunBatch(DEFAULTS, l, map[], [AckAll(n)]).epoch, LINK) <==> n < U16
  {
    ManyAnswered(l, n);
    AnswerReadsBackExactly(DEFAULTS, l, map[], LINK, AckAll(n));
  }

  /** One answer to `n` requests of one byte: all rows read back exactly when `n` is below 65536. */
  lemma ManyReadBackExactly(n: nat)
    requires 0 < n < U32
    ensures LiveInv(Many(n, n), map[]) && AcceptedAnswer(DEFAULTS, Many(n, n), map[], LINK, AckAll(n))
    ensures AllReadBack(Many(n, n), RunBatch(DEFAULTS, Many(n, n), map[], [AckAll(n)]).epoch, LINK) <==> n < U16
  {
    ManyAre(n, n);
    ManyAnswered(Many(n, n), n);
    NumberedReadBack(Many(n, n), n);
  }
}
