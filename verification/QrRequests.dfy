/** Which client packets open a request, and which bytes the request stands for, in terms of the
    packet's true place in the stream. */
module QrRequests {
  import opened Common
  import opened Connection
  import opened AnomalyBits
  import opened SeqStreams
  import opened Store
  import opened Qr
  import opened QrLive
  import opened QrBookkeeping

  /** The bytes of the packet that a request may stand for: `[from, until)`. */
  datatype Span = Span(from: nat, until: nat)

  /** The record's place is unused: no row, no pending entry for its end, no deadline at its time. */
  ghost predicate PlaceIsNew(t: Txns, h: nat, inc: nat, r: IndexedRecord, end: nat) {
    r.Idx() !in t.live.pair && PendKey(h, inc, end % U48) !in t.live.pending && TtlKey(r.rec.ts, h) !in t.live.ttl
  }

  /** Request `r.Idx()` was added as pending for the bytes of `span`, with its two index entries; live
      is otherwise as it was. */
  ghost predicate Opened(l: Live, l': Live, h: nat, inc: nat, r: IndexedRecord, span: Span) {
    var q := r.Idx();
    && q in l'.pair && l'.pair == l.pair[q := l'.pair[q]]
    && l'.pair[q] == QrPair(PENDING, h, r.rec.ts, 0, 0, r.rec.origLen, 0, span.from, span.until, l'.pair[q].pseudo,
                            [q], [], l'.pair[q].reqKey, [])
    && l'.pending == l.pending[PendKey(h, inc, span.until % U48) := PendVal(q, r.rec.ts, r.rec.origLen)]
    && l'.ttl == l.ttl[TtlKey(r.rec.ts, h) := TtlVal(q, span.until % U48)]
    && l'.conn == l.conn
  }

  /** Row `k` was put without overwriting. */
  ghost predicate PutOnce(e: Epoch, e': Epoch, k: EKey, v: EVal) {
    k in e' && e'[k] == if k in e then e[k] else v
  }

  /** The four secondary rows of the request stand in the epoch, each naming it, and nothing else is new. */
  ghost predicate Indexed(p: Params, e: Epoch, e': Epoch, h: nat, r: IndexedRecord, reqKey: seq<byte>) {
    var q, ts := r.Idx(), r.rec.ts;
    && PutOnce(e, e', KPacket(q), VIdx(q)) && PutOnce(e, e', KConnQr(h, ts, q), VIdx(q))
    && PutOnce(e, e', KQrTime(ts, q), VIdx(q)) && PutOnce(e, e', KQrKey(p.keyHash(reqKey), ts, q), VIdx(q))
    && Sub(e, e')
    && e'.Keys == e.Keys + {KPacket(q), KConnQr(h, ts, q), KQrTime(ts, q), KQrKey(p.keyHash(reqKey), ts, q)}
  }

  /** The row's key: without plugins the first 32 bytes of the payload; else what the plugin binds on the
      first payload, and extracts from later ones. */
  ghost predicate KeyFor(meta: Meta, st: ConnState, rec: WalRecord, row: QrPair) {
    match meta
    case NoMeta =>
      row.reqKey <= rec.payload && |row.reqKey| == Min(32, |rec.payload|) && row.pseudo == 0
    case Registry(bind, extract) =>
      var (key, pseudo) :=
        if st.metaBindId < 0 then
          var b := bind(rec.payload, rec.proto % 256, rec.dstPort); (b.key, b.pseudo)
        else extract(rec.payload, st.protocolHint);
      row.reqKey == key && row.pseudo == if pseudo then 1 else 0
  }

  /** The packet opened a request for `span`, or changed neither store. */
  ghost predicate Requests(p: Params, t: Txns, t': Txns, st: ConnState, h: nat, r: IndexedRecord, span: Span,
                           opens: bool) {
    if opens then
      && Opened(t.live, t'.live, h, st.incarnation, r, span)
      && KeyFor(p.meta, st, r.rec, t'.live.pair[r.Idx()])
      && Indexed(p, t.epoch, t'.epoch, h, r, t'.live.pair[r.Idx()].reqKey)
    else t' == t
  }

  /** The connection's side: a payload either counts as a request or is marked a retransmission. */
  ghost predicate Noted(st: ConnState, st': ConnState, len: nat, opens: bool) {
    && st'.reqCnt == (if opens then Wrap64(st.reqCnt + 1) else st.reqCnt)
    && st'.qrOpen == (if opens then Wrap64(st.qrOpen + 1) else st.qrOpen)
    && (Bit(st'.anomalyFlags, RETRANS) <==> Bit(st.anomalyFlags, RETRANS) || (len > 0 && !opens))
    && st'.consumedAckS == st.consumedAckS && st'.incarnation == st.incarnation
  }

  // ---- Proofs ----

  lemma OpenPlanRuns(p: Params, t: Txns, st: ConnState, h: nat, r: IndexedRecord, start: nat, end: nat)
    requires PlaceIsNew(t, h, st.incarnation, r, end)
    ensures Requests(p, t, OpenQ(p, t, st, h, r, start, end).0, st, h, r, Span(start, end), true)
  {
    OpenLive(p, t, st, h, r, start, end);
    OpenRows(p, t, st, h, r, start, end);
    KeyIs(p, st, h, r, start, end);
  }

  lemma PutFour(e: Epoch, k1: EKey, k2: EKey, k3: EKey, k4: EKey, v: EVal)
    requires k1 != k2 && k1 != k3 && k1 != k4 && k2 != k3 && k2 != k4 && k3 != k4
    ensures var e' := PutNew(PutNew(PutNew(PutNew(e, k1, v), k2, v), k3, v), k4, v);
            && PutOnce(e, e', k1, v) && PutOnce(e, e', k2, v) && PutOnce(e, e', k3, v) && PutOnce(e, e', k4, v)
            && Sub(e, e') && e'.Keys == e.Keys + {k1, k2, k3, k4}
  {}

  lemma OpenRows(p: Params, t: Txns, st: ConnState, h: nat, r: IndexedRecord, start: nat, end: nat)
    ensures Indexed(p, t.epoch, OpenQ(p, t, st, h, r, start, end).0.epoch, h, r, RequestKey(p.meta, st, r.rec).1)
  {
    var plan, q, ts := OpenPlan(p, st, h, r, start, end), r.Idx(), r.rec.ts;
    ExecFive(t, plan);
    PutFour(t.epoch, KPacket(q), KConnQr(h, ts, q), KQrKey(p.keyHash(RequestKey(p.meta, st, r.rec).1), ts, q),
            KQrTime(ts, q), VIdx(q));
    assert Exec1(t, plan[0]).epoch == t.epoch;
  }

  lemma KeyIs(p: Params, st: ConnState, h: nat, r: IndexedRecord, start: nat, end: nat)
    ensures var (_, key, pseudo) := RequestKey(p.meta, st, r.rec);
            KeyFor(p.meta, st, r.rec, NewPair(h, r, start, end, key, pseudo))
  {}

  lemma ExecFive(t: Txns, ps: seq<Prim>)
    requires |ps| == 5
    ensures Exec(t, ps) == Exec1(Exec1(Exec1(Exec1(Exec1(t, ps[0]), ps[1]), ps[2]), ps[3]), ps[4])
  {
    var t1 := Exec1(t, ps[0]);
    var t2 := Exec1(t1, ps[1]);
    var t3 := Exec1(t2, ps[2]);
    var t4 := Exec1(t3, ps[3]);
    assert ps[1..][1..] == ps[2..] && ps[2..][1..] == ps[3..] && ps[3..][1..] == ps[4..] && ps[4..][1..] == [];
    assert Exec(t4, ps[4..]) == Exec1(t4, ps[4]);
    assert Exec(t3, ps[3..]) == Exec(t4, ps[4..]);
    assert Exec(t2, ps[2..]) == Exec(t3, ps[3..]);
    assert Exec(t1, ps[1..]) == Exec(t2, ps[2..]);
  }

  /** What a request looks at in its connection is the same on both. */
  predicate SameView(st: ConnState, s: ConnState) {
    && Bit(s.anomalyFlags, RETRANS) == Bit(st.anomalyFlags, RETRANS)
    && s.reqCnt == st.reqCnt && s.qrOpen == st.qrOpen
    && s.consumedAckS == st.consumedAckS && s.incarnation == st.incarnation
    && s.metaBindId == st.metaBindId && s.protocolHint == st.protocolHint
  }

  lemma MarksKeepView(st: ConnState, dir: Dir, r: IndexedRecord)
    ensures SameView(st, Count(Handshake(st, dir, r), dir, r))
  {
    var flags := st.anomalyFlags;
    SetsOne(flags, SYN_SEEN, RETRANS);
    SetsOne(flags, FIN_SEEN, RETRANS);
    SetsOne(SetBit(flags, SYN_SEEN), FIN_SEEN, RETRANS);
  }

  lemma JumpKeepsView(st: ConnState, dir: Dir, r: IndexedRecord)
    ensures SameView(st, MarkJump(st, dir, r))
  {
    SetsOne(st.anomalyFlags, SEQ_GAP, RETRANS);
  }

  lemma ViewedAlike(p: Params, t: Txns, t': Txns, st: ConnState, s: ConnState, st': ConnState, h: nat,
                    r: IndexedRecord, span: Span, opens: bool)
    requires SameView(st, s) && Requests(p, t, t', s, h, r, span, opens) && Noted(s, st', r.rec.origLen, opens)
    ensures Requests(p, t, t', st, h, r, span, opens) && Noted(st, st', r.rec.origLen, opens)
  {}

  /** The fed packet's new part is `[span.from, span.until)`. */
  predicate Spans(fed: Fed, span: Span) {
    span.until < U64 && fed.absStart == span.from && fed.novel == Max(span.until - span.from, 0)
  }

  lemma RequestNotes(p: Params, t: Txns, st: ConnState, h: nat, r: IndexedRecord, fed: Fed, span: Span)
    requires Spans(fed, span)
    ensures var opens := r.rec.origLen > 0 && span.until > Max(span.from, st.consumedAckS);
            Noted(st, Request(p, t, st, h, r, fed).1, r.rec.origLen, opens)
  {
    SetsOne(st.anomalyFlags, RETRANS, RETRANS);
    RequestKeyKeeps(p.meta, st, r.rec);
  }

  /** `Request` opens for the new part or does nothing. */
  lemma RequestIs(p: Params, t: Txns, st: ConnState, h: nat, r: IndexedRecord, fed: Fed, span: Span)
    requires Spans(fed, span)
    ensures Request(p, t, st, h, r, fed).0 ==
              if r.rec.origLen > 0 && span.until > Max(span.from, st.consumedAckS)
              then OpenQ(p, t, st, h, r, span.from, span.until).0 else t
  {}

  lemma StoresAsk(p: Params, t: Txns, t': Txns, st: ConnState, h: nat, r: IndexedRecord, span: Span, opens: bool)
    requires PlaceIsNew(t, h, st.incarnation, r, span.until)
    requires t' == if opens then OpenQ(p, t, st, h, r, span.from, span.until).0 else t
    ensures Requests(p, t, t', st, h, r, span, opens)
  {
    OpenPlanRuns(p, t, st, h, r, span.from, span.until);
  }

  /** `Request` for such a payload. */
  lemma RequestAsks(p: Params, t: Txns, st: ConnState, h: nat, r: IndexedRecord, fed: Fed, span: Span)
    requires PlaceIsNew(t, h, st.incarnation, r, span.until) && Spans(fed, span)
    ensures var opens := r.rec.origLen > 0 && span.until > Max(span.from, st.consumedAckS);
            Requests(p, t, Request(p, t, st, h, r, fed).0, st, h, r, span, opens)
            && Noted(st, Request(p, t, st, h, r, fed).1, r.rec.origLen, opens)
  {
    var opens := r.rec.origLen > 0 && span.until > Max(span.from, st.consumedAckS);
    RequestNotes(p, t, st, h, r, fed, span);
    RequestIs(p, t, st, h, r, fed, span);
    StoresAsk(p, t, Request(p, t, st, h, r, fed).0, st, h, r, span, opens);
  }

  lemma RequestKeyKeeps(meta: Meta, st: ConnState, rec: WalRecord)
    ensures var s := RequestKey(meta, st, rec).0;
            && s.anomalyFlags == st.anomalyFlags && s.reqCnt == st.reqCnt && s.qrOpen == st.qrOpen
            && s.consumedAckS == st.consumedAckS && s.incarnation == st.incarnation
  {}

  /** One client packet, its new part being `[span.from, span.until)`. */
  lemma ExchangeAsks(p: Params, t: Txns, st: ConnState, h: nat, r: IndexedRecord, span: Span)
    requires PlaceIsNew(t, h, st.incarnation, r, span.until)
    requires Spans(Feed(StreamC(st), r.rec.seqNo, r.rec.origLen), span)
    ensures var opens := r.rec.origLen > 0 && span.until > Max(span.from, st.consumedAckS);
            var (t', st') := Exchange(p, t, st, h, C2S, r);
            && Requests(p, t, t', st, h, r, span, opens) && Noted(st, st', r.rec.origLen, opens)
            && StreamC(st') == Feed(StreamC(st), r.rec.seqNo, r.rec.origLen).stream
  {
    var s, fed := Count(Handshake(st, C2S, r), C2S, r), Feed(StreamC(st), r.rec.seqNo, r.rec.origLen);
    var opens := r.rec.origLen > 0 && span.until > Max(span.from, st.consumedAckS);
    MarksKeepView(st, C2S, r);
    RequestAsks(p, t, s, h, r, fed, span);
    var (t', st') := Request(p, t, s, h, r, fed);
    ViewedAlike(p, t, t', st, s, st', h, r, span, opens);
  }

  /** The same past the generation test. */
  lemma ClientAsks(p: Params, t: Txns, st: ConnState, h: nat, r: IndexedRecord, span: Span)
    requires !r.rec.rst && !Rebirth(st, C2S, r) && PlaceIsNew(t, h, st.incarnation, r, span.until)
    requires Spans(Feed(StreamC(st), r.rec.seqNo, r.rec.origLen), span)
    ensures var opens := r.rec.origLen > 0 && span.until > Max(span.from, st.consumedAckS);
            var (t', st') := Process(p, t, st, h, C2S, r);
            && Requests(p, t, t', st, h, r, span, opens) && Noted(st, st', r.rec.origLen, opens)
            && StreamC(st') == Feed(StreamC(st), r.rec.seqNo, r.rec.origLen).stream
  {
    var s := MarkJump(st, C2S, r);
    var opens := r.rec.origLen > 0 && span.until > Max(span.from, st.consumedAckS);
    JumpKeepsView(st, C2S, r);
    ExchangeAsks(p, t, s, h, r, span);
    var (t', st') := Exchange(p, t, s, h, C2S, r);
    ViewedAlike(p, t, t', st, s, st', h, r, span, opens);
  }

  // ---- The theorems ----

  /** A client packet of the running incarnation, at true position `start` of a stream that stands at
      `head`, opens a request exactly when it carries payload that ends past both the head and the
      consumed number. The request stands for the bytes from the head, or from the packet's start if
      that is later, to the packet's end. Otherwise neither store changes. */
  lemma OpensExactly(p: Params, t: Txns, st: ConnState, h: nat, r: IndexedRecord, head: nat, start: nat)
    requires !r.rec.rst && !StartsGeneration(st, C2S, r) && RawTyped(st, r)
    requires At(StreamC(st), head) && r.rec.seqNo == start % U32 && Near(head, Packet(start, r.rec.origLen))
    requires PlaceIsNew(t, h, st.incarnation, r, start + r.rec.origLen)
    ensures var end := start + r.rec.origLen;
            var opens := r.rec.origLen > 0 && end > Max(head, st.consumedAckS);
            var (t', st') := Process(p, t, st, h, C2S, r);
            && Requests(p, t, t', st, h, r, Span(Max(start, head), end), opens)
            && (r.Idx() in t'.live.pair <==> opens)
            && Noted(st, st', r.rec.origLen, opens) && At(StreamC(st'), Max(head, end))
  {
    RebirthIs(st, C2S, r);
    FeedRefinesHighWater(StreamC(st), head, Packet(start, r.rec.origLen));
    ClientAsks(p, t, st, h, r, Span(Max(start, head), start + r.rec.origLen));
  }

  /** The first packet of a client's stream. Its number becomes the head, so the head stays at the
      packet's start and not at its end. */
  lemma FirstOpensExactly(p: Params, t: Txns, st: ConnState, h: nat, r: IndexedRecord)
    requires !r.rec.rst && !ActiveC(st) && r.rec.seqNo < U32 && r.rec.origLen < U32
    requires PlaceIsNew(t, h, st.incarnation, r, r.rec.seqNo + r.rec.origLen)
    ensures var end := r.rec.seqNo + r.rec.origLen;
            var opens := r.rec.origLen > 0 && end > st.consumedAckS;
            var (t', st') := Process(p, t, st, h, C2S, r);
            && Requests(p, t, t', st, h, r, Span(r.rec.seqNo, end), opens)
            && (r.Idx() in t'.live.pair <==> opens)
            && Noted(st, st', r.rec.origLen, opens) && At(StreamC(st'), r.rec.seqNo)
  {
    ClientAsks(p, t, st, h, r, Span(r.rec.seqNo, r.rec.seqNo + r.rec.origLen));
  }
}
