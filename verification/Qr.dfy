/** The request/response matcher as a function on values: how one record changes the two open
    transactions and the batch's connection cache, and how a batch commits.
    Every change of a store is one of four primitive writes (`Prim`). */
module Qr {
  import opened Common
  import opened Ordering
  import opened Connection
  import opened SeqStreams
  import opened Store

  const EPOCH_JUMP_THRESHOLD := 0x4000_0000
  const U48_MAX := U48 - 1
  const ACK_LEAD_CAP := 0x400_0000

  datatype WalRecord = WalRecord(
    ts: nat, srcIp: nat, srcPort: nat, dstIp: nat, dstPort: nat, proto: nat,
    syn: bool, ack: bool, rst: bool, fin: bool, flagByte: nat,
    seqNo: nat, ackNo: nat, origLen: nat, payload: seq<byte>)

  /** A record with its place in the data plane. */
  datatype IndexedRecord = IndexedRecord(devId: nat, fileId: nat, offset: nat, rec: WalRecord) {
    function Idx(): nat { fileId * U32 + offset }
  }

  datatype Binding = Binding(metaBindId: int, protocolHint: nat, key: seq<byte>, pseudo: bool)

  /** Request-key extraction: none, or a registry seen only through its two entry points. */
  datatype Meta =
    | NoMeta
    | Registry(bind: (seq<byte>, nat, nat) -> Binding, extract: (seq<byte>, nat) -> (seq<byte>, bool))

  /** Configuration. The connection hash and the key hash are arbitrary functions. */
  datatype Params = Params(
    ackTol: nat,
    hash: (nat, nat, nat, nat, nat, nat) -> nat,
    keyHash: seq<byte> -> nat,
    meta: Meta)

  datatype Dir = C2S | S2C

  // ---- Primitive writes ----

  /** How a pending request ends. */
  datatype Outcome =
    | Answered(r: IndexedRecord, primary: bool, others: seq<nat>)
    | Ended(status: nat)

  datatype Prim =
    | Put(k: EKey, v: EVal)
    | Open(q: nat, row: QrPair, pk: PendKey, pv: PendVal, tk: TtlKey, tv: TtlVal)
    | Settle(sq: nat, outcome: Outcome)
    | Drop(dpk: PendKey, dtk: TtlKey)

  function Prefix32(s: seq<byte>): seq<byte> { if |s| <= 32 then s else s[..32] }

  /** Appends the requests that are not listed yet, in order. */
  function AddMissing(qs: seq<nat>, others: seq<nat>): (r: seq<nat>)
    ensures qs <= r
    decreases |others|
  {
    if others == [] then qs
    else AddMissing(if others[0] in qs then qs else qs + [others[0]], others[1..])
  }

  function Final(o: Outcome, row: QrPair): QrPair {
    match o
    case Ended(s) => row.(status := s)
    case Answered(r, primary, others) =>
      var done := row.(
        status := MATCHED,
        rTs := r.rec.ts,
        latencyMs := SatSub(r.rec.ts, row.qTs) / 1_000_000,
        rLen := SatAdd32(row.rLen, r.rec.origLen),
        rIdx := row.rIdx + [r.Idx()]);
      if primary then done.(respKey := Prefix32(r.rec.payload), qIdx := AddMissing(row.qIdx, others))
      else done
  }

  /** Does `migrate_terminal` really move the row, or is it skipped? */
  predicate Moves(t: Txns, q: nat) {
    KPair(q) !in t.epoch && q in t.live.pair && t.live.pair[q].status == PENDING
  }

  /** `migrate_terminal`: epoch row present - only clear the live residue; no pending row - nothing;
      otherwise write the final row to the epoch and delete the live one. */
  function Migrate(t: Txns, q: nat, o: Outcome): Txns {
    if KPair(q) in t.epoch || Moves(t, q) then
      Txns(t.live.(pair := t.live.pair - {q}),
           if Moves(t, q) then PutNew(t.epoch, KPair(q), VPair(Final(o, t.live.pair[q]))) else t.epoch)
    else t
  }

  function Exec1(t: Txns, p: Prim): Txns {
    match p
    case Put(k, v) => t.(epoch := PutNew(t.epoch, k, v))
    case Open(q, row, pk, pv, tk, tv) =>
      t.(live := t.live.(
        pair := PutNew(t.live.pair, q, row),
        pending := PutNew(t.live.pending, pk, pv),
        ttl := PutNew(t.live.ttl, tk, tv)))
    case Settle(q, o) => Migrate(t, q, o)
    case Drop(pk, tk) =>
      t.(live := t.live.(pending := t.live.pending - {pk}, ttl := t.live.ttl - {tk}))
  }

  function Exec(t: Txns, ps: seq<Prim>): Txns
    decreases |ps|
  {
    if ps == [] then t else Exec(Exec1(t, ps[0]), ps[1..])
  }

  /** Number of `Settle` writes in `ps` that really move a row. */
  function Moved(t: Txns, ps: seq<Prim>): nat
    decreases |ps|
  {
    if ps == [] then 0
    else (if ps[0].Settle? && Moves(t, ps[0].sq) then 1 else 0) + Moved(Exec1(t, ps[0]), ps[1..])
  }

  // ---- Range scan of QR_PENDING ----

  datatype Hit = Hit(key: PendKey, q: nat, qTs: nat)

  function HitAt(pending: map<PendKey, PendVal>, k: PendKey): Hit
    requires k in pending
  {
    Hit(k, pending[k].q, pending[k].qTs)
  }

  predicate InScan(pending: map<PendKey, PendVal>, h: nat, inc: nat, limit: nat, k: PendKey) {
    k in pending && k.h == h && k.inc == inc && k.end <= Min(limit, U48_MAX)
  }

  /** Order of QR_PENDING keys. */
  predicate PendLt(a: PendKey, b: PendKey) {
    a.h < b.h || (a.h == b.h && (a.inc < b.inc || (a.inc == b.inc && a.end < b.end)))
  }

  lemma PendOrder()
    ensures StrictOrder(PendLt)
  {}

  ghost function ScanKeys(pending: map<PendKey, PendVal>, h: nat, inc: nat, limit: nat): set<PendKey> {
    set k | k in pending && InScan(pending, h, inc, limit, k)
  }

  ghost function KeysInOrder(pending: map<PendKey, PendVal>, h: nat, inc: nat, limit: nat): (r: seq<PendKey>)
    ensures forall k :: k in r <==> InScan(pending, h, inc, limit, k)
    ensures Ascending(PendLt, r)
  {
    PendOrder();
    Ascend(PendLt, ScanKeys(pending, h, inc, limit))
  }

  function HitsOf(pending: map<PendKey, PendVal>, keys: seq<PendKey>): (r: seq<Hit>)
    requires forall i :: 0 <= i < |keys| ==> keys[i] in pending
    ensures |r| == |keys| && forall i :: 0 <= i < |r| ==> r[i] == HitAt(pending, keys[i])
  {
    seq(|keys|, i requires 0 <= i < |keys| => HitAt(pending, keys[i]))
  }

  /** `scan_pending_upto`: one connection and incarnation, `end <= limit`, in stream order. */
  ghost function Scan(pending: map<PendKey, PendVal>, h: nat, inc: nat, limit: nat): (r: seq<Hit>)
    ensures var keys := KeysInOrder(pending, h, inc, limit);
            |r| == |keys| && forall i :: 0 <= i < |r| ==> keys[i] in pending && r[i] == HitAt(pending, keys[i])
  {
    var keys := KeysInOrder(pending, h, inc, limit);
    assert forall i :: 0 <= i < |keys| ==> keys[i] in keys;
    HitsOf(pending, keys)
  }

  lemma ScanOrder(pending: map<PendKey, PendVal>, h: nat, inc: nat, limit: nat)
    ensures var r := Scan(pending, h, inc, limit);
            && (forall i :: 0 <= i < |r| ==>
                 InScan(pending, h, inc, limit, r[i].key) && r[i] == HitAt(pending, r[i].key))
            && (forall i, j :: 0 <= i < j < |r| ==> r[i].key.end < r[j].key.end)
            && (forall k :: InScan(pending, h, inc, limit, k) ==> exists i :: 0 <= i < |r| && r[i].key == k)
  {
    var r, keys := Scan(pending, h, inc, limit), KeysInOrder(pending, h, inc, limit);
    forall i | 0 <= i < |r| ensures InScan(pending, h, inc, limit, r[i].key) {
      assert keys[i] in keys;
    }
    forall i, j | 0 <= i < j < |r| ensures r[i].key.end < r[j].key.end {
      assert PendLt(keys[i], keys[j]);
      assert keys[i] in keys && keys[j] in keys;
    }
    forall k | InScan(pending, h, inc, limit, k) ensures exists i :: 0 <= i < |r| && r[i].key == k {
      assert k in keys;
      var i :| 0 <= i < |keys| && keys[i] == k;
      assert r[i].key == k;
    }
  }

  lemma ScanSize(pending: map<PendKey, PendVal>, h: nat, inc: nat, limit: nat)
    ensures |Scan(pending, h, inc, limit)| == |ScanKeys(pending, h, inc, limit)|
  {
    PendOrder();
  }

  // ---- Ending a batch of pending requests ----

  datatype Ending = ByAnswer(r: IndexedRecord) | ByStatus(status: nat)

  function Queries(hits: seq<Hit>): (r: seq<nat>)
    ensures |r| == |hits| && forall i :: 0 <= i < |r| ==> r[i] == hits[i].q
  {
    seq(|hits|, i requires 0 <= i < |hits| => hits[i].q)
  }

  function OutcomeAt(e: Ending, hits: seq<Hit>, i: nat): Outcome
    requires i < |hits|
  {
    match e
    case ByStatus(s) => Ended(s)
    case ByAnswer(r) => Answered(r, i == 0, Queries(hits[1..]))
  }

  /** Per hit, in order: migrate the row, then drop its QR_PENDING and PENDING_TTL entries. */
  function EndFrom(e: Ending, hits: seq<Hit>, i: nat): seq<Prim>
    requires i <= |hits|
    decreases |hits| - i
  {
    if i == |hits| then []
    else
      [Settle(hits[i].q, OutcomeAt(e, hits, i)), Drop(hits[i].key, TtlKey(hits[i].qTs, hits[i].key.h))]
      + EndFrom(e, hits, i + 1)
  }

  // ---- One record ----

  function StreamC(st: ConnState): Stream { Stream(st.lastRawC, st.absSeqC, ActiveC(st)) }

  function StreamS(st: ConnState): Stream { Stream(st.lastRawS, st.absSeqS, ActiveS(st)) }

  function StreamOf(st: ConnState, dir: Dir): Stream { if dir == C2S then StreamC(st) else StreamS(st) }

  /** A SYN that starts a new incarnation: not a handshake in progress, not the SYN that started
      this one, and either a different number or a dead connection. */
  predicate Rebirth(st: ConnState, dir: Dir, r: IndexedRecord) {
    var s := StreamOf(st, dir);
    && s.active && r.rec.syn
    && st.state != SYN_SENT && st.state != SYN_RCVD
    && (Diff(s, r.rec.seqNo) != 0 || CLOSED <= st.state <= TIMEOUT_STATE)
    && r.Idx() != st.synPktIdx
  }

  function Flag(st: ConnState, bit: nat): ConnState
    requires bit > 0
  {
    st.(anomalyFlags := SetBit(st.anomalyFlags, bit))
  }

  function MarkJump(st: ConnState, dir: Dir, r: IndexedRecord): ConnState {
    var d := Diff(StreamOf(st, dir), r.rec.seqNo);
    if !r.rec.syn && Max(d, -d) > EPOCH_JUMP_THRESHOLD then Flag(st, SEQ_GAP) else st
  }

  /** `flip_epoch`, connection side. */
  function Reborn(st: ConnState, dir: Dir, r: IndexedRecord): ConnState {
    var base := st.(
      incarnation := (st.incarnation + 1) % U16,
      qrOpen := 0,
      synPktIdx := if r.rec.syn then r.Idx() else 0,
      state := HALF_OPEN_STATE,
      consumedAckC := 0,
      consumedAckS := 0);
    if dir == C2S then
      SetActiveS(SetActiveC(
        base.(lastRawC := r.rec.seqNo, absSeqC := r.rec.seqNo, lastRawS := 0, absSeqS := 0), true), false)
    else
      SetActiveS(SetActiveC(
        base.(lastRawS := r.rec.seqNo, absSeqS := r.rec.seqNo, lastRawC := 0, absSeqC := 0), false), true)
  }

  ghost function FlipEpoch(t: Txns, st: ConnState, h: nat, dir: Dir, r: IndexedRecord): (Txns, ConnState) {
    var hits := Scan(t.live.pending, h, st.incarnation, U48_MAX);
    (Exec(t, EndFrom(ByStatus(UNMATCHED), hits, 0)), Reborn(st, dir, r))
  }

  ghost function RstCascade(t: Txns, st: ConnState, h: nat, r: IndexedRecord): (Txns, ConnState) {
    var hits := Scan(t.live.pending, h, st.incarnation, U48_MAX);
    (Exec(t, EndFrom(ByStatus(RST_ABORT), hits, 0)),
     Flag(st.(qrOpen := SatSub(st.qrOpen, |hits|), state := RESET_STATE, rstSeen := r.rec.ts), RESET))
  }

  /** Handshake tracking. */
  function Handshake(st: ConnState, dir: Dir, r: IndexedRecord): ConnState {
    var st1 :=
      if r.rec.syn && dir == C2S then
        Flag(st.(state := SYN_SENT, synSeen := r.rec.ts, synPktIdx := r.Idx()), SYN_SEEN)
      else if r.rec.syn then
        st.(state := if st.state == SYN_SENT then SYN_RCVD else st.state, synackSeen := r.rec.ts)
      else if r.rec.ack && dir == C2S && st.state == SYN_RCVD then st.(state := ESTABLISHED)
      else st;
    if r.rec.fin then Flag(st1.(finSeen := r.rec.ts), FIN_SEEN) else st1
  }

  function Count(st: ConnState, dir: Dir, r: IndexedRecord): ConnState {
    var st1 := st.(lastTs := r.rec.ts);
    if dir == C2S then
      st1.(pktsC := Wrap64(st.pktsC + 1), bytesC := SatAdd(st.bytesC, r.rec.origLen))
    else
      st1.(pktsS := Wrap64(st.pktsS + 1), bytesS := SatAdd(st.bytesS, r.rec.origLen))
  }

  /** Request key, and the connection after a possible first binding. */
  function RequestKey(meta: Meta, st: ConnState, rec: WalRecord): (ConnState, seq<byte>, nat) {
    match meta
    case NoMeta => (st, Prefix32(rec.payload), 0)
    case Registry(bind, extract) =>
      if st.metaBindId < 0 then
        var b := bind(rec.payload, rec.proto % 256, rec.dstPort);
        (st.(metaBindId := b.metaBindId, protocolHint := b.protocolHint), b.key, if b.pseudo then 1 else 0)
      else
        var k := extract(rec.payload, st.protocolHint);
        (st, k.0, if k.1 then 1 else 0)
  }

  function NewPair(h: nat, r: IndexedRecord, absStart: nat, absEnd: nat, key: seq<byte>, pseudo: nat): QrPair {
    QrPair(PENDING, h, r.rec.ts, 0, 0, r.rec.origLen, 0, absStart, absEnd, pseudo, [r.Idx()], [], key, [])
  }

  /** `open_q`: the pending row with its two index entries into live, four secondary rows into the
      epoch. The key and the TTL value keep the low 48 bits of the absolute end. */
  function OpenPlan(p: Params, st: ConnState, h: nat, r: IndexedRecord, absStart: nat, absEnd: nat): seq<Prim> {
    var q, ts := r.Idx(), r.rec.ts;
    var (_, key, pseudo) := RequestKey(p.meta, st, r.rec);
    [Open(q, NewPair(h, r, absStart, absEnd, key, pseudo),
          PendKey(h, st.incarnation, absEnd % U48), PendVal(q, ts, r.rec.origLen),
          TtlKey(ts, h), TtlVal(q, absEnd % U48)),
     Put(KPacket(q), VIdx(q)),
     Put(KConnQr(h, ts, q), VIdx(q)),
     Put(KQrKey(p.keyHash(key), ts, q), VIdx(q)),
     Put(KQrTime(ts, q), VIdx(q))]
  }

  function OpenQ(p: Params, t: Txns, st: ConnState, h: nat, r: IndexedRecord, absStart: nat, absEnd: nat)
    : (Txns, ConnState)
  {
    var st1 := RequestKey(p.meta, st, r.rec).0;
    (Exec(t, OpenPlan(p, st, h, r, absStart, absEnd)),
     st1.(reqCnt := Wrap64(st.reqCnt + 1), qrOpen := Wrap64(st.qrOpen + 1)))
  }

  /** `consume_r`: everything of this incarnation up to the acknowledged number plus tolerance. */
  ghost function ConsumeR(p: Params, t: Txns, st: ConnState, h: nat, r: IndexedRecord, absAck: nat)
    : (Txns, ConnState)
  {
    var hits := Scan(t.live.pending, h, st.incarnation, SatAdd(absAck, p.ackTol));
    var plan := EndFrom(ByAnswer(r), hits, 0);
    (Exec(t, plan),
     st.(qrOpen := SatSub(st.qrOpen, Moved(t, plan)), consumedAckS := Max(absAck, st.consumedAckS)))
  }

  /** Client payload: open a request for new, not yet acknowledged bytes. */
  function Request(p: Params, t: Txns, st: ConnState, h: nat, r: IndexedRecord, fed: Fed): (Txns, ConnState) {
    var end := SatAdd(fed.absStart, fed.novel);
    if r.rec.origLen == 0 then (t, st)
    else if fed.novel > 0 && end > st.consumedAckS then OpenQ(p, t, st, h, r, fed.absStart, end)
    else (t, Flag(st, RETRANS))
  }

  /** An acknowledgement is accepted when it moves forward and does not lead the client by too much. */
  predicate Accepted(st: ConnState, client: Stream, absAck: nat) {
    st.consumedAckS < absAck <= SatAdd(client.lastAbs, ACK_LEAD_CAP)
  }

  function Responded(st: ConnState, fed: Fed): ConnState {
    if fed.novel > 0 then st.(respCnt := Wrap64(st.respCnt + 1)) else st
  }

  ghost function Response(p: Params, t: Txns, st: ConnState, h: nat, r: IndexedRecord, fed: Fed, client: Stream)
    : (Txns, ConnState)
  {
    var absAck := AbsOf(client, r.rec.ackNo);
    var st1 := Responded(st, fed);
    if Accepted(st1, client, absAck) then ConsumeR(p, t, st1, h, r, absAck) else (t, st1)
  }

  function SaveStreams(st: ConnState, c: Stream, s: Stream): ConnState {
    SetActiveS(SetActiveC(
      st.(lastRawC := c.lastRaw, absSeqC := c.lastAbs, lastRawS := s.lastRaw, absSeqS := s.lastAbs),
      c.active), s.active)
  }

  /** Sequence advance, state machine, counters, then the request or the response. */
  ghost function Exchange(p: Params, t: Txns, st: ConnState, h: nat, dir: Dir, r: IndexedRecord): (Txns, ConnState) {
    var fed := Feed(StreamOf(st, dir), r.rec.seqNo, r.rec.origLen);
    var c := if dir == C2S then fed.stream else StreamC(st);
    var s := if dir == C2S then StreamS(st) else fed.stream;
    var st1 := Count(Handshake(st, dir, r), dir, r);
    var (t2, st2) := if dir == C2S then Request(p, t, st1, h, r, fed) else Response(p, t, st1, h, r, fed, c);
    (t2, SaveStreams(st2, c, s))
  }

  /** The rebirth part of `ingest`. */
  ghost function Rebase(t: Txns, st: ConnState, h: nat, dir: Dir, r: IndexedRecord): (Txns, ConnState) {
    if Rebirth(st, dir, r) then FlipEpoch(t, st, h, dir, r) else (t, MarkJump(st, dir, r))
  }

  /** One TCP record on its connection. */
  ghost function Process(p: Params, t: Txns, st: ConnState, h: nat, dir: Dir, r: IndexedRecord): (Txns, ConnState) {
    var (t1, st1) := Rebase(t, st, h, dir, r);
    if r.rec.rst then RstCascade(t1, st1, h, r) else Exchange(p, t1, st1, h, dir, r)
  }

  // ---- The batch ----

  /** An open batch: its transactions and its connection cache. */
  datatype Batch = Batch(t: Txns, conns: map<nat, ConnState>)

  function ForwardHash(p: Params, r: IndexedRecord): nat {
    p.hash(r.devId, r.rec.srcIp, r.rec.srcPort, r.rec.dstIp, r.rec.dstPort, r.rec.proto % 256)
  }

  function BackwardHash(p: Params, r: IndexedRecord): nat {
    p.hash(r.devId, r.rec.dstIp, r.rec.dstPort, r.rec.srcIp, r.rec.srcPort, r.rec.proto % 256)
  }

  function Fresh(rec: WalRecord): ConnState {
    ConnState(
      HALF_OPEN_STATE, rec.srcIp, rec.srcPort, rec.dstIp, rec.dstPort, rec.proto % 256,
      rec.ts, rec.ts, 0, 0, 0, 0, 0, 0, 0, 0, 0, 0, 0, 0, 0, 0,
      -1, 0, if rec.syn then 0 else HALF_OPEN, 0, 0, 0, 0, 0, 0)
  }

  predicate Known(b: Batch, h: nat) { h in b.conns || h in b.t.live.conn }

  function Cached(b: Batch, h: nat): ConnState
    requires Known(b, h)
  {
    if h in b.conns then b.conns[h] else b.t.live.conn[h]
  }

  /** `locate`: the forward key first, then the backward key, else a new connection. */
  function Locate(p: Params, b: Batch, r: IndexedRecord): (nat, Dir) {
    var f, k := ForwardHash(p, r), BackwardHash(p, r);
    if Known(b, f) then (f, C2S) else if Known(b, k) then (k, S2C) else (f, C2S)
  }

  function StateFor(b: Batch, h: nat, r: IndexedRecord): ConnState {
    if Known(b, h) then Cached(b, h) else Fresh(r.rec)
  }

  function SummaryOf(rec: WalRecord): Summary {
    Summary(rec.proto % 256, rec.flagByte, rec.srcIp, rec.dstIp, rec.srcPort, rec.dstPort, |rec.payload|)
  }

  function Logged(t: Txns, r: IndexedRecord): Txns {
    Exec1(t, Put(KRecord(r.rec.ts, r.Idx()), VRecord(SummaryOf(r.rec))))
  }

  const TCP := 6

  /** `ingest`. */
  ghost function Ingest(p: Params, b: Batch, r: IndexedRecord): Batch {
    var t := Logged(b.t, r);
    if r.rec.proto != TCP then Batch(t, b.conns)
    else
      var (h, dir) := Locate(p, b, r);
      var (t1, st1) := Process(p, t, StateFor(b, h, r), h, dir, r);
      Batch(t1, b.conns[h := st1])
  }

  ghost function IngestAll(p: Params, b: Batch, rs: seq<IndexedRecord>): Batch
    decreases |rs|
  {
    if rs == [] then b else IngestAll(p, Ingest(p, b, rs[0]), rs[1..])
  }

  function Begin(live: Live, epoch: Epoch): Batch { Batch(Txns(live, epoch), map[]) }

  /** `writeback_conns`: the CONN_STATE rows after the batch; `qr_open` is recounted from QR_PENDING. */
  ghost function Committed(b: Batch): map<nat, ConnState> {
    b.t.live.conn + WrittenBack(b.conns, b.t.live.pending)
  }

  ghost function Recounted(st: ConnState, pending: map<PendKey, PendVal>, h: nat): ConnState {
    st.(qrOpen := |PendingOf(pending, h)|)
  }

  ghost function WrittenBack(conns: map<nat, ConnState>, pending: map<PendKey, PendVal>): map<nat, ConnState> {
    map h | h in conns :: Recounted(conns[h], pending, h)
  }

  ghost function CommittedLive(b: Batch): Live { b.t.live.(conn := Committed(b)) }

  /** A whole batch: the two stores after both commits. */
  ghost function RunBatch(p: Params, live: Live, epoch: Epoch, rs: seq<IndexedRecord>): Txns {
    var b := IngestAll(p, Begin(live, epoch), rs);
    Txns(CommittedLive(b), b.t.epoch)
  }
}
