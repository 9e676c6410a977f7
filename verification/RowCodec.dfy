/** The stored rows as bytes: connection states (fixed length) and request/response pairs (variable
    length). */
module RowCodec {
  import opened Common
  import opened Connection
  import opened Codec
  import opened Store

  function Eights(n: nat): (ws: Layout)
    ensures |ws| == n && forall i :: 0 <= i < n ==> ws[i] == 8
  {
    seq(n, _ => 8)
  }

  // ---- CONN_STATE: 191 bytes ----

  const CONN_STATE_SIZE := 191

  const CONN_FIELDS := 34

  /** state, 7 reserved, two addresses, two ports, protocol, 1 reserved, sixteen 64-bit fields, binding,
      hint, flags, open count, two raw numbers, incarnation, direction bits, 1 reserved, SYN index. */
  function ConnFieldWidth(i: nat): nat {
    if i == 1 then 7
    else if i in {2, 3, 26, 28, 29} then 4
    else if i in {4, 5, 30} then 2
    else if 8 <= i <= 24 || i == 27 || i == 33 then 8
    else 1
  }

  function ConnLayout(): (ws: Layout)
    ensures |ws| == CONN_FIELDS && forall i :: 0 <= i < CONN_FIELDS ==> ws[i] == ConnFieldWidth(i)
  {
    seq(CONN_FIELDS, i requires 0 <= i < CONN_FIELDS => ConnFieldWidth(i))
  }

  /** Two's complement of an `i64`. */
  function I64Bits(x: int): nat
    requires -0x8000_0000_0000_0000 <= x < 0x8000_0000_0000_0000
  {
    if x >= 0 then x else x + U64
  }

  function I64Of(bits: nat): int { if bits < 0x8000_0000_0000_0000 then bits else bits - U64 }

  /** The value ranges of the fields' machine types. */
  predicate ConnTyped(st: ConnState) {
    && st.state < 256 && st.clientIp < U32 && st.serverIp < U32 && st.clientPort < U16 && st.serverPort < U16
    && st.proto < 256 && st.firstTs < U64 && st.lastTs < U64 && st.synSeen < U64 && st.synackSeen < U64
    && st.finSeen < U64 && st.rstSeen < U64 && st.reqCnt < U64 && st.respCnt < U64 && st.bytesC < U64
    && st.bytesS < U64 && st.pktsC < U64 && st.pktsS < U64 && st.absSeqC < U64 && st.absSeqS < U64
    && st.consumedAckC < U64 && st.consumedAckS < U64
    && -0x8000_0000_0000_0000 <= st.metaBindId < 0x8000_0000_0000_0000
    && st.protocolHint < 256 && st.anomalyFlags < U32 && st.qrOpen < U64 && st.lastRawC < U32
    && st.lastRawS < U32 && st.incarnation < U16 && st.dirFlags < 256 && st.synPktIdx < U64
  }

  function ConnFields(st: ConnState): (xs: seq<nat>)
    requires ConnTyped(st)
    ensures |xs| == CONN_FIELDS
  {
    [st.state, 0, st.clientIp, st.serverIp, st.clientPort, st.serverPort, st.proto, 0,
     st.firstTs, st.lastTs, st.synSeen, st.synackSeen, st.finSeen, st.rstSeen, st.reqCnt, st.respCnt,
     st.bytesC, st.bytesS, st.pktsC, st.pktsS, st.absSeqC, st.absSeqS, st.consumedAckC, st.consumedAckS,
     I64Bits(st.metaBindId), st.protocolHint, st.anomalyFlags, st.qrOpen, st.lastRawC, st.lastRawS,
     st.incarnation, st.dirFlags, 0, st.synPktIdx]
  }

  function ConnOfFields(xs: seq<nat>): ConnState
    requires |xs| == CONN_FIELDS
  {
    ConnState(xs[0], xs[2], xs[4], xs[3], xs[5], xs[6], xs[8], xs[9], xs[10], xs[11], xs[12], xs[13], xs[14], xs[15],
              xs[16], xs[17], xs[18], xs[19], xs[20], xs[21], xs[22], xs[23], I64Of(xs[24]), xs[25], xs[26], xs[27],
              xs[28], xs[29], xs[30], xs[31], xs[33])
  }

  /** The reserved bytes, which the program writes as zero and does not look at when reading. */
  predicate ReservedZero(xs: seq<nat>)
    requires |xs| == CONN_FIELDS
  {
    xs[1] == 0 && xs[7] == 0 && xs[32] == 0
  }

  function ConnBytes(st: ConnState): Bytes
    requires ConnTyped(st)
  {
    Pack(ConnLayout(), ConnFields(st))
  }

  function ConnOfBytes(b: Bytes): Option<ConnState> {
    if |b| != Width(ConnLayout()) then None else Some(ConnOfFields(Unpack(ConnLayout(), b)))
  }

  lemma {:induction false} WidthConcat(a: Layout, b: Layout)
    ensures Width(a + b) == Width(a) + Width(b)
    decreases |a|
  {
    if a == [] {
      assert a + b == b;
    } else {
      assert (a + b)[1..] == a[1..] + b;
      WidthConcat(a[1..], b);
    }
  }

  lemma Width4(a: nat, b: nat, c: nat, d: nat)
    ensures Width([a, b, c, d]) == a + b + c + d
  {
    assert [a, b, c, d][1..] == [b, c, d] && [b, c, d][1..] == [c, d] && [c, d][1..] == [d] && [d][1..] == [];
    assert Width([c, d]) == c + Width([d]) && Width([d]) == d + Width([]);
  }

  lemma {:induction false} EightsWidth(n: nat)
    ensures Width(Eights(n)) == 8 * n
  {
    if n > 0 {
      assert Eights(n)[1..] == Eights(n - 1);
      EightsWidth(n - 1);
    }
  }

  lemma ConnHeadWidth()
    ensures Width([1, 7, 4, 4] + [2, 2, 1, 1]) == 22
  {
    Width4(1, 7, 4, 4);
    Width4(2, 2, 1, 1);
    WidthConcat([1, 7, 4, 4], [2, 2, 1, 1]);
  }

  lemma ConnTailWidth()
    ensures Width([1, 4, 8, 4] + [4, 2, 1, 1]) == 25
  {
    Width4(1, 4, 8, 4);
    Width4(4, 2, 1, 1);
    WidthConcat([1, 4, 8, 4], [4, 2, 1, 1]);
  }

  lemma ConnWidth()
    ensures Width(ConnLayout()) == CONN_STATE_SIZE
  {
    var head, tail := [1, 7, 4, 4] + [2, 2, 1, 1], [1, 4, 8, 4] + [4, 2, 1, 1];
    ConnHeadWidth();
    ConnTailWidth();
    EightsWidth(17);
    EightsWidth(1);
    WidthConcat(head, Eights(17));
    WidthConcat(head + Eights(17), tail);
    WidthConcat(head + Eights(17) + tail, Eights(1));
    assert ConnLayout() == head + Eights(17) + tail + Eights(1);
  }

  lemma ConnFits(st: ConnState)
    requires ConnTyped(st)
    ensures Fits(ConnLayout(), ConnFields(st))
  {
    PowValues();
  }

  lemma FieldsThere(st: ConnState)
    requires ConnTyped(st)
    ensures ConnOfFields(ConnFields(st)) == st
  {}

  lemma ReadsPack(xs: seq<nat>)
    requires |xs| == CONN_FIELDS && Fits(ConnLayout(), xs)
    ensures ConnOfBytes(Pack(ConnLayout(), xs)) == Some(ConnOfFields(xs))
  {
    UnpackPack(ConnLayout(), xs);
  }

  /** A stored connection state is read back unchanged. */
  lemma ConnRoundTrip(st: ConnState)
    requires ConnTyped(st)
    ensures |ConnBytes(st)| == CONN_STATE_SIZE && ConnOfBytes(ConnBytes(st)) == Some(st)
  {
    ConnWidth();
    FieldsThere(st);
    ReadsFields(st, ConnFields(st));
  }

  lemma ReadsFields(st: ConnState, xs: seq<nat>)
    requires ConnTyped(st) && xs == ConnFields(st)
    ensures ConnOfBytes(ConnBytes(st)) == Some(ConnOfFields(xs))
  {
    ConnFits(st);
    ReadsPack(xs);
  }

  lemma Bounds(xs: seq<nat>)
    requires |xs| == CONN_FIELDS && Fits(ConnLayout(), xs)
    ensures xs[0] < Pow(1) && xs[6] < Pow(1) && xs[25] < Pow(1) && xs[31] < Pow(1)
    ensures xs[4] < Pow(2) && xs[5] < Pow(2) && xs[30] < Pow(2)
    ensures xs[2] < Pow(4) && xs[3] < Pow(4) && xs[26] < Pow(4) && xs[28] < Pow(4) && xs[29] < Pow(4)
    ensures forall i :: 8 <= i <= 24 || i == 27 || i == 33 ==> xs[i] < Pow(8)
  {}

  lemma FieldsTyped(xs: seq<nat>)
    requires |xs| == CONN_FIELDS && Fits(ConnLayout(), xs)
    ensures ConnTyped(ConnOfFields(xs)) && I64Bits(ConnOfFields(xs).metaBindId) == xs[24]
  {
    PowValues();
    Bounds(xs);
  }

  lemma FieldsBack(xs: seq<nat>)
    requires |xs| == CONN_FIELDS && ConnTyped(ConnOfFields(xs)) && I64Bits(ConnOfFields(xs).metaBindId) == xs[24]
    ensures ConnFields(ConnOfFields(xs)) == xs <==> ReservedZero(xs)
  {
    var ys := ConnFields(ConnOfFields(xs));
    assert forall i :: 0 <= i < CONN_FIELDS && i != 1 && i != 7 && i != 32 ==> ys[i] == xs[i];
    assert ys[1] == 0 && ys[7] == 0 && ys[32] == 0;
  }

  lemma SamePack(st: ConnState, xs: seq<nat>)
    requires ConnTyped(st) && |xs| == CONN_FIELDS && Fits(ConnLayout(), xs)
    ensures ConnBytes(st) == Pack(ConnLayout(), xs) <==> ConnFields(st) == xs
  {
    ConnFits(st);
    PackOrder(ConnLayout(), ConnFields(st), xs);
  }

  /** 191 bytes are the encoding of the state read from them exactly when the reserved bytes are zero. */
  lemma ConnReadBack(b: Bytes)
    requires |b| == CONN_STATE_SIZE
    ensures ConnOfBytes(b).Some? && ConnTyped(ConnOfBytes(b).value)
    ensures Width(ConnLayout()) == |b|
    ensures ConnBytes(ConnOfBytes(b).value) == b <==> ReservedZero(Unpack(ConnLayout(), b))
  {
    ConnWidth();
    var xs := Unpack(ConnLayout(), b);
    UnpackFits(ConnLayout(), b);
    PackUnpack(ConnLayout(), b);
    FieldsTyped(xs);
    FieldsBack(xs);
    SamePack(ConnOfFields(xs), xs);
  }

  /** `to_bytes`. */
  method ToBytes(st: ConnState) returns (buf: array<byte>)
    requires ConnTyped(st)
    ensures fresh(buf) && buf[..] == ConnBytes(st)
  {
    ConnWidth();
    buf := WriteFields(ConnLayout(), ConnFields(st), CONN_STATE_SIZE);
  }

  /** Fields are written at a moving offset into a zeroed buffer. */
  method WriteFields(ws: Layout, xs: seq<nat>, size: nat) returns (buf: array<byte>)
    requires |ws| == |xs| && Width(ws) == size
    ensures fresh(buf) && buf[..] == Pack(ws, xs)
  {
    buf := new byte[size](_ => 0);
    var o: nat := 0;
    for i := 0 to |ws|
      invariant o + Width(ws[i..]) == size && o <= buf.Length
      invariant buf[..o] + Pack(ws[i..], xs[i..]) == Pack(ws, xs)
    {
      assert ws[i..][1..] == ws[i + 1..] && xs[i..][1..] == xs[i + 1..];
      ghost var done, head, rest := buf[..o], Be(xs[i], ws[i]), Pack(ws[i + 1..], xs[i + 1..]);
      assert done + (head + rest) == (done + head) + rest;
      CopyAt(buf, o, xs[i], ws[i]);
      o := o + ws[i];
    }
    assert ws[|ws|..] == [] && Pack(ws[|ws|..], xs[|ws|..]) == [];
    assert buf[..] == buf[..o];
  }

  /** Writes the big-endian bytes of a number into the buffer at an offset. */
  method CopyAt(buf: array<byte>, o: nat, x: nat, n: nat)
    requires o + n <= buf.Length
    modifies buf
    ensures buf[..o + n] == old(buf[..o]) + Be(x, n)
  {
    var rest: nat := x;
    for i := 0 to n
      invariant buf[..o] == old(buf[..o])
      invariant Be(x, n) == Be(rest, n - i) + buf[o + n - i..o + n]
    {
      assert Be(rest, n - i) == Be(rest / 256, n - i - 1) + [rest % 256];
      ghost var tail := buf[o + n - i..o + n];
      buf[o + n - i - 1] := rest % 256;
      assert buf[o + n - i - 1..o + n] == [rest % 256] + tail;
      rest := rest / 256;
    }
    assert buf[..o + n] == buf[..o] + buf[o..o + n];
  }

  // ---- QR_PAIR: variable length ----

  /** status, connection, two times, latency, two lengths, two stream positions, pseudo flag, two counts. */
  function PairFieldWidth(i: nat): nat {
    if i == 0 || i == 9 then 1 else if i == 10 || i == 11 then 2 else if i == 5 || i == 6 then 4 else 8
  }

  function PairHeader(): (ws: Layout)
    ensures |ws| == 12 && forall i :: 0 <= i < 12 ==> ws[i] == PairFieldWidth(i)
  {
    seq(12, i requires 0 <= i < 12 => PairFieldWidth(i))
  }

  const HEADER_SIZE := 62

  predicate PairTyped(row: QrPair) {
    && row.status < 256 && row.connHash < U64 && row.qTs < U64 && row.rTs < U64 && row.latencyMs < U64
    && row.qLen < U32 && row.rLen < U32 && row.absSeq < U64 && row.absEnd < U64 && row.pseudo < 256
    && (forall i :: 0 <= i < |row.qIdx| ==> row.qIdx[i] < U64)
    && (forall i :: 0 <= i < |row.rIdx| ==> row.rIdx[i] < U64)
  }

  /** The list lengths are cast to 16 bits. */
  function HeaderFields(row: QrPair): (xs: seq<nat>)
    ensures |xs| == 12
  {
    [row.status, row.connHash, row.qTs, row.rTs, row.latencyMs, row.qLen, row.rLen, row.absSeq, row.absEnd,
     row.pseudo, |row.qIdx| % U16, |row.rIdx| % U16]
  }

  /** A key with its length cast to 32 bits. */
  function KeyBytes(key: seq<byte>): Bytes { Be(|key| % U32, 4) + key }

  function TailBytes(row: QrPair): Bytes {
    Pack(Eights(|row.qIdx|), row.qIdx)
    + (Pack(Eights(|row.rIdx|), row.rIdx) + (KeyBytes(row.reqKey) + KeyBytes(row.respKey)))
  }

  /** `QrPairValue::encode`. */
  function PairBytes(row: QrPair): Bytes {
    Pack(PairHeader(), HeaderFields(row)) + TailBytes(row)
  }

  /** A length-prefixed key at the start of `b`: the key and what follows it. */
  function KeyAt(b: Bytes): Option<(seq<byte>, Bytes)> {
    if |b| < 4 then None
    else
      var n := Val(b[..4]);
      if |b| < 4 + n then None else Some((b[4..4 + n], b[4 + n..]))
  }

  /** `n` 64-bit numbers at the start of `b`. */
  function ListAt(n: nat, b: Bytes): Option<(seq<nat>, Bytes)> {
    EightsWidth(n);
    if |b| < 8 * n then None else Some((Unpack(Eights(n), b[..8 * n]), b[8 * n..]))
  }

  lemma HeaderWidth()
    ensures Width(PairHeader()) == HEADER_SIZE
  {
    Width4(1, 8, 8, 8);
    Width4(8, 4, 4, 8);
    Width4(8, 1, 2, 2);
    WidthConcat([1, 8, 8, 8], [8, 4, 4, 8]);
    WidthConcat([1, 8, 8, 8] + [8, 4, 4, 8], [8, 1, 2, 2]);
    assert PairHeader() == [1, 8, 8, 8] + [8, 4, 4, 8] + [8, 1, 2, 2];
  }

  /** The two keys at the end, with nothing left over. */
  function KeysOf(b: Bytes): Option<(seq<byte>, seq<byte>)> {
    match KeyAt(b)
    case None => None
    case Some((reqKey, b1)) =>
      match KeyAt(b1)
      case None => None
      case Some((respKey, b2)) => if b2 != [] then None else Some((reqKey, respKey))
  }

  /** The two lists, then the keys. */
  function TailOf(q: nat, r: nat, b: Bytes): Option<(seq<nat>, seq<nat>, seq<byte>, seq<byte>)> {
    match ListAt(q, b)
    case None => None
    case Some((qIdx, b1)) =>
      match ListAt(r, b1)
      case None => None
      case Some((rIdx, b2)) =>
        match KeysOf(b2)
        case None => None
        case Some((reqKey, respKey)) => Some((qIdx, rIdx, reqKey, respKey))
  }

  function PairOf(h: seq<nat>, tail: (seq<nat>, seq<nat>, seq<byte>, seq<byte>)): QrPair
    requires |h| == 12
  {
    QrPair(h[0], h[1], h[2], h[3], h[4], h[5], h[6], h[7], h[8], h[9], tail.0, tail.1, tail.2, tail.3)
  }

  /** `QrPairValue::decode`: every part must be there and nothing may be left over. */
  function PairOfBytes(b: Bytes): Option<QrPair> {
    HeaderWidth();
    if |b| < HEADER_SIZE then None
    else
      var h := Unpack(PairHeader(), b[..HEADER_SIZE]);
      match TailOf(h[10], h[11], b[HEADER_SIZE..])
      case None => None
      case Some(tail) => Some(PairOf(h, tail))
  }

  lemma KeyRoundTrip(key: seq<byte>, rest: Bytes)
    requires |key| < U32
    ensures KeyAt(KeyBytes(key) + rest) == Some((key, rest))
  {
    PowValues();
    var b := KeyBytes(key) + rest;
    assert b[..4] == Be(|key|, 4);
    ValOfBe(|key|, 4);
    assert b[4..4 + |key|] == key && b[4 + |key|..] == rest;
  }

  lemma ListRoundTrip(xs: seq<nat>, rest: Bytes)
    requires forall i :: 0 <= i < |xs| ==> xs[i] < U64
    ensures ListAt(|xs|, Pack(Eights(|xs|), xs) + rest) == Some((xs, rest))
  {
    PowValues();
    EightsWidth(|xs|);
    var p := Pack(Eights(|xs|), xs);
    UnpackPack(Eights(|xs|), xs);
    assert (p + rest)[..8 * |xs|] == p && (p + rest)[8 * |xs|..] == rest;
  }

  lemma HeaderFits(row: QrPair)
    requires PairTyped(row)
    ensures Fits(PairHeader(), HeaderFields(row))
  {
    PowValues();
  }

  lemma HeaderRoundTrip(xs: seq<nat>, rest: Bytes)
    requires Fits(PairHeader(), xs)
    ensures |Pack(PairHeader(), xs)| == HEADER_SIZE == Width(PairHeader())
    ensures var b := Pack(PairHeader(), xs) + rest;
            Unpack(PairHeader(), b[..HEADER_SIZE]) == xs && b[HEADER_SIZE..] == rest
  {
    HeaderWidth();
    var h := Pack(PairHeader(), xs);
    UnpackPack(PairHeader(), xs);
    assert (h + rest)[..HEADER_SIZE] == h && (h + rest)[HEADER_SIZE..] == rest;
  }

  predicate ShortEnough(row: QrPair) {
    |row.qIdx| < U16 && |row.rIdx| < U16 && |row.reqKey| < U32 && |row.respKey| < U32
  }

  lemma KeysDecode(a: seq<byte>, b: seq<byte>)
    requires |a| < U32 && |b| < U32
    ensures KeysOf(KeyBytes(a) + KeyBytes(b)) == Some((a, b))
  {
    KeyRoundTrip(a, KeyBytes(b));
    KeyRoundTrip(b, []);
    assert KeyBytes(b) + [] == KeyBytes(b);
  }

  lemma TailDecodes(row: QrPair)
    requires PairTyped(row) && ShortEnough(row)
    ensures TailOf(|row.qIdx|, |row.rIdx|, TailBytes(row)) == Some((row.qIdx, row.rIdx, row.reqKey, row.respKey))
  {
    var keys := KeyBytes(row.reqKey) + KeyBytes(row.respKey);
    ListRoundTrip(row.qIdx, Pack(Eights(|row.rIdx|), row.rIdx) + keys);
    ListRoundTrip(row.rIdx, keys);
    KeysDecode(row.reqKey, row.respKey);
  }

  lemma PairDecodes(row: QrPair)
    requires PairTyped(row) && ShortEnough(row)
    ensures PairOfBytes(PairBytes(row)) == Some(row)
  {
    HeaderFits(row);
    HeaderRoundTrip(HeaderFields(row), TailBytes(row));
    TailDecodes(row);
    var tail := (row.qIdx, row.rIdx, row.reqKey, row.respKey);
    FieldsRestore(row);
    ReadsParts(PairBytes(row), HeaderFields(row), tail);
  }

  lemma FieldsRestore(row: QrPair)
    requires ShortEnough(row)
    ensures HeaderFields(row)[10] == |row.qIdx| && HeaderFields(row)[11] == |row.rIdx|
    ensures PairOf(HeaderFields(row), (row.qIdx, row.rIdx, row.reqKey, row.respKey)) == row
  {}

  lemma ReadsParts(b: Bytes, h: seq<nat>, tail: (seq<nat>, seq<nat>, seq<byte>, seq<byte>))
    requires |b| >= HEADER_SIZE == Width(PairHeader()) && |h| == 12
    requires Unpack(PairHeader(), b[..HEADER_SIZE]) == h && TailOf(h[10], h[11], b[HEADER_SIZE..]) == Some(tail)
    ensures PairOfBytes(b) == Some(PairOf(h, tail))
  {}

  lemma TailIsShort(q: nat, r: nat, b: Bytes)
    requires TailOf(q, r, b).Some?
    ensures var t := TailOf(q, r, b).value; |t.0| == q && |t.1| == r && |t.2| < U32 && |t.3| < U32
  {
    PowValues();
    var b1 := ListAt(q, b).value.1;
    var b2 := ListAt(r, b1).value.1;
    ValBound(b2[..4]);
    var b3 := KeyAt(b2).value.1;
    ValBound(b3[..4]);
  }

  /** Whatever is decoded has lists below 2^16 and keys below 2^32 entries. */
  lemma DecodedIsShort(b: Bytes)
    ensures PairOfBytes(b).Some? ==> ShortEnough(PairOfBytes(b).value)
  {
    PowValues();
    HeaderWidth();
    if PairOfBytes(b).Some? {
      var h := Unpack(PairHeader(), b[..HEADER_SIZE]);
      UnpackFits(PairHeader(), b[..HEADER_SIZE]);
      assert h[10] < Pow(PairHeader()[10]) && h[11] < Pow(PairHeader()[11]);
      TailIsShort(h[10], h[11], b[HEADER_SIZE..]);
    }
  }

  /** A row is read back unchanged exactly when its index lists have at most 65535 entries and its
      keys are shorter than 4 GiB. */
  lemma PairRoundTrip(row: QrPair)
    requires PairTyped(row)
    ensures PairOfBytes(PairBytes(row)) == Some(row) <==> ShortEnough(row)
  {
    if ShortEnough(row) {
      PairDecodes(row);
    } else {
      DecodedIsShort(PairBytes(row));
    }
  }

  method EncodePair(row: QrPair) returns (v: Bytes)
    ensures v == PairBytes(row)
  {
    v := PutFields([], PairHeader(), HeaderFields(row));
    v := PutList(v, row.qIdx);
    v := PutList(v, row.rIdx);
    v := PutNum(v, |row.reqKey| % U32, 4);
    v := v + row.reqKey;
    v := PutNum(v, |row.respKey| % U32, 4);
    v := v + row.respKey;
    ghost var h := Pack(PairHeader(), HeaderFields(row));
    ghost var q, r := Pack(Eights(|row.qIdx|), row.qIdx), Pack(Eights(|row.rIdx|), row.rIdx);
    Regroup(h, q, r, Be(|row.reqKey| % U32, 4), row.reqKey, Be(|row.respKey| % U32, 4), row.respKey);
  }

  lemma Regroup(h: Bytes, q: Bytes, r: Bytes, a: Bytes, b: Bytes, c: Bytes, d: Bytes)
    ensures [] + h + q + r + a + b + c + d == h + (q + (r + ((a + b) + (c + d))))
  {}

  method PutList(v: Bytes, xs: seq<nat>) returns (r: Bytes)
    ensures r == v + Pack(Eights(|xs|), xs)
  {
    r := v;
    for i := 0 to |xs|
      invariant r + Pack(Eights(|xs| - i), xs[i..]) == v + Pack(Eights(|xs|), xs)
    {
      assert Eights(|xs| - i)[1..] == Eights(|xs| - i - 1) && xs[i..][1..] == xs[i + 1..];
      ghost var head, rest := Be(xs[i], 8), Pack(Eights(|xs| - i - 1), xs[i + 1..]);
      assert r + (head + rest) == (r + head) + rest;
      r := PutNum(r, xs[i], 8);
    }
  }

  method DecodePair(b: Bytes) returns (row: Option<QrPair>)
    ensures row == PairOfBytes(b)
  {
    HeaderWidth();
    var c := new Cursor(b);
    var h := c.TakeFields(PairHeader());
    if h.None? {
      return None;
    }
    var tail := TakeTail(c, h.value[10], h.value[11]);
    if tail.None? {
      return None;
    }
    row := Some(PairOf(h.value, tail.value));
  }

  method TakeTail(c: Cursor, q: nat, r: nat) returns (tail: Option<(seq<nat>, seq<nat>, seq<byte>, seq<byte>)>)
    requires c.Valid()
    modifies c
    ensures tail == TailOf(q, r, c.b[old(c.o)..])
  {
    var qIdx := TakeList(c, q);
    if qIdx.None? {
      return None;
    }
    var rIdx := TakeList(c, r);
    if rIdx.None? {
      return None;
    }
    var keys := TakeKeys(c);
    if keys.None? {
      return None;
    }
    tail := Some((qIdx.value, rIdx.value, keys.value.0, keys.value.1));
  }

  method TakeKeys(c: Cursor) returns (keys: Option<(seq<byte>, seq<byte>)>)
    requires c.Valid()
    modifies c
    ensures keys == KeysOf(c.b[old(c.o)..])
  {
    var reqKey := TakeKey(c);
    if reqKey.None? {
      return None;
    }
    var respKey := TakeKey(c);
    if respKey.None? {
      return None;
    }
    if c.o != |c.b| {
      return None;
    }
    keys := Some((reqKey.value, respKey.value));
  }

  method TakeList(c: Cursor, n: nat) returns (xs: Option<seq<nat>>)
    requires c.Valid()
    modifies c
    ensures c.Valid()
    ensures xs.Some? <==> ListAt(n, c.b[old(c.o)..]).Some?
    ensures xs.Some? ==> ListAt(n, c.b[old(c.o)..]).value == (xs.value, c.b[c.o..])
  {
    EightsWidth(n);
    ghost var o := c.o;
    xs := c.TakeFields(Eights(n));
    if xs.Some? {
      assert c.b[o..][..8 * n] == c.b[o..c.o] && c.b[o..][8 * n..] == c.b[c.o..];
    }
  }

  method TakeKey(c: Cursor) returns (key: Option<seq<byte>>)
    requires c.Valid()
    modifies c
    ensures c.Valid()
    ensures key.Some? <==> KeyAt(c.b[old(c.o)..]).Some?
    ensures key.Some? ==> KeyAt(c.b[old(c.o)..]).value == (key.value, c.b[c.o..])
  {
    ghost var o := c.o;
    var n := c.TakeNum(4);
    if n.None? {
      return None;
    }
    assert c.b[o..][..4] == c.b[o..c.o];
    ghost var o1 := c.o;
    key := c.TakeBytes(n.value);
    if key.Some? {
      assert c.b[o..][4..4 + n.value] == c.b[o1..c.o] && c.b[o..][4 + n.value..] == c.b[c.o..];
    }
  }

  // ---- Values of fixed length ----

  /** A value with the field widths `ws`: (1, 1, 4, 4, 2, 2, 4) for a RECORD_TS summary, (8, 8, 4) in
      QR_PENDING, (8, 6) in PENDING_TTL, (8) in the secondary tables. Any other length is refused. */
  function FixedOf(ws: Layout, b: Bytes): Option<seq<nat>> {
    if |b| != Width(ws) then None else Some(Unpack(ws, b))
  }

  /** Bytes decode to a tuple exactly when they are its encoding. */
  lemma FixedDecodes(ws: Layout, b: Bytes, xs: seq<nat>)
    requires |xs| == |ws|
    ensures FixedOf(ws, b) == Some(xs) <==> Fits(ws, xs) && b == Pack(ws, xs)
  {
    if |b| == Width(ws) {
      UnpackFits(ws, b);
      PackUnpack(ws, b);
    }
    if Fits(ws, xs) {
      UnpackPack(ws, xs);
    }
  }
}
