/** Where each field of a stored row lies, in byte offsets. */
module RowLayout {
  import opened Common
  import opened Connection
  import opened Codec
  import opened Store
  import opened RowCodec

  /** The `n` bytes from `o` on are the number `x`, big-endian. */
  predicate HasAt(b: Bytes, o: nat, n: nat, x: nat) { o + n <= |b| && Val(b[o..o + n]) == x }

  /** A packed field lies behind the widths of those before it. */
  lemma {:induction false} FieldAt(ws: Layout, xs: seq<nat>, i: nat)
    requires Fits(ws, xs) && i < |ws|
    ensures HasAt(Pack(ws, xs), Width(ws[..i]), ws[i], xs[i])
    decreases |ws|
  {
    var head, rest := Be(xs[0], ws[0]), Pack(ws[1..], xs[1..]);
    assert Pack(ws, xs) == head + rest;
    if i == 0 {
      assert (head + rest)[..ws[0]] == head;
      ValOfBe(xs[0], ws[0]);
    } else {
      FieldAt(ws[1..], xs[1..], i - 1);
      assert ws[..i][1..] == ws[1..][..i - 1];
      var o := Width(ws[1..][..i - 1]);
      assert (head + rest)[ws[0] + o..ws[0] + o + ws[i]] == rest[o..o + ws[i]];
    }
  }

  /** Sum of the first `i` widths. */
  function Offset(width: nat -> nat, i: nat): nat { if i == 0 then 0 else Offset(width, i - 1) + width(i - 1) }

  lemma {:induction false} OffsetIs(ws: Layout, width: nat -> nat, i: nat)
    requires i <= |ws| && forall j :: 0 <= j < |ws| ==> ws[j] == width(j)
    ensures Width(ws[..i]) == Offset(width, i)
  {
    if i > 0 {
      OffsetIs(ws, width, i - 1);
      WidthConcat(ws[..i - 1], [ws[i - 1]]);
      assert ws[..i] == ws[..i - 1] + [ws[i - 1]];
      assert [ws[i - 1]][1..] == [] && Width([ws[i - 1]]) == ws[i - 1];
    }
  }

  /** Byte offset of field `i` of a connection state. */
  function ConnOffset(i: nat): nat {
    if i <= 1 then i
    else if i <= 3 then 8 + 4 * (i - 2)
    else if i <= 5 then 16 + 2 * (i - 4)
    else if i <= 7 then 20 + (i - 6)
    else if i <= 25 then 22 + 8 * (i - 8)
    else if i <= 27 then 159 + 4 * (i - 26)
    else if i <= 29 then 171 + 4 * (i - 28)
    else if i == 30 then 179
    else 181 + (i - 31)
  }

  lemma {:induction false} ConnOffsetIs(i: nat)
    requires i < CONN_FIELDS
    ensures Offset(ConnFieldWidth, i) == ConnOffset(i)
  {
    if i > 0 {
      ConnOffsetIs(i - 1);
    }
  }

  /** Every field of `xs` lies at its offset. */
  predicate Laid(b: Bytes, xs: seq<nat>)
    requires |xs| == CONN_FIELDS
  {
    forall i :: 0 <= i < CONN_FIELDS ==> HasAt(b, ConnOffset(i), ConnFieldWidth(i), xs[i])
  }

  lemma PackLaid(xs: seq<nat>)
    requires |xs| == CONN_FIELDS && Fits(ConnLayout(), xs)
    ensures Laid(Pack(ConnLayout(), xs), xs)
  {
    forall i | 0 <= i < CONN_FIELDS
      ensures HasAt(Pack(ConnLayout(), xs), ConnOffset(i), ConnFieldWidth(i), xs[i])
    {
      FieldAt(ConnLayout(), xs, i);
      OffsetIs(ConnLayout(), ConnFieldWidth, i);
      ConnOffsetIs(i);
    }
  }

  /** State and endpoints. */
  predicate EndsAt(b: Bytes, st: ConnState) {
    && HasAt(b, 0, 1, st.state) && HasAt(b, 8, 4, st.clientIp)
    && HasAt(b, 12, 4, st.serverIp) && HasAt(b, 16, 2, st.clientPort)
    && HasAt(b, 18, 2, st.serverPort) && HasAt(b, 20, 1, st.proto)
  }

  predicate TimesAt(b: Bytes, st: ConnState) {
    && HasAt(b, 22, 8, st.firstTs) && HasAt(b, 30, 8, st.lastTs)
    && HasAt(b, 38, 8, st.synSeen) && HasAt(b, 46, 8, st.synackSeen)
    && HasAt(b, 54, 8, st.finSeen) && HasAt(b, 62, 8, st.rstSeen)
  }

  predicate CountersAt(b: Bytes, st: ConnState) {
    && HasAt(b, 70, 8, st.reqCnt) && HasAt(b, 78, 8, st.respCnt)
    && HasAt(b, 86, 8, st.bytesC) && HasAt(b, 94, 8, st.bytesS)
    && HasAt(b, 102, 8, st.pktsC) && HasAt(b, 110, 8, st.pktsS)
    && HasAt(b, 163, 8, st.qrOpen)
  }

  predicate StreamsAt(b: Bytes, st: ConnState) {
    && HasAt(b, 118, 8, st.absSeqC) && HasAt(b, 126, 8, st.absSeqS)
    && HasAt(b, 134, 8, st.consumedAckC) && HasAt(b, 142, 8, st.consumedAckS)
    && HasAt(b, 171, 4, st.lastRawC) && HasAt(b, 175, 4, st.lastRawS)
  }

  /** Binding, flags and incarnation. */
  predicate MarksAt(b: Bytes, st: ConnState)
    requires ConnTyped(st)
  {
    && HasAt(b, 150, 8, I64Bits(st.metaBindId)) && HasAt(b, 158, 1, st.protocolHint)
    && HasAt(b, 159, 4, st.anomalyFlags) && HasAt(b, 179, 2, st.incarnation)
    && HasAt(b, 181, 1, st.dirFlags) && HasAt(b, 183, 8, st.synPktIdx)
  }

  lemma EndsLaid(b: Bytes, st: ConnState)
    requires ConnTyped(st) && Laid(b, ConnFields(st))
    ensures EndsAt(b, st)
  {
    assert HasAt(b, ConnOffset(0), ConnFieldWidth(0), ConnFields(st)[0]);
    assert HasAt(b, ConnOffset(2), ConnFieldWidth(2), ConnFields(st)[2]);
    assert HasAt(b, ConnOffset(3), ConnFieldWidth(3), ConnFields(st)[3]);
    assert HasAt(b, ConnOffset(4), ConnFieldWidth(4), ConnFields(st)[4]);
    assert HasAt(b, ConnOffset(5), ConnFieldWidth(5), ConnFields(st)[5]);
    assert HasAt(b, ConnOffset(6), ConnFieldWidth(6), ConnFields(st)[6]);
  }

  lemma TimesLaid(b: Bytes, st: ConnState)
    requires ConnTyped(st) && Laid(b, ConnFields(st))
    ensures TimesAt(b, st)
  {
    assert HasAt(b, ConnOffset(8), ConnFieldWidth(8), ConnFields(st)[8]);
    assert HasAt(b, ConnOffset(9), ConnFieldWidth(9), ConnFields(st)[9]);
    assert HasAt(b, ConnOffset(10), ConnFieldWidth(10), ConnFields(st)[10]);
    assert HasAt(b, ConnOffset(11), ConnFieldWidth(11), ConnFields(st)[11]);
    assert HasAt(b, ConnOffset(12), ConnFieldWidth(12), ConnFields(st)[12]);
    assert HasAt(b, ConnOffset(13), ConnFieldWidth(13), ConnFields(st)[13]);
  }

  lemma CountersLaid(b: Bytes, st: ConnState)
    requires ConnTyped(st) && Laid(b, ConnFields(st))
    ensures CountersAt(b, st)
  {
    assert HasAt(b, ConnOffset(14), ConnFieldWidth(14), ConnFields(st)[14]);
    assert HasAt(b, ConnOffset(15), ConnFieldWidth(15), ConnFields(st)[15]);
    assert HasAt(b, ConnOffset(16), ConnFieldWidth(16), ConnFields(st)[16]);
    assert HasAt(b, ConnOffset(17), ConnFieldWidth(17), ConnFields(st)[17]);
    assert HasAt(b, ConnOffset(18), ConnFieldWidth(18), ConnFields(st)[18]);
    assert HasAt(b, ConnOffset(19), ConnFieldWidth(19), ConnFields(st)[19]);
    assert HasAt(b, ConnOffset(27), ConnFieldWidth(27), ConnFields(st)[27]);
  }

  lemma StreamsLaid(b: Bytes, st: ConnState)
    requires ConnTyped(st) && Laid(b, ConnFields(st))
    ensures StreamsAt(b, st)
  {
    assert HasAt(b, ConnOffset(20), ConnFieldWidth(20), ConnFields(st)[20]);
    assert HasAt(b, ConnOffset(21), ConnFieldWidth(21), ConnFields(st)[21]);
    assert HasAt(b, ConnOffset(22), ConnFieldWidth(22), ConnFields(st)[22]);
    assert HasAt(b, ConnOffset(23), ConnFieldWidth(23), ConnFields(st)[23]);
    assert HasAt(b, ConnOffset(28), ConnFieldWidth(28), ConnFields(st)[28]);
    assert HasAt(b, ConnOffset(29), ConnFieldWidth(29), ConnFields(st)[29]);
  }

  lemma MarksLaid(b: Bytes, st: ConnState)
    requires ConnTyped(st) && Laid(b, ConnFields(st))
    ensures MarksAt(b, st)
  {
    assert HasAt(b, ConnOffset(24), ConnFieldWidth(24), ConnFields(st)[24]);
    assert HasAt(b, ConnOffset(25), ConnFieldWidth(25), ConnFields(st)[25]);
    assert HasAt(b, ConnOffset(26), ConnFieldWidth(26), ConnFields(st)[26]);
    assert HasAt(b, ConnOffset(30), ConnFieldWidth(30), ConnFields(st)[30]);
    assert HasAt(b, ConnOffset(31), ConnFieldWidth(31), ConnFields(st)[31]);
    assert HasAt(b, ConnOffset(33), ConnFieldWidth(33), ConnFields(st)[33]);
  }

  /** A connection state is stored with each field at its place in the 191 bytes. */
  lemma ConnStoredAt(st: ConnState)
    requires ConnTyped(st)
    ensures var b := ConnBytes(st);
            EndsAt(b, st) && TimesAt(b, st) && CountersAt(b, st) && StreamsAt(b, st) && MarksAt(b, st)
  {
    ConnFits(st);
    PackLaid(ConnFields(st));
    AllLaid(ConnBytes(st), st);
  }

  lemma AllLaid(b: Bytes, st: ConnState)
    requires ConnTyped(st) && Laid(b, ConnFields(st))
    ensures EndsAt(b, st) && TimesAt(b, st) && CountersAt(b, st) && StreamsAt(b, st) && MarksAt(b, st)
  {
    EndsLaid(b, st);
    TimesLaid(b, st);
    CountersLaid(b, st);
    StreamsLaid(b, st);
    MarksLaid(b, st);
  }

  // ---- QR_PAIR ----

  /** Byte offset of field `i` of a pair's header. */
  function PairOffset(i: nat): nat {
    if i == 0 then 0
    else if i <= 5 then 1 + 8 * (i - 1)
    else if i <= 7 then 37 + 4 * (i - 6)
    else if i <= 9 then 49 + 8 * (i - 8)
    else 58 + 2 * (i - 10)
  }

  lemma {:induction false} PairOffsetIs(i: nat)
    requires i < 12
    ensures Offset(PairFieldWidth, i) == PairOffset(i)
  {
    if i > 0 {
      PairOffsetIs(i - 1);
    }
  }

  predicate HeaderLaid(b: Bytes, xs: seq<nat>)
    requires |xs| == 12
  {
    forall i :: 0 <= i < 12 ==> HasAt(b, PairOffset(i), PairFieldWidth(i), xs[i])
  }

  lemma StillAt(b: Bytes, tail: Bytes, o: nat, n: nat, x: nat)
    requires HasAt(b, o, n, x)
    ensures HasAt(b + tail, o, n, x)
  {
    assert (b + tail)[o..o + n] == b[o..o + n];
  }

  lemma PackHeaderLaid(xs: seq<nat>, tail: Bytes)
    requires |xs| == 12 && Fits(PairHeader(), xs)
    ensures HeaderLaid(Pack(PairHeader(), xs) + tail, xs)
  {
    var b := Pack(PairHeader(), xs);
    forall i | 0 <= i < 12 ensures HasAt(b + tail, PairOffset(i), PairFieldWidth(i), xs[i]) {
      FieldAt(PairHeader(), xs, i);
      OffsetIs(PairHeader(), PairFieldWidth, i);
      PairOffsetIs(i);
      StillAt(b, tail, PairOffset(i), PairFieldWidth(i), xs[i]);
    }
  }

  predicate HeaderAt(b: Bytes, row: QrPair) {
    && HasAt(b, 0, 1, row.status) && HasAt(b, 1, 8, row.connHash)
    && HasAt(b, 9, 8, row.qTs) && HasAt(b, 17, 8, row.rTs) && HasAt(b, 25, 8, row.latencyMs)
    && HasAt(b, 33, 4, row.qLen) && HasAt(b, 37, 4, row.rLen)
    && HasAt(b, 41, 8, row.absSeq) && HasAt(b, 49, 8, row.absEnd) && HasAt(b, 57, 1, row.pseudo)
    && HasAt(b, 58, 2, |row.qIdx| % U16) && HasAt(b, 60, 2, |row.rIdx| % U16)
  }

  lemma HeaderFieldsAt(b: Bytes, row: QrPair)
    requires HeaderLaid(b, HeaderFields(row))
    ensures HeaderAt(b, row)
  {
    assert HasAt(b, PairOffset(0), PairFieldWidth(0), HeaderFields(row)[0]);
    assert HasAt(b, PairOffset(1), PairFieldWidth(1), HeaderFields(row)[1]);
    assert HasAt(b, PairOffset(2), PairFieldWidth(2), HeaderFields(row)[2]);
    assert HasAt(b, PairOffset(3), PairFieldWidth(3), HeaderFields(row)[3]);
    assert HasAt(b, PairOffset(4), PairFieldWidth(4), HeaderFields(row)[4]);
    assert HasAt(b, PairOffset(5), PairFieldWidth(5), HeaderFields(row)[5]);
    assert HasAt(b, PairOffset(6), PairFieldWidth(6), HeaderFields(row)[6]);
    assert HasAt(b, PairOffset(7), PairFieldWidth(7), HeaderFields(row)[7]);
    assert HasAt(b, PairOffset(8), PairFieldWidth(8), HeaderFields(row)[8]);
    assert HasAt(b, PairOffset(9), PairFieldWidth(9), HeaderFields(row)[9]);
    assert HasAt(b, PairOffset(10), PairFieldWidth(10), HeaderFields(row)[10]);
    assert HasAt(b, PairOffset(11), PairFieldWidth(11), HeaderFields(row)[11]);
  }

  /** A pair is stored with each fixed field at its place in the 62 bytes of the header. */
  lemma PairStoredAt(row: QrPair)
    requires PairTyped(row)
    ensures HeaderAt(PairBytes(row), row)
  {
    HeaderFits(row);
    PackHeaderLaid(HeaderFields(row), TailBytes(row));
    HeaderFieldsAt(PairBytes(row), row);
  }
}
