/** The store keys as bytes. The range scans of the program are byte ranges; each is shown to be
    exactly the range of field tuples that the rest of the model scans. */
module KeyCodec {
  import opened Common
  import opened Ordering
  import opened Codec
  import opened Store
  import opened Qr
  import opened Ttl

  lemma LexOrder()
    ensures StrictOrder(LexLess)
  {
    forall x: Bytes ensures !LexLess(x, x) {
      LexIrreflexive(x);
    }
    forall x: Bytes, y: Bytes, z: Bytes | LexLess(x, y) && LexLess(y, z) ensures LexLess(x, z) {
      LexTransitive(x, y, z);
    }
    forall x: Bytes, y: Bytes ensures x == y || LexLess(x, y) || LexLess(y, x) {
      LexTotal(x, y);
    }
  }

  lemma {:induction false} LexIrreflexive(x: Bytes)
    ensures !LexLess(x, x)
    decreases |x|
  {
    if x != [] {
      LexIrreflexive(x[1..]);
    }
  }

  lemma {:induction false} LexTransitive(x: Bytes, y: Bytes, z: Bytes)
    requires LexLess(x, y) && LexLess(y, z)
    ensures LexLess(x, z)
    decreases |x|
  {
    if x != [] && x[0] == y[0] == z[0] {
      LexTransitive(x[1..], y[1..], z[1..]);
    }
  }

  lemma {:induction false} LexTotal(x: Bytes, y: Bytes)
    ensures x == y || LexLess(x, y) || LexLess(y, x)
    decreases |x|
  {
    if x != [] && y != [] && x[0] == y[0] {
      LexTotal(x[1..], y[1..]);
      assert x == [x[0]] + x[1..] && y == [y[0]] + y[1..];
    }
  }

  // ---- QR_PENDING ----

  const PENDING_LAYOUT: Layout := [8, 2, 6]

  /** `k_qr_pending`; the end is written with its low 48 bits. */
  function PendingBytes(h: nat, inc: nat, end: nat): Bytes { Pack(PENDING_LAYOUT, [h, inc, end]) }

  /** `k_qr_pending_prefix`. */
  function PrefixBytes(h: nat, inc: nat): Bytes { Pack([8, 2], [h, inc]) }

  predicate PendTyped(k: PendKey) { k.h < U64 && k.inc < U16 && k.end < U48 }

  lemma PendFits(k: PendKey)
    ensures PendTyped(k) <==> Fits(PENDING_LAYOUT, [k.h, k.inc, k.end])
  {
    PowValues();
    var xs := [k.h, k.inc, k.end];
    assert xs[0] == k.h && xs[1] == k.inc && xs[2] == k.end;
    assert PENDING_LAYOUT[0] == 8 && PENDING_LAYOUT[1] == 2 && PENDING_LAYOUT[2] == 6;
  }

  lemma TupleOf3(xs: seq<nat>, ys: seq<nat>)
    requires |xs| == |ys| == 3
    ensures TupleLess(xs, ys) <==>
      xs[0] < ys[0] || (xs[0] == ys[0] && (xs[1] < ys[1] || (xs[1] == ys[1] && xs[2] < ys[2])))
  {
    TupleOf2(xs[1..], ys[1..]);
  }

  lemma TupleOf2(xs: seq<nat>, ys: seq<nat>)
    requires |xs| == |ys| == 2
    ensures TupleLess(xs, ys) <==> xs[0] < ys[0] || (xs[0] == ys[0] && xs[1] < ys[1])
  {
    assert TupleLess(xs[1..], ys[1..]) <==> xs[1] < ys[1];
  }

  /** The key of an end beyond 48 bits is the key of its low 48 bits. */
  lemma PendingTruncates(h: nat, inc: nat, end: nat)
    ensures PendingBytes(h, inc, end) == PendingBytes(h, inc, end % U48)
  {
    PowValues();
    BeTruncates(end, 6);
    var a, b := [h, inc, end], [h, inc, end % U48];
    assert Pack([6], a[2..]) == Pack([6], b[2..]) by {
      assert Pack([], a[2..][1..]) == Pack([], b[2..][1..]);
      assert [6][1..] == [];
    }
    assert PENDING_LAYOUT[1..] == [2, 6] && [2, 6][1..] == [6];
    assert a[1..][1..] == a[2..] && b[1..][1..] == b[2..];
  }

  /** Byte order of QR_PENDING is `PendLt`, and distinct rows have distinct keys. */
  lemma PendingByteOrder(a: PendKey, b: PendKey)
    requires PendTyped(a) && PendTyped(b)
    ensures LexLess(PendingBytes(a.h, a.inc, a.end), PendingBytes(b.h, b.inc, b.end)) <==> PendLt(a, b)
    ensures PendingBytes(a.h, a.inc, a.end) == PendingBytes(b.h, b.inc, b.end) <==> a == b
  {
    PendFits(a);
    PendFits(b);
    var xs, ys := [a.h, a.inc, a.end], [b.h, b.inc, b.end];
    PackOrder(PENDING_LAYOUT, xs, ys);
    TupleOf3(xs, ys);
    assert xs == ys <==> a.h == b.h && a.inc == b.inc && a.end == b.end by {
      assert xs[0] == a.h && xs[1] == a.inc && xs[2] == a.end;
      assert ys[0] == b.h && ys[1] == b.inc && ys[2] == b.end;
    }
  }

  /** A key's first ten bytes are its prefix. */
  lemma PendingSplit(h: nat, inc: nat, end: nat)
    ensures PendingBytes(h, inc, end) == PrefixBytes(h, inc) + Be(end, 6)
  {
    assert PENDING_LAYOUT[1..] == [2, 6] && [2, 6][1..] == [6] && [6][1..] == [];
    assert [8, 2][1..] == [2] && [2][1..] == [];
    assert [h, inc, end][1..] == [inc, end] && [inc, end][1..] == [end];
    assert [h, inc][1..] == [inc];
    assert Pack([6], [end]) == Be(end, 6) + [] == Be(end, 6);
    assert Pack([2, 6], [inc, end]) == Be(inc, 2) + Be(end, 6);
    assert Pack([2], [inc]) == Be(inc, 2) + [] == Be(inc, 2);
    assert Be(h, 8) + (Be(inc, 2) + Be(end, 6)) == (Be(h, 8) + Be(inc, 2)) + Be(end, 6);
  }

  /** `scan_pending_upto`: the byte range from the ten-byte prefix to the key of the limit holds
      exactly the rows of this connection and incarnation that end at or before the limit. */
  lemma PendingRange(k: PendKey, h: nat, inc: nat, limit: nat)
    requires PendTyped(k) && h < U64 && inc < U16
    ensures var to := Min(limit, U48_MAX);
            LexLe(PrefixBytes(h, inc), PendingBytes(k.h, k.inc, k.end))
            && LexLe(PendingBytes(k.h, k.inc, k.end), PendingBytes(h, inc, to))
            <==> k.h == h && k.inc == inc && k.end <= limit
  {
    var to := Min(limit, U48_MAX);
    var top := PendKey(h, inc, to);
    PendingByteOrder(k, top);
    PendingSplit(k.h, k.inc, k.end);
    PrefixOrder(h, inc, k);
  }

  lemma PrefixOrder(h: nat, inc: nat, k: PendKey)
    requires PendTyped(k) && h < U64 && inc < U16
    ensures LexLe(PrefixBytes(h, inc), PendingBytes(k.h, k.inc, k.end))
       <==> h < k.h || (h == k.h && inc <= k.inc)
  {
    PowValues();
    var p, q, tail := PrefixBytes(h, inc), PrefixBytes(k.h, k.inc), Be(k.end, 6);
    PendingSplit(k.h, k.inc, k.end);
    LexConcat(p, [], q, tail);
    assert p + [] == p;
    PackOrder([8, 2], [h, inc], [k.h, k.inc]);
    TupleOf2([h, inc], [k.h, k.inc]);
    assert [h, inc] == [k.h, k.inc] <==> h == k.h && inc == k.inc by {
      assert [h, inc][0] == h && [h, inc][1] == inc && [k.h, k.inc][0] == k.h && [k.h, k.inc][1] == k.inc;
    }
    assert |p| == 10 && |q + tail| == 16;
  }

  /** `count_live_pending` and `cleanup_pending`: all incarnations of one connection. */
  lemma ConnRange(k: PendKey, h: nat)
    requires PendTyped(k) && h < U64
    ensures LexLe(PendingBytes(h, 0, 0), PendingBytes(k.h, k.inc, k.end))
            && LexLe(PendingBytes(k.h, k.inc, k.end), PendingBytes(h, U16 - 1, U48 - 1))
            <==> k.h == h
  {
    PendingByteOrder(PendKey(h, 0, 0), k);
    PendingByteOrder(k, PendKey(h, U16 - 1, U48 - 1));
  }

  // ---- PENDING_TTL ----

  function TtlBytes(qTs: nat, h: nat): Bytes { Pack([8, 8], [qTs, h]) }

  predicate TtlTyped(k: TtlKey) { k.qTs < U64 && k.h < U64 }

  lemma PairOrder(a: nat, b: nat, c: nat, d: nat)
    requires a < U64 && b < U64 && c < U64 && d < U64
    ensures LexLess(Pack([8, 8], [a, b]), Pack([8, 8], [c, d])) <==> a < c || (a == c && b < d)
    ensures Pack([8, 8], [a, b]) == Pack([8, 8], [c, d]) <==> a == c && b == d
  {
    PowValues();
    PackOrder([8, 8], [a, b], [c, d]);
    TupleOf2([a, b], [c, d]);
    assert [a, b] == [c, d] <==> a == c && b == d by {
      assert [a, b][0] == a && [a, b][1] == b && [c, d][0] == c && [c, d][1] == d;
    }
  }

  lemma TtlByteOrder(a: TtlKey, b: TtlKey)
    requires TtlTyped(a) && TtlTyped(b)
    ensures LexLess(TtlBytes(a.qTs, a.h), TtlBytes(b.qTs, b.h)) <==> TtlLt(a, b)
    ensures TtlBytes(a.qTs, a.h) == TtlBytes(b.qTs, b.h) <==> a == b
  {
    PairOrder(a.qTs, a.h, b.qTs, b.h);
  }

  /** The timeout scan's byte range holds exactly the entries opened at or before `hi`. */
  lemma TtlRange(k: TtlKey, hi: nat)
    requires TtlTyped(k) && hi < U64
    ensures LexLe(TtlBytes(0, 0), TtlBytes(k.qTs, k.h)) && LexLe(TtlBytes(k.qTs, k.h), TtlBytes(hi, U64 - 1))
       <==> k.qTs <= hi
  {
    PairOrder(0, 0, k.qTs, k.h);
    PairOrder(k.qTs, k.h, hi, U64 - 1);
  }

  // ---- Epoch keys ----

  predicate ETyped(k: EKey) {
    match k
    case KPair(q) => q < U64
    case KPacket(idx) => idx < U64
    case KConnQr(h, ts, q) => h < U64 && ts < U64 && q < U64
    case KQrKey(kh, ts, q) => kh < U64 && ts < U64 && q < U64
    case KQrTime(ts, q) => ts < U64 && q < U64
    case KRecord(ts, idx) => ts < U64 && idx < U64
  }

  function EBytes(k: EKey): Bytes {
    match k
    case KPair(q) => Pack([8], [q])
    case KPacket(idx) => Pack([8], [idx])
    case KConnQr(h, ts, q) => Pack([8, 8, 8], [h, ts, q])
    case KQrKey(kh, ts, q) => Pack([8, 8, 8], [kh, ts, q])
    case KQrTime(ts, q) => Pack([8, 8], [ts, q])
    case KRecord(ts, idx) => Pack([8, 8], [ts, idx])
  }

  lemma TripleOrder(a: nat, b: nat, c: nat, d: nat, e: nat, f: nat)
    requires a < U64 && b < U64 && c < U64 && d < U64 && e < U64 && f < U64
    ensures LexLess(Pack([8, 8, 8], [a, b, c]), Pack([8, 8, 8], [d, e, f]))
       <==> a < d || (a == d && (b < e || (b == e && c < f)))
    ensures Pack([8, 8, 8], [a, b, c]) == Pack([8, 8, 8], [d, e, f]) <==> a == d && b == e && c == f
  {
    PowValues();
    PackOrder([8, 8, 8], [a, b, c], [d, e, f]);
    TupleOf3([a, b, c], [d, e, f]);
    assert [a, b, c] == [d, e, f] <==> a == d && b == e && c == f by {
      assert [a, b, c][0] == a && [a, b, c][1] == b && [a, b, c][2] == c;
      assert [d, e, f][0] == d && [d, e, f][1] == e && [d, e, f][2] == f;
    }
  }

  /** `ts_bounds` on RECORD_TS and QR_TIME: exactly the keys of the window. */
  lemma WindowRange(ts: nat, idx: nat, from: nat, until: nat)
    requires ts < U64 && idx < U64 && from < U64 && until < U64
    ensures LexLe(Pack([8, 8], [from, 0]), Pack([8, 8], [ts, idx]))
            && LexLe(Pack([8, 8], [ts, idx]), Pack([8, 8], [until, U64 - 1]))
            <==> from <= ts <= until
  {
    PairOrder(from, 0, ts, idx);
    PairOrder(ts, idx, until, U64 - 1);
  }

  /** `conn_qr_bounds` on CONN_QR: exactly one connection's keys of the window. */
  lemma ConnWindowRange(h: nat, ts: nat, q: nat, conn: nat, from: nat, until: nat)
    requires h < U64 && ts < U64 && q < U64 && conn < U64 && from < U64 && until < U64
    ensures LexLe(Pack([8, 8, 8], [conn, from, 0]), Pack([8, 8, 8], [h, ts, q]))
            && LexLe(Pack([8, 8, 8], [h, ts, q]), Pack([8, 8, 8], [conn, until, U64 - 1]))
            <==> h == conn && from <= ts <= until
  {
    TripleOrder(conn, from, 0, h, ts, q);
    TripleOrder(h, ts, q, conn, until, U64 - 1);
  }

  /** Within one database distinct keys stay distinct as bytes. */
  lemma EBytesInjective(a: EKey, b: EKey)
    requires ETyped(a) && ETyped(b) && EBytes(a) == EBytes(b)
    requires (a.KPair? && b.KPair?) || (a.KPacket? && b.KPacket?) || (a.KConnQr? && b.KConnQr?)
          || (a.KQrKey? && b.KQrKey?) || (a.KQrTime? && b.KQrTime?) || (a.KRecord? && b.KRecord?)
    ensures a == b
  {
    PowValues();
    match a {
      case KPair(q) => PackOrder([8], [q], [b.q]); assert [q][0] == [b.q][0];
      case KPacket(idx) => PackOrder([8], [idx], [b.idx]); assert [idx][0] == [b.idx][0];
      case KConnQr(h, ts, q) => TripleOrder(h, ts, q, b.h, b.qTs, b.q);
      case KQrKey(kh, ts, q) => TripleOrder(kh, ts, q, b.keyHash, b.qTs, b.q);
      case KQrTime(ts, q) => PairOrder(ts, q, b.qTs, b.q);
      case KRecord(ts, idx) => PairOrder(ts, idx, b.ts, b.idx);
    }
  }
}
