/** The timeout scan: expired pending requests become TIMEOUT rows of the current epoch. */
module Ttl {
  import opened Common
  import opened Ordering
  import opened Connection
  import opened Store
  import opened Qr

  const NS := 1_000_000_000

  /** `qr_timeout_secs` and `fin_short_timeout_secs`. */
  datatype Timeouts = Timeouts(qrSecs: nat, finSecs: nat) {
    function QrNs(): nat { SatMul(qrSecs, NS) }

    /** The tighter of the two timeouts. */
    function ShortNs(): nat { if 0 < finSecs < qrSecs then SatMul(finSecs, NS) else QrNs() }

    function ScanHi(now: nat): nat { SatSub(now, ShortNs()) }
  }

  function BaseDeadline(c: Timeouts, qTs: nat): nat { SatAdd(qTs, c.QrNs()) }

  /** A FIN during the request's life brings the deadline forward. */
  function FinDeadline(c: Timeouts, finSeen: nat, qTs: nat): nat {
    if finSeen > 0 && qTs <= finSeen then SatAdd(finSeen, c.ShortNs()) else U64 - 1
  }

  predicate Expired(c: Timeouts, now: nat, finSeen: nat, qTs: nat) {
    Min(BaseDeadline(c, qTs), FinDeadline(c, finSeen, qTs)) <= now
  }

  /** Order of PENDING_TTL keys: by opening time. */
  predicate TtlLt(a: TtlKey, b: TtlKey) { a.qTs < b.qTs || (a.qTs == b.qTs && a.h < b.h) }

  lemma TtlOrder()
    ensures StrictOrder(TtlLt)
  {}

  ghost function TtlKeys(ttl: map<TtlKey, TtlVal>, hi: nat): seq<TtlKey>
    ensures forall k :: k in TtlKeys(ttl, hi) <==> k in ttl && k.qTs <= hi
    ensures Ascending(TtlLt, TtlKeys(ttl, hi))
  {
    TtlOrder();
    Ascend(TtlLt, set k | k in ttl && k.qTs <= hi)
  }

  /** QR_PENDING rows of connection `h` that stand for request `q`. */
  ghost function RowsFor(pending: map<PendKey, PendVal>, h: nat, q: nat): set<PendKey> {
    set k | k in pending && k.h == h && pending[k].q == q
  }

  /** `cleanup_pending`: deletes the first such row, if any. */
  ghost function Cleanup(pending: map<PendKey, PendVal>, h: nat, q: nat): map<PendKey, PendVal> {
    PendOrder();
    var keys := Ascend(PendLt, RowsFor(pending, h, q));
    if keys == [] then pending else pending - {keys[0]}
  }

  lemma FirstOfAscend(rows: set<PendKey>, k: PendKey)
    requires StrictOrder(PendLt) && IsLeast(PendLt, rows, k)
    ensures Ascend(PendLt, rows) != [] && Ascend(PendLt, rows)[0] == k
  {
    var keys := Ascend(PendLt, rows);
    assert k in keys;
    var first := keys[0];
    assert first in rows;
    assert PendLt(first, k) ==> !PendLt(k, first);
  }

  /** The scan half way: transactions, connection cache and statistics. */
  datatype Sweep = Sweep(t: Txns, conns: map<nat, ConnState>, timedOut: nat, stale: nat)

  function Load(s: Sweep, h: nat): ConnState {
    if h in s.conns then s.conns[h] else if h in s.t.live.conn then s.t.live.conn[h] else BLANK
  }

  function TimedOut(st: ConnState): ConnState {
    Flag(st.(qrOpen := SatSub(st.qrOpen, 1)), QR_UNMATCHED)
  }

  /** One collected entry. */
  ghost function Visit(c: Timeouts, now: nat, s: Sweep, k: TtlKey, q: nat): Sweep {
    var st := Load(s, k.h);
    if !Expired(c, now, st.finSeen, k.qTs) then s.(conns := s.conns[k.h := st])
    else
      var moves := Moves(s.t, q);
      var t1 := Migrate(s.t, q, Ended(TIMEOUT));
      var t2 := t1.(live := t1.live.(pending := Cleanup(t1.live.pending, k.h, q), ttl := t1.live.ttl - {k}));
      Sweep(t2, s.conns[k.h := if moves then TimedOut(st) else st],
            s.timedOut + (if moves then 1 else 0), s.stale + (if moves then 0 else 1))
  }

  ghost function VisitAll(c: Timeouts, now: nat, s: Sweep, ks: seq<TtlKey>, ttl: map<TtlKey, TtlVal>): Sweep
    requires forall i :: 0 <= i < |ks| ==> ks[i] in ttl
    decreases |ks|
  {
    if ks == [] then s else VisitAll(c, now, Visit(c, now, s, ks[0], ttl[ks[0]].q), ks[1..], ttl)
  }

  ghost function SweepFrom(c: Timeouts, now: nat, t: Txns): Sweep {
    var ks := TtlKeys(t.live.ttl, c.ScanHi(now));
    assert forall i :: 0 <= i < |ks| ==> ks[i] in ks;
    VisitAll(c, now, Sweep(t, map[], 0, 0), ks, t.live.ttl)
  }

  /** `scan_pending_ttl`: both stores after it. */
  ghost function TtlScan(c: Timeouts, now: nat, t: Txns): Txns {
    if c.qrSecs == 0 then t
    else
      var s := SweepFrom(c, now, t);
      Txns(s.t.live.(conn := s.t.live.conn + s.conns), s.t.epoch)
  }
}
