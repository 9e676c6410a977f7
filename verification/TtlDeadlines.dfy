/** The deadlines of the timeout scan in numbers: when an entry goes, and when it stays. */
module TtlDeadlines {
  import opened Common
  import opened Store
  import opened Qr
  import opened Ttl
  import opened TtlScans

  /** The timeout that counts after a FIN: the shorter one, if there is one. */
  function Tighter(c: Timeouts): nat { if 0 < c.finSecs < c.qrSecs then c.finSecs else c.qrSecs }

  /** A FIN came while the request was open, and the tighter timeout has passed since. */
  predicate FinPassed(c: Timeouts, now: nat, finSeen: nat, qTs: nat) {
    0 < finSeen && qTs <= finSeen && finSeen + Tighter(c) * NS <= now
  }

  /** The request's time is up: its full timeout has passed, or the tighter one since a FIN. */
  predicate TimeIsUp(c: Timeouts, now: nat, finSeen: nat, qTs: nat) {
    qTs + c.qrSecs * NS <= now || FinPassed(c, now, finSeen, qTs)
  }

  /** The FIN time of the connection an entry names, 0 when live has no such connection. */
  function FinOf(l: Live, h: nat): nat { if h in l.conn then l.conn[h].finSeen else 0 }

  /** A sum that saturates at the last clock value lies past any earlier clock value. */
  lemma SaturatedLater(a: nat, b: nat, now: nat)
    requires now < U64 - 1
    ensures SatAdd(a, Min(b, U64 - 1)) <= now <==> a + b <= now
  {}

  lemma ExpiredIsUp(c: Timeouts, now: nat, finSeen: nat, qTs: nat)
    requires now < U64 - 1
    ensures Expired(c, now, finSeen, qTs) <==> TimeIsUp(c, now, finSeen, qTs)
  {
    SaturatedLater(qTs, c.qrSecs * NS, now);
    SaturatedLater(finSeen, Tighter(c) * NS, now);
    assert c.ShortNs() == Min(Tighter(c) * NS, U64 - 1);
  }

  /** Before the last clock value the scan finds exactly the entries whose time is up. */
  lemma DueExactly(c: Timeouts, now: nat, l: Live, k: TtlKey)
    requires c.qrSecs > 0 && now < U64 - 1
    ensures k in DueSet(c, now, l) <==> k in l.ttl && TimeIsUp(c, now, FinOf(l, k.h), k.qTs)
  {
    ExpiredIsUp(c, now, FinOf(l, k.h), k.qTs);
    if Expired(c, now, FinOf(l, k.h), k.qTs) {
      ScanBoundCovers(c, now, FinOf(l, k.h), k.qTs);
    }
  }

  /** An entry leaves exactly when its time is up: `qTs` plus the timeout, or, after a FIN at or past
      `qTs`, the FIN plus the tighter timeout. */
  lemma LeavesExactly(c: Timeouts, now: nat, t: Txns, k: TtlKey)
    requires c.qrSecs > 0 && now < U64 - 1 && k in t.live.ttl
    ensures k !in TtlScan(c, now, t).live.ttl <==> TimeIsUp(c, now, FinOf(t.live, k.h), k.qTs)
  {
    DueExactly(c, now, t.live, k);
    ScanIsExact(c, now, t);
  }

  /** Some entry of request `q` has run out. */
  ghost predicate RunOut(c: Timeouts, now: nat, l: Live, q: nat) {
    exists k :: k in l.ttl && l.ttl[k].q == q && TimeIsUp(c, now, FinOf(l, k.h), k.qTs)
  }

  lemma NamedIsRunOut(c: Timeouts, now: nat, l: Live, q: nat)
    requires c.qrSecs > 0 && now < U64 - 1
    ensures Named(l.ttl, DueSet(c, now, l), q) <==> RunOut(c, now, l, q)
  {
    forall k ensures k in DueSet(c, now, l) <==> k in l.ttl && TimeIsUp(c, now, FinOf(l, k.h), k.qTs) {
      DueExactly(c, now, l, k);
    }
    if RunOut(c, now, l, q) {
      var k :| k in l.ttl && l.ttl[k].q == q && TimeIsUp(c, now, FinOf(l, k.h), k.qTs);
      assert k in DueSet(c, now, l);
    }
  }

  /** A pending request without ending gets a TIMEOUT row, and leaves live, exactly when one of its
      entries has run out. */
  lemma TimesOutExactly(c: Timeouts, now: nat, t: Txns, q: nat)
    requires c.qrSecs > 0 && now < U64 - 1 && Moves(t, q)
    ensures var t' := TtlScan(c, now, t);
            if RunOut(c, now, t.live, q) then q !in t'.live.pair && TimedOutRow(t.live, t'.epoch, q)
            else q in t'.live.pair && t'.live.pair[q] == t.live.pair[q] && KPair(q) !in t'.epoch
  {
    NamedIsRunOut(c, now, t.live, q);
    ScanIsExact(c, now, t);
    assert Fate(t, TtlScan(c, now, t), q, Named(t.live.ttl, DueSet(c, now, t.live), q));
  }

  /** A request none of whose entries has run out keeps its rows in both stores, its pending entries
      and its deadlines. */
  lemma StaysExactly(c: Timeouts, now: nat, t: Txns, q: nat)
    requires c.qrSecs > 0 && now < U64 - 1 && !RunOut(c, now, t.live, q)
    ensures var t' := TtlScan(c, now, t);
            && SameAt(t.live.pair, t'.live.pair, q) && SameAt(t.epoch, t'.epoch, KPair(q))
            && (forall k :: k in t.live.pending && t.live.pending[k].q == q ==>
                 SameAt(t.live.pending, t'.live.pending, k))
            && (forall k :: k in t.live.ttl && t.live.ttl[k].q == q ==> SameAt(t.live.ttl, t'.live.ttl, k))
  {
    NamedIsRunOut(c, now, t.live, q);
    OnlyDueTimeOut(c, now, t, q);
    ScanIsExact(c, now, t);
    forall k | k in t.live.ttl && t.live.ttl[k].q == q ensures SameAt(t.live.ttl, TtlScan(c, now, t).live.ttl, k) {
      LeavesExactly(c, now, t, k);
    }
  }

  /** No FIN was seen on the connections of the request's entries, and none is `qrSecs` old yet. */
  ghost predicate Young(c: Timeouts, now: nat, l: Live, q: nat) {
    forall k :: k in l.ttl && l.ttl[k].q == q ==> FinOf(l, k.h) == 0 && now < k.qTs + c.qrSecs * NS
  }

  /** Without FIN a request younger than `qrSecs` keeps its row and all its entries. */
  lemma YoungStays(c: Timeouts, now: nat, t: Txns, q: nat)
    requires c.qrSecs > 0 && now < U64 - 1 && Young(c, now, t.live, q)
    ensures var t' := TtlScan(c, now, t);
            && SameAt(t.live.pair, t'.live.pair, q) && SameAt(t.epoch, t'.epoch, KPair(q))
            && (forall k :: k in t.live.pending && t.live.pending[k].q == q ==>
                 SameAt(t.live.pending, t'.live.pending, k))
            && (forall k :: k in t.live.ttl && t.live.ttl[k].q == q ==> SameAt(t.live.ttl, t'.live.ttl, k))
  {
    StaysExactly(c, now, t, q);
  }

  /** After a FIN the request goes once the tighter timeout has passed, whatever the full one. */
  lemma FinGoes(c: Timeouts, now: nat, t: Txns, k: TtlKey)
    requires c.qrSecs > 0 && now < U64 - 1 && k in t.live.ttl && Moves(t, t.live.ttl[k].q)
    requires k.h in t.live.conn && FinPassed(c, now, t.live.conn[k.h].finSeen, k.qTs)
    ensures var t', q := TtlScan(c, now, t), t.live.ttl[k].q;
            k !in t'.live.ttl && q !in t'.live.pair && TimedOutRow(t.live, t'.epoch, q)
  {
    LeavesExactly(c, now, t, k);
    assert RunOut(c, now, t.live, t.live.ttl[k].q);
    TimesOutExactly(c, now, t, t.live.ttl[k].q);
  }
}
