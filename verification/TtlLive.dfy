/** The timeout scan on consistent stores: the live invariant holds again afterwards, and exactly the
    due requests are gone. */
module TtlLive {
  import opened Ordering
  import opened Connection
  import opened Store
  import opened Qr
  import opened QrLive
  import opened Ttl
  import opened TtlScans

  function HitFor(l: Live, k: TtlKey): Hit
    requires k in l.ttl && k.h in l.conn
  {
    Hit(PendKey(k.h, l.conn[k.h].incarnation, l.ttl[k].end), l.ttl[k].q, k.qTs)
  }

  ghost predicate Entry(l: Live, k: TtlKey) {
    && k in l.ttl && k.h in l.conn
    && HitFor(l, k).key in l.pending && HitFor(l, k) == HitAt(l.pending, HitFor(l, k).key)
    && HitFor(l, k).q in l.pair && l.pair[HitFor(l, k).q].status == PENDING
  }

  lemma EntryOf(l: Live, e: Epoch, k: TtlKey)
    requires Linked(l, e) && k in l.ttl
    ensures Entry(l, k) && KPair(HitFor(l, k).q) !in e
    ensures RowsFor(l.pending, k.h, HitFor(l, k).q) == {HitFor(l, k).key}
  {
    assert TtlOk(l, k);
    assert RowOk(l, l.ttl[k].q);
    var pk := HitFor(l, k).key;
    assert PendOk(l, pk);
    forall o | o in l.pending && o != pk ensures l.pending[o].q != l.ttl[k].q {
      PendOneToOne(l, e, o, pk);
    }
  }

  lemma CleanupOne(pending: map<PendKey, PendVal>, h: nat, q: nat, pk: PendKey)
    requires RowsFor(pending, h, q) == {pk}
    ensures Cleanup(pending, h, q) == pending - {pk}
  {
    PendOrder();
    var keys := Ascend(PendLt, RowsFor(pending, h, q));
    assert |keys| == 1 && keys[0] in keys;
  }

  /** An expired entry ends its request as TIMEOUT. */
  lemma VisitExpired(c: Timeouts, now: nat, s: Sweep, k: TtlKey)
    requires Linked(Overlay(s), s.t.epoch) && k in s.t.live.ttl
    requires k.h in Overlay(s).conn && Expired(c, now, Overlay(s).conn[k.h].finSeen, k.qTs)
    ensures var s' := Visit(c, now, s, k, s.t.live.ttl[k].q);
            var l, hits := Overlay(s), [HitFor(Overlay(s), k)];
            && s'.t == EndOne(s.t, ByStatus(TIMEOUT), hits, 0)
            && Moves(s.t, hits[0].q)
            && s'.conns == s.conns[k.h := TimedOut(l.conn[k.h])]
            && s'.timedOut == s.timedOut + 1 && s'.stale == s.stale
  {
    var l := Overlay(s);
    EntryOf(l, s.t.epoch, k);
    var hit := HitFor(l, k);
    CleanupOne(s.t.live.pending, k.h, hit.q, hit.key);
  }

  lemma CountedDown(l: Live, h: nat, pk: PendKey)
    requires Counted(l) && pk in l.pending && pk.h == h && h in l.conn
    ensures Counted(l.(pending := l.pending - {pk}, conn := l.conn[h := TimedOut(l.conn[h])]))
  {
    forall o | o in l.conn && o != h ensures PendingOf(l.pending - {pk}, o) == PendingOf(l.pending, o) {}
    assert PendingOf(l.pending - {pk}, h) == PendingOf(l.pending, h) - {pk};
    assert pk in PendingOf(l.pending, h);
  }

  lemma TimedOutFits(pending: map<PendKey, PendVal>, h: nat, st: ConnState)
    requires ConnFits(pending, h, st)
    ensures ConnFits(pending, h, TimedOut(st))
  {
    forall k | k in pending && k.h == h ensures Fits(TimedOut(st), k) {
      assert Fits(st, k);
    }
  }

  lemma ExpiredOverlay(c: Timeouts, now: nat, s: Sweep, k: TtlKey)
    requires Linked(Overlay(s), s.t.epoch) && k in s.t.live.ttl
    requires k.h in Overlay(s).conn && Expired(c, now, Overlay(s).conn[k.h].finSeen, k.qTs)
    ensures var l, hits := Overlay(s), [HitFor(Overlay(s), k)];
            var s' := Visit(c, now, s, k, s.t.live.ttl[k].q);
            && Overlay(s') == WithConn(Without(l, hits, 0), k.h, TimedOut(l.conn[k.h]))
            && s'.t.epoch.Keys == s.t.epoch.Keys + {KPair(hits[0].q)}
  {
    var l, hits := Overlay(s), [HitFor(Overlay(s), k)];
    var s' := Visit(c, now, s, k, s.t.live.ttl[k].q);
    VisitExpired(c, now, s, k);
    EndOneIs(s.t, ByStatus(TIMEOUT), hits, 0);
    WithoutOne(l, hits);
    OverlayAfter(s, s'.t, k.h, TimedOut(l.conn[k.h]));
  }

  lemma WithoutOne(l: Live, hits: seq<Hit>)
    requires |hits| == 1
    ensures Without(l, hits, 0) == l.(
              pair := l.pair - {hits[0].q},
              pending := l.pending - {hits[0].key},
              ttl := l.ttl - {TtlKey(hits[0].qTs, hits[0].key.h)})
  {
    assert QueriesFrom(hits, 0) == {hits[0].q} && KeysFrom(hits, 0) == {hits[0].key};
    assert TtlsFrom(hits, 0) == {TtlKey(hits[0].qTs, hits[0].key.h)};
  }

  lemma TimedOutLinked(l: Live, e: Epoch, e': Epoch, k: TtlKey)
    requires Linked(l, e) && k in l.ttl && k.h in l.conn
    requires e'.Keys == e.Keys + {KPair(HitFor(l, k).q)}
    ensures Linked(WithConn(Without(l, [HitFor(l, k)], 0), k.h, TimedOut(l.conn[k.h])), e')
  {
    var hits := [HitFor(l, k)];
    EntryOf(l, e, k);
    assert hits[0].q in QueriesFrom(hits, 0);
    WithoutLinked(l, e, e', hits);
    var u := Without(l, hits, 0);
    KnownFits(u, e', k.h);
    TimedOutFits(u.pending, k.h, u.conn[k.h]);
    Reconnect(u, e', k.h, TimedOut(u.conn[k.h]));
  }

  /** Visiting an entry keeps the live invariant. */
  lemma VisitKeepsInv(c: Timeouts, now: nat, s: Sweep, k: TtlKey)
    requires LiveInv(Overlay(s), s.t.epoch) && k in s.t.live.ttl
    ensures var s' := Visit(c, now, s, k, s.t.live.ttl[k].q); LiveInv(Overlay(s'), s'.t.epoch)
  {
    var l := Overlay(s);
    EntryOf(l, s.t.epoch, k);
    if !DueKey(c, now, l, k) {
      VisitUnexpired(c, now, s, k, s.t.live.ttl[k].q);
    } else {
      ExpiredOverlay(c, now, s, k);
      TimedOutLinked(l, s.t.epoch, Visit(c, now, s, k, s.t.live.ttl[k].q).t.epoch, k);
      WithoutOne(l, [HitFor(l, k)]);
      CountedDown(l, k.h, HitFor(l, k).key);
    }
  }

  /** The entries still to visit are in the live store as they were collected. */
  ghost predicate Ready(s: Sweep, ks: seq<TtlKey>, ttl: map<TtlKey, TtlVal>) {
    && LiveInv(Overlay(s), s.t.epoch) && Ascending(TtlLt, ks)
    && (forall i :: 0 <= i < |ks| ==> ks[i] in ttl && ks[i] in s.t.live.ttl && s.t.live.ttl[ks[i]] == ttl[ks[i]])
  }

  /** Without the first entry the others are still there. */
  lemma RestThere(m: map<TtlKey, TtlVal>, m1: map<TtlKey, TtlVal>, ks: seq<TtlKey>, ttl: map<TtlKey, TtlVal>)
    requires Ascending(TtlLt, ks) && ks != [] && (m1 == m || m1 == m - {ks[0]})
    requires forall i :: 0 <= i < |ks| ==> ks[i] in ttl && ks[i] in m && m[ks[i]] == ttl[ks[i]]
    ensures Ascending(TtlLt, ks[1..])
    ensures forall i :: 0 <= i < |ks[1..]| ==>
              ks[1..][i] in ttl && ks[1..][i] in m1 && m1[ks[1..][i]] == ttl[ks[1..][i]]
  {
    assert forall i :: 0 < i < |ks| ==> TtlLt(ks[0], ks[i]);
  }

  lemma ReadyNext(c: Timeouts, now: nat, s: Sweep, ks: seq<TtlKey>, ttl: map<TtlKey, TtlVal>)
    requires Ready(s, ks, ttl) && ks != []
    ensures Ready(Visit(c, now, s, ks[0], ttl[ks[0]].q), ks[1..], ttl)
  {
    var s1 := Visit(c, now, s, ks[0], ttl[ks[0]].q);
    VisitKeepsInv(c, now, s, ks[0]);
    VisitTtl(c, now, s, ks[0], ttl[ks[0]].q);
    RestThere(s.t.live.ttl, s1.t.live.ttl, ks, ttl);
  }

  lemma {:induction false} SweepKeepsInv(c: Timeouts, now: nat, s: Sweep, ks: seq<TtlKey>, ttl: map<TtlKey, TtlVal>)
    requires Ready(s, ks, ttl)
    ensures var s' := VisitAll(c, now, s, ks, ttl); LiveInv(Overlay(s'), s'.t.epoch)
    decreases |ks|
  {
    if ks != [] {
      ReadyNext(c, now, s, ks, ttl);
      SweepKeepsInv(c, now, Visit(c, now, s, ks[0], ttl[ks[0]].q), ks[1..], ttl);
    }
  }

  /** On a consistent live store the three tables lose exactly the due requests, each of them counts
      as timed out, and the store stays consistent. */
  lemma ScanKeepsInv(c: Timeouts, now: nat, t: Txns)
    requires LiveInv(t.live, t.epoch)
    ensures var t' := TtlScan(c, now, t);
            && LiveInv(t'.live, t'.epoch)
            && (c.qrSecs > 0 ==> forall q :: q in t'.live.pair <==>
                 q in t.live.pair && !Named(t.live.ttl, DueSet(c, now, t.live), q))
            && (c.qrSecs > 0 ==> forall k :: k in t'.live.pending <==>
                 k in t.live.pending && t.live.pending[k].q in t'.live.pair)
  {
    if c.qrSecs > 0 {
      var ks, s := ScanUnfold(c, now, t);
      ScanIs(c, now, t);
      SweepKeepsInv(c, now, s, ks, t.live.ttl);
      ConsistentPairs(c, now, t);
      ConsistentPending(c, now, t);
    }
  }

  lemma ConsistentPairs(c: Timeouts, now: nat, t: Txns)
    requires LiveInv(t.live, t.epoch) && c.qrSecs > 0
    ensures forall q :: q in TtlScan(c, now, t).live.pair <==>
              q in t.live.pair && !Named(t.live.ttl, DueSet(c, now, t.live), q)
  {
    ScanIsExact(c, now, t);
    forall q
      ensures q in TtlScan(c, now, t).live.pair <==> q in t.live.pair && !Named(t.live.ttl, DueSet(c, now, t.live), q)
    {
      assert Fate(t, TtlScan(c, now, t), q, Named(t.live.ttl, DueSet(c, now, t.live), q));
      assert q in t.live.pair ==> RowOk(t.live, q) && Moves(t, q);
    }
  }

  lemma ConsistentPending(c: Timeouts, now: nat, t: Txns)
    requires LiveInv(t.live, t.epoch) && c.qrSecs > 0
    requires LiveInv(TtlScan(c, now, t).live, TtlScan(c, now, t).epoch)
    ensures var t' := TtlScan(c, now, t);
            forall k :: k in t'.live.pending <==> k in t.live.pending && t.live.pending[k].q in t'.live.pair
  {
    var t' := TtlScan(c, now, t);
    var ks, s := ScanUnfold(c, now, t);
    ScanIs(c, now, t);
    SweepPending(c, now, s, ks, t.live.ttl);
    ConsistentPairs(c, now, t);
    forall k | k in t'.live.pending ensures k in t.live.pending && t.live.pending[k].q in t'.live.pair {
      assert PendOk(t'.live, k);
    }
    forall k | k in t.live.pending && t.live.pending[k].q in t'.live.pair ensures k in t'.live.pending {
      assert !Named(t.live.ttl, DueSet(c, now, t.live), t.live.pending[k].q);
    }
  }
}
