/** The mark that a timeout leaves on its connection. */
module TtlFlags {
  import opened Common
  import opened Connection
  import opened AnomalyBits
  import opened Store
  import opened QrLive
  import opened Ttl
  import opened TtlScans
  import opened TtlLive
  import opened TtlDeadlines

  /** One of the entries of connection `h` among `due`. */
  ghost predicate OnConn(due: set<TtlKey>, h: nat) { exists k :: k in due && k.h == h }

  /** From `l` to `u` the connection `h` is marked as having an unmatched request if `on` holds, and keeps
      every other flag. */
  ghost predicate Marks(l: Live, u: Live, h: nat, bit: nat, on: bool)
    requires bit in BITS
  {
    Bit(ConnAt(u, h).anomalyFlags, bit) <==> Bit(ConnAt(l, h).anomalyFlags, bit) || (bit == QR_UNMATCHED && on)
  }

  lemma PutMarks(l: Live, u: Live, h: nat, o: nat, bit: nat)
    requires bit in BITS && h in l.conn && u.conn == l.conn[h := TimedOut(l.conn[h])]
    ensures Marks(l, u, o, bit, o == h)
  {
    SetsOne(l.conn[h].anomalyFlags, QR_UNMATCHED, bit);
  }

  lemma VisitMarks(c: Timeouts, now: nat, s: Sweep, k: TtlKey, h: nat, bit: nat)
    requires LiveInv(Overlay(s), s.t.epoch) && k in s.t.live.ttl && bit in BITS
    ensures Marks(Overlay(s), Overlay(Visit(c, now, s, k, s.t.live.ttl[k].q)), h, bit,
                  DueKey(c, now, Overlay(s), k) && k.h == h)
  {
    var l := Overlay(s);
    EntryOf(l, s.t.epoch, k);
    if !DueKey(c, now, l, k) {
      VisitUnexpired(c, now, s, k, s.t.live.ttl[k].q);
    } else {
      ExpiredOverlay(c, now, s, k);
      PutMarks(l, Overlay(Visit(c, now, s, k, s.t.live.ttl[k].q)), k.h, h, bit);
    }
  }

  lemma OnEither(one: set<TtlKey>, rest: set<TtlKey>, h: nat)
    ensures OnConn(one + rest, h) <==> OnConn(one, h) || OnConn(rest, h)
  {
    if OnConn(one, h) {
      var k :| k in one && k.h == h;
      assert k in one + rest;
    }
    if OnConn(rest, h) {
      var k :| k in rest && k.h == h;
      assert k in one + rest;
    }
  }

  lemma OnOne(k: TtlKey, h: nat)
    ensures OnConn({k}, h) <==> k.h == h
  {
    assert k in {k};
  }

  /** Marks add up over two parts of a sweep. */
  lemma MarksJoin(l: Live, u: Live, v: Live, h: nat, bit: nat, one: bool, rest: bool)
    requires bit in BITS && Marks(l, u, h, bit, one) && Marks(u, v, h, bit, rest)
    ensures Marks(l, v, h, bit, one || rest)
  {}

  lemma DueJoin(c: Timeouts, now: nat, l: Live, u: Live, ks: seq<TtlKey>, h: nat)
    requires ks != [] && ConnsTallied(l, u)
    ensures OnConn(DueIn(c, now, l, ks), h)
       <==> (DueKey(c, now, l, ks[0]) && ks[0].h == h) || OnConn(DueIn(c, now, u, ks[1..]), h)
  {
    DueStep(c, now, l, u, ks);
    OnOne(ks[0], h);
    OnEither(if DueKey(c, now, l, ks[0]) then {ks[0]} else {}, DueIn(c, now, u, ks[1..]), h);
  }

  lemma {:induction false} SweepMarks(c: Timeouts, now: nat, s: Sweep, ks: seq<TtlKey>, ttl: map<TtlKey, TtlVal>,
                                      h: nat, bit: nat)
    requires Ready(s, ks, ttl) && bit in BITS
    ensures Marks(Overlay(s), Overlay(VisitAll(c, now, s, ks, ttl)), h, bit, OnConn(DueIn(c, now, Overlay(s), ks), h))
    decreases |ks|
  {
    if ks != [] {
      var s1 := Visit(c, now, s, ks[0], ttl[ks[0]].q);
      ReadyNext(c, now, s, ks, ttl);
      VisitConn(c, now, s, ks[0], ttl[ks[0]].q);
      VisitMarks(c, now, s, ks[0], h, bit);
      SweepMarks(c, now, s1, ks[1..], ttl, h, bit);
      DueJoin(c, now, Overlay(s), Overlay(s1), ks, h);
      MarksJoin(Overlay(s), Overlay(s1), Overlay(VisitAll(c, now, s1, ks[1..], ttl)), h, bit,
                DueKey(c, now, Overlay(s), ks[0]) && ks[0].h == h, OnConn(DueIn(c, now, Overlay(s1), ks[1..]), h));
    }
  }

  /** The time of some entry of the connection is up. */
  ghost predicate ConnRunOut(c: Timeouts, now: nat, l: Live, h: nat) {
    exists k :: k in l.ttl && k.h == h && TimeIsUp(c, now, FinOf(l, h), k.qTs)
  }

  /** On consistent stores a scan marks a connection as having an unmatched request exactly when the time
      of one of its entries is up; no other flag moves. */
  lemma MarksExactly(c: Timeouts, now: nat, t: Txns, h: nat, bit: nat)
    requires c.qrSecs > 0 && now < U64 - 1 && LiveInv(t.live, t.epoch) && bit in BITS
    ensures Marks(t.live, TtlScan(c, now, t).live, h, bit, ConnRunOut(c, now, t.live, h))
  {
    var ks, s := ScanUnfold(c, now, t);
    ScanIs(c, now, t);
    SweepMarks(c, now, s, ks, t.live.ttl, h, bit);
    OnDue(c, now, t.live, h);
  }

  lemma OnDue(c: Timeouts, now: nat, l: Live, h: nat)
    requires c.qrSecs > 0 && now < U64 - 1
    ensures OnConn(DueSet(c, now, l), h) <==> ConnRunOut(c, now, l, h)
  {
    forall k ensures k in DueSet(c, now, l) <==> k in l.ttl && TimeIsUp(c, now, FinOf(l, k.h), k.qTs) {
      DueExactly(c, now, l, k);
    }
    if ConnRunOut(c, now, l, h) {
      var k :| k in l.ttl && k.h == h && TimeIsUp(c, now, FinOf(l, h), k.qTs);
      assert k in DueSet(c, now, l);
    }
  }
}
