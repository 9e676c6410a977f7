/** What the timeout scan does, whatever state a stop left the two stores in: exactly the expired
    entries leave, and a second scan at the same clock finds nothing to do. */
module TtlScans {
  import opened Common
  import opened Ordering
  import opened Connection
  import opened Store
  import opened Qr
  import opened QrLive
  import opened Ttl

  // ---- The scan bound ----

  /** The scan window is `q_ts <= ScanHi(now)`. An expired entry lies inside it, except at the last
      representable instant for entries younger than the tighter timeout. */
  lemma ScanBoundCovers(c: Timeouts, now: nat, finSeen: nat, qTs: nat)
    requires now < U64 && Expired(c, now, finSeen, qTs)
    ensures qTs <= c.ScanHi(now) <==> (now < U64 - 1 || qTs <= U64 - 1 - c.ShortNs())
  {
    ShortIsTighter(c);
  }

  lemma ShortIsTighter(c: Timeouts)
    ensures c.ShortNs() <= c.QrNs() < U64
  {
    if 0 < c.finSecs < c.qrSecs {
      assert c.finSecs * NS <= c.qrSecs * NS;
    }
  }

  /** The bound does miss one: at the maximal clock value a request opened at that instant counts as
      expired and is not scanned. */
  lemma ScanBoundMissesAtClockEnd()
    ensures var c := Timeouts(30, 5);
            Expired(c, U64 - 1, 0, U64 - 1) && !(U64 - 1 <= c.ScanHi(U64 - 1))
  {}

  // ---- One entry ----

  /** The live store as the scan would write it now. */
  ghost function Overlay(s: Sweep): Live { s.t.live.(conn := s.t.live.conn + s.conns) }

  /** A connection as the scan reads it: a missing row reads as the default one. */
  function ConnAt(l: Live, h: nat): ConnState { if h in l.conn then l.conn[h] else BLANK }

  /** The scan changes the open-request counter and the anomaly flags of a connection only. */
  predicate Tallied(a: ConnState, b: ConnState) {
    b == a.(qrOpen := b.qrOpen, anomalyFlags := b.anomalyFlags)
  }

  ghost predicate ConnsTallied(l: Live, u: Live) {
    l.conn.Keys <= u.conn.Keys && forall h :: Tallied(ConnAt(l, h), ConnAt(u, h))
  }

  /** The deadline of entry `k` has passed. */
  ghost predicate DueKey(c: Timeouts, now: nat, l: Live, k: TtlKey) {
    Expired(c, now, ConnAt(l, k.h).finSeen, k.qTs)
  }

  lemma LoadIs(s: Sweep, h: nat)
    ensures Load(s, h) == ConnAt(Overlay(s), h)
  {}

  /** A visit of an entry that is not due, and of one that is. */
  lemma VisitCases(c: Timeouts, now: nat, s: Sweep, k: TtlKey, q: nat)
    ensures var s', st := Visit(c, now, s, k, q), ConnAt(Overlay(s), k.h);
            if !DueKey(c, now, Overlay(s), k) then s' == s.(conns := s.conns[k.h := st])
            else
              && s'.t.live.pair == Migrate(s.t, q, Ended(TIMEOUT)).live.pair
              && s'.t.epoch == Migrate(s.t, q, Ended(TIMEOUT)).epoch
              && s'.t.live.conn == s.t.live.conn
              && s'.t.live.pending == Cleanup(s.t.live.pending, k.h, q)
              && s'.t.live.ttl == s.t.live.ttl - {k}
              && s'.conns == s.conns[k.h := if Moves(s.t, q) then TimedOut(st) else st]
              && s'.timedOut == s.timedOut + (if Moves(s.t, q) then 1 else 0)
              && s'.stale == s.stale + (if Moves(s.t, q) then 0 else 1)
  {
    LoadIs(s, k.h);
  }

  lemma TimedOutTallied(st: ConnState)
    ensures Tallied(st, TimedOut(st))
  {}

  lemma OverlayAfter(s: Sweep, t: Txns, h: nat, st: ConnState)
    requires t.live.conn == s.t.live.conn
    ensures s.t.live.conn + s.conns[h := st] == (s.t.live.conn + s.conns)[h := st]
  {}

  lemma PutTallied(l: Live, u: Live, h: nat, st: ConnState)
    requires u.conn == l.conn[h := st] && Tallied(ConnAt(l, h), st)
    ensures ConnsTallied(l, u)
  {
    forall o ensures Tallied(ConnAt(l, o), ConnAt(u, o)) {
      assert o != h ==> ConnAt(u, o) == ConnAt(l, o);
    }
  }

  /** A visit writes its connection's row, existing or not ... */
  lemma VisitConn(c: Timeouts, now: nat, s: Sweep, k: TtlKey, q: nat)
    ensures var s' := Visit(c, now, s, k, q); ConnsTallied(Overlay(s), Overlay(s')) && k.h in Overlay(s').conn
  {
    var s' := Visit(c, now, s, k, q);
    VisitRow(c, now, s, k, q);
    PutTallied(Overlay(s), Overlay(s'), k.h, Overlay(s').conn[k.h]);
  }

  lemma VisitRow(c: Timeouts, now: nat, s: Sweep, k: TtlKey, q: nat)
    ensures var l, u := Overlay(s), Overlay(Visit(c, now, s, k, q));
            k.h in u.conn && u.conn == l.conn[k.h := u.conn[k.h]] && Tallied(ConnAt(l, k.h), u.conn[k.h])
  {
    VisitCases(c, now, s, k, q);
    var s', st := Visit(c, now, s, k, q), ConnAt(Overlay(s), k.h);
    TimedOutTallied(st);
    OverlayAfter(s, s'.t, k.h, if DueKey(c, now, Overlay(s), k) && Moves(s.t, q) then TimedOut(st) else st);
  }

  /** ... and removes an expired entry. */
  lemma VisitTtl(c: Timeouts, now: nat, s: Sweep, k: TtlKey, q: nat)
    ensures Visit(c, now, s, k, q).t.live.ttl
         == if DueKey(c, now, Overlay(s), k) then s.t.live.ttl - {k} else s.t.live.ttl
  {
    VisitCases(c, now, s, k, q);
  }

  /** Request `q` was pending and is now a TIMEOUT row that differs in its status only. */
  ghost predicate TimedOutRow(l: Live, e: Epoch, q: nat) {
    q in l.pair && KPair(q) in e && e[KPair(q)] == VPair(l.pair[q].(status := TIMEOUT))
  }

  ghost predicate SameAt<K(!new), V(!new)>(m: map<K, V>, n: map<K, V>, k: K) {
    (k in m <==> k in n) && (k in m ==> n[k] == m[k])
  }

  /** What becomes of request `q`; `due` says whether an expired entry names it. A pending row without
      ending moves to the epoch as TIMEOUT; beside an ending it is only cleared from live; anything
      else stays as it is. */
  ghost predicate Fate(t: Txns, t': Txns, q: nat, due: bool) {
    if due && Moves(t, q) then q !in t'.live.pair && TimedOutRow(t.live, t'.epoch, q)
    else
      && SameAt(t.epoch, t'.epoch, KPair(q))
      && if due && KPair(q) in t.epoch then q !in t'.live.pair else SameAt(t.live.pair, t'.live.pair, q)
  }

  lemma VisitFate(c: Timeouts, now: nat, s: Sweep, k: TtlKey, id: nat, q: nat)
    ensures Fate(s.t, Visit(c, now, s, k, id).t, q, DueKey(c, now, Overlay(s), k) && id == q)
  {
    VisitCases(c, now, s, k, id);
  }

  lemma FateThen(t: Txns, u: Txns, v: Txns, q: nat, first: bool, second: bool)
    requires Fate(t, u, q, first) && Fate(u, v, q, second)
    ensures Fate(t, v, q, first || second)
  {}

  /** Only QR_PAIR rows of the epoch are written. */
  ghost predicate OtherRowsKept(e: Epoch, e': Epoch) { forall x: EKey :: !x.KPair? ==> SameAt(e, e', x) }

  lemma VisitOtherRows(c: Timeouts, now: nat, s: Sweep, k: TtlKey, id: nat)
    ensures OtherRowsKept(s.t.epoch, Visit(c, now, s, k, id).t.epoch)
  {
    VisitCases(c, now, s, k, id);
  }

  // ---- The whole scan ----

  /** The expired entries among `ks`. */
  ghost function DueIn(c: Timeouts, now: nat, l: Live, ks: seq<TtlKey>): set<TtlKey> {
    set k | k in ks && DueKey(c, now, l, k)
  }

  /** An entry of `due` names request `q`. */
  ghost predicate Named(ttl: map<TtlKey, TtlVal>, due: set<TtlKey>, q: nat) {
    exists k :: k in due && k in ttl && ttl[k].q == q
  }

  lemma DueStep(c: Timeouts, now: nat, l: Live, u: Live, ks: seq<TtlKey>)
    requires ks != [] && ConnsTallied(l, u)
    ensures DueIn(c, now, l, ks) == (if DueKey(c, now, l, ks[0]) then {ks[0]} else {}) + DueIn(c, now, u, ks[1..])
  {
    forall k ensures DueKey(c, now, l, k) <==> DueKey(c, now, u, k) {
      assert Tallied(ConnAt(l, k.h), ConnAt(u, k.h));
    }
    assert forall k :: k in ks <==> k == ks[0] || k in ks[1..];
  }

  lemma NamedStep(ttl: map<TtlKey, TtlVal>, due: set<TtlKey>, k: TtlKey, isDue: bool, rest: set<TtlKey>, q: nat)
    requires k in ttl && due == (if isDue then {k} else {}) + rest
    ensures Named(ttl, due, q) <==> (isDue && ttl[k].q == q) || Named(ttl, rest, q)
  {
    if Named(ttl, rest, q) {
      var o :| o in rest && o in ttl && ttl[o].q == q;
      assert o in due;
    }
  }

  lemma TalliedTrans(l: Live, u: Live, v: Live)
    requires ConnsTallied(l, u) && ConnsTallied(u, v)
    ensures ConnsTallied(l, v)
  {
    forall h ensures Tallied(ConnAt(l, h), ConnAt(v, h)) {
      assert Tallied(ConnAt(l, h), ConnAt(u, h)) && Tallied(ConnAt(u, h), ConnAt(v, h));
    }
  }

  /** The visited entries that expired are gone. */
  lemma {:induction false} SweepTtl(c: Timeouts, now: nat, s: Sweep, ks: seq<TtlKey>, ttl: map<TtlKey, TtlVal>)
    requires forall i :: 0 <= i < |ks| ==> ks[i] in ttl
    ensures VisitAll(c, now, s, ks, ttl).t.live.ttl == s.t.live.ttl - DueIn(c, now, Overlay(s), ks)
    decreases |ks|
  {
    if ks != [] {
      var s1 := Visit(c, now, s, ks[0], ttl[ks[0]].q);
      VisitConn(c, now, s, ks[0], ttl[ks[0]].q);
      VisitTtl(c, now, s, ks[0], ttl[ks[0]].q);
      SweepTtl(c, now, s1, ks[1..], ttl);
      DueStep(c, now, Overlay(s), Overlay(s1), ks);
      var rest := DueIn(c, now, Overlay(s1), ks[1..]);
      if DueKey(c, now, Overlay(s), ks[0]) {
        MinusStep(s.t.live.ttl, ks[0], rest, DueIn(c, now, Overlay(s), ks));
      } else {
        assert DueIn(c, now, Overlay(s), ks) == rest;
      }
    } else {
      assert DueIn(c, now, Overlay(s), ks) == {};
    }
  }

  /** All visited connections have a row; the epoch gains QR_PAIR rows only. */
  lemma {:induction false} SweepConn(c: Timeouts, now: nat, s: Sweep, ks: seq<TtlKey>, ttl: map<TtlKey, TtlVal>)
    requires forall i :: 0 <= i < |ks| ==> ks[i] in ttl
    ensures var s' := VisitAll(c, now, s, ks, ttl);
            && ConnsTallied(Overlay(s), Overlay(s'))
            && (forall i :: 0 <= i < |ks| ==> ks[i].h in Overlay(s').conn)
            && OtherRowsKept(s.t.epoch, s'.t.epoch)
    decreases |ks|
  {
    if ks != [] {
      var s1 := Visit(c, now, s, ks[0], ttl[ks[0]].q);
      VisitConn(c, now, s, ks[0], ttl[ks[0]].q);
      VisitOtherRows(c, now, s, ks[0], ttl[ks[0]].q);
      SweepConn(c, now, s1, ks[1..], ttl);
      var s' := VisitAll(c, now, s1, ks[1..], ttl);
      ConnStep(Overlay(s), Overlay(s1), Overlay(s'), ks);
    }
  }

  lemma ConnStep(l: Live, u: Live, v: Live, ks: seq<TtlKey>)
    requires ks != [] && ConnsTallied(l, u) && ConnsTallied(u, v) && ks[0].h in u.conn
    requires forall i :: 0 <= i < |ks[1..]| ==> ks[1..][i].h in v.conn
    ensures ConnsTallied(l, v) && forall i :: 0 <= i < |ks| ==> ks[i].h in v.conn
  {
    TalliedTrans(l, u, v);
    forall i | 0 <= i < |ks| ensures ks[i].h in v.conn {
      assert i > 0 ==> ks[1..][i - 1] == ks[i];
    }
  }

  lemma {:induction false} SweepFate(c: Timeouts, now: nat, s: Sweep, ks: seq<TtlKey>, ttl: map<TtlKey, TtlVal>, q: nat)
    requires forall i :: 0 <= i < |ks| ==> ks[i] in ttl
    ensures Fate(s.t, VisitAll(c, now, s, ks, ttl).t, q, Named(ttl, DueIn(c, now, Overlay(s), ks), q))
    decreases |ks|
  {
    if ks != [] {
      var k, id := ks[0], ttl[ks[0]].q;
      var s1 := Visit(c, now, s, k, id);
      VisitConn(c, now, s, k, id);
      VisitFate(c, now, s, k, id, q);
      SweepFate(c, now, s1, ks[1..], ttl, q);
      DueStep(c, now, Overlay(s), Overlay(s1), ks);
      var due := DueKey(c, now, Overlay(s), k);
      NamedStep(ttl, DueIn(c, now, Overlay(s), ks), k, due, DueIn(c, now, Overlay(s1), ks[1..]), q);
      FateThen(s.t, s1.t, VisitAll(c, now, s1, ks[1..], ttl).t, q, due && id == q,
               Named(ttl, DueIn(c, now, Overlay(s1), ks[1..]), q));
    }
  }

  // QR_PENDING

  /** An entry of `due` on the row's own connection names the row's request. */
  ghost predicate NamedOn(ttl: map<TtlKey, TtlVal>, due: set<TtlKey>, h: nat, q: nat) {
    exists k :: k in due && k in ttl && k.h == h && ttl[k].q == q
  }

  /** Rows only leave, and a row whose request is not named on its connection stays. */
  ghost predicate PendingKept(m: map<PendKey, PendVal>, n: map<PendKey, PendVal>, ttl: map<TtlKey, TtlVal>,
                              due: set<TtlKey>) {
    Sub(n, m) && forall pk :: pk in m && !NamedOn(ttl, due, pk.h, m[pk].q) ==> pk in n
  }

  lemma CleanupKeeps(m: map<PendKey, PendVal>, h: nat, q: nat)
    ensures var n := Cleanup(m, h, q);
            Sub(n, m) && forall pk :: pk in m && !(pk.h == h && m[pk].q == q) ==> pk in n
  {
    PendOrder();
    var keys := Ascend(PendLt, RowsFor(m, h, q));
    assert keys != [] ==> keys[0] in keys;
  }

  lemma VisitPending(c: Timeouts, now: nat, s: Sweep, k: TtlKey, q: nat)
    ensures var m, n := s.t.live.pending, Visit(c, now, s, k, q).t.live.pending;
            n == if DueKey(c, now, Overlay(s), k) then Cleanup(m, k.h, q) else m
  {
    VisitCases(c, now, s, k, q);
  }

  lemma PendingStep(m: map<PendKey, PendVal>, u: map<PendKey, PendVal>, n: map<PendKey, PendVal>,
                    ttl: map<TtlKey, TtlVal>, due: set<TtlKey>, k: TtlKey, isDue: bool, rest: set<TtlKey>)
    requires k in ttl && due == (if isDue then {k} else {}) + rest
    requires u == (if isDue then Cleanup(m, k.h, ttl[k].q) else m) && PendingKept(u, n, ttl, rest)
    ensures PendingKept(m, n, ttl, due)
  {
    CleanupKeeps(m, k.h, ttl[k].q);
    forall pk | pk in m && !NamedOn(ttl, due, pk.h, m[pk].q) ensures pk in n {
      assert isDue ==> k in due;
      assert !NamedOn(ttl, rest, pk.h, m[pk].q) by {
        assert forall o :: o in rest ==> o in due;
      }
      assert pk in u && u[pk] == m[pk];
    }
  }

  lemma {:induction false} SweepPending(c: Timeouts, now: nat, s: Sweep, ks: seq<TtlKey>, ttl: map<TtlKey, TtlVal>)
    requires forall i :: 0 <= i < |ks| ==> ks[i] in ttl
    ensures PendingKept(s.t.live.pending, VisitAll(c, now, s, ks, ttl).t.live.pending, ttl,
                        DueIn(c, now, Overlay(s), ks))
    decreases |ks|
  {
    if ks != [] {
      var k, q := ks[0], ttl[ks[0]].q;
      var s1 := Visit(c, now, s, k, q);
      VisitConn(c, now, s, k, q);
      VisitPending(c, now, s, k, q);
      SweepPending(c, now, s1, ks[1..], ttl);
      DueStep(c, now, Overlay(s), Overlay(s1), ks);
      PendingStep(s.t.live.pending, s1.t.live.pending, VisitAll(c, now, s1, ks[1..], ttl).t.live.pending, ttl,
                  DueIn(c, now, Overlay(s), ks), k, DueKey(c, now, Overlay(s), k), DueIn(c, now, Overlay(s1), ks[1..]));
    }
  }

  /** The first row of the connection that stands for the request. */
  ghost predicate FirstRow(m: map<PendKey, PendVal>, h: nat, q: nat, pk: PendKey) {
    IsLeast(PendLt, RowsFor(m, h, q), pk)
  }

  lemma CleanupFirst(m: map<PendKey, PendVal>, h: nat, q: nat, pk: PendKey)
    requires FirstRow(m, h, q, pk)
    ensures pk !in Cleanup(m, h, q)
  {
    PendOrder();
    FirstOfAscend(RowsFor(m, h, q), pk);
  }

  lemma FirstRowStays(m: map<PendKey, PendVal>, n: map<PendKey, PendVal>, h: nat, q: nat, pk: PendKey)
    requires FirstRow(m, h, q, pk) && Sub(n, m) && pk in n
    ensures FirstRow(n, h, q, pk)
  {
    assert RowsFor(n, h, q) <= RowsFor(m, h, q);
  }

  /** Each expired entry takes the first such row with it. */
  lemma {:induction false} SweepFirst(c: Timeouts, now: nat, s: Sweep, ks: seq<TtlKey>, ttl: map<TtlKey, TtlVal>,
                                      k: TtlKey, pk: PendKey)
    requires forall i :: 0 <= i < |ks| ==> ks[i] in ttl
    requires k in DueIn(c, now, Overlay(s), ks) && FirstRow(s.t.live.pending, k.h, ttl[k].q, pk)
    ensures pk !in VisitAll(c, now, s, ks, ttl).t.live.pending
    decreases |ks|
  {
    var k0, q0 := ks[0], ttl[ks[0]].q;
    var s1 := Visit(c, now, s, k0, q0);
    VisitConn(c, now, s, k0, q0);
    VisitPending(c, now, s, k0, q0);
    SweepPending(c, now, s1, ks[1..], ttl);
    DueStep(c, now, Overlay(s), Overlay(s1), ks);
    CleanupKeeps(s.t.live.pending, k0.h, q0);
    if k == k0 {
      CleanupFirst(s.t.live.pending, k.h, q0, pk);
    } else if pk in s1.t.live.pending {
      FirstRowStays(s.t.live.pending, s1.t.live.pending, k.h, ttl[k].q, pk);
      SweepFirst(c, now, s1, ks[1..], ttl, k, pk);
    }
  }

  // Statistics

  /** Requests named by `due` whose row really moves. */
  ghost function Moving(t: Txns, ttl: map<TtlKey, TtlVal>, due: set<TtlKey>): set<nat> {
    set k | k in due && k in ttl && Moves(t, ttl[k].q) :: ttl[k].q
  }

  ghost predicate MovesLeft(t: Txns, t': Txns, id: nat, isDue: bool) {
    forall q :: Moves(t', q) <==> Moves(t, q) && !(isDue && q == id)
  }

  lemma VisitMoves(c: Timeouts, now: nat, s: Sweep, k: TtlKey, id: nat)
    ensures MovesLeft(s.t, Visit(c, now, s, k, id).t, id, DueKey(c, now, Overlay(s), k))
  {
    var u := Visit(c, now, s, k, id).t;
    forall q ensures Moves(u, q) <==> Moves(s.t, q) && !(DueKey(c, now, Overlay(s), k) && q == id) {
      VisitFate(c, now, s, k, id, q);
    }
  }

  lemma MovingStep(t: Txns, u: Txns, ttl: map<TtlKey, TtlVal>, due: set<TtlKey>, k: TtlKey, isDue: bool,
                   rest: set<TtlKey>)
    requires k in ttl && due == (if isDue then {k} else {}) + rest
    requires MovesLeft(t, u, ttl[k].q, isDue)
    ensures |Moving(t, ttl, due)| == |Moving(u, ttl, rest)| + (if isDue && Moves(t, ttl[k].q) then 1 else 0)
  {
    MovingSplit(t, u, ttl, due, k, isDue, rest);
    var id := ttl[k].q;
    var one := if isDue && Moves(t, id) then {id} else {};
    assert one !! Moving(u, ttl, rest);
  }

  lemma MovingSplit(t: Txns, u: Txns, ttl: map<TtlKey, TtlVal>, due: set<TtlKey>, k: TtlKey, isDue: bool,
                    rest: set<TtlKey>)
    requires k in ttl && due == (if isDue then {k} else {}) + rest
    requires MovesLeft(t, u, ttl[k].q, isDue)
    ensures Moving(t, ttl, due) == (if isDue && Moves(t, ttl[k].q) then {ttl[k].q} else {}) + Moving(u, ttl, rest)
  {
    var id := ttl[k].q;
    var all, one, others := Moving(t, ttl, due), if isDue && Moves(t, id) then {id} else {}, Moving(u, ttl, rest);
    forall q | q in all ensures q in one + others {
      var o :| o in due && o in ttl && Moves(t, ttl[o].q) && ttl[o].q == q;
      assert o != k ==> o in rest;
    }
    forall q | q in one + others ensures q in all {
      if q in others {
        var o :| o in rest && o in ttl && Moves(u, ttl[o].q) && ttl[o].q == q;
        assert o in due;
      } else {
        assert k in due;
      }
    }
  }

  lemma VisitStats(c: Timeouts, now: nat, s: Sweep, k: TtlKey, q: nat)
    ensures var s1, due := Visit(c, now, s, k, q), DueKey(c, now, Overlay(s), k);
            && s1.timedOut == s.timedOut + (if due && Moves(s.t, q) then 1 else 0)
            && s1.timedOut + s1.stale == s.timedOut + s.stale + (if due then 1 else 0)
  {
    VisitCases(c, now, s, k, q);
  }

  lemma DueCount(c: Timeouts, now: nat, l: Live, u: Live, ks: seq<TtlKey>)
    requires Ascending(TtlLt, ks) && ks != [] && ConnsTallied(l, u)
    ensures |DueIn(c, now, l, ks)| == |DueIn(c, now, u, ks[1..])| + (if DueKey(c, now, l, ks[0]) then 1 else 0)
  {
    DueStep(c, now, l, u, ks);
    assert forall i :: 0 < i < |ks| ==> TtlLt(ks[0], ks[i]);
    assert ks[0] !in DueIn(c, now, u, ks[1..]);
  }

  lemma VisitMoving(c: Timeouts, now: nat, s: Sweep, ks: seq<TtlKey>, ttl: map<TtlKey, TtlVal>)
    requires ks != [] && ks[0] in ttl
    ensures var s1, due := Visit(c, now, s, ks[0], ttl[ks[0]].q), DueIn(c, now, Overlay(s), ks);
            |Moving(s.t, ttl, due)| == |Moving(s1.t, ttl, DueIn(c, now, Overlay(s1), ks[1..]))|
              + (if DueKey(c, now, Overlay(s), ks[0]) && Moves(s.t, ttl[ks[0]].q) then 1 else 0)
  {
    var k, id := ks[0], ttl[ks[0]].q;
    var s1 := Visit(c, now, s, k, id);
    VisitConn(c, now, s, k, id);
    VisitMoves(c, now, s, k, id);
    DueStep(c, now, Overlay(s), Overlay(s1), ks);
    MovingStep(s.t, s1.t, ttl, DueIn(c, now, Overlay(s), ks), k, DueKey(c, now, Overlay(s), k),
               DueIn(c, now, Overlay(s1), ks[1..]));
  }

  /** What a visit adds to the statistics, and what it leaves to count. */
  lemma VisitCounts(c: Timeouts, now: nat, s: Sweep, ks: seq<TtlKey>, ttl: map<TtlKey, TtlVal>)
    requires Ascending(TtlLt, ks) && ks != [] && ks[0] in ttl
    ensures var s1, due := Visit(c, now, s, ks[0], ttl[ks[0]].q), DueIn(c, now, Overlay(s), ks);
            var rest := DueIn(c, now, Overlay(s1), ks[1..]);
            && |Moving(s.t, ttl, due)| - |Moving(s1.t, ttl, rest)| == s1.timedOut - s.timedOut
            && |due| - |rest| == s1.timedOut + s1.stale - s.timedOut - s.stale
  {
    var k, id := ks[0], ttl[ks[0]].q;
    VisitStats(c, now, s, k, id);
    VisitConn(c, now, s, k, id);
    VisitMoving(c, now, s, ks, ttl);
    DueCount(c, now, Overlay(s), Overlay(Visit(c, now, s, k, id)), ks);
  }

  lemma {:induction false} SweepCounts(c: Timeouts, now: nat, s: Sweep, ks: seq<TtlKey>, ttl: map<TtlKey, TtlVal>)
    requires Ascending(TtlLt, ks) && forall i :: 0 <= i < |ks| ==> ks[i] in ttl
    ensures var s', due := VisitAll(c, now, s, ks, ttl), DueIn(c, now, Overlay(s), ks);
            && s'.timedOut == s.timedOut + |Moving(s.t, ttl, due)|
            && s'.timedOut + s'.stale == s.timedOut + s.stale + |due|
    decreases |ks|
  {
    if ks == [] {
      assert DueIn(c, now, Overlay(s), ks) == {} && Moving(s.t, ttl, {}) == {};
    } else {
      VisitCounts(c, now, s, ks, ttl);
      SweepCounts(c, now, Visit(c, now, s, ks[0], ttl[ks[0]].q), ks[1..], ttl);
    }
  }

  // ---- What the scan leaves, in any state ----

  /** The entries the scan finds expired. */
  ghost function DueSet(c: Timeouts, now: nat, l: Live): set<TtlKey> {
    set k | k in l.ttl && k.qTs <= c.ScanHi(now) && DueKey(c, now, l, k)
  }

  lemma OverlayStart(t: Txns)
    ensures Overlay(Sweep(t, map[], 0, 0)) == t.live
  {
    var none: map<nat, ConnState> := map[];
    assert t.live.conn + none == t.live.conn;
  }

  /** The scan over its collected keys. */
  lemma ScanUnfold(c: Timeouts, now: nat, t: Txns) returns (ks: seq<TtlKey>, s: Sweep)
    ensures s == Sweep(t, map[], 0, 0) && Overlay(s) == t.live && s.t == t
    ensures (forall i :: 0 <= i < |ks| ==> ks[i] in t.live.ttl) && Ascending(TtlLt, ks)
    ensures forall k :: k in ks <==> k in t.live.ttl && k.qTs <= c.ScanHi(now)
    ensures SweepFrom(c, now, t) == VisitAll(c, now, s, ks, t.live.ttl)
    ensures DueIn(c, now, t.live, ks) == DueSet(c, now, t.live)
  {
    ks, s := TtlKeys(t.live.ttl, c.ScanHi(now)), Sweep(t, map[], 0, 0);
    OverlayStart(t);
    assert forall i :: 0 <= i < |ks| ==> ks[i] in ks;
    SweepFromIs(c, now, t, ks);
    DueInSet(c, now, t.live, ks);
  }

  lemma SweepFromIs(c: Timeouts, now: nat, t: Txns, ks: seq<TtlKey>)
    requires ks == TtlKeys(t.live.ttl, c.ScanHi(now)) && forall i :: 0 <= i < |ks| ==> ks[i] in t.live.ttl
    ensures SweepFrom(c, now, t) == VisitAll(c, now, Sweep(t, map[], 0, 0), ks, t.live.ttl)
  {}

  lemma DueInSet(c: Timeouts, now: nat, l: Live, ks: seq<TtlKey>)
    requires forall k :: k in ks <==> k in l.ttl && k.qTs <= c.ScanHi(now)
    ensures DueIn(c, now, l, ks) == DueSet(c, now, l)
  {}

  lemma ScanIs(c: Timeouts, now: nat, t: Txns)
    requires c.qrSecs > 0
    ensures TtlScan(c, now, t) == Txns(Overlay(SweepFrom(c, now, t)), SweepFrom(c, now, t).t.epoch)
  {}

  /** Exactly the due entries leave, every request meets its fate, nothing else is written to the
      epoch, and connections keep everything but counter and flags. */
  lemma ScanIsExact(c: Timeouts, now: nat, t: Txns)
    requires c.qrSecs > 0
    ensures var due, t' := DueSet(c, now, t.live), TtlScan(c, now, t);
            && t'.live.ttl == t.live.ttl - due
            && (forall q :: Fate(t, t', q, Named(t.live.ttl, due, q)))
            && OtherRowsKept(t.epoch, t'.epoch)
            && ConnsTallied(t.live, t'.live)
  {
    var ks, s := ScanUnfold(c, now, t);
    ScanIs(c, now, t);
    SweepTtl(c, now, s, ks, t.live.ttl);
    SweepConn(c, now, s, ks, t.live.ttl);
    var t', u := TtlScan(c, now, t), SweepFrom(c, now, t).t;
    forall q ensures Fate(t, t', q, Named(t.live.ttl, DueSet(c, now, t.live), q)) {
      SweepFate(c, now, s, ks, t.live.ttl, q);
      assert t'.live.pair == u.live.pair && t'.epoch == u.epoch;
    }
  }

  /** A pending request leaves with a TIMEOUT row, otherwise unchanged, exactly when a due entry names
      it and the epoch holds no ending of it yet. */
  lemma DueTimeOut(c: Timeouts, now: nat, t: Txns, q: nat)
    requires c.qrSecs > 0 && KPair(q) !in t.epoch
    ensures KPair(q) in TtlScan(c, now, t).epoch <==> Named(t.live.ttl, DueSet(c, now, t.live), q) && Moves(t, q)
    ensures KPair(q) in TtlScan(c, now, t).epoch ==>
              TimedOutRow(t.live, TtlScan(c, now, t).epoch, q) && q !in TtlScan(c, now, t).live.pair
  {
    ScanIsExact(c, now, t);
    assert Fate(t, TtlScan(c, now, t), q, Named(t.live.ttl, DueSet(c, now, t.live), q));
  }

  /** Sound: a request no due entry names keeps its row in both stores and its QR_PENDING entries. */
  lemma OnlyDueTimeOut(c: Timeouts, now: nat, t: Txns, q: nat)
    requires c.qrSecs > 0 && !Named(t.live.ttl, DueSet(c, now, t.live), q)
    ensures var t' := TtlScan(c, now, t);
            && SameAt(t.live.pair, t'.live.pair, q) && SameAt(t.epoch, t'.epoch, KPair(q))
            && (forall k :: k in t.live.pending && t.live.pending[k].q == q ==>
                 SameAt(t.live.pending, t'.live.pending, k))
  {
    ScanIsExact(c, now, t);
    var due, t' := DueSet(c, now, t.live), TtlScan(c, now, t);
    assert Fate(t, t', q, Named(t.live.ttl, due, q));
    var ks, s := ScanUnfold(c, now, t);
    ScanIs(c, now, t);
    SweepPending(c, now, s, ks, t.live.ttl);
    forall k | k in t.live.pending && t.live.pending[k].q == q ensures SameAt(t.live.pending, t'.live.pending, k) {
      assert !NamedOn(t.live.ttl, due, k.h, q);
    }
  }

  /** The epoch already holds an ending of a due request, as after a stop between the two commits: the
      ending stays as it is, and the row left behind and its first QR_PENDING entry are cleared. */
  lemma StaleIsCleared(c: Timeouts, now: nat, t: Txns, k: TtlKey)
    requires c.qrSecs > 0 && k in DueSet(c, now, t.live) && KPair(t.live.ttl[k].q) in t.epoch
    ensures var q, t' := t.live.ttl[k].q, TtlScan(c, now, t);
            && q !in t'.live.pair && k !in t'.live.ttl
            && SameAt(t.epoch, t'.epoch, KPair(q))
            && (forall pk :: FirstRow(t.live.pending, k.h, q, pk) ==> pk !in t'.live.pending)
  {
    ScanIsExact(c, now, t);
    var q, t' := t.live.ttl[k].q, TtlScan(c, now, t);
    assert Named(t.live.ttl, DueSet(c, now, t.live), q);
    assert Fate(t, t', q, true);
    var ks, s := ScanUnfold(c, now, t);
    ScanIs(c, now, t);
    forall pk | FirstRow(t.live.pending, k.h, q, pk) ensures pk !in t'.live.pending {
      SweepFirst(c, now, s, ks, t.live.ttl, k, pk);
    }
  }

  /** The statistics: one timeout per request that moved, every other due entry is stale. */
  lemma ScanCounts(c: Timeouts, now: nat, t: Txns)
    ensures var s', due := SweepFrom(c, now, t), DueSet(c, now, t.live);
            && s'.timedOut == |Moving(t, t.live.ttl, due)|
            && s'.timedOut + s'.stale == |due|
  {
    var ks, s := ScanUnfold(c, now, t);
    SweepCounts(c, now, s, ks, t.live.ttl);
  }

  // ---- Nothing is left ----

  /** Complete: before the last representable instant no entry is left whose deadline has passed. */
  lemma NothingExpiredIsLeft(c: Timeouts, now: nat, t: Txns, k: TtlKey)
    requires c.qrSecs > 0 && now < U64 - 1 && k in TtlScan(c, now, t).live.ttl
    ensures !DueKey(c, now, TtlScan(c, now, t).live, k)
  {
    ScanIsExact(c, now, t);
    assert Tallied(ConnAt(t.live, k.h), ConnAt(TtlScan(c, now, t).live, k.h));
    if DueKey(c, now, t.live, k) {
      ScanBoundCovers(c, now, ConnAt(t.live, k.h).finSeen, k.qTs);
    }
  }

  // ---- A second scan ----

  /** An unexpired entry of a stored connection changes nothing. */
  lemma VisitUnexpired(c: Timeouts, now: nat, s: Sweep, k: TtlKey, q: nat)
    requires k.h in Overlay(s).conn && !DueKey(c, now, Overlay(s), k)
    ensures var s' := Visit(c, now, s, k, q);
            Overlay(s') == Overlay(s) && s'.t == s.t && s'.timedOut == s.timedOut && s'.stale == s.stale
  {}

  lemma {:induction false} IdleSweep(c: Timeouts, now: nat, s: Sweep, l: Live, ks: seq<TtlKey>,
                                     ttl: map<TtlKey, TtlVal>)
    requires l == Overlay(s) && forall i :: 0 <= i < |ks| ==> ks[i] in ttl
    requires forall i :: 0 <= i < |ks| ==> ks[i].h in l.conn && !DueKey(c, now, l, ks[i])
    ensures var s' := VisitAll(c, now, s, ks, ttl);
            Overlay(s') == l && s'.t.epoch == s.t.epoch && s'.timedOut == s.timedOut && s'.stale == s.stale
    decreases |ks|
  {
    if ks != [] {
      VisitUnexpired(c, now, s, ks[0], ttl[ks[0]].q);
      IdleSweep(c, now, Visit(c, now, s, ks[0], ttl[ks[0]].q), l, ks[1..], ttl);
    }
  }

  /** What the first scan met and left is unexpired, on a connection it wrote. */
  lemma ScannedAreUnexpired(c: Timeouts, now: nat, t: Txns, k: TtlKey)
    requires c.qrSecs > 0 && k in TtlScan(c, now, t).live.ttl && k.qTs <= c.ScanHi(now)
    ensures var l' := TtlScan(c, now, t).live; k.h in l'.conn && !DueKey(c, now, l', k)
  {
    ScanIsExact(c, now, t);
    assert Tallied(ConnAt(t.live, k.h), ConnAt(TtlScan(c, now, t).live, k.h));
    var ks, s := ScanUnfold(c, now, t);
    ScanIs(c, now, t);
    SweepConn(c, now, s, ks, t.live.ttl);
    assert k in ks;
  }

  /** Idempotent: a second scan at the same clock flips nothing, deletes nothing and leaves both
      stores, connection rows included, as they are. */
  lemma SecondScanIsIdle(c: Timeouts, now: nat, t: Txns, t': Txns)
    requires t' == TtlScan(c, now, t)
    ensures TtlScan(c, now, t') == t'
    ensures c.qrSecs > 0 ==> SweepFrom(c, now, t').timedOut == 0 && SweepFrom(c, now, t').stale == 0
  {
    if c.qrSecs > 0 {
      var ks, s := ScanUnfold(c, now, t');
      ScanIs(c, now, t');
      forall i | 0 <= i < |ks| ensures ks[i].h in t'.live.conn && !DueKey(c, now, t'.live, ks[i]) {
        assert ks[i] in ks;
        ScannedAreUnexpired(c, now, t, ks[i]);
      }
      IdleSweep(c, now, s, t'.live, ks, t'.live.ttl);
    }
  }
}
