/** The timeout scan as the program runs it: both write transactions of the registry are changed
    entry by entry, then committed epoch first. */
module TtlScanner {
  import opened Common
  import opened Ordering
  import opened Connection
  import opened Store
  import opened Qr
  import opened QrMatchers
  import opened Ttl

  /** Entries opened at or before `hi`, oldest first, each with the request it names. */
  method CollectDue(ttl: map<TtlKey, TtlVal>, hi: nat) returns (ks: seq<TtlKey>)
    ensures ks == TtlKeys(ttl, hi)
  {
    TtlOrder();
    var rest := set k | k in ttl && k.qTs <= hi;
    ghost var all := rest;
    ks := [];
    while rest != {}
      invariant rest <= all
      invariant forall k :: k in ks <==> k in all - rest
      invariant forall x, y :: x in ks && y in rest ==> TtlLt(x, y)
      invariant Ascending(TtlLt, ks)
      decreases |rest|
    {
      var k := First(TtlLt, rest);
      ghost var before := ks;
      ks := ks + [k];
      assert forall x :: x in ks <==> x in before || x == k;
      rest := rest - {k};
    }
    AscendUnique(TtlLt, all, ks);
  }

  /** Walks the connection's QR_PENDING rows in key order and deletes the first that names `q`. */
  method CleanupPending(pending: map<PendKey, PendVal>, h: nat, q: nat) returns (cleaned: map<PendKey, PendVal>)
    ensures cleaned == Cleanup(pending, h, q)
  {
    PendOrder();
    var rest := set k | k in pending && k.h == h;
    ghost var rows := RowsFor(pending, h, q);
    while rest != {}
      invariant rows <= rest <= pending.Keys
      invariant forall k :: k in rest ==> k.h == h
      decreases |rest|
    {
      var k := First(PendLt, rest);
      if pending[k].q == q {
        var keys := Ascend(PendLt, rows);
        assert k in keys && IsLeast(PendLt, rows, k);
        FirstOfAscend(rows, k);
        return pending - {k};
      }
      rest := rest - {k};
    }
    assert Ascend(PendLt, rows) == [];
    cleaned := pending;
  }

  method ScanPendingTtl(reg: DbRegistry, c: Timeouts, now: nat) returns (timedOut: nat, stale: nat)
    modifies reg
    ensures reg.Value() == TtlScan(c, now, old(reg.Value()))
    ensures c.qrSecs == 0 ==> reg.trail == old(reg.trail) && timedOut == stale == 0
    ensures c.qrSecs > 0 ==>
      (var s := SweepFrom(c, now, old(reg.Value()));
       timedOut == s.timedOut && stale == s.stale
       && reg.trail == old(reg.trail) + [Txns(old(reg.live), s.t.epoch), reg.Value()])
  {
    if c.qrSecs == 0 {
      return 0, 0;
    }
    var s := Evaluate(c, now, reg.live, reg.epoch);
    var rows := WriteBack(s.t.live.conn, s.conns);
    reg.CommitEpoch(s.t.epoch);
    reg.CommitLive(s.t.live.(conn := rows));
    timedOut, stale := s.timedOut, s.stale;
  }

  /** Collects the due entries, then evaluates them one by one. */
  method Evaluate(c: Timeouts, now: nat, live: Live, epoch: Epoch) returns (s: Sweep)
    ensures s == SweepFrom(c, now, Txns(live, epoch))
  {
    var ttl := live.ttl;
    var hits := CollectDue(ttl, c.ScanHi(now));
    DueAreKeys(ttl, c.ScanHi(now));
    s := Sweep(Txns(live, epoch), map[], 0, 0);
    ghost var goal := VisitAll(c, now, s, hits, ttl);
    SweepIs(c, now, Txns(live, epoch), hits);
    assert hits[0..] == hits;
    for i := 0 to |hits|
      invariant forall j :: 0 <= j < |hits| ==> hits[j] in ttl
      invariant VisitAll(c, now, s, hits[i..], ttl) == goal
    {
      VisitFirst(c, now, s, hits, i, ttl);
      s := EvaluateEntry(c, now, s, hits[i], ttl[hits[i]].q);
    }
    assert hits[|hits|..] == [] && VisitAll(c, now, s, [], ttl) == s;
  }

  lemma SweepIs(c: Timeouts, now: nat, t: Txns, hits: seq<TtlKey>)
    requires hits == TtlKeys(t.live.ttl, c.ScanHi(now)) && forall i :: 0 <= i < |hits| ==> hits[i] in t.live.ttl
    ensures SweepFrom(c, now, t) == VisitAll(c, now, Sweep(t, map[], 0, 0), hits, t.live.ttl)
  {}

  lemma DueAreKeys(ttl: map<TtlKey, TtlVal>, hi: nat)
    ensures forall i :: 0 <= i < |TtlKeys(ttl, hi)| ==> TtlKeys(ttl, hi)[i] in ttl
  {
    var ks := TtlKeys(ttl, hi);
    assert forall i :: 0 <= i < |ks| ==> ks[i] in ks;
  }

  lemma VisitFirst(c: Timeouts, now: nat, s: Sweep, hits: seq<TtlKey>, i: nat, ttl: map<TtlKey, TtlVal>)
    requires i < |hits| && forall j :: 0 <= j < |hits| ==> hits[j] in ttl
    ensures VisitAll(c, now, s, hits[i..], ttl)
         == VisitAll(c, now, Visit(c, now, s, hits[i], ttl[hits[i]].q), hits[i + 1..], ttl)
  {
    assert hits[i..][1..] == hits[i + 1..];
  }

  method WriteBack(conn: map<nat, ConnState>, cache: map<nat, ConnState>) returns (rows: map<nat, ConnState>)
    ensures rows == conn + cache
  {
    var rest := cache.Keys;
    ghost var written: map<nat, ConnState> := map[];
    rows := conn;
    NatOrder();
    while rest != {}
      invariant rest <= cache.Keys
      invariant written.Keys == cache.Keys - rest
      invariant forall h :: h in written ==> written[h] == cache[h]
      invariant rows == conn + written
      decreases |rest|
    {
      var h := First(NatLt, rest);
      PutAfter(conn, written, h, cache[h]);
      rows := rows[h := cache[h]];
      written := written[h := cache[h]];
      rest := rest - {h};
    }
    assert written == cache;
  }

  /** One entry: deadline test, migration, clean-up, connection and statistics. */
  method EvaluateEntry(c: Timeouts, now: nat, s: Sweep, k: TtlKey, q: nat) returns (s1: Sweep)
    ensures s1 == Visit(c, now, s, k, q)
  {
    var st := if k.h in s.conns then s.conns[k.h] else if k.h in s.t.live.conn then s.t.live.conn[k.h] else BLANK;
    var finDeadline := if st.finSeen > 0 && k.qTs <= st.finSeen then SatAdd(st.finSeen, c.ShortNs()) else U64 - 1;
    if Min(SatAdd(k.qTs, c.QrNs()), finDeadline) > now {
      return s.(conns := s.conns[k.h := st]);
    }
    var t, moved := MigrateTimeout(s.t, q);
    var live := CleanupResidual(t.live, k, q);
    var st1 := if moved then Flag(st.(qrOpen := SatSub(st.qrOpen, 1)), QR_UNMATCHED) else st;
    s1 := Sweep(Txns(live, t.epoch), s.conns[k.h := st1],
                if moved then s.timedOut + 1 else s.timedOut, if moved then s.stale else s.stale + 1);
  }

  /** Terminal row already in the epoch, live row missing, live row terminal, or a real timeout. */
  method MigrateTimeout(t: Txns, q: nat) returns (t1: Txns, moved: bool)
    ensures t1 == Migrate(t, q, Ended(TIMEOUT)) && moved == Moves(t, q)
  {
    t1, moved := t, false;
    if KPair(q) in t.epoch {
      t1 := t.(live := t.live.(pair := t.live.pair - {q}));
    } else if q in t.live.pair && t.live.pair[q].status == PENDING {
      var row := t.live.pair[q].(status := TIMEOUT);
      t1 := Txns(t.live.(pair := t.live.pair - {q}), PutNew(t.epoch, KPair(q), VPair(row)));
      moved := true;
    }
  }

  method CleanupResidual(live: Live, k: TtlKey, q: nat) returns (live1: Live)
    ensures live1 == live.(pending := Cleanup(live.pending, k.h, q), ttl := live.ttl - {k})
  {
    var pending := CleanupPending(live.pending, k.h, q);
    live1 := live.(pending := pending, ttl := live.ttl - {k});
  }
}
