/** The live store between batches: QR_PENDING, PENDING_TTL and the PENDING rows of QR_PAIR describe
    the same requests, and what ending some of them does, exactly. */
module QrLive {
  import opened Common
  import opened Connection
  import opened SeqStreams
  import opened Store
  import opened Qr

  // ---- The invariant ----

  /** A QR_PENDING row: its request is a pending row about the same bytes, and its connection is in
      the same incarnation, active, with the request above the consumed number and below the head. */
  ghost predicate PendOk(l: Live, k: PendKey)
    requires k in l.pending
  {
    var v := l.pending[k];
    && v.q in l.pair
    && l.pair[v.q].connHash == k.h && l.pair[v.q].absEnd == k.end && l.pair[v.q].qTs == v.qTs
    && k.h in l.conn
    && Fits(l.conn[k.h], k)
  }

  predicate Fits(st: ConnState, k: PendKey) {
    k.inc == st.incarnation && ActiveC(st) && st.consumedAckS < k.end <= st.absSeqC
  }

  /** A QR_PAIR row: pending, untouched since it was opened, and found by both indexes. */
  ghost predicate RowOk(l: Live, q: nat)
    requires q in l.pair
  {
    var row := l.pair[q];
    && row.status == PENDING && row.qIdx == [q] && row.rIdx == []
    && row.connHash in l.conn
    && var k := PendKey(row.connHash, l.conn[row.connHash].incarnation, row.absEnd);
    && k in l.pending && l.pending[k].q == q
    && var tk := TtlKey(row.qTs, row.connHash);
    && tk in l.ttl && l.ttl[tk].q == q
  }

  ghost predicate TtlOk(l: Live, tk: TtlKey)
    requires tk in l.ttl
  {
    var q := l.ttl[tk].q;
    q in l.pair && l.pair[q].connHash == tk.h && l.pair[q].qTs == tk.qTs && l.pair[q].absEnd == l.ttl[tk].end
  }

  /** The three request tables are in bijection, and no pending request has an ending yet. */
  ghost predicate Linked(l: Live, e: Epoch) {
    && (forall k :: k in l.pending ==> PendOk(l, k))
    && (forall q :: q in l.pair ==> RowOk(l, q) && KPair(q) !in e)
    && (forall tk :: tk in l.ttl ==> TtlOk(l, tk))
    && (forall h :: h in l.conn ==> l.conn[h].absSeqC < U48)
  }

  /** `qr_open` is the number of pending requests. */
  ghost predicate Counted(l: Live) {
    forall h :: h in l.conn ==> l.conn[h].qrOpen == |PendingOf(l.pending, h)|
  }

  ghost predicate LiveInv(l: Live, e: Epoch) { Linked(l, e) && Counted(l) }

  function WithConn(l: Live, h: nat, st: ConnState): Live { l.(conn := l.conn[h := st]) }

  lemma PendOneToOne(l: Live, e: Epoch, a: PendKey, b: PendKey)
    requires Linked(l, e) && a in l.pending && b in l.pending
    ensures a != b ==> l.pending[a].q != l.pending[b].q
  {
    assert PendOk(l, a) && PendOk(l, b);
  }

  // ---- Ending some requests ----

  ghost function KeysFrom(hits: seq<Hit>, i: nat): set<PendKey> { set j | i <= j < |hits| :: hits[j].key }

  ghost function QueriesFrom(hits: seq<Hit>, i: nat): set<nat> { set j | i <= j < |hits| :: hits[j].q }

  ghost function TtlsFrom(hits: seq<Hit>, i: nat): set<TtlKey> {
    set j | i <= j < |hits| :: TtlKey(hits[j].qTs, hits[j].key.h)
  }

  ghost predicate Endable(t: Txns, hits: seq<Hit>, i: nat) {
    && (forall j :: i <= j < |hits| ==> Moves(t, hits[j].q))
    && (forall j, k :: i <= j < k < |hits| ==> hits[j].q != hits[k].q)
  }

  ghost predicate EndedRow(t: Txns, t': Txns, e: Ending, hits: seq<Hit>, j: nat)
    requires j < |hits|
  {
    && hits[j].q in t.live.pair && KPair(hits[j].q) in t'.epoch
    && t'.epoch[KPair(hits[j].q)] == VPair(Final(OutcomeAt(e, hits, j), t.live.pair[hits[j].q]))
  }

  /** Epoch rows of the ended requests; every other epoch row as before. */
  ghost predicate EndedRows(t: Txns, t': Txns, e: Ending, hits: seq<Hit>, i: nat) {
    && (forall j :: i <= j < |hits| ==> EndedRow(t, t', e, hits, j))
    && Sub(t.epoch, t'.epoch)
    && (forall k :: k in t'.epoch && k !in t.epoch ==> k.KPair? && k.q in QueriesFrom(hits, i))
  }

  function EndOne(t: Txns, e: Ending, hits: seq<Hit>, i: nat): Txns
    requires i < |hits|
  {
    Exec1(Exec1(t, Settle(hits[i].q, OutcomeAt(e, hits, i))),
          Drop(hits[i].key, TtlKey(hits[i].qTs, hits[i].key.h)))
  }

  lemma EndUnfold(t: Txns, e: Ending, hits: seq<Hit>, i: nat)
    requires i < |hits|
    ensures Exec(t, EndFrom(e, hits, i)) == Exec(EndOne(t, e, hits, i), EndFrom(e, hits, i + 1))
  {
    var ps := EndFrom(e, hits, i);
    assert ps[1..][1..] == EndFrom(e, hits, i + 1);
  }

  lemma MovedUnfold(t: Txns, e: Ending, hits: seq<Hit>, i: nat)
    requires i < |hits|
    ensures Moved(t, EndFrom(e, hits, i))
         == (if Moves(t, hits[i].q) then 1 else 0) + Moved(EndOne(t, e, hits, i), EndFrom(e, hits, i + 1))
  {
    var ps := EndFrom(e, hits, i);
    assert ps[1..][1..] == EndFrom(e, hits, i + 1);
  }

  lemma EndOneIs(t: Txns, e: Ending, hits: seq<Hit>, i: nat)
    requires i < |hits| && Endable(t, hits, i)
    ensures var u := EndOne(t, e, hits, i);
            && u.live.pair == t.live.pair - {hits[i].q}
            && u.live.pending == t.live.pending - {hits[i].key}
            && u.live.ttl == t.live.ttl - {TtlKey(hits[i].qTs, hits[i].key.h)}
            && u.live.conn == t.live.conn
            && u.epoch == t.epoch[KPair(hits[i].q) := VPair(Final(OutcomeAt(e, hits, i), t.live.pair[hits[i].q]))]
    ensures Endable(EndOne(t, e, hits, i), hits, i + 1)
  {}

  lemma MinusStep<K, V>(m: map<K, V>, x: K, rest: set<K>, all: set<K>)
    requires all == {x} + rest
    ensures (m - {x}) - rest == m - all
  {}

  /** The live store after ending the hits from `i` on. */
  ghost function Without(l: Live, hits: seq<Hit>, i: nat): Live {
    Live(l.conn, l.pair - QueriesFrom(hits, i), l.pending - KeysFrom(hits, i), l.ttl - TtlsFrom(hits, i))
  }

  lemma WithoutStep(l: Live, u: Live, hits: seq<Hit>, i: nat)
    requires i < |hits| && u.conn == l.conn
    requires u.pair == l.pair - {hits[i].q} && u.pending == l.pending - {hits[i].key}
    requires u.ttl == l.ttl - {TtlKey(hits[i].qTs, hits[i].key.h)}
    ensures Without(u, hits, i + 1) == Without(l, hits, i)
  {
    MinusStep(l.pair, hits[i].q, QueriesFrom(hits, i + 1), QueriesFrom(hits, i));
    MinusStep(l.pending, hits[i].key, KeysFrom(hits, i + 1), KeysFrom(hits, i));
    MinusStep(l.ttl, TtlKey(hits[i].qTs, hits[i].key.h), TtlsFrom(hits, i + 1), TtlsFrom(hits, i));
  }

  lemma WithoutNone(l: Live, hits: seq<Hit>)
    ensures Without(l, hits, |hits|) == l
  {
    assert QueriesFrom(hits, |hits|) == {} && KeysFrom(hits, |hits|) == {} && TtlsFrom(hits, |hits|) == {};
  }

  /** Nothing is left to end. */
  lemma EndNone(t: Txns, e: Ending, hits: seq<Hit>)
    ensures Exec(t, EndFrom(e, hits, |hits|)) == t && Without(t.live, hits, |hits|) == t.live
  {
    WithoutNone(t.live, hits);
  }

  lemma EndLiveStep(t: Txns, u: Txns, e: Ending, hits: seq<Hit>, i: nat)
    requires i < |hits| && Endable(t, hits, i) && u == EndOne(t, e, hits, i)
    ensures Endable(u, hits, i + 1) && Without(u.live, hits, i + 1) == Without(t.live, hits, i)
  {
    EndOneIs(t, e, hits, i);
    WithoutStep(t.live, u.live, hits, i);
  }

  /** Ending a list of hits removes exactly their rows, index entries and TTL entries from live. */
  lemma {:induction false} EndExactLive(t: Txns, e: Ending, hits: seq<Hit>, i: nat)
    requires i <= |hits| && Endable(t, hits, i)
    ensures Exec(t, EndFrom(e, hits, i)).live == Without(t.live, hits, i)
    decreases |hits| - i, 1
  {
    if i == |hits| {
      EndNone(t, e, hits);
    } else {
      var u := EndOne(t, e, hits, i);
      EndUnfold(t, e, hits, i);
      EndLiveStep(t, u, e, hits, i);
      EndExactRest(t, u, e, hits, i);
    }
  }

  /** The same with the first hit ended. */
  lemma {:induction false} EndExactRest(t: Txns, u: Txns, e: Ending, hits: seq<Hit>, i: nat)
    requires i < |hits| && Endable(u, hits, i + 1) && Without(u.live, hits, i + 1) == Without(t.live, hits, i)
    requires Exec(t, EndFrom(e, hits, i)) == Exec(u, EndFrom(e, hits, i + 1))
    ensures Exec(t, EndFrom(e, hits, i)).live == Without(t.live, hits, i)
    decreases |hits| - i, 0
  {
    EndExactLive(u, e, hits, i + 1);
  }

  lemma {:induction false} EndMovesAll(t: Txns, e: Ending, hits: seq<Hit>, i: nat)
    requires i <= |hits| && Endable(t, hits, i)
    ensures Moved(t, EndFrom(e, hits, i)) == |hits| - i
    decreases |hits| - i
  {
    if i < |hits| {
      MovedUnfold(t, e, hits, i);
      EndOneIs(t, e, hits, i);
      EndMovesAll(EndOne(t, e, hits, i), e, hits, i + 1);
    }
  }

  lemma EndedRowStep(t: Txns, t': Txns, e: Ending, hits: seq<Hit>, i: nat, j: nat)
    requires i < j < |hits| && Endable(t, hits, i) && EndedRow(EndOne(t, e, hits, i), t', e, hits, j)
    ensures EndedRow(t, t', e, hits, j)
  {
    EndOneIs(t, e, hits, i);
  }

  lemma EndedRowsStep(t: Txns, t': Txns, e: Ending, hits: seq<Hit>, i: nat)
    requires i < |hits| && Endable(t, hits, i) && EndedRows(EndOne(t, e, hits, i), t', e, hits, i + 1)
    ensures EndedRows(t, t', e, hits, i)
  {
    EndOneIs(t, e, hits, i);
    forall j | i <= j < |hits| ensures EndedRow(t, t', e, hits, j) {
      if j > i {
        EndedRowStep(t, t', e, hits, i, j);
      }
    }
    assert QueriesFrom(hits, i) == {hits[i].q} + QueriesFrom(hits, i + 1);
  }

  /** ... and puts exactly their final rows into the epoch. */
  lemma {:induction false} EndExactEpoch(t: Txns, e: Ending, hits: seq<Hit>, i: nat)
    requires i <= |hits| && Endable(t, hits, i)
    ensures EndedRows(t, Exec(t, EndFrom(e, hits, i)), e, hits, i)
    decreases |hits| - i
  {
    if i < |hits| {
      var u := EndOne(t, e, hits, i);
      EndUnfold(t, e, hits, i);
      EndLiveStep(t, u, e, hits, i);
      EndExactEpoch(u, e, hits, i + 1);
      EndedRowsStep(t, Exec(t, EndFrom(e, hits, i)), e, hits, i);
    }
  }

  // ---- Ending keeps the invariant ----

  lemma ScanEndable(t: Txns, h: nat, st: ConnState, inc: nat, limit: nat)
    requires Linked(WithConn(t.live, h, st), t.epoch)
    ensures Endable(t, Scan(t.live.pending, h, inc, limit), 0)
  {
    var l, hits := WithConn(t.live, h, st), Scan(t.live.pending, h, inc, limit);
    ScanOrder(t.live.pending, h, inc, limit);
    forall j | 0 <= j < |hits| ensures Moves(t, hits[j].q) {
      assert PendOk(l, hits[j].key);
      assert RowOk(l, hits[j].q);
    }
    forall j, k | 0 <= j < k < |hits| ensures hits[j].q != hits[k].q {
      PendOneToOne(l, t.epoch, hits[j].key, hits[k].key);
    }
  }

  /** The hits are rows of QR_PENDING. */
  ghost predicate HitsIn(l: Live, hits: seq<Hit>) {
    forall j :: 0 <= j < |hits| ==> hits[j].key in l.pending && hits[j] == HitAt(l.pending, hits[j].key)
  }

  lemma WithoutPend(l: Live, e: Epoch, hits: seq<Hit>, k: PendKey)
    requires Linked(l, e) && HitsIn(l, hits) && k in Without(l, hits, 0).pending
    ensures PendOk(Without(l, hits, 0), k)
  {
    var v := l.pending[k];
    assert PendOk(l, k);
    forall j | 0 <= j < |hits| ensures hits[j].q != v.q {
      assert hits[j].key in KeysFrom(hits, 0);
      PendOneToOne(l, e, hits[j].key, k);
    }
  }

  lemma WithoutRow(l: Live, e: Epoch, hits: seq<Hit>, q: nat)
    requires Linked(l, e) && HitsIn(l, hits) && q in Without(l, hits, 0).pair
    ensures RowOk(Without(l, hits, 0), q)
  {
    var row := l.pair[q];
    assert RowOk(l, q);
    var k := PendKey(row.connHash, l.conn[row.connHash].incarnation, row.absEnd);
    var tk := TtlKey(row.qTs, row.connHash);
    forall j | 0 <= j < |hits| ensures hits[j].key != k && TtlKey(hits[j].qTs, hits[j].key.h) != tk {
      assert PendOk(l, hits[j].key) && RowOk(l, hits[j].q);
      assert hits[j].q in QueriesFrom(hits, 0);
    }
  }

  lemma WithoutTtl(l: Live, e: Epoch, hits: seq<Hit>, tk: TtlKey)
    requires Linked(l, e) && HitsIn(l, hits) && tk in Without(l, hits, 0).ttl
    ensures TtlOk(Without(l, hits, 0), tk)
  {
    var q := l.ttl[tk].q;
    assert TtlOk(l, tk);
    forall j | 0 <= j < |hits| ensures hits[j].q != q {
      assert PendOk(l, hits[j].key);
      assert TtlKey(hits[j].qTs, hits[j].key.h) in TtlsFrom(hits, 0);
    }
  }

  lemma WithoutLinked(l: Live, e: Epoch, e': Epoch, hits: seq<Hit>)
    requires Linked(l, e) && HitsIn(l, hits)
    requires forall k :: k in e' && k !in e ==> k.KPair? && k.q in QueriesFrom(hits, 0)
    ensures Linked(Without(l, hits, 0), e')
  {
    var u := Without(l, hits, 0);
    forall k | k in u.pending ensures PendOk(u, k) { WithoutPend(l, e, hits, k); }
    forall q | q in u.pair ensures RowOk(u, q) && KPair(q) !in e' { WithoutRow(l, e, hits, q); }
    forall tk | tk in u.ttl ensures TtlOk(u, tk) { WithoutTtl(l, e, hits, tk); }
  }

  lemma ScanHitsIn(l: Live, h: nat, inc: nat, limit: nat)
    ensures HitsIn(l, Scan(l.pending, h, inc, limit))
  {
    ScanOrder(l.pending, h, inc, limit);
  }

  lemma ScanKeysFrom(pending: map<PendKey, PendVal>, h: nat, inc: nat, limit: nat)
    ensures KeysFrom(Scan(pending, h, inc, limit), 0) == ScanKeys(pending, h, inc, limit)
  {
    ScanOrder(pending, h, inc, limit);
    var hits := Scan(pending, h, inc, limit);
    forall k | k in ScanKeys(pending, h, inc, limit) ensures k in KeysFrom(hits, 0) {
      var j :| 0 <= j < |hits| && hits[j].key == k;
    }
  }

  /** Ending one scan's hits: exactly those requests leave live, each with its final row in the
      epoch, and what stays is still linked. */
  lemma EndScan(t: Txns, h: nat, st: ConnState, e: Ending, inc: nat, limit: nat)
    requires Linked(WithConn(t.live, h, st), t.epoch)
    ensures var hits := Scan(t.live.pending, h, inc, limit);
            var t' := Exec(t, EndFrom(e, hits, 0));
            && t'.live == Without(t.live, hits, 0)
            && t'.live.pending == t.live.pending - ScanKeys(t.live.pending, h, inc, limit)
            && EndedRows(t, t', e, hits, 0)
            && Moved(t, EndFrom(e, hits, 0)) == |hits|
            && Linked(WithConn(t'.live, h, st), t'.epoch)
  {
    var l, hits := WithConn(t.live, h, st), Scan(t.live.pending, h, inc, limit);
    ScanKeysFrom(t.live.pending, h, inc, limit);
    ScanHitsIn(l, h, inc, limit);
    ScanEndable(t, h, st, inc, limit);
    EndExactLive(t, e, hits, 0);
    EndExactEpoch(t, e, hits, 0);
    EndMovesAll(t, e, hits, 0);
    var t' := Exec(t, EndFrom(e, hits, 0));
    WithoutLinked(l, t.epoch, t'.epoch, hits);
    assert WithConn(t'.live, h, st) == Without(l, hits, 0);
  }

  // ---- Changing a connection ----

  /** The connection may become `st`: every pending request of it still fits. */
  ghost predicate ConnFits(pending: map<PendKey, PendVal>, h: nat, st: ConnState) {
    st.absSeqC < U48 && forall k :: k in pending && k.h == h ==> Fits(st, k)
  }

  lemma Reconnect(l: Live, e: Epoch, h: nat, st: ConnState)
    requires Linked(l, e) && ConnFits(l.pending, h, st)
    ensures Linked(WithConn(l, h, st), e)
  {
    var u := WithConn(l, h, st);
    forall k | k in u.pending ensures PendOk(u, k) {
      assert PendOk(l, k);
    }
    forall q | q in u.pair ensures RowOk(u, q) {
      assert RowOk(l, q);
      var row := l.pair[q];
      var k := PendKey(row.connHash, l.conn[row.connHash].incarnation, row.absEnd);
      if row.connHash == h {
        assert Fits(st, k);
      }
    }
    forall tk | tk in u.ttl ensures TtlOk(u, tk) {
      assert TtlOk(l, tk);
    }
  }

  lemma KnownFits(l: Live, e: Epoch, h: nat)
    requires Linked(l, e)
    ensures h in l.conn ==> ConnFits(l.pending, h, l.conn[h])
    ensures h !in l.conn ==> PendingOf(l.pending, h) == {}
  {
    forall k | k in l.pending ensures PendOk(l, k) {}
  }

  // ---- One record ----

  /** The transactions with the connection in hand. */
  ghost predicate Good(t: Txns, h: nat, st: ConnState) { Linked(WithConn(t.live, h, st), t.epoch) }

  lemma GoodFits(t: Txns, h: nat, st: ConnState)
    requires Good(t, h, st)
    ensures ConnFits(t.live.pending, h, st)
  {
    KnownFits(WithConn(t.live, h, st), t.epoch, h);
  }

  lemma Regood(t: Txns, h: nat, st: ConnState, st': ConnState)
    requires Good(t, h, st) && ConnFits(t.live.pending, h, st')
    ensures Good(t, h, st')
  {
    var l := WithConn(t.live, h, st);
    Reconnect(l, t.epoch, h, st');
    assert WithConn(l, h, st') == WithConn(t.live, h, st');
  }

  lemma RegoodSame(t: Txns, h: nat, st: ConnState, st': ConnState)
    requires Good(t, h, st)
    requires st'.incarnation == st.incarnation && ActiveC(st') == ActiveC(st)
    requires st'.consumedAckS == st.consumedAckS && st'.absSeqC == st.absSeqC
    ensures Good(t, h, st')
  {
    GoodFits(t, h, st);
    forall k | k in t.live.pending && k.h == h ensures Fits(st', k) {
      assert Fits(st, k);
    }
    Regood(t, h, st, st');
  }

  /** Ending everything up to a limit at or above the stream head empties the connection. */
  lemma EndWholeConnection(t: Txns, h: nat, st: ConnState, e: Ending, limit: nat, st': ConnState)
    requires Good(t, h, st) && limit >= st.absSeqC && st'.absSeqC < U48
    ensures var t' := Exec(t, EndFrom(e, Scan(t.live.pending, h, st.incarnation, limit), 0));
            Good(t', h, st') && PendingOf(t'.live.pending, h) == {}
  {
    EndScan(t, h, st, e, st.incarnation, limit);
    GoodFits(t, h, st);
    var t' := Exec(t, EndFrom(e, Scan(t.live.pending, h, st.incarnation, limit), 0));
    forall k | k in t.live.pending && k.h == h ensures k in ScanKeys(t.live.pending, h, st.incarnation, limit) {
      assert Fits(st, k);
    }
    assert PendingOf(t'.live.pending, h) == {};
    forall k | k in t'.live.pending ensures k.h != h {
      assert k.h == h ==> k in PendingOf(t'.live.pending, h);
    }
    Regood(t', h, st, st');
  }

  lemma RebornFields(st: ConnState, dir: Dir, r: IndexedRecord)
    requires r.rec.seqNo < U32
    ensures Reborn(st, dir, r).absSeqC < U48 && Reborn(st, dir, r).consumedAckS == 0
    ensures ActiveC(Reborn(st, dir, r)) <==> dir == C2S
  {}

  lemma RebaseGood(t: Txns, st: ConnState, h: nat, dir: Dir, r: IndexedRecord)
    requires Good(t, h, st) && r.rec.seqNo < U32
    ensures Good(Rebase(t, st, h, dir, r).0, h, Rebase(t, st, h, dir, r).1)
  {
    if Rebirth(st, dir, r) {
      RebornFields(st, dir, r);
      GoodFits(t, h, st);
      EndWholeConnection(t, h, st, ByStatus(UNMATCHED), U48_MAX, Reborn(st, dir, r));
    } else {
      GoodFits(t, h, st);
      RegoodSame(t, h, st, MarkJump(st, dir, r));
    }
  }

  lemma CascadeGood(t: Txns, st: ConnState, h: nat, r: IndexedRecord)
    requires Good(t, h, st)
    ensures Good(RstCascade(t, st, h, r).0, h, RstCascade(t, st, h, r).1)
  {
    GoodFits(t, h, st);
    EndWholeConnection(t, h, st, ByStatus(RST_ABORT), U48_MAX, RstCascade(t, st, h, r).1);
  }

  // Responses

  lemma AckCoversHead(st: ConnState, raw: nat)
    requires ActiveC(st) && st.absSeqC < U48
    ensures AbsOf(StreamC(st), raw) >= st.absSeqC
  {}

  /** With an acknowledgement at or above the head - every one the translator yields - consumption
      leaves the connection without pending requests. */
  lemma ConsumeEmpties(p: Params, t: Txns, st: ConnState, h: nat, r: IndexedRecord, ack: nat)
    requires Good(t, h, st) && (ActiveC(st) ==> ack >= st.absSeqC)
    ensures var out := ConsumeR(p, t, st, h, r, ack);
            Good(out.0, h, out.1) && PendingOf(out.0.live.pending, h) == {}
  {
    var out := ConsumeR(p, t, st, h, r, ack);
    var limit := SatAdd(ack, p.ackTol);
    GoodFits(t, h, st);
    if ActiveC(st) {
      EndWholeConnection(t, h, st, ByAnswer(r), limit, out.1);
    } else {
      EndScan(t, h, st, ByAnswer(r), st.incarnation, limit);
      forall k | k in t.live.pending ensures k.h != h {
        assert k.h == h ==> Fits(st, k);
      }
      assert PendingOf(out.0.live.pending, h) == {};
      Regood(out.0, h, st, out.1);
    }
  }

  lemma ResponseGood(p: Params, t: Txns, st: ConnState, h: nat, r: IndexedRecord, fed: Fed)
    requires Good(t, h, st)
    ensures var out := Response(p, t, st, h, r, fed, StreamC(st));
            && Good(out.0, h, out.1)
            && out.1.absSeqC == st.absSeqC && ActiveC(out.1) == ActiveC(st)
  {
    var st1 := Responded(st, fed);
    RegoodSame(t, h, st, st1);
    GoodFits(t, h, st);
    var ack := AbsOf(StreamC(st), r.rec.ackNo);
    if ActiveC(st) {
      AckCoversHead(st, r.rec.ackNo);
    }
    ConsumeEmpties(p, t, st1, h, r, ack);
  }

  // Requests

  /** Only epoch rows other than QR_PAIR are put. */
  ghost predicate Secondary(ps: seq<Prim>) {
    forall i :: 0 <= i < |ps| ==> ps[i].Put? && !ps[i].k.KPair?
  }

  lemma {:induction false} SecondaryRows(t: Txns, ps: seq<Prim>)
    requires Secondary(ps)
    ensures Exec(t, ps).live == t.live
    ensures forall q :: KPair(q) in Exec(t, ps).epoch <==> KPair(q) in t.epoch
    decreases |ps|
  {
    if ps != [] {
      SecondaryRows(Exec1(t, ps[0]), ps[1..]);
    }
  }

  /** The record's request is new: its IDX was never used, and its connection has no other pending
      request with the same time stamp. */
  ghost predicate FreshRequest(t: Txns, h: nat, r: IndexedRecord) {
    r.Idx() !in t.live.pair && KPair(r.Idx()) !in t.epoch && TtlKey(r.rec.ts, h) !in t.live.ttl
  }

  lemma OpenLive(p: Params, t: Txns, st: ConnState, h: nat, r: IndexedRecord, start: nat, end: nat)
    ensures OpenQ(p, t, st, h, r, start, end).0.live == Exec1(t, OpenPlan(p, st, h, r, start, end)[0]).live
    ensures forall q :: KPair(q) in OpenQ(p, t, st, h, r, start, end).0.epoch <==> KPair(q) in t.epoch
  {
    var plan := OpenPlan(p, st, h, r, start, end);
    var t1 := Exec1(t, plan[0]);
    assert Secondary(plan[1..]);
    SecondaryRows(t1, plan[1..]);
    assert Exec(t, plan) == Exec(t1, plan[1..]);
    assert t1.epoch == t.epoch;
  }

  /** The live store with one more request. */
  function Adding(l: Live, q: nat, row: QrPair, pk: PendKey, pv: PendVal, tk: TtlKey, tv: TtlVal): Live {
    l.(pair := l.pair[q := row], pending := l.pending[pk := pv], ttl := l.ttl[tk := tv])
  }

  /** A request not yet in any of the three tables, with matching entries, that fits its connection. */
  ghost predicate NewRequest(l: Live, q: nat, row: QrPair, pk: PendKey, pv: PendVal, tk: TtlKey, tv: TtlVal) {
    && q !in l.pair && pk !in l.pending && tk !in l.ttl
    && pv.q == q && tv == TtlVal(q, pk.end) && tk == TtlKey(row.qTs, row.connHash) && pv.qTs == row.qTs
    && row.connHash == pk.h && row.absEnd == pk.end && row.status == PENDING && row.qIdx == [q] && row.rIdx == []
    && pk.h in l.conn && Fits(l.conn[pk.h], pk)
  }

  lemma AddPend(l: Live, e: Epoch, q: nat, row: QrPair, pk: PendKey, pv: PendVal, tk: TtlKey, tv: TtlVal, k: PendKey)
    requires Linked(l, e) && NewRequest(l, q, row, pk, pv, tk, tv) && (k == pk || k in l.pending)
    ensures PendOk(Adding(l, q, row, pk, pv, tk, tv), k)
  {
    assert k != pk ==> PendOk(l, k);
  }

  lemma AddRow(l: Live, e: Epoch, q: nat, row: QrPair, pk: PendKey, pv: PendVal, tk: TtlKey, tv: TtlVal, o: nat)
    requires Linked(l, e) && NewRequest(l, q, row, pk, pv, tk, tv) && (o == q || o in l.pair)
    ensures RowOk(Adding(l, q, row, pk, pv, tk, tv), o)
  {
    assert o != q ==> RowOk(l, o);
  }

  lemma AddTtl(l: Live, e: Epoch, q: nat, row: QrPair, pk: PendKey, pv: PendVal, tk: TtlKey, tv: TtlVal, k: TtlKey)
    requires Linked(l, e) && NewRequest(l, q, row, pk, pv, tk, tv) && (k == tk || k in l.ttl)
    ensures TtlOk(Adding(l, q, row, pk, pv, tk, tv), k)
  {
    assert k != tk ==> TtlOk(l, k);
  }

  lemma AddLinked(l: Live, e: Epoch, q: nat, row: QrPair, pk: PendKey, pv: PendVal, tk: TtlKey, tv: TtlVal)
    requires Linked(l, e) && NewRequest(l, q, row, pk, pv, tk, tv) && KPair(q) !in e
    ensures Linked(Adding(l, q, row, pk, pv, tk, tv), e)
  {
    var u := Adding(l, q, row, pk, pv, tk, tv);
    forall k | k in u.pending ensures PendOk(u, k) { AddPend(l, e, q, row, pk, pv, tk, tv, k); }
    forall o | o in u.pair ensures RowOk(u, o) && KPair(o) !in e { AddRow(l, e, q, row, pk, pv, tk, tv, o); }
    forall k | k in u.ttl ensures TtlOk(u, k) { AddTtl(l, e, q, row, pk, pv, tk, tv, k); }
  }

  lemma LinkedEpoch(l: Live, e: Epoch, e': Epoch)
    requires Linked(l, e) && forall q :: KPair(q) in e' <==> KPair(q) in e
    ensures Linked(l, e')
  {}

  /** Opening a request above the head adds one linked request. */
  lemma OpenGood(p: Params, t: Txns, st: ConnState, h: nat, r: IndexedRecord, start: nat, end: nat, st': ConnState)
    requires Good(t, h, st) && FreshRequest(t, h, r) && ActiveC(st)
    requires st.absSeqC < end < U48 && end > st.consumedAckS
    requires st'.incarnation == st.incarnation && st'.consumedAckS == st.consumedAckS
    requires ActiveC(st') && st'.absSeqC == end
    ensures Good(OpenQ(p, t, st, h, r, start, end).0, h, st')
  {
    GoodFits(t, h, st);
    forall k | k in t.live.pending && k.h == h ensures Fits(st', k) {
      assert Fits(st, k);
    }
    Regood(t, h, st, st');
    OpenLive(p, t, st, h, r, start, end);
    var t' := OpenQ(p, t, st, h, r, start, end).0;
    var o := OpenPlan(p, st, h, r, start, end)[0];
    var pk := PendKey(h, st.incarnation, end);
    assert end % U48 == end;
    assert pk !in t.live.pending by {
      assert pk in t.live.pending ==> Fits(st, pk);
    }
    var l := WithConn(t.live, h, st');
    AddLinked(l, t.epoch, o.q, o.row, pk, o.pv, o.tk, o.tv);
    assert WithConn(t'.live, h, st') == Adding(l, o.q, o.row, pk, o.pv, o.tk, o.tv);
    LinkedEpoch(WithConn(t'.live, h, st'), t.epoch, t'.epoch);
  }

  // The whole record

  /** What the invariant asks of a record on its connection: a client packet that activates the stream
      carries no payload past the consumed number, and the client's absolute numbers stay below 2^48. */
  ghost predicate CleanStart(st: ConnState, dir: Dir, r: IndexedRecord) {
    dir == C2S ==>
      && (!ActiveC(st) ==> r.rec.origLen == 0 || r.rec.seqNo + r.rec.origLen <= st.consumedAckS)
      && Feed(StreamC(st), r.rec.seqNo, r.rec.origLen).stream.lastAbs < U48
  }

  lemma FeedRaisesHead(st: ConnState, seqNo: nat, len: nat)
    requires ActiveC(st) && st.absSeqC < U48 && len < U32
    ensures var f := Feed(StreamC(st), seqNo, len);
            && f.stream.active && f.stream.lastAbs >= st.absSeqC
            && (f.novel > 0 ==> f.stream.lastAbs == f.absStart + f.novel > st.absSeqC)
  {}

  lemma BookkeepingFields(st: ConnState, dir: Dir, r: IndexedRecord)
    ensures var u := Count(Handshake(st, dir, r), dir, r);
            && u.incarnation == st.incarnation && ActiveC(u) == ActiveC(st)
            && u.consumedAckS == st.consumedAckS && u.absSeqC == st.absSeqC
  {}

  lemma RequestKeyFields(meta: Meta, st: ConnState, rec: WalRecord)
    ensures var u := RequestKey(meta, st, rec).0;
            && u.incarnation == st.incarnation && u.consumedAckS == st.consumedAckS
  {}

  lemma RequestFields(p: Params, t: Txns, st: ConnState, h: nat, r: IndexedRecord, fed: Fed)
    ensures var u := Request(p, t, st, h, r, fed).1;
            u.incarnation == st.incarnation && u.consumedAckS == st.consumedAckS
  {
    RequestKeyFields(p.meta, st, r.rec);
  }

  lemma SaveFields(st: ConnState, c: Stream, s: Stream)
    ensures var u := SaveStreams(st, c, s);
            && u.incarnation == st.incarnation && u.consumedAckS == st.consumedAckS
            && ActiveC(u) == c.active && u.absSeqC == c.lastAbs
  {}

  /** A connection whose head only moved up still fits. */
  lemma RegoodHigher(t: Txns, h: nat, st: ConnState, st': ConnState)
    requires Good(t, h, st) && st'.absSeqC < U48
    requires st'.incarnation == st.incarnation && st'.consumedAckS == st.consumedAckS
    requires ActiveC(st) ==> ActiveC(st') && st'.absSeqC >= st.absSeqC
    ensures Good(t, h, st')
  {
    GoodFits(t, h, st);
    forall k | k in t.live.pending && k.h == h ensures Fits(st', k) {
      assert Fits(st, k);
    }
    Regood(t, h, st, st');
  }

  lemma ClientGood(p: Params, t: Txns, st: ConnState, h: nat, r: IndexedRecord)
    requires Good(t, h, st) && CleanStart(st, C2S, r) && (r.rec.origLen > 0 ==> FreshRequest(t, h, r))
    requires r.rec.seqNo < U32 && r.rec.origLen < U32
    ensures var out := Exchange(p, t, st, h, C2S, r); Good(out.0, h, out.1)
  {
    var fed := Feed(StreamC(st), r.rec.seqNo, r.rec.origLen);
    var st1 := Count(Handshake(st, C2S, r), C2S, r);
    var (t2, st2) := Request(p, t, st1, h, r, fed);
    var out := SaveStreams(st2, fed.stream, StreamS(st));
    GoodFits(t, h, st);
    BookkeepingFields(st, C2S, r);
    RequestFields(p, t, st1, h, r, fed);
    SaveFields(st2, fed.stream, StreamS(st));
    if ActiveC(st) {
      FeedRaisesHead(st, r.rec.seqNo, r.rec.origLen);
    }
    var end := SatAdd(fed.absStart, fed.novel);
    if r.rec.origLen > 0 && fed.novel > 0 && end > st1.consumedAckS {
      RegoodSame(t, h, st, st1);
      OpenGood(p, t, st1, h, r, fed.absStart, end, out);
    } else {
      assert t2 == t;
      RegoodHigher(t, h, st, out);
    }
  }

  /** A record that starts otherwise leaves its connection with a request past the head, or with a
      head past 48 bits. */
  lemma DirtyStartBreaks(p: Params, t: Txns, st: ConnState, h: nat, r: IndexedRecord)
    requires !CleanStart(st, C2S, r) && r.rec.seqNo < U32 && r.rec.origLen < U32
    ensures var out := Exchange(p, t, st, h, C2S, r); !Good(out.0, h, out.1)
  {
    var fed := Feed(StreamC(st), r.rec.seqNo, r.rec.origLen);
    var st1 := Count(Handshake(st, C2S, r), C2S, r);
    var (t2, st2) := Request(p, t, st1, h, r, fed);
    BookkeepingFields(st, C2S, r);
    ClientFrame(st, r);
    RequestFields(p, t, st1, h, r, fed);
    SaveFields(st2, fed.stream, StreamS(st));
    var out := SaveStreams(st2, fed.stream, StreamS(st));
    if fed.stream.lastAbs < U48 {
      DirtyOpens(p, t, st1, h, r);
      assert !Fits(out, PendKey(h, st.incarnation, r.rec.seqNo + r.rec.origLen));
    }
    assert !ConnFits(t2.live.pending, h, out);
    if Good(t2, h, out) {
      GoodFits(t2, h, out);
    }
  }

  lemma ClientFrame(st: ConnState, r: IndexedRecord)
    ensures StreamC(Count(Handshake(st, C2S, r), C2S, r)) == StreamC(st)
  {}

  lemma DirtyOpens(p: Params, t: Txns, st: ConnState, h: nat, r: IndexedRecord)
    requires !ActiveC(st) && r.rec.origLen > 0 && r.rec.seqNo + r.rec.origLen > st.consumedAckS
    requires r.rec.seqNo < U32 && r.rec.origLen < U32
    ensures var fed := Feed(StreamC(st), r.rec.seqNo, r.rec.origLen);
            && fed == Fed(Baseline(r.rec.seqNo), r.rec.seqNo, r.rec.origLen)
            && PendKey(h, st.incarnation, r.rec.seqNo + r.rec.origLen) in Request(p, t, st, h, r, fed).0.live.pending
  {
    var end := r.rec.seqNo + r.rec.origLen;
    OpenLive(p, t, st, h, r, r.rec.seqNo, end);
    assert end % U48 == end && SatAdd(r.rec.seqNo, r.rec.origLen) == end;
  }

  lemma ServerGood(p: Params, t: Txns, st: ConnState, h: nat, r: IndexedRecord)
    requires Good(t, h, st)
    ensures var out := Exchange(p, t, st, h, S2C, r); Good(out.0, h, out.1)
  {
    var fed := Feed(StreamS(st), r.rec.seqNo, r.rec.origLen);
    var st1 := Count(Handshake(st, S2C, r), S2C, r);
    BookkeepingFields(st, S2C, r);
    RegoodSame(t, h, st, st1);
    assert StreamC(st1) == StreamC(st) by { StreamFrame(st, r); }
    ResponseGood(p, t, st1, h, r, fed);
    var (t2, st2) := Response(p, t, st1, h, r, fed, StreamC(st));
    SaveFields(st2, StreamC(st), fed.stream);
    RegoodSame(t2, h, st2, SaveStreams(st2, StreamC(st), fed.stream));
  }

  lemma StreamFrame(st: ConnState, r: IndexedRecord)
    ensures StreamC(Count(Handshake(st, S2C, r), S2C, r)) == StreamC(st)
  {}
}
