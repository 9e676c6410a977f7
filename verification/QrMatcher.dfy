/** The matcher as the program runs it: one object per batch that holds both write transactions and
    the connection cache, and updates them in place. Each method is the corresponding function of
    module `Qr` applied to the object's state. */
module QrMatchers {
  import opened Common
  import opened Ordering
  import opened Connection
  import opened SeqStreams
  import opened Store
  import opened Qr

  /** The open stores. `trail` records every durable state a stop could leave behind. */
  class DbRegistry {
    var live: Live
    var epoch: Epoch
    ghost var trail: seq<Txns>

    ghost function Value(): Txns reads this { Txns(live, epoch) }

    constructor (l: Live, e: Epoch)
      ensures Value() == Txns(l, e) && trail == []
    {
      live, epoch, trail := l, e, [];
    }

    method CommitEpoch(e: Epoch)
      modifies this
      ensures Value() == Txns(old(live), e) && trail == old(trail) + [Value()]
    {
      epoch := e;
      trail := trail + [Txns(live, epoch)];
    }

    method CommitLive(l: Live)
      modifies this
      ensures Value() == Txns(l, old(epoch)) && trail == old(trail) + [Value()]
    {
      live := l;
      trail := trail + [Txns(live, epoch)];
    }
  }

  method AppendMissing(qs: seq<nat>, others: seq<nat>) returns (r: seq<nat>)
    ensures r == AddMissing(qs, others)
  {
    r := qs;
    for i := 0 to |others|
      invariant AddMissing(r, others[i..]) == AddMissing(qs, others)
    {
      assert others[i..][1..] == others[i + 1..];
      if others[i] !in r {
        r := r + [others[i]];
      }
    }
  }

  /** The terminal fields of a row. */
  method Finish(o: Outcome, row: QrPair) returns (done: QrPair)
    ensures done == Final(o, row)
  {
    match o {
      case Ended(status) =>
        done := row.(status := status);
      case Answered(r, primary, others) =>
        done := row.(
          status := MATCHED,
          rTs := r.rec.ts,
          latencyMs := SatSub(r.rec.ts, row.qTs) / 1_000_000,
          rLen := SatAdd32(row.rLen, r.rec.origLen),
          rIdx := row.rIdx + [r.Idx()]);
        if primary {
          var merged := AppendMissing(done.qIdx, others);
          done := done.(respKey := Prefix32(r.rec.payload), qIdx := merged);
        }
    }
  }

  /** The request key; the first payload of a connection binds it. */
  method BindAndExtract(meta: Meta, st: ConnState, rec: WalRecord)
    returns (st1: ConnState, key: seq<byte>, pseudo: nat)
    ensures (st1, key, pseudo) == RequestKey(meta, st, rec)
  {
    st1 := st;
    match meta {
      case NoMeta =>
        key, pseudo := Prefix32(rec.payload), 0;
      case Registry(bind, extract) =>
        if st.metaBindId < 0 {
          var b := bind(rec.payload, rec.proto % 256, rec.dstPort);
          st1 := st1.(metaBindId := b.metaBindId, protocolHint := b.protocolHint);
          key, pseudo := b.key, if b.pseudo then 1 else 0;
        } else {
          var k := extract(rec.payload, st.protocolHint);
          key, pseudo := k.0, if k.1 then 1 else 0;
        }
    }
  }

  /** Handshake tracking and counters, assignment by assignment. */
  method Track(st: ConnState, dir: Dir, r: IndexedRecord) returns (st1: ConnState)
    ensures st1 == Count(Handshake(st, dir, r), dir, r)
  {
    st1 := st;
    if r.rec.syn && dir == C2S {
      st1 := st1.(state := SYN_SENT, synSeen := r.rec.ts);
      st1 := st1.(anomalyFlags := SetBit(st1.anomalyFlags, SYN_SEEN), synPktIdx := r.Idx());
    } else if r.rec.syn {
      if st1.state == SYN_SENT {
        st1 := st1.(state := SYN_RCVD);
      }
      st1 := st1.(synackSeen := r.rec.ts);
    } else if r.rec.ack && dir == C2S && st1.state == SYN_RCVD {
      st1 := st1.(state := ESTABLISHED);
    }
    if r.rec.fin {
      st1 := st1.(finSeen := r.rec.ts, anomalyFlags := SetBit(st1.anomalyFlags, FIN_SEEN));
    }
    st1 := st1.(lastTs := r.rec.ts);
    if dir == C2S {
      st1 := st1.(pktsC := Wrap64(st1.pktsC + 1), bytesC := SatAdd(st1.bytesC, r.rec.origLen));
    } else {
      st1 := st1.(pktsS := Wrap64(st1.pktsS + 1), bytesS := SatAdd(st1.bytesS, r.rec.origLen));
    }
  }

  /** The connection side of `flip_epoch`, field by field. */
  method StartOver(was: ConnState, dir: Dir, r: IndexedRecord) returns (st: ConnState)
    ensures st == Reborn(was, dir, r)
  {
    st := was.(
      incarnation := (was.incarnation + 1) % U16,
      qrOpen := 0,
      synPktIdx := if r.rec.syn then r.Idx() else 0);
    if dir == C2S {
      st := SetActiveC(st.(lastRawC := r.rec.seqNo, absSeqC := r.rec.seqNo), true);
      st := SetActiveS(st.(lastRawS := 0, absSeqS := 0), false);
    } else {
      st := SetActiveS(st.(lastRawS := r.rec.seqNo, absSeqS := r.rec.seqNo), true);
      st := SetActiveC(st.(lastRawC := 0, absSeqC := 0), false);
    }
    st := st.(state := HALF_OPEN_STATE, consumedAckC := 0, consumedAckS := 0);
    BitsCommute(was.dirFlags);
  }

  class QrMatcher {
    const params: Params
    const reg: DbRegistry
    var live: Live
    var epoch: Epoch
    var conns: map<nat, ConnState>

    ghost function T(): Txns reads this { Txns(live, epoch) }

    ghost function Value(): Batch reads this { Batch(T(), conns) }

    constructor (p: Params, reg: DbRegistry)
      ensures params == p && this.reg == reg
      ensures Value() == Begin(reg.live, reg.epoch)
    {
      params := p;
      this.reg := reg;
      live, epoch, conns := reg.live, reg.epoch, map[];
    }

    method ScanPendingUpto(h: nat, inc: nat, limit: nat) returns (hits: seq<Hit>)
      ensures hits == Scan(live.pending, h, inc, limit)
    {
      var rest := set k | k in live.pending && InScan(live.pending, h, inc, limit, k);
      ghost var all := rest;
      ghost var keys: seq<PendKey> := [];
      hits := [];
      PendOrder();
      while rest != {}
        invariant rest <= all
        invariant forall k :: k in keys <==> k in all - rest
        invariant forall x, y :: x in keys && y in rest ==> PendLt(x, y)
        invariant Ascending(PendLt, keys)
        invariant |hits| == |keys|
        invariant forall i :: 0 <= i < |keys| ==> keys[i] in live.pending && hits[i] == HitAt(live.pending, keys[i])
        decreases |rest|
      {
        var k := First(PendLt, rest);
        assert k in all;
        hits := hits + [HitAt(live.pending, k)];
        ghost var before := keys;
        keys := keys + [k];
        assert forall x :: x in keys <==> x in before || x == k;
        rest := rest - {k};
      }
      assert all == ScanKeys(live.pending, h, inc, limit);
      AscendUnique(PendLt, all, keys);
      assert keys == KeysInOrder(live.pending, h, inc, limit);
    }

    method CountLivePending(h: nat) returns (n: nat)
      ensures n == |PendingOf(live.pending, h)|
    {
      var rows := set k | k in live.pending && k.h == h;
      assert rows == PendingOf(live.pending, h);
      n := |rows|;
    }

    method MigrateTerminal(q: nat, o: Outcome) returns (migrated: bool)
      modifies this
      ensures T() == Migrate(old(T()), q, o) && conns == old(conns)
      ensures migrated == Moves(old(T()), q)
    {
      if KPair(q) in epoch {
        live := live.(pair := live.pair - {q});
        return false;
      }
      if q !in live.pair || live.pair[q].status != PENDING {
        return false;
      }
      var row := Finish(o, live.pair[q]);
      epoch := PutNew(epoch, KPair(q), VPair(row));
      live := live.(pair := live.pair - {q});
      migrated := true;
    }

    /** Migrate one request, then clear its two index entries. */
    method EndOne(hit: Hit, o: Outcome) returns (migrated: bool)
      modifies this
      ensures T() == Exec(old(T()), [Settle(hit.q, o), Drop(hit.key, TtlKey(hit.qTs, hit.key.h))])
      ensures conns == old(conns)
      ensures migrated == Moves(old(T()), hit.q)
    {
      migrated := MigrateTerminal(hit.q, o);
      live := live.(pending := live.pending - {hit.key}, ttl := live.ttl - {TtlKey(hit.qTs, hit.key.h)});
      TwoSteps(old(T()), Settle(hit.q, o), Drop(hit.key, TtlKey(hit.qTs, hit.key.h)));
    }

    method ConsumeR(st: ConnState, h: nat, r: IndexedRecord, absAck: nat) returns (st1: ConnState)
      modifies this
      ensures (T(), st1) == Qr.ConsumeR(params, old(T()), st, h, r, absAck)
      ensures conns == old(conns)
    {
      var hits := ScanPendingUpto(h, st.incarnation, SatAdd(absAck, params.ackTol));
      st1 := st;
      if hits == [] {
        return st.(consumedAckS := Max(absAck, st.consumedAckS));
      }
      ghost var plan := EndFrom(ByAnswer(r), hits, 0);
      ghost var moved := 0;
      for i := 0 to |hits|
        invariant conns == old(conns)
        invariant Exec(T(), EndFrom(ByAnswer(r), hits, i)) == Exec(old(T()), plan)
        invariant moved + Moved(T(), EndFrom(ByAnswer(r), hits, i)) == Moved(old(T()), plan)
        invariant st1 == st.(qrOpen := SatSub(st.qrOpen, moved))
      {
        ghost var before := T();
        var migrated := EndOne(hits[i], Answered(r, i == 0, Queries(hits[1..])));
        EndStep(before, ByAnswer(r), hits, i);
        if migrated {
          st1 := st1.(qrOpen := SatSub(st1.qrOpen, 1));
          moved := moved + 1;
        }
      }
      st1 := st1.(consumedAckS := Max(absAck, st1.consumedAckS));
    }

    /** Ends every request of `hits` with one status. */
    method EndHits(hits: seq<Hit>, status: nat)
      modifies this
      ensures T() == Exec(old(T()), EndFrom(ByStatus(status), hits, 0)) && conns == old(conns)
    {
      for i := 0 to |hits|
        invariant conns == old(conns)
        invariant Exec(T(), EndFrom(ByStatus(status), hits, i)) == Exec(old(T()), EndFrom(ByStatus(status), hits, 0))
      {
        ghost var before := T();
        var migrated := EndOne(hits[i], Ended(status));
        EndStep(before, ByStatus(status), hits, i);
      }
    }

    method FlipEpoch(h: nat, dir: Dir, r: IndexedRecord)
      requires h in conns
      modifies this
      ensures var (t, st) := Qr.FlipEpoch(old(T()), old(conns[h]), h, dir, r);
              T() == t && conns == old(conns)[h := st]
    {
      var hits := ScanPendingUpto(h, conns[h].incarnation, U48_MAX);
      EndHits(hits, UNMATCHED);
      var st := StartOver(conns[h], dir, r);
      conns := conns[h := st];
    }

    method RstCascade(st: ConnState, h: nat, r: IndexedRecord) returns (st1: ConnState)
      modifies this
      ensures (T(), st1) == Qr.RstCascade(old(T()), st, h, r)
      ensures conns == old(conns)
    {
      var hits := ScanPendingUpto(h, st.incarnation, U48_MAX);
      EndHits(hits, RST_ABORT);
      st1 := st.(qrOpen := SatSub(st.qrOpen, |hits|));
      st1 := Flag(st1.(state := RESET_STATE, rstSeen := r.rec.ts), RESET);
    }

    /** The pending row and its two entries go to live, the four secondary rows to the epoch. */
    method OpenQ(st: ConnState, h: nat, r: IndexedRecord, absStart: nat, absEnd: nat) returns (st1: ConnState)
      modifies this
      ensures (T(), st1) == Qr.OpenQ(params, old(T()), st, h, r, absStart, absEnd)
      ensures conns == old(conns)
    {
      var key, pseudo;
      st1, key, pseudo := BindAndExtract(params.meta, st, r.rec);
      var q, ts := r.Idx(), r.rec.ts;
      var row := QrPair(PENDING, h, ts, 0, 0, r.rec.origLen, 0, absStart, absEnd, pseudo, [q], [], key, []);
      live := live.(
        pair := PutNew(live.pair, q, row),
        pending := PutNew(live.pending, PendKey(h, st.incarnation, absEnd % U48), PendVal(q, ts, row.qLen)),
        ttl := PutNew(live.ttl, TtlKey(ts, h), TtlVal(q, absEnd % U48)));
      epoch := PutNew(epoch, KPacket(q), VIdx(q));
      epoch := PutNew(epoch, KConnQr(h, ts, q), VIdx(q));
      epoch := PutNew(epoch, KQrKey(params.keyHash(key), ts, q), VIdx(q));
      epoch := PutNew(epoch, KQrTime(ts, q), VIdx(q));
      OpenPlanEffect(params, old(T()), st, h, r, absStart, absEnd, key, pseudo);
      st1 := st1.(reqCnt := Wrap64(st1.reqCnt + 1), qrOpen := Wrap64(st1.qrOpen + 1));
    }

    method LoadConn(h: nat) returns (found: bool)
      modifies this`conns
      ensures found == Known(old(Value()), h)
      ensures conns == if found then old(conns)[h := Cached(old(Value()), h)] else old(conns)
    {
      if h in conns {
        return true;
      }
      if h in live.conn {
        conns := conns[h := live.conn[h]];
        return true;
      }
      found := false;
    }

    method Locate(r: IndexedRecord) returns (h: nat, dir: Dir)
      modifies this`conns
      ensures (h, dir) == Qr.Locate(params, old(Value()), r)
      ensures conns == old(conns)[h := StateFor(old(Value()), h, r)]
    {
      h := ForwardHash(params, r);
      var found := LoadConn(h);
      if found {
        return h, C2S;
      }
      var back := BackwardHash(params, r);
      found := LoadConn(back);
      if found {
        return back, S2C;
      }
      conns := conns[h := Fresh(r.rec)];
      dir := C2S;
    }

    /** Client payload. */
    method Request(st: ConnState, h: nat, r: IndexedRecord, absStart: nat, novel: nat, ghost fed: Fed)
      returns (st1: ConnState)
      requires fed.absStart == absStart && fed.novel == novel
      modifies this
      ensures (T(), st1) == Qr.Request(params, old(T()), st, h, r, fed)
      ensures conns == old(conns)
    {
      st1 := st;
      if r.rec.origLen > 0 {
        if novel > 0 {
          var absEnd := SatAdd(absStart, novel);
          if absEnd > st.consumedAckS {
            st1 := OpenQ(st, h, r, absStart, absEnd);
          } else {
            st1 := Flag(st, RETRANS);
          }
        } else {
          st1 := Flag(st, RETRANS);
        }
      }
    }

    /** Server packet: its acknowledgement is translated by the client's stream, read-only. */
    method Respond(st: ConnState, h: nat, r: IndexedRecord, novel: nat, client: SeqStream, ghost fed: Fed)
      returns (st1: ConnState)
      requires fed.novel == novel && client as object != this
      modifies this
      ensures (T(), st1) == Qr.Response(params, old(T()), st, h, r, fed, old(client.Value()))
      ensures conns == old(conns)
    {
      var absAck := client.TranslateAck(r.rec.ackNo);
      st1 := st;
      if novel > 0 {
        st1 := st1.(respCnt := Wrap64(st1.respCnt + 1));
      }
      if absAck > st1.consumedAckS && absAck <= SatAdd(client.lastAbs, ACK_LEAD_CAP) {
        st1 := ConsumeR(st1, h, r, absAck);
      }
    }

    /** Steps 3 to 7 of `ingest`: sequence advance, state machine, counters, request or response. */
    method Exchange(st: ConnState, h: nat, dir: Dir, r: IndexedRecord) returns (st1: ConnState)
      modifies this
      ensures (T(), st1) == Qr.Exchange(params, old(T()), st, h, dir, r)
      ensures conns == old(conns)
    {
      var streamC := new SeqStream(StreamC(st));
      var streamS := new SeqStream(StreamS(st));
      st1 := Track(st, dir, r);
      var absStart, novel;
      if dir == C2S {
        absStart, novel := streamC.FeedPacket(r.rec.seqNo, r.rec.origLen);
        st1 := Request(st1, h, r, absStart, novel, Fed(streamC.Value(), absStart, novel));
      } else {
        absStart, novel := streamS.FeedPacket(r.rec.seqNo, r.rec.origLen);
        st1 := Respond(st1, h, r, novel, streamC, Fed(streamS.Value(), absStart, novel));
      }
      st1 := SaveStreams(st1,
        Stream(streamC.lastRaw, streamC.lastAbs, streamC.active),
        Stream(streamS.lastRaw, streamS.lastAbs, streamS.active));
    }

    /** Rebirth or jump mark, then the reset cascade or the exchange. */
    method Process(h: nat, dir: Dir, r: IndexedRecord)
      requires h in conns
      modifies this
      ensures var (t, st) := Qr.Process(params, old(T()), old(conns[h]), h, dir, r);
              T() == t && conns == old(conns)[h := st]
    {
      var st := MarkJump(conns[h], dir, r);
      if Rebirth(conns[h], dir, r) {
        FlipEpoch(h, dir, r);
        st := conns[h];
      }
      assert (T(), st) == Rebase(old(T()), old(conns[h]), h, dir, r);
      ghost var cache := conns;
      if r.rec.rst {
        st := RstCascade(st, h, r);
      } else {
        st := Exchange(st, h, dir, r);
      }
      conns := conns[h := st];
      assert conns == old(conns)[h := st];
    }

    method Ingest(r: IndexedRecord)
      modifies this
      ensures Value() == Qr.Ingest(params, old(Value()), r)
    {
      epoch := PutNew(epoch, KRecord(r.rec.ts, r.Idx()), VRecord(SummaryOf(r.rec)));
      assert T() == Logged(old(T()), r);
      if r.rec.proto != TCP {
        return;
      }
      SameLookup(params, old(Value()), Value(), r);
      var h, dir := Locate(r);
      ghost var mid := conns[h];
      Process(h, dir, r);
      LastPut(old(conns), h, mid, conns[h]);
    }

    method WritebackConns()
      modifies this`live
      ensures live == CommittedLive(old(Value()))
    {
      var rest := conns.Keys;
      ghost var written: map<nat, ConnState> := map[];
      NatOrder();
      while rest != {}
        invariant rest <= conns.Keys && WrittenSoFar(conns, old(live).pending, rest, written)
        invariant live == old(live).(conn := old(live).conn + written)
        decreases |rest|
      {
        var h := First(NatLt, rest);
        var n := CountLivePending(h);
        var st := conns[h].(qrOpen := n);
        PutAfter(old(live).conn, written, h, st);
        live := live.(conn := live.conn[h := st]);
        written := written[h := st];
        rest := rest - {h};
      }
      AllWritten(conns, old(live).pending, written);
    }

    /** Write-back, then the epoch store, then the live store. A stop between the two commits leaves
        the new epoch beside the old live store. */
    method Commit()
      requires reg as object != this
      modifies this, reg
      ensures reg.Value() == Txns(CommittedLive(old(Value())), old(epoch))
      ensures reg.trail == old(reg.trail) + [Txns(old(reg.live), old(epoch)), reg.Value()]
    {
      WritebackConns();
      reg.CommitEpoch(epoch);
      reg.CommitLive(live);
    }
  }

  lemma TwoSteps(t: Txns, a: Prim, b: Prim)
    ensures Exec(t, [a, b]) == Exec1(Exec1(t, a), b)
  {
    var t1 := Exec1(t, a);
    assert [a, b][1..] == [b] && [b][1..] == [];
    assert Exec(t1, [b]) == Exec(Exec1(t1, b), []);
  }

  lemma FiveSteps(t: Txns, ps: seq<Prim>)
    requires |ps| == 5
    ensures Exec(t, ps) == Exec1(Exec1(Exec1(Exec1(Exec1(t, ps[0]), ps[1]), ps[2]), ps[3]), ps[4])
  {
    assert ps[1..][1..] == ps[2..] && ps[2..][1..] == ps[3..] && ps[3..] == [ps[3], ps[4]];
    var t3 := Exec1(Exec1(Exec1(t, ps[0]), ps[1]), ps[2]);
    assert Exec(t, ps) == Exec(Exec1(t, ps[0]), ps[1..]);
    assert Exec(Exec1(t, ps[0]), ps[1..]) == Exec(Exec1(Exec1(t, ps[0]), ps[1]), ps[2..]);
    assert Exec(t, ps) == Exec(t3, ps[3..]);
    TwoSteps(t3, ps[3], ps[4]);
  }

  /** One turn of an ending loop: the work still to do after it. */
  lemma EndStep(t: Txns, e: Ending, hits: seq<Hit>, i: nat)
    requires i < |hits|
    ensures var step := [Settle(hits[i].q, OutcomeAt(e, hits, i)),
                         Drop(hits[i].key, TtlKey(hits[i].qTs, hits[i].key.h))];
            && Exec(t, EndFrom(e, hits, i)) == Exec(Exec(t, step), EndFrom(e, hits, i + 1))
            && Moved(t, EndFrom(e, hits, i))
               == (if Moves(t, hits[i].q) then 1 else 0) + Moved(Exec(t, step), EndFrom(e, hits, i + 1))
  {
    var a, b := Settle(hits[i].q, OutcomeAt(e, hits, i)), Drop(hits[i].key, TtlKey(hits[i].qTs, hits[i].key.h));
    var rest, all := EndFrom(e, hits, i + 1), EndFrom(e, hits, i);
    TwoSteps(t, a, b);
    assert all == [a, b] + rest;
    assert all[1..] == [b] + rest && all[1..][1..] == rest;
    assert Exec(t, all) == Exec(Exec1(t, a), all[1..]);
    assert Moved(t, all) == (if Moves(t, hits[i].q) then 1 else 0) + Moved(Exec1(t, a), all[1..]);
    assert Exec(Exec1(t, a), all[1..]) == Exec(Exec1(Exec1(t, a), b), rest);
  }

  lemma BitsCommute(flags: nat)
    ensures forall c: bool, s: bool :: ForceBit(ForceBit(flags, 1, c), 2, s) == ForceBit(ForceBit(flags, 2, s), 1, c)
  {
    forall c: bool, s: bool
      ensures ForceBit(ForceBit(flags, 1, c), 2, s) == ForceBit(ForceBit(flags, 2, s), 1, c)
    {
      var a, b := ForceBit(ForceBit(flags, 1, c), 2, s), ForceBit(ForceBit(flags, 2, s), 1, c);
      assert a / 4 == b / 4 && (a / 2) % 2 == (b / 2) % 2 && a % 2 == b % 2;
    }
  }

  /** The effect of opening a request, write by write. */
  lemma OpenPlanEffect(p: Params, t: Txns, st: ConnState, h: nat, r: IndexedRecord, absStart: nat, absEnd: nat,
                       key: seq<byte>, pseudo: nat)
    requires RequestKey(p.meta, st, r.rec).1 == key && RequestKey(p.meta, st, r.rec).2 == pseudo
    ensures var q, ts := r.Idx(), r.rec.ts;
            Exec(t, OpenPlan(p, st, h, r, absStart, absEnd)) == Txns(
              t.live.(
                pair := PutNew(t.live.pair, q, NewPair(h, r, absStart, absEnd, key, pseudo)),
                pending := PutNew(t.live.pending, PendKey(h, st.incarnation, absEnd % U48),
                                  PendVal(q, ts, r.rec.origLen)),
                ttl := PutNew(t.live.ttl, TtlKey(ts, h), TtlVal(q, absEnd % U48))),
              PutNew(PutNew(PutNew(PutNew(t.epoch, KPacket(q), VIdx(q)), KConnQr(h, ts, q), VIdx(q)),
                     KQrKey(p.keyHash(key), ts, q), VIdx(q)), KQrTime(ts, q), VIdx(q)))
  {
    FiveSteps(t, OpenPlan(p, st, h, r, absStart, absEnd));
  }

  lemma SameLookup(p: Params, b: Batch, b1: Batch, r: IndexedRecord)
    requires b.conns == b1.conns && b.t.live == b1.t.live
    ensures Qr.Locate(p, b, r) == Qr.Locate(p, b1, r)
    ensures forall h :: StateFor(b, h, r) == StateFor(b1, h, r)
  {
    assert forall h :: Known(b, h) == Known(b1, h);
  }

  lemma LastPut(conns: map<nat, ConnState>, h: nat, mid: ConnState, st: ConnState)
    ensures conns[h := mid][h := st] == conns[h := st]
  {}

  /** The write-back when the connections in `rest` are still to come. */
  ghost predicate WrittenSoFar(conns: map<nat, ConnState>, pending: map<PendKey, PendVal>, rest: set<nat>,
                               written: map<nat, ConnState>)
  {
    && written.Keys == conns.Keys - rest
    && forall h :: h in written ==> written[h] == Recounted(conns[h], pending, h)
  }

  lemma AllWritten(conns: map<nat, ConnState>, pending: map<PendKey, PendVal>, written: map<nat, ConnState>)
    requires WrittenSoFar(conns, pending, {}, written)
    ensures written == WrittenBack(conns, pending)
  {}

  lemma PutAfter(base: map<nat, ConnState>, written: map<nat, ConnState>, h: nat, st: ConnState)
    ensures (base + written)[h := st] == base + written[h := st]
  {}
}
