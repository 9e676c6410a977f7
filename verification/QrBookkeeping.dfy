/** The connection record as a state machine. A transition table and a counter table, written without
    reference to the steps of `ingest`, say what one record does to a connection; whole sequences
    follow. */
module QrBookkeeping {
  import opened Common
  import opened Connection
  import opened SeqStreams
  import opened Store
  import opened Qr
  import opened QrLockstep

  /** What the handshake sees of a record. */
  datatype Signal = Reset | ClientSyn | ServerSyn | ClientAck | Other

  function SignalOf(dir: Dir, r: IndexedRecord): Signal {
    if r.rec.rst then Reset
    else if r.rec.syn && dir == C2S then ClientSyn
    else if r.rec.syn then ServerSyn
    else if r.rec.ack && dir == C2S then ClientAck
    else Other
  }

  /** The transition table; a rebirth starts over from half-open. */
  function NextState(state: nat, reborn: bool, signal: Signal): nat {
    var from := if reborn then HALF_OPEN_STATE else state;
    match signal
    case Reset => RESET_STATE
    case ClientSyn => SYN_SENT
    case ServerSyn => if from == SYN_SENT then SYN_RCVD else from
    case ClientAck => if from == SYN_RCVD then ESTABLISHED else from
    case Other => from
  }

  ghost function After(p: Params, t: Txns, st: ConnState, h: nat, dir: Dir, r: IndexedRecord): ConnState {
    Process(p, t, st, h, dir, r).1
  }

  lemma RequestFrame(p: Params, t: Txns, st: ConnState, h: nat, r: IndexedRecord, fed: Fed)
    ensures var s := Request(p, t, st, h, r, fed).1;
            s.(reqCnt := st.reqCnt, qrOpen := st.qrOpen, anomalyFlags := st.anomalyFlags,
               metaBindId := st.metaBindId, protocolHint := st.protocolHint) == st
  {}

  lemma ResponseFrame(p: Params, t: Txns, st: ConnState, h: nat, r: IndexedRecord, fed: Fed, client: Stream)
    ensures var s := Response(p, t, st, h, r, fed, client).1;
            s.(respCnt := st.respCnt, qrOpen := st.qrOpen, consumedAckS := st.consumedAckS) == st
  {}

  /** Fields that only the handshake and the counters touch. */
  ghost predicate SameTrack(a: ConnState, b: ConnState) {
    && a.state == b.state && a.incarnation == b.incarnation && a.synPktIdx == b.synPktIdx
    && a.synSeen == b.synSeen && a.synackSeen == b.synackSeen && a.finSeen == b.finSeen && a.rstSeen == b.rstSeen
    && a.firstTs == b.firstTs && a.lastTs == b.lastTs
    && a.pktsC == b.pktsC && a.pktsS == b.pktsS && a.bytesC == b.bytesC && a.bytesS == b.bytesS
  }

  lemma ExchangeTrack(p: Params, t: Txns, st: ConnState, h: nat, dir: Dir, r: IndexedRecord)
    ensures SameTrack(Exchange(p, t, st, h, dir, r).1, Count(Handshake(st, dir, r), dir, r))
  {
    var fed := Feed(StreamOf(st, dir), r.rec.seqNo, r.rec.origLen);
    var st1 := Count(Handshake(st, dir, r), dir, r);
    RequestFrame(p, t, st1, h, r, fed);
    ResponseFrame(p, t, st1, h, r, fed, if dir == C2S then fed.stream else StreamC(st));
  }

  lemma RebaseTrack(t: Txns, st: ConnState, h: nat, dir: Dir, r: IndexedRecord)
    ensures var s := Rebase(t, st, h, dir, r).1;
            if Rebirth(st, dir, r) then
              SameTrack(s, st.(state := HALF_OPEN_STATE, incarnation := (st.incarnation + 1) % U16,
                               synPktIdx := r.Idx()))
            else SameTrack(s, st)
  {}

  /** One record moves the state as the table says, whatever it does to requests and streams. */
  lemma StateFollowsTable(p: Params, t: Txns, st: ConnState, h: nat, dir: Dir, r: IndexedRecord)
    ensures After(p, t, st, h, dir, r).state == NextState(st.state, Rebirth(st, dir, r), SignalOf(dir, r))
  {
    RebaseTrack(t, st, h, dir, r);
    var (t1, st1) := Rebase(t, st, h, dir, r);
    ExchangeTrack(p, t1, st1, h, dir, r);
  }

  /** Counters, time stamps and generation after one record. A reset moves no counter. */
  lemma TrackedExactly(p: Params, t: Txns, st: ConnState, h: nat, dir: Dir, r: IndexedRecord)
    ensures var s, client := After(p, t, st, h, dir, r), dir == C2S;
            var moved := !r.rec.rst;
            && s.pktsC == (if moved && client then Wrap64(st.pktsC + 1) else st.pktsC)
            && s.pktsS == (if moved && !client then Wrap64(st.pktsS + 1) else st.pktsS)
            && s.bytesC == (if moved && client then SatAdd(st.bytesC, r.rec.origLen) else st.bytesC)
            && s.bytesS == (if moved && !client then SatAdd(st.bytesS, r.rec.origLen) else st.bytesS)
            && s.lastTs == (if moved then r.rec.ts else st.lastTs) && s.firstTs == st.firstTs
            && s.rstSeen == (if moved then st.rstSeen else r.rec.ts)
            && s.synSeen == (if SignalOf(dir, r) == ClientSyn then r.rec.ts else st.synSeen)
            && s.synackSeen == (if SignalOf(dir, r) == ServerSyn then r.rec.ts else st.synackSeen)
            && s.finSeen == (if moved && r.rec.fin then r.rec.ts else st.finSeen)
            && s.incarnation == (if Rebirth(st, dir, r) then (st.incarnation + 1) % U16 else st.incarnation)
            && s.synPktIdx == (if Rebirth(st, dir, r) || SignalOf(dir, r) == ClientSyn then r.Idx() else st.synPktIdx)
  {
    RebaseTrack(t, st, h, dir, r);
    var (t1, st1) := Rebase(t, st, h, dir, r);
    ExchangeTrack(p, t1, st1, h, dir, r);
  }

  // ---- Generations ----

  function LastRaw(st: ConnState, dir: Dir): nat { if dir == C2S then st.lastRawC else st.lastRawS }

  predicate Active(st: ConnState, dir: Dir) { if dir == C2S then ActiveC(st) else ActiveS(st) }

  /** A SYN in a direction that already runs, outside a handshake, not the packet that started this
      incarnation, with another number or on a dead connection. */
  predicate StartsGeneration(st: ConnState, dir: Dir, r: IndexedRecord) {
    && r.rec.syn && Active(st, dir)
    && st.state !in {SYN_SENT, SYN_RCVD} && r.Idx() != st.synPktIdx
    && (r.rec.seqNo != LastRaw(st, dir) || st.state in {CLOSED, RESET_STATE, TIMEOUT_STATE})
  }

  predicate RawTyped(st: ConnState, r: IndexedRecord) {
    r.rec.seqNo < U32 && r.rec.ackNo < U32 && st.lastRawC < U32 && st.lastRawS < U32 && st.incarnation < U16
  }

  lemma DiffIsZero(s: Stream, raw: nat)
    requires raw < U32 && s.lastRaw < U32
    ensures Diff(s, raw) == 0 <==> raw == s.lastRaw
  {}

  lemma RebirthIs(st: ConnState, dir: Dir, r: IndexedRecord)
    requires RawTyped(st, r)
    ensures Rebirth(st, dir, r) <==> StartsGeneration(st, dir, r)
  {
    DiffIsZero(StreamOf(st, dir), r.rec.seqNo);
  }

  lemma NextDiffers(inc: nat)
    requires inc < U16
    ensures (inc + 1) % U16 != inc
  {}

  lemma GenerationAfter(p: Params, t: Txns, st: ConnState, h: nat, dir: Dir, r: IndexedRecord)
    ensures var st' := Process(p, t, st, h, dir, r).1;
            && st'.incarnation == (if Rebirth(st, dir, r) then (st.incarnation + 1) % U16 else st.incarnation)
            && (Rebirth(st, dir, r) ==> st'.synPktIdx == r.Idx())
  {
    RebaseTrack(t, st, h, dir, r);
    var (t1, st1) := Rebase(t, st, h, dir, r);
    ExchangeTrack(p, t1, st1, h, dir, r);
  }

  /** The incarnation changes exactly when a SYN starts a generation, and then to the next one. */
  lemma GenerationChangesExactly(p: Params, t: Txns, st: ConnState, h: nat, dir: Dir, r: IndexedRecord)
    requires RawTyped(st, r)
    ensures var st' := Process(p, t, st, h, dir, r).1;
            && (st'.incarnation != st.incarnation <==> StartsGeneration(st, dir, r))
            && (StartsGeneration(st, dir, r) ==>
                 st'.incarnation == (st.incarnation + 1) % U16 && st'.synPktIdx == r.Idx())
  {
    RebirthIs(st, dir, r);
    NextDiffers(st.incarnation);
    GenerationAfter(p, t, st, h, dir, r);
  }

  // ---- Whole sequences ----

  datatype Seen = Seen(dir: Dir, r: IndexedRecord)

  /** One connection over a sequence of its records, with the stores it runs against. */
  ghost function Trace(p: Params, t: Txns, st: ConnState, h: nat, rs: seq<Seen>): (Txns, ConnState)
    decreases |rs|
  {
    if rs == [] then (t, st)
    else
      var (t1, st1) := Process(p, t, st, h, rs[0].dir, rs[0].r);
      Trace(p, t1, st1, h, rs[1..])
  }

  /** A handshake is under way or done. */
  predicate InHandshake(state: nat) { state == SYN_SENT || state == SYN_RCVD || state == ESTABLISHED }

  ghost predicate SawClientSyn(rs: seq<Seen>) {
    exists i :: 0 <= i < |rs| && SignalOf(rs[i].dir, rs[i].r) == ClientSyn
  }

  /** No connection is ever established, or even opening, without a SYN from its client. */
  lemma {:induction false} NoHandshakeWithoutSyn(p: Params, t: Txns, st: ConnState, h: nat, rs: seq<Seen>)
    requires !InHandshake(st.state) && InHandshake(Trace(p, t, st, h, rs).1.state)
    ensures SawClientSyn(rs)
    decreases |rs|
  {
    if rs != [] {
      var x := rs[0];
      StateFollowsTable(p, t, st, h, x.dir, x.r);
      var (t1, st1) := Process(p, t, st, h, x.dir, x.r);
      if SignalOf(x.dir, x.r) != ClientSyn {
        NoHandshakeWithoutSyn(p, t1, st1, h, rs[1..]);
        var i :| 0 <= i < |rs[1..]| && SignalOf(rs[1..][i].dir, rs[1..][i].r) == ClientSyn;
        assert rs[i + 1] == rs[1..][i];
      }
    }
  }

  /** The three packets of a handshake, in order, establish a connection that was not one yet. */
  lemma ThreeWayHandshake(p: Params, t: Txns, st: ConnState, h: nat, a: Seen, b: Seen, c: Seen)
    requires SignalOf(a.dir, a.r) == ClientSyn && SignalOf(b.dir, b.r) == ServerSyn && SignalOf(c.dir, c.r) == ClientAck
    ensures Trace(p, t, st, h, [a, b, c]).1.state == ESTABLISHED
  {
    var (t1, s1) := Process(p, t, st, h, a.dir, a.r);
    var (t2, s2) := Process(p, t1, s1, h, b.dir, b.r);
    var (t3, s3) := Process(p, t2, s2, h, c.dir, c.r);
    StateFollowsTable(p, t, st, h, a.dir, a.r);
    StateFollowsTable(p, t1, s1, h, b.dir, b.r);
    StateFollowsTable(p, t2, s2, h, c.dir, c.r);
    assert [a, b, c][1..] == [b, c] && [b, c][1..] == [c] && [c][1..] == [];
    assert Trace(p, t2, s2, h, [c]) == Trace(p, t3, s3, h, []);
  }

  // ---- The binding to a metadata plugin ----

  predicate Bound(st: ConnState) { st.metaBindId >= 0 }

  ghost predicate SameBinding(a: ConnState, b: ConnState) {
    a.metaBindId == b.metaBindId && a.protocolHint == b.protocolHint
  }

  /** Key and flag of the row `row` are what the bound plugin extracts from the record's payload. */
  ghost predicate KeyedBy(meta: Meta, hint: nat, row: QrPair, r: IndexedRecord) {
    meta.Registry? && row.reqKey == meta.extract(r.rec.payload, hint).0
                   && row.pseudo == if meta.extract(r.rec.payload, hint).1 then 1 else 0
  }

  lemma RebaseBinding(t: Txns, st: ConnState, h: nat, dir: Dir, r: IndexedRecord)
    ensures SameBinding(st, Rebase(t, st, h, dir, r).1)
  {}

  /** The connection carries what the plugin bound on this record's payload. */
  ghost predicate BoundBy(meta: Meta, s: ConnState, r: IndexedRecord) {
    && meta.Registry?
    && var b := meta.bind(r.rec.payload, r.rec.proto % 256, r.rec.dstPort);
       s.metaBindId == b.metaBindId && s.protocolHint == b.protocolHint
  }

  lemma RequestBinding(p: Params, t: Txns, st: ConnState, h: nat, r: IndexedRecord, fed: Fed)
    ensures var s := Request(p, t, st, h, r, fed).1;
            SameBinding(st, s) || (!Bound(st) && r.rec.origLen > 0 && BoundBy(p.meta, s, r))
  {}

  lemma BookkeepingBinding(st: ConnState, dir: Dir, r: IndexedRecord)
    ensures SameBinding(st, Count(Handshake(st, dir, r), dir, r))
  {}

  lemma SaveBinding(st: ConnState, c: Stream, s: Stream)
    ensures SameBinding(st, SaveStreams(st, c, s))
  {}

  lemma ExchangeBinding(p: Params, t: Txns, st: ConnState, h: nat, dir: Dir, r: IndexedRecord)
    requires !r.rec.rst
    ensures var s := Exchange(p, t, st, h, dir, r).1;
            SameBinding(st, s) || (!Bound(st) && MayOpen(dir, r) && BoundBy(p.meta, s, r))
  {
    var fed := Feed(StreamOf(st, dir), r.rec.seqNo, r.rec.origLen);
    var c := if dir == C2S then fed.stream else StreamC(st);
    var st1 := Count(Handshake(st, dir, r), dir, r);
    BookkeepingBinding(st, dir, r);
    if dir == C2S {
      RequestBinding(p, t, st1, h, r, fed);
      SaveBinding(Request(p, t, st1, h, r, fed).1, c, StreamS(st));
    } else {
      ResponseFrame(p, t, st1, h, r, fed, c);
      SaveBinding(Response(p, t, st1, h, r, fed, c).1, c, fed.stream);
    }
  }

  /** One record keeps the binding, or binds an unbound connection on a client's payload. */
  lemma BindingStep(p: Params, t: Txns, st: ConnState, h: nat, dir: Dir, r: IndexedRecord)
    ensures var s := After(p, t, st, h, dir, r);
            SameBinding(st, s) || (!Bound(st) && MayOpen(dir, r) && BoundBy(p.meta, s, r))
  {
    var (t1, st1) := Rebase(t, st, h, dir, r);
    RebaseBinding(t, st, h, dir, r);
    if !r.rec.rst {
      ExchangeBinding(p, t1, st1, h, dir, r);
    }
  }

  /** A bound connection keeps binding and protocol hint whatever comes, new incarnations included. */
  lemma {:induction false} BindingIsPermanent(p: Params, t: Txns, st: ConnState, h: nat, rs: seq<Seen>)
    requires Bound(st)
    ensures SameBinding(st, Trace(p, t, st, h, rs).1)
    decreases |rs|
  {
    if rs != [] {
      BindingStep(p, t, st, h, rs[0].dir, rs[0].r);
      var (t1, st1) := Process(p, t, st, h, rs[0].dir, rs[0].r);
      BindingIsPermanent(p, t1, st1, h, rs[1..]);
    }
  }

  ghost predicate BoundWithin(meta: Meta, s: ConnState, rs: seq<Seen>) {
    exists i :: 0 <= i < |rs| && MayOpen(rs[i].dir, rs[i].r) && BoundBy(meta, s, rs[i].r)
  }

  lemma BoundWithinStep(meta: Meta, st1: ConnState, s: ConnState, rs: seq<Seen>)
    requires rs != []
    requires (SameBinding(st1, s) && MayOpen(rs[0].dir, rs[0].r) && BoundBy(meta, st1, rs[0].r))
          || BoundWithin(meta, s, rs[1..])
    ensures BoundWithin(meta, s, rs)
  {
    if BoundWithin(meta, s, rs[1..]) {
      var i :| 0 <= i < |rs[1..]| && MayOpen(rs[1..][i].dir, rs[1..][i].r) && BoundBy(meta, s, rs[1..][i].r);
      assert rs[i + 1] == rs[1..][i];
    }
  }

  /** A connection that became bound was bound on the payload of one of its client's records. */
  lemma {:induction false} BindingComesFromPayload(p: Params, t: Txns, st: ConnState, h: nat, rs: seq<Seen>)
    requires !Bound(st) && Bound(Trace(p, t, st, h, rs).1)
    ensures BoundWithin(p.meta, Trace(p, t, st, h, rs).1, rs)
    decreases |rs|
  {
    if rs != [] {
      BindingStep(p, t, st, h, rs[0].dir, rs[0].r);
      var (t1, st1) := Process(p, t, st, h, rs[0].dir, rs[0].r);
      if Bound(st1) {
        BindingIsPermanent(p, t1, st1, h, rs[1..]);
      } else {
        BindingComesFromPayload(p, t1, st1, h, rs[1..]);
      }
      BoundWithinStep(p.meta, st1, Trace(p, t1, st1, h, rs[1..]).1, rs);
    }
  }

  lemma OpenKeyed(p: Params, t: Txns, st: ConnState, h: nat, r: IndexedRecord, fed: Fed, q: nat)
    requires Bound(st) && p.meta.Registry? && q in Request(p, t, st, h, r, fed).0.live.pair
    ensures var row := Request(p, t, st, h, r, fed).0.live.pair[q];
            (q in t.live.pair && row == t.live.pair[q]) || (q == r.Idx() && KeyedBy(p.meta, st.protocolHint, row, r))
  {
    var end := SatAdd(fed.absStart, fed.novel);
    var plan := OpenPlan(p, st, h, r, fed.absStart, end);
    SecondaryPairs(Exec1(t, plan[0]), plan[1..]);
  }

  lemma {:induction false} SecondaryPairs(t: Txns, ps: seq<Prim>)
    requires forall i :: 0 <= i < |ps| ==> ps[i].Put?
    ensures Exec(t, ps).live == t.live
    decreases |ps|
  {
    if ps != [] {
      SecondaryPairs(Exec1(t, ps[0]), ps[1..]);
    }
  }

  /** A request that a record opens on a bound connection carries the key the binding extracts. */
  lemma BoundStep(p: Params, t: Txns, st: ConnState, h: nat, dir: Dir, r: IndexedRecord, q: nat)
    requires Bound(st) && p.meta.Registry? && q in Process(p, t, st, h, dir, r).0.live.pair
    ensures var row := Process(p, t, st, h, dir, r).0.live.pair[q];
            || (q in t.live.pair && row == t.live.pair[q])
            || (q == r.Idx() && MayOpen(dir, r) && KeyedBy(p.meta, st.protocolHint, row, r))
  {
    if !MayOpen(dir, r) {
      ProcessOpensNone(p, t, st, h, dir, r);
    } else {
      var (t1, st1) := Rebase(t, st, h, dir, r);
      RebaseBinding(t, st, h, dir, r);
      RebaseOpensNone(t, st, h, dir, r);
      var st2 := Count(Handshake(st1, dir, r), dir, r);
      BookkeepingBinding(st1, dir, r);
      OpenKeyed(p, t1, st2, h, r, Feed(StreamC(st1), r.rec.seqNo, r.rec.origLen), q);
    }
  }

  /** ... and so does every request opened over any sequence of the connection's records. */
  lemma {:induction false} RequestsAreKeyed(p: Params, t: Txns, st: ConnState, h: nat, rs: seq<Seen>, q: nat)
    requires Bound(st) && p.meta.Registry? && q in Trace(p, t, st, h, rs).0.live.pair
    ensures var row := Trace(p, t, st, h, rs).0.live.pair[q];
            || (q in t.live.pair && row == t.live.pair[q])
            || (exists i :: 0 <= i < |rs| && q == rs[i].r.Idx() && KeyedBy(p.meta, st.protocolHint, row, rs[i].r))
    decreases |rs|
  {
    if rs != [] {
      var x := rs[0];
      var (t1, st1) := Process(p, t, st, h, x.dir, x.r);
      BindingStep(p, t, st, h, x.dir, x.r);
      RequestsAreKeyed(p, t1, st1, h, rs[1..], q);
      var row := Trace(p, t, st, h, rs).0.live.pair[q];
      if q in t1.live.pair && row == t1.live.pair[q] {
        BoundStep(p, t, st, h, x.dir, x.r, q);
      } else {
        var i :| 0 <= i < |rs[1..]| && q == rs[1..][i].r.Idx() && KeyedBy(p.meta, st.protocolHint, row, rs[1..][i].r);
        assert rs[i + 1] == rs[1..][i];
      }
    }
  }
}
