/** Anomaly flags, the endpoints of a connection and the RECORD_TS rows: what each record leaves behind
    besides requests. */
module QrFlags {
  import opened Common
  import opened Connection
  import opened AnomalyBits
  import opened SeqStreams
  import opened Store
  import opened Qr
  import opened QrLockstep
  import opened QrBookkeeping

  // ---- Flags ----

  /** The number lies more than 2^30 away from the last one, in either direction. */
  predicate Jumps(last: nat, seqNo: nat) {
    var ahead := if seqNo >= last then seqNo - last else seqNo + U32 - last;
    0x4000_0000 < ahead < U32 - 0x4000_0000
  }

  /** Flags set where `on` says so. */
  function Marked(flags: nat, bit: nat, on: bool): nat
    requires bit > 0
  {
    if on then SetBit(flags, bit) else flags
  }

  lemma MarksOne(x: nat, b: nat, on: bool, c: nat)
    requires b in BITS && c in BITS
    ensures Bit(Marked(x, b, on), c) <==> (on && b == c) || Bit(x, c)
  {
    SetsOne(x, b, c);
  }

  lemma JumpIs(st: ConnState, dir: Dir, r: IndexedRecord)
    requires RawTyped(st, r)
    ensures MarkJump(st, dir, r).anomalyFlags
         == Marked(st.anomalyFlags, SEQ_GAP, !r.rec.syn && Jumps(LastRaw(st, dir), r.rec.seqNo))
  {
    DistanceIs(LastRaw(st, dir), r.rec.seqNo, StreamOf(st, dir));
  }

  lemma DistanceIs(last: nat, seqNo: nat, s: Stream)
    requires last < U32 && seqNo < U32 && s.lastRaw == last
    ensures var d := Diff(s, seqNo); Max(d, -d) > 0x4000_0000 <==> Jumps(last, seqNo)
  {}

  lemma ExchangeMarks(p: Params, t: Txns, st: ConnState, h: nat, dir: Dir, r: IndexedRecord) returns (again: bool)
    ensures Exchange(p, t, st, h, dir, r).1.anomalyFlags
         == Marked(Marked(Marked(st.anomalyFlags, SYN_SEEN, r.rec.syn && dir == C2S), FIN_SEEN, r.rec.fin),
                   RETRANS, again)
    ensures dir == S2C ==> !again
  {
    var fed := Feed(StreamOf(st, dir), r.rec.seqNo, r.rec.origLen);
    var st1 := Count(Handshake(st, dir, r), dir, r);
    if dir == C2S {
      again := RequestMarks(p, t, st1, h, r, fed);
    } else {
      again := false;
      ResponseFrame(p, t, st1, h, r, fed, StreamC(st));
    }
  }

  lemma RequestMarks(p: Params, t: Txns, st: ConnState, h: nat, r: IndexedRecord, fed: Fed) returns (again: bool)
    ensures Request(p, t, st, h, r, fed).1.anomalyFlags == Marked(st.anomalyFlags, RETRANS, again)
  {
    var end := SatAdd(fed.absStart, fed.novel);
    again := r.rec.origLen != 0 && !(fed.novel > 0 && end > st.consumedAckS);
  }

  /** Which flags a record sets: RESET, SYN_SEEN, FIN_SEEN and SEQ_GAP each exactly for its own reason,
      RETRANS for client packets only; no flag is ever cleared, and no other one is set. */
  lemma FlagsExactly(p: Params, t: Txns, st: ConnState, h: nat, dir: Dir, r: IndexedRecord, c: nat)
    requires RawTyped(st, r) && c in BITS
    ensures var flags := Process(p, t, st, h, dir, r).1.anomalyFlags;
            var was := Bit(st.anomalyFlags, c);
            && (c == RESET ==> (Bit(flags, c) <==> was || r.rec.rst))
            && (c == SYN_SEEN ==> (Bit(flags, c) <==> was || (r.rec.syn && dir == C2S && !r.rec.rst)))
            && (c == FIN_SEEN ==> (Bit(flags, c) <==> was || (r.rec.fin && !r.rec.rst)))
            && (c == SEQ_GAP ==> (Bit(flags, c) <==> was || (!r.rec.syn && Jumps(LastRaw(st, dir), r.rec.seqNo))))
            && (c in {HALF_OPEN, QR_UNMATCHED} ==> (Bit(flags, c) <==> was))
            && (c == RETRANS ==> (was ==> Bit(flags, c)) && (dir == S2C || r.rec.rst ==> (Bit(flags, c) <==> was)))
  {
    var (t1, st1) := Rebase(t, st, h, dir, r);
    var jump := !r.rec.syn && Jumps(LastRaw(st, dir), r.rec.seqNo);
    JumpIs(st, dir, r);
    MarksOne(st.anomalyFlags, SEQ_GAP, jump, c);
    var flags := st1.anomalyFlags;
    assert flags == Marked(st.anomalyFlags, SEQ_GAP, jump);
    if r.rec.rst {
      SetsOne(flags, RESET, c);
    } else {
      var again := ExchangeMarks(p, t1, st1, h, dir, r);
      ThreeMarks(flags, r.rec.syn && dir == C2S, r.rec.fin, again, c);
    }
  }

  lemma ThreeMarks(x: nat, syn: bool, fin: bool, again: bool, c: nat)
    requires c in BITS
    ensures Bit(Marked(Marked(Marked(x, SYN_SEEN, syn), FIN_SEEN, fin), RETRANS, again), c)
       <==> (syn && c == SYN_SEEN) || (fin && c == FIN_SEEN) || (again && c == RETRANS) || Bit(x, c)
  {
    MarksOne(x, SYN_SEEN, syn, c);
    MarksOne(Marked(x, SYN_SEEN, syn), FIN_SEEN, fin, c);
    MarksOne(Marked(Marked(x, SYN_SEEN, syn), FIN_SEEN, fin), RETRANS, again, c);
  }

  // ---- Endpoints ----

  /** The connection hash of the record with the given end as client. */
  ghost predicate HashedAs(p: Params, r: IndexedRecord, h: nat, dir: Dir) {
    var x := r.rec;
    if dir == C2S then h == p.hash(r.devId, x.srcIp, x.srcPort, x.dstIp, x.dstPort, x.proto % 256)
    else h == p.hash(r.devId, x.dstIp, x.dstPort, x.srcIp, x.srcPort, x.proto % 256)
  }

  /** The two records belong to one device, protocol and pair of endpoints; `same` says whether they
      travel in the same direction. */
  predicate SameEnds(a: IndexedRecord, b: IndexedRecord, same: bool) {
    && a.devId == b.devId && a.rec.proto == b.rec.proto
    && (if same then a.rec.srcIp == b.rec.srcIp && a.rec.srcPort == b.rec.srcPort
                     && a.rec.dstIp == b.rec.dstIp && a.rec.dstPort == b.rec.dstPort
        else a.rec.srcIp == b.rec.dstIp && a.rec.srcPort == b.rec.dstPort
             && a.rec.dstIp == b.rec.srcIp && a.rec.dstPort == b.rec.srcPort)
  }

  /** A record is a client's packet on the connection it names itself, when that is known or neither is;
      a server's on the one its reverse names otherwise. */
  lemma LocateExactly(p: Params, b: Batch, r: IndexedRecord)
    ensures var (h, dir) := Locate(p, b, r);
            && HashedAs(p, r, h, dir)
            && (dir == S2C <==> (forall f :: HashedAs(p, r, f, C2S) ==> !Known(b, f))
                                && exists k :: HashedAs(p, r, k, S2C) && Known(b, k))
  {
    assert HashedAs(p, r, ForwardHash(p, r), C2S) && HashedAs(p, r, BackwardHash(p, r), S2C);
  }

  lemma IngestKnows(p: Params, b: Batch, r: IndexedRecord)
    requires r.rec.proto == TCP
    ensures var b' := Ingest(p, b, r); Known(b', Locate(p, b, r).0) && forall h :: Known(b, h) ==> Known(b', h)
    ensures forall h :: Known(Ingest(p, b, r), h) ==> Known(b, h) || h == Locate(p, b, r).0
  {
    var (h, dir) := Locate(p, b, r);
    var t := Logged(b.t, r);
    ProcessByPlan(p, t, StateFor(b, h, r), h, dir, r);
    PlanGrows(t, Process(p, t, StateFor(b, h, r), h, dir, r).0, h, r);
  }

  /** A packet between the same endpoints as one just ingested is found on the same connection: in the
      same direction as that one or in the other, as long as their two hashes differ. */
  lemma NextIsLocated(p: Params, b: Batch, a: IndexedRecord, r: IndexedRecord, same: bool)
    requires a.rec.proto == TCP && SameEnds(a, r, same)
    requires !(Known(b, ForwardHash(p, a)) && Known(b, BackwardHash(p, a))) && ForwardHash(p, a) != BackwardHash(p, a)
    ensures var (h, dir) := Locate(p, b, a);
            Locate(p, Ingest(p, b, a), r) == (h, if same then dir else if dir == C2S then S2C else C2S)
  {
    IngestKnows(p, b, a);
  }

  /** A connection seen for the first time: the sender is the client, and without SYN it is marked as
      joined half way. */
  lemma FreshExactly(p: Params, b: Batch, r: IndexedRecord)
    requires !Known(b, ForwardHash(p, r)) && !Known(b, BackwardHash(p, r))
    ensures var (h, dir) := Locate(p, b, r);
            var st := StateFor(b, h, r);
            && dir == C2S && st.state == HALF_OPEN_STATE && !ActiveC(st) && !ActiveS(st)
            && st.clientIp == r.rec.srcIp && st.clientPort == r.rec.srcPort
            && st.serverIp == r.rec.dstIp && st.serverPort == r.rec.dstPort && st.proto == r.rec.proto % 256
            && st.firstTs == st.lastTs == r.rec.ts && !Bound(st)
            && (forall c :: c in BITS ==> (Bit(st.anomalyFlags, c) <==> c == HALF_OPEN && !r.rec.syn))
  {}

  // ---- RECORD_TS ----

  /** The row of a record that the epoch did not have. */
  ghost predicate RowOf(e: Epoch, r: IndexedRecord) {
    var key, x := KRecord(r.rec.ts, r.Idx()), r.rec;
    key in e
    && e[key] == VRecord(Summary(x.proto % 256, x.flagByte, x.srcIp, x.dstIp, x.srcPort, x.dstPort, |x.payload|))
  }

  /** The record of another protocol than TCP, number 6, changes nothing but its own RECORD_TS row; a TCP record
      always leaves its connection known. */
  lemma IngestTracks(p: Params, b: Batch, r: IndexedRecord)
    ensures var b', h := Ingest(p, b, r), Locate(p, b, r).0;
            && (Known(b', h) <==> Known(b, h) || r.rec.proto == 6)
            && (r.rec.proto != 6 ==>
                 && b' == b.(t := b.t.(epoch := b'.t.epoch)) && Sub(b.t.epoch, b'.t.epoch)
                 && b'.t.epoch.Keys == b.t.epoch.Keys + {KRecord(r.rec.ts, r.Idx())})
  {
    if r.rec.proto == TCP {
      IngestKnows(p, b, r);
    }
  }

  lemma IngestLogs(p: Params, b: Batch, r: IndexedRecord)
    requires KRecord(r.rec.ts, r.Idx()) !in b.t.epoch
    ensures RowOf(Ingest(p, b, r).t.epoch, r)
  {
    var t := Logged(b.t, r);
    if r.rec.proto == TCP {
      var (h, dir) := Locate(p, b, r);
      ProcessByPlan(p, t, StateFor(b, h, r), h, dir, r);
      PlanGrows(t, Process(p, t, StateFor(b, h, r), h, dir, r).0, h, r);
    }
  }
}
