/** Packets counted over all connections. A batch adds its ordinary TCP records to them, so a batch
    that has any does not leave the live store as it is when it is replayed. */
module QrCounting {
  import opened Common
  import opened Connection
  import opened Store
  import opened Qr
  import opened Sums
  import opened QrBookkeeping
  import opened QrLockstep
  import opened QrLiveRuns

  predicate Ordinary(r: IndexedRecord) { r.rec.proto == TCP && !r.rec.rst }

  function OrdinaryIn(rs: seq<IndexedRecord>): nat {
    if rs == [] then 0 else (if Ordinary(rs[0]) then 1 else 0) + OrdinaryIn(rs[1..])
  }

  function PacketsOf(h: nat, st: ConnState): nat { st.pktsC + st.pktsS }

  /** Packets counted over all connections. */
  ghost function Packets(conn: map<nat, ConnState>): nat { SumBy(conn, PacketsOf) }

  /** `b` is `a` plus `n`, modulo 2^64. */
  predicate Adds(a: nat, b: nat, n: nat) { b % U64 == (a + n) % U64 }

  lemma AddsNone(a: nat)
    ensures Adds(a, a, 0)
  {}

  lemma AddsThen(a: nat, b: nat, c: nat, m: nat, n: nat)
    requires Adds(a, b, m) && Adds(b, c, n)
    ensures Adds(a, c, m + n)
  {}

  lemma WrapAdds(x: nat)
    ensures Adds(x, Wrap64(x + 1), 1)
  {}

  lemma AddsBeside(x: nat, y: nat, n: nat, z: nat)
    requires Adds(x, y, n)
    ensures Adds(x + z, y + z, n)
  {}

  /** One record counts on its connection: one packet, or none for a reset. */
  lemma CountOne(st: ConnState, u: ConnState, h: nat, client: bool, moved: bool)
    requires u.pktsC == (if moved && client then Wrap64(st.pktsC + 1) else st.pktsC)
    requires u.pktsS == (if moved && !client then Wrap64(st.pktsS + 1) else st.pktsS)
    ensures Adds(PacketsOf(h, st), PacketsOf(h, u), if moved then 1 else 0)
  {
    if !moved {
      AddsNone(PacketsOf(h, st));
    } else if client {
      WrapAdds(st.pktsC);
      AddsBeside(st.pktsC, u.pktsC, 1, st.pktsS);
    } else {
      WrapAdds(st.pktsS);
      AddsBeside(st.pktsS, u.pktsS, 1, st.pktsC);
    }
  }

  /** The row a record starts from, as the commit would count it. */
  lemma StartCount(p: Params, b: Batch, h: nat, r: IndexedRecord)
    ensures PacketsOf(h, StateFor(b, h, r)) == At(Committed(b), PacketsOf, h)
  {
    CommittedView(b, h);
  }

  lemma ProcessCounts(p: Params, t: Txns, st: ConnState, h: nat, dir: Dir, r: IndexedRecord)
    ensures Adds(PacketsOf(h, st), PacketsOf(h, After(p, t, st, h, dir, r)), if r.rec.rst then 0 else 1)
  {
    TrackedExactly(p, t, st, h, dir, r);
    CountOne(st, After(p, t, st, h, dir, r), h, dir == C2S, !r.rec.rst);
  }

  /** One TCP record writes one connection row, whose count moved by one, or by none for a reset. */
  lemma IngestRow(p: Params, b: Batch, r: IndexedRecord) returns (h: nat, row: ConnState)
    requires r.rec.proto == TCP
    ensures Committed(Ingest(p, b, r)) == Committed(b)[h := row]
    ensures Adds(At(Committed(b), PacketsOf, h), PacketsOf(h, row), if r.rec.rst then 0 else 1)
  {
    var at := Locate(p, b, r);
    h := at.0;
    var t, st := Logged(b.t, r), StateFor(b, h, r);
    var out := Process(p, t, st, h, at.1, r);
    ProcessCounts(p, t, st, h, at.1, r);
    CommittedStep(p, b, r);
    StartCount(p, b, h, r);
    row := Recounted(out.1, out.0.live.pending, h);
  }

  lemma PutAdds(m: map<nat, ConnState>, h: nat, row: ConnState, n: nat)
    requires Adds(At(m, PacketsOf, h), PacketsOf(h, row), n)
    ensures Adds(Packets(m), Packets(m[h := row]), n)
  {
    SumPut(m, PacketsOf, h, row);
    AddsBeside(At(m, PacketsOf, h), PacketsOf(h, row), n, Packets(m) - At(m, PacketsOf, h));
  }

  lemma IngestCounts(p: Params, b: Batch, r: IndexedRecord) returns (conn: map<nat, ConnState>)
    ensures conn == Committed(Ingest(p, b, r))
    ensures Adds(Packets(Committed(b)), Packets(conn), if Ordinary(r) then 1 else 0)
  {
    if r.rec.proto == TCP {
      var h, row := IngestRow(p, b, r);
      conn := Committed(b)[h := row];
      PutAdds(Committed(b), h, row, if Ordinary(r) then 1 else 0);
    } else {
      OtherProtocol(p, b, r);
      conn := Committed(b);
      AddsNone(Packets(conn));
    }
  }

  lemma OtherProtocol(p: Params, b: Batch, r: IndexedRecord)
    requires r.rec.proto != TCP
    ensures Committed(Ingest(p, b, r)) == Committed(b)
  {}

  lemma {:induction false} IngestAllCounts(p: Params, b: Batch, rs: seq<IndexedRecord>)
    returns (conn: map<nat, ConnState>)
    ensures conn == Committed(IngestAll(p, b, rs))
    ensures Adds(Packets(Committed(b)), Packets(conn), OrdinaryIn(rs))
    decreases |rs|
  {
    if rs == [] {
      conn := Committed(b);
      AddsNone(Packets(conn));
    } else {
      var one := IngestCounts(p, b, rs[0]);
      conn := IngestAllCounts(p, Ingest(p, b, rs[0]), rs[1..]);
      OrdinaryStep(rs, Packets(Committed(b)), Packets(one), Packets(conn));
    }
  }

  lemma OrdinaryStep(rs: seq<IndexedRecord>, a: nat, b: nat, c: nat)
    requires rs != [] && Adds(a, b, if Ordinary(rs[0]) then 1 else 0) && Adds(b, c, OrdinaryIn(rs[1..]))
    ensures Adds(a, c, OrdinaryIn(rs))
  {
    AddsThen(a, b, c, if Ordinary(rs[0]) then 1 else 0, OrdinaryIn(rs[1..]));
  }

  /** A batch adds its ordinary records to the packets counted, modulo 2^64. */
  lemma BatchCountsPackets(p: Params, live: Live, epoch: Epoch, rs: seq<IndexedRecord>)
    ensures Adds(Packets(live.conn), Packets(RunBatch(p, live, epoch, rs).live.conn), OrdinaryIn(rs))
  {
    CommittedBegin(live, epoch);
    var conn := IngestAllCounts(p, Begin(live, epoch), rs);
  }

  lemma Grown(a: nat, n: nat)
    requires 0 < n < U64
    ensures !Adds(a, a, n)
  {}

  /** Whatever the hashes: a batch with an ordinary TCP record changes the live store it is replayed
      against, so the replay does not end where the first run did. */
  lemma BatchReplayCounts(p: Params, live: Live, epoch: Epoch, rs: seq<IndexedRecord>)
    requires 0 < OrdinaryIn(rs) < U64
    ensures var t := RunBatch(p, live, epoch, rs); RunBatch(p, t.live, t.epoch, rs).live != t.live
  {
    var t := RunBatch(p, live, epoch, rs);
    BatchCountsPackets(p, t.live, t.epoch, rs);
    Grown(Packets(t.live.conn), OrdinaryIn(rs));
  }
}
