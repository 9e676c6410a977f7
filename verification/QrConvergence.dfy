/** What lockstep gives for whole batches: convergence after crashes between the two commits, and
    independence of the batch cuts. */
module QrConvergence {
  import opened Store
  import opened Qr
  import opened QrLockstep

  /** Lockstep from any epoch store between the crash-free run's start and its end: the same live
      rows and exactly the crash-free epoch come out. */
  lemma ReplayFromBetween(p: Params, live: Live, epoch: Epoch, between: Epoch, rs: seq<IndexedRecord>)
    requires AllPending(live.pair)
    requires Sub(epoch, between) && Sub(between, RunBatch(p, live, epoch, rs).epoch)
    ensures RunBatch(p, live, between, rs) == RunBatch(p, live, epoch, rs)
  {
    var bound := RunBatch(p, live, epoch, rs).epoch;
    var a, b := Begin(live, epoch), Begin(live, between);
    assert Committed(a) == Committed(b);
    IngestAllGrows(p, a, rs);
    IngestAllSim(p, a, b, bound, rs);
    SubAntisymmetric(RunBatch(p, live, between, rs).epoch, bound);
  }

  /** One attempt of a batch: it dies before the epoch commit, between the two commits, or completes. */
  datatype Crash = BeforeEpoch | BetweenCommits

  ghost function AfterCrash(p: Params, live: Live, epoch: Epoch, rs: seq<IndexedRecord>, c: Crash): Epoch {
    if c == BeforeEpoch then epoch else RunBatch(p, live, epoch, rs).epoch
  }

  /** The epoch store after a series of failed attempts; live is untouched by all of them. */
  ghost function AfterCrashes(p: Params, live: Live, epoch: Epoch, rs: seq<IndexedRecord>, cs: seq<Crash>): Epoch
    decreases |cs|
  {
    if cs == [] then epoch
    else AfterCrashes(p, live, AfterCrash(p, live, epoch, rs, cs[0]), rs, cs[1..])
  }

  /** After any number of crashes at either point, the batch that finally completes leaves exactly
      the live and epoch stores of the crash-free run. */
  lemma {:induction false} CrashesConverge(p: Params, live: Live, epoch: Epoch, rs: seq<IndexedRecord>, cs: seq<Crash>)
    requires AllPending(live.pair)
    ensures RunBatch(p, live, AfterCrashes(p, live, epoch, rs, cs), rs) == RunBatch(p, live, epoch, rs)
    decreases |cs|
  {
    if cs != [] {
      var e1 := AfterCrash(p, live, epoch, rs, cs[0]);
      IngestAllGrows(p, Begin(live, epoch), rs);
      ReplayFromBetween(p, live, epoch, e1, rs);
      CrashesConverge(p, live, e1, rs, cs[1..]);
    }
  }

  // ---- Batch boundaries ----

  lemma {:induction false} IngestAllConcat(p: Params, b: Batch, xs: seq<IndexedRecord>, ys: seq<IndexedRecord>)
    ensures IngestAll(p, b, xs + ys) == IngestAll(p, IngestAll(p, b, xs), ys)
    decreases |xs|
  {
    if xs == [] {
      assert xs + ys == ys;
    } else {
      assert (xs + ys)[1..] == xs[1..] + ys;
      IngestAllConcat(p, Ingest(p, b, xs[0]), xs[1..], ys);
    }
  }

  lemma {:induction false} StaysPending(p: Params, b: Batch, rs: seq<IndexedRecord>)
    requires AllPending(b.t.live.pair)
    ensures AllPending(IngestAll(p, b, rs).t.live.pair)
  {
    var bound := IngestAll(p, b, rs).t.epoch;
    IngestAllGrows(p, b, rs);
    IngestAllSim(p, b, b, bound, rs);
  }

  /** Cutting a batch in two changes neither store. */
  lemma CutBatch(p: Params, live: Live, epoch: Epoch, xs: seq<IndexedRecord>, ys: seq<IndexedRecord>)
    requires AllPending(live.pair)
    ensures var first := RunBatch(p, live, epoch, xs);
            && AllPending(first.live.pair)
            && RunBatch(p, first.live, first.epoch, ys) == RunBatch(p, live, epoch, xs + ys)
  {
    var mid := IngestAll(p, Begin(live, epoch), xs);
    var first := RunBatch(p, live, epoch, xs);
    StaysPending(p, Begin(live, epoch), xs);
    IngestAllConcat(p, Begin(live, epoch), xs, ys);
    var restart := Begin(first.live, first.epoch);
    assert Committed(restart) == Committed(mid);
    var bound := IngestAll(p, mid, ys).t.epoch;
    IngestAllGrows(p, mid, ys);
    IngestAllSim(p, mid, restart, bound, ys);
    SubAntisymmetric(IngestAll(p, restart, ys).t.epoch, bound);
  }

  /** Batches one after the other. */
  ghost function RunBatches(p: Params, live: Live, epoch: Epoch, batches: seq<seq<IndexedRecord>>): Txns
    decreases |batches|
  {
    if batches == [] then Txns(live, epoch)
    else
      var t := RunBatch(p, live, epoch, batches[0]);
      RunBatches(p, t.live, t.epoch, batches[1..])
  }

  ghost function Flatten<T>(ss: seq<seq<T>>): seq<T>
    decreases |ss|
  {
    if ss == [] then [] else ss[0] + Flatten(ss[1..])
  }

  ghost function Singles<T>(s: seq<T>): seq<seq<T>>
    decreases |s|
  {
    if s == [] then [] else [[s[0]]] + Singles(s[1..])
  }

  lemma EmptyBatch(p: Params, live: Live, epoch: Epoch)
    ensures RunBatch(p, live, epoch, []) == Txns(live, epoch)
  {
    assert Committed(Begin(live, epoch)) == live.conn;
  }

  lemma {:induction false} BatchesAreOneBatch(p: Params, live: Live, epoch: Epoch, batches: seq<seq<IndexedRecord>>)
    requires AllPending(live.pair)
    ensures RunBatches(p, live, epoch, batches) == RunBatch(p, live, epoch, Flatten(batches))
    decreases |batches|
  {
    if batches == [] {
      EmptyBatch(p, live, epoch);
    } else {
      var t := RunBatch(p, live, epoch, batches[0]);
      CutBatch(p, live, epoch, batches[0], Flatten(batches[1..]));
      BatchesAreOneBatch(p, t.live, t.epoch, batches[1..]);
    }
  }

  lemma {:induction false} FlattenSingles<T>(s: seq<T>)
    ensures Flatten(Singles(s)) == s
    decreases |s|
  {
    if s != [] {
      FlattenSingles(s[1..]);
      var one := [[s[0]]];
      assert Singles(s)[0] == [s[0]] && Singles(s)[1..] == Singles(s[1..]);
    }
  }

  /** Any cut of a record sequence into batches ends in the stores of the one-record-per-batch run. */
  lemma CutsDoNotMatter(p: Params, live: Live, epoch: Epoch, batches: seq<seq<IndexedRecord>>)
    requires AllPending(live.pair)
    ensures RunBatches(p, live, epoch, batches) == RunBatches(p, live, epoch, Singles(Flatten(batches)))
  {
    BatchesAreOneBatch(p, live, epoch, batches);
    FlattenSingles(Flatten(batches));
    BatchesAreOneBatch(p, live, epoch, Singles(Flatten(batches)));
  }
}
