/** The ledger, the hot-file writer and the batch pipeline as objects updated in place. */
module BatchPipelines {
  import opened Common
  import opened Ordering
  import opened Store
  import opened Qr
  import opened QrMatchers
  import opened Batching

  /** The `files` table: file rows, their state and watermark. */
  class Ledger {
    var files: map<nat, FileRec>
    var nextId: nat

    ghost function Value(): Books reads this { Books(files, nextId) }

    constructor ()
      ensures Value() == Books(map[], 1)
    {
      files, nextId := map[], 1;
    }

    method InsertFile(dev: nat, seqNo: nat) returns (id: nat)
      modifies this
      ensures id == old(nextId)
      ensures Value() == Books(old(files)[id := FileRec(dev, seqNo, 0, true)], id + 1)
    {
      id := nextId;
      files := files[id := FileRec(dev, seqNo, 0, true)];
      nextId := nextId + 1;
    }

    /** A watermark only moves forward; otherwise the update is refused. */
    method AdvanceWatermark(f: nat, offset: nat) returns (ok: bool)
      modifies this
      ensures ok == (f in old(files) && old(files)[f].watermark <= offset) && nextId == old(nextId)
      ensures files == if ok then old(files)[f := old(files)[f].(watermark := offset)] else old(files)
    {
      ok := f in files && files[f].watermark <= offset;
      if ok {
        files := files[f := files[f].(watermark := offset)];
      }
    }

    method SetSealed(f: nat)
      modifies this
      ensures Value() == Closed(old(Value()), f)
    {
      if f in files {
        files := files[f := files[f].(open := false)];
      }
    }

    /** The newest open file of a device. */
    method OpenFileForDev(cfg: Config) returns (f: Option<nat>)
      ensures f.Some? ==> NewestOpen(cfg, Value(), f.value)
      ensures f.None? ==> forall g :: g in files && files[g].dev == cfg.dev ==> !files[g].open
    {
      var open: set<nat> := set g: nat | g in files && files[g].dev == cfg.dev && files[g].open;
      if open == {} {
        assert forall g :: g in files && files[g].dev == cfg.dev && files[g].open ==> g in open;
        return None;
      }
      NatOrder();
      var last := Last(NatLt, open);
      forall g | g in files && files[g].dev == cfg.dev && files[g].open ensures g <= last {
        assert g in open;
        assert g != last ==> NatLt(g, last);
      }
      f := Some(last);
    }
  }

  /** The append-only hot file of one device. */
  class HotFileWriter {
    const ledger: Ledger
    const cfg: Config
    var fileId: nat
    var segmentSeq: nat
    var offset: nat

    ghost function Value(): Hot reads this { Hot(fileId, segmentSeq, offset) }

    constructor Open(ledger: Ledger, cfg: Config, seqNo: nat)
      modifies ledger
      ensures this.ledger == ledger && this.cfg == cfg
      ensures (Value(), ledger.Value()) == OpenNew(cfg, old(ledger.Value()), seqNo)
    {
      this.ledger, this.cfg := ledger, cfg;
      segmentSeq, offset := seqNo, 0;
      fileId := ledger.nextId;
      new;
      var id := ledger.InsertFile(cfg.dev, seqNo);
    }

    /** Continues the open file at its watermark. */
    constructor Recover(ledger: Ledger, cfg: Config, f: nat)
      requires f in ledger.files
      ensures this.ledger == ledger && this.cfg == cfg
      ensures Value() == Hot(f, ledger.files[f].seqNo, ledger.files[f].watermark)
    {
      this.ledger, this.cfg := ledger, cfg;
      fileId, segmentSeq, offset := f, ledger.files[f].seqNo, ledger.files[f].watermark;
    }

    method Rotate()
      modifies this, ledger
      ensures (Value(), ledger.Value()) == Batching.Rotate(cfg, old(Value()), old(ledger.Value()))
    {
      ledger.SetSealed(fileId);
      segmentSeq := segmentSeq + 1;
      fileId := ledger.InsertFile(cfg.dev, segmentSeq);
      offset := 0;
    }

    method Append(rec: WalRecord) returns (f: nat, off: nat)
      modifies this, ledger
      ensures var (hot, books) := Placed(cfg, old(Value()), old(ledger.Value()), rec);
              && Value() == hot.(offset := hot.offset + RecLen(rec)) && ledger.Value() == books
              && f == hot.fileId && off == hot.offset % U32
    {
      var len := RECORD_HEADER + |rec.payload|;
      if offset + len > cfg.segmentSize {
        Rotate();
      }
      off := offset % U32;
      offset := offset + len;
      f := fileId;
    }
  }

  /** `stage_lmdb`: one matcher, one pair of transactions. */
  method StageLmdb(reg: DbRegistry, records: seq<IndexedRecord>, params: Params)
    modifies reg
    ensures reg.Value() == RunBatch(params, old(reg.live), old(reg.epoch), records)
    ensures reg.trail == old(reg.trail) + [Txns(old(reg.live), reg.epoch), reg.Value()]
  {
    var m := new QrMatcher(params, reg);
    ghost var goal := IngestAll(params, m.Value(), records);
    assert records[0..] == records;
    for i := 0 to |records|
      invariant m.params == params && m.reg == reg && m.reg as object != m
      invariant reg.Value() == old(reg.Value()) && reg.trail == old(reg.trail)
      invariant IngestAll(params, m.Value(), records[i..]) == goal
    {
      assert records[i..][1..] == records[i + 1..];
      m.Ingest(records[i]);
    }
    m.Commit();
  }

  /** Highest end per file of the batch. */
  method CollectEnds(records: seq<IndexedRecord>) returns (ends: map<nat, nat>)
    ensures ends == Ends(records)
  {
    ends := map[];
    for i := 0 to |records|
      invariant ends == Ends(records[..i])
    {
      assert records[..i + 1][..i] == records[..i];
      var r := records[i];
      ends := ends[r.fileId := Max(if r.fileId in ends then ends[r.fileId] else 0, EndOf(r))];
    }
    assert records[..|records|] == records;
  }

  /** `stage_sqlite`: the watermark of every file in the batch moves to the batch's last byte there. */
  method StageSqlite(ledger: Ledger, records: seq<IndexedRecord>) returns (ok: bool)
    modifies ledger
    ensures ok <==> MayAdvance(old(ledger.Value()), Ends(records))
    ensures ok ==> ledger.Value() == Advanced(old(ledger.Value()), Ends(records))
  {
    var ends := CollectEnds(records);
    ghost var before := ledger.Value();
    var todo := ends.Keys;
    ghost var done: map<nat, nat> := map[];
    while todo != {}
      invariant Partway(before, ends, todo, done, ledger.Value())
      decreases |todo|
    {
      var f :| f in todo;
      AdvanceStep(before, ends, todo, done, f);
      var moved := ledger.AdvanceWatermark(f, ends[f]);
      if !moved {
        return false;
      }
      todo := todo - {f};
      done := done[f := ends[f]];
    }
    assert done == ends;
    ok := true;
  }

  /** The files of `done` are advanced, those of `todo` are not yet. */
  ghost predicate Partway(before: Books, ends: map<nat, nat>, todo: set<nat>, done: map<nat, nat>, now: Books) {
    && todo <= ends.Keys && done.Keys == ends.Keys - todo
    && (forall f :: f in done ==> done[f] == ends[f])
    && MayAdvance(before, done) && now == Advanced(before, done)
  }

  lemma AdvanceStep(before: Books, ends: map<nat, nat>, todo: set<nat>, done: map<nat, nat>, f: nat)
    requires f in todo && Partway(before, ends, todo, done, Advanced(before, done))
    ensures var now := Advanced(before, done);
            && (f in now.files <==> f in before.files)
            && (f in before.files ==>
                 && now.files[f] == before.files[f]
                 && (before.files[f].watermark <= ends[f] ==>
                      Partway(before, ends, todo - {f}, done[f := ends[f]],
                              now.(files := now.files[f := now.files[f].(watermark := ends[f])]))))
  {
    if f in before.files {
      var now := Advanced(before, done);
      assert Advanced(before, done[f := ends[f]]).files == now.files[f := now.files[f].(watermark := ends[f])];
    }
  }

  /** No file of the device is open. */
  ghost predicate NoneOpen(cfg: Config, books: Books) {
    forall g :: g in books.files && books.files[g].dev == cfg.dev ==> !books.files[g].open
  }

  class BatchPipeline {
    const ledger: Ledger
    const cfg: Config
    const hot: HotFileWriter
    var pending: seq<IndexedRecord>

    ghost predicate Wired() reads this, hot { hot.ledger == ledger && hot.cfg == cfg }

    ghost function Value(reg: DbRegistry): Pipe
      reads this, hot, ledger, reg
    {
      Pipe(hot.Value(), pending, ledger.Value(), reg.Value())
    }

    ghost predicate Valid(reg: DbRegistry)
      reads this, hot, ledger, reg
    {
      Wired() && Ok(cfg, Value(reg))
    }

    /** A device seen for the first time. */
    constructor (ledger: Ledger, cfg: Config, seqNo: nat, reg: DbRegistry)
      requires forall f :: f in ledger.files ==> f < ledger.nextId
      requires forall f :: f in ledger.files && ledger.files[f].dev == cfg.dev ==> !ledger.files[f].open
      modifies ledger
      ensures this.ledger == ledger && this.cfg == cfg && fresh(hot) && Valid(reg) && pending == []
      ensures (hot.Value(), ledger.Value()) == OpenNew(cfg, old(ledger.Value()), seqNo)
    {
      var writer := new HotFileWriter.Open(ledger, cfg, seqNo);
      this.ledger, this.cfg, hot, pending := ledger, cfg, writer, [];
    }

    /** After a stop: the newest open file of the device is continued at its watermark; a device
        without open file gets a new one. */
    constructor OpenOrRecover(ledger: Ledger, cfg: Config, seqNo: nat, reg: DbRegistry)
      modifies ledger
      ensures this.ledger == ledger && this.cfg == cfg && fresh(hot) && Wired() && pending == []
      ensures forall f :: NewestOpen(cfg, old(ledger.Value()), f) ==>
                Value(reg) == Reopened(old(ledger.Value()), reg.Value(), f)
      ensures NoneOpen(cfg, old(ledger.Value())) ==>
                (hot.Value(), ledger.Value()) == OpenNew(cfg, old(ledger.Value()), seqNo)
      ensures Resumable(cfg, old(ledger.Value())) ==> Valid(reg) && Room(cfg, Value(reg))
    {
      this.ledger, this.cfg, pending := ledger, cfg, [];
      var f := ledger.OpenFileForDev(cfg);
      var writer: HotFileWriter;
      if f.Some? {
        writer := new HotFileWriter.Recover(ledger, cfg, f.value);
      } else {
        writer := new HotFileWriter.Open(ledger, cfg, seqNo);
      }
      hot := writer;
      new;
      if f.Some? && Resumable(cfg, old(ledger.Value())) {
        ReopenedOk(cfg, ledger.Value(), reg.Value(), f.value);
      }
    }

    /** Takes the pending records first, then commits them: stores, then watermark. */
    method FlushAll(reg: DbRegistry)
      requires Valid(reg)
      modifies this, ledger, reg
      ensures Value(reg) == Flush(cfg, old(Value(reg))) && Valid(reg)
    {
      FlushMovesWatermark(cfg, Value(reg));
      if pending == [] {
        return;
      }
      var records := pending;
      pending := [];
      StageLmdb(reg, records, cfg.params);
      var ok := StageSqlite(ledger, records);
    }

    method PushRecord(reg: DbRegistry, rec: WalRecord)
      requires Valid(reg) && Room(cfg, Value(reg)) && cfg.segmentSize <= U32
      modifies this, hot, ledger, reg
      ensures Value(reg) == Push(cfg, old(Value(reg)), rec) && Valid(reg) && Room(cfg, Value(reg))
    {
      BarrierOk(cfg, Value(reg), rec);
      MakeRoom(reg, rec);
      AppendOk(cfg, Value(reg), rec);
      AppendPending(reg, rec);
      if |pending| >= cfg.batchSize {
        FlushAll(reg);
      }
    }

    /** The file-boundary barrier: commit before the file is closed. */
    method MakeRoom(reg: DbRegistry, rec: WalRecord)
      requires Valid(reg)
      modifies this, hot, ledger, reg
      ensures Value(reg) == Barrier(cfg, old(Value(reg)), rec) && Wired()
    {
      if hot.offset + (RECORD_HEADER + |rec.payload|) > cfg.segmentSize && hot.offset > 0 {
        FlushAll(reg);
        hot.Rotate();
      }
    }

    method AppendPending(reg: DbRegistry, rec: WalRecord)
      requires Wired()
      modifies this, hot, ledger
      ensures Value(reg) == Append(cfg, old(Value(reg)), rec) && Wired()
    {
      var f, off := hot.Append(rec);
      pending := pending + [IndexedRecord(cfg.dev, f, off, rec)];
    }

    method FinishAll(reg: DbRegistry)
      requires Valid(reg)
      modifies this, hot, ledger, reg
      ensures Value(reg) == Batching.Finish(cfg, old(Value(reg))) && Valid(reg) && pending == []
    {
      FlushMovesWatermark(cfg, Value(reg));
      FlushAll(reg);
      RotateOk(cfg, Value(reg));
      hot.Rotate();
    }
  }
}
