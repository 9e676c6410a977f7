/** The batch pipeline as a function on values: hot-file placement, the file-boundary barrier, the
    two-stage commit with its watermark, and recovery by truncation and replay. */
module Batching {
  import opened Common
  import opened Store
  import opened Qr
  import opened QrConvergence
  import opened QrLockstep

  const RECORD_HEADER := 64

  function RecLen(rec: WalRecord): nat { RECORD_HEADER + |rec.payload| }

  datatype Config = Config(params: Params, dev: nat, segmentSize: nat, batchSize: nat)

  /** A ledger row of a hot file. */
  datatype FileRec = FileRec(dev: nat, seqNo: nat, watermark: nat, open: bool)

  datatype Books = Books(files: map<nat, FileRec>, nextId: nat)

  datatype Hot = Hot(fileId: nat, seqNo: nat, offset: nat)

  datatype Pipe = Pipe(hot: Hot, pending: seq<IndexedRecord>, books: Books, stores: Txns)

  // ---- Hot file ----

  function OpenNew(cfg: Config, books: Books, seqNo: nat): (Hot, Books) {
    (Hot(books.nextId, seqNo, 0),
     Books(books.files[books.nextId := FileRec(cfg.dev, seqNo, 0, true)], books.nextId + 1))
  }

  function Closed(books: Books, fileId: nat): Books {
    if fileId in books.files then books.(files := books.files[fileId := books.files[fileId].(open := false)]) else books
  }

  /** `rotate`: seal the file, open the next one. */
  function Rotate(cfg: Config, hot: Hot, books: Books): (Hot, Books) {
    OpenNew(cfg, Closed(books, hot.fileId), hot.seqNo + 1)
  }

  predicate Overflows(cfg: Config, hot: Hot, rec: WalRecord) { hot.offset + RecLen(rec) > cfg.segmentSize }

  /** `append`: rotates first when the record does not fit. */
  function Placed(cfg: Config, hot: Hot, books: Books, rec: WalRecord): (Hot, Books) {
    if Overflows(cfg, hot, rec) then Rotate(cfg, hot, books) else (hot, books)
  }

  /** The record with its place; the offset is cast to 32 bits. */
  function At(cfg: Config, hot: Hot, rec: WalRecord): IndexedRecord {
    IndexedRecord(cfg.dev, hot.fileId, hot.offset % U32, rec)
  }

  function Append(cfg: Config, p: Pipe, rec: WalRecord): Pipe {
    var (hot, books) := Placed(cfg, p.hot, p.books, rec);
    p.(hot := hot.(offset := hot.offset + RecLen(rec)), books := books, pending := p.pending + [At(cfg, hot, rec)])
  }

  // ---- Commit ----

  function EndOf(r: IndexedRecord): nat { r.offset + RecLen(r.rec) }

  /** Highest committed byte per file. */
  function Ends(rs: seq<IndexedRecord>): map<nat, nat> {
    if rs == [] then map[]
    else
      var m, r := Ends(rs[..|rs| - 1]), rs[|rs| - 1];
      m[r.fileId := Max(if r.fileId in m then m[r.fileId] else 0, EndOf(r))]
  }

  /** `advance_watermark` for every file; a row may only move forward. */
  predicate MayAdvance(books: Books, ends: map<nat, nat>) {
    forall f :: f in ends ==> f in books.files && books.files[f].watermark <= ends[f]
  }

  function Advanced(books: Books, ends: map<nat, nat>): Books {
    books.(files := map f | f in books.files ::
      if f in ends then books.files[f].(watermark := ends[f]) else books.files[f])
  }

  /** `flush`: LMDB first, ledger second. */
  ghost function Flush(cfg: Config, p: Pipe): Pipe {
    if p.pending == [] then p
    else Pipe(p.hot, [], Advanced(p.books, Ends(p.pending)),
              RunBatch(cfg.params, p.stores.live, p.stores.epoch, p.pending))
  }

  /** The barrier: a record that would cross the file boundary first commits and closes the file. */
  ghost function Barrier(cfg: Config, p: Pipe, rec: WalRecord): Pipe {
    if Overflows(cfg, p.hot, rec) && p.hot.offset > 0 then
      var q := Flush(cfg, p);
      var (hot, books) := Rotate(cfg, q.hot, q.books);
      q.(hot := hot, books := books)
    else p
  }

  /** `push_record`. */
  ghost function Push(cfg: Config, p: Pipe, rec: WalRecord): Pipe {
    var q := Append(cfg, Barrier(cfg, p, rec), rec);
    if |q.pending| >= cfg.batchSize then Flush(cfg, q) else q
  }

  /** `finish`. */
  ghost function Finish(cfg: Config, p: Pipe): Pipe {
    var q := Flush(cfg, p);
    var (hot, books) := Rotate(cfg, q.hot, q.books);
    q.(hot := hot, books := books)
  }

  // ---- Invariant ----

  /** Records of one file that follow each other without gap from `from` to `until`. */
  predicate Tiles(rs: seq<IndexedRecord>, fileId: nat, from: nat, until: nat) {
    if rs == [] then from == until
    else rs[0].fileId == fileId && rs[0].offset == from && Tiles(rs[1..], fileId, EndOf(rs[0]), until)
  }

  ghost predicate OnlyOpen(cfg: Config, books: Books, fileId: nat) {
    forall f :: f in books.files && books.files[f].dev == cfg.dev && books.files[f].open ==> f == fileId
  }

  /** Pending records are the device's, lie in the open file, tile [watermark, offset) and are at most
      a batch; past the file size there is at most one of them, alone in its file. */
  ghost predicate Ok(cfg: Config, p: Pipe) {
    && p.hot.fileId in p.books.files
    && p.books.files[p.hot.fileId] == FileRec(cfg.dev, p.hot.seqNo, p.books.files[p.hot.fileId].watermark, true)
    && Tiles(p.pending, p.hot.fileId, p.books.files[p.hot.fileId].watermark, p.hot.offset)
    && OnlyOpen(cfg, p.books, p.hot.fileId)
    && (forall f :: f in p.books.files ==> f < p.books.nextId)
    && |p.pending| <= Max(cfg.batchSize, 1)
    && (forall i :: 0 <= i < |p.pending| ==> p.pending[i].devId == cfg.dev)
    && (p.hot.offset > cfg.segmentSize && p.pending != [] ==> |p.pending| == 1 && p.pending[0].offset == 0)
  }

  /** Between two calls the batch is not full. */
  predicate Room(cfg: Config, p: Pipe) { |p.pending| < Max(cfg.batchSize, 1) }

  lemma {:induction false} TilesAppend(rs: seq<IndexedRecord>, fileId: nat, from: nat, until: nat, r: IndexedRecord)
    requires Tiles(rs, fileId, from, until) && r.fileId == fileId && r.offset == until
    ensures Tiles(rs + [r], fileId, from, EndOf(r))
    decreases |rs|
  {
    if rs == [] {
      assert rs + [r] == [r] && [r][1..] == [];
    } else {
      assert (rs + [r])[1..] == rs[1..] + [r];
      TilesAppend(rs[1..], fileId, EndOf(rs[0]), until, r);
    }
  }

  lemma {:induction false} TilesForward(rs: seq<IndexedRecord>, fileId: nat, from: nat, until: nat)
    requires Tiles(rs, fileId, from, until)
    ensures from <= until && (rs != [] ==> from < until)
    decreases |rs|
  {
    if rs != [] {
      TilesForward(rs[1..], fileId, EndOf(rs[0]), until);
    }
  }

  lemma {:induction false} TilesFront(rs: seq<IndexedRecord>, fileId: nat, from: nat, until: nat)
    requires Tiles(rs, fileId, from, until) && rs != []
    ensures var last := rs[|rs| - 1];
            last.fileId == fileId && EndOf(last) == until && Tiles(rs[..|rs| - 1], fileId, from, last.offset)
    decreases |rs|
  {
    if |rs| > 1 {
      TilesFront(rs[1..], fileId, EndOf(rs[0]), until);
      assert rs[..|rs| - 1][1..] == rs[1..][..|rs| - 2];
    } else {
      assert rs[1..] == [] && rs[..0] == [];
    }
  }

  /** A tiling batch ends exactly at the hot file's offset. */
  lemma {:induction false} EndsOfTiles(rs: seq<IndexedRecord>, fileId: nat, from: nat, until: nat)
    requires Tiles(rs, fileId, from, until) && rs != []
    ensures Ends(rs) == map[fileId := until]
    decreases |rs|
  {
    TilesFront(rs, fileId, from, until);
    var last, front := rs[|rs| - 1], rs[..|rs| - 1];
    TilesForward([last], fileId, last.offset, until) by {
      assert [last][1..] == [];
    }
    if front != [] {
      EndsOfTiles(front, fileId, from, last.offset);
    }
  }

  /** A commit moves the watermark of the one file exactly to the offset and touches nothing else. */
  lemma FlushMovesWatermark(cfg: Config, p: Pipe)
    requires Ok(cfg, p)
    ensures MayAdvance(p.books, Ends(p.pending))
    ensures var q := Flush(cfg, p);
            && Ok(cfg, q) && q.pending == [] && q.hot == p.hot
            && q.books == p.books.(
                 files := p.books.files[p.hot.fileId := p.books.files[p.hot.fileId].(watermark := p.hot.offset)])
  {
    var f := p.books.files[p.hot.fileId];
    TilesForward(p.pending, p.hot.fileId, f.watermark, p.hot.offset);
    if p.pending != [] {
      EndsOfTiles(p.pending, p.hot.fileId, f.watermark, p.hot.offset);
    } else {
      assert p.books.files[p.hot.fileId := f.(watermark := p.hot.offset)] == p.books.files;
    }
  }

  lemma RotateOk(cfg: Config, p: Pipe)
    requires Ok(cfg, p) && p.pending == []
    ensures var (hot, books) := Rotate(cfg, p.hot, p.books);
            Ok(cfg, p.(hot := hot, books := books)) && hot.offset == 0 && hot.fileId == p.books.nextId
  {}

  lemma BarrierOk(cfg: Config, p: Pipe, rec: WalRecord)
    requires Ok(cfg, p)
    ensures var q := Barrier(cfg, p, rec);
            && Ok(cfg, q) && (Overflows(cfg, q.hot, rec) ==> q.hot.offset == 0 && q.pending == [])
            && (Room(cfg, p) ==> Room(cfg, q))
  {
    FlushMovesWatermark(cfg, p);
    RotateOk(cfg, Flush(cfg, p));
    TilesForward(p.pending, p.hot.fileId, p.books.files[p.hot.fileId].watermark, p.hot.offset);
  }

  /** Appending keeps the tiling, as long as the 32-bit offset cast is exact. */
  lemma AppendOk(cfg: Config, p: Pipe, rec: WalRecord)
    requires Ok(cfg, p) && Room(cfg, p) && (Overflows(cfg, p.hot, rec) ==> p.hot.offset == 0 && p.pending == [])
    requires cfg.segmentSize <= U32
    ensures Ok(cfg, Append(cfg, p, rec))
  {
    var (hot, books) := Placed(cfg, p.hot, p.books, rec);
    if Overflows(cfg, p.hot, rec) {
      RotateOk(cfg, p);
    }
    assert hot.offset % U32 == hot.offset;
    TilesAppend(p.pending, hot.fileId, books.files[hot.fileId].watermark, hot.offset, At(cfg, hot, rec));
  }

  lemma PushOk(cfg: Config, p: Pipe, rec: WalRecord)
    requires Ok(cfg, p) && Room(cfg, p) && cfg.segmentSize <= U32
    ensures Ok(cfg, Push(cfg, p, rec)) && Room(cfg, Push(cfg, p, rec))
  {
    BarrierOk(cfg, p, rec);
    AppendOk(cfg, Barrier(cfg, p, rec), rec);
    FlushMovesWatermark(cfg, Append(cfg, Barrier(cfg, p, rec), rec));
  }

  // ---- Recovery ----

  /** The newest open file of the device, if any. */
  ghost predicate NewestOpen(cfg: Config, books: Books, f: nat) {
    && f in books.files && books.files[f].dev == cfg.dev && books.files[f].open
    && forall g :: g in books.files && books.files[g].dev == cfg.dev && books.files[g].open ==> g <= f
  }

  /** `open_or_recover`: the open file is truncated to its watermark; nothing is pending. */
  function Reopened(books: Books, stores: Txns, f: nat): Pipe
    requires f in books.files
  {
    Pipe(Hot(f, books.files[f].seqNo, books.files[f].watermark), [], books, stores)
  }

  /** At most one file of the device is open and file ids are below the next one. */
  ghost predicate Resumable(cfg: Config, books: Books) {
    && (forall f :: f in books.files ==> f < books.nextId)
    && (forall f :: NewestOpen(cfg, books, f) ==> OnlyOpen(cfg, books, f))
  }

  lemma OkIsResumable(cfg: Config, p: Pipe)
    requires Ok(cfg, p)
    ensures Resumable(cfg, p.books) && NewestOpen(cfg, p.books, p.hot.fileId)
  {}

  lemma ReopenedOk(cfg: Config, books: Books, stores: Txns, f: nat)
    requires Resumable(cfg, books) && NewestOpen(cfg, books, f)
    ensures Ok(cfg, Reopened(books, stores, f))
  {}

  /** Recovery finds the file that was open and stands in it at its watermark. */
  lemma RecoverOk(cfg: Config, p: Pipe, stores: Txns, f: nat)
    requires Ok(cfg, p) && NewestOpen(cfg, p.books, f)
    ensures f == p.hot.fileId && Ok(cfg, Reopened(p.books, stores, f))
  {
    OkIsResumable(cfg, p);
    ReopenedOk(cfg, p.books, stores, f);
  }

  function Raw(rs: seq<IndexedRecord>): (r: seq<WalRecord>)
    ensures |r| == |rs| && forall i :: 0 <= i < |rs| ==> r[i] == rs[i].rec
  {
    seq(|rs|, i requires 0 <= i < |rs| => rs[i].rec)
  }

  ghost function PushAll(cfg: Config, p: Pipe, recs: seq<WalRecord>): Pipe
    decreases |recs|
  {
    if recs == [] then p else PushAll(cfg, Push(cfg, p, recs[0]), recs[1..])
  }

  /** Records of this device, placed where the 32-bit offset cast is exact. */
  ghost predicate OwnRecords(cfg: Config, rs: seq<IndexedRecord>) {
    cfg.segmentSize <= U32 && forall i :: 0 <= i < |rs| ==> rs[i].devId == cfg.dev
  }

  /** A record whose place fits in the file goes there without barrier or rotation. */
  lemma AppendInPlace(cfg: Config, p: Pipe, r: IndexedRecord)
    requires cfg.segmentSize <= U32 && r.devId == cfg.dev && r.fileId == p.hot.fileId && r.offset == p.hot.offset
    requires EndOf(r) <= cfg.segmentSize
    ensures Append(cfg, p, r.rec) == p.(hot := p.hot.(offset := EndOf(r)), pending := p.pending + [r])
    ensures Barrier(cfg, p, r.rec) == p
  {
    assert p.hot.offset % U32 == p.hot.offset;
  }

  ghost function AppendAll(cfg: Config, p: Pipe, recs: seq<WalRecord>): Pipe
    decreases |recs|
  {
    if recs == [] then p else AppendAll(cfg, Append(cfg, p, recs[0]), recs[1..])
  }

  lemma {:induction false} AppendAllInPlace(cfg: Config, p: Pipe, rs: seq<IndexedRecord>, until: nat)
    requires OwnRecords(cfg, rs) && Tiles(rs, p.hot.fileId, p.hot.offset, until) && until <= cfg.segmentSize
    ensures AppendAll(cfg, p, Raw(rs)) == p.(hot := p.hot.(offset := until), pending := p.pending + rs)
    decreases |rs|
  {
    if rs == [] {
      assert p.pending + rs == p.pending;
    } else {
      TilesForward(rs[1..], p.hot.fileId, EndOf(rs[0]), until);
      AppendInPlace(cfg, p, rs[0]);
      assert Raw(rs)[1..] == Raw(rs[1..]);
      AppendAllInPlace(cfg, Append(cfg, p, rs[0].rec), rs[1..], until);
      assert (p.pending + [rs[0]]) + rs[1..] == p.pending + rs;
    }
  }

  /** With pushes instead of appends, a batch that becomes full is committed. */
  lemma {:induction false} PushAllInPlace(cfg: Config, p: Pipe, rs: seq<IndexedRecord>, until: nat)
    requires OwnRecords(cfg, rs) && Tiles(rs, p.hot.fileId, p.hot.offset, until) && until <= cfg.segmentSize
    requires rs != [] && |p.pending| + |rs| <= Max(cfg.batchSize, 1)
    ensures var q := p.(hot := p.hot.(offset := until), pending := p.pending + rs);
            PushAll(cfg, p, Raw(rs)) == if |q.pending| >= cfg.batchSize then Flush(cfg, q) else q
    decreases |rs|
  {
    TilesForward(rs[1..], p.hot.fileId, EndOf(rs[0]), until);
    AppendInPlace(cfg, p, rs[0]);
    assert Raw(rs)[1..] == Raw(rs[1..]);
    assert (p.pending + [rs[0]]) + rs[1..] == p.pending + rs;
    var q := Push(cfg, p, rs[0].rec);
    if rs[1..] == [] {
      assert rs == [rs[0]] && PushAll(cfg, q, Raw(rs[1..])) == q;
    } else {
      PushAllInPlace(cfg, q, rs[1..], until);
    }
  }

  lemma Owned(cfg: Config, p: Pipe)
    requires Ok(cfg, p) && cfg.segmentSize <= U32
    ensures OwnRecords(cfg, p.pending)
  {}

  /** Truncating to the watermark and pushing the same records again gives each the same file and
      offset; a batch that was full is committed by its last record. */
  lemma ReplayReassigns(cfg: Config, p: Pipe, stores: Txns)
    requires Ok(cfg, p) && cfg.segmentSize <= U32 && p.pending != [] && p.hot.offset <= cfg.segmentSize
    ensures var q := p.(stores := stores);
            && AppendAll(cfg, Reopened(p.books, stores, p.hot.fileId), Raw(p.pending)) == q
            && PushAll(cfg, Reopened(p.books, stores, p.hot.fileId), Raw(p.pending))
               == if |p.pending| >= cfg.batchSize then Flush(cfg, q) else q
  {
    var start := Reopened(p.books, stores, p.hot.fileId);
    assert start.pending + p.pending == p.pending;
    Owned(cfg, p);
    AppendAllInPlace(cfg, start, p.pending, p.hot.offset);
    PushAllInPlace(cfg, start, p.pending, p.hot.offset);
  }

  /** A pending record longer than a whole file, pushed again, opens yet another file. */
  lemma OverlongMoves(cfg: Config, p: Pipe, stores: Txns)
    requires Ok(cfg, p) && cfg.segmentSize <= U32 && p.pending != [] && p.hot.offset > cfg.segmentSize
    ensures var q := AppendAll(cfg, Reopened(p.books, stores, p.hot.fileId), Raw(p.pending));
            && Ok(cfg, q) && q.pending != [] && q.hot.offset > cfg.segmentSize
            && q.hot.fileId == p.books.nextId > p.hot.fileId && q.pending != p.pending
  {
    var start, r := Reopened(p.books, stores, p.hot.fileId), p.pending[0];
    assert p.pending[1..] == [];
    assert Tiles(p.pending[1..], p.hot.fileId, EndOf(r), p.hot.offset);
    assert start.hot.offset == 0;
    OkIsResumable(cfg, p);
    ReopenedOk(cfg, p.books, stores, p.hot.fileId);
    AppendOk(cfg, start, r.rec);
    var q := Append(cfg, start, r.rec);
    assert Raw(p.pending)[1..] == [] && AppendAll(cfg, q, []) == q;
    assert q.pending[0].fileId == p.books.nextId;
  }

  /** So the places are kept exactly when the file is not overfull. */
  lemma ReplayReassignsExactly(cfg: Config, p: Pipe, stores: Txns)
    requires Ok(cfg, p) && cfg.segmentSize <= U32 && p.pending != []
    ensures (AppendAll(cfg, Reopened(p.books, stores, p.hot.fileId), Raw(p.pending)).pending == p.pending)
       <==> p.hot.offset <= cfg.segmentSize
  {
    if p.hot.offset <= cfg.segmentSize {
      ReplayReassigns(cfg, p, stores);
    } else {
      OverlongMoves(cfg, p, stores);
    }
  }

  /** Files of 100 bytes; a record of 264 bytes sits alone in file 1. */
  function OverlongPipe(params: Params, rec: WalRecord): (Config, Pipe) {
    (Config(params, 1, 100, 10),
     Pipe(Hot(1, 0, RecLen(rec)), [IndexedRecord(1, 1, 0, rec)],
          Books(map[1 := FileRec(1, 0, 0, true)], 2), Txns(Live(map[], map[], map[], map[]), map[])))
  }

  /** Pushed again after a stop it is in file 2. */
  lemma OverlongExample(params: Params, rec: WalRecord)
    requires |rec.payload| == 200
    ensures var (cfg, p) := OverlongPipe(params, rec);
            && Ok(cfg, p) && p.pending[0].fileId == 1
            && AppendAll(cfg, Reopened(p.books, p.stores, 1), Raw(p.pending)).pending == [IndexedRecord(1, 2, 0, rec)]
  {
    var (cfg, p) := OverlongPipe(params, rec);
    assert p.pending[1..] == [] && Raw(p.pending)[1..] == [];
    assert Tiles(p.pending[1..], 1, RecLen(rec), RecLen(rec));
    var start := Reopened(p.books, p.stores, 1);
    var q := Append(cfg, start, rec);
    assert AppendAll(cfg, q, []) == q;
  }

  /** A commit that dies `|cs|` times, each time followed by recovery and the same records pushed
      again, and then goes through. */
  ghost function Attempt(cfg: Config, p: Pipe, cs: seq<Crash>): Pipe
    requires p.hot.fileId in p.books.files
    decreases |cs|
  {
    if cs == [] then Flush(cfg, p)
    else
      var epoch := AfterCrash(cfg.params, p.stores.live, p.stores.epoch, p.pending, cs[0]);
      var again := AppendAll(cfg, Reopened(p.books, Txns(p.stores.live, epoch), p.hot.fileId), Raw(p.pending));
      if again.hot.fileId in again.books.files then Attempt(cfg, again, cs[1..]) else again
  }

  lemma {:induction false} CommitConverges(cfg: Config, p: Pipe, cs: seq<Crash>)
    requires Ok(cfg, p) && cfg.segmentSize <= U32 && p.pending != []
    requires p.hot.offset <= cfg.segmentSize && AllPending(p.stores.live.pair)
    ensures Attempt(cfg, p, cs) == Flush(cfg, p)
    decreases |cs|
  {
    if cs != [] {
      var live, e := p.stores.live, p.stores.epoch;
      var e1 := AfterCrash(cfg.params, live, e, p.pending, cs[0]);
      ReplayReassigns(cfg, p, Txns(live, e1));
      CrashesConverge(cfg.params, live, e, p.pending, [cs[0]]);
      assert [cs[0]][1..] == [] && AfterCrashes(cfg.params, live, e1, p.pending, []) == e1;
      assert AfterCrashes(cfg.params, live, e, p.pending, [cs[0]]) == e1;
      CommitConverges(cfg, p.(stores := Txns(live, e1)), cs[1..]);
    }
  }

  /** An overlong record ends in a later file with every attempt. */
  lemma {:induction false} OverlongAttempts(cfg: Config, p: Pipe, cs: seq<Crash>)
    requires Ok(cfg, p) && cfg.segmentSize <= U32 && p.pending != [] && p.hot.offset > cfg.segmentSize
    ensures Attempt(cfg, p, cs).hot.fileId >= p.hot.fileId
    ensures cs != [] ==> Attempt(cfg, p, cs).hot.fileId > p.hot.fileId
    decreases |cs|
  {
    if cs != [] {
      var epoch := AfterCrash(cfg.params, p.stores.live, p.stores.epoch, p.pending, cs[0]);
      OverlongMoves(cfg, p, Txns(p.stores.live, epoch));
      var again := AppendAll(cfg, Reopened(p.books, Txns(p.stores.live, epoch), p.hot.fileId), Raw(p.pending));
      OverlongAttempts(cfg, again, cs[1..]);
    }
  }

  /** Crashes before and between the store commits leave no trace - stores, watermark and hot file end
      exactly as if the commit had gone through at once - if and only if there was no crash or the
      file is not overfull. */
  lemma CrashedCommitConverges(cfg: Config, p: Pipe, cs: seq<Crash>)
    requires Ok(cfg, p) && cfg.segmentSize <= U32 && p.pending != [] && AllPending(p.stores.live.pair)
    ensures Attempt(cfg, p, cs) == Flush(cfg, p) <==> cs == [] || p.hot.offset <= cfg.segmentSize
  {
    if p.hot.offset <= cfg.segmentSize {
      CommitConverges(cfg, p, cs);
    } else {
      OverlongAttempts(cfg, p, cs);
    }
  }

  // ---- Distinct places ----

  /** The records of a run with their places. */
  ghost function Log(cfg: Config, p: Pipe, recs: seq<WalRecord>): seq<IndexedRecord>
    decreases |recs|
  {
    if recs == [] then []
    else
      var q := Barrier(cfg, p, recs[0]);
      [At(cfg, Placed(cfg, q.hot, q.books, recs[0]).0, recs[0])] + Log(cfg, Push(cfg, p, recs[0]), recs[1..])
  }

  predicate Past(hot: Hot, fileId: nat, offset: nat) {
    hot.fileId < fileId || (hot.fileId == fileId && hot.offset <= offset)
  }

  lemma FlushKeepsHot(cfg: Config, p: Pipe)
    ensures Flush(cfg, p).hot == p.hot
  {}

  lemma BarrierMoves(cfg: Config, p: Pipe, rec: WalRecord)
    requires Ok(cfg, p)
    ensures Past(p.hot, Barrier(cfg, p, rec).hot.fileId, Barrier(cfg, p, rec).hot.offset)
  {
    FlushMovesWatermark(cfg, p);
  }

  /** One push places its record at or past the hot position and moves the position past it. */
  lemma PushMoves(cfg: Config, p: Pipe, rec: WalRecord)
    requires Ok(cfg, p) && cfg.segmentSize <= U32
    ensures var q := Barrier(cfg, p, rec);
            var r := At(cfg, Placed(cfg, q.hot, q.books, rec).0, rec);
            var hot := Push(cfg, p, rec).hot;
            && Past(p.hot, r.fileId, r.offset) && r.offset < U32
            && hot.fileId == r.fileId && hot.offset == EndOf(r) && r.offset < hot.offset
  {
    var q := Barrier(cfg, p, rec);
    var r := At(cfg, Placed(cfg, q.hot, q.books, rec).0, rec);
    BarrierOk(cfg, p, rec);
    BarrierMoves(cfg, p, rec);
    AppendMoves(cfg, q, rec);
    PushHot(cfg, p, rec);
    PastTrans(p.hot, q.hot, r.fileId, r.offset);
  }

  /** A commit at the end of a push does not move the position. */
  lemma PushHot(cfg: Config, p: Pipe, rec: WalRecord)
    ensures Push(cfg, p, rec).hot == Append(cfg, Barrier(cfg, p, rec), rec).hot
  {
    FlushKeepsHot(cfg, Append(cfg, Barrier(cfg, p, rec), rec));
  }

  lemma PastTrans(a: Hot, b: Hot, fileId: nat, offset: nat)
    requires Past(a, b.fileId, b.offset) && Past(b, fileId, offset)
    ensures Past(a, fileId, offset)
  {}

  lemma AppendMoves(cfg: Config, q: Pipe, rec: WalRecord)
    requires Ok(cfg, q) && cfg.segmentSize <= U32 && (Overflows(cfg, q.hot, rec) ==> q.hot.offset == 0)
    ensures var r := At(cfg, Placed(cfg, q.hot, q.books, rec).0, rec);
            var hot := Append(cfg, q, rec).hot;
            && Past(q.hot, r.fileId, r.offset) && r.offset < U32
            && hot.fileId == r.fileId && hot.offset == EndOf(r) && r.offset < hot.offset
  {
    var hot := Placed(cfg, q.hot, q.books, rec).0;
    assert hot.offset % U32 == hot.offset;
  }

  /** Places at or past the hot position, strictly increasing, offsets below 2^32. */
  ghost predicate Upward(hot: Hot, log: seq<IndexedRecord>) {
    && (forall i :: 0 <= i < |log| ==> Past(hot, log[i].fileId, log[i].offset) && log[i].offset < U32)
    && (forall i, j :: 0 <= i < j < |log| ==>
         log[i].fileId < log[j].fileId || (log[i].fileId == log[j].fileId && log[i].offset < log[j].offset))
  }

  lemma UpwardStep(hot: Hot, next: Hot, r: IndexedRecord, rest: seq<IndexedRecord>)
    requires Past(hot, r.fileId, r.offset) && r.offset < U32
    requires next.fileId == r.fileId && r.offset < next.offset && Upward(next, rest)
    ensures Upward(hot, [r] + rest)
  {
    var log := [r] + rest;
    assert forall i :: 0 < i < |log| ==> log[i] == rest[i - 1];
  }

  lemma {:induction false} LogMoves(cfg: Config, p: Pipe, recs: seq<WalRecord>)
    requires Ok(cfg, p) && Room(cfg, p) && cfg.segmentSize <= U32
    ensures |Log(cfg, p, recs)| == |recs| && Upward(p.hot, Log(cfg, p, recs))
    decreases |recs|
  {
    if recs != [] {
      var q, p1 := Barrier(cfg, p, recs[0]), Push(cfg, p, recs[0]);
      PushMoves(cfg, p, recs[0]);
      PushOk(cfg, p, recs[0]);
      LogMoves(cfg, p1, recs[1..]);
      UpwardStep(p.hot, p1.hot, At(cfg, Placed(cfg, q.hot, q.books, recs[0]).0, recs[0]), Log(cfg, p1, recs[1..]));
    }
  }

  /** Any two places have the same index exactly when they are in the same file at offsets equal
      modulo 2^32: the cast in `append` is harmless up to 4 GiB and lossy beyond. */
  lemma SameIdxExactly(cfg: Config, a: Hot, b: Hot, x: WalRecord, y: WalRecord)
    ensures At(cfg, a, x).Idx() == At(cfg, b, y).Idx() <==> a.fileId == b.fileId && a.offset % U32 == b.offset % U32
  {}

  /** No two records of a run share an index, over any number of files, commits and rotations. */
  lemma IndexesAreDistinct(cfg: Config, p: Pipe, recs: seq<WalRecord>)
    requires Ok(cfg, p) && Room(cfg, p) && cfg.segmentSize <= U32
    ensures forall i, j :: 0 <= i < j < |recs| ==>
              |Log(cfg, p, recs)| == |recs| && Log(cfg, p, recs)[i].Idx() < Log(cfg, p, recs)[j].Idx()
  {
    LogMoves(cfg, p, recs);
    var log := Log(cfg, p, recs);
    assert |log| == |recs|;
    forall i, j | 0 <= i < j < |recs| ensures log[i].Idx() < log[j].Idx() {
      IdxOrder(log[i], log[j]);
    }
  }

  lemma IdxOrder(a: IndexedRecord, b: IndexedRecord)
    requires a.offset < U32 && b.offset < U32
    ensures a.Idx() < b.Idx() <==> a.fileId < b.fileId || (a.fileId == b.fileId && a.offset < b.offset)
  {}

  // ---- Runs with stops ----

  /** Where the process stops: no commit under way, the epoch store of the pending batch committed, or
      both stores committed and the watermark not. */
  datatype StopAt = Idle | EpochDone | StoresDone

  datatype Act = PushRec(rec: WalRecord) | FlushNow | Close | Restart(at: StopAt)

  ghost function StoresAt(cfg: Config, p: Pipe, at: StopAt): Txns {
    var done := RunBatch(cfg.params, p.stores.live, p.stores.epoch, p.pending);
    match at
    case Idle => p.stores
    case EpochDone => Txns(p.stores.live, done.epoch)
    case StoresDone => done
  }

  /** A restart goes through the ledger: it reopens the newest open file of the device. */
  ghost predicate Acts(cfg: Config, p: Pipe, a: Act, q: Pipe) {
    match a
    case PushRec(rec) => q == Push(cfg, p, rec)
    case FlushNow => q == Flush(cfg, p)
    case Close => q == Finish(cfg, p)
    case Restart(at) => exists f :: NewestOpen(cfg, p.books, f) && q == Reopened(p.books, StoresAt(cfg, p, at), f)
  }

  lemma FinishOk(cfg: Config, p: Pipe)
    requires Ok(cfg, p)
    ensures Ok(cfg, Finish(cfg, p)) && Finish(cfg, p).pending == []
  {
    FlushMovesWatermark(cfg, p);
    RotateOk(cfg, Flush(cfg, p));
  }

  /** Every action keeps the invariant; after a restart the pipe stands in the file that was open. */
  lemma ActOk(cfg: Config, p: Pipe, a: Act, q: Pipe)
    requires Ok(cfg, p) && Room(cfg, p) && cfg.segmentSize <= U32 && Acts(cfg, p, a, q)
    ensures Ok(cfg, q) && Room(cfg, q)
    ensures a.Restart? ==> q.hot == p.hot.(offset := p.books.files[p.hot.fileId].watermark) && q.pending == []
  {
    match a
    case PushRec(rec) => PushOk(cfg, p, rec);
    case FlushNow => FlushMovesWatermark(cfg, p);
    case Close => FinishOk(cfg, p);
    case Restart(at) =>
      var f :| NewestOpen(cfg, p.books, f) && q == Reopened(p.books, StoresAt(cfg, p, at), f);
      RecoverOk(cfg, p, StoresAt(cfg, p, at), f);
  }

  /** The invariant over whole runs, stops and recoveries at every commit point included. */
  lemma {:induction false} PipelineStaysOk(cfg: Config, ps: seq<Pipe>, acts: seq<Act>)
    requires |ps| == |acts| + 1 && cfg.segmentSize <= U32 && Ok(cfg, ps[0]) && Room(cfg, ps[0])
    requires forall i :: 0 <= i < |acts| ==> Acts(cfg, ps[i], acts[i], ps[i + 1])
    ensures forall i :: 0 <= i < |ps| ==> Ok(cfg, ps[i]) && Room(cfg, ps[i])
    decreases |acts|
  {
    if acts != [] {
      ActOk(cfg, ps[0], acts[0], ps[1]);
      PipelineStaysOk(cfg, ps[1..], acts[1..]);
      assert forall i :: 0 < i < |ps| ==> ps[i] == ps[1..][i - 1];
    }
  }

  // ---- File numbers ----

  predicate OwnFile(cfg: Config, books: Books, f: nat) { f in books.files && books.files[f].dev == cfg.dev }

  /** The device's files are numbered upward in the order of their ids, and the hot one is the last. */
  ghost predicate Numbered(cfg: Config, p: Pipe) {
    && (forall f: nat, g: nat :: OwnFile(cfg, p.books, f) && OwnFile(cfg, p.books, g) && f < g ==>
          p.books.files[f].seqNo < p.books.files[g].seqNo)
    && (forall f: nat :: OwnFile(cfg, p.books, f) ==> f <= p.hot.fileId)
  }

  lemma RotateNumbered(cfg: Config, p: Pipe)
    requires Ok(cfg, p) && Numbered(cfg, p)
    ensures var (hot, books) := Rotate(cfg, p.hot, p.books); Numbered(cfg, p.(hot := hot, books := books))
  {
    var (hot, books) := Rotate(cfg, p.hot, p.books);
    forall f: nat | OwnFile(cfg, p.books, f) ensures p.books.files[f].seqNo < hot.seqNo {
      assert f < p.hot.fileId || f == p.hot.fileId;
    }
  }

  /** Watermarks may move: files, devices and numbers count. */
  lemma SameNumbers(cfg: Config, p: Pipe, q: Pipe)
    requires Numbered(cfg, p) && q.hot.fileId == p.hot.fileId && q.books.files.Keys == p.books.files.Keys
    requires forall f :: f in p.books.files ==>
               q.books.files[f].dev == p.books.files[f].dev && q.books.files[f].seqNo == p.books.files[f].seqNo
    ensures Numbered(cfg, q)
  {
    assert forall f: nat :: OwnFile(cfg, q.books, f) <==> OwnFile(cfg, p.books, f);
  }

  lemma FlushNumbered(cfg: Config, p: Pipe)
    requires Ok(cfg, p) && Numbered(cfg, p)
    ensures Numbered(cfg, Flush(cfg, p))
  {
    FlushMovesWatermark(cfg, p);
    SameNumbers(cfg, p, Flush(cfg, p));
  }

  lemma BarrierNumbered(cfg: Config, p: Pipe, rec: WalRecord)
    requires Ok(cfg, p) && Numbered(cfg, p)
    ensures Numbered(cfg, Barrier(cfg, p, rec))
  {
    FlushMovesWatermark(cfg, p);
    FlushNumbered(cfg, p);
    RotateNumbered(cfg, Flush(cfg, p));
  }

  lemma PushNumbered(cfg: Config, p: Pipe, rec: WalRecord)
    requires Ok(cfg, p) && Room(cfg, p) && Numbered(cfg, p) && cfg.segmentSize <= U32
    ensures Numbered(cfg, Push(cfg, p, rec))
  {
    var q := Barrier(cfg, p, rec);
    BarrierOk(cfg, p, rec);
    BarrierNumbered(cfg, p, rec);
    RotateNumbered(cfg, q);
    AppendOk(cfg, q, rec);
    assert Numbered(cfg, Append(cfg, q, rec));
    FlushNumbered(cfg, Append(cfg, q, rec));
  }

  lemma ActNumbered(cfg: Config, p: Pipe, a: Act, q: Pipe)
    requires Ok(cfg, p) && Room(cfg, p) && Numbered(cfg, p) && cfg.segmentSize <= U32 && Acts(cfg, p, a, q)
    ensures Numbered(cfg, q)
  {
    match a
    case PushRec(rec) => PushNumbered(cfg, p, rec);
    case FlushNow => FlushNumbered(cfg, p);
    case Close =>
      FlushMovesWatermark(cfg, p);
      FlushNumbered(cfg, p);
      RotateNumbered(cfg, Flush(cfg, p));
    case Restart(at) => ActOk(cfg, p, a, q);
  }

  /** Over whole runs, stops and recoveries included, the numbers of a device's files strictly increase,
      so that no file name comes up twice. */
  lemma {:induction false} FileNumbersIncrease(cfg: Config, ps: seq<Pipe>, acts: seq<Act>)
    requires |ps| == |acts| + 1 && cfg.segmentSize <= U32 && Ok(cfg, ps[0]) && Room(cfg, ps[0]) && Numbered(cfg, ps[0])
    requires forall i :: 0 <= i < |acts| ==> Acts(cfg, ps[i], acts[i], ps[i + 1])
    ensures forall i :: 0 <= i < |ps| ==> Numbered(cfg, ps[i])
    decreases |acts|
  {
    if acts != [] {
      ActOk(cfg, ps[0], acts[0], ps[1]);
      ActNumbered(cfg, ps[0], acts[0], ps[1]);
      FileNumbersIncrease(cfg, ps[1..], acts[1..]);
      assert forall i :: 0 < i < |ps| ==> ps[i] == ps[1..][i - 1];
    }
  }
}
