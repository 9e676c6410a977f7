/** One pushed record in numbers: where it is put, and when the batch is committed. */
module BatchSteps {
  import opened Common
  import opened Store
  import opened Qr
  import opened Batching

  /** A record on disk: a header of 64 bytes and the payload. */
  function Length(rec: WalRecord): nat { 64 + |rec.payload| }

  /** The record does not fit behind what the file holds. */
  predicate Crosses(cfg: Config, p: Pipe, rec: WalRecord) {
    p.hot.offset + Length(rec) > cfg.segmentSize
  }

  /** Records that still wait when the record comes: a file boundary commits them first. */
  function Waiting(cfg: Config, p: Pipe, rec: WalRecord): seq<IndexedRecord> {
    if Crosses(cfg, p, rec) && p.hot.offset > 0 then [] else p.pending
  }

  /** Files that the record opens: none if it fits; one at the boundary, and one for a record longer than
      a file, which never stays in a file that was there before. */
  function Opened(cfg: Config, p: Pipe, rec: WalRecord): nat {
    if !Crosses(cfg, p, rec) then 0
    else if p.hot.offset > 0 && Length(rec) > cfg.segmentSize then 2 else 1
  }

  lemma BarrierSteps(cfg: Config, p: Pipe, rec: WalRecord)
    requires Ok(cfg, p)
    ensures var q := Barrier(cfg, p, rec);
            && q.pending == Waiting(cfg, p, rec)
            && if Crosses(cfg, p, rec) && p.hot.offset > 0
               then q.hot == Hot(p.books.nextId, p.hot.seqNo + 1, 0) && q.books.nextId == p.books.nextId + 1
               else q == p
  {
    FlushMovesWatermark(cfg, p);
  }

  lemma AppendSteps(cfg: Config, p: Pipe, rec: WalRecord)
    ensures var q := Append(cfg, p, rec);
            && |q.pending| == |p.pending| + 1 && q.pending[..|p.pending|] == p.pending && q.stores == p.stores
            && q.pending[|p.pending|].rec == rec
            && q.hot == if Crosses(cfg, p, rec) then Hot(p.books.nextId, p.hot.seqNo + 1, Length(rec))
                        else Hot(p.hot.fileId, p.hot.seqNo, p.hot.offset + Length(rec))
  {
    assert (p.pending + [Append(cfg, p, rec).pending[|p.pending|]])[..|p.pending|] == p.pending;
  }

  /** The record ends where the file's bytes end: it follows the last one, or it is first in the last of
      the files it opened, whose numbers go on from the old file's. */
  lemma PutExactly(cfg: Config, p: Pipe, rec: WalRecord)
    requires Ok(cfg, p)
    ensures var q, n, len := Push(cfg, p, rec), Opened(cfg, p, rec), Length(rec);
            q.hot == if n == 0 then Hot(p.hot.fileId, p.hot.seqNo, p.hot.offset + len)
                     else Hot(p.books.nextId + n - 1, p.hot.seqNo + n, len)
  {
    var b := Barrier(cfg, p, rec);
    BarrierSteps(cfg, p, rec);
    AppendSteps(cfg, b, rec);
    PushHot(cfg, p, rec);
  }

  /** After a push nothing waits exactly when the record filled the batch; otherwise it waits behind
      what was waiting. */
  lemma WaitsExactly(cfg: Config, p: Pipe, rec: WalRecord)
    requires Ok(cfg, p) && Room(cfg, p) && cfg.segmentSize <= U32
    ensures var q, ws := Push(cfg, p, rec), Waiting(cfg, p, rec);
            && (q.pending == [] <==> |ws| + 1 >= cfg.batchSize)
            && (q.pending != [] ==> |q.pending| == |ws| + 1 && q.pending[..|ws|] == ws && q.pending[|ws|].rec == rec)
  {
    BarrierSteps(cfg, p, rec);
    AppendSteps(cfg, Barrier(cfg, p, rec), rec);
  }

  /** A record that leaves the batch unfilled changes the stores exactly at a file boundary with records
      waiting, by the batch of these; otherwise both stores and every watermark are as they were. */
  lemma CommitsExactly(cfg: Config, p: Pipe, rec: WalRecord)
    requires Ok(cfg, p) && Room(cfg, p) && cfg.segmentSize <= U32
    requires |Waiting(cfg, p, rec)| + 1 < cfg.batchSize
    ensures var q := Push(cfg, p, rec);
            if Crosses(cfg, p, rec) && p.pending != [] then
              q.stores == RunBatch(cfg.params, p.stores.live, p.stores.epoch, p.pending)
            else
              q.stores == p.stores && forall f :: f in p.books.files ==>
                f in q.books.files && q.books.files[f].watermark == p.books.files[f].watermark
  {
    var b := Barrier(cfg, p, rec);
    BarrierSteps(cfg, p, rec);
    AppendSteps(cfg, b, rec);
    FlushMovesWatermark(cfg, p);
    TilesForward(p.pending, p.hot.fileId, p.books.files[p.hot.fileId].watermark, p.hot.offset);
  }

  /** The stores when the record is appended: what waited is committed at a file boundary. */
  ghost function Before(cfg: Config, p: Pipe, rec: WalRecord): Txns {
    if Crosses(cfg, p, rec) && p.hot.offset > 0 && p.pending != [] then
      RunBatch(cfg.params, p.stores.live, p.stores.epoch, p.pending)
    else p.stores
  }

  lemma BarrierStores(cfg: Config, p: Pipe, rec: WalRecord)
    ensures Barrier(cfg, p, rec).stores == Before(cfg, p, rec)
  {}

  lemma PlaceOf(cfg: Config, p: Pipe, rec: WalRecord)
    requires Ok(cfg, p) && Room(cfg, p) && cfg.segmentSize <= U32
    requires Overflows(cfg, p.hot, rec) ==> p.hot.offset == 0 && p.pending == []
    ensures var q := Append(cfg, p, rec);
            && q.pending == p.pending + [IndexedRecord(cfg.dev, q.hot.fileId, q.hot.offset - RecLen(rec), rec)]
            && q.hot.offset >= RecLen(rec)
  {
    AppendOk(cfg, p, rec);
  }

  lemma FlushIs(cfg: Config, p: Pipe)
    requires Ok(cfg, p) && p.pending != []
    ensures var q := Flush(cfg, p);
            && q.hot == p.hot && q.stores == RunBatch(cfg.params, p.stores.live, p.stores.epoch, p.pending)
            && q.hot.fileId in q.books.files && q.books.files[q.hot.fileId].watermark == q.hot.offset
  {
    FlushMovesWatermark(cfg, p);
  }

  lemma FullPush(cfg: Config, p: Pipe, rec: WalRecord)
    requires Ok(cfg, p) && |Waiting(cfg, p, rec)| + 1 >= cfg.batchSize
    ensures Push(cfg, p, rec) == Flush(cfg, Append(cfg, Barrier(cfg, p, rec), rec))
  {
    BarrierSteps(cfg, p, rec);
    AppendSteps(cfg, Barrier(cfg, p, rec), rec);
  }

  /** The pipeline just before a full batch is committed. */
  lemma FullAppend(cfg: Config, p: Pipe, rec: WalRecord)
    requires Ok(cfg, p) && Room(cfg, p) && cfg.segmentSize <= U32
    ensures var a, s, len := Append(cfg, Barrier(cfg, p, rec), rec), Before(cfg, p, rec), Length(rec);
            && Ok(cfg, a) && a.hot.offset >= len && a.stores == s
            && a.pending == Waiting(cfg, p, rec) + [IndexedRecord(cfg.dev, a.hot.fileId, a.hot.offset - len, rec)]
  {
    var b := Barrier(cfg, p, rec);
    BarrierSteps(cfg, p, rec);
    BarrierStores(cfg, p, rec);
    BarrierOk(cfg, p, rec);
    PlaceOf(cfg, b, rec);
    AppendOk(cfg, b, rec);
  }

  /** A record that fills the batch commits it, itself included, and the watermark is at its last byte. */
  lemma FullCommits(cfg: Config, p: Pipe, rec: WalRecord)
    requires Ok(cfg, p) && Room(cfg, p) && cfg.segmentSize <= U32
    requires |Waiting(cfg, p, rec)| + 1 >= cfg.batchSize
    ensures var q, s, len := Push(cfg, p, rec), Before(cfg, p, rec), Length(rec);
            && q.hot.offset >= len
            && q.stores == RunBatch(cfg.params, s.live, s.epoch,
                 Waiting(cfg, p, rec) + [IndexedRecord(cfg.dev, q.hot.fileId, q.hot.offset - len, rec)])
            && q.hot.fileId in q.books.files && q.books.files[q.hot.fileId].watermark == q.hot.offset
  {
    FullPush(cfg, p, rec);
    FullAppend(cfg, p, rec);
    FlushIs(cfg, Append(cfg, Barrier(cfg, p, rec), rec));
  }

  /** A finished pipeline has committed everything: the file is closed with its watermark at its end, and
      the next number is open and empty. */
  lemma FinishExactly(cfg: Config, p: Pipe)
    requires Ok(cfg, p)
    ensures var q := Finish(cfg, p);
            && q.pending == [] && q.hot == Hot(p.books.nextId, p.hot.seqNo + 1, 0)
            && q.stores == (if p.pending == [] then p.stores
                            else RunBatch(cfg.params, p.stores.live, p.stores.epoch, p.pending))
            && p.hot.fileId in q.books.files && !q.books.files[p.hot.fileId].open
            && q.books.files[p.hot.fileId].watermark == p.hot.offset
            && q.hot.fileId in q.books.files && q.books.files[q.hot.fileId] == FileRec(cfg.dev, q.hot.seqNo, 0, true)
  {
    FlushMovesWatermark(cfg, p);
  }

  // ---- Watermarks ----

  /** A record of the batch in file `f` that ends at `end`. */
  predicate EndsAt(rs: seq<IndexedRecord>, f: nat, end: nat) {
    exists i :: 0 <= i < |rs| && rs[i].fileId == f && rs[i].offset + Length(rs[i].rec) == end
  }

  /** A commit takes, for each file with a record in the batch, the highest end of one. */
  lemma {:induction false} EndsExactly(rs: seq<IndexedRecord>, f: nat)
    ensures f in Ends(rs) <==> exists end :: EndsAt(rs, f, end)
    ensures f in Ends(rs) ==> EndsAt(rs, f, Ends(rs)[f]) && forall end :: EndsAt(rs, f, end) ==> end <= Ends(rs)[f]
    decreases |rs|
  {
    if rs != [] {
      var front, last := rs[..|rs| - 1], rs[|rs| - 1];
      EndsExactly(front, f);
      forall end
        ensures EndsAt(rs, f, end) <==> EndsAt(front, f, end) || (last.fileId == f && EndOf(last) == end)
      {
        EndsAtLast(rs, f, end);
      }
      if f in Ends(front) {
        assert EndsAt(rs, f, Ends(front)[f]);
      }
      if f == last.fileId {
        assert EndsAt(rs, f, EndOf(last));
      }
    }
  }

  lemma EndsAtLast(rs: seq<IndexedRecord>, f: nat, end: nat)
    requires rs != []
    ensures EndsAt(rs, f, end) <==>
              EndsAt(rs[..|rs| - 1], f, end)
              || (rs[|rs| - 1].fileId == f && rs[|rs| - 1].offset + Length(rs[|rs| - 1].rec) == end)
  {
    var front := rs[..|rs| - 1];
    if EndsAt(front, f, end) {
      var i :| 0 <= i < |front| && front[i].fileId == f && front[i].offset + Length(front[i].rec) == end;
      assert rs[i] == front[i];
    }
    if EndsAt(rs, f, end) {
      var i :| 0 <= i < |rs| && rs[i].fileId == f && rs[i].offset + Length(rs[i].rec) == end;
      assert i < |front| ==> front[i] == rs[i];
    }
  }

  /** Some record of the batch in file `f` ends at or past the watermark. */
  predicate Reaches(rs: seq<IndexedRecord>, f: nat, watermark: nat) {
    exists i :: 0 <= i < |rs| && rs[i].fileId == f && rs[i].offset + Length(rs[i].rec) >= watermark
  }

  /** The ledger step goes through exactly when every file with a record in the batch is registered and has
      one that ends at or past its watermark. */
  lemma AdvancesExactly(books: Books, rs: seq<IndexedRecord>)
    ensures MayAdvance(books, Ends(rs)) <==>
              forall f, end :: EndsAt(rs, f, end) ==> f in books.files && Reaches(rs, f, books.files[f].watermark)
  {
    forall f ensures (exists end :: EndsAt(rs, f, end)) <==> f in Ends(rs) {
      EndsExactly(rs, f);
    }
    forall f | f in Ends(rs) && f in books.files
      ensures Reaches(rs, f, books.files[f].watermark) <==> books.files[f].watermark <= Ends(rs)[f]
    {
      EndsExactly(rs, f);
      if Reaches(rs, f, books.files[f].watermark) {
        var i :| 0 <= i < |rs| && rs[i].fileId == f
                 && rs[i].offset + Length(rs[i].rec) >= books.files[f].watermark;
        assert EndsAt(rs, f, rs[i].offset + Length(rs[i].rec));
      }
    }
  }
}
