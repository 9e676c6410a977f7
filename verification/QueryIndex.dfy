/** Request/response queries: which index rows a filter asks for, and that exactly those are shown. */
module QueryIndex {
  import opened Common
  import opened Codec
  import opened KeyCodec
  import opened Store
  import opened Query

  datatype QrFilter = QrFilter(conn: Option<nat>, startTs: Option<nat>, endTs: Option<nat>, status: Option<nat>)

  datatype IndexRow = IndexRow(q: nat, qTs: nat, status: nat, conn: Option<nat>)

  function From(ts: Option<nat>): nat { if ts.Some? then ts.value else 0 }

  function Until(ts: Option<nat>): nat { if ts.Some? then ts.value else U64 - 1 }

  /** `conn_qr_bounds` and `ts_bounds`. */
  function Bounds(f: QrFilter): (Bytes, Bytes) {
    match f.conn
    case Some(h) => (Pack([8, 8, 8], [h, From(f.startTs), 0]), Pack([8, 8, 8], [h, Until(f.endTs), U64 - 1]))
    case None => (Pack([8, 8], [From(f.startTs), 0]), Pack([8, 8], [Until(f.endTs), U64 - 1]))
  }

  /** Byte position of the request index in a key; the time is the eight bytes before it. */
  function IdxAt(f: QrFilter): nat { if f.conn.Some? then 16 else 8 }

  predicate KeysLongEnough<V>(f: QrFilter, targets: seq<Target<V>>) {
    forall i, k :: 0 <= i < |targets| && k in targets[i].db ==> |k| == IdxAt(f) + 8
  }

  function KeyIdx(f: QrFilter, k: Bytes): nat
    requires |k| == IdxAt(f) + 8
  {
    Val(k[IdxAt(f)..])
  }

  /** The index row of one raw row: dropped when no table knows the request's status, or when it is
      not the status asked for. */
  function Shown<V>(f: QrFilter, tables: seq<map<nat, QrPair>>, row: Row<V>): seq<IndexRow> {
    if |row.key| != IdxAt(f) + 8 then []
    else
      var q := KeyIdx(f, row.key);
      match StatusOf(tables, q)
      case None => []
      case Some(st) =>
        if f.status.Some? && f.status.value != st then []
        else [IndexRow(q, Val(row.key[IdxAt(f) - 8..IdxAt(f)]), st, f.conn)]
  }

  function ShownAll<V>(f: QrFilter, tables: seq<map<nat, QrPair>>, rows: seq<Row<V>>): seq<IndexRow> {
    if rows == [] then [] else Shown(f, tables, rows[0]) + ShownAll(f, tables, rows[1..])
  }

  lemma {:induction false} ShownConcat<V>(f: QrFilter, tables: seq<map<nat, QrPair>>, a: seq<Row<V>>, b: seq<Row<V>>)
    ensures ShownAll(f, tables, a + b) == ShownAll(f, tables, a) + ShownAll(f, tables, b)
    decreases |a|
  {
    if a == [] {
      assert a + b == b;
    } else {
      assert (a + b)[1..] == a[1..] + b;
      ShownConcat(f, tables, a[1..], b);
    }
  }

  // ---- The reference: what a filter asks for ----

  /** The first table that has a row of `q` with a known status has `st`. */
  ghost predicate KnownAs(tables: seq<map<nat, QrPair>>, q: nat, st: nat) {
    exists i :: 0 <= i < |tables| && Knows(tables[i], q) && tables[i][q].status == st
                && forall j :: 0 <= j < i ==> !Knows(tables[j], q)
  }

  predicate Knows(table: map<nat, QrPair>, q: nat) { q in table && table[q].status <= ABORTED_RESOURCE }

  /** The index key names request `q` opened at `ts`; a connection's key begins with the connection. */
  predicate Names(f: QrFilter, key: Bytes, ts: nat, q: nat) {
    && ts < U64 && q < U64
    && if f.conn.Some? then |key| == 24 && key[8..] == Be(ts, 8) + Be(q, 8) else key == Be(ts, 8) + Be(q, 8)
  }

  /** `row` is what the filter asks to see of the index row with this key. */
  ghost predicate Answers(f: QrFilter, tables: seq<map<nat, QrPair>>, key: Bytes, row: IndexRow) {
    && Names(f, key, row.qTs, row.q) && row.conn == f.conn && KnownAs(tables, row.q, row.status)
    && (f.status.Some? ==> row.status == f.status.value)
  }

  predicate Rising(at: seq<nat>) { forall i, j :: 0 <= i < j < |at| ==> at[i] < at[j] }

  /** `rows` are the answers to the raw rows at the positions `at`. */
  ghost predicate Points<V>(f: QrFilter, tables: seq<map<nat, QrPair>>, raw: seq<Row<V>>, at: seq<nat>,
                            rows: seq<IndexRow>) {
    |at| == |rows| && forall i :: 0 <= i < |at| ==> at[i] < |raw| && Answers(f, tables, raw[at[i]].key, rows[i])
  }

  /** No raw row elsewhere has an answer. */
  ghost predicate Complete<V>(f: QrFilter, tables: seq<map<nat, QrPair>>, raw: seq<Row<V>>, at: seq<nat>) {
    forall a, row :: 0 <= a < |raw| && Answers(f, tables, raw[a].key, row) ==> a in at
  }

  /** Exactly the answers, in the order of the raw rows. */
  ghost predicate AnswersAt<V>(f: QrFilter, tables: seq<map<nat, QrPair>>, raw: seq<Row<V>>, at: seq<nat>,
                               rows: seq<IndexRow>) {
    Rising(at) && Points(f, tables, raw, at, rows) && Complete(f, tables, raw, at)
  }

  ghost predicate AnswersAll<V>(f: QrFilter, tables: seq<map<nat, QrPair>>, raw: seq<Row<V>>,
                                      rows: seq<IndexRow>) {
    exists at :: AnswersAt(f, tables, raw, at, rows)
  }

  // ---- Status ----

  lemma {:induction false} StatusIsKnown(tables: seq<map<nat, QrPair>>, q: nat, st: nat)
    ensures KnownAs(tables, q, st) <==> StatusOf(tables, q) == Some(st)
    decreases |tables|
  {
    if tables != [] {
      StatusIsKnown(tables[1..], q, st);
      if Knows(tables[0], q) {
        assert KnownAs(tables, q, tables[0][q].status);
      } else {
        KnownLater(tables, q, st);
      }
    }
  }

  lemma KnownLater(tables: seq<map<nat, QrPair>>, q: nat, st: nat)
    requires tables != [] && !Knows(tables[0], q)
    ensures KnownAs(tables, q, st) <==> KnownAs(tables[1..], q, st)
  {
    var rest := tables[1..];
    if KnownAs(rest, q, st) {
      var i :| 0 <= i < |rest| && Knows(rest[i], q) && rest[i][q].status == st
               && forall j :: 0 <= j < i ==> !Knows(rest[j], q);
      assert tables[i + 1] == rest[i];
      assert forall j :: 0 < j < i + 1 ==> tables[j] == rest[j - 1];
    }
    if KnownAs(tables, q, st) {
      var i :| 0 <= i < |tables| && Knows(tables[i], q) && tables[i][q].status == st
               && forall j :: 0 <= j < i ==> !Knows(tables[j], q);
      assert rest[i - 1] == tables[i];
      assert forall j :: 0 <= j < i - 1 ==> rest[j] == tables[j + 1];
    }
  }

  // ---- Keys ----

  lemma SameHalves(a: Bytes, b: Bytes, ts: nat, q: nat)
    requires |a| == 8 && |b| == 8 && ts < U64 && q < U64
    ensures a + b == Be(ts, 8) + Be(q, 8) <==> ts == Val(a) && q == Val(b)
  {
    PowValues();
    ValOfBe(ts, 8);
    ValOfBe(q, 8);
    BeOfVal(a);
    BeOfVal(b);
    DropAppend(a, b, 8);
    DropAppend(Be(ts, 8), Be(q, 8), 8);
  }

  /** A key of the right length names exactly one request and time: the numbers the query reads. */
  lemma NamesExactly(f: QrFilter, key: Bytes, ts: nat, q: nat)
    requires |key| == IdxAt(f) + 8
    ensures Names(f, key, ts, q) <==> q == KeyIdx(f, key) && ts == Val(key[IdxAt(f) - 8..IdxAt(f)])
  {
    var n := IdxAt(f);
    var a, b := key[n - 8..n], key[n..];
    PowValues();
    ValBound(a);
    ValBound(b);
    assert key[n - 8..] == a + b;
    assert f.conn.None? ==> key[0..] == key;
    if ts < U64 && q < U64 {
      SameHalves(a, b, ts, q);
    }
  }

  // ---- What is shown ----

  /** An index row is shown exactly as the filter asks for it. */
  lemma ShownExactly<V>(f: QrFilter, tables: seq<map<nat, QrPair>>, raw: Row<V>, row: IndexRow)
    requires |raw.key| == IdxAt(f) + 8
    ensures |Shown(f, tables, raw)| <= 1
    ensures Answers(f, tables, raw.key, row) <==> Shown(f, tables, raw) == [row]
  {
    NamesExactly(f, raw.key, row.qTs, row.q);
    StatusIsKnown(tables, row.q, row.status);
    var q := KeyIdx(f, raw.key);
    if StatusOf(tables, q).Some? {
      assert Shown(f, tables, raw) == [] || Shown(f, tables, raw) == [IndexRow(q,
        Val(raw.key[IdxAt(f) - 8..IdxAt(f)]), StatusOf(tables, q).value, f.conn)];
    }
  }

  /** Positions one further on. */
  function Shifted(at: seq<nat>): (r: seq<nat>)
    ensures |r| == |at|
  {
    seq(|at|, i requires 0 <= i < |at| => at[i] + 1)
  }

  /** `s` behind `x`. */
  function Behind<T>(x: T, s: seq<T>): (r: seq<T>)
    ensures |r| == |s| + 1
  {
    [x] + s
  }

  lemma BehindAt<T>(x: T, s: seq<T>, i: nat)
    requires i <= |s|
    ensures Behind(x, s)[i] == if i == 0 then x else s[i - 1]
  {}

  lemma ShiftedAt(at: seq<nat>, i: nat)
    requires i < |at|
    ensures Shifted(at)[i] == at[i] + 1
  {}

  lemma NextAt(at: seq<nat>, i: nat)
    requires i <= |at|
    ensures Behind(0, Shifted(at))[i] == if i == 0 then 0 else at[i - 1] + 1
  {
    BehindAt(0, Shifted(at), i);
    if i > 0 {
      ShiftedAt(at, i - 1);
    }
  }

  lemma RisingShifted(at: seq<nat>)
    requires Rising(at)
    ensures Rising(Shifted(at))
  {
    forall i, j | 0 <= i < j < |at| ensures Shifted(at)[i] < Shifted(at)[j] {
      ShiftedAt(at, i);
      ShiftedAt(at, j);
    }
  }

  /** Behind a raw row without answer the positions move on by one. */
  lemma SkipsFirst<V>(f: QrFilter, tables: seq<map<nat, QrPair>>, raw: seq<Row<V>>, at: seq<nat>, rows: seq<IndexRow>)
    requires raw != [] && AnswersAt(f, tables, raw[1..], at, rows)
    requires forall row :: !Answers(f, tables, raw[0].key, row)
    ensures AnswersAt(f, tables, raw, Shifted(at), rows)
  {
    RisingShifted(at);
    forall i | 0 <= i < |at| ensures Shifted(at)[i] < |raw| && Answers(f, tables, raw[Shifted(at)[i]].key, rows[i]) {
      ShiftedAt(at, i);
      PositionMoves(f, tables, raw, at, rows, i);
    }
    forall a, row | 0 <= a < |raw| && Answers(f, tables, raw[a].key, row) ensures a in Shifted(at) {
      assert a > 0;
      var i := PositionFound(f, tables, raw, at, a, row);
      ShiftedAt(at, i);
    }
  }

  lemma RisingBehind(at: seq<nat>)
    requires Rising(at)
    ensures Rising(Behind(0, Shifted(at)))
  {
    forall i, j | 0 <= i < j <= |at| ensures Behind(0, Shifted(at))[i] < Behind(0, Shifted(at))[j] {
      NextAt(at, i);
      NextAt(at, j);
    }
  }

  lemma PointsBehind<V>(f: QrFilter, tables: seq<map<nat, QrPair>>, raw: seq<Row<V>>, at: seq<nat>,
                        rows: seq<IndexRow>, first: IndexRow)
    requires raw != [] && Points(f, tables, raw[1..], at, rows) && Answers(f, tables, raw[0].key, first)
    ensures Points(f, tables, raw, Behind(0, Shifted(at)), Behind(first, rows))
  {
    var next, all := Behind(0, Shifted(at)), Behind(first, rows);
    forall i | 0 <= i < |next| ensures next[i] < |raw| && Answers(f, tables, raw[next[i]].key, all[i]) {
      NextAt(at, i);
      BehindAt(first, rows, i);
      if i > 0 {
        PositionMoves(f, tables, raw, at, rows, i - 1);
      }
    }
  }

  lemma CompleteBehind<V>(f: QrFilter, tables: seq<map<nat, QrPair>>, raw: seq<Row<V>>, at: seq<nat>)
    requires raw != [] && Complete(f, tables, raw[1..], at)
    ensures Complete(f, tables, raw, Behind(0, Shifted(at)))
  {
    var next := Behind(0, Shifted(at));
    forall a, row | 0 <= a < |raw| && Answers(f, tables, raw[a].key, row) ensures a in next {
      if a == 0 {
        NextAt(at, 0);
      } else {
        var i := PositionFound(f, tables, raw, at, a, row);
        NextAt(at, i + 1);
      }
    }
  }

  /** Behind one with an answer they do too, and its own position comes first. */
  lemma TakesFirst<V>(f: QrFilter, tables: seq<map<nat, QrPair>>, raw: seq<Row<V>>, at: seq<nat>, rows: seq<IndexRow>,
                      first: IndexRow)
    requires raw != [] && AnswersAt(f, tables, raw[1..], at, rows) && Answers(f, tables, raw[0].key, first)
    ensures AnswersAt(f, tables, raw, Behind(0, Shifted(at)), Behind(first, rows))
  {
    RisingBehind(at);
    PointsBehind(f, tables, raw, at, rows, first);
    CompleteBehind(f, tables, raw, at);
  }

  lemma PositionMoves<V>(f: QrFilter, tables: seq<map<nat, QrPair>>, raw: seq<Row<V>>, at: seq<nat>,
                         rows: seq<IndexRow>, i: nat)
    requires raw != [] && Points(f, tables, raw[1..], at, rows) && i < |at|
    ensures at[i] + 1 < |raw| && Answers(f, tables, raw[at[i] + 1].key, rows[i])
  {
    assert raw[1..][at[i]] == raw[at[i] + 1];
  }

  lemma PositionFound<V>(f: QrFilter, tables: seq<map<nat, QrPair>>, raw: seq<Row<V>>, at: seq<nat>, a: nat,
                         row: IndexRow) returns (i: nat)
    requires raw != [] && Complete(f, tables, raw[1..], at)
    requires 0 < a < |raw| && Answers(f, tables, raw[a].key, row)
    ensures i < |at| && at[i] == a - 1
  {
    assert raw[1..][a - 1] == raw[a];
    i :| 0 <= i < |at| && at[i] == a - 1;
  }

  /** Of any raw rows exactly the answers are shown, in order. */
  lemma {:induction false} ShownAnswers<V>(f: QrFilter, tables: seq<map<nat, QrPair>>, raw: seq<Row<V>>)
    returns (at: seq<nat>)
    requires forall i :: 0 <= i < |raw| ==> |raw[i].key| == IdxAt(f) + 8
    ensures AnswersAt(f, tables, raw, at, ShownAll(f, tables, raw))
    decreases |raw|
  {
    if raw == [] {
      at := [];
    } else {
      var rest := ShownAnswers(f, tables, raw[1..]);
      var first := Shown(f, tables, raw[0]);
      forall row ensures Answers(f, tables, raw[0].key, row) <==> first == [row] {
        ShownExactly(f, tables, raw[0], row);
      }
      if first == [] {
        SkipsFirst(f, tables, raw, rest, ShownAll(f, tables, raw[1..]));
        at := Shifted(rest);
        assert ShownAll(f, tables, raw) == ShownAll(f, tables, raw[1..]);
      } else {
        ShownExactly(f, tables, raw[0], first[0]);
        assert first == [first[0]];
        TakesFirst(f, tables, raw, rest, ShownAll(f, tables, raw[1..]), first[0]);
        at := Behind(0, Shifted(rest));
        assert ShownAll(f, tables, raw) == Behind(first[0], ShownAll(f, tables, raw[1..]));
      }
    }
  }

  // ---- The window ----

  predicate FilterTyped(f: QrFilter) {
    && (f.conn.Some? ==> f.conn.value < U64) && (f.startTs.Some? ==> f.startTs.value < U64)
    && (f.endTs.Some? ==> f.endTs.value < U64)
  }

  /** The index key of a request: time and place, behind the connection when one is asked for. */
  function IndexKey(f: QrFilter, ts: nat, q: nat): Bytes {
    match f.conn
    case Some(h) => Pack([8, 8, 8], [h, ts, q])
    case None => Pack([8, 8], [ts, q])
  }

  /** The time lies in the window asked for; an end that is not given is open. */
  predicate InWindow(f: QrFilter, ts: nat) {
    (f.startTs.Some? ==> f.startTs.value <= ts) && (f.endTs.Some? ==> ts <= f.endTs.value)
  }

  ghost predicate IndexStored<V>(targets: seq<Target<V>>, key: Bytes) {
    exists i :: 0 <= i < |targets| && key in targets[i].db
  }

  /** What the filter asks to see of the stored index rows. */
  ghost predicate Asked<V>(f: QrFilter, tables: seq<map<nat, QrPair>>, targets: seq<Target<V>>, row: IndexRow) {
    && row.qTs < U64 && row.q < U64 && IndexStored(targets, IndexKey(f, row.qTs, row.q))
    && InWindow(f, row.qTs) && row.conn == f.conn
    && KnownAs(tables, row.q, row.status) && (f.status.Some? ==> row.status == f.status.value)
  }

  lemma PackTwo(a: nat, b: nat)
    ensures Pack([8, 8], [a, b]) == Be(a, 8) + Be(b, 8)
  {
    assert [8, 8][1..] == [8] && [8][1..] == [] && [a, b][1..] == [b] && [b][1..] == [];
    assert Pack([], []) == [];
    assert Pack([8], [b]) == Be(b, 8) + [];
  }

  lemma PackThree(a: nat, b: nat, c: nat)
    ensures Pack([8, 8, 8], [a, b, c]) == Be(a, 8) + (Be(b, 8) + Be(c, 8))
  {
    assert [8, 8, 8][1..] == [8, 8] && [a, b, c][1..] == [b, c];
    PackTwo(b, c);
  }

  /** A connection's key with another connection in front of the same time and place. */
  lemma ConnKey(key: Bytes, ts: nat, q: nat)
    requires |key| == 24 && key[8..] == Be(ts, 8) + Be(q, 8)
    ensures key == Pack([8, 8, 8], [Val(key[..8]), ts, q]) && Val(key[..8]) < U64
  {
    PowValues();
    ValBound(key[..8]);
    BeOfVal(key[..8]);
    PackThree(Val(key[..8]), ts, q);
    assert key == key[..8] + key[8..];
  }

  lemma ConnKeyIs(h: nat, ts: nat, q: nat)
    requires h < U64
    ensures var key := Pack([8, 8, 8], [h, ts, q]);
            |key| == 24 && key[8..] == Be(ts, 8) + Be(q, 8) && Val(key[..8]) == h
  {
    PowValues();
    PackThree(h, ts, q);
    ValOfBe(h, 8);
    DropAppend(Be(h, 8), Be(ts, 8) + Be(q, 8), 8);
  }

  /** A key in the query's byte range that names a request is its index key, inside the window. */
  lemma RangeExactly(f: QrFilter, key: Bytes, ts: nat, q: nat)
    requires FilterTyped(f)
    ensures InRange(Bounds(f).0, Bounds(f).1, key) && Names(f, key, ts, q)
       <==> ts < U64 && q < U64 && key == IndexKey(f, ts, q) && InWindow(f, ts)
  {
    if ts < U64 && q < U64 {
      match f.conn {
        case Some(h) =>
          if Names(f, key, ts, q) {
            ConnKey(key, ts, q);
            ConnWindowRange(Val(key[..8]), ts, q, h, From(f.startTs), Until(f.endTs));
          }
          ConnKeyIs(h, ts, q);
          ConnWindowRange(h, ts, q, h, From(f.startTs), Until(f.endTs));
        case None =>
          PackTwo(ts, q);
          WindowRange(ts, q, From(f.startTs), Until(f.endTs));
      }
    }
  }

  /** Rows that a scan of the query's range finds are rows of the index, in the window. */
  lemma StoredNames<V>(f: QrFilter, targets: seq<Target<V>>, raw: Row<V>, ts: nat, q: nat)
    requires FilterTyped(f) && Stored(targets, Bounds(f).0, Bounds(f).1, raw) && Names(f, raw.key, ts, q)
    ensures raw.key == IndexKey(f, ts, q) && InWindow(f, ts) && IndexStored(targets, raw.key)
  {
    RangeExactly(f, raw.key, ts, q);
  }

  /** Rows shown of stored raw rows are what the filter asks for. */
  lemma ShownIsAsked<V>(f: QrFilter, tables: seq<map<nat, QrPair>>, targets: seq<Target<V>>, raw: seq<Row<V>>,
                        row: IndexRow)
    requires FilterTyped(f) && KeysLongEnough(f, targets) && row in ShownAll(f, tables, raw)
    requires forall x :: x in raw ==> Stored(targets, Bounds(f).0, Bounds(f).1, x)
    ensures Asked(f, tables, targets, row)
  {
    StoredLengths(f, targets, raw);
    var at := ShownAnswers(f, tables, raw);
    var i :| 0 <= i < |at| && ShownAll(f, tables, raw)[i] == row;
    assert raw[at[i]] in raw;
    StoredNames(f, targets, raw[at[i]], row.qTs, row.q);
  }

  lemma StoredLengths<V>(f: QrFilter, targets: seq<Target<V>>, raw: seq<Row<V>>)
    requires KeysLongEnough(f, targets) && forall x :: x in raw ==> Stored(targets, Bounds(f).0, Bounds(f).1, x)
    ensures forall i :: 0 <= i < |raw| ==> |raw[i].key| == IdxAt(f) + 8
  {
    forall i | 0 <= i < |raw| ensures |raw[i].key| == IdxAt(f) + 8 {
      assert raw[i] in raw;
    }
  }

  lemma AskedIsStored<V>(f: QrFilter, tables: seq<map<nat, QrPair>>, targets: seq<Target<V>>, row: IndexRow)
    returns (raw: Row<V>)
    requires FilterTyped(f) && Asked(f, tables, targets, row)
    ensures Stored(targets, Bounds(f).0, Bounds(f).1, raw) && Answers(f, tables, raw.key, row)
  {
    var key := IndexKey(f, row.qTs, row.q);
    var i :| 0 <= i < |targets| && key in targets[i].db;
    RangeExactly(f, key, row.qTs, row.q);
    raw := Row(targets[i].num, key, targets[i].db[key]);
  }

  /** The stream sends exactly what the filter asks for: every stored index row of the connection asked
      for, inside the window, whose request has the status asked for in the first table that knows one. */
  lemma SentExactly<V>(f: QrFilter, tables: seq<map<nat, QrPair>>, targets: seq<Target<V>>, row: IndexRow)
    requires Sorted(targets) && KeysLongEnough(f, targets) && FilterTyped(f)
    ensures row in ShownAll(f, tables, Full(targets, Bounds(f).0, Bounds(f).1)) <==> Asked(f, tables, targets, row)
  {
    var raw := Full(targets, Bounds(f).0, Bounds(f).1);
    FullScanIsExact(targets, Bounds(f).0, Bounds(f).1);
    if row in ShownAll(f, tables, raw) {
      ShownIsAsked(f, tables, targets, raw, row);
    }
    if Asked(f, tables, targets, row) {
      var x := AskedIsStored(f, tables, targets, row);
      StoredLengths(f, targets, raw);
      var at := ShownAnswers(f, tables, raw);
      var a :| 0 <= a < |raw| && raw[a] == x;
      AnswerIsShown(f, tables, raw, at, a, row);
    }
  }

  lemma AnswerIsShown<V>(f: QrFilter, tables: seq<map<nat, QrPair>>, raw: seq<Row<V>>, at: seq<nat>, a: nat,
                         row: IndexRow)
    requires AnswersAt(f, tables, raw, at, ShownAll(f, tables, raw)) && a < |raw|
    requires |raw[a].key| == IdxAt(f) + 8 && Answers(f, tables, raw[a].key, row)
    ensures row in ShownAll(f, tables, raw)
  {
    assert a in at;
    var i :| 0 <= i < |at| && at[i] == a;
    ShownExactly(f, tables, raw[a], row);
    ShownExactly(f, tables, raw[a], ShownAll(f, tables, raw)[i]);
  }

  lemma AnswersShown<V>(f: QrFilter, tables: seq<map<nat, QrPair>>, raw: seq<Row<V>>)
    requires forall i :: 0 <= i < |raw| ==> |raw[i].key| == IdxAt(f) + 8
    ensures AnswersAll(f, tables, raw, ShownAll(f, tables, raw))
  {
    var at := ShownAnswers(f, tables, raw);
  }

  lemma FullLengths<V>(f: QrFilter, targets: seq<Target<V>>, lo: Bytes, hi: Bytes)
    requires Sorted(targets) && KeysLongEnough(f, targets)
    ensures forall i :: 0 <= i < |Full(targets, lo, hi)| ==> |Full(targets, lo, hi)[i].key| == IdxAt(f) + 8
  {
    FullScanIsExact(targets, lo, hi);
    var raw := Full(targets, lo, hi);
    forall i | 0 <= i < |raw| ensures |raw[i].key| == IdxAt(f) + 8 {
      assert raw[i] in raw && Stored(targets, lo, hi, raw[i]);
    }
  }

  /** The full scan of the query's range shows exactly what the filter asks for, in order. */
  lemma FullAnswers<V>(f: QrFilter, tables: seq<map<nat, QrPair>>, targets: seq<Target<V>>)
    requires Sorted(targets) && KeysLongEnough(f, targets)
    ensures var raw := Full(targets, Bounds(f).0, Bounds(f).1);
            && AnswersAll(f, tables, raw, ShownAll(f, tables, raw))
            && (FilterTyped(f) ==> forall row :: row in ShownAll(f, tables, raw) <==> Asked(f, tables, targets, row))
  {
    FullLengths(f, targets, Bounds(f).0, Bounds(f).1);
    AnswersShown(f, tables, Full(targets, Bounds(f).0, Bounds(f).1));
    if FilterTyped(f) {
      AllSentExactly(f, tables, targets);
    }
  }

  lemma AllSentExactly<V>(f: QrFilter, tables: seq<map<nat, QrPair>>, targets: seq<Target<V>>)
    requires Sorted(targets) && KeysLongEnough(f, targets) && FilterTyped(f)
    ensures forall row :: row in ShownAll(f, tables, Full(targets, Bounds(f).0, Bounds(f).1))
                     <==> Asked(f, tables, targets, row)
  {
    forall row
      ensures row in ShownAll(f, tables, Full(targets, Bounds(f).0, Bounds(f).1)) <==> Asked(f, tables, targets, row)
    {
      SentExactly(f, tables, targets, row);
    }
  }
}
