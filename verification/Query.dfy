/** Range queries over many epochs. A page is cut out of one long list, the rows after its cursor in
    (epoch, key) order; pages put together give that list back. */
module Query {
  import opened Common
  import opened Ordering
  import opened Codec
  import opened KeyCodec
  import opened Store

  /** One epoch as a query sees it: its number and one of its databases. */
  datatype Target<V> = Target(num: nat, db: map<Bytes, V>, isCurrent: bool)

  datatype Row<V> = Row(num: nat, key: Bytes, value: V)

  datatype Page = Page(cursor: Option<Bytes>, limit: nat, forward: bool)

  // ---- Cursors ----

  function EncodeCursor(epoch: nat, key: Bytes): Bytes { Be(epoch, 4) + key }

  function ParseCursor(cursor: Option<Bytes>): (nat, Option<Bytes>) {
    match cursor
    case Some(c) => if |c| >= 4 then (Val(c[..4]), Some(c[4..])) else (0, None)
    case None => (0, None)
  }

  lemma CursorRoundTrip(epoch: nat, key: Bytes)
    requires epoch < U32
    ensures ParseCursor(Some(EncodeCursor(epoch, key))) == (epoch, Some(key))
  {
    PowValues();
    ValOfBe(epoch, 4);
    assert EncodeCursor(epoch, key)[..4] == Be(epoch, 4) && EncodeCursor(epoch, key)[4..] == key;
  }

  // ---- One epoch ----

  ghost function RowsOf<V>(t: Target<V>, keys: seq<Bytes>): (r: seq<Row<V>>)
    requires forall i :: 0 <= i < |keys| ==> keys[i] in t.db
    ensures |r| == |keys| && forall i :: 0 <= i < |r| ==> r[i] == Row(t.num, keys[i], t.db[keys[i]])
  {
    seq(|keys|, i requires 0 <= i < |keys| => Row(t.num, keys[i], t.db[keys[i]]))
  }

  /** Keys in byte order. */
  ghost function InOrder<V>(t: Target<V>, keys: set<Bytes>): (r: seq<Row<V>>)
    requires keys <= t.db.Keys
    ensures |r| == |keys|
  {
    LexOrder();
    var s := Ascend(LexLess, keys);
    assert forall i :: 0 <= i < |s| ==> s[i] in s;
    RowsOf(t, s)
  }

  predicate InRange(lo: Bytes, hi: Bytes, k: Bytes) { LexLe(lo, k) && LexLe(k, hi) }

  /** Keys of a forward scan: the whole range, or the part past the cursor. */
  ghost function KeysFrom<V>(t: Target<V>, lo: Bytes, hi: Bytes, after: Option<Bytes>): set<Bytes> {
    match after
    case None => set k | k in t.db && InRange(lo, hi, k)
    case Some(c) => set k | k in t.db && LexLess(c, k) && LexLe(k, hi)
  }

  ghost function RowsFrom<V>(t: Target<V>, lo: Bytes, hi: Bytes, after: Option<Bytes>): seq<Row<V>> {
    InOrder(t, KeysFrom(t, lo, hi, after))
  }

  lemma RowsFromAre<V>(t: Target<V>, lo: Bytes, hi: Bytes, after: Option<Bytes>)
    ensures StrictOrder(LexLess)
    ensures var s, r := Ascend(LexLess, KeysFrom(t, lo, hi, after)), RowsFrom(t, lo, hi, after);
            && |r| == |s|
            && forall i :: 0 <= i < |r| ==> s[i] in t.db && r[i] == Row(t.num, s[i], t.db[s[i]])
  {
    LexOrder();
    var s := Ascend(LexLess, KeysFrom(t, lo, hi, after));
    assert forall i :: 0 <= i < |s| ==> s[i] in s;
  }

  /** The rows past the row at `p - 1` are the tail from `p`. */
  lemma RowsPast<V>(t: Target<V>, lo: Bytes, hi: Bytes, after: Option<Bytes>, p: nat)
    requires 1 <= p <= |RowsFrom(t, lo, hi, after)|
    ensures RowsFrom(t, lo, hi, Some(RowsFrom(t, lo, hi, after)[p - 1].key)) == RowsFrom(t, lo, hi, after)[p..]
  {
    RowsFromAre(t, lo, hi, after);
    var s := Ascend(LexLess, KeysFrom(t, lo, hi, after));
    KeysPast(t, lo, hi, after, s, p);
    RowsFromAre(t, lo, hi, Some(s[p - 1]));
    var r, r1 := RowsFrom(t, lo, hi, after), RowsFrom(t, lo, hi, Some(s[p - 1]));
    assert |r1| == |r[p..]|;
    forall i | 0 <= i < |r1| ensures r1[i] == r[p..][i] {
      assert s[p..][i] == s[p + i] && r[p..][i] == r[p + i];
    }
  }

  lemma KeysPast<V>(t: Target<V>, lo: Bytes, hi: Bytes, after: Option<Bytes>, s: seq<Bytes>, p: nat)
    requires StrictOrder(LexLess) && s == Ascend(LexLess, KeysFrom(t, lo, hi, after)) && 1 <= p <= |s|
    ensures Ascend(LexLess, KeysFrom(t, lo, hi, Some(s[p - 1]))) == s[p..]
  {
    var c := s[p - 1];
    assert c in s;
    forall k ensures k in KeysFrom(t, lo, hi, Some(c)) <==> k in KeysFrom(t, lo, hi, after) && LexLess(c, k) {
      SameTail(t, lo, hi, after, c, k);
    }
    AscendTail(LexLess, KeysFrom(t, lo, hi, after), KeysFrom(t, lo, hi, Some(c)), s, p);
  }

  lemma SameTail<V>(t: Target<V>, lo: Bytes, hi: Bytes, after: Option<Bytes>, c: Bytes, k: Bytes)
    requires StrictOrder(LexLess) && c in KeysFrom(t, lo, hi, after)
    ensures k in KeysFrom(t, lo, hi, Some(c)) <==> k in KeysFrom(t, lo, hi, after) && LexLess(c, k)
  {
    match after {
      case None => assert LexLe(lo, c) && (LexLess(c, k) ==> LexLe(lo, k));
      case Some(a) => assert LexLess(a, c) && (LexLess(c, k) ==> LexLess(a, k));
    }
  }

  // ---- All epochs ----

  /** Epoch numbers ascend. */
  ghost predicate Sorted<V>(targets: seq<Target<V>>) {
    && (forall i :: 0 <= i < |targets| ==> targets[i].num < U32)
    && forall i, j :: 0 <= i < j < |targets| ==> targets[i].num < targets[j].num
  }

  /** The cursor key, when the cursor lies in epoch `num`. */
  function CursorIn(num: nat, epoch: nat, key: Option<Bytes>): Option<Bytes> {
    if num == epoch then key else None
  }

  /** Rows of one epoch that a forward page may still deliver. */
  ghost function Segment<V>(t: Target<V>, lo: Bytes, hi: Bytes, epoch: nat, key: Option<Bytes>): seq<Row<V>> {
    if t.num < epoch then [] else RowsFrom(t, lo, hi, CursorIn(t.num, epoch, key))
  }

  /** All rows after the cursor, in (epoch, key) order. */
  ghost function Rest<V>(targets: seq<Target<V>>, lo: Bytes, hi: Bytes, epoch: nat, key: Option<Bytes>): seq<Row<V>> {
    if targets == [] then []
    else Segment(targets[0], lo, hi, epoch, key) + Rest(targets[1..], lo, hi, epoch, key)
  }

  /** The plain full scan. */
  ghost function Full<V>(targets: seq<Target<V>>, lo: Bytes, hi: Bytes): seq<Row<V>> {
    if targets == [] then [] else RowsFrom(targets[0], lo, hi, None) + Full(targets[1..], lo, hi)
  }

  lemma {:induction false} RestFromStart<V>(targets: seq<Target<V>>, lo: Bytes, hi: Bytes)
    ensures Rest(targets, lo, hi, 0, None) == Full(targets, lo, hi)
  {
    if targets != [] {
      RestFromStart(targets[1..], lo, hi);
    }
  }

  /** Epochs past the cursor's epoch are scanned whole. */
  lemma {:induction false} RestPast<V>(targets: seq<Target<V>>, lo: Bytes, hi: Bytes, epoch: nat, key: Option<Bytes>)
    requires forall i :: 0 <= i < |targets| ==> targets[i].num > epoch
    ensures Rest(targets, lo, hi, epoch, key) == Full(targets, lo, hi)
  {
    if targets != [] {
      assert targets[0].num > epoch;
      RestPast(targets[1..], lo, hi, epoch, key);
    }
  }

  /** `rest` is what follows the first `p` of `all`. */
  ghost predicate Follows<T>(all: seq<T>, p: nat, rest: seq<T>) {
    |all| == p + |rest| && forall i :: p <= i < |all| ==> all[i] == rest[i - p]
  }

  lemma FollowsConcat<T>(a: seq<T>, b: seq<T>, q: nat, p: nat, rest: seq<T>)
    requires 1 <= q && p == |a| + q && Follows(b, q, rest)
    ensures Follows(a + b, p, rest) && (a + b)[p - 1] == b[q - 1]
  {
    forall i | p <= i < |a + b| ensures (a + b)[i] == rest[i - p] {
      assert (a + b)[i] == b[i - |a|];
    }
  }

  /** Row `p - 1` of what a cursor sees, taken as a cursor, sees exactly the rows past it. */
  ghost predicate SeesRest<V>(targets: seq<Target<V>>, lo: Bytes, hi: Bytes, epoch: nat, key: Option<Bytes>, p: nat) {
    var r := Rest(targets, lo, hi, epoch, key);
    1 <= p <= |r| && Follows(r, p, Rest(targets, lo, hi, r[p - 1].num, Some(r[p - 1].key)))
  }

  lemma SeesAfterHead<V>(targets: seq<Target<V>>, lo: Bytes, hi: Bytes, epoch: nat, key: Option<Bytes>, p: nat)
    requires Sorted(targets) && targets != [] && 1 <= p <= |Segment(targets[0], lo, hi, epoch, key)|
    ensures SeesRest(targets, lo, hi, epoch, key, p)
  {
    RestUnfolds(targets, lo, hi, epoch, key);
    SliceConcat(Segment(targets[0], lo, hi, epoch, key), Rest(targets[1..], lo, hi, epoch, key), p);
    RestAfterHead(targets, lo, hi, epoch, key, p);
  }

  /** A row of a later epoch sees what it sees of the later epochs. */
  lemma RestOfTail<V>(targets: seq<Target<V>>, lo: Bytes, hi: Bytes, epoch: nat, key: Option<Bytes>, q: nat)
    requires Sorted(targets) && targets != [] && 1 <= q <= |Rest(targets[1..], lo, hi, epoch, key)|
    ensures var r := Rest(targets[1..], lo, hi, epoch, key)[q - 1];
            Rest(targets, lo, hi, r.num, Some(r.key)) == Rest(targets[1..], lo, hi, r.num, Some(r.key))
  {
    var r := Rest(targets[1..], lo, hi, epoch, key)[q - 1];
    RestNums(targets[1..], lo, hi, epoch, key, q - 1);
    RestSkips(targets, lo, hi, r.num, r.key);
  }

  lemma SeesAfterTail<V>(targets: seq<Target<V>>, lo: Bytes, hi: Bytes, epoch: nat, key: Option<Bytes>, q: nat, p: nat)
    requires Sorted(targets) && targets != [] && SeesRest(targets[1..], lo, hi, epoch, key, q)
    requires p == |Segment(targets[0], lo, hi, epoch, key)| + q
    ensures SeesRest(targets, lo, hi, epoch, key, p)
  {
    var head, tail := Segment(targets[0], lo, hi, epoch, key), Rest(targets[1..], lo, hi, epoch, key);
    RestUnfolds(targets, lo, hi, epoch, key);
    FollowsConcat(head, tail, q, p, Rest(targets[1..], lo, hi, tail[q - 1].num, Some(tail[q - 1].key)));
    RestOfTail(targets, lo, hi, epoch, key, q);
  }

  lemma {:induction false} RestAfter<V>(targets: seq<Target<V>>, lo: Bytes, hi: Bytes, epoch: nat,
                                        key: Option<Bytes>, p: nat)
    requires Sorted(targets) && 1 <= p <= |Rest(targets, lo, hi, epoch, key)|
    ensures SeesRest(targets, lo, hi, epoch, key, p)
    decreases |targets|
  {
    var n := |Segment(targets[0], lo, hi, epoch, key)|;
    if p <= n {
      SeesAfterHead(targets, lo, hi, epoch, key, p);
    } else {
      RestLength(targets, lo, hi, epoch, key);
      SortedTail(targets);
      RestAfter(targets[1..], lo, hi, epoch, key, p - n);
      SeesAfterTail(targets, lo, hi, epoch, key, p - n, p);
    }
  }

  lemma RestLength<V>(targets: seq<Target<V>>, lo: Bytes, hi: Bytes, epoch: nat, key: Option<Bytes>)
    requires targets != []
    ensures |Rest(targets, lo, hi, epoch, key)|
         == |Segment(targets[0], lo, hi, epoch, key)| + |Rest(targets[1..], lo, hi, epoch, key)|
  {}

  lemma SortedTail<V>(targets: seq<Target<V>>)
    requires Sorted(targets) && targets != []
    ensures Sorted(targets[1..])
  {}

  /** A cursor in a later epoch skips the first one. */
  lemma RestSkips<V>(targets: seq<Target<V>>, lo: Bytes, hi: Bytes, num: nat, key: Bytes)
    requires Sorted(targets) && targets != []
    requires exists j :: 0 <= j < |targets[1..]| && targets[1..][j].num == num
    ensures Rest(targets, lo, hi, num, Some(key)) == Rest(targets[1..], lo, hi, num, Some(key))
  {
    var j :| 0 <= j < |targets[1..]| && targets[1..][j].num == num;
    assert targets[1..][j] == targets[j + 1] && targets[0].num < targets[j + 1].num;
    RestUnfolds(targets, lo, hi, num, Some(key));
    assert Segment(targets[0], lo, hi, num, Some(key)) == [];
  }

  lemma SegmentPast<V>(t: Target<V>, lo: Bytes, hi: Bytes, epoch: nat, key: Option<Bytes>, p: nat)
    requires 1 <= p <= |Segment(t, lo, hi, epoch, key)|
    ensures var head := Segment(t, lo, hi, epoch, key); var last := head[p - 1];
            last.num == t.num && epoch <= t.num && Segment(t, lo, hi, t.num, Some(last.key)) == head[p..]
  {
    RowsFromAre(t, lo, hi, CursorIn(t.num, epoch, key));
    RowsPast(t, lo, hi, CursorIn(t.num, epoch, key), p);
  }

  lemma RestUnfolds<V>(targets: seq<Target<V>>, lo: Bytes, hi: Bytes, epoch: nat, key: Option<Bytes>)
    requires targets != []
    ensures Rest(targets, lo, hi, epoch, key)
         == Segment(targets[0], lo, hi, epoch, key) + Rest(targets[1..], lo, hi, epoch, key)
  {}

  lemma RestAfterHead<V>(targets: seq<Target<V>>, lo: Bytes, hi: Bytes, epoch: nat, key: Option<Bytes>, p: nat)
    requires Sorted(targets) && targets != [] && 1 <= p <= |Segment(targets[0], lo, hi, epoch, key)|
    ensures var head := Segment(targets[0], lo, hi, epoch, key);
            Rest(targets, lo, hi, head[p - 1].num, Some(head[p - 1].key))
            == head[p..] + Rest(targets[1..], lo, hi, epoch, key)
  {
    var t, others := targets[0], targets[1..];
    var head := Segment(t, lo, hi, epoch, key);
    SegmentPast(t, lo, hi, epoch, key, p);
    var last := head[p - 1];
    assert forall i :: 0 <= i < |others| ==> others[i] == targets[i + 1];
    RestPast(others, lo, hi, t.num, Some(last.key));
    RestPast(others, lo, hi, epoch, key);
    RestUnfolds(targets, lo, hi, t.num, Some(last.key));
  }

  lemma SliceConcat<T>(a: seq<T>, b: seq<T>, p: nat)
    requires 1 <= p
    ensures p <= |a| ==> (a + b)[p - 1] == a[p - 1] && (a + b)[p..] == a[p..] + b
    ensures |a| < p <= |a| + |b| ==> (a + b)[p - 1] == b[p - |a| - 1] && (a + b)[p..] == b[p - |a|..]
  {}

  lemma {:induction false} RestNums<V>(targets: seq<Target<V>>, lo: Bytes, hi: Bytes, epoch: nat, key: Option<Bytes>,
                                       i: nat)
    requires i < |Rest(targets, lo, hi, epoch, key)|
    ensures exists j :: 0 <= j < |targets| && targets[j].num == Rest(targets, lo, hi, epoch, key)[i].num
    decreases |targets|
  {
    var head := Segment(targets[0], lo, hi, epoch, key);
    if i < |head| {
      RowsFromAre(targets[0], lo, hi, CursorIn(targets[0].num, epoch, key));
    } else {
      RestNums(targets[1..], lo, hi, epoch, key, i - |head|);
      var j :| 0 <= j < |targets[1..]| && targets[1..][j].num == Rest(targets[1..], lo, hi, epoch, key)[i - |head|].num;
      assert targets[j + 1] == targets[1..][j];
    }
  }

  // ---- Pages ----

  function Take<T>(s: seq<T>, n: nat): seq<T> { if |s| <= n then s else s[..n] }

  /** Rows after the cursor of a page. */
  ghost function RestOf<V>(targets: seq<Target<V>>, lo: Bytes, hi: Bytes, cursor: Option<Bytes>): seq<Row<V>> {
    var (epoch, key) := ParseCursor(cursor);
    Rest(targets, lo, hi, epoch, key)
  }

  /** `page_rows_epochs`, forward. */
  ghost function Forward<V>(targets: seq<Target<V>>, lo: Bytes, hi: Bytes, cursor: Option<Bytes>,
                            limit: nat): seq<Row<V>> {
    Take(RestOf(targets, lo, hi, cursor), Max(limit, 1))
  }

  function NextCursor<V>(raw: seq<Row<V>>): Option<Bytes> {
    if raw == [] then None else Some(EncodeCursor(raw[|raw| - 1].num, raw[|raw| - 1].key))
  }

  predicate HasMore<V>(raw: seq<Row<V>>, limit: nat) { |raw| >= limit && NextCursor(raw).Some? }

  lemma TakePrefix<T>(s: seq<T>, n: nat)
    ensures var r := Take(s, n); |r| <= |s| && r == s[..|r|] && (|r| < n ==> r == s)
  {}

  /** The cursor of a row sees exactly the rows past it. */
  lemma RestPastRow<V>(targets: seq<Target<V>>, lo: Bytes, hi: Bytes, cursor: Option<Bytes>, n: nat)
    requires Sorted(targets) && 1 <= n <= |RestOf(targets, lo, hi, cursor)|
    ensures var rest := RestOf(targets, lo, hi, cursor); var last := rest[n - 1];
            RestOf(targets, lo, hi, Some(EncodeCursor(last.num, last.key))) == rest[n..]
  {
    var (epoch, key) := ParseCursor(cursor);
    var last := RestOf(targets, lo, hi, cursor)[n - 1];
    RestAfter(targets, lo, hi, epoch, key, n);
    RestNums(targets, lo, hi, epoch, key, n - 1);
    CursorRoundTrip(last.num, last.key);
  }

  lemma LastOfTake<T>(s: seq<T>, raw: seq<T>)
    requires raw != [] && |raw| <= |s| && raw == s[..|raw|]
    ensures raw[|raw| - 1] == s[|raw| - 1]
  {}

  /** The next cursor of a page sees exactly the rows past the page. */
  lemma PastPage<V>(targets: seq<Target<V>>, lo: Bytes, hi: Bytes, cursor: Option<Bytes>, raw: seq<Row<V>>,
                    rest: seq<Row<V>>)
    requires Sorted(targets) && rest == RestOf(targets, lo, hi, cursor)
    requires raw != [] && |raw| <= |rest| && raw[|raw| - 1] == rest[|raw| - 1]
    ensures RestOf(targets, lo, hi, NextCursor(raw)) == rest[|raw|..]
  {
    RestPastRow(targets, lo, hi, cursor, |raw|);
  }

  /** The next page starts where this one ended; the page says that more may follow exactly when the rows
      left fill it, even if they fill it exactly. */
  lemma PageAdvances<V>(targets: seq<Target<V>>, lo: Bytes, hi: Bytes, cursor: Option<Bytes>, limit: nat)
    requires Sorted(targets)
    ensures var raw, rest := Forward(targets, lo, hi, cursor, limit), RestOf(targets, lo, hi, cursor);
            && |raw| <= |rest| && raw == rest[..|raw|]
            && (raw != [] ==> RestOf(targets, lo, hi, NextCursor(raw)) == rest[|raw|..])
            && (!HasMore(raw, limit) ==> raw == rest)
            && (HasMore(raw, limit) <==> |rest| >= Max(limit, 1))
  {
    var raw, rest := Forward(targets, lo, hi, cursor, limit), RestOf(targets, lo, hi, cursor);
    TakePrefix(rest, Max(limit, 1));
    if raw != [] {
      LastOfTake(rest, raw);
      PastPage(targets, lo, hi, cursor, raw, rest);
    }
  }

  /** Page after page while there is more; the `i`-th page has limit `limit(i)`. */
  ghost function AllPages<V>(targets: seq<Target<V>>, lo: Bytes, hi: Bytes, cursor: Option<Bytes>, limit: nat -> nat,
                             i: nat)
    : seq<Row<V>>
    requires Sorted(targets)
    decreases |RestOf(targets, lo, hi, cursor)|
  {
    var raw := Forward(targets, lo, hi, cursor, limit(i));
    PageAdvances(targets, lo, hi, cursor, limit(i));
    if HasMore(raw, limit(i)) then raw + AllPages(targets, lo, hi, NextCursor(raw), limit, i + 1) else raw
  }

  /** Whatever the page limits: the pages end, and together they are every row after the cursor,
      once, in (epoch, key) order. */
  lemma {:induction false} PagesAreTheRest<V>(targets: seq<Target<V>>, lo: Bytes, hi: Bytes, cursor: Option<Bytes>,
                                             limit: nat -> nat, i: nat)
    requires Sorted(targets)
    ensures AllPages(targets, lo, hi, cursor, limit, i) == RestOf(targets, lo, hi, cursor)
    decreases |RestOf(targets, lo, hi, cursor)|
  {
    var raw := Forward(targets, lo, hi, cursor, limit(i));
    PageAdvances(targets, lo, hi, cursor, limit(i));
    if HasMore(raw, limit(i)) {
      PagesAreTheRest(targets, lo, hi, NextCursor(raw), limit, i + 1);
      var rest := RestOf(targets, lo, hi, cursor);
      assert rest == rest[..|raw|] + rest[|raw|..];
    }
  }

  /** From the first page on: the full scan. */
  lemma PagesAreTheFullScan<V>(targets: seq<Target<V>>, lo: Bytes, hi: Bytes, limit: nat -> nat)
    requires Sorted(targets)
    ensures AllPages(targets, lo, hi, None, limit, 0) == Full(targets, lo, hi)
  {
    PagesAreTheRest(targets, lo, hi, None, limit, 0);
    RestFromStart(targets, lo, hi);
  }

  // ---- What the full scan is ----

  /** Every stored row of the range occurs. */
  ghost predicate Stored<V>(targets: seq<Target<V>>, lo: Bytes, hi: Bytes, row: Row<V>) {
    exists i :: 0 <= i < |targets| && row.num == targets[i].num && row.key in targets[i].db
                && row.value == targets[i].db[row.key] && InRange(lo, hi, row.key)
  }

  predicate RowLess<V>(a: Row<V>, b: Row<V>) { a.num < b.num || (a.num == b.num && LexLess(a.key, b.key)) }

  ghost predicate Increasing<V>(s: seq<Row<V>>) { forall i, j :: 0 <= i < j < |s| ==> RowLess(s[i], s[j]) }

  /** The full scan holds exactly the stored rows of the range ... */
  lemma {:induction false} FullRows<V>(targets: seq<Target<V>>, lo: Bytes, hi: Bytes)
    ensures forall row :: row in Full(targets, lo, hi) <==> Stored(targets, lo, hi, row)
    decreases |targets|
  {
    if targets != [] {
      FullRows(targets[1..], lo, hi);
      HeadRows(targets[0], lo, hi);
      var head, tail := RowsFrom(targets[0], lo, hi, None), Full(targets[1..], lo, hi);
      forall row ensures row in head + tail <==> Stored(targets, lo, hi, row) {
        StoredSplit(targets, lo, hi, row);
        assert row in head + tail <==> row in head || row in tail;
      }
    }
  }

  lemma IncreasingJoin<V>(head: seq<Row<V>>, tail: seq<Row<V>>, num: nat)
    requires Increasing(head) && Increasing(tail)
    requires (forall i :: 0 <= i < |head| ==> head[i].num == num) && forall i :: 0 <= i < |tail| ==> num < tail[i].num
    ensures Increasing(head + tail)
  {
    forall i, j | 0 <= i < j < |head + tail| ensures RowLess((head + tail)[i], (head + tail)[j]) {
      if |head| <= i {
        assert RowLess(tail[i - |head|], tail[j - |head|]);
      }
    }
  }

  /** ... in strictly increasing order, hence each once. */
  lemma {:induction false} FullIncreases<V>(targets: seq<Target<V>>, lo: Bytes, hi: Bytes)
    requires Sorted(targets)
    ensures Increasing(Full(targets, lo, hi))
    decreases |targets|
  {
    if targets != [] {
      var t, others := targets[0], targets[1..];
      assert forall i :: 0 <= i < |others| ==> others[i] == targets[i + 1];
      FullIncreases(others, lo, hi);
      HeadRows(t, lo, hi);
      FullRows(others, lo, hi);
      var tail := Full(others, lo, hi);
      forall i | 0 <= i < |tail| ensures t.num < tail[i].num {
        assert tail[i] in tail && Stored(others, lo, hi, tail[i]);
      }
      IncreasingJoin(RowsFrom(t, lo, hi, None), tail, t.num);
    }
  }

  lemma FullScanIsExact<V>(targets: seq<Target<V>>, lo: Bytes, hi: Bytes)
    requires Sorted(targets)
    ensures forall row :: row in Full(targets, lo, hi) <==> Stored(targets, lo, hi, row)
    ensures Increasing(Full(targets, lo, hi))
  {
    FullRows(targets, lo, hi);
    FullIncreases(targets, lo, hi);
  }

  lemma HeadRows<V>(t: Target<V>, lo: Bytes, hi: Bytes)
    ensures var head := RowsFrom(t, lo, hi, None);
            && (forall row :: row in head <==>
                 (row.num == t.num && row.key in t.db && row.value == t.db[row.key] && InRange(lo, hi, row.key)))
            && Increasing(head) && forall i :: 0 <= i < |head| ==> head[i].num == t.num
  {
    RowsFromAre(t, lo, hi, None);
    var s, head := Ascend(LexLess, KeysFrom(t, lo, hi, None)), RowsFrom(t, lo, hi, None);
    forall row | row in head
      ensures row.num == t.num && row.key in t.db && row.value == t.db[row.key] && InRange(lo, hi, row.key)
    {
      var i :| 0 <= i < |head| && head[i] == row;
      assert s[i] in s;
    }
    forall row: Row<V> | row.num == t.num && row.key in t.db && row.value == t.db[row.key] && InRange(lo, hi, row.key)
      ensures row in head
    {
      assert row.key in s;
      var i :| 0 <= i < |s| && s[i] == row.key;
      assert head[i] == row;
    }
  }

  lemma StoredSplit<V>(targets: seq<Target<V>>, lo: Bytes, hi: Bytes, row: Row<V>)
    requires targets != []
    ensures var t := targets[0];
            Stored(targets, lo, hi, row) <==>
              (row.num == t.num && row.key in t.db && row.value == t.db[row.key] && InRange(lo, hi, row.key))
              || Stored(targets[1..], lo, hi, row)
  {
    if Stored(targets[1..], lo, hi, row) {
      var i :| 0 <= i < |targets[1..]| && row.num == targets[1..][i].num && row.key in targets[1..][i].db
               && row.value == targets[1..][i].db[row.key] && InRange(lo, hi, row.key);
      assert targets[i + 1] == targets[1..][i];
    }
    if Stored(targets, lo, hi, row) {
      var i :| 0 <= i < |targets| && row.num == targets[i].num && row.key in targets[i].db
               && row.value == targets[i].db[row.key] && InRange(lo, hi, row.key);
      assert i > 0 ==> targets[1..][i - 1] == targets[i];
    }
  }

  // ---- Status lookup ----

  const STATUSES := ABORTED_RESOURCE + 1

  /** The status of `q` in one QR_PAIR table, if it is a known one. */
  function StatusIn(m: map<nat, QrPair>, q: nat): Option<nat> {
    if q in m && m[q].status < STATUSES then Some(m[q].status) else None
  }

  /** The first known status over the tables: live first, then the epochs in order. */
  function StatusOf(tables: seq<map<nat, QrPair>>, q: nat): Option<nat> {
    if tables == [] then None
    else if StatusIn(tables[0], q).Some? then StatusIn(tables[0], q)
    else StatusOf(tables[1..], q)
  }

  /** `qr_by_idx`: the first row over the same tables. */
  function RowByIdx(tables: seq<map<nat, QrPair>>, q: nat): Option<QrPair> {
    if tables == [] then None else if q in tables[0] then Some(tables[0][q]) else RowByIdx(tables[1..], q)
  }

  /** The batched lookup and the point lookup agree on `q` exactly when the row found has a known
      status, or there is no row. */
  lemma {:induction false} LookupsAgree(tables: seq<map<nat, QrPair>>, q: nat)
    ensures var row := RowByIdx(tables, q);
            (StatusOf(tables, q) == if row.Some? then Some(row.value.status) else None)
            <==> (row.Some? ==> row.value.status < STATUSES)
  {
    StatusKnown(tables, q);
    if tables != [] && q !in tables[0] {
      LookupsAgree(tables[1..], q);
    }
  }

  lemma {:induction false} StatusKnown(tables: seq<map<nat, QrPair>>, q: nat)
    ensures StatusOf(tables, q).Some? ==> StatusOf(tables, q).value < STATUSES
  {
    if tables != [] {
      StatusKnown(tables[1..], q);
    }
  }
}
