/** Paging backwards: from a row, the rows before it in descending order. */
module QueryBackward {
  import opened Common
  import opened Ordering
  import opened Codec
  import opened KeyCodec
  import opened Query

  function Reverse<T>(s: seq<T>): (r: seq<T>)
    ensures |r| == |s|
  {
    if s == [] then [] else Reverse(s[1..]) + [s[0]]
  }

  lemma {:induction false} ReverseAt<T>(s: seq<T>, i: nat)
    requires i < |s|
    ensures Reverse(s)[i] == s[|s| - 1 - i]
    decreases |s|
  {
    if i < |s| - 1 {
      ReverseAt(s[1..], i);
    }
  }

  /** Keys of a backward scan: the whole range, or the part before the cursor. */
  ghost function KeysBefore<V>(t: Target<V>, lo: Bytes, hi: Bytes, before: Option<Bytes>): set<Bytes> {
    match before
    case None => set k | k in t.db && InRange(lo, hi, k)
    case Some(c) => set k | k in t.db && LexLe(lo, k) && LexLess(k, c)
  }

  ghost function RowsBefore<V>(t: Target<V>, lo: Bytes, hi: Bytes, before: Option<Bytes>): seq<Row<V>> {
    InOrder(t, KeysBefore(t, lo, hi, before))
  }

  ghost function SegmentBefore<V>(t: Target<V>, lo: Bytes, hi: Bytes, epoch: nat, key: Option<Bytes>): seq<Row<V>> {
    if t.num > epoch then [] else RowsBefore(t, lo, hi, CursorIn(t.num, epoch, key))
  }

  /** All rows before the cursor, in (epoch, key) order. */
  ghost function Before<V>(targets: seq<Target<V>>, lo: Bytes, hi: Bytes, epoch: nat, key: Option<Bytes>): seq<Row<V>> {
    if targets == [] then []
    else SegmentBefore(targets[0], lo, hi, epoch, key) + Before(targets[1..], lo, hi, epoch, key)
  }

  /** `page_rows_epochs`, backward: the rows before the cursor, last first. */
  ghost function Backward<V>(targets: seq<Target<V>>, lo: Bytes, hi: Bytes, cursor: Option<Bytes>,
                             limit: nat): seq<Row<V>> {
    var (epoch, key) := ParseCursor(cursor);
    Take(Reverse(Before(targets, lo, hi, epoch, key)), Max(limit, 1))
  }

  lemma {:induction false} NothingBefore<V>(targets: seq<Target<V>>, lo: Bytes, hi: Bytes, epoch: nat,
                                            key: Option<Bytes>)
    requires forall i :: 0 <= i < |targets| ==> targets[i].num > epoch
    ensures Before(targets, lo, hi, epoch, key) == []
  {
    if targets != [] {
      assert targets[0].num > epoch;
      NothingBefore(targets[1..], lo, hi, epoch, key);
    }
  }

  lemma RowsBeforeAre<V>(t: Target<V>, lo: Bytes, hi: Bytes, before: Option<Bytes>)
    ensures StrictOrder(LexLess)
    ensures var s, r := Ascend(LexLess, KeysBefore(t, lo, hi, before)), RowsBefore(t, lo, hi, before);
            && |r| == |s|
            && forall i :: 0 <= i < |r| ==> s[i] in t.db && r[i] == Row(t.num, s[i], t.db[s[i]])
  {
    LexOrder();
    var s := Ascend(LexLess, KeysBefore(t, lo, hi, before));
    assert forall i :: 0 <= i < |s| ==> s[i] in s;
  }

  /** Before one of its keys, a backward scan sees the same keys up to there. */
  lemma KeysCut<V>(t: Target<V>, lo: Bytes, hi: Bytes, before: Option<Bytes>, c: Bytes, k: Bytes)
    requires StrictOrder(LexLess) && c in KeysBefore(t, lo, hi, before)
    ensures k in KeysBefore(t, lo, hi, Some(c)) <==> k in KeysBefore(t, lo, hi, before) && LexLess(k, c)
  {
    match before {
      case None => assert LexLe(c, hi) && (LexLess(k, c) ==> LexLe(k, hi));
      case Some(a) => assert LexLess(c, a) && (LexLess(k, c) ==> LexLess(k, a));
    }
  }

  lemma RowsUpTo<V>(t: Target<V>, lo: Bytes, hi: Bytes, before: Option<Bytes>, p: nat)
    requires p < |RowsBefore(t, lo, hi, before)|
    ensures var r := RowsBefore(t, lo, hi, before);
            r[p].num == t.num && RowsBefore(t, lo, hi, Some(r[p].key)) == r[..p]
  {
    RowsBeforeAre(t, lo, hi, before);
    var s := Ascend(LexLess, KeysBefore(t, lo, hi, before));
    assert s[p] in s;
    forall k
      ensures k in KeysBefore(t, lo, hi, Some(s[p])) <==> k in KeysBefore(t, lo, hi, before) && LexLess(k, s[p])
    {
      KeysCut(t, lo, hi, before, s[p], k);
    }
    AscendHead(LexLess, KeysBefore(t, lo, hi, before), KeysBefore(t, lo, hi, Some(s[p])), s, p);
    SliceRows(t, s, p, KeysBefore(t, lo, hi, Some(s[p])));
  }

  lemma SliceRows<V>(t: Target<V>, s: seq<Bytes>, p: nat, head: set<Bytes>)
    requires StrictOrder(LexLess) && p <= |s| && Ascend(LexLess, head) == s[..p]
    requires head <= t.db.Keys && forall i :: 0 <= i < |s| ==> s[i] in t.db
    ensures InOrder(t, head) == RowsOf(t, s)[..p]
  {
    var r := InOrder(t, head);
    assert |r| == p;
    forall i | 0 <= i < p ensures r[i] == RowsOf(t, s)[i] {
      assert Ascend(LexLess, head)[i] == s[i];
    }
  }

  lemma BeforeUnfolds<V>(targets: seq<Target<V>>, lo: Bytes, hi: Bytes, epoch: nat, key: Option<Bytes>)
    requires targets != []
    ensures Before(targets, lo, hi, epoch, key)
         == SegmentBefore(targets[0], lo, hi, epoch, key) + Before(targets[1..], lo, hi, epoch, key)
  {}

  /** A row before the cursor carries the number of one of the epochs up to the cursor's. */
  lemma {:induction false} BeforeNums<V>(targets: seq<Target<V>>, lo: Bytes, hi: Bytes, epoch: nat,
                                         key: Option<Bytes>, i: nat)
    requires i < |Before(targets, lo, hi, epoch, key)|
    ensures Before(targets, lo, hi, epoch, key)[i].num <= epoch
    ensures exists j :: 0 <= j < |targets| && targets[j].num == Before(targets, lo, hi, epoch, key)[i].num
    decreases |targets|
  {
    var head, tail := SegmentBefore(targets[0], lo, hi, epoch, key), Before(targets[1..], lo, hi, epoch, key);
    BeforeUnfolds(targets, lo, hi, epoch, key);
    if i < |head| {
      RowsBeforeAre(targets[0], lo, hi, CursorIn(targets[0].num, epoch, key));
    } else {
      BeforeNums(targets[1..], lo, hi, epoch, key, i - |head|);
      var j :| 0 <= j < |targets[1..]| && targets[1..][j].num == tail[i - |head|].num;
      assert targets[j + 1] == targets[1..][j];
    }
  }

  lemma BeforeHead<V>(targets: seq<Target<V>>, lo: Bytes, hi: Bytes, epoch: nat, key: Option<Bytes>, p: nat)
    requires Sorted(targets) && targets != [] && p < |SegmentBefore(targets[0], lo, hi, epoch, key)|
    ensures var head := SegmentBefore(targets[0], lo, hi, epoch, key);
            Before(targets, lo, hi, head[p].num, Some(head[p].key)) == head[..p]
  {
    var t, others := targets[0], targets[1..];
    assert forall i :: 0 <= i < |others| ==> others[i] == targets[i + 1];
    RowsUpTo(t, lo, hi, CursorIn(t.num, epoch, key), p);
    var r := SegmentBefore(t, lo, hi, epoch, key)[p];
    NothingBefore(others, lo, hi, t.num, Some(r.key));
    BeforeUnfolds(targets, lo, hi, r.num, Some(r.key));
  }

  lemma BeforeTail<V>(targets: seq<Target<V>>, lo: Bytes, hi: Bytes, epoch: nat, key: Option<Bytes>, p: nat)
    requires Sorted(targets) && targets != [] && p < |Before(targets[1..], lo, hi, epoch, key)|
    ensures var r := Before(targets[1..], lo, hi, epoch, key)[p];
            Before(targets, lo, hi, r.num, Some(r.key))
            == SegmentBefore(targets[0], lo, hi, epoch, key) + Before(targets[1..], lo, hi, r.num, Some(r.key))
  {
    var r := Before(targets[1..], lo, hi, epoch, key)[p];
    BeforeNums(targets[1..], lo, hi, epoch, key, p);
    var j :| 0 <= j < |targets[1..]| && targets[1..][j].num == r.num;
    assert targets[1..][j] == targets[j + 1] && targets[0].num < targets[j + 1].num;
    BeforeUnfolds(targets, lo, hi, r.num, Some(r.key));
  }

  lemma TakeConcat<T>(a: seq<T>, b: seq<T>, p: nat)
    requires p <= |a| + |b|
    ensures p <= |a| ==> (a + b)[..p] == a[..p] && (p < |a| ==> (a + b)[p] == a[p])
    ensures |a| <= p ==> (a + b)[..p] == a + b[..p - |a|] && (p < |a| + |b| ==> (a + b)[p] == b[p - |a|])
  {}

  /** From row `p` of what a cursor sees, a backward scan sees exactly the rows before it. */
  lemma {:induction false} BeforeIsPrefix<V>(targets: seq<Target<V>>, lo: Bytes, hi: Bytes, epoch: nat,
                                             key: Option<Bytes>, p: nat)
    requires Sorted(targets) && p < |Before(targets, lo, hi, epoch, key)|
    ensures var f := Before(targets, lo, hi, epoch, key); Before(targets, lo, hi, f[p].num, Some(f[p].key)) == f[..p]
    decreases |targets|
  {
    var head, tail := SegmentBefore(targets[0], lo, hi, epoch, key), Before(targets[1..], lo, hi, epoch, key);
    var f := Before(targets, lo, hi, epoch, key);
    BeforeUnfolds(targets, lo, hi, epoch, key);
    TakeConcat(head, tail, p);
    if p < |head| {
      BeforeHead(targets, lo, hi, epoch, key, p);
      assert f[p] == head[p] && f[..p] == head[..p];
    } else {
      var q := p - |head|;
      assert Sorted(targets[1..]);
      BeforeIsPrefix(targets[1..], lo, hi, epoch, key, q);
      BeforeTail(targets, lo, hi, epoch, key, q);
      assert f[p] == tail[q] && f[..p] == head + tail[..q];
    }
  }

  /** Rows before the cursor of a page. */
  ghost function BeforeOf<V>(targets: seq<Target<V>>, lo: Bytes, hi: Bytes, cursor: Option<Bytes>): seq<Row<V>> {
    var (epoch, key) := ParseCursor(cursor);
    Before(targets, lo, hi, epoch, key)
  }

  /** The cursor of a row sees exactly the rows before it. */
  lemma BeforeRowOf<V>(targets: seq<Target<V>>, lo: Bytes, hi: Bytes, cursor: Option<Bytes>, p: nat)
    requires Sorted(targets) && p < |BeforeOf(targets, lo, hi, cursor)|
    ensures var f := BeforeOf(targets, lo, hi, cursor);
            BeforeOf(targets, lo, hi, Some(EncodeCursor(f[p].num, f[p].key))) == f[..p]
  {
    var (epoch, key) := ParseCursor(cursor);
    var f := BeforeOf(targets, lo, hi, cursor);
    BeforeIsPrefix(targets, lo, hi, epoch, key, p);
    BeforeNums(targets, lo, hi, epoch, key, p);
    CursorRoundTrip(f[p].num, f[p].key);
  }

  /** One backward page; the next one starts where it stopped. */
  lemma BackwardPage<V>(targets: seq<Target<V>>, lo: Bytes, hi: Bytes, cursor: Option<Bytes>, limit: nat)
    requires Sorted(targets)
    ensures var raw, f := Backward(targets, lo, hi, cursor, limit), BeforeOf(targets, lo, hi, cursor);
            && |raw| <= |f| && raw == Reverse(f[|f| - |raw|..])
            && (raw != [] ==> BeforeOf(targets, lo, hi, NextCursor(raw)) == f[..|f| - |raw|])
            && (!HasMore(raw, limit) ==> |raw| == |f|)
            && (HasMore(raw, limit) <==> |f| >= Max(limit, 1))
  {
    var raw, f := Backward(targets, lo, hi, cursor, limit), BeforeOf(targets, lo, hi, cursor);
    TakeReverse(f, Max(limit, 1));
    if raw != [] {
      BeforeRowOf(targets, lo, hi, cursor, |f| - |raw|);
    }
  }

  lemma TakeReverse<T>(f: seq<T>, n: nat)
    ensures var raw := Take(Reverse(f), n);
            && |raw| <= |f| && raw == Reverse(f[|f| - |raw|..]) && (|raw| < n ==> |raw| == |f|)
            && (raw != [] ==> raw[|raw| - 1] == f[|f| - |raw|])
  {
    var raw := Take(Reverse(f), n);
    TakePrefix(Reverse(f), n);
    var p := |f| - |raw|;
    BackJoin(f, p);
    HeadOf(Reverse(f), Reverse(f[p..]), Reverse(f[..p]), |raw|);
    if raw != [] {
      ReverseAt(f, |raw| - 1);
    }
  }

  lemma HeadOf<T>(s: seq<T>, a: seq<T>, b: seq<T>, n: nat)
    requires s == a + b && |a| == n
    ensures s[..n] == a
  {}

  /** Backward pages from a cursor, put together. */
  ghost function PagesBack<V>(targets: seq<Target<V>>, lo: Bytes, hi: Bytes, cursor: Option<Bytes>,
                              limit: nat -> nat, i: nat)
    : seq<Row<V>>
    requires Sorted(targets)
    decreases |BeforeOf(targets, lo, hi, cursor)|
  {
    var raw := Backward(targets, lo, hi, cursor, limit(i));
    BackwardPage(targets, lo, hi, cursor, limit(i));
    if HasMore(raw, limit(i)) then raw + PagesBack(targets, lo, hi, NextCursor(raw), limit, i + 1) else raw
  }

  /** Whatever the cursor and the limits: backward pages end, and together they are all rows before the
      cursor, once, last first. */
  lemma {:induction false} BackwardPagesAreReversed<V>(targets: seq<Target<V>>, lo: Bytes, hi: Bytes,
                                                       cursor: Option<Bytes>,
                                                       limit: nat -> nat, i: nat)
    requires Sorted(targets)
    ensures PagesBack(targets, lo, hi, cursor, limit, i) == Reverse(BeforeOf(targets, lo, hi, cursor))
    decreases |BeforeOf(targets, lo, hi, cursor)|
  {
    var raw, f := Backward(targets, lo, hi, cursor, limit(i)), BeforeOf(targets, lo, hi, cursor);
    BackwardPage(targets, lo, hi, cursor, limit(i));
    if HasMore(raw, limit(i)) {
      BackwardPagesAreReversed(targets, lo, hi, NextCursor(raw), limit, i + 1);
      BackJoin(f, |f| - |raw|);
    } else {
      assert f[0..] == f;
    }
  }

  lemma {:induction false} ReverseConcat<T>(a: seq<T>, b: seq<T>)
    ensures Reverse(a + b) == Reverse(b) + Reverse(a)
    decreases |a|
  {
    if a == [] {
      assert a + b == b && Reverse(b) + [] == Reverse(b);
    } else {
      assert (a + b)[1..] == a[1..] + b;
      ReverseConcat(a[1..], b);
      ConcatThree(Reverse(b), Reverse(a[1..]), [a[0]]);
    }
  }

  lemma ConcatThree<T>(a: seq<T>, b: seq<T>, c: seq<T>)
    ensures a + (b + c) == (a + b) + c
  {}

  lemma BackJoin<T>(f: seq<T>, p: nat)
    requires p <= |f|
    ensures Reverse(f[p..]) + Reverse(f[..p]) == Reverse(f)
  {
    CutAt(f, p);
    ReverseJoined(f[..p], f[p..], f);
  }

  lemma CutAt<T>(f: seq<T>, p: nat)
    requires p <= |f|
    ensures f == f[..p] + f[p..]
  {}

  lemma ReverseJoined<T>(a: seq<T>, b: seq<T>, f: seq<T>)
    requires f == a + b
    ensures Reverse(b) + Reverse(a) == Reverse(f)
  {
    ReverseConcat(a, b);
  }

  lemma TakenMember<T>(f: seq<T>, n: nat, x: T)
    requires x in Take(Reverse(f), n)
    ensures x in f
  {
    var raw := Take(Reverse(f), n);
    var i :| 0 <= i < |raw| && raw[i] == x;
    ReverseAt(f, i);
  }

  /** Past all epochs a backward scan sees the full scan. */
  lemma {:induction false} FullIsBefore<V>(targets: seq<Target<V>>, lo: Bytes, hi: Bytes)
    requires Sorted(targets)
    ensures Before(targets, lo, hi, U32, None) == Full(targets, lo, hi)
    decreases |targets|
  {
    if targets != [] {
      assert Sorted(targets[1..]);
      FullIsBefore(targets[1..], lo, hi);
      assert KeysBefore(targets[0], lo, hi, None) == KeysFrom(targets[0], lo, hi, None);
    }
  }

  /** The cursor of a row of the full scan sees exactly the rows before that row. */
  lemma BeforeRow<V>(targets: seq<Target<V>>, lo: Bytes, hi: Bytes, p: nat)
    requires Sorted(targets) && p < |Full(targets, lo, hi)|
    ensures var f := Full(targets, lo, hi); BeforeOf(targets, lo, hi, Some(EncodeCursor(f[p].num, f[p].key))) == f[..p]
  {
    var f := Full(targets, lo, hi);
    FullIsBefore(targets, lo, hi);
    BeforeIsPrefix(targets, lo, hi, U32, None, p);
    BeforeNums(targets, lo, hi, U32, None, p);
    CursorRoundTrip(f[p].num, f[p].key);
  }

  /** Without a cursor the scan starts at epoch 0: a backward first page is the end of the full scan
      exactly when no later epoch has a row in the range. */
  lemma FirstPageBackward<V>(targets: seq<Target<V>>, lo: Bytes, hi: Bytes, limit: nat)
    requires Sorted(targets)
    ensures Backward(targets, lo, hi, None, limit) == Take(Reverse(Full(targets, lo, hi)), Max(limit, 1))
       <==> forall row :: row in Full(targets, lo, hi) ==> row.num == 0
  {
    OnlyEpochZero(targets, lo, hi);
    FullScanIsExact(targets, lo, hi);
    var f, b := Full(targets, lo, hi), Before(targets, lo, hi, 0, None);
    if b != f && f != [] {
      LargestLast(f);
      FirstRowsDiffer(f, b, Max(limit, 1));
    }
  }

  lemma LargestLast<V>(f: seq<Row<V>>)
    requires f != [] && Increasing(f)
    ensures forall row :: row in f ==> row.num <= f[|f| - 1].num
  {
    forall row | row in f ensures row.num <= f[|f| - 1].num {
      var i :| 0 <= i < |f| && f[i] == row;
      assert i < |f| - 1 ==> RowLess(f[i], f[|f| - 1]);
    }
  }

  lemma FirstRowsDiffer<V>(f: seq<Row<V>>, b: seq<Row<V>>, n: nat)
    requires n >= 1 && f != [] && (forall row :: row in b ==> row.num == 0)
    ensures f[|f| - 1].num > 0 ==> Take(Reverse(b), n) != Take(Reverse(f), n)
  {
    assert b != [] ==> b[|b| - 1] in b;
    ReverseAt(f, 0);
    if b != [] {
      ReverseAt(b, 0);
    }
  }

  /** A backward scan without cursor sees epoch 0 and nothing else. */
  lemma {:induction false} OnlyEpochZero<V>(targets: seq<Target<V>>, lo: Bytes, hi: Bytes)
    requires Sorted(targets)
    ensures forall row :: row in Before(targets, lo, hi, 0, None) ==> row.num == 0
    ensures (forall row :: row in Full(targets, lo, hi) ==> row.num == 0) ==>
              Before(targets, lo, hi, 0, None) == Full(targets, lo, hi)
    decreases |targets|
  {
    if targets != [] {
      var t, others := targets[0], targets[1..];
      assert Sorted(others) && forall i :: 0 <= i < |others| ==> others[i] == targets[i + 1];
      OnlyEpochZero(others, lo, hi);
      HeadRows(t, lo, hi);
      var head, tail := RowsFrom(t, lo, hi, None), Full(others, lo, hi);
      assert forall row :: row in head || row in tail ==> row in Full(targets, lo, hi);
      if t.num > 0 {
        if head != [] {
          assert head[0] in head && head[0].num > 0;
        }
      }
    }
  }

  /** Two epochs with one row each. */
  function TwoEpochs(): seq<Target<nat>> {
    [Target(0, map[[7] := 1], false), Target(1, map[[8] := 2], true)]
  }

  const NEWEST: Row<nat> := Row(1, [8], 2)

  lemma NewestIsStored()
    ensures Sorted(TwoEpochs()) && NEWEST in Full(TwoEpochs(), [0], [9])
  {
    var ts := TwoEpochs();
    assert ts[1].num == 1 && [8] in ts[1].db && ts[1].db[[8]] == 2 && InRange([0], [9], [8]);
    assert Stored(ts, [0], [9], NEWEST);
    FullScanIsExact(ts, [0], [9]);
  }

  /** A page holds rows before its cursor only. */
  lemma PageRowsAreBefore<V>(targets: seq<Target<V>>, lo: Bytes, hi: Bytes, cursor: Option<Bytes>, limit: nat,
                             row: Row<V>)
    requires row in Backward(targets, lo, hi, cursor, limit)
    ensures row in BeforeOf(targets, lo, hi, cursor)
  {
    TakenMember(BeforeOf(targets, lo, hi, cursor), Max(limit, 1), row);
  }

  /** The newest row, of epoch 1, is not on the first backward page, whatever its limit. */
  lemma FirstPageMissesNewest(limit: nat)
    ensures Sorted(TwoEpochs()) && NEWEST in Full(TwoEpochs(), [0], [9])
    ensures NEWEST !in Backward(TwoEpochs(), [0], [9], None, limit)
    ensures Backward(TwoEpochs(), [0], [9], None, limit) != Take(Reverse(Full(TwoEpochs(), [0], [9])), Max(limit, 1))
  {
    NewestIsStored();
    FirstPageBackward(TwoEpochs(), [0], [9], limit);
    OnlyEpochZero(TwoEpochs(), [0], [9]);
    forall row | row in Backward(TwoEpochs(), [0], [9], None, limit) ensures row.num == 0 {
      PageRowsAreBefore(TwoEpochs(), [0], [9], None, limit, row);
    }
  }
}
