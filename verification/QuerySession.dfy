/** The query session as the program runs it: loops over epochs and rows that grow a result. */
module QuerySessions {
  import opened Common
  import opened Ordering
  import opened Codec
  import opened KeyCodec
  import opened Store
  import opened Query
  import opened QueryBackward
  import opened QueryIndex
  import RowCodec

  /** `scan_epoch_range`: appends rows of one epoch until the page is full. */
  method ScanEpochRange<V>(t: Target<V>, lo: Bytes, hi: Bytes, cursor: Option<Bytes>, forward: bool, limit: nat,
                           acc: seq<Row<V>>)
    returns (out: seq<Row<V>>, done: bool)
    requires |acc| < limit
    ensures var rows := if forward then RowsFrom(t, lo, hi, cursor) else Reverse(RowsBefore(t, lo, hi, cursor));
            out == Take(acc + rows, limit) && (done <==> |acc + rows| >= limit)
  {
    if forward {
      var keys :=
        if cursor.Some? then set k | k in t.db && LexLess(cursor.value, k) && LexLe(k, hi)
        else set k | k in t.db && InRange(lo, hi, k);
      assert keys == KeysFrom(t, lo, hi, cursor);
      out, done := ScanUp(t, keys, limit, acc);
    } else {
      var keys :=
        if cursor.Some? then set k | k in t.db && LexLe(lo, k) && LexLess(k, cursor.value)
        else set k | k in t.db && InRange(lo, hi, k);
      assert keys == KeysBefore(t, lo, hi, cursor);
      out, done := ScanDown(t, keys, limit, acc);
    }
  }

  /** One more row of `rows` on a page that began with `acc`. */
  lemma PageStep<T>(acc: seq<T>, rows: seq<T>, n: nat, limit: nat)
    requires n < |rows| && |acc| + n < limit
    ensures acc + rows[..n + 1] == (acc + rows[..n]) + [rows[n]]
    ensures |acc| + n + 1 == limit ==> Take(acc + rows, limit) == acc + rows[..n + 1]
  {}

  /** Rows of an epoch as far as a walk has come: everything but the keys still ahead. */
  ghost predicate Walked<V>(t: Target<V>, all: set<Bytes>, rest: set<Bytes>, seen: seq<Bytes>) {
    && rest <= all <= t.db.Keys
    && (forall k :: k in seen <==> k in all - rest)
    && Ascending(LexLess, seen)
    && (forall x, y :: x in seen && y in rest ==> LexLess(x, y))
  }

  lemma WalkStep<V>(t: Target<V>, all: set<Bytes>, rest: set<Bytes>, seen: seq<Bytes>, k: Bytes)
    requires Walked(t, all, rest, seen) && IsLeast(LexLess, rest, k)
    ensures Walked(t, all, rest - {k}, seen + [k])
  {
    assert forall x :: x in seen + [k] <==> x in seen || x == k;
  }

  /** What was seen is a prefix of the epoch's rows. */
  lemma WalkIsPrefix<V>(t: Target<V>, all: set<Bytes>, rest: set<Bytes>, seen: seq<Bytes>)
    requires StrictOrder(LexLess) && Walked(t, all, rest, seen)
    ensures |seen| + |rest| == |all|
    ensures |seen| <= |InOrder(t, all)|
    ensures forall i :: 0 <= i < |seen| ==> seen[i] in t.db && InOrder(t, all)[i] == Row(t.num, seen[i], t.db[seen[i]])
  {
    var whole := seen + Ascend(LexLess, rest);
    assert forall k :: k in whole <==> k in seen || k in Ascend(LexLess, rest);
    forall i, j | 0 <= i < j < |whole| ensures LexLess(whole[i], whole[j]) {
      if i < |seen| <= j {
        assert seen[i] in seen && Ascend(LexLess, rest)[j - |seen|] in Ascend(LexLess, rest);
      }
    }
    AscendUnique(LexLess, all, whole);
    forall i | 0 <= i < |seen| ensures seen[i] in t.db && InOrder(t, all)[i] == Row(t.num, seen[i], t.db[seen[i]]) {
      assert seen[i] in seen && whole[i] == seen[i];
    }
  }

  /** A page after some keys of an epoch: `seen` are behind the walk, `rest` ahead. */
  ghost predicate OnPage<V>(t: Target<V>, keys: set<Bytes>, rest: set<Bytes>, seen: seq<Bytes>,
                            acc: seq<Row<V>>, out: seq<Row<V>>, limit: nat)
  {
    && Walked(t, keys, rest, seen) && |seen| <= |InOrder(t, keys)|
    && out == acc + InOrder(t, keys)[..|seen|] && |out| < limit
  }

  lemma OnPageStep<V>(t: Target<V>, keys: set<Bytes>, rest: set<Bytes>, seen: seq<Bytes>,
                      acc: seq<Row<V>>, out: seq<Row<V>>, limit: nat, k: Bytes)
    requires StrictOrder(LexLess) && OnPage(t, keys, rest, seen, acc, out, limit) && IsLeast(LexLess, rest, k)
    ensures k in t.db
    ensures var out1, rows := out + [Row(t.num, k, t.db[k])], InOrder(t, keys);
            if |out1| < limit then OnPage(t, keys, rest - {k}, seen + [k], acc, out1, limit)
            else out1 == Take(acc + rows, limit) && |acc + rows| >= limit
  {
    WalkStep(t, keys, rest, seen, k);
    WalkIsPrefix(t, keys, rest - {k}, seen + [k]);
    PageStep(acc, InOrder(t, keys), |seen|, limit);
    assert (seen + [k])[|seen|] == k;
  }

  lemma OnPageEnd<V>(t: Target<V>, keys: set<Bytes>, seen: seq<Bytes>, acc: seq<Row<V>>, out: seq<Row<V>>, limit: nat)
    requires StrictOrder(LexLess) && OnPage(t, keys, {}, seen, acc, out, limit)
    ensures out == Take(acc + InOrder(t, keys), limit) && |acc + InOrder(t, keys)| < limit
  {
    WalkIsPrefix(t, keys, {}, seen);
    assert InOrder(t, keys)[..|seen|] == InOrder(t, keys);
  }

  method ScanUp<V>(t: Target<V>, keys: set<Bytes>, limit: nat, acc: seq<Row<V>>)
    returns (out: seq<Row<V>>, done: bool)
    requires |acc| < limit && keys <= t.db.Keys
    ensures out == Take(acc + InOrder(t, keys), limit) && (done <==> |acc + InOrder(t, keys)| >= limit)
  {
    LexOrder();
    var rest := keys;
    ghost var seen: seq<Bytes> := [];
    out := acc;
    while rest != {}
      invariant rest <= keys && OnPage(t, keys, rest, seen, acc, out, limit)
      decreases |rest|
    {
      var k := First(LexLess, rest);
      OnPageStep(t, keys, rest, seen, acc, out, limit, k);
      out := out + [Row(t.num, k, t.db[k])];
      rest := rest - {k};
      seen := seen + [k];
      if |out| >= limit {
        return out, true;
      }
    }
    OnPageEnd(t, keys, seen, acc, out, limit);
    done := false;
  }

  method ScanDown<V>(t: Target<V>, keys: set<Bytes>, limit: nat, acc: seq<Row<V>>)
    returns (out: seq<Row<V>>, done: bool)
    requires |acc| < limit && keys <= t.db.Keys
    ensures out == Take(acc + Reverse(InOrder(t, keys)), limit)
    ensures done <==> |acc + Reverse(InOrder(t, keys))| >= limit
  {
    var up := Collect(t, keys);
    ghost var rows := Reverse(up);
    out := acc;
    OutStart(acc, rows);
    for n := 0 to |up|
      invariant OutAt(acc, rows, n, out) && |out| < limit
    {
      ReverseAt(up, n);
      OutStep(acc, rows, n, limit, out);
      out := out + [up[|up| - 1 - n]];
      if |out| >= limit {
        return out, true;
      }
    }
    OutEnd(acc, rows, limit, out);
    done := false;
  }

  /** A page that began with `acc` after `n` of the rows. */
  ghost predicate OutAt<T>(acc: seq<T>, rows: seq<T>, n: nat, out: seq<T>) {
    n <= |rows| && out == acc + rows[..n]
  }

  lemma OutStart<T>(acc: seq<T>, rows: seq<T>)
    ensures OutAt(acc, rows, 0, acc)
  {
    assert acc + [] == acc;
  }

  lemma OutStep<T>(acc: seq<T>, rows: seq<T>, n: nat, limit: nat, out: seq<T>)
    requires OutAt(acc, rows, n, out) && n < |rows| && |out| < limit
    ensures OutAt(acc, rows, n + 1, out + [rows[n]])
    ensures |out| + 1 >= limit ==> out + [rows[n]] == Take(acc + rows, limit) && |acc + rows| >= limit
  {
    PageStep(acc, rows, n, limit);
  }

  lemma OutEnd<T>(acc: seq<T>, rows: seq<T>, limit: nat, out: seq<T>)
    requires OutAt(acc, rows, |rows|, out) && |out| < limit
    ensures out == Take(acc + rows, limit) && |acc + rows| < limit
  {
    assert rows[..|rows|] == rows;
  }

  /** The rows of the keys behind the walk. */
  ghost predicate Collected<V>(t: Target<V>, keys: set<Bytes>, rest: set<Bytes>, seen: seq<Bytes>, out: seq<Row<V>>) {
    Walked(t, keys, rest, seen) && |seen| == |out| && out <= InOrder(t, keys)
  }

  lemma CollectStep<V>(t: Target<V>, keys: set<Bytes>, rest: set<Bytes>, seen: seq<Bytes>, out: seq<Row<V>>, k: Bytes)
    requires StrictOrder(LexLess) && Collected(t, keys, rest, seen, out) && IsLeast(LexLess, rest, k)
    ensures k in t.db && Collected(t, keys, rest - {k}, seen + [k], out + [Row(t.num, k, t.db[k])])
  {
    WalkStep(t, keys, rest, seen, k);
    WalkIsPrefix(t, keys, rest - {k}, seen + [k]);
    LastOf(seen, k);
    PrefixGrows(out, InOrder(t, keys), Row(t.num, k, t.db[k]));
  }

  lemma LastOf<T>(s: seq<T>, x: T)
    ensures (s + [x])[|s|] == x
  {}

  lemma PrefixGrows<T>(out: seq<T>, all: seq<T>, x: T)
    requires out <= all && |out| < |all| && all[|out|] == x
    ensures out + [x] <= all
  {}

  lemma CollectEnd<V>(t: Target<V>, keys: set<Bytes>, seen: seq<Bytes>, out: seq<Row<V>>)
    requires StrictOrder(LexLess) && Collected(t, keys, {}, seen, out)
    ensures out == InOrder(t, keys)
  {
    WalkIsPrefix(t, keys, {}, seen);
  }

  /** The rows of a key range, lowest first. */
  method Collect<V>(t: Target<V>, keys: set<Bytes>) returns (out: seq<Row<V>>)
    requires keys <= t.db.Keys
    ensures out == InOrder(t, keys)
  {
    LexOrder();
    var rest := keys;
    ghost var seen: seq<Bytes> := [];
    out := [];
    while rest != {}
      invariant rest <= keys && Collected(t, keys, rest, seen, out)
      decreases |rest|
    {
      var k := First(LexLess, rest);
      CollectStep(t, keys, rest, seen, out, k);
      out := out + [Row(t.num, k, t.db[k])];
      rest := rest - {k};
      seen := seen + [k];
    }
    CollectEnd(t, keys, seen, out);
  }

  /** The raw page in either direction. */
  ghost function RawPage<V>(targets: seq<Target<V>>, lo: Bytes, hi: Bytes, page: Page): seq<Row<V>> {
    if page.forward then Forward(targets, lo, hi, page.cursor, page.limit)
    else Backward(targets, lo, hi, page.cursor, page.limit)
  }

  /** `page_rows_epochs`. */
  method PageRowsEpochs<V>(targets: seq<Target<V>>, lo: Bytes, hi: Bytes, page: Page) returns (out: seq<Row<V>>)
    requires Sorted(targets)
    ensures out == RawPage(targets, lo, hi, page)
  {
    var limit := Max(page.limit, 1);
    var (epoch, key) := ParseCursor(page.cursor);
    if page.forward {
      out := PageUp(targets, lo, hi, epoch, key, limit);
    } else {
      out := PageDown(targets, lo, hi, epoch, key, limit);
    }
  }

  // ---- The loops over epochs ----

  /** `goal` begins with `out` and goes on with `left`. */
  ghost predicate Joins<T>(goal: seq<T>, out: seq<T>, left: seq<T>) {
    && |goal| == |out| + |left|
    && (forall i :: 0 <= i < |out| ==> out[i] == goal[i])
    && (forall i :: 0 <= i < |left| ==> left[i] == goal[|out| + i])
  }

  /** The next rows move from what is left to what is there. */
  lemma JoinsNext<T>(goal: seq<T>, out: seq<T>, rows: seq<T>, left: seq<T>)
    requires Joins(goal, out, rows + left)
    ensures Joins(goal, out + rows, left)
  {
    forall i | 0 <= i < |left| ensures left[i] == goal[|out + rows| + i] {
      assert (rows + left)[|rows| + i] == left[i];
    }
    forall i | 0 <= i < |rows| ensures rows[i] == goal[|out| + i] {
      assert (rows + left)[i] == rows[i];
    }
  }

  lemma JoinsIs<T>(goal: seq<T>, out: seq<T>, left: seq<T>)
    requires Joins(goal, out, left)
    ensures goal == out + left
  {
    forall i | 0 <= i < |goal| ensures goal[i] == (out + left)[i] {
      if i >= |out| {
        assert left[i - |out|] == goal[|out| + (i - |out|)];
      }
    }
  }

  /** A page that is full, and one that ends. */
  lemma JoinsTake<T>(goal: seq<T>, out: seq<T>, left: seq<T>, limit: nat)
    requires Joins(goal, out, left)
    ensures |out| >= limit ==> Take(goal, limit) == Take(out, limit)
    ensures left == [] && |out| < limit ==> Take(goal, limit) == out
  {
    JoinsIs(goal, out, left);
  }

  /** Rows a forward scan meets from epoch `i` on. */
  ghost function UpRows<V>(targets: seq<Target<V>>, lo: Bytes, hi: Bytes, epoch: nat, key: Option<Bytes>, i: nat)
    : seq<Row<V>>
    requires i <= |targets|
    decreases |targets| - i
  {
    if i == |targets| then []
    else Segment(targets[i], lo, hi, epoch, key) + UpRows(targets, lo, hi, epoch, key, i + 1)
  }

  lemma {:induction false} UpRowsAre<V>(targets: seq<Target<V>>, lo: Bytes, hi: Bytes, epoch: nat,
                                        key: Option<Bytes>, i: nat)
    requires i <= |targets|
    ensures UpRows(targets, lo, hi, epoch, key, i) == Rest(targets[i..], lo, hi, epoch, key)
    decreases |targets| - i
  {
    if i < |targets| {
      UpRowsAre(targets, lo, hi, epoch, key, i + 1);
      assert targets[i..][1..] == targets[i + 1..];
      RestUnfolds(targets[i..], lo, hi, epoch, key);
    }
  }

  lemma UpGoal<V>(targets: seq<Target<V>>, lo: Bytes, hi: Bytes, epoch: nat, key: Option<Bytes>)
    ensures UpRows(targets, lo, hi, epoch, key, 0) == Rest(targets, lo, hi, epoch, key)
  {
    UpRowsAre(targets, lo, hi, epoch, key, 0);
    assert targets[0..] == targets;
  }

  method PageUp<V>(targets: seq<Target<V>>, lo: Bytes, hi: Bytes, epoch: nat, key: Option<Bytes>, limit: nat)
    returns (out: seq<Row<V>>)
    requires limit > 0
    ensures out == Take(Rest(targets, lo, hi, epoch, key), limit)
  {
    out := [];
    var i := 0;
    ghost var goal := UpRows(targets, lo, hi, epoch, key, 0);
    UpGoal(targets, lo, hi, epoch, key);
    while i < |targets|
      invariant 0 <= i <= |targets| && |out| < limit
      invariant Joins(goal, out, UpRows(targets, lo, hi, epoch, key, i))
    {
      ghost var rows, left := Segment(targets[i], lo, hi, epoch, key), UpRows(targets, lo, hi, epoch, key, i + 1);
      JoinsNext(goal, out, rows, left);
      JoinsTake(goal, out + rows, left, limit);
      var done;
      out, done := VisitUp(targets[i], lo, hi, epoch, key, limit, out);
      if done {
        return;
      }
      i := i + 1;
    }
    JoinsTake(goal, out, [], limit);
  }

  /** One turn of the forward loop: epochs before the cursor's are passed over. */
  method VisitUp<V>(t: Target<V>, lo: Bytes, hi: Bytes, epoch: nat, key: Option<Bytes>, limit: nat, acc: seq<Row<V>>)
    returns (out: seq<Row<V>>, done: bool)
    requires |acc| < limit
    ensures out == Take(acc + Segment(t, lo, hi, epoch, key), limit)
    ensures done <==> |acc + Segment(t, lo, hi, epoch, key)| >= limit
  {
    out, done := acc, false;
    if t.num >= epoch {
      out, done := ScanEpochRange(t, lo, hi, CursorIn(t.num, epoch, key), true, limit, acc);
    } else {
      assert acc + [] == acc;
    }
  }

  method VisitDown<V>(t: Target<V>, lo: Bytes, hi: Bytes, epoch: nat, key: Option<Bytes>, limit: nat, acc: seq<Row<V>>)
    returns (out: seq<Row<V>>, done: bool)
    requires |acc| < limit
    ensures out == Take(acc + Reverse(SegmentBefore(t, lo, hi, epoch, key)), limit)
    ensures done <==> |acc + Reverse(SegmentBefore(t, lo, hi, epoch, key))| >= limit
  {
    out, done := acc, false;
    if t.num <= epoch {
      out, done := ScanEpochRange(t, lo, hi, CursorIn(t.num, epoch, key), false, limit, acc);
    } else {
      assert acc + Reverse(SegmentBefore(t, lo, hi, epoch, key)) == acc;
    }
  }

  /** The rows of the first `i` epochs. */
  ghost function UpTo<T>(segments: seq<seq<T>>, i: nat): seq<T>
    requires i <= |segments|
  {
    if i == 0 then [] else UpTo(segments, i - 1) + segments[i - 1]
  }

  /** What a backward scan meets in each epoch, lowest row first. */
  ghost function Segments<V>(targets: seq<Target<V>>, lo: Bytes, hi: Bytes, epoch: nat,
                             key: Option<Bytes>): (segments: seq<seq<Row<V>>>)
    ensures |segments| == |targets|
  {
    if targets == [] then []
    else [SegmentBefore(targets[0], lo, hi, epoch, key)] + Segments(targets[1..], lo, hi, epoch, key)
  }

  lemma {:induction false} SegmentsAt<V>(targets: seq<Target<V>>, lo: Bytes, hi: Bytes, epoch: nat, key: Option<Bytes>,
                                         j: nat)
    requires j < |targets|
    ensures Segments(targets, lo, hi, epoch, key)[j] == SegmentBefore(targets[j], lo, hi, epoch, key)
    decreases j
  {
    if j > 0 {
      SegmentsAt(targets[1..], lo, hi, epoch, key, j - 1);
    }
  }

  lemma {:induction false} UpToTail<T>(segments: seq<seq<T>>, i: nat)
    requires 0 < i <= |segments|
    ensures UpTo(segments, i) == segments[0] + UpTo(segments[1..], i - 1)
  {
    if i == 1 {
      assert UpTo(segments, 0) + segments[0] == segments[0] + UpTo(segments[1..], 0);
    } else {
      UpToTail(segments, i - 1);
      assert segments[1..][i - 2] == segments[i - 1];
      ConcatThree(segments[0], UpTo(segments[1..], i - 2), segments[i - 1]);
    }
  }

  lemma UpToFirst<T>(first: seq<T>, others: seq<seq<T>>)
    ensures UpTo([first] + others, |others| + 1) == first + UpTo(others, |others|)
  {
    UpToTail([first] + others, |others| + 1);
    assert ([first] + others)[1..] == others;
  }

  lemma {:induction false} SegmentsAre<V>(targets: seq<Target<V>>, lo: Bytes, hi: Bytes, epoch: nat, key: Option<Bytes>)
    ensures UpTo(Segments(targets, lo, hi, epoch, key), |targets|) == Before(targets, lo, hi, epoch, key)
    decreases |targets|
  {
    if targets != [] {
      SegmentsAre(targets[1..], lo, hi, epoch, key);
      UpToFirst(SegmentBefore(targets[0], lo, hi, epoch, key), Segments(targets[1..], lo, hi, epoch, key));
      BeforeUnfolds(targets, lo, hi, epoch, key);
    }
  }

  /** A page that is to become the first rows of `goal`, before the epochs below `i`. */
  ghost predicate DownAt<T>(segments: seq<seq<T>>, i: nat, goal: seq<T>, out: seq<T>) {
    i <= |segments| && Joins(goal, out, Reverse(UpTo(segments, i)))
  }

  lemma DownStart<T>(segments: seq<seq<T>>, goal: seq<T>)
    requires goal == Reverse(UpTo(segments, |segments|))
    ensures DownAt(segments, |segments|, goal, [])
  {}

  /** What one more epoch makes of a page. */
  lemma DownNext<T>(segments: seq<seq<T>>, limit: nat, i: nat, goal: seq<T>, out: seq<T>)
    requires 0 < i && DownAt(segments, i, goal, out)
    ensures var next := out + Reverse(segments[i - 1]);
            if |next| >= limit then Take(next, limit) == Take(goal, limit)
            else Take(next, limit) == next && DownAt(segments, i - 1, goal, next)
  {
    var rows, left := Reverse(segments[i - 1]), Reverse(UpTo(segments, i - 1));
    ReverseConcat(UpTo(segments, i - 1), segments[i - 1]);
    JoinsNext(goal, out, rows, left);
    JoinsTake(goal, out + rows, left, limit);
  }

  lemma DownEnd<T>(segments: seq<seq<T>>, limit: nat, goal: seq<T>, out: seq<T>)
    requires |out| < limit && DownAt(segments, 0, goal, out)
    ensures out == Take(goal, limit)
  {
    JoinsTake(goal, out, [], limit);
  }

  /** One turn of the backward loop on a page that is to become the first `limit` rows of `goal`. */
  method StepDown<V>(targets: seq<Target<V>>, lo: Bytes, hi: Bytes, epoch: nat, key: Option<Bytes>, limit: nat,
                     ghost segments: seq<seq<Row<V>>>, i: nat, ghost goal: seq<Row<V>>, acc: seq<Row<V>>)
    returns (out: seq<Row<V>>, done: bool)
    requires segments == Segments(targets, lo, hi, epoch, key)
    requires 0 < i <= |targets| && |acc| < limit && DownAt(segments, i, goal, acc)
    ensures done ==> out == Take(goal, limit)
    ensures !done ==> |out| < limit && DownAt(segments, i - 1, goal, out)
  {
    DownNext(segments, limit, i, goal, acc);
    SegmentsAt(targets, lo, hi, epoch, key, i - 1);
    out, done := VisitDown(targets[i - 1], lo, hi, epoch, key, limit, acc);
  }

  /** The loop of a backward page. */
  method FillDown<V>(targets: seq<Target<V>>, lo: Bytes, hi: Bytes, epoch: nat, key: Option<Bytes>, limit: nat,
                     ghost segments: seq<seq<Row<V>>>, ghost goal: seq<Row<V>>) returns (out: seq<Row<V>>)
    requires segments == Segments(targets, lo, hi, epoch, key)
    requires limit > 0 && DownAt(segments, |targets|, goal, [])
    ensures out == Take(goal, limit)
  {
    out := [];
    var i: nat := |targets|;
    while i > 0
      invariant i <= |targets| && |out| < limit && DownAt(segments, i, goal, out)
    {
      var done;
      out, done := StepDown(targets, lo, hi, epoch, key, limit, segments, i, goal, out);
      if done {
        return;
      }
      i := i - 1;
    }
    DownEnd(segments, limit, goal, out);
  }

  method PageDown<V>(targets: seq<Target<V>>, lo: Bytes, hi: Bytes, epoch: nat, key: Option<Bytes>, limit: nat)
    returns (out: seq<Row<V>>)
    requires limit > 0
    ensures out == Take(Reverse(Before(targets, lo, hi, epoch, key)), limit)
  {
    ghost var segments := Segments(targets, lo, hi, epoch, key);
    SegmentsAre(targets, lo, hi, epoch, key);
    DownStart(segments, Reverse(Before(targets, lo, hi, epoch, key)));
    out := FillDown(targets, lo, hi, epoch, key, limit, segments, Reverse(Before(targets, lo, hi, epoch, key)));
  }

  // ---- Replay ----

  /** What one more epoch moves to the sink. */
  lemma ReplayNext<V>(targets: seq<Target<V>>, lo: Bytes, hi: Bytes, i: nat, goal: seq<Row<V>>, sent: seq<Row<V>>)
    requires i < |targets| && Joins(goal, sent, Full(targets[i..], lo, hi))
    ensures Joins(goal, sent + RowsFrom(targets[i], lo, hi, None), Full(targets[i + 1..], lo, hi))
  {
    assert targets[i..][1..] == targets[i + 1..];
    JoinsNext(goal, sent, RowsFrom(targets[i], lo, hi, None), Full(targets[i + 1..], lo, hi));
  }

  /** `replay_into_sink`: one pass per epoch, no cursor. What reaches the sink is the full scan, hence
      what paging delivers. */
  method ReplayIntoSink<V>(targets: seq<Target<V>>, lo: Bytes, hi: Bytes) returns (sent: seq<Row<V>>, total: nat)
    requires Sorted(targets)
    ensures sent == Full(targets, lo, hi) && total == |sent|
    ensures forall limit: nat -> nat :: sent == AllPages(targets, lo, hi, None, limit, 0)
  {
    sent, total := [], 0;
    assert targets[0..] == targets;
    for i := 0 to |targets|
      invariant Joins(Full(targets, lo, hi), sent, Full(targets[i..], lo, hi)) && total == |sent|
    {
      ReplayNext(targets, lo, hi, i, Full(targets, lo, hi), sent);
      var keys := set k | k in targets[i].db && InRange(lo, hi, k);
      assert keys == KeysFrom(targets[i], lo, hi, None);
      var got := Collect(targets[i], keys);
      sent := sent + got;
      total := total + |got|;
    }
    JoinsIs(Full(targets, lo, hi), sent, []);
    forall limit: nat -> nat ensures sent == AllPages(targets, lo, hi, None, limit, 0) {
      PagesAreTheFullScan(targets, lo, hi, limit);
    }
  }

  // ---- Request/response queries ----

  type Decoder = Bytes -> Option<QrPair>

  /** The rows of a QR_PAIR table that decode. */
  ghost function Decoded(stored: map<nat, Bytes>, decode: Decoder): map<nat, QrPair> {
    map q | q in stored && decode(stored[q]).Some? :: decode(stored[q]).value
  }

  ghost function DecodedAll(stored: seq<map<nat, Bytes>>, decode: Decoder): (tables: seq<map<nat, QrPair>>)
    ensures |tables| == |stored| && forall i :: 0 <= i < |stored| ==> tables[i] == Decoded(stored[i], decode)
  {
    seq(|stored|, i requires 0 <= i < |stored| => Decoded(stored[i], decode))
  }

  /** `qr_by_idx`: the first table, live first, whose row decodes. */
  method FirstRow(stored: seq<map<nat, Bytes>>, decode: Decoder, q: nat) returns (row: Option<QrPair>)
    ensures row == RowByIdx(DecodedAll(stored, decode), q)
  {
    ghost var tables := DecodedAll(stored, decode);
    row := None;
    assert tables[0..] == tables;
    for i := 0 to |stored|
      invariant RowByIdx(tables, q) == RowByIdx(tables[i..], q)
    {
      assert tables[i..][1..] == tables[i + 1..];
      if q in stored[i] && decode(stored[i][q]).Some? {
        return decode(stored[i][q]);
      }
    }
  }

  /** What a lookup in one table makes of the statuses found before. */
  ghost predicate FoundIn(table: map<nat, QrPair>, asked: set<nat>, before: map<nat, nat>, after: map<nat, nat>) {
    && (forall q :: q in after <==> q in before || (q in asked && StatusIn(table, q).Some?))
    && (forall q :: q in after ==> Some(after[q]) == if q in before then Some(before[q]) else StatusIn(table, q))
  }

  lemma FoundNext(table: map<nat, QrPair>, asked: set<nat>, before: map<nat, nat>, after: map<nat, nat>, c: nat,
                  next: map<nat, nat>)
    requires FoundIn(table, asked, before, after)
    requires next == if c !in after && StatusIn(table, c).Some? then after[c := StatusIn(table, c).value] else after
    ensures FoundIn(table, asked + {c}, before, next)
  {}

  /** One request in one table. */
  method ResolveOne(stored: map<nat, Bytes>, decode: Decoder, c: nat, before: map<nat, nat>)
    returns (out: map<nat, nat>)
    ensures var st := StatusIn(Decoded(stored, decode), c);
            out == if c !in before && st.Some? then before[c := st.value] else before
  {
    out := before;
    if c !in out {
      if c in stored {
        var row := decode(stored[c]);
        if row.Some? && row.value.status < STATUSES {
          out := out[c := row.value.status];
        }
      }
    }
  }

  /** The first `j` of the requests. */
  ghost function FirstOf(candidates: seq<nat>, j: nat): set<nat>
    requires j <= |candidates|
  {
    if j == 0 then {} else FirstOf(candidates, j - 1) + {candidates[j - 1]}
  }

  lemma {:induction false} FirstOfAre(candidates: seq<nat>, j: nat, q: nat)
    requires j <= |candidates|
    ensures q in FirstOf(candidates, j) <==> exists x :: 0 <= x < j && candidates[x] == q
  {
    if j > 0 {
      FirstOfAre(candidates, j - 1, q);
    }
  }

  /** `batch_resolve_epoch`: one table; a request already resolved is skipped. */
  method BatchResolve(stored: map<nat, Bytes>, decode: Decoder, candidates: seq<nat>, before: map<nat, nat>)
    returns (out: map<nat, nat>)
    ensures FoundIn(Decoded(stored, decode), FirstOf(candidates, |candidates|), before, out)
  {
    out := before;
    for j := 0 to |candidates|
      invariant FoundIn(Decoded(stored, decode), FirstOf(candidates, j), before, out)
    {
      ghost var found := out;
      out := ResolveOne(stored, decode, candidates[j], out);
      FoundNext(Decoded(stored, decode), FirstOf(candidates, j), before, found, candidates[j], out);
    }
  }

  /** After the first `i` tables: what is found is what the lookup gives, and the rest is still to be looked up. */
  ghost predicate BatchAt(tables: seq<map<nat, QrPair>>, asked: set<nat>, i: nat, out: map<nat, nat>)
    requires i <= |tables|
  {
    && (forall q :: q in out ==> q in asked && StatusOf(tables, q) == Some(out[q]))
    && (forall q :: q in asked && q !in out ==> StatusOf(tables, q) == StatusOf(tables[i..], q))
  }

  lemma BatchNext(tables: seq<map<nat, QrPair>>, asked: set<nat>, i: nat, before: map<nat, nat>, after: map<nat, nat>)
    requires i < |tables| && BatchAt(tables, asked, i, before) && FoundIn(tables[i], asked, before, after)
    ensures BatchAt(tables, asked, i + 1, after)
  {
    assert tables[i..][1..] == tables[i + 1..];
    forall q | q in after ensures q in asked && StatusOf(tables, q) == Some(after[q]) {
      assert q !in before ==> StatusOf(tables, q) == StatusOf(tables[i..], q) == StatusIn(tables[i], q);
    }
    forall q | q in asked && q !in after ensures StatusOf(tables, q) == StatusOf(tables[i + 1..], q) {
      assert q !in before && StatusOf(tables, q) == StatusOf(tables[i..], q);
    }
  }

  /** `batch_statuses`: live first, then each epoch once. */
  method BatchStatuses(stored: seq<map<nat, Bytes>>, decode: Decoder, candidates: seq<nat>) returns (out: map<nat, nat>)
    ensures forall q :: q in out <==> q in candidates && StatusOf(DecodedAll(stored, decode), q).Some?
    ensures forall q :: q in out ==> StatusOf(DecodedAll(stored, decode), q) == Some(out[q])
  {
    ghost var tables, asked := DecodedAll(stored, decode), FirstOf(candidates, |candidates|);
    forall q ensures q in asked <==> q in candidates {
      FirstOfAre(candidates, |candidates|, q);
    }
    out := map[];
    assert tables[0..] == tables;
    for i := 0 to |stored|
      invariant BatchAt(tables, asked, i, out)
    {
      var after := BatchResolve(stored[i], decode, candidates, out);
      BatchNext(tables, asked, i, out, after);
      out := after;
    }
  }

  class QuerySession {
    /** QR_PAIR of the live store, then of every epoch. */
    const stored: seq<map<nat, Bytes>>
    const connQr: seq<Target<nat>>
    const qrTime: seq<Target<nat>>

    constructor (stored: seq<map<nat, Bytes>>, connQr: seq<Target<nat>>, qrTime: seq<Target<nat>>)
      ensures this.stored == stored && this.connQr == connQr && this.qrTime == qrTime
    {
      this.stored, this.connQr, this.qrTime := stored, connQr, qrTime;
    }

    ghost function Tables(): seq<map<nat, QrPair>> { DecodedAll(stored, RowCodec.PairOfBytes) }

    method QrByIdx(q: nat) returns (row: Option<QrPair>)
      ensures row == RowByIdx(Tables(), q)
    {
      row := FirstRow(stored, RowCodec.PairOfBytes, q);
    }

    function TargetsOf(f: QrFilter): seq<Target<nat>> { if f.conn.Some? then connQr else qrTime }

    predicate Ready(f: QrFilter) { KeysLongEnough(f, TargetsOf(f)) }

    /** `scan_conn_qr` and `scan_time_qr`: rows, whether there is more, and the next cursor. */
    method ScanQr(f: QrFilter, page: Page) returns (rows: seq<IndexRow>, more: bool, next: Option<Bytes>)
      requires Sorted(TargetsOf(f)) && Ready(f)
      ensures var raw := RawPage(TargetsOf(f), Bounds(f).0, Bounds(f).1, page);
              && rows == ShownAll(f, Tables(), raw) && AnswersAll(f, Tables(), raw, rows)
              && more == HasMore(raw, page.limit) && next == NextCursor(raw)
      ensures FilterTyped(f) && CursorInside(page.cursor, Bounds(f).0, Bounds(f).1) ==>
                forall row :: row in rows ==> Asked(f, Tables(), TargetsOf(f), row)
    {
      ghost var tables := Tables();
      var (lo, hi) := Bounds(f);
      var raw := PageRowsEpochs(TargetsOf(f), lo, hi, page);
      PageKeys(TargetsOf(f), lo, hi, page);
      forall i | 0 <= i < |raw| ensures |raw[i].key| == IdxAt(f) + 8 {
        assert raw[i] in raw;
      }
      var candidates := Candidates(f, raw);
      var statuses := BatchStatuses(stored, RowCodec.PairOfBytes, candidates);
      rows := Resolve(f, tables, raw, candidates, statuses);
      AnswersShown(f, tables, raw);
      PageAsked(f, tables, TargetsOf(f), page);
      more, next := HasMore(raw, page.limit), NextCursor(raw);
    }

    /** `stream_qrs`: pages of 100 until there is no more. The sink receives the full scan, each row
        with its status from the point lookup's tables. */
    method StreamQrs(f: QrFilter) returns (sent: seq<IndexRow>, total: nat)
      requires Sorted(TargetsOf(f)) && Ready(f)
      ensures var raw := Full(TargetsOf(f), Bounds(f).0, Bounds(f).1);
              sent == ShownAll(f, Tables(), raw) && AnswersAll(f, Tables(), raw, sent) && total == |sent|
      ensures FilterTyped(f) ==> forall row :: row in sent <==> Asked(f, Tables(), TargetsOf(f), row)
    {
      ghost var tables, targets, lo, hi := Tables(), TargetsOf(f), Bounds(f).0, Bounds(f).1;
      var page := Page(None, 100, true);
      var more := true;
      sent, total := [], 0;
      RestFromStart(targets, lo, hi);
      ghost var left := RestOf(targets, lo, hi, None);
      ghost var whole := ShownAll(f, tables, left);
      while more
        invariant total == |sent| && page.forward && page.limit == 100
        invariant more ==> left == RestOf(targets, lo, hi, page.cursor)
        invariant !more ==> left == []
        invariant sent + ShownAll(f, tables, left) == whole
        decreases more, |left|
      {
        ghost var raw := Forward(targets, lo, hi, page.cursor, 100);
        StreamStep(f, tables, targets, lo, hi, page.cursor, sent);
        var rows, next;
        rows, more, next := ScanQr(f, page);
        sent := sent + rows;
        total := total + |rows|;
        left := left[|raw|..];
        page := page.(cursor := next);
      }
      FullAnswers(f, tables, targets);
    }
  }

  /** One page of the stream: what was sent, plus the page, plus what is left is still everything. */
  lemma StreamStep<V>(f: QrFilter, tables: seq<map<nat, QrPair>>, targets: seq<Target<V>>, lo: Bytes, hi: Bytes,
                      cursor: Option<Bytes>, sent: seq<IndexRow>)
    requires Sorted(targets)
    ensures var left, raw := RestOf(targets, lo, hi, cursor), Forward(targets, lo, hi, cursor, 100);
            && |raw| <= |left| && (HasMore(raw, 100) ==> raw != [])
            && (if HasMore(raw, 100) then RestOf(targets, lo, hi, NextCursor(raw)) == left[|raw|..]
                else left[|raw|..] == [])
            && sent + ShownAll(f, tables, left)
               == (sent + ShownAll(f, tables, raw)) + ShownAll(f, tables, left[|raw|..])
  {
    PageAdvances(targets, lo, hi, cursor, 100);
    var left, raw := RestOf(targets, lo, hi, cursor), Forward(targets, lo, hi, cursor, 100);
    ShownJoin(f, tables, left, |raw|, sent);
  }

  lemma ShownJoin<V>(f: QrFilter, tables: seq<map<nat, QrPair>>, left: seq<Row<V>>, n: nat, sent: seq<IndexRow>)
    requires n <= |left|
    ensures sent + ShownAll(f, tables, left) == (sent + ShownAll(f, tables, left[..n])) + ShownAll(f, tables, left[n..])
  {
    assert left == left[..n] + left[n..];
    ShownConcat(f, tables, left[..n], left[n..]);
    var a, b := ShownAll(f, tables, left[..n]), ShownAll(f, tables, left[n..]);
    assert sent + (a + b) == (sent + a) + b;
  }

  /** The request indexes on a page. */
  method Candidates<V>(f: QrFilter, raw: seq<Row<V>>) returns (candidates: seq<nat>)
    requires forall i :: 0 <= i < |raw| ==> |raw[i].key| == IdxAt(f) + 8
    ensures |candidates| == |raw| && forall i :: 0 <= i < |raw| ==> candidates[i] == KeyIdx(f, raw[i].key)
  {
    candidates := [];
    for i := 0 to |raw|
      invariant |candidates| == i
      invariant forall x :: 0 <= x < i ==> candidates[x] == KeyIdx(f, raw[x].key)
    {
      candidates := candidates + [KeyIdx(f, raw[i].key)];
    }
  }

  /** What `batch_statuses` found about a request is what the tables say. */
  ghost predicate Resolved(tables: seq<map<nat, QrPair>>, q: nat, statuses: map<nat, nat>) {
    StatusOf(tables, q) == if q in statuses then Some(statuses[q]) else None
  }

  /** Rows with the statuses found, filtered. */
  method Resolve<V>(f: QrFilter, ghost tables: seq<map<nat, QrPair>>, raw: seq<Row<V>>, candidates: seq<nat>,
                    statuses: map<nat, nat>) returns (rows: seq<IndexRow>)
    requires forall i :: 0 <= i < |raw| ==> |raw[i].key| == IdxAt(f) + 8
    requires |candidates| == |raw| && forall i :: 0 <= i < |raw| ==> candidates[i] == KeyIdx(f, raw[i].key)
    requires forall q :: q in candidates ==> Resolved(tables, q, statuses)
    ensures rows == ShownAll(f, tables, raw)
  {
    rows := [];
    assert raw[0..] == raw;
    for i := 0 to |raw|
      invariant Joins(ShownAll(f, tables, raw), rows, ShownAll(f, tables, raw[i..]))
    {
      ShownNext(f, tables, raw, i, ShownAll(f, tables, raw), rows);
      assert candidates[i] in candidates;
      ResolvedIsShown(f, tables, raw[i], candidates[i], statuses);
      rows := rows + ResolveRow(f, raw[i], candidates[i], statuses);
    }
    JoinsIs(ShownAll(f, tables, raw), rows, []);
  }

  /** The index row of one raw row, from the statuses found. */
  function ResolveRow<V>(f: QrFilter, row: Row<V>, q: nat, statuses: map<nat, nat>): seq<IndexRow>
    requires |row.key| == IdxAt(f) + 8
  {
    if q in statuses && (f.status.None? || f.status.value == statuses[q]) then
      [IndexRow(q, Val(row.key[IdxAt(f) - 8..IdxAt(f)]), statuses[q], f.conn)]
    else []
  }

  lemma ResolvedIsShown<V>(f: QrFilter, tables: seq<map<nat, QrPair>>, row: Row<V>, q: nat, statuses: map<nat, nat>)
    requires |row.key| == IdxAt(f) + 8 && q == KeyIdx(f, row.key) && Resolved(tables, q, statuses)
    ensures ResolveRow(f, row, q, statuses) == Shown(f, tables, row)
  {}

  lemma ShownNext<V>(f: QrFilter, tables: seq<map<nat, QrPair>>, raw: seq<Row<V>>, i: nat, goal: seq<IndexRow>,
                     rows: seq<IndexRow>)
    requires i < |raw| && Joins(goal, rows, ShownAll(f, tables, raw[i..]))
    ensures Joins(goal, rows + Shown(f, tables, raw[i]), ShownAll(f, tables, raw[i + 1..]))
  {
    assert raw[i..][1..] == raw[i + 1..];
    JoinsNext(goal, rows, Shown(f, tables, raw[i]), ShownAll(f, tables, raw[i + 1..]));
  }

  /** The cursor names no key outside the range, as those of the range's own pages. */
  predicate CursorInside(cursor: Option<Bytes>, lo: Bytes, hi: Bytes) {
    var (_, key) := ParseCursor(cursor);
    key.Some? ==> LexLe(lo, key.value) && LexLe(key.value, hi)
  }

  lemma SegmentInRange<V>(t: Target<V>, lo: Bytes, hi: Bytes, epoch: nat, key: Option<Bytes>, row: Row<V>)
    requires row in Segment(t, lo, hi, epoch, key) && (key.Some? ==> LexLe(lo, key.value))
    ensures row.num == t.num && row.key in t.db && row.value == t.db[row.key] && InRange(lo, hi, row.key)
  {
    RowsFromAre(t, lo, hi, CursorIn(t.num, epoch, key));
    var s := Ascend(LexLess, KeysFrom(t, lo, hi, CursorIn(t.num, epoch, key)));
    assert row.key in s;
    LexOrder();
  }

  lemma SegmentBeforeInRange<V>(t: Target<V>, lo: Bytes, hi: Bytes, epoch: nat, key: Option<Bytes>, row: Row<V>)
    requires row in SegmentBefore(t, lo, hi, epoch, key) && (key.Some? ==> LexLe(key.value, hi))
    ensures row.num == t.num && row.key in t.db && row.value == t.db[row.key] && InRange(lo, hi, row.key)
  {
    RowsBeforeAre(t, lo, hi, CursorIn(t.num, epoch, key));
    var s := Ascend(LexLess, KeysBefore(t, lo, hi, CursorIn(t.num, epoch, key)));
    assert row.key in s;
    LexOrder();
  }

  lemma {:induction false} RestInRange<V>(targets: seq<Target<V>>, lo: Bytes, hi: Bytes, epoch: nat,
                                          key: Option<Bytes>, row: Row<V>)
    requires row in Rest(targets, lo, hi, epoch, key) && (key.Some? ==> LexLe(lo, key.value))
    ensures Stored(targets, lo, hi, row)
    decreases |targets|
  {
    RestUnfolds(targets, lo, hi, epoch, key);
    StoredSplit(targets, lo, hi, row);
    if row in Segment(targets[0], lo, hi, epoch, key) {
      SegmentInRange(targets[0], lo, hi, epoch, key, row);
    } else {
      RestInRange(targets[1..], lo, hi, epoch, key, row);
    }
  }

  lemma {:induction false} BeforeInRange<V>(targets: seq<Target<V>>, lo: Bytes, hi: Bytes, epoch: nat,
                                            key: Option<Bytes>, row: Row<V>)
    requires row in Before(targets, lo, hi, epoch, key) && (key.Some? ==> LexLe(key.value, hi))
    ensures Stored(targets, lo, hi, row)
    decreases |targets|
  {
    BeforeUnfolds(targets, lo, hi, epoch, key);
    StoredSplit(targets, lo, hi, row);
    if row in SegmentBefore(targets[0], lo, hi, epoch, key) {
      SegmentBeforeInRange(targets[0], lo, hi, epoch, key, row);
    } else {
      BeforeInRange(targets[1..], lo, hi, epoch, key, row);
    }
  }

  lemma TakenFromStart<T>(s: seq<T>, n: nat, x: T)
    requires x in Take(s, n)
    ensures x in s
  {}

  /** A page whose cursor is inside the range holds stored rows of the range only. */
  lemma PageInRange<V>(targets: seq<Target<V>>, lo: Bytes, hi: Bytes, page: Page, row: Row<V>)
    requires CursorInside(page.cursor, lo, hi) && row in RawPage(targets, lo, hi, page)
    ensures Stored(targets, lo, hi, row)
  {
    var (epoch, key) := ParseCursor(page.cursor);
    if page.forward {
      TakenFromStart(RestOf(targets, lo, hi, page.cursor), Max(page.limit, 1), row);
      RestInRange(targets, lo, hi, epoch, key, row);
    } else {
      PageRowsAreBefore(targets, lo, hi, page.cursor, page.limit, row);
      BeforeInRange(targets, lo, hi, epoch, key, row);
    }
  }

  lemma PageAsked<V>(f: QrFilter, tables: seq<map<nat, QrPair>>, targets: seq<Target<V>>, page: Page)
    requires KeysLongEnough(f, targets)
    ensures var raw := RawPage(targets, Bounds(f).0, Bounds(f).1, page);
            FilterTyped(f) && CursorInside(page.cursor, Bounds(f).0, Bounds(f).1) ==>
              forall row :: row in ShownAll(f, tables, raw) ==> Asked(f, tables, targets, row)
  {
    var lo, hi := Bounds(f).0, Bounds(f).1;
    var raw := RawPage(targets, lo, hi, page);
    if FilterTyped(f) && CursorInside(page.cursor, lo, hi) {
      forall x | x in raw ensures Stored(targets, lo, hi, x) {
        PageInRange(targets, lo, hi, page, x);
      }
      forall row | row in ShownAll(f, tables, raw) ensures Asked(f, tables, targets, row) {
        ShownIsAsked(f, tables, targets, raw, row);
      }
    }
  }

  /** Keys on a page are keys of the epochs. */
  lemma PageKeys<V>(targets: seq<Target<V>>, lo: Bytes, hi: Bytes, page: Page)
    ensures forall row :: row in RawPage(targets, lo, hi, page) ==>
              exists i :: 0 <= i < |targets| && row.key in targets[i].db
  {
    var (epoch, key) := ParseCursor(page.cursor);
    if page.forward {
      RestKeys(targets, lo, hi, epoch, key);
    } else {
      forall row | row in RawPage(targets, lo, hi, page)
        ensures exists i :: 0 <= i < |targets| && row.key in targets[i].db
      {
        PageRowsAreBefore(targets, lo, hi, page.cursor, page.limit, row);
        BeforeKeys(targets, lo, hi, epoch, key, row);
      }
    }
  }

  lemma {:induction false} BeforeKeys<V>(targets: seq<Target<V>>, lo: Bytes, hi: Bytes, epoch: nat,
                                         key: Option<Bytes>, row: Row<V>)
    requires row in Before(targets, lo, hi, epoch, key)
    ensures exists i :: 0 <= i < |targets| && row.key in targets[i].db
    decreases |targets|
  {
    BeforeUnfolds(targets, lo, hi, epoch, key);
    if row in SegmentBefore(targets[0], lo, hi, epoch, key) {
      RowsBeforeAre(targets[0], lo, hi, CursorIn(targets[0].num, epoch, key));
    } else {
      BeforeKeys(targets[1..], lo, hi, epoch, key, row);
      var i :| 0 <= i < |targets[1..]| && row.key in targets[1..][i].db;
      assert targets[1..][i] == targets[i + 1];
    }
  }

  lemma {:induction false} RestKeys<V>(targets: seq<Target<V>>, lo: Bytes, hi: Bytes, epoch: nat, key: Option<Bytes>)
    ensures forall row :: row in Rest(targets, lo, hi, epoch, key) ==>
              exists i :: 0 <= i < |targets| && row.key in targets[i].db
    decreases |targets|
  {
    if targets != [] {
      RestKeys(targets[1..], lo, hi, epoch, key);
      RestUnfolds(targets, lo, hi, epoch, key);
      forall row | row in Rest(targets, lo, hi, epoch, key)
        ensures exists i :: 0 <= i < |targets| && row.key in targets[i].db
      {
        if row in Segment(targets[0], lo, hi, epoch, key) {
          SegmentKeys(targets[0], lo, hi, epoch, key, row);
        } else {
          var i :| 0 <= i < |targets[1..]| && row.key in targets[1..][i].db;
          assert targets[1..][i] == targets[i + 1];
        }
      }
    }
  }

  lemma SegmentKeys<V>(t: Target<V>, lo: Bytes, hi: Bytes, epoch: nat, key: Option<Bytes>, row: Row<V>)
    requires row in Segment(t, lo, hi, epoch, key)
    ensures row.key in t.db
  {
    RowsFromAre(t, lo, hi, CursorIn(t.num, epoch, key));
  }
}
