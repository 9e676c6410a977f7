/** Big-endian numbers and fixed-width records. Keys of the stores are records of big-endian fields,
    so the byte order of the store is the order of the field tuples, and a byte range is a range of
    tuples. */
module Codec {
  import opened Common

  type Bytes = seq<byte>

  function Pow(n: nat): (r: nat)
    ensures r > 0
  {
    if n == 0 then 1 else 256 * Pow(n - 1)
  }

  lemma PowValues()
    ensures Pow(1) == 256 && Pow(2) == U16 && Pow(4) == U32 && Pow(6) == U48 && Pow(8) == U64
  {
    assert Pow(3) == 256 * Pow(2) && Pow(2) == 256 * Pow(1) && Pow(1) == 256 * Pow(0);
    assert Pow(5) == 256 * Pow(4) && Pow(4) == 256 * Pow(3);
    assert Pow(7) == 256 * Pow(6) && Pow(6) == 256 * Pow(5);
  }

  /** The low `n` bytes of `x`, most significant first. */
  function Be(x: nat, n: nat): (r: Bytes)
    ensures |r| == n
  {
    if n == 0 then [] else Be(x / 256, n - 1) + [x % 256]
  }

  function Val(b: Bytes): nat
    decreases |b|
  {
    if b == [] then 0 else 256 * Val(b[..|b| - 1]) + b[|b| - 1]
  }

  lemma {:induction false} ValBound(b: Bytes)
    ensures Val(b) < Pow(|b|)
    decreases |b|
  {
    if b != [] {
      ValBound(b[..|b| - 1]);
    }
  }

  lemma {:induction false} ValOfBe(x: nat, n: nat)
    requires x < Pow(n)
    ensures Val(Be(x, n)) == x
  {
    if n > 0 {
      ValOfBe(x / 256, n - 1);
      assert Be(x, n)[..n - 1] == Be(x / 256, n - 1);
    }
  }

  lemma {:induction false} BeOfVal(b: Bytes)
    ensures Be(Val(b), |b|) == b
    decreases |b|
  {
    if b != [] {
      var front := b[..|b| - 1];
      BeOfVal(front);
      assert Val(b) / 256 == Val(front) && Val(b) % 256 == b[|b| - 1];
    }
  }

  /** Encoding keeps the value modulo the width; fields wider than that are truncated. */
  lemma {:induction false} BeTruncates(x: nat, n: nat)
    ensures Be(x, n) == Be(x % Pow(n), n)
    decreases n
  {
    if n > 0 {
      var p := Pow(n - 1);
      BeTruncates(x / 256, n - 1);
      BeTruncates(x % Pow(n) / 256, n - 1);
      ModDiv(x, p);
    }
  }

  lemma ModDiv(x: nat, p: nat)
    requires p > 0
    ensures x % (256 * p) % 256 == x % 256 && x % (256 * p) / 256 == (x / 256) % p
  {
    var q, r := x / 256, x % 256;
    var k, s := q / p, q % p;
    assert q == k * p + s;
    assert x == k * (256 * p) + (256 * s + r) by {
      assert x == 256 * (k * p + s) + r;
    }
    Rem(x, 256 * p, k, 256 * s + r);
  }

  lemma Rem(x: nat, n: nat, k: nat, r: nat)
    requires n > 0 && x == k * n + r && r < n
    ensures x % n == r
  {
    var j: int := x / n - k;
    assert x == n * (x / n) + x % n;
    assert n * j == r - x % n;
    SmallMultiple(n, j);
  }

  lemma SmallMultiple(n: int, j: int)
    requires -n < n * j < n
    ensures j == 0
  {}

  // ---- Lexicographic order ----

  predicate LexLess(a: Bytes, b: Bytes)
    decreases |a|
  {
    if b == [] then false
    else if a == [] then true
    else a[0] < b[0] || (a[0] == b[0] && LexLess(a[1..], b[1..]))
  }

  predicate LexLe(a: Bytes, b: Bytes) { a == b || LexLess(a, b) }

  lemma {:induction false} LexConcat(a: Bytes, b: Bytes, c: Bytes, d: Bytes)
    requires |a| == |c|
    ensures LexLess(a + b, c + d) <==> LexLess(a, c) || (a == c && LexLess(b, d))
    decreases |a|
  {
    if a == [] {
      assert a + b == b && c + d == d;
    } else {
      LexConcat(a[1..], b, c[1..], d);
      assert (a + b)[1..] == a[1..] + b && (c + d)[1..] == c[1..] + d;
      assert a == [a[0]] + a[1..] && c == [c[0]] + c[1..];
    }
  }

  /** Between byte strings of one length the byte order is the numeric order. */
  lemma {:induction false} LexIsNumeric(a: Bytes, b: Bytes)
    requires |a| == |b|
    ensures LexLess(a, b) <==> Val(a) < Val(b)
    decreases |a|
  {
    if a != [] {
      var fa, fb, la, lb := a[..|a| - 1], b[..|b| - 1], a[|a| - 1], b[|b| - 1];
      assert a == fa + [la] && b == fb + [lb];
      LexConcat(fa, [la], fb, [lb]);
      LexIsNumeric(fa, fb);
      LexIsNumeric1(la, lb);
      ValInjective(fa, fb);
    }
  }

  lemma LexIsNumeric1(x: byte, y: byte)
    ensures LexLess([x], [y]) <==> x < y
  {
    assert [x][1..] == [] && [y][1..] == [];
  }

  lemma ValInjective(a: Bytes, b: Bytes)
    requires |a| == |b|
    ensures Val(a) == Val(b) <==> a == b
  {
    BeOfVal(a);
    BeOfVal(b);
  }

  // ---- Records ----

  /** Widths of consecutive fields. */
  type Layout = seq<nat>

  function Width(ws: Layout): nat { if ws == [] then 0 else ws[0] + Width(ws[1..]) }

  predicate Fits(ws: Layout, xs: seq<nat>) {
    |xs| == |ws| && forall i :: 0 <= i < |ws| ==> xs[i] < Pow(ws[i])
  }

  function Pack(ws: Layout, xs: seq<nat>): (r: Bytes)
    requires |xs| == |ws|
    ensures |r| == Width(ws)
    decreases |ws|
  {
    if ws == [] then [] else Be(xs[0], ws[0]) + Pack(ws[1..], xs[1..])
  }

  function Unpack(ws: Layout, b: Bytes): (r: seq<nat>)
    requires |b| == Width(ws)
    ensures |r| == |ws|
    decreases |ws|
  {
    if ws == [] then [] else [Val(b[..ws[0]])] + Unpack(ws[1..], b[ws[0]..])
  }

  lemma {:induction false} UnpackFits(ws: Layout, b: Bytes)
    requires |b| == Width(ws)
    ensures Fits(ws, Unpack(ws, b))
    decreases |ws|
  {
    if ws != [] {
      ValBound(b[..ws[0]]);
      UnpackFits(ws[1..], b[ws[0]..]);
      var xs := Unpack(ws, b);
      forall i | 0 <= i < |ws| ensures xs[i] < Pow(ws[i]) {
        if i > 0 {
          assert xs[i] == Unpack(ws[1..], b[ws[0]..])[i - 1] && ws[i] == ws[1..][i - 1];
        }
      }
    }
  }

  lemma {:induction false} UnpackPack(ws: Layout, xs: seq<nat>)
    requires Fits(ws, xs)
    ensures Unpack(ws, Pack(ws, xs)) == xs
    decreases |ws|
  {
    if ws != [] {
      var head, rest := Be(xs[0], ws[0]), Pack(ws[1..], xs[1..]);
      assert (head + rest)[..ws[0]] == head && (head + rest)[ws[0]..] == rest;
      ValOfBe(xs[0], ws[0]);
      UnpackPack(ws[1..], xs[1..]);
    }
  }

  lemma {:induction false} PackUnpack(ws: Layout, b: Bytes)
    requires |b| == Width(ws)
    ensures Pack(ws, Unpack(ws, b)) == b
    decreases |ws|
  {
    if ws != [] {
      BeOfVal(b[..ws[0]]);
      PackUnpack(ws[1..], b[ws[0]..]);
      assert b == b[..ws[0]] + b[ws[0]..];
      assert Unpack(ws, b)[1..] == Unpack(ws[1..], b[ws[0]..]);
    }
  }

  /** Tuple order. */
  predicate TupleLess(xs: seq<nat>, ys: seq<nat>)
    requires |xs| == |ys|
    decreases |xs|
  {
    xs != [] && (xs[0] < ys[0] || (xs[0] == ys[0] && TupleLess(xs[1..], ys[1..])))
  }

  /** The byte order of packed records is the order of their fields. */
  lemma {:induction false} PackOrder(ws: Layout, xs: seq<nat>, ys: seq<nat>)
    requires Fits(ws, xs) && Fits(ws, ys)
    ensures LexLess(Pack(ws, xs), Pack(ws, ys)) <==> TupleLess(xs, ys)
    ensures Pack(ws, xs) == Pack(ws, ys) <==> xs == ys
    decreases |ws|
  {
    UnpackPack(ws, xs);
    UnpackPack(ws, ys);
    if ws != [] {
      LexConcat(Be(xs[0], ws[0]), Pack(ws[1..], xs[1..]), Be(ys[0], ws[0]), Pack(ws[1..], ys[1..]));
      LexIsNumeric(Be(xs[0], ws[0]), Be(ys[0], ws[0]));
      ValInjective(Be(xs[0], ws[0]), Be(ys[0], ws[0]));
      ValOfBe(xs[0], ws[0]);
      ValOfBe(ys[0], ws[0]);
      PackOrder(ws[1..], xs[1..], ys[1..]);
    }
  }

  lemma {:induction false} WidthSplit(ws: Layout, i: nat)
    requires i <= |ws|
    ensures Width(ws) == Width(ws[..i]) + Width(ws[i..])
    ensures i > 0 ==> Width(ws[..i]) == Width(ws[..i - 1]) + ws[i - 1]
    decreases |ws|
  {
    if i > 0 {
      WidthSplit(ws[1..], i - 1);
      assert ws[..i][1..] == ws[1..][..i - 1] && ws[i..] == ws[1..][i - 1..];
      if i > 1 {
        assert ws[..i - 1][1..] == ws[1..][..i - 2];
      }
    }
  }

  lemma DropAppend<T>(a: seq<T>, b: seq<T>, n: nat)
    requires n <= |a|
    ensures (a + b)[..n] == a[..n] && (a + b)[n..] == a[n..] + b
  {}

  lemma {:induction false} UnpackAppend(ws: Layout, w: nat, b: Bytes, c: Bytes)
    requires |b| == Width(ws) && |c| == w
    ensures Width(ws + [w]) == Width(ws) + w
    ensures Unpack(ws + [w], b + c) == Unpack(ws, b) + [Val(c)]
    decreases |ws|
  {
    if ws == [] {
      assert ws + [w] == [w] && b + c == c && [w][1..] == [] && c[..w] == c;
    } else {
      DropAppend(ws, [w], 1);
      UnpackAppend(ws[1..], w, b[ws[0]..], c);
      DropAppend(b, c, ws[0]);
    }
  }

  // ---- Writing and reading, field by field ----

  /** Appends one big-endian number: `put_u8`, `put_u16`, `put_u32`, `put_u48`, `put_u64`. */
  method PutNum(v: Bytes, x: nat, n: nat) returns (r: Bytes)
    ensures r == v + Be(x, n)
  {
    var rest: nat, tail: Bytes := x, [];
    for i := 0 to n
      invariant Be(x, n) == Be(rest, n - i) + tail
    {
      assert Be(rest, n - i) == Be(rest / 256, n - i - 1) + [rest % 256];
      tail := [rest % 256] + tail;
      rest := rest / 256;
    }
    r := v + tail;
  }

  method PutFields(v: Bytes, ws: Layout, xs: seq<nat>) returns (r: Bytes)
    requires |ws| == |xs|
    ensures r == v + Pack(ws, xs)
  {
    r := v;
    for i := 0 to |ws|
      invariant r + Pack(ws[i..], xs[i..]) == v + Pack(ws, xs)
    {
      assert ws[i..][1..] == ws[i + 1..] && xs[i..][1..] == xs[i + 1..];
      ghost var head, rest := Be(xs[i], ws[i]), Pack(ws[i + 1..], xs[i + 1..]);
      assert r + (head + rest) == (r + head) + rest;
      r := PutNum(r, xs[i], ws[i]);
    }
    assert Pack(ws[|ws|..], xs[|ws|..]) == [];
  }

  /** A read position in a byte string; a read past the end fails and moves nothing. */
  lemma SliceJoin(b: Bytes, from: nat, mid: nat, until: nat)
    requires from <= mid <= until <= |b|
    ensures b[from..until] == b[from..mid] + b[mid..until]
  {}

  class Cursor {
    const b: Bytes
    var o: nat

    ghost predicate Valid() reads this { o <= |b| }

    constructor (b: Bytes)
      ensures this.b == b && o == 0
    {
      this.b := b;
      o := 0;
    }

    /** `take_u8` to `take_u64`. */
    method TakeNum(n: nat) returns (x: Option<nat>)
      requires Valid()
      modifies this
      ensures Valid()
      ensures x.Some? <==> old(o) + n <= |b|
      ensures x.Some? ==> o == old(o) + n && x.value == Val(b[old(o)..o])
      ensures x.None? ==> o == old(o)
    {
      if o + n > |b| {
        return None;
      }
      var v: nat := 0;
      for i := 0 to n
        invariant o == old(o) && v == Val(b[o..o + i])
      {
        assert b[o..o + i + 1][..i] == b[o..o + i];
        v := 256 * v + b[o + i];
      }
      o := o + n;
      x := Some(v);
    }

    method TakeBytes(n: nat) returns (x: Option<Bytes>)
      requires Valid()
      modifies this
      ensures Valid()
      ensures x.Some? <==> old(o) + n <= |b|
      ensures x.Some? ==> o == old(o) + n && x.value == b[old(o)..o]
      ensures x.None? ==> o == old(o)
    {
      if o + n > |b| {
        return None;
      }
      x := Some(b[o..o + n]);
      o := o + n;
    }

    /** Several fields in a row; stops at the first that does not fit. */
    method TakeFields(ws: Layout) returns (xs: Option<seq<nat>>)
      requires Valid()
      modifies this
      ensures Valid()
      ensures xs.Some? <==> old(o) + Width(ws) <= |b|
      ensures xs.Some? ==> o == old(o) + Width(ws) && xs.value == Unpack(ws, b[old(o)..o])
    {
      var got: seq<nat> := [];
      for i := 0 to |ws|
        invariant Valid() && o == old(o) + Width(ws[..i])
        invariant got == Unpack(ws[..i], b[old(o)..o])
      {
        ghost var o0 := o;
        WidthSplit(ws, i);
        WidthSplit(ws, i + 1);
        var x := TakeNum(ws[i]);
        if x.None? {
          return None;
        }
        UnpackAppend(ws[..i], ws[i], b[old(o)..o0], b[o0..o]);
        assert ws[..i + 1] == ws[..i] + [ws[i]];
        SliceJoin(b, old(o), o0, o);
        got := got + [x.value];
      }
      assert ws[..|ws|] == ws;
      xs := Some(got);
    }
  }
}
