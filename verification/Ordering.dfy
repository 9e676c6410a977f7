/** Key order. A range scan of an ordered store visits a finite key set in ascending order;
    `Ascend` is that visiting order for any strict total order. */
module Ordering {

  ghost predicate StrictOrder<K(!new)>(lt: (K, K) -> bool) {
    && (forall x :: !lt(x, x))
    && (forall x, y, z :: lt(x, y) && lt(y, z) ==> lt(x, z))
    && (forall x, y :: x == y || lt(x, y) || lt(y, x))
  }

  ghost predicate Ascending<K>(lt: (K, K) -> bool, s: seq<K>) {
    forall i, j :: 0 <= i < j < |s| ==> lt(s[i], s[j])
  }

  ghost predicate IsLeast<K>(lt: (K, K) -> bool, s: set<K>, x: K) {
    x in s && forall y :: y in s && y != x ==> lt(x, y)
  }

  lemma LeastExists<K(!new)>(lt: (K, K) -> bool, s: set<K>)
    requires StrictOrder(lt) && s != {}
    ensures exists x :: IsLeast(lt, s, x)
    decreases |s|
  {
    var x :| x in s;
    if s - {x} == {} {
      assert s == {x};
      assert IsLeast(lt, s, x);
    } else {
      LeastExists(lt, s - {x});
      var y :| IsLeast(lt, s - {x}, y);
      assert s == (s - {x}) + {x};
      if lt(x, y) {
        assert IsLeast(lt, s, x);
      } else {
        assert IsLeast(lt, s, y);
      }
    }
  }

  /** The elements of `s` in ascending order. */
  ghost function Ascend<K(!new)>(lt: (K, K) -> bool, s: set<K>): (r: seq<K>)
    requires StrictOrder(lt)
    ensures Ascending(lt, r)
    ensures forall x :: x in r <==> x in s
    ensures |r| == |s|
    decreases |s|
  {
    if s == {} then []
    else
      LeastExists(lt, s);
      var x :| IsLeast(lt, s, x);
      var rest := Ascend(lt, s - {x});
      assert |s - {x}| == |s| - 1;
      assert forall y :: y in [x] + rest <==> y == x || y in rest;
      assert forall y :: y in rest ==> lt(x, y);
      [x] + rest
  }

  /** An ascending enumeration of a set is unique. */
  lemma {:induction false} AscendUnique<K(!new)>(lt: (K, K) -> bool, s: set<K>, r: seq<K>)
    requires StrictOrder(lt)
    requires Ascending(lt, r)
    requires forall x :: x in r <==> x in s
    ensures r == Ascend(lt, s)
    decreases |s|
  {
    var a := Ascend(lt, s);
    if r == [] {
      assert s == {};
    } else {
      assert r[0] in a && a[0] in r;
      var i :| 0 <= i < |r| && r[i] == a[0];
      var j :| 0 <= j < |a| && a[j] == r[0];
      assert a[0] == r[0];
      var x := a[0];
      assert a == [x] + a[1..] && r == [x] + r[1..];
      assert forall y :: y in a[1..] <==> y in s - {x};
      assert forall y :: y in r[1..] <==> y in s - {x};
      assert x in s;
      AscendUnique(lt, s - {x}, r[1..]);
      AscendUnique(lt, s - {x}, a[1..]);
    }
  }

  lemma Asymmetric<K(!new)>(lt: (K, K) -> bool, x: K, y: K)
    requires StrictOrder(lt)
    ensures lt(x, y) ==> !lt(y, x)
  {
    assert lt(x, y) && lt(y, x) ==> lt(x, x);
  }

  /** Position `i` of an ascending enumeration lies past position `p - 1` exactly when its element
      does. */
  lemma PastPosition<K(!new)>(lt: (K, K) -> bool, s: seq<K>, p: nat, i: nat)
    requires StrictOrder(lt) && Ascending(lt, s) && 1 <= p <= |s| && i < |s|
    ensures lt(s[p - 1], s[i]) <==> p <= i
  {
    if i < p - 1 {
      Asymmetric(lt, s[i], s[p - 1]);
    }
  }

  lemma InTail<K(!new)>(lt: (K, K) -> bool, s: seq<K>, p: nat, k: K)
    requires StrictOrder(lt) && Ascending(lt, s) && 1 <= p <= |s|
    ensures k in s[p..] <==> k in s && lt(s[p - 1], k)
  {
    if k in s {
      var i :| 0 <= i < |s| && s[i] == k;
      PastPosition(lt, s, p, i);
      assert p <= i ==> s[p..][i - p] == k;
    }
    forall j | 0 <= j < |s[p..]| && s[p..][j] == k ensures k in s && lt(s[p - 1], k) {
      assert s[p + j] == k;
      PastPosition(lt, s, p, p + j);
    }
  }

  /** The elements past `s[p - 1]` are the tail of the enumeration from `p`. */
  lemma AscendTail<K(!new)>(lt: (K, K) -> bool, all: set<K>, rest: set<K>, s: seq<K>, p: nat)
    requires StrictOrder(lt) && 1 <= p <= |s| && s == Ascend(lt, all)
    requires forall k :: k in rest <==> k in all && lt(s[p - 1], k)
    ensures Ascend(lt, rest) == s[p..]
  {
    assert Ascending(lt, s[p..]) by {
      assert forall i :: 0 <= i < |s[p..]| ==> s[p..][i] == s[p + i];
    }
    forall k ensures k in s[p..] <==> k in rest {
      InTail(lt, s, p, k);
    }
    AscendUnique(lt, rest, s[p..]);
  }

  lemma InHead<K(!new)>(lt: (K, K) -> bool, s: seq<K>, p: nat, k: K)
    requires StrictOrder(lt) && Ascending(lt, s) && p < |s|
    ensures k in s[..p] <==> k in s && lt(k, s[p])
  {
    Asymmetric(lt, s[p], k);
    InTail(lt, s, p + 1, k);
    if k in s {
      var i :| 0 <= i < |s| && s[i] == k;
      assert i < p ==> s[..p][i] == k && lt(k, s[p]);
      assert i == p ==> !lt(k, s[p]);
      assert i > p ==> lt(s[p], k);
    }
    forall j | 0 <= j < |s[..p]| && s[..p][j] == k ensures k in s && lt(k, s[p]) {
      assert s[j] == k;
    }
  }

  /** The elements before `s[p]` are the enumeration up to `p`. */
  lemma AscendHead<K(!new)>(lt: (K, K) -> bool, all: set<K>, rest: set<K>, s: seq<K>, p: nat)
    requires StrictOrder(lt) && p < |s| && s == Ascend(lt, all)
    requires forall k :: k in rest <==> k in all && lt(k, s[p])
    ensures Ascend(lt, rest) == s[..p]
  {
    forall k ensures k in s[..p] <==> k in rest {
      InHead(lt, s, p, k);
    }
    AscendUnique(lt, rest, s[..p]);
  }

  /** What a store cursor delivers next: the least key of those still ahead. */
  method First<K(==,!new)>(lt: (K, K) -> bool, keys: set<K>) returns (k: K)
    requires StrictOrder(lt) && keys != {}
    ensures IsLeast(lt, keys, k)
  {
    LeastExists(lt, keys);
    k :| k in keys && forall y :: y in keys ==> y == k || lt(k, y);
  }

  ghost predicate IsGreatest<K>(lt: (K, K) -> bool, s: set<K>, x: K) {
    x in s && forall y :: y in s && y != x ==> lt(y, x)
  }

  /** The ends of the enumeration are the least and the greatest key. */
  lemma AscendEnds<K(!new)>(lt: (K, K) -> bool, s: set<K>)
    requires StrictOrder(lt) && s != {}
    ensures var a := Ascend(lt, s); |a| > 0 && IsLeast(lt, s, a[0]) && IsGreatest(lt, s, a[|a| - 1])
  {
    var a := Ascend(lt, s);
    assert a[0] in a && a[|a| - 1] in a;
    forall y | y in s ensures (y != a[0] ==> lt(a[0], y)) && (y != a[|a| - 1] ==> lt(y, a[|a| - 1])) {
      assert y in a;
      var i :| 0 <= i < |a| && a[i] == y;
      assert i > 0 ==> lt(a[0], a[i]);
      assert i < |a| - 1 ==> lt(a[i], a[|a| - 1]);
    }
  }

  /** Every key lies between the ends. */
  lemma BetweenEnds<K(!new)>(lt: (K, K) -> bool, s: set<K>, k: K)
    requires StrictOrder(lt) && k in s
    ensures var a := Ascend(lt, s);
            |a| > 0 && (k == a[0] || lt(a[0], k)) && (k == a[|a| - 1] || lt(k, a[|a| - 1]))
  {
    AscendEnds(lt, s);
  }

  lemma EndsUnique<K(!new)>(lt: (K, K) -> bool, s: set<K>, x: K, y: K)
    requires StrictOrder(lt)
    ensures IsLeast(lt, s, x) && IsLeast(lt, s, y) ==> x == y
    ensures IsGreatest(lt, s, x) && IsGreatest(lt, s, y) ==> x == y
  {
    Asymmetric(lt, x, y);
  }

  /** The key at the far end of the store. */
  method Last<K(==,!new)>(lt: (K, K) -> bool, keys: set<K>) returns (k: K)
    requires StrictOrder(lt) && keys != {}
    ensures IsGreatest(lt, keys, k)
  {
    AscendEnds(lt, keys);
    k :| k in keys && forall y :: y in keys ==> y == k || lt(y, k);
  }

  predicate NatLt(a: nat, b: nat) { a < b }

  lemma NatOrder()
    ensures StrictOrder(NatLt)
  {}
}
