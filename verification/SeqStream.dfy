/** Raw 32-bit sequence numbers to absolute numbers that never go back (section 3.4 of RFC 9293
    gives the modular arithmetic). `Stream` is the value of a translator; the class `SeqStream`
    advances one in place, as the matcher does packet by packet. */
module SeqStreams {
  import opened Common

  const HALF32 := 0x8000_0000

  datatype Stream = Stream(lastRaw: nat, lastAbs: nat, active: bool)

  /** What one packet contributed: the new bytes are `[absStart, absStart + novel)`. */
  datatype Fed = Fed(stream: Stream, absStart: nat, novel: nat)

  function WrapAdd32(a: nat, b: nat): nat { (a + b) % U32 }

  /** 32-bit subtraction that wraps around. */
  function WrapSub32(a: nat, b: nat): nat { (a - b) % U32 }

  /** Reinterpretation of a u32 as i32. */
  function AsI32(x: nat): int { if x < HALF32 then x else x - U32 }

  function Diff(s: Stream, raw: nat): int { AsI32(WrapSub32(raw, s.lastRaw)) }

  function Baseline(isn: nat): Stream { Stream(isn, isn, true) }

  /** Read-only translation of the other direction's acknowledgement number. */
  function AbsOf(s: Stream, raw: nat): nat {
    if !s.active then raw
    else
      var d := Diff(s, raw);
      if d > 0 then Wrap64(s.lastAbs + d) else s.lastAbs
  }

  /** Translation of one packet that advances the head. */
  function Feed(s: Stream, seqNo: nat, len: nat): Fed {
    if !s.active then Fed(Baseline(seqNo), seqNo, len)
    else
      var d := Diff(s, seqNo);
      var end := WrapAdd32(seqNo, len);
      if d > 0 then
        var start := Wrap64(s.lastAbs + d);
        Fed(Stream(end, Wrap64(start + len), true), start, len)
      else
        var novel := WrapSub32(end, s.lastRaw);
        if novel == 0 || AsI32(novel) < 0 then Fed(s, s.lastAbs, 0)
        else Fed(Stream(end, Wrap64(s.lastAbs + novel), true), s.lastAbs, novel)
  }

  class SeqStream {
    var lastRaw: nat
    var lastAbs: nat
    var active: bool

    ghost function Value(): Stream reads this { Stream(lastRaw, lastAbs, active) }

    constructor (s: Stream)
      ensures Value() == s
    {
      lastRaw, lastAbs, active := s.lastRaw, s.lastAbs, s.active;
    }

    method ResetBaseline(isn: nat)
      modifies this
      ensures Value() == Baseline(isn)
    {
      lastRaw := isn;
      lastAbs := isn;
      active := true;
    }

    method TranslateAck(raw: nat) returns (abs: nat)
      ensures abs == AbsOf(Value(), raw)
    {
      if !active {
        return raw;
      }
      var d := AsI32(WrapSub32(raw, lastRaw));
      abs := if d > 0 then Wrap64(lastAbs + d) else lastAbs;
    }

    method FeedPacket(seqNo: nat, len: nat) returns (absStart: nat, novel: nat)
      modifies this
      ensures Fed(Value(), absStart, novel) == Feed(old(Value()), seqNo, len)
    {
      if !active {
        ResetBaseline(seqNo);
        return lastAbs, len;
      }
      var d := AsI32(WrapSub32(seqNo, lastRaw));
      var end := WrapAdd32(seqNo, len);
      if d > 0 {
        lastAbs := Wrap64(lastAbs + d);
        absStart := lastAbs;
        lastAbs := Wrap64(absStart + len);
        lastRaw := end;
        novel := len;
      } else {
        var newLen := WrapSub32(end, lastRaw);
        if newLen == 0 || AsI32(newLen) < 0 {
          absStart, novel := lastAbs, 0;
        } else {
          absStart := lastAbs;
          lastAbs := Wrap64(absStart + newLen);
          lastRaw := end;
          novel := newLen;
        }
      }
    }
  }

  // ---- The unbounded reference: a high-water mark over true positions ----

  /** The translator stands at unbounded head `head`. */
  ghost predicate At(s: Stream, head: nat) {
    s.active && s.lastAbs == head < U64 && s.lastRaw == head % U32
  }

  /** A packet seen on the wire; `start` is its true, unbounded stream position. */
  datatype Packet = Packet(start: nat, len: nat)

  /** The packet begins within half the sequence space of the head and the head stays below 2^64. */
  ghost predicate Near(head: nat, p: Packet) {
    -HALF32 <= p.start - head < HALF32 && p.len < HALF32 && p.start + p.len < U64
  }

  ghost function HeadAfter(head: nat, p: Packet): nat { Max(head, p.start + p.len) }

  /** `feed_packet` is the high-water mark: new data is the part of the packet above the head. */
  lemma FeedRefinesHighWater(s: Stream, head: nat, p: Packet)
    requires At(s, head) && Near(head, p)
    ensures var f := Feed(s, p.start % U32, p.len);
            && f.absStart == Max(p.start, head)
            && f.novel == Max(p.start + p.len - f.absStart, 0)
            && At(f.stream, HeadAfter(head, p))
  {
    DiffIsDistance(s, head, p.start);
    ModSum(p.start, p.len);
    var end := p.start + p.len;
    if p.start > head {
      FeedAhead(s, p.start % U32, p.start - head, p.len);
    } else {
      ModShift(end, head);
      FeedOverlap(s, p.start % U32, p.len, end - head);
    }
  }

  /** Ahead of the head the whole packet is new. */
  lemma FeedAhead(s: Stream, raw: nat, d: nat, len: nat)
    requires s.active && Diff(s, raw) == d > 0 && s.lastAbs + d + len < U64
    ensures Feed(s, raw, len)
         == Fed(Stream(WrapAdd32(raw, len), s.lastAbs + d + len, true), s.lastAbs + d, len)
  {
    assert Wrap64(s.lastAbs + d) == s.lastAbs + d;
    assert Wrap64(s.lastAbs + d + len) == s.lastAbs + d + len;
  }

  /** At or behind the head only the tail past the head is new. */
  lemma FeedOverlap(s: Stream, raw: nat, len: nat, tail: int)
    requires s.active && Diff(s, raw) <= 0 && -HALF32 <= tail < HALF32 && s.lastAbs + Max(tail, 0) < U64
    requires WrapSub32(WrapAdd32(raw, len), s.lastRaw) == if tail >= 0 then tail else tail + U32
    ensures Feed(s, raw, len)
         == if tail > 0 then Fed(Stream(WrapAdd32(raw, len), s.lastAbs + tail, true), s.lastAbs, tail)
            else Fed(s, s.lastAbs, 0)
  {
    if tail > 0 {
      assert Wrap64(s.lastAbs + tail) == s.lastAbs + tail;
    }
  }

  lemma DiffIsDistance(s: Stream, head: nat, pos: nat)
    requires At(s, head) && -HALF32 <= pos - head < HALF32
    ensures Diff(s, pos % U32) == pos - head
  {
    ModShift(pos, head);
  }

  /** An acknowledgement at or behind the head is clamped to the head; one ahead is exact. */
  lemma AbsOfClampsToHead(s: Stream, head: nat, ack: nat)
    requires At(s, head) && Near(head, Packet(ack, 0))
    ensures AbsOf(s, ack % U32) == Max(ack, head)
    ensures AbsOf(s, ack % U32) == ack <==> ack >= head
  {
    DiffIsDistance(s, head, ack);
  }

  lemma ModShift(a: nat, b: nat)
    requires -HALF32 <= a - b < U32
    ensures WrapSub32(a % U32, b % U32) == if a >= b then a - b else a - b + U32
  {
    var qa, qb := a / U32, b / U32;
    assert a == qa * U32 + a % U32 && b == qb * U32 + b % U32;
    assert (a % U32 - b % U32) == (a - b) - (qa - qb) * U32;
    ModMultiple(a - b, qa - qb);
  }

  lemma ModMultiple(x: int, k: int)
    requires -U32 < x < U32
    ensures (x - k * U32) % U32 == x % U32
  {}

  lemma ModSum(a: nat, b: nat)
    ensures WrapAdd32(a % U32, b) == (a + b) % U32
  {
    var q := a / U32;
    assert a % U32 + b == (a + b) - q * U32;
  }

  // ---- Whole runs ----

  ghost function FeedAll(s: Stream, ps: seq<Packet>): (r: (Stream, seq<Fed>))
    ensures |r.1| == |ps|
    decreases |ps|
  {
    if ps == [] then (s, [])
    else
      var f := Feed(s, ps[0].start % U32, ps[0].len);
      var rest := FeedAll(f.stream, ps[1..]);
      (rest.0, [f] + rest.1)
  }

  ghost function HeadAfterAll(head: nat, ps: seq<Packet>): nat
    decreases |ps|
  {
    if ps == [] then head else HeadAfterAll(HeadAfter(head, ps[0]), ps[1..])
  }

  ghost predicate AllNear(head: nat, ps: seq<Packet>)
    decreases |ps|
  {
    ps == [] || (Near(head, ps[0]) && AllNear(HeadAfter(head, ps[0]), ps[1..]))
  }

  /** Across any number of wraps: the head is the running maximum, raw and absolute heads stay
      congruent mod 2^32, and the new intervals are disjoint and increasing above the first head. */
  lemma {:induction false} RunIsHighWater(s: Stream, head: nat, ps: seq<Packet>)
    requires At(s, head) && AllNear(head, ps)
    ensures var r := FeedAll(s, ps);
            && At(r.0, HeadAfterAll(head, ps))
            && (forall i :: 0 <= i < |ps| ==>
                 && head <= r.1[i].absStart
                 && r.1[i].absStart + r.1[i].novel <= HeadAfterAll(head, ps))
            && (forall i, j :: 0 <= i < j < |ps| && r.1[j].novel > 0 ==>
                 r.1[i].absStart + r.1[i].novel <= r.1[j].absStart)
            && head <= HeadAfterAll(head, ps)
    decreases |ps|
  {
    if ps != [] {
      var f := Feed(s, ps[0].start % U32, ps[0].len);
      FeedRefinesHighWater(s, head, ps[0]);
      var h1 := HeadAfter(head, ps[0]);
      RunIsHighWater(f.stream, h1, ps[1..]);
      var rest := FeedAll(f.stream, ps[1..]);
      var r := FeedAll(s, ps);
      assert r.1 == [f] + rest.1;
      assert forall i :: 0 < i < |ps| ==> r.1[i] == rest.1[i - 1];
      assert f.absStart + f.novel <= h1;
    }
  }

  ghost predicate Reported(fed: seq<Fed>, i: nat, x: nat) {
    i < |fed| && fed[i].absStart <= x < fed[i].absStart + fed[i].novel
  }

  /** Byte `x` lies in packet `i` and was not yet passed by the head when that packet came. */
  ghost predicate AheadIn(head: nat, ps: seq<Packet>, i: nat, x: nat) {
    i < |ps| && ps[i].start <= x < ps[i].start + ps[i].len && HeadAfterAll(head, ps[..i]) <= x
  }

  /** Packet `i` reports byte `x` as new exactly when it carries `x` and no earlier packet moved the
      head past it: a late packet that fills a skipped gap reports nothing. */
  lemma {:induction false} ReportedExactly(s: Stream, head: nat, ps: seq<Packet>, i: nat, x: nat)
    requires At(s, head) && AllNear(head, ps)
    ensures Reported(FeedAll(s, ps).1, i, x) <==> AheadIn(head, ps, i, x)
    decreases |ps|
  {
    if ps != [] {
      var f := Feed(s, ps[0].start % U32, ps[0].len);
      FeedRefinesHighWater(s, head, ps[0]);
      var rest, fed := FeedAll(f.stream, ps[1..]).1, FeedAll(s, ps).1;
      assert fed == [f] + rest;
      if i == 0 {
        assert HeadAfterAll(head, ps[..0]) == head;
      } else if i < |ps| {
        ReportedExactly(f.stream, HeadAfter(head, ps[0]), ps[1..], i - 1, x);
        assert ps[..i][1..] == ps[1..][..i - 1];
        assert HeadAfterAll(head, ps[..i]) == HeadAfterAll(HeadAfter(head, ps[0]), ps[1..][..i - 1]);
        assert fed[i] == rest[i - 1];
      }
    }
  }
}
