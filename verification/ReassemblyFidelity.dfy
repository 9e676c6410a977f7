/** What the data plane receives, whatever the network does: chunks of a source in any order, with
    any overlaps and repeats, evictions, segment errors and quarantine. */
module ReassemblyFidelity {
  import opened Common
  import opened Reassembly

  /** The true content: byte `i` of segment `k` is `src(k, i)`. */
  type Source = (SegKey, nat) -> byte

  ghost predicate FromSource(src: Source, k: SegKey, offset: nat, data: seq<byte>) {
    forall i :: 0 <= i < |data| ==> data[i] == src(k, offset + i)
  }

  ghost predicate PendingTrue(src: Source, s: Buffers) {
    forall k, o :: k in s.segs && o in s.segs[k].pending ==> FromSource(src, k, o, s.segs[k].pending[o])
  }

  ghost function Prefix(src: Source, k: SegKey, n: nat): seq<byte> {
    seq(n, i requires 0 <= i < n => src(k, i))
  }

  /** The file of segment `k` after one event; `None` if an append leaves a hole or rewrites bytes, or
      a seal declares another size than was written. A sealed segment starts over. */
  ghost function Written1(file: Option<seq<byte>>, e: Event, k: SegKey): Option<seq<byte>> {
    if e.Append? && e.key == k then
      if file.Some? && e.offset == |file.value| then Some(file.value + e.data) else None
    else if e.Sealed? && e.key == k then
      if file.Some? && e.size == |file.value| then Some([]) else None
    else file
  }

  ghost function Written(file: Option<seq<byte>>, events: seq<Event>, k: SegKey): Option<seq<byte>>
    decreases |events|
  {
    if events == [] then file else Written(Written1(file, events[0], k), events[1..], k)
  }

  lemma {:induction false} WrittenConcat(file: Option<seq<byte>>, a: seq<Event>, b: seq<Event>, k: SegKey)
    ensures Written(file, a + b, k) == Written(Written(file, a, k), b, k)
    decreases |a|
  {
    if a == [] {
      assert a + b == b;
    } else {
      assert (a + b)[1..] == a[1..] + b;
      WrittenConcat(Written1(file, a[0], k), a[1..], b, k);
    }
  }

  ghost predicate Silent(events: seq<Event>) {
    forall i :: 0 <= i < |events| ==> !events[i].Append? && !events[i].Sealed?
  }

  lemma {:induction false} SilentWrites(file: Option<seq<byte>>, events: seq<Event>, k: SegKey)
    requires Silent(events)
    ensures Written(file, events, k) == file
    decreases |events|
  {
    if events != [] {
      SilentWrites(file, events[1..], k);
    }
  }

  ghost function File(src: Source, s: Buffers, k: SegKey): Option<seq<byte>> {
    Some(Prefix(src, k, SegOf(s, k).next))
  }

  /** From `s` to `t` the events append exactly the source bytes between the two heads. */
  ghost predicate Follows(src: Source, s: Buffers, o: Out) {
    forall k :: Written(File(src, s, k), o.events, k) == File(src, o.s, k)
  }

  lemma PrefixGrows(src: Source, k: SegKey, n: nat, data: seq<byte>)
    requires FromSource(src, k, n, data)
    ensures Prefix(src, k, n) + data == Prefix(src, k, n + |data|)
  {}

  lemma {:induction false} DrainFollows(src: Source, s: Buffers, k: SegKey)
    requires PendingTrue(src, s)
    ensures Follows(src, s, Drain(s, k)) && PendingTrue(src, Drain(s, k).s)
    decreases |SegOf(s, k).pending|
  {
    if Drainable(s, k) {
      var g := s.segs[k];
      var s1, c := DrainStep(s, k), g.pending[g.next];
      Smaller(g.pending, g.next);
      DrainFollows(src, s1, k);
      PrefixGrows(src, k, g.next, c);
      var rest := Drain(s1, k);
      forall j ensures Written(File(src, s, j), Drain(s, k).events, j) == File(src, rest.s, j) {
        assert Written1(File(src, s, j), Append(k, g.next, c), j) == File(src, s1, j);
        assert Drain(s, k).events[1..] == rest.events;
      }
    }
  }

  lemma SameHeads(src: Source, s: Buffers, o: Out)
    requires Silent(o.events) && forall k :: SegOf(o.s, k).next == SegOf(s, k).next
    ensures Follows(src, s, o)
  {
    forall k ensures Written(File(src, s, k), o.events, k) == File(src, o.s, k) {
      SilentWrites(File(src, s, k), o.events, k);
    }
  }

  lemma FollowsThen(src: Source, s: Buffers, o1: Out, o2: Out)
    requires Follows(src, s, o1) && Follows(src, o1.s, o2)
    ensures Follows(src, s, Out(o2.s, o1.events + o2.events))
  {
    forall k ensures Written(File(src, s, k), o1.events + o2.events, k) == File(src, o2.s, k) {
      WrittenConcat(File(src, s, k), o1.events, o2.events, k);
      assert Written(File(src, s, k), o1.events, k) == File(src, o1.s, k);
    }
  }

  lemma RoomInDevFollows(src: Source, b: Budgets, s: Buffers, k: SegKey, p: Piece, dv: Option<Victim>,
                         gv: Option<Victim>)
    requires PendingTrue(src, s) && LegalVictims(b, s, k, p, dv, gv)
    ensures var o1 := MakeRoomInDev(b, s, k, p, dv);
            Follows(src, s, o1) && PendingTrue(src, o1.s) && SegOf(o1.s, k).next == SegOf(s, k).next
  {
    SameHeads(src, s, MakeRoomInDev(b, s, k, p, dv));
  }

  lemma RoomFollows(src: Source, b: Budgets, s: Buffers, k: SegKey, p: Piece, gv: Option<Victim>)
    requires PendingTrue(src, s) && (OverL3(b, s, p) ==> OldestGlobal(s, gv))
    ensures var o2 := MakeRoom(b, s, p, gv);
            Follows(src, s, o2) && PendingTrue(src, o2.s) && SegOf(o2.s, k).next == SegOf(s, k).next
  {
    SameHeads(src, s, MakeRoom(b, s, p, gv));
  }

  lemma MakeRoomFollows(src: Source, b: Budgets, s: Buffers, k: SegKey, p: Piece, dv: Option<Victim>,
                        gv: Option<Victim>)
    requires PendingTrue(src, s) && LegalVictims(b, s, k, p, dv, gv)
    ensures var o1 := MakeRoomInDev(b, s, k, p, dv); var o2 := MakeRoom(b, o1.s, p, gv);
            && Follows(src, s, Out(o2.s, o1.events + o2.events))
            && PendingTrue(src, o2.s) && SegOf(o2.s, k).next == SegOf(s, k).next
  {
    var o1 := MakeRoomInDev(b, s, k, p, dv);
    RoomInDevFollows(src, b, s, k, p, dv, gv);
    RoomFollows(src, b, o1.s, k, p, gv);
    FollowsThen(src, s, o1, MakeRoom(b, o1.s, p, gv));
  }

  lemma AdmitFollows(src: Source, b: Budgets, s: Buffers, k: SegKey, p: Piece, dv: Option<Victim>, gv: Option<Victim>)
    requires PendingTrue(src, s) && LegalVictims(b, s, k, p, dv, gv) && FromSource(src, k, p.offset, p.data)
    ensures Follows(src, s, Admit(b, s, k, p, dv, gv)) && PendingTrue(src, Admit(b, s, k, p, dv, gv).s)
  {
    MakeRoomFollows(src, b, s, k, p, dv, gv);
    var o1 := MakeRoomInDev(b, s, k, p, dv);
    var o2 := MakeRoom(b, o1.s, p, gv);
    var made := Out(o2.s, o1.events + o2.events);
    StoreThenDrain(src, o2.s, k, p);
    FollowsThen(src, s, made, Drain(Store(o2.s, k, p), k));
  }

  lemma StoreThenDrain(src: Source, s: Buffers, k: SegKey, p: Piece)
    requires PendingTrue(src, s) && FromSource(src, k, p.offset, p.data)
    ensures Follows(src, s, Drain(Store(s, k, p), k)) && PendingTrue(src, Drain(Store(s, k, p), k).s)
  {
    var t := Store(s, k, p);
    assert PendingTrue(src, t);
    DrainFollows(src, t, k);
    forall j ensures Written(File(src, s, j), Drain(t, k).events, j) == File(src, Drain(t, k).s, j) {
      assert File(src, s, j) == File(src, t, j);
    }
  }

  lemma PlaceFollows(src: Source, b: Budgets, s: Buffers, k: SegKey, offset: nat, data: seq<byte>,
                     dv: Option<Victim>, gv: Option<Victim>)
    requires PendingTrue(src, s) && Legal(b, s, k, offset, data, dv, gv) && FromSource(src, k, offset, data)
    ensures var o := Place(b, s, k, offset, data, dv, gv); Follows(src, s, o) && PendingTrue(src, o.s)
  {
    var o := Place(b, s, k, offset, data, dv, gv);
    if k.dev in s.quarantined || Covered(s, k, offset, data) {
      SameHeads(src, s, o);
    } else {
      var p := Trimmed(s, k, offset, data);
      if OverL2(b, s, k, p) {
        SameHeads(src, s, o);
      } else {
        AdmitFollows(src, b, s, k, p, dv, gv);
      }
    }
  }

  lemma SealFollows(src: Source, s: Buffers, k: SegKey, size: nat)
    requires PendingTrue(src, s)
    ensures Follows(src, s, Seal(s, k, size)) && PendingTrue(src, Seal(s, k, size).s)
  {
    var o, skips := Seal(s, k, size), Skips(s, k);
    if k !in s.segs || s.segs[k].next != size {
      SameHeads(src, s, o);
    } else {
      assert Silent(skips);
      forall j ensures Written(File(src, s, j), o.events, j) == File(src, o.s, j) {
        SilentWrites(File(src, s, j), skips, j);
        WrittenConcat(File(src, s, j), skips, [Sealed(k, size)], j);
        assert Written(File(src, s, j), [Sealed(k, size)], j) == Written1(File(src, s, j), Sealed(k, size), j);
        if j == k {
          assert Prefix(src, k, 0) == [];
        }
      }
    }
  }

  ghost predicate Genuine(src: Source, op: Op) {
    op.Chunk? ==> FromSource(src, op.key, op.offset, op.data)
  }

  lemma ApplyFollows(src: Source, b: Budgets, s: Buffers, op: Op)
    requires PendingTrue(src, s) && LegalOp(b, s, op) && Genuine(src, op)
    ensures Follows(src, s, Apply(b, s, op)) && PendingTrue(src, Apply(b, s, op).s)
  {
    match op {
      case Chunk(k, offset, data, dv, gv) => PlaceFollows(src, b, s, k, offset, data, dv, gv);
      case SealAt(k, size) => SealFollows(src, s, k, size);
      case Clock(now) => SameHeads(src, s, Apply(b, s, op));
    }
  }

  lemma {:induction false} RunFollows(src: Source, b: Budgets, s: Buffers, ops: seq<Op>)
    requires PendingTrue(src, s) && LegalRun(b, s, ops)
    requires forall i :: 0 <= i < |ops| ==> Genuine(src, ops[i])
    ensures Follows(src, s, Run(b, s, ops)) && PendingTrue(src, Run(b, s, ops).s)
    decreases |ops|
  {
    if ops == [] {
      SameHeads(src, s, Out(s, []));
    } else {
      ApplyFollows(src, b, s, ops[0]);
      var o := Apply(b, s, ops[0]);
      RunFollows(src, b, o.s, ops[1..]);
      FollowsThen(src, s, o, Run(b, o.s, ops[1..]));
    }
  }

  /** The append events of every segment are contiguous from 0 and concatenate to the source prefix up
      to its head; a seal succeeds only on exactly the declared number of bytes. */
  lemma FilesAreSourcePrefixes(src: Source, b: Budgets, ops: seq<Op>, k: SegKey)
    requires LegalRun(b, EMPTY, ops)
    requires forall i :: 0 <= i < |ops| ==> Genuine(src, ops[i])
    ensures var o := Run(b, EMPTY, ops);
            Written(Some([]), o.events, k) == Some(Prefix(src, k, SegOf(o.s, k).next))
  {
    RunFollows(src, b, EMPTY, ops);
    assert Written(File(src, EMPTY, k), Run(b, EMPTY, ops).events, k) == File(src, Run(b, EMPTY, ops).s, k);
    assert Prefix(src, k, 0) == [];
  }
}
