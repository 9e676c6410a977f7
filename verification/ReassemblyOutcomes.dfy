/** What one arriving chunk comes to, in offsets and byte counts: dropped, repeated, refused, appended or
    left waiting. */
module ReassemblyOutcomes {
  import opened Common
  import opened Reassembly
  import opened ReassemblyBudget
  import opened ReassemblyCap
  import opened ReassemblyWindow

  /** The chunk brings bytes past the head of its segment. */
  predicate BringsNew(s: Buffers, k: SegKey, offset: nat, data: seq<byte>) { offset + |data| > SegOf(s, k).next }

  /** The chunk lies past the head, and its segment has no room left for it. */
  predicate NoRoom(b: Budgets, s: Buffers, k: SegKey, offset: nat, data: seq<byte>) {
    offset > SegOf(s, k).next && SegOf(s, k).bytes + |data| > b.l2
  }

  lemma TrimmedEnds(s: Buffers, k: SegKey, offset: nat, data: seq<byte>)
    requires BringsNew(s, k, offset, data)
    ensures var p := Trimmed(s, k, offset, data);
            && p.offset == Max(offset, SegOf(s, k).next) && p.offset + |p.data| == offset + |data|
            && (offset > SegOf(s, k).next ==> p.data == data)
  {}

  /** Nothing but the segment `k` differs. */
  ghost predicate OnlySeg(s: Buffers, t: Buffers, k: SegKey) {
    && t == s.(segs := t.segs) && t.segs.Keys == s.segs.Keys
    && forall j :: j in s.segs && j != k ==> t.segs[j] == s.segs[j]
  }

  // ---- Dropped, repeated, refused ----

  /** A device in quarantine is not served, the drop is reported with its size. */
  lemma QuarantinedDrops(b: Budgets, s: Buffers, k: SegKey, offset: nat, data: seq<byte>, dv: Option<Victim>,
                         gv: Option<Victim>)
    requires Legal(b, s, k, offset, data, dv, gv)
    ensures var o := Place(b, s, k, offset, data, dv, gv);
            && ((exists e :: e in o.events && e.QuarantinedDrop?) <==> k.dev in s.quarantined)
            && (k.dev in s.quarantined ==> o == Out(s, [QuarantinedDrop(k.dev, |data|)]))
  {
    var o := Place(b, s, k, offset, data, dv, gv);
    if k.dev in s.quarantined {
      assert QuarantinedDrop(k.dev, |data|) in o.events;
    } else if BringsNew(s, k, offset, data) && !NoRoom(b, s, k, offset, data) {
      AdmitEvents(b, s, k, Trimmed(s, k, offset, data), dv, gv);
    }
  }

  predicate Moves(e: Event) { e.Append? || e.Evict? || e.Quarantine? }

  lemma AdmitEvents(b: Budgets, s: Buffers, k: SegKey, p: Piece, dv: Option<Victim>, gv: Option<Victim>)
    requires LegalVictims(b, s, k, p, dv, gv)
    ensures forall e :: e in Admit(b, s, k, p, dv, gv).events ==> Moves(e)
  {
    var s1 := MakeRoomInDev(b, s, k, p, dv).s;
    DrainAppends(Store(MakeRoom(b, s1, p, gv).s, k, p), k);
  }

  /** A chunk is a repeat exactly when it ends at or before the head; it is counted and nothing else. */
  lemma RepeatExactly(b: Budgets, s: Buffers, k: SegKey, offset: nat, data: seq<byte>, dv: Option<Victim>,
                      gv: Option<Victim>)
    requires Legal(b, s, k, offset, data, dv, gv) && k.dev !in s.quarantined
    ensures var o := Place(b, s, k, offset, data, dv, gv);
            && (Dup(k) in o.events <==> offset + |data| <= SegOf(s, k).next)
            && (Dup(k) in o.events ==>
                 && o.events == [Dup(k)] && OnlySeg(s, o.s, k)
                 && (k in s.segs ==> o.s.segs[k] == s.segs[k].(dups := s.segs[k].dups + 1)))
  {
    if BringsNew(s, k, offset, data) && !NoRoom(b, s, k, offset, data) {
      AdmitEvents(b, s, k, Trimmed(s, k, offset, data), dv, gv);
    }
  }

  /** A segment runs into an error exactly when a chunk lies past its head and no longer fits its budget:
      what waits is dropped, the head stays and is reported, and the bytes go back to both counters. */
  lemma RefusedExactly(b: Budgets, s: Buffers, k: SegKey, offset: nat, data: seq<byte>, dv: Option<Victim>,
                       gv: Option<Victim>)
    requires Inv(b, s) && Legal(b, s, k, offset, data, dv, gv) && k.dev !in s.quarantined
    ensures var o, g := Place(b, s, k, offset, data, dv, gv), SegOf(s, k);
            && (SegmentError(k) in o.events <==> offset > g.next && g.bytes + |data| > b.l2)
            && (SegmentError(k) in o.events ==>
                 && o.events == [SegmentError(k), Gap(k, g.next)]
                 && o.s.segs.Keys == s.segs.Keys && (forall j :: j in s.segs && j != k ==> o.s.segs[j] == s.segs[j])
                 && (k in s.segs ==> o.s.segs[k] == g.(state := Error, pending := map[], bytes := 0))
                 && o.s.global + g.bytes == s.global && ConnOf(o.s, k.dev) + g.bytes == ConnOf(s, k.dev))
  {
    if BringsNew(s, k, offset, data) && !NoRoom(b, s, k, offset, data) {
      AdmitEvents(b, s, k, Trimmed(s, k, offset, data), dv, gv);
    } else if NoRoom(b, s, k, offset, data) && k in s.segs {
      NothingStored();
      CreditSound(s, k, s.segs[k].(state := Error, pending := map[], bytes := 0), s.segs[k].bytes);
    }
  }

  // ---- Served ----

  /** Making room moves no head. */
  lemma RoomKeepsHeads(b: Budgets, s: Buffers, k: SegKey, p: Piece, dv: Option<Victim>, gv: Option<Victim>, j: SegKey)
    requires LegalVictims(b, s, k, p, dv, gv)
    ensures var s1 := MakeRoomInDev(b, s, k, p, dv).s;
            SegOf(s1, j).next == SegOf(s, j).next && SegOf(MakeRoom(b, s1, p, gv).s, j).next == SegOf(s, j).next
  {}

  lemma {:induction false} DrainGoesOn(s: Buffers, k: SegKey)
    ensures SegOf(Drain(s, k).s, k).next >= SegOf(s, k).next
    decreases |SegOf(s, k).pending|
  {
    if Drainable(s, k) {
      Smaller(s.segs[k].pending, s.segs[k].next);
      DrainGoesOn(DrainStep(s, k), k);
    }
  }

  lemma StoredAtHead(s: Buffers, k: SegKey, p: Piece)
    requires p.offset == SegOf(s, k).next
    ensures var o := Drain(Store(s, k, p), k);
            && SegOf(o.s, k).next >= p.offset + |p.data|
            && o.events != [] && o.events[0] == Append(k, p.offset, p.data)
  {
    var t := Store(s, k, p);
    assert Drainable(t, k);
    DrainGoesOn(DrainStep(t, k), k);
  }

  lemma HeadAdmitted(b: Budgets, s: Buffers, k: SegKey, p: Piece, dv: Option<Victim>, gv: Option<Victim>)
    requires LegalVictims(b, s, k, p, dv, gv) && p.offset == SegOf(s, k).next
    ensures var o := Admit(b, s, k, p, dv, gv);
            && SegOf(o.s, k).next >= p.offset + |p.data| && Append(k, p.offset, p.data) in o.events
            && SameWatch(s, o.s)
  {
    RoomKeepsHeads(b, s, k, p, dv, gv, k);
    var s2 := MakeRoom(b, s, p, gv).s;
    StoredAtHead(s2, k, p);
    AdmitWatches(b, s, k, p, dv, gv);
    assert Drain(Store(s2, k, p), k).events[0] in Admit(b, s, k, p, dv, gv).events;
  }

  /** A chunk that continues its segment at the head is never refused, whatever the budgets: its bytes past
      the head are appended at once, and no eviction of the device is counted against it. */
  lemma InOrderIsAppended(b: Budgets, s: Buffers, k: SegKey, offset: nat, data: seq<byte>, dv: Option<Victim>,
                          gv: Option<Victim>)
    requires Legal(b, s, k, offset, data, dv, gv) && k.dev !in s.quarantined
    requires offset <= SegOf(s, k).next < offset + |data|
    ensures var o, n := Place(b, s, k, offset, data, dv, gv), SegOf(s, k).next;
            && SegOf(o.s, k).next >= offset + |data|
            && Append(k, n, data[n - offset..]) in o.events
            && o.s.evict == s.evict && o.s.quarantined == s.quarantined
  {
    HeadAdmitted(b, s, k, Trimmed(s, k, offset, data), dv, gv);
  }

  /** After making room the books hold and the head is where it was. */
  lemma RoomsInv(b: Budgets, s: Buffers, k: SegKey, p: Piece, dv: Option<Victim>, gv: Option<Victim>)
    requires Inv(b, s) && LegalVictims(b, s, k, p, dv, gv)
    ensures var s1 := MakeRoomInDev(b, s, k, p, dv).s; var s2 := MakeRoom(b, s1, p, gv).s;
            Inv(b, s2) && SegOf(s2, k).next == SegOf(s, k).next
  {
    MakeRoomInDevInv(b, s, k, p, dv);
    MakeRoomInv(b, MakeRoomInDev(b, s, k, p, dv).s, k, p, gv);
  }

  lemma NothingDrains(b: Budgets, s: Buffers, k: SegKey, p: Piece)
    requires Inv(b, s) && p.offset > SegOf(s, k).next
    ensures Drain(Store(s, k, p), k) == Out(Store(s, k, p), [])
  {
    assert k in s.segs ==> !Drainable(s, k);
  }

  lemma RoomAppendsNothing(b: Budgets, s: Buffers, k: SegKey, p: Piece, dv: Option<Victim>, gv: Option<Victim>)
    requires LegalVictims(b, s, k, p, dv, gv)
    ensures var o1 := MakeRoomInDev(b, s, k, p, dv);
            && (forall e :: e in o1.events ==> !e.Append?)
            && (forall e :: e in MakeRoom(b, o1.s, p, gv).events ==> !e.Append?)
  {}

  lemma AheadAdmitted(b: Budgets, s: Buffers, k: SegKey, p: Piece, dv: Option<Victim>, gv: Option<Victim>)
    requires Inv(b, s) && LegalVictims(b, s, k, p, dv, gv) && p.offset > SegOf(s, k).next
    ensures var o := Admit(b, s, k, p, dv, gv); var s1 := MakeRoomInDev(b, s, k, p, dv).s;
            o.s == Store(MakeRoom(b, s1, p, gv).s, k, p) && forall e :: e in o.events ==> !e.Append?
  {
    var s1 := MakeRoomInDev(b, s, k, p, dv).s;
    RoomsInv(b, s, k, p, dv, gv);
    NothingDrains(b, MakeRoom(b, s1, p, gv).s, k, p);
    RoomAppendsNothing(b, s, k, p, dv, gv);
  }

  /** A chunk past the head with room in its segment waits, even when it makes its device go into
      quarantine: the head stays, nothing is appended, and the chunk is there under its offset. */
  lemma AheadWaits(b: Budgets, s: Buffers, k: SegKey, offset: nat, data: seq<byte>, dv: Option<Victim>,
                   gv: Option<Victim>)
    requires Inv(b, s) && Legal(b, s, k, offset, data, dv, gv) && k.dev !in s.quarantined && data != []
    requires offset > SegOf(s, k).next && SegOf(s, k).bytes + |data| <= b.l2
    ensures var o := Place(b, s, k, offset, data, dv, gv);
            && k in o.s.segs && o.s.segs[k].next == SegOf(s, k).next
            && offset in o.s.segs[k].pending && o.s.segs[k].pending[offset] == data
            && (forall e :: e in o.events ==> !e.Append?)
  {
    var p := Piece(offset, data);
    assert Trimmed(s, k, offset, data) == p;
    AheadAdmitted(b, s, k, p, dv, gv);
    RoomKeepsHeads(b, s, k, p, dv, gv, k);
  }

  // ---- States ----

  /** The device went into quarantine between `s` and `t`. */
  predicate Banned(s: Buffers, t: Buffers, d: nat) { d in t.quarantined && d !in s.quarantined }

  lemma {:induction false} DrainStates(s: Buffers, k: SegKey, j: SegKey)
    ensures var t := Drain(s, k).s;
            && t.quarantined == s.quarantined
            && SegOf(t, j).state == if j == k && Drainable(s, k) then Unfinished else SegOf(s, j).state
    decreases |SegOf(s, k).pending|
  {
    if Drainable(s, k) {
      Smaller(s.segs[k].pending, s.segs[k].next);
      DrainStates(DrainStep(s, k), k, j);
    }
  }

  lemma RoomInDevStates(b: Budgets, s: Buffers, k: SegKey, p: Piece, dv: Option<Victim>, j: SegKey)
    requires OverL25(b, s, k, p) && dv.Some? ==> Holds(s, dv.value)
    ensures var s1 := MakeRoomInDev(b, s, k, p, dv).s;
            SegOf(s1, j).state == if j in s.segs && Banned(s, s1, j.dev) then Skipped else SegOf(s, j).state
  {}

  lemma RoomOverallStates(b: Budgets, s: Buffers, p: Piece, gv: Option<Victim>, j: SegKey)
    requires OverL3(b, s, p) && gv.Some? ==> Holds(s, gv.value)
    ensures var s2 := MakeRoom(b, s, p, gv).s;
            s2.quarantined == s.quarantined && SegOf(s2, j).state == SegOf(s, j).state
  {}

  lemma RoomStates(b: Budgets, s: Buffers, k: SegKey, p: Piece, dv: Option<Victim>, gv: Option<Victim>, j: SegKey)
    requires LegalVictims(b, s, k, p, dv, gv)
    ensures var s1 := MakeRoomInDev(b, s, k, p, dv).s; var s2 := MakeRoom(b, s1, p, gv).s;
            && s2.quarantined == s1.quarantined
            && SegOf(s2, j).state
               == if j in s.segs && Banned(s, s1, j.dev) then Skipped else SegOf(s, j).state
  {
    RoomInDevStates(b, s, k, p, dv, j);
    RoomOverallStates(b, MakeRoomInDev(b, s, k, p, dv).s, p, gv, j);
  }

  lemma StoreStates(s: Buffers, k: SegKey, p: Piece, j: SegKey)
    ensures SegOf(Store(s, k, p), j).state == SegOf(s, j).state && Store(s, k, p).quarantined == s.quarantined
    ensures p.offset == SegOf(s, k).next ==> Drainable(Store(s, k, p), k)
  {}

  lemma StoredStates(b: Budgets, s: Buffers, k: SegKey, p: Piece, j: SegKey)
    requires Inv(b, s) && p.offset >= SegOf(s, k).next
    ensures var t := Drain(Store(s, k, p), k).s;
            && t.quarantined == s.quarantined
            && SegOf(t, j).state == if j == k && p.offset == SegOf(s, k).next then Unfinished else SegOf(s, j).state
  {
    StoreStates(s, k, p, j);
    if p.offset > SegOf(s, k).next {
      NothingDrains(b, s, k, p);
    } else {
      DrainStates(Store(s, k, p), k, j);
    }
  }

  lemma AdmitStates(b: Budgets, s: Buffers, k: SegKey, p: Piece, dv: Option<Victim>, gv: Option<Victim>, j: SegKey)
    requires Inv(b, s) && LegalVictims(b, s, k, p, dv, gv) && p.offset >= SegOf(s, k).next
    ensures var t := Admit(b, s, k, p, dv, gv).s;
            SegOf(t, j).state ==
              if j == k && p.offset == SegOf(s, k).next then Unfinished
              else if j in s.segs && Banned(s, t, j.dev) then Skipped else SegOf(s, j).state
  {
    RoomsInv(b, s, k, p, dv, gv);
    RoomStates(b, s, k, p, dv, gv, j);
    StoredStates(b, MakeRoom(b, MakeRoomInDev(b, s, k, p, dv).s, p, gv).s, k, p, j);
  }

  lemma ServedStates(b: Budgets, s: Buffers, k: SegKey, offset: nat, data: seq<byte>, dv: Option<Victim>,
                     gv: Option<Victim>, j: SegKey)
    requires Inv(b, s) && Legal(b, s, k, offset, data, dv, gv) && k.dev !in s.quarantined
    requires BringsNew(s, k, offset, data) && !NoRoom(b, s, k, offset, data)
    ensures var t := Place(b, s, k, offset, data, dv, gv).s;
            SegOf(t, j).state ==
              if j == k && offset <= SegOf(s, k).next then Unfinished
              else if j in s.segs && Banned(s, t, j.dev) then Skipped else SegOf(s, j).state
  {
    TrimmedEnds(s, k, offset, data);
    AdmitStates(b, s, k, Trimmed(s, k, offset, data), dv, gv, j);
  }

  /** The state of any segment after a chunk: ERROR where the chunk was refused, UNFINISHED where it
      was appended, SKIPPED in a device that has just gone into quarantine, else as before. */
  lemma StatesExactly(b: Budgets, s: Buffers, k: SegKey, offset: nat, data: seq<byte>, dv: Option<Victim>,
                      gv: Option<Victim>, j: SegKey)
    requires Inv(b, s) && Legal(b, s, k, offset, data, dv, gv)
    ensures var t, n := Place(b, s, k, offset, data, dv, gv).s, SegOf(s, k).next;
            var served := k.dev !in s.quarantined && offset + |data| > n;
            SegOf(t, j).state ==
              if served && j == k && offset <= n then Unfinished
              else if served && j == k && j in s.segs && NoRoom(b, s, k, offset, data) then Error
              else if j in s.segs && Banned(s, t, j.dev) then Skipped
              else SegOf(s, j).state
  {
    if k.dev !in s.quarantined && BringsNew(s, k, offset, data) && !NoRoom(b, s, k, offset, data) {
      ServedStates(b, s, k, offset, data, dv, gv, j);
    }
  }

  // ---- Sealing ----

  /** A seal of a known segment releases it exactly when its size is the head, and reports the gap and
      remembers the size otherwise; the head is never moved. */
  lemma SealExactly(s: Buffers, k: SegKey, size: nat)
    requires k in s.segs
    ensures var o, n := Seal(s, k, size), s.segs[k].next;
            && (k !in o.s.segs <==> n == size)
            && (Sealed(k, size) in o.events <==> n == size)
            && (SealGap(k, n, size) in o.events <==> n != size)
            && (n != size ==> o.s.segs == s.segs[k := s.segs[k].(sealedSize := Some(size))])
            && (n == size ==> o.s.segs == s.segs - {k})
  {
    assert forall e :: e in Skips(s, k) ==> e.SeqSkipped?;
    var o := Seal(s, k, size);
    assert o.events[|o.events| - 1] in o.events;
  }

  // ---- Victims ----

  /** Both chunks belong to quarantined devices, or neither does. */
  predicate SameClass(s: Buffers, v: Victim, u: Victim) { v.key.dev in s.quarantined <==> u.key.dev in s.quarantined }

  /** The first chunk waiting in a segment. */
  lemma FirstWaiting(s: Buffers, u: Victim) returns (v: Victim)
    requires Holds(s, u)
    ensures Candidate(s, v) && v.key == u.key && v.offset <= u.offset
  {
    var o := LeastOf(s.segs[u.key].pending.Keys, u.offset);
    v := Victim(u.key, o);
  }

  lemma {:induction false} LeastOf(offsets: set<nat>, o: nat) returns (least: nat)
    requires o in offsets
    ensures least in offsets && forall x :: x in offsets ==> least <= x
    decreases o
  {
    if x :| x in offsets && x < o {
      least := LeastOf(offsets, x);
    } else {
      least := o;
    }
  }

  /** The victim of a device is any of its chunks with the smallest offset of all; there is none exactly when
      nothing waits. */
  lemma DeviceVictimExactly(s: Buffers, d: nat, v: Option<Victim>)
    ensures OldestInDev(s, d, v) <==>
            match v
            case None => forall u :: Holds(s, u) ==> u.key.dev != d
            case Some(x) =>
              Holds(s, x) && x.key.dev == d && forall u :: Holds(s, u) && u.key.dev == d ==> x.offset <= u.offset
  {
    forall u | Holds(s, u) && u.key.dev == d
      ensures exists w :: Candidate(s, w) && w.key == u.key && w.offset <= u.offset
    {
      var w := FirstWaiting(s, u);
    }
    if v.None? && !NothingPending(s, d) {
      var k :| k in s.segs && k.dev == d && s.segs[k].pending != map[];
      var o :| o in s.segs[k].pending;
      assert Holds(s, Victim(k, o));
    }
    if v.Some? && Holds(s, v.value) && v.value.key.dev == d {
      var x := v.value;
      if forall u :: Holds(s, u) && u.key.dev == d ==> x.offset <= u.offset {
        assert forall o :: o in s.segs[x.key].pending ==> Holds(s, Victim(x.key, o));
      }
    }
  }

  /** `x` is a chunk of a quarantined device while one has something waiting, with the smallest offset of
      its class. */
  ghost predicate First(s: Buffers, x: Victim) {
    && Holds(s, x)
    && (forall u :: Holds(s, u) && u.key.dev in s.quarantined ==> x.key.dev in s.quarantined)
    && (forall u :: Holds(s, u) && SameClass(s, x, u) ==> x.offset <= u.offset)
  }

  lemma GlobalIsFirst(s: Buffers, x: Victim)
    requires OldestGlobal(s, Some(x))
    ensures First(s, x)
  {
    forall u | Holds(s, u)
      ensures u.key.dev in s.quarantined ==> x.key.dev in s.quarantined
      ensures SameClass(s, x, u) ==> x.offset <= u.offset
    {
      var w := FirstWaiting(s, u);
      assert !Better(s, w, x);
    }
  }

  lemma FirstIsGlobal(s: Buffers, x: Victim)
    requires First(s, x)
    ensures OldestGlobal(s, Some(x))
  {
    forall o | o in s.segs[x.key].pending ensures x.offset <= o {
      assert Holds(s, Victim(x.key, o)) && SameClass(s, x, Victim(x.key, o));
    }
    forall y | Candidate(s, y) ensures !Better(s, y, x) {
      assert Holds(s, y);
    }
  }

  /** The victim of all is any such chunk; there is none exactly when nothing waits at all. */
  lemma GlobalVictimExactly(s: Buffers, v: Option<Victim>)
    ensures OldestGlobal(s, v) <==> match v case None => forall u :: !Holds(s, u) case Some(x) => First(s, x)
  {
    match v {
      case None =>
        if k :| k in s.segs && s.segs[k].pending != map[] {
          var o :| o in s.segs[k].pending;
          assert Holds(s, Victim(k, o));
        }
      case Some(x) =>
        if OldestGlobal(s, v) {
          GlobalIsFirst(s, x);
        }
        if First(s, x) {
          FirstIsGlobal(s, x);
        }
    }
  }
}
