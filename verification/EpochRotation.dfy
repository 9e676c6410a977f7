/** Freezing the current epoch, as the program runs it: bounds are read, the ledger row is written,
    then the registry moves to a new epoch. Either write may fail and leave the rest undone. */
module EpochRotation {
  import opened Common
  import opened Ordering
  import opened Store
  import opened QrDurability
  import opened Archives
  import opened Qr

  class EpochKeeper {
    const live: Live
    var past: seq<Epoch>
    var epoch: Epoch
    var epochNum: nat
    var bounds: map<nat, Boundary>

    ghost predicate Valid() reads this { epochNum == |past| }

    ghost function Value(): Archive reads this { Archive(Durable(live, past, epoch), bounds) }

    constructor (l: Live)
      ensures Valid() && Filed(Value())
    {
      live := l;
      past, epoch, epochNum, bounds := [], map[], 0, map[];
    }

    method CurrentEpochBounds() returns (b: Boundary)
      ensures b == CurrentBounds(epoch)
    {
      RecordOrder();
      var keys := set k | k in epoch && k.KRecord? :: RecordKey(k.ts, k.idx);
      assert keys == RecordKeys(epoch);
      if keys == {} {
        assert Ascend(RecordLt, keys) == [];
        return Boundary(None, None, 0);
      }
      var first := First(RecordLt, keys);
      var last := Last(RecordLt, keys);
      AscendEnds(RecordLt, keys);
      var all := Ascend(RecordLt, keys);
      EndsUnique(RecordLt, keys, first, all[0]);
      EndsUnique(RecordLt, keys, last, all[|all| - 1]);
      b := Boundary(Some(first.ts), Some(last.ts), |keys|);
    }

    method RotateEpoch() returns (next: nat)
      requires Valid()
      modifies this
      ensures Valid() && next == epochNum == old(epochNum) + 1
      ensures past == old(past) + [old(epoch)] && epoch == map[] && bounds == old(bounds)
    {
      next := epochNum + 1;
      past, epoch, epochNum := past + [epoch], map[], next;
    }

    /** `maybe_rotate_epoch`. */
    method MaybeRotateEpoch(ghost p: Params, diskSize: nat, maxBytes: nat, upsertFails: bool, rotateFails: bool)
      requires Valid()
      modifies this
      ensures Valid()
      ensures diskSize < maxBytes || upsertFails ==> Value() == old(Value())
      ensures diskSize >= maxBytes && !upsertFails ==>
        Value() == Act(p, old(Value()), if rotateFails then MarkOnly else MarkAndRotate)
      ensures old(Filed(Value())) ==> Filed(Value())
    {
      if diskSize < maxBytes {
        return;
      }
      var id := epochNum;
      var b := CurrentEpochBounds();
      if upsertFails {
        return;
      }
      bounds := bounds[id := b];
      ActFiledIf(p, old(Value()), MarkOnly);
      ActFiledIf(p, old(Value()), MarkAndRotate);
      if rotateFails {
        return;
      }
      var next := RotateEpoch();
    }
  }

  lemma ActFiledIf(p: Params, a: Archive, m: Move)
    ensures Filed(a) ==> Filed(Act(p, a, m))
  {
    if Filed(a) {
      ActKeepsFiled(p, a, m);
    }
  }
}
