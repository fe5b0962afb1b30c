/** The run-time shatter script (RuntimeShatterExample.cs): like the editor script, but the
    list always exists, a failed pick is retried, and every hull of a slice is registered. */
module RuntimeShatterExample {
  import opened Vectors
  import opened Wrappers
  import opened Scene

  /** Every slice the slicer returns was cut from a mesh with a volume to divide by. */
  ghost predicate SlicesHaveVolume(slicer: CutSlicer) {
    forall m, p :: slicer(m, p).Some? ==> slicer(m, p).value.sourceVolume != 0.0
  }

  /** The constant 0.7f that shrinks the bounds' extents, taken as the exact rational 7/10. */
  const OneOnSqrt2: real := 0.7

  /** GetRandomPlane: an EzySlice plane through positionOffset moved by the first (unit-ball)
      sample, with the normalised second sample as its normal; scaleOffset is not used. */
  function GetRandomPlane(positionOffset: Vector3, scaleOffset: Vector3, pointSample: Vector3, direction: Vector3): (p: CutPlane)
    ensures p.normal == direction
    ensures Sub(p.position, positionOffset) == pointSample
  {
    CutPlane(Add(pointSample, positionOffset), direction)
  }

  /** The scale argument has no effect on the plane. */
  lemma GetRandomPlaneIgnoresScale(positionOffset: Vector3, scale1: Vector3, scale2: Vector3, pointSample: Vector3, direction: Vector3)
    ensures GetRandomPlane(positionOffset, scale1, pointSample, direction) == GetRandomPlane(positionOffset, scale2, pointSample, direction)
  {
  }

  /** ShatterObject without a test plane: the slice of the object by a random plane drawn
      around the centre of its collider bounds. */
  function SliceFor(placement: Placement, pointSample: Vector3, direction: Vector3, slicer: CutSlicer): (r: Option<SlicedHull>)
    ensures r == slicer(placement.mesh, CutPlane(Add(pointSample, placement.boundsCenter), direction))
  {
    var plane := GetRandomPlane(placement.boundsCenter, Scale(placement.boundsExtents, OneOnSqrt2), pointSample, direction);
    slicer(placement.mesh, plane)
  }

  // ---------------------------------------------------------------- choosing a shard

  /** The do-while pick over a non-empty list, one draw per round. The index comes from
      Random.Range(0, Count - 1). The exception that reading a null entry's name throws is
      caught and the loop goes round again; a destroyed entry's exception is caught too, but
      the loop condition then reads its activeSelf and throws. */
  function RuntimePick(statuses: seq<ShardStatus>, draws: seq<nat>): (p: Pick)
    requires |statuses| > 0
    ensures p.Picked? ==> p.index < |statuses| && statuses[p.index] == Live
    ensures p.Picked? && |statuses| >= 2 ==> p.index <= |statuses| - 2
    ensures p.PickRaised? ==> p.error == MissingReference
  {
    if draws == [] then NoDrawLeft
    else
      var i := RandomRange(0, |statuses| - 1, draws[0]);
      match statuses[i]
      case Null => RuntimePick(statuses, draws[1..])
      case Destroyed => PickRaised(MissingReference)
      case Inactive => RuntimePick(statuses, draws[1..])
      case Live => Picked(i)
  }

  /** The pick only throws when a draw lands on a destroyed entry. */
  lemma {:induction false} PickRaisesOnlyOnDestroyed(statuses: seq<ShardStatus>, draws: seq<nat>)
    requires |statuses| > 0
    requires forall i :: 0 <= i < |statuses| ==> statuses[i] != Destroyed
    ensures !RuntimePick(statuses, draws).PickRaised?
  {
    if draws != [] {
      PickRaisesOnlyOnDestroyed(statuses, draws[1..]);
    }
  }

  /** The last entry is never drawn: when every other entry is null or inactive the loop never
      ends, whatever the draws. */
  lemma {:induction false} LastShardNeverPicked(statuses: seq<ShardStatus>, draws: seq<nat>)
    requires |statuses| >= 2
    requires forall i :: 0 <= i < |statuses| - 1 ==> statuses[i] == Inactive || statuses[i] == Null
    ensures RuntimePick(statuses, draws) == NoDrawLeft
  {
    if draws != [] {
      LastShardNeverPicked(statuses, draws[1..]);
    }
  }

  /** A list of one live shard: the first draw picks it. */
  lemma SingleShardPicked(statuses: seq<ShardStatus>, draws: seq<nat>)
    requires statuses == [Live] && draws != []
    ensures RuntimePick(statuses, draws) == Picked(0)
  {
  }

  /** The pick loop, proved against RuntimePick. */
  method PickShard(list: seq<GameObject?>, draws: seq<nat>) returns (p: Pick)
    requires |list| > 0
    ensures p == RuntimePick(Statuses(list), draws)
  {
    var k := 0;
    while k < |draws|
      invariant 0 <= k <= |draws|
      invariant RuntimePick(Statuses(list), draws[k..]) == RuntimePick(Statuses(list), draws)
    {
      assert draws[k..][1..] == draws[k + 1..];
      var objectToSplit := list[RandomRange(0, |list| - 1, draws[k])];
      if objectToSplit != null {
        if objectToSplit.destroyed {
          return PickRaised(MissingReference);
        }
        if objectToSplit.activeSelf {
          return Picked(RandomRange(0, |list| - 1, draws[k]));
        }
      }
      k := k + 1;
    }
    return NoDrawLeft;
  }

  // ---------------------------------------------------------------- the script

  class RuntimeShatterExample {
    var objectToShatter: GameObject?
    var prevShatters: seq<GameObject?>

    constructor (objectToShatter: GameObject?)
      ensures this.objectToShatter == objectToShatter && prevShatters == []
    {
      this.objectToShatter := objectToShatter;
      prevShatters := [];
    }

    /** The root and the listed objects. */
    function KnownObjects(): set<GameObject>
      reads this
    {
      Listed(prevShatters) + if objectToShatter != null then {objectToShatter} else {}
    }

    /** The first part of RandomShatter: with an empty list the root is the target; otherwise a
        shard is picked. */
    method ChooseTarget(draws: seq<nat>) returns (outcome: Outcome, target: Option<GameObject>)
      ensures |prevShatters| == 0 ==>
                (target.Some? <==> AccessError(Status(objectToShatter)).None?)
                && (target.Some? ==> target.value == objectToShatter)
                && (target.None? ==> outcome == Raised(AccessError(Status(objectToShatter)).value))
      ensures |prevShatters| > 0 ==>
                var p := RuntimePick(Statuses(prevShatters), draws);
                (target.Some? <==> p.Picked?)
                && (p.Picked? ==> target.value == prevShatters[p.index] && target.value.activeSelf)
                && (p.PickRaised? ==> outcome == Raised(p.error))
                && (p.NoDrawLeft? ==> outcome == StillPicking)
      ensures target.Some? ==> outcome == Returned && !target.value.destroyed
    {
      if |prevShatters| == 0 {
        var e := AccessError(Status(objectToShatter));
        if e.Some? {
          return Raised(e.value), None;
        }
        return Returned, Some(objectToShatter);
      }
      var p := PickShard(prevShatters, draws);
      match p
      case Picked(i) =>
        var chosen := prevShatters[i];
        assert Status(chosen) == Live;
        return Returned, Some(chosen);
      case PickRaised(e) =>
        return Raised(e), None;
      case NoDrawLeft =>
        return StillPicking, None;
    }

    /** The foreach over the slice's hulls with its counter i: each hull object gets a body
        copied from the target's (when it has one) with mass share i, and is appended. */
    method AddHulls(source: Rigidbody?, slice: SlicedHull) returns (created: seq<GameObject>)
      requires slice.sourceVolume != 0.0
      modifies this
      ensures objectToShatter == old(objectToShatter)
      ensures |created| == |slice.hulls|
      ensures prevShatters == old(prevShatters) + created
      ensures forall i :: 0 <= i < |created| ==>
                fresh(created[i]) && ShardFrom(created[i], slice.hulls[i], source, slice.sourceVolume)
                && (source != null ==> fresh(created[i].body))
      ensures forall i, j :: 0 <= i < j < |created| ==> created[i] != created[j]
    {
      created := [];
      assert old(prevShatters) + created == old(prevShatters);
      var i := 0;
      while i < |slice.hulls|
        invariant 0 <= i <= |slice.hulls|
        invariant |created| == i
        invariant objectToShatter == old(objectToShatter)
        invariant prevShatters == old(prevShatters) + created
        invariant forall k :: 0 <= k < i ==>
                    fresh(created[k]) && ShardFrom(created[k], slice.hulls[k], source, slice.sourceVolume)
                    && (source != null ==> fresh(created[k].body))
        invariant forall k, j :: 0 <= k < j < i ==> created[k] != created[j]
      {
        var shattered := new GameObject.Instantiate(slice.hulls[i]);
        if source != null {
          var volume := slice.hulls[i].volume;
          var rb := new Rigidbody.CopyOf(source, ChildMass(source.mass, volume, slice.sourceVolume));
          shattered.body := rb;
        }
        assert old(prevShatters) + (created + [shattered]) == (old(prevShatters) + created) + [shattered];
        created := created + [shattered];
        prevShatters := prevShatters + [shattered];
        i := i + 1;
      }
    }

    /** RandomShatter: choose a target, slice it, register every hull, destroy the target and
        remove it from the list. Destroy, deferred to the end of the frame, is taken as
        immediate. */
    method RandomShatter(draws: seq<nat>, pointSample: Vector3, direction: Vector3, slicer: CutSlicer)
      returns (outcome: Outcome, target: Option<GameObject>, created: seq<GameObject>)
      requires SlicesHaveVolume(slicer)
      modifies this, KnownObjects()
      ensures objectToShatter == old(objectToShatter)
      ensures && (old(|prevShatters|) == 0 ==>
                    (target.Some? <==> AccessError(old(Status(objectToShatter))).None?)
                    && (target.Some? ==> target.value == objectToShatter)
                    && (target.None? ==> outcome == Raised(AccessError(old(Status(objectToShatter))).value)))
              && (old(|prevShatters|) > 0 ==>
                    var p := old(RuntimePick(Statuses(prevShatters), draws));
                    (target.Some? <==> p.Picked?) && (p.Picked? ==> target.value == old(prevShatters)[p.index])
                    && (p.PickRaised? ==> outcome == Raised(p.error))
                    && (p.NoDrawLeft? ==> outcome == StillPicking))
              && (target.None? ==> outcome != Returned && created == [] && prevShatters == old(prevShatters))
              && (target.Some? ==>
                    var slice := SliceFor(target.value.placement, pointSample, direction, slicer);
                    && outcome == Returned
                    && (slice.None? ==> created == [] && prevShatters == old(prevShatters) && !target.value.destroyed)
                    && (slice.Some? ==>
                          |created| == |slice.value.hulls|
                          && prevShatters == AfterSplit(old(prevShatters), target.value, created)
                          && target.value.destroyed
                          && forall i :: 0 <= i < |created| ==>
                               fresh(created[i])
                               && ShardFrom(created[i], slice.value.hulls[i], target.value.body, slice.value.sourceVolume)))
      ensures forall o :: o in old(KnownObjects()) && Some(o) != target ==> unchanged(o)
      ensures target.Some? ==> target.value.activeSelf == old(target.value.activeSelf) && target.value.body == old(target.value.body)
    {
      outcome, target := ChooseTarget(draws);
      created := [];
      if target.None? {
        return;
      }
      var objectToSplit := target.value;
      var slicedHull := SliceFor(objectToSplit.placement, pointSample, direction, slicer);
      if slicedHull.None? {
        return;
      }
      created := SplitTarget(objectToSplit, slicedHull.value);
    }

    /** The end of a successful RandomShatter: register every hull with a copy of the target's
        body, destroy the target and remove its first occurrence from the list. */
    method SplitTarget(objectToSplit: GameObject, slice: SlicedHull) returns (created: seq<GameObject>)
      requires slice.sourceVolume != 0.0
      modifies this, objectToSplit
      ensures objectToShatter == old(objectToShatter)
      ensures |created| == |slice.hulls|
      ensures prevShatters == AfterSplit(old(prevShatters), objectToSplit, created)
      ensures objectToSplit.destroyed
      ensures objectToSplit.activeSelf == old(objectToSplit.activeSelf) && objectToSplit.body == old(objectToSplit.body)
      ensures forall i :: 0 <= i < |created| ==>
                fresh(created[i]) && ShardFrom(created[i], slice.hulls[i], objectToSplit.body, slice.sourceVolume)
    {
      var rbSource := objectToSplit.body;
      created := AddHulls(rbSource, slice);
      objectToSplit.destroyed := true;
      prevShatters := RemoveFirst(prevShatters, objectToSplit);
    }

    /** Gravity: with shards, every shard's body takes the negation of shard 0's old gravity
        flag, up to the first shard whose body cannot be reached, which throws; every other body
        keeps its flag. With no shards, the root's flag is toggled. */
    method Gravity() returns (outcome: Outcome)
      modifies Bodies(prevShatters), BodyOf(objectToShatter)
      ensures |prevShatters| > 0 ==>
                var s := prevShatters;
                && (outcome == Returned <==> FirstBodyError(s).None?)
                && (outcome != Returned ==> outcome == Raised(FirstBodyError(s).value))
                && (outcome == Returned ==>
                      forall i :: 0 <= i < |s| ==> s[i].body.useGravity == !old(s[0].body.useGravity))
                && (BodyError(s[0]).Some? ==>
                      forall b :: b in old(Bodies(s)) + old(BodyOf(objectToShatter)) ==> b.useGravity == old(b.useGravity))
                && (BodyError(s[0]).None? ==>
                      && (forall k :: 0 <= k < ReachableCount(s) ==> s[k].body.useGravity == !old(s[0].body.useGravity))
                      && (forall b :: b in old(Bodies(s)) + old(BodyOf(objectToShatter))
                                      && (forall k :: 0 <= k < ReachableCount(s) ==> s[k].body != b) ==>
                            b.useGravity == old(b.useGravity)))
      ensures |prevShatters| == 0 ==>
                && (outcome == Returned <==> BodyError(objectToShatter).None?)
                && (outcome != Returned ==> outcome == Raised(BodyError(objectToShatter).value))
                && (outcome == Returned ==> objectToShatter.body.useGravity == !old(objectToShatter.body.useGravity))
                && (outcome != Returned ==>
                      forall b :: b in old(BodyOf(objectToShatter)) ==> b.useGravity == old(b.useGravity))
      ensures forall b :: b in old(Bodies(prevShatters)) + old(BodyOf(objectToShatter)) ==> MotionKept(b)
    {
      var s := prevShatters;
      if |s| > 0 {
        var e := BodyError(s[0]);
        if e.Some? {
          return Raised(e.value);
        }
        outcome := SetAllGravity(s, !s[0].body.useGravity);
      } else {
        outcome := ToggleGravity(objectToShatter);
      }
    }
  }
}
