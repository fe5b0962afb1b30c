/** The editor shatter script (Shatter.cs): a list of shards kept in place and refilled by
    slicing a randomly chosen shard with a random plane. */
module Shatter {
  import opened Vectors
  import opened Wrappers
  import opened PlaneEx
  import opened Scene

  /** A slice as this script reads it, by position: HullObject(0) is the upper hull and
      HullObject(1) the lower one, and either may be missing. */
  datatype HullSlots = HullSlots(upper: Option<Hull>, lower: Option<Hull>, sourceVolume: real)

  /** HullObject(i) for the two positions the script reads. */
  function HullAt(slice: HullSlots, i: nat): Option<Hull>
    requires i < 2
  {
    if i == 0 then slice.upper else slice.lower
  }

  /** How many hulls the two-step loop registers before it reaches a missing one: every
      position before the count holds a hull, and the position at the count (if any) is empty. */
  function LeadingHulls(slice: HullSlots): (n: nat)
    ensures n <= 2
    ensures forall i :: 0 <= i < n ==> HullAt(slice, i).Some?
    ensures n < 2 ==> HullAt(slice, n).None?
  {
    if slice.upper.None? then 0 else if slice.lower.None? then 1 else 2
  }

  /** The slicer as this script uses it: a mesh and an engine plane give nothing or a slice. */
  type PlaneSlicer = (MeshId, Plane) -> Option<HullSlots>

  /** Every slice the slicer returns was cut from a mesh with a volume to divide by. */
  ghost predicate SlicesHaveVolume(slicer: PlaneSlicer) {
    forall m, p :: slicer(m, p).Some? ==> slicer(m, p).value.sourceVolume != 0.0
  }

  /** The constant 0.7f that shrinks the bounds' extents, taken as the exact rational 7/10. */
  const OneOnSqrt2: real := 0.7

  /** GetRandomPlane: the engine plane whose normal is the normalised second sample and which
      passes through positionOffset moved by the first, unit-ball, sample. */
  function GetRandomPlane(positionOffset: Vector3, scale: Vector3, pointSample: Vector3, direction: Vector3): (p: Plane)
    ensures p.normal == direction
    ensures SignedDistance(p, Add(pointSample, positionOffset)) == 0.0
    ensures SideOf(p, Add(pointSample, positionOffset)) == On
  {
    PlaneThroughContainsPoint(direction, Add(pointSample, positionOffset));
    PlaneThrough(direction, Add(pointSample, positionOffset))
  }

  /** The scale argument has no effect on the plane. */
  lemma GetRandomPlaneIgnoresScale(positionOffset: Vector3, scale1: Vector3, scale2: Vector3, pointSample: Vector3, direction: Vector3)
    ensures GetRandomPlane(positionOffset, scale1, pointSample, direction) == GetRandomPlane(positionOffset, scale2, pointSample, direction)
  {
  }

  /** For a unit-ball sample the plane passes within unit distance of the offset. */
  lemma GetRandomPlaneNearOffset(positionOffset: Vector3, scale: Vector3, pointSample: Vector3, direction: Vector3)
    requires InUnitBall(pointSample)
    ensures exists q :: SideOf(GetRandomPlane(positionOffset, scale, pointSample, direction), q) == On
                        && SquaredLength(Sub(q, positionOffset)) <= 1.0
  {
    var q := Add(pointSample, positionOffset);
    assert Sub(q, positionOffset) == pointSample;
  }

  /** ShatterObject without a test plane: the slice of the object by a random plane drawn
      around the centre of its collider bounds. */
  function SliceFor(placement: Placement, pointSample: Vector3, direction: Vector3, slicer: PlaneSlicer): (r: Option<HullSlots>)
    ensures r == slicer(placement.mesh, PlaneThrough(direction, Add(pointSample, placement.boundsCenter)))
  {
    var plane := GetRandomPlane(placement.boundsCenter, Scale(placement.boundsExtents, OneOnSqrt2), pointSample, direction);
    slicer(placement.mesh, plane)
  }

  // ---------------------------------------------------------------- choosing a shard

  /** The do-while pick over the list's statuses, one draw per round: the index comes from
      Random.Range(0, Count - 1); reading the entry's name throws on a null or destroyed entry;
      an inactive entry sends the loop round again. */
  function ShatterPick(statuses: seq<ShardStatus>, draws: seq<nat>): (p: Pick)
    ensures p.Picked? ==> p.index < |statuses| && statuses[p.index] == Live
    ensures p.Picked? && |statuses| >= 2 ==> p.index <= |statuses| - 2
    ensures statuses == [] && draws != [] ==> p == PickRaised(ArgumentOutOfRange)
  {
    if draws == [] then NoDrawLeft
    else
      var i := RandomRange(0, |statuses| - 1, draws[0]);
      if i >= |statuses| then PickRaised(ArgumentOutOfRange)
      else
        match statuses[i]
        case Null => PickRaised(NullReference)
        case Destroyed => PickRaised(MissingReference)
        case Inactive => ShatterPick(statuses, draws[1..])
        case Live => Picked(i)
  }

  /** The last entry is never drawn: when every other entry is inactive the loop never ends,
      whatever the draws. */
  lemma {:induction false} LastShardNeverPicked(statuses: seq<ShardStatus>, draws: seq<nat>)
    requires |statuses| >= 2
    requires forall i :: 0 <= i < |statuses| - 1 ==> statuses[i] == Inactive
    ensures ShatterPick(statuses, draws) == NoDrawLeft
  {
    if draws != [] {
      var i := RandomRange(0, |statuses| - 1, draws[0]);
      assert statuses[i] == Inactive;
      LastShardNeverPicked(statuses, draws[1..]);
    }
  }

  /** Every live entry but the last is picked by some draw. */
  lemma LiveShardCanBePicked(statuses: seq<ShardStatus>, i: nat)
    requires i < |statuses| - 1 && statuses[i] == Live
    ensures ShatterPick(statuses, [i]) == Picked(i)
  {
    RandomRangeCovers(0, |statuses| - 1, i);
  }

  /** One round of ShatterPick started at draw k, stated on the draws that follow it. */
  lemma ShatterPickStep(statuses: seq<ShardStatus>, draws: seq<nat>, k: nat)
    requires k < |draws|
    ensures var i := RandomRange(0, |statuses| - 1, draws[k]);
            ShatterPick(statuses, draws[k..]) ==
              if i >= |statuses| then PickRaised(ArgumentOutOfRange)
              else if statuses[i] == Null then PickRaised(NullReference)
              else if statuses[i] == Destroyed then PickRaised(MissingReference)
              else if statuses[i] == Live then Picked(i)
              else ShatterPick(statuses, draws[k + 1..])
  {
    assert draws[k..][0] == draws[k] && draws[k..][1..] == draws[k + 1..];
  }

  /** The pick loop, proved against ShatterPick. */
  method PickShard(list: seq<GameObject?>, draws: seq<nat>) returns (p: Pick)
    ensures p == ShatterPick(Statuses(list), draws)
  {
    ghost var statuses := Statuses(list);
    var k := 0;
    while k < |draws|
      invariant 0 <= k <= |draws|
      invariant ShatterPick(statuses, draws[k..]) == ShatterPick(statuses, draws)
    {
      ShatterPickStep(statuses, draws, k);
      var i := RandomRange(0, |list| - 1, draws[k]);
      if i >= |list| {
        return PickRaised(ArgumentOutOfRange);
      }
      var o := list[i];
      assert statuses[i] == Status(o);
      if o == null {
        assert statuses[i] == Null;
        assert ShatterPick(statuses, draws[k..]) == PickRaised(NullReference);
        return PickRaised(NullReference);
      }
      if o.destroyed {
        assert statuses[i] == Destroyed;
        assert ShatterPick(statuses, draws[k..]) == PickRaised(MissingReference);
        return PickRaised(MissingReference);
      }
      if o.activeSelf {
        assert statuses[i] == Live;
        assert ShatterPick(statuses, draws[k..]) == Picked(i);
        return Picked(i);
      }
      assert statuses[i] == Inactive;
      k := k + 1;
    }
    return NoDrawLeft;
  }

  // ---------------------------------------------------------------- the script

  class Shatter {
    var objectToShatter: GameObject?
    /** The Shards list: None until the first shatter creates it. */
    var shards: Option<seq<GameObject?>>

    constructor (objectToShatter: GameObject?)
      ensures this.objectToShatter == objectToShatter && shards == None
    {
      this.objectToShatter := objectToShatter;
      shards := None;
    }

    /** The objects the list refers to, as a frame. */
    function ShardObjects(): set<GameObject>
      reads this
    {
      if shards.Some? then Listed(shards.value) else {}
    }

    /** The root and the listed objects. */
    function KnownObjects(): set<GameObject>
      reads this
    {
      ShardObjects() + if objectToShatter != null then {objectToShatter} else {}
    }

    /** The first part of RandomShatter: on a first shatter, or whenever the application is
        not playing, the list is reset and the root is the target; otherwise a shard is picked. */
    method ChooseTarget(isPlaying: bool, draws: seq<nat>) returns (outcome: Outcome, target: Option<GameObject>)
      modifies this
      ensures objectToShatter == old(objectToShatter)
      ensures old(shards).None? || !isPlaying ==>
                shards == Some([])
                && (target.Some? <==> AccessError(old(Status(objectToShatter))).None?)
                && (target.Some? ==> target.value == objectToShatter)
                && (target.None? ==> outcome == Raised(AccessError(old(Status(objectToShatter))).value))
      ensures old(shards).Some? && isPlaying ==>
                shards == old(shards)
                && var p := old(ShatterPick(Statuses(shards.value), draws));
                   (target.Some? <==> p.Picked?)
                   && (p.Picked? ==> target.value == shards.value[p.index] && old(target.value.activeSelf))
                   && (p.PickRaised? ==> outcome == Raised(p.error))
                   && (p.NoDrawLeft? ==> outcome == StillPicking)
      ensures target.Some? ==> outcome == Returned && !target.value.destroyed
    {
      if shards.None? || !isPlaying {
        shards := Some([]);
        var e := AccessError(Status(objectToShatter));
        if e.Some? {
          return Raised(e.value), None;
        }
        return Returned, Some(objectToShatter);
      }
      var p := PickShard(shards.value, draws);
      match p
      case Picked(i) =>
        var chosen := shards.value[i];
        assert Status(chosen) == Live;
        return Returned, Some(chosen);
      case PickRaised(e) =>
        return Raised(e), None;
      case NoDrawLeft =>
        return StillPicking, None;
    }

    /** The for loop over hull indices 0 and 1: each hull object gets a body copied from the
        target's (when it has one) and is appended; a missing hull throws on its null object. */
    method AddHulls(source: Rigidbody?, slice: HullSlots) returns (outcome: Outcome, created: seq<GameObject>)
      requires shards.Some? && slice.sourceVolume != 0.0
      modifies this
      ensures objectToShatter == old(objectToShatter)
      ensures |created| == LeadingHulls(slice)
      ensures outcome == if LeadingHulls(slice) < 2 then Raised(NullReference) else Returned
      ensures shards == Some(old(shards.value) + created)
      ensures forall i :: 0 <= i < |created| ==>
                fresh(created[i]) && ShardFrom(created[i], HullAt(slice, i).value, source, slice.sourceVolume)
                && (source != null ==> fresh(created[i].body))
      ensures forall i, j :: 0 <= i < j < |created| ==> created[i] != created[j]
    {
      created := [];
      assert old(shards.value) + created == old(shards.value);
      var i := 0;
      while i < 2
        invariant 0 <= i <= LeadingHulls(slice)
        invariant |created| == i
        invariant objectToShatter == old(objectToShatter)
        invariant shards == Some(old(shards.value) + created)
        invariant forall k :: 0 <= k < i ==>
                    fresh(created[k]) && ShardFrom(created[k], HullAt(slice, k).value, source, slice.sourceVolume)
                    && (source != null ==> fresh(created[k].body))
        invariant forall k, j :: 0 <= k < j < i ==> created[k] != created[j]
      {
        var hull := HullAt(slice, i);
        if hull.None? {
          return Raised(NullReference), created;
        }
        var shattered := new GameObject.Instantiate(hull.value);
        if source != null {
          var rb := new Rigidbody.CopyOf(source, ChildMass(source.mass, hull.value.volume, slice.sourceVolume));
          shattered.body := rb;
        }
        assert old(shards.value) + (created + [shattered]) == (old(shards.value) + created) + [shattered];
        created := created + [shattered];
        shards := Some(shards.value + [shattered]);
        i := i + 1;
      }
      return Returned, created;
    }

    /** RandomShatter: choose a target, slice it, register the two hulls, destroy the target and
        remove it from the list. Destroy, deferred to the end of the frame while playing, is
        taken as immediate. */
    method RandomShatter(isPlaying: bool, draws: seq<nat>, pointSample: Vector3, direction: Vector3, slicer: PlaneSlicer)
      returns (outcome: Outcome, target: Option<GameObject>, created: seq<GameObject>)
      requires SlicesHaveVolume(slicer)
      modifies this, KnownObjects()
      ensures objectToShatter == old(objectToShatter)
      ensures var restart := old(shards).None? || !isPlaying;
              var before := if restart then [] else old(shards).value;
              && (restart ==> (target.Some? <==> AccessError(old(Status(objectToShatter))).None?)
                              && (target.Some? ==> target.value == objectToShatter)
                              && (target.None? ==> outcome == Raised(AccessError(old(Status(objectToShatter))).value)))
              && (!restart ==> var p := old(ShatterPick(Statuses(shards.value), draws));
                               (target.Some? <==> p.Picked?) && (p.Picked? ==> target.value == before[p.index])
                               && (p.PickRaised? ==> outcome == Raised(p.error))
                               && (p.NoDrawLeft? ==> outcome == StillPicking))
              && (target.None? ==> outcome != Returned && created == [] && shards == Some(before))
              && (target.Some? ==>
                    var slice := SliceFor(target.value.placement, pointSample, direction, slicer);
                    && (slice.None? ==> outcome == Returned && created == [] && shards == Some(before)
                                        && !target.value.destroyed)
                    && (slice.Some? && LeadingHulls(slice.value) < 2 ==>
                          outcome == Raised(NullReference) && |created| == LeadingHulls(slice.value)
                          && shards == Some(before + created) && !target.value.destroyed)
                    && (slice.Some? && LeadingHulls(slice.value) == 2 ==>
                          outcome == Returned && |created| == 2
                          && shards == Some(AfterSplit(before, target.value, created)) && target.value.destroyed)
                    && (slice.Some? ==>
                          forall i :: 0 <= i < |created| ==>
                            fresh(created[i])
                            && ShardFrom(created[i], HullAt(slice.value, i).value, target.value.body, slice.value.sourceVolume)))
      ensures forall o :: o in old(KnownObjects()) && Some(o) != target ==> unchanged(o)
      ensures target.Some? ==> target.value.activeSelf == old(target.value.activeSelf) && target.value.body == old(target.value.body)
    {
      outcome, target := ChooseTarget(isPlaying, draws);
      created := [];
      if target.None? {
        return;
      }
      var objectToSplit := target.value;
      var slicedHull := SliceFor(objectToSplit.placement, pointSample, direction, slicer);
      if slicedHull.None? {
        return;
      }
      var rbSource := objectToSplit.body;
      outcome, created := AddHulls(rbSource, slicedHull.value);
      if outcome.Raised? {
        return;
      }
      objectToSplit.destroyed := true;
      shards := Some(RemoveFirst(shards.value, objectToSplit));
    }

    /** Two calls outside play mode, as an inspector that shatters more than once makes them:
        each call starts again from objectToShatter, which the first successful call destroyed,
        so the second raises MissingReference on reading its name and slices nothing. */
    method ShatterTwiceOutsidePlay(draws: seq<nat>, pointSample: Vector3, direction: Vector3, slicer: PlaneSlicer)
      returns (first: Outcome, second: Outcome, secondTarget: Option<GameObject>)
      requires SlicesHaveVolume(slicer)
      requires objectToShatter != null && !objectToShatter.destroyed
      requires var slice := SliceFor(objectToShatter.placement, pointSample, direction, slicer);
               slice.Some? && LeadingHulls(slice.value) == 2
      modifies this, KnownObjects()
      ensures first == Returned
      ensures second == Raised(MissingReference) && secondTarget.None?
      ensures objectToShatter == old(objectToShatter) && objectToShatter.destroyed
    {
      var target, created;
      first, target, created := RandomShatter(false, draws, pointSample, direction, slicer);
      second, secondTarget, created := RandomShatter(false, draws, pointSample, direction, slicer);
    }

    /** Gravity: with shards, every shard's body takes the negation of shard 0's old gravity
        flag, up to the first shard whose body cannot be reached, which throws; every other body
        keeps its flag. With no shards, the root's flag is toggled. The list must exist. */
    method Gravity() returns (outcome: Outcome)
      modifies (if shards.Some? then Bodies(shards.value) else {}), BodyOf(objectToShatter)
      ensures shards.None? ==>
                outcome == Raised(NullReference)
                && forall b :: b in old(BodyOf(objectToShatter)) ==> b.useGravity == old(b.useGravity)
      ensures shards.Some? && |shards.value| > 0 ==>
                var s := shards.value;
                && (outcome == Returned <==> FirstBodyError(s).None?)
                && (outcome != Returned ==> outcome == Raised(FirstBodyError(s).value))
                && (outcome == Returned ==>
                      forall i :: 0 <= i < |s| ==> s[i].body.useGravity == !old(s[0].body.useGravity))
                && (BodyError(s[0]).Some? ==>
                      forall b :: b in old(Bodies(s)) + old(BodyOf(objectToShatter)) ==> b.useGravity == old(b.useGravity))
                && (BodyError(s[0]).None? ==>
                      && (forall k :: 0 <= k < ReachableCount(s) ==> s[k].body.useGravity == !old(s[0].body.useGravity))
                      && (forall b :: b in old(Bodies(s)) + old(BodyOf(objectToShatter))
                                      && (forall k :: 0 <= k < ReachableCount(s) ==> s[k].body != b) ==>
                            b.useGravity == old(b.useGravity)))
      ensures shards.Some? && |shards.value| == 0 ==>
                && (outcome == Returned <==> BodyError(objectToShatter).None?)
                && (outcome != Returned ==> outcome == Raised(BodyError(objectToShatter).value))
                && (outcome == Returned ==> objectToShatter.body.useGravity == !old(objectToShatter.body.useGravity))
                && (outcome != Returned ==>
                      forall b :: b in old(BodyOf(objectToShatter)) ==> b.useGravity == old(b.useGravity))
      ensures forall b :: b in old(if shards.Some? then Bodies(shards.value) else {}) + old(BodyOf(objectToShatter)) ==> MotionKept(b)
    {
      if shards.None? {
        return Raised(NullReference);
      }
      var s := shards.value;
      if |s| > 0 {
        var e := BodyError(s[0]);
        if e.Some? {
          return Raised(e.value);
        }
        outcome := SetAllGravity(s, !s[0].body.useGravity);
      } else {
        outcome := ToggleGravity(objectToShatter);
      }
    }
  }
}
