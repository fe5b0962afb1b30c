/** The recursive shatter script (ShatterExample.cs): slice an object with random planes until a
    slice succeeds or the budget runs out, then shatter every slice with one unit less, and
    destroy the slices whose own shatter produced nothing. */
module ShatterExample {
  import opened Vectors
  import opened Wrappers
  import opened Scene

  /** The two unit-ball samples one attempt draws: the plane's offset and its normal (normalised). */
  datatype Sample = Sample(point: Vector3, direction: Vector3)

  /** GetRandomPlane: an EzySlice plane through positionOffset moved by the first (unit-ball)
      sample, with the normalised second sample as its normal; scaleOffset is not used. */
  function GetRandomPlane(positionOffset: Vector3, scaleOffset: Vector3, pointSample: Vector3, direction: Vector3): (p: CutPlane)
    ensures p.normal == direction
    ensures Sub(p.position, positionOffset) == pointSample
  {
    CutPlane(Add(pointSample, positionOffset), direction)
  }

  /** The scale argument has no effect on the plane. */
  lemma GetRandomPlaneIgnoresScale(positionOffset: Vector3, scale1: Vector3, scale2: Vector3, pointSample: Vector3, direction: Vector3)
    ensures GetRandomPlane(positionOffset, scale1, pointSample, direction) == GetRandomPlane(positionOffset, scale2, pointSample, direction)
  {
  }

  /** The plane of the attempt that uses sample number `cursor`, for an object placed as given:
      drawn around the object's position, with its local scale passed and ignored. */
  function AttemptPlane(placement: Placement, samples: nat -> Sample, cursor: nat): (p: CutPlane)
    ensures p.normal == samples(cursor).direction
    ensures Sub(p.position, placement.position) == samples(cursor).point
  {
    GetRandomPlane(placement.position, placement.localScale, samples(cursor).point, samples(cursor).direction)
  }

  // ---------------------------------------------------------------- the specification

  /** What a successful call produced: for each slice of its successful attempt, the slice's
      hull and what the recursive call on it produced (None: the slice was destroyed). */
  datatype Shattered = Shattered(slices: seq<Slice>)
  datatype Slice = Slice(hull: Hull, inner: Option<Shattered>)

  /** ShatterObject as a function of the object's placement, the budget and the position in the
      sample stream: the result and the position after the last sample the call used. */
  function ShatterSpec(placement: Placement, budget: int, cursor: nat, samples: nat -> Sample, slicer: CutSlicer)
    : (r: (Option<Shattered>, nat))
    decreases if budget > 0 then budget else 0, 1, 0
    ensures budget <= 0 ==> r == (None, cursor)
    ensures budget > 0 ==> r.1 > cursor
    ensures r.0.Some? ==> budget > 0
  {
    if budget <= 0 then (None, cursor)
    else
      match slicer(placement.mesh, AttemptPlane(placement, samples, cursor))
      case None => ShatterSpec(placement, budget - 1, cursor + 1, samples, slicer)
      case Some(sliced) =>
        var (slices, after) := ShatterSlices(sliced.hulls, 0, budget - 1, cursor + 1, samples, slicer);
        (Some(Shattered(slices)), after)
  }

  /** The foreach over the slices from index i on, each shattered with the given budget. */
  function ShatterSlices(hulls: seq<Hull>, i: nat, budget: int, cursor: nat, samples: nat -> Sample, slicer: CutSlicer)
    : (r: (seq<Slice>, nat))
    requires budget >= 0 && i <= |hulls|
    decreases budget + 1, 0, |hulls| - i
    ensures |r.0| == |hulls| - i && r.1 >= cursor
    ensures forall k :: 0 <= k < |r.0| ==> r.0[k].hull == hulls[i + k]
  {
    if i == |hulls| then ([], cursor)
    else
      var (inner, next) := ShatterSpec(hulls[i].placement, budget, cursor, samples, slicer);
      var (rest, after) := ShatterSlices(hulls, i + 1, budget, next, samples, slicer);
      ([Slice(hulls[i], inner)] + rest, after)
  }

  /** How many levels of slicing a result holds. */
  function Depth(s: Shattered): nat
    decreases s, 1
  {
    1 + SlicesDepth(s, 0)
  }

  /** The deepest result among the slices of s from index i on (0 when a slice was destroyed). */
  function SlicesDepth(s: Shattered, i: nat): nat
    requires i <= |s.slices|
    decreases s, 0, |s.slices| - i
  {
    if i == |s.slices| then 0
    else
      var here := if s.slices[i].inner.Some? then Depth(s.slices[i].inner.value) else 0;
      var rest := SlicesDepth(s, i + 1);
      if here < rest then rest else here
  }

  // ---------------------------------------------------------------- properties

  /** A slicer that never cuts: the call tries exactly `budget` planes and returns nothing. */
  lemma {:induction false} MissesUseUpBudget(placement: Placement, budget: int, cursor: nat, samples: nat -> Sample, slicer: CutSlicer)
    requires forall m, p :: slicer(m, p).None?
    ensures ShatterSpec(placement, budget, cursor, samples, slicer) == (None, cursor + if budget > 0 then budget else 0)
  {
    if budget > 0 {
      assert slicer(placement.mesh, AttemptPlane(placement, samples, cursor)).None?;
      MissesUseUpBudget(placement, budget - 1, cursor + 1, samples, slicer);
    }
  }

  /** The recursion never goes deeper than the budget. */
  lemma {:induction false} DepthWithinBudget(placement: Placement, budget: int, cursor: nat, samples: nat -> Sample, slicer: CutSlicer)
    ensures var r := ShatterSpec(placement, budget, cursor, samples, slicer);
            r.0.Some? ==> Depth(r.0.value) <= budget
    decreases if budget > 0 then budget else 0, 1, 0
  {
    if budget > 0 {
      match slicer(placement.mesh, AttemptPlane(placement, samples, cursor))
      case None =>
        DepthWithinBudget(placement, budget - 1, cursor + 1, samples, slicer);
      case Some(sliced) =>
        SlicesDepthWithinBudget(sliced.hulls, 0, budget - 1, cursor + 1, samples, slicer);
    }
  }

  lemma {:induction false} SlicesDepthWithinBudget(hulls: seq<Hull>, i: nat, budget: int, cursor: nat, samples: nat -> Sample, slicer: CutSlicer)
    requires budget >= 0 && i <= |hulls|
    ensures SlicesDepth(Shattered(ShatterSlices(hulls, i, budget, cursor, samples, slicer).0), 0) <= budget
    decreases budget + 1, 0, |hulls| - i
  {
    if i < |hulls| {
      var (inner, next) := ShatterSpec(hulls[i].placement, budget, cursor, samples, slicer);
      var (rest, after) := ShatterSlices(hulls, i + 1, budget, next, samples, slicer);
      DepthWithinBudget(hulls[i].placement, budget, cursor, samples, slicer);
      SlicesDepthWithinBudget(hulls, i + 1, budget, next, samples, slicer);
      SlicesDepthShift(Slice(hulls[i], inner), rest, 0);
    }
  }

  /** Putting one slice in front shifts the indices by one. */
  lemma {:induction false} SlicesDepthShift(first: Slice, rest: seq<Slice>, i: nat)
    requires i <= |rest|
    ensures SlicesDepth(Shattered([first] + rest), i + 1) == SlicesDepth(Shattered(rest), i)
    decreases |rest| - i
  {
    if i < |rest| {
      assert ([first] + rest)[i + 1] == rest[i];
      SlicesDepthShift(first, rest, i + 1);
    }
  }

  /** With budget 1 the slices of the successful attempt get budget 0, so all of them are
      destroyed. */
  lemma LastLevelSlicesDestroyed(placement: Placement, cursor: nat, samples: nat -> Sample, slicer: CutSlicer)
    ensures var r := ShatterSpec(placement, 1, cursor, samples, slicer);
            r.0.Some? ==> forall k :: 0 <= k < |r.0.value.slices| ==> r.0.value.slices[k].inner.None?
  {
    match slicer(placement.mesh, AttemptPlane(placement, samples, cursor))
    case None =>
    case Some(sliced) =>
      NoBudgetSlicesDestroyed(sliced.hulls, 0, cursor + 1, samples, slicer);
  }

  lemma {:induction false} NoBudgetSlicesDestroyed(hulls: seq<Hull>, i: nat, cursor: nat, samples: nat -> Sample, slicer: CutSlicer)
    requires i <= |hulls|
    ensures var r := ShatterSlices(hulls, i, 0, cursor, samples, slicer);
            r.1 == cursor && forall k :: 0 <= k < |r.0| ==> r.0[k].inner.None?
    decreases |hulls| - i
  {
    if i < |hulls| {
      NoBudgetSlicesDestroyed(hulls, i + 1, cursor, samples, slicer);
    }
  }

  /** A failed first attempt costs the children one level: the result is that of the same
      call with one unit less, one sample further on. */
  lemma FailedAttemptCostsALevel(placement: Placement, budget: int, cursor: nat, samples: nat -> Sample, slicer: CutSlicer)
    requires budget > 0 && slicer(placement.mesh, AttemptPlane(placement, samples, cursor)).None?
    ensures var r := ShatterSpec(placement, budget, cursor, samples, slicer);
            r.0.Some? ==> Depth(r.0.value) <= budget - 1
  {
    DepthWithinBudget(placement, budget - 1, cursor + 1, samples, slicer);
  }

  // ---------------------------------------------------------------- the script

  /** SliceInstantiate: when the plane cuts the mesh, one new, active object per hull. */
  method SliceInstantiate(obj: GameObject, plane: CutPlane, slicer: CutSlicer) returns (r: Option<seq<GameObject>>)
    ensures r.None? <==> slicer(obj.placement.mesh, plane).None?
    ensures r.Some? ==>
              var hulls := slicer(obj.placement.mesh, plane).value.hulls;
              |r.value| == |hulls|
              && forall i :: 0 <= i < |hulls| ==>
                   fresh(r.value[i]) && r.value[i].placement == hulls[i].placement
                   && !r.value[i].destroyed && r.value[i].activeSelf
    ensures r.Some? ==> forall i, j :: 0 <= i < j < |r.value| ==> r.value[i] != r.value[j]
  {
    var sliced := slicer(obj.placement.mesh, plane);
    if sliced.None? {
      return None;
    }
    var hulls := sliced.value.hulls;
    var objects: seq<GameObject> := [];
    while |objects| < |hulls|
      invariant |objects| <= |hulls|
      invariant forall i :: 0 <= i < |objects| ==>
                  fresh(objects[i]) && objects[i].placement == hulls[i].placement
                  && !objects[i].destroyed && objects[i].activeSelf
      invariant forall i, j :: 0 <= i < j < |objects| ==> objects[i] != objects[j]
    {
      var o := new GameObject.Instantiate(hulls[|objects|]);
      objects := objects + [o];
    }
    return Some(objects);
  }

  /** A successful first attempt: the result is the foreach over that attempt's hulls with one
      unit less, from the next sample on. */
  lemma SpecOnHit(placement: Placement, budget: int, cursor: nat, samples: nat -> Sample, slicer: CutSlicer)
    requires budget > 0 && slicer(placement.mesh, AttemptPlane(placement, samples, cursor)).Some?
    ensures var hulls := slicer(placement.mesh, AttemptPlane(placement, samples, cursor)).value.hulls;
            var s := ShatterSlices(hulls, 0, budget - 1, cursor + 1, samples, slicer);
            ShatterSpec(placement, budget, cursor, samples, slicer) == (Some(Shattered(s.0)), s.1)
  {
  }

  /** A failed first attempt: the result is that of one unit less, from the next sample on. */
  lemma SpecOnMiss(placement: Placement, budget: int, cursor: nat, samples: nat -> Sample, slicer: CutSlicer)
    requires budget > 0 && slicer(placement.mesh, AttemptPlane(placement, samples, cursor)).None?
    ensures ShatterSpec(placement, budget, cursor, samples, slicer) == ShatterSpec(placement, budget - 1, cursor + 1, samples, slicer)
  {
  }

  /** One round of the foreach: the slice at i, then the rest from where its call left the
      samples. */
  lemma SlicesStep(hulls: seq<Hull>, i: nat, budget: int, cursor: nat, samples: nat -> Sample, slicer: CutSlicer)
    requires budget >= 0 && i < |hulls|
    ensures var first := ShatterSpec(hulls[i].placement, budget, cursor, samples, slicer);
            var rest := ShatterSlices(hulls, i + 1, budget, first.1, samples, slicer);
            ShatterSlices(hulls, i, budget, cursor, samples, slicer) == ([Slice(hulls[i], first.0)] + rest.0, rest.1)
  {
  }

  /** The objects stand for the slices of s: one per slice, placed as its hull, and destroyed
      exactly when the recursive call on that slice produced nothing. */
  ghost predicate Realises(objects: seq<GameObject>, s: Shattered)
    reads objects
  {
    |objects| == |s.slices|
    && forall i :: 0 <= i < |objects| ==>
         objects[i].placement == s.slices[i].hull.placement
         && (objects[i].destroyed <==> s.slices[i].inner.None?)
  }

  /** ShatterObject, proved against ShatterSpec: the slices it returns are those of the
      specification's successful attempt, and a slice is destroyed exactly when the
      specification's recursive call on it produced nothing. Objects that existed before the
      call are not changed. */
  method ShatterObject(obj: GameObject?, iterations: int, samples: nat -> Sample, cursor: nat, slicer: CutSlicer)
    returns (slices: Option<seq<GameObject>>, cursorAfter: nat)
    requires iterations > 0 ==> obj != null && !obj.destroyed
    decreases if iterations > 0 then iterations else 0, 2
    ensures iterations <= 0 ==> slices.None? && cursorAfter == cursor
    ensures iterations > 0 ==>
              var r := ShatterSpec(obj.placement, iterations, cursor, samples, slicer);
              cursorAfter == r.1
              && (slices.None? <==> r.0.None?)
              && (slices.Some? ==>
                    Realises(slices.value, r.0.value)
                    && forall i :: 0 <= i < |slices.value| ==> fresh(slices.value[i]))
  {
    var budget := iterations;
    var c := cursor;
    while budget > 0
      invariant budget <= iterations
      invariant iterations > 0 ==> ShatterSpec(obj.placement, budget, c, samples, slicer) == ShatterSpec(obj.placement, iterations, cursor, samples, slicer)
      invariant iterations <= 0 ==> c == cursor
      decreases budget
    {
      var hit, next := ShatterAttempt(obj, budget, samples, c, slicer);
      if hit.Some? {
        return hit, next;
      }
      SpecOnMiss(obj.placement, budget, c, samples, slicer);
      c := c + 1;
      budget := budget - 1;
    }
    return None, c;
  }

  /** One pass of ShatterObject's loop: slice with the plane of sample `cursor`; on a hit,
      shatter the slices with one unit less and return them. */
  method ShatterAttempt(obj: GameObject, budget: int, samples: nat -> Sample, cursor: nat, slicer: CutSlicer)
    returns (slices: Option<seq<GameObject>>, cursorAfter: nat)
    requires budget > 0 && !obj.destroyed
    decreases budget, 1
    ensures slices.None? <==> slicer(obj.placement.mesh, AttemptPlane(obj.placement, samples, cursor)).None?
    ensures slices.Some? ==>
              var r := ShatterSpec(obj.placement, budget, cursor, samples, slicer);
              cursorAfter == r.1 && r.0.Some?
              && Realises(slices.value, r.0.value)
              && forall i :: 0 <= i < |slices.value| ==> fresh(slices.value[i])
  {
    var plane := GetRandomPlane(obj.placement.position, obj.placement.localScale, samples(cursor).point, samples(cursor).direction);
    assert plane == AttemptPlane(obj.placement, samples, cursor);
    slices := SliceInstantiate(obj, plane, slicer);
    cursorAfter := cursor;
    if slices.Some? {
      var hulls := slicer(obj.placement.mesh, plane).value.hulls;
      SpecOnHit(obj.placement, budget, cursor, samples, slicer);
      ghost var spec := ShatterSlices(hulls, 0, budget - 1, cursor + 1, samples, slicer);
      cursorAfter := ShatterEach(slices.value, hulls, budget - 1, samples, cursor + 1, slicer);
      forall i | 0 <= i < |slices.value|
        ensures slices.value[i].placement == spec.0[i].hull.placement
      {
        assert spec.0[i].hull == hulls[i];
      }
    }
  }

  /** The foreach of ShatterObject: each slice is shattered with the given budget and destroyed
      when that produced nothing. */
  method ShatterEach(objects: seq<GameObject>, hulls: seq<Hull>, budget: int, samples: nat -> Sample, cursor: nat, slicer: CutSlicer)
    returns (cursorAfter: nat)
    requires budget >= 0 && |objects| == |hulls|
    requires forall k :: 0 <= k < |objects| ==> objects[k].placement == hulls[k].placement && !objects[k].destroyed
    requires forall k, j :: 0 <= k < j < |objects| ==> objects[k] != objects[j]
    modifies objects
    decreases budget + 1, 0
    ensures var r := ShatterSlices(hulls, 0, budget, cursor, samples, slicer);
            cursorAfter == r.1
            && forall k :: 0 <= k < |objects| ==> (objects[k].destroyed <==> r.0[k].inner.None?)
  {
    ghost var full := ShatterSlices(hulls, 0, budget, cursor, samples, slicer);
    var c := cursor;
    var j := 0;
    while j < |objects|
      invariant 0 <= j <= |objects|
      invariant full.1 == ShatterSlices(hulls, j, budget, c, samples, slicer).1
      invariant full.0[j..] == ShatterSlices(hulls, j, budget, c, samples, slicer).0
      invariant forall k :: j <= k < |objects| ==> !objects[k].destroyed
      invariant forall k :: 0 <= k < j ==> (objects[k].destroyed <==> full.0[k].inner.None?)
    {
      ghost var first := ShatterSpec(hulls[j].placement, budget, c, samples, slicer);
      SlicesStep(hulls, j, budget, c, samples, slicer);
      var sub, next := ShatterObject(objects[j], budget, samples, c, slicer);
      if sub.None? {
        objects[j].destroyed := true;
      }
      assert full.0[j] == full.0[j..][0] == Slice(hulls[j], first.0);
      assert full.0[j + 1..] == full.0[j..][1..];
      c := next;
      j := j + 1;
    }
    return c;
  }
}
