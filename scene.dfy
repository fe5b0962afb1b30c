/** Engine objects, random draws and the slicer's results, shared by the three shatter scripts. */
module Scene {
  import opened Vectors
  import opened Wrappers

  /** Identifies the mesh (and whatever else of the object) the slicer cuts. */
  type MeshId = nat

  /** What a piece is and where it sits: its mesh, its transform's position and local scale,
      and the world bounds of its collider. */
  datatype Placement = Placement(
    mesh: MeshId, position: Vector3, localScale: Vector3, boundsCenter: Vector3, boundsExtents: Vector3)

  /** One hull produced by the slicer, with the volume it encloses. */
  datatype Hull = Hull(placement: Placement, volume: real)

  /** A successful slice: the hulls in enumeration order (upper hull first) and the volume of
      the mesh that was cut. */
  datatype SlicedHull = SlicedHull(hulls: seq<Hull>, sourceVolume: real)

  /** EzySlice's cutting plane: a point on it and its normal. */
  datatype CutPlane = CutPlane(position: Vector3, normal: Vector3)

  /** The slicer behind EzySlice's SliceInstantiate: a mesh and a cutting plane give nothing
      (the plane misses the mesh) or a slice. */
  type CutSlicer = (MeshId, CutPlane) -> Option<SlicedHull>

  /** How a call that can throw ended; StillPicking stands for a pick loop that has used up
      the random draws it was given without choosing a shard. */
  datatype Outcome = Returned | Raised(error: Exception) | StillPicking

  /** How a pick loop ended: an index chosen, an exception, or the draws used up. */
  datatype Pick = Picked(index: nat) | PickRaised(error: Exception) | NoDrawLeft

  /** The physics body attached to an object (or to one of its children). */
  class Rigidbody {
    var velocity: Vector3
    var angularVelocity: Vector3
    var useGravity: bool
    var isKinematic: bool
    var drag: real
    var angularDrag: real
    var mass: real

    constructor (velocity: Vector3, angularVelocity: Vector3, useGravity: bool, isKinematic: bool,
                 drag: real, angularDrag: real, mass: real)
      ensures this.velocity == velocity && this.angularVelocity == angularVelocity
      ensures this.useGravity == useGravity && this.isKinematic == isKinematic
      ensures this.drag == drag && this.angularDrag == angularDrag && this.mass == mass
    {
      this.velocity := velocity;
      this.angularVelocity := angularVelocity;
      this.useGravity := useGravity;
      this.isKinematic := isKinematic;
      this.drag := drag;
      this.angularDrag := angularDrag;
      this.mass := mass;
    }

    /** The body added to a hull: motion, gravity, kinematic flag and drag copied from the
        source body, and the given mass. */
    constructor CopyOf(source: Rigidbody, mass: real)
      ensures SameMotion(this, source) && useGravity == source.useGravity && this.mass == mass
    {
      velocity := source.velocity;
      angularVelocity := source.angularVelocity;
      useGravity := source.useGravity;
      isKinematic := source.isKinematic;
      drag := source.drag;
      angularDrag := source.angularDrag;
      this.mass := mass;
    }
  }

  /** The attributes a hull's body takes from its source, apart from the gravity flag. */
  predicate SameMotion(a: Rigidbody, b: Rigidbody)
    reads a, b
  {
    a.velocity == b.velocity && a.angularVelocity == b.angularVelocity && a.isKinematic == b.isKinematic
    && a.drag == b.drag && a.angularDrag == b.angularDrag
  }

  /** A scene object. `destroyed` is the engine's destroyed state: the C# reference is still
      there, but the engine treats it as null and throws on most member accesses. */
  class GameObject {
    const placement: Placement
    var activeSelf: bool
    var destroyed: bool
    var body: Rigidbody?

    constructor (placement: Placement, activeSelf: bool, body: Rigidbody?)
      ensures this.placement == placement && this.activeSelf == activeSelf && this.body == body
      ensures !destroyed
    {
      this.placement := placement;
      this.activeSelf := activeSelf;
      this.body := body;
      destroyed := false;
    }

    /** A hull object as the slicer instantiates it: active, alive, and without a body. */
    constructor Instantiate(hull: Hull)
      ensures placement == hull.placement && activeSelf && !destroyed && body == null
    {
      placement := hull.placement;
      activeSelf := true;
      destroyed := false;
      body := null;
    }
  }

  // ---------------------------------------------------------------- object states

  /** What a list entry looks like to the scripts. */
  datatype ShardStatus = Null | Destroyed | Inactive | Live

  function Status(o: GameObject?): (s: ShardStatus)
    reads o
    ensures s == Live <==> o != null && !o.destroyed && o.activeSelf
  {
    if o == null then Null
    else if o.destroyed then Destroyed
    else if o.activeSelf then Live
    else Inactive
  }

  /** The statuses of a list of objects, entry by entry. */
  function Statuses(s: seq<GameObject?>): (r: seq<ShardStatus>)
    reads set o | o in s && o != null
    ensures |r| == |s| && forall i :: 0 <= i < |s| ==> r[i] == Status(s[i])
  {
    if s == [] then [] else [Status(s[0])] + Statuses(s[1..])
  }

  /** The exception reading a member such as `name` throws, if any. */
  function AccessError(status: ShardStatus): (e: Option<Exception>)
    ensures e.None? <==> status == Inactive || status == Live
  {
    match status
    case Null => Some(NullReference)
    case Destroyed => Some(MissingReference)
    case _ => None
  }

  /** The exception `o.GetComponent<Rigidbody>().useGravity` throws, if any. */
  function BodyError(o: GameObject?): (e: Option<Exception>)
    reads o
    ensures e.None? <==> o != null && !o.destroyed && o.body != null
  {
    if o == null then Some(NullReference)
    else if o.destroyed then Some(MissingReference)
    else if o.body == null then Some(MissingComponent)
    else None
  }

  /** The bodies of the live entries of a list. */
  function Bodies(s: seq<GameObject?>): (r: set<Rigidbody>)
    reads set o | o in s && o != null
    ensures forall i :: 0 <= i < |s| && BodyError(s[i]).None? ==> s[i].body in r
  {
    set i | 0 <= i < |s| && BodyError(s[i]).None? :: s[i].body
  }

  /** The body of an object, as a frame. */
  function BodyOf(o: GameObject?): set<Rigidbody>
    reads o
  {
    if o != null && o.body != null then {o.body} else {}
  }

  /** The objects a list refers to, as a frame. */
  function Listed(s: seq<GameObject?>): set<GameObject> {
    set o: GameObject | o in s
  }

  /** A registered hull object: placed as its hull, active and alive, and carrying a body copied
      from the source body with its share of the mass exactly when the source has a body. */
  predicate ShardFrom(o: GameObject, hull: Hull, source: Rigidbody?, sourceVolume: real)
    requires sourceVolume != 0.0
    reads o, o.body, source
  {
    o.placement == hull.placement && o.activeSelf && !o.destroyed
    && (source == null ==> o.body == null)
    && (source != null ==>
          o.body != null && SameMotion(o.body, source) && o.body.useGravity == source.useGravity
          && o.body.mass == ChildMass(source.mass, hull.volume, sourceVolume))
  }

  /** Motion, drag and mass unchanged since the start of the call. */
  twostate predicate MotionKept(b: Rigidbody)
    reads b
  {
    b.velocity == old(b.velocity) && b.angularVelocity == old(b.angularVelocity)
    && b.isKinematic == old(b.isKinematic) && b.drag == old(b.drag)
    && b.angularDrag == old(b.angularDrag) && b.mass == old(b.mass)
  }

  /** The first entry whose body cannot be reached, if any. */
  function FirstBodyError(s: seq<GameObject?>): (e: Option<Exception>)
    reads set o | o in s && o != null
    ensures e.None? <==> forall i :: 0 <= i < |s| ==> BodyError(s[i]).None?
    ensures |s| > 0 && BodyError(s[0]).Some? ==> e == BodyError(s[0])
  {
    if s == [] then None
    else if BodyError(s[0]).Some? then BodyError(s[0])
    else
      var rest := FirstBodyError(s[1..]);
      assert forall i :: 1 <= i < |s| ==> s[i] == s[1..][i - 1];
      rest
  }

  /** How many leading entries have a reachable body: the loop of Gravity sets exactly those. */
  function ReachableCount(s: seq<GameObject?>): (r: nat)
    reads set o | o in s && o != null
    ensures r <= |s|
    ensures forall k :: 0 <= k < r ==> BodyError(s[k]).None?
    ensures r < |s| ==> BodyError(s[r]).Some?
  {
    if s == [] || BodyError(s[0]).Some? then 0
    else
      var rest := ReachableCount(s[1..]);
      assert forall k :: 1 <= k < |s| ==> s[k] == s[1..][k - 1];
      1 + rest
  }

  /** The loop of Gravity over a non-empty list: each entry's body takes the flag g, until an
      entry whose body cannot be reached throws. The bodies of the entries before that one
      take g; every other body keeps its flag. */
  method SetAllGravity(s: seq<GameObject?>, g: bool) returns (outcome: Outcome)
    modifies Bodies(s)`useGravity
    ensures outcome == Returned <==> FirstBodyError(s).None?
    ensures outcome != Returned ==> outcome == Raised(FirstBodyError(s).value)
    ensures outcome == Returned ==> forall i :: 0 <= i < |s| ==> s[i].body.useGravity == g
    ensures forall k :: 0 <= k < ReachableCount(s) ==> s[k].body.useGravity == g
    ensures forall b :: b in old(Bodies(s)) && (forall k :: 0 <= k < ReachableCount(s) ==> s[k].body != b) ==>
              b.useGravity == old(b.useGravity)
    ensures forall b :: b in old(Bodies(s)) ==> MotionKept(b)
  {
    var i := SetGravityWhileReachable(s, g);
    if i < |s| {
      FirstBodyErrorAt(s, i);
      return Raised(BodyError(s[i]).value);
    }
    return Returned;
  }

  /** The body of SetAllGravity's loop: sets the flags of the leading entries with a reachable
      body and stops at the first entry without one. */
  method SetGravityWhileReachable(s: seq<GameObject?>, g: bool) returns (i: nat)
    modifies Bodies(s)`useGravity
    ensures i == ReachableCount(s)
    ensures forall k :: 0 <= k < i ==> s[k].body.useGravity == g
    ensures forall b :: b in old(Bodies(s)) && (forall k :: 0 <= k < i ==> s[k].body != b) ==>
              b.useGravity == old(b.useGravity)
  {
    i := 0;
    while i < |s| && BodyError(s[i]).None?
      invariant 0 <= i <= |s|
      invariant forall k :: 0 <= k < i ==> BodyError(s[k]).None? && s[k].body.useGravity == g
      invariant forall b :: b in old(Bodies(s)) && (forall k :: 0 <= k < i ==> s[k].body != b) ==>
                  b.useGravity == old(b.useGravity)
    {
      s[i].body.useGravity := g;
      i := i + 1;
    }
  }

  /** The first unreachable body is the one at i when all before it are reachable. */
  lemma {:induction false} FirstBodyErrorAt(s: seq<GameObject?>, i: nat)
    requires i < |s| && BodyError(s[i]).Some?
    requires forall k :: 0 <= k < i ==> BodyError(s[k]).None?
    ensures FirstBodyError(s) == BodyError(s[i])
  {
    if i > 0 {
      assert forall k :: 0 <= k < i - 1 ==> s[1..][k] == s[k + 1];
      FirstBodyErrorAt(s[1..], i - 1);
    }
  }

  /** The root branch of Gravity: the object's body has its flag toggled. */
  method ToggleGravity(o: GameObject?) returns (outcome: Outcome)
    modifies BodyOf(o)
    ensures outcome == Returned <==> BodyError(o).None?
    ensures outcome != Returned ==> outcome == Raised(BodyError(o).value)
    ensures outcome == Returned ==> o.body.useGravity == !old(o.body.useGravity)
    ensures outcome != Returned ==> forall b :: b in old(BodyOf(o)) ==> b.useGravity == old(b.useGravity)
    ensures forall b :: b in old(BodyOf(o)) ==> MotionKept(b)
  {
    var e := BodyError(o);
    if e.Some? {
      return Raised(e.value);
    }
    var rb := o.body;
    rb.useGravity := !rb.useGravity;
    return Returned;
  }

  // ---------------------------------------------------------------- random draws

  /** The engine's integer Random.Range(min, max): a value from min up to but excluding max,
      chosen by `draw`; min itself when max equals min. For max below min the model also
      returns min (the scripts reach that case only with an empty list). */
  function RandomRange(min: int, max: int, draw: nat): (r: int)
    ensures min < max ==> min <= r < max
    ensures max <= min ==> r == min
  {
    if max <= min then min else min + draw % (max - min)
  }

  /** Every value of a non-empty range is drawn by some draw. */
  lemma RandomRangeCovers(min: int, max: int, v: int)
    requires min <= v < max
    ensures RandomRange(min, max, (v - min) as nat) == v
  {
  }

  /** A unit-ball sample: what the engine's insideUnitSphere returns. */
  predicate InUnitBall(v: Vector3) {
    SquaredLength(v) <= 1.0
  }

  // ---------------------------------------------------------------- mass split

  /** The mass a hull's body receives: the source mass times the hull's share of the source
      volume, computed as (mass * volume) / sourceVolume. */
  function ChildMass(mass: real, volume: real, sourceVolume: real): (m: real)
    requires sourceVolume != 0.0
    ensures m * sourceVolume == mass * volume
  {
    mass * volume / sourceVolume
  }

  function VolumeSum(hulls: seq<Hull>): real {
    if hulls == [] then 0.0 else VolumeSum(hulls[..|hulls| - 1]) + hulls[|hulls| - 1].volume
  }

  /** The masses the hulls of a slice receive, in order. */
  function ChildMasses(mass: real, hulls: seq<Hull>, sourceVolume: real): (r: seq<real>)
    requires sourceVolume != 0.0
    ensures |r| == |hulls|
    ensures forall i :: 0 <= i < |hulls| ==> r[i] == ChildMass(mass, hulls[i].volume, sourceVolume)
  {
    if hulls == [] then []
    else ChildMasses(mass, hulls[..|hulls| - 1], sourceVolume) + [ChildMass(mass, hulls[|hulls| - 1].volume, sourceVolume)]
  }

  function Total(r: seq<real>): real {
    if r == [] then 0.0 else Total(r[..|r| - 1]) + r[|r| - 1]
  }

  /** The child masses add up to the mass share of the hulls' summed volume. */
  lemma {:induction false} ChildMassesShare(mass: real, hulls: seq<Hull>, sourceVolume: real)
    requires sourceVolume != 0.0
    ensures Total(ChildMasses(mass, hulls, sourceVolume)) == ChildMass(mass, VolumeSum(hulls), sourceVolume)
  {
    if hulls == [] {
      assert Total(ChildMasses(mass, hulls, sourceVolume)) == 0.0 && VolumeSum(hulls) == 0.0;
      CancelFactor(ChildMass(mass, 0.0, sourceVolume), 0.0, sourceVolume);
    } else {
      var front := hulls[..|hulls| - 1];
      var last := hulls[|hulls| - 1].volume;
      ChildMassesShare(mass, front, sourceVolume);
      TotalChildMassesStep(mass, hulls, sourceVolume);
      ChildMassAdd(mass, VolumeSum(front), last, sourceVolume);
    }
  }

  /** The child masses, summed and scaled by the source volume, give the source mass times the
      summed hull volumes. */
  lemma ChildMassesTotal(mass: real, hulls: seq<Hull>, sourceVolume: real)
    requires sourceVolume != 0.0
    ensures Total(ChildMasses(mass, hulls, sourceVolume)) * sourceVolume == mass * VolumeSum(hulls)
  {
    ChildMassesShare(mass, hulls, sourceVolume);
    var share := ChildMass(mass, VolumeSum(hulls), sourceVolume);
    assert share * sourceVolume == mass * VolumeSum(hulls);
  }

  /** The mass shares of two volumes add up to the share of their sum. */
  lemma ChildMassAdd(mass: real, v1: real, v2: real, sourceVolume: real)
    requires sourceVolume != 0.0
    ensures ChildMass(mass, v1, sourceVolume) + ChildMass(mass, v2, sourceVolume) == ChildMass(mass, v1 + v2, sourceVolume)
  {
    var m1 := ChildMass(mass, v1, sourceVolume);
    var m2 := ChildMass(mass, v2, sourceVolume);
    var m := ChildMass(mass, v1 + v2, sourceVolume);
    assert (m1 + m2) * sourceVolume == m1 * sourceVolume + m2 * sourceVolume;
    assert m * sourceVolume == mass * v1 + mass * v2;
    CancelFactor(m1 + m2, m, sourceVolume);
  }

  /** The last hull's mass is added to the total of the others. */
  lemma TotalChildMassesStep(mass: real, hulls: seq<Hull>, sourceVolume: real)
    requires sourceVolume != 0.0 && hulls != []
    ensures Total(ChildMasses(mass, hulls, sourceVolume))
            == Total(ChildMasses(mass, hulls[..|hulls| - 1], sourceVolume)) + ChildMass(mass, hulls[|hulls| - 1].volume, sourceVolume)
  {
    TotalAppend(ChildMasses(mass, hulls[..|hulls| - 1], sourceVolume), ChildMass(mass, hulls[|hulls| - 1].volume, sourceVolume));
  }

  /** Appending a value adds it to the total. */
  lemma TotalAppend(r: seq<real>, x: real)
    ensures Total(r + [x]) == Total(r) + x
  {
    assert (r + [x])[..|r|] == r;
  }

  /** When the hulls' volumes add up to the source volume, so do the masses to the source mass. */
  lemma {:induction false} MassConserved(mass: real, hulls: seq<Hull>, sourceVolume: real)
    requires sourceVolume != 0.0 && VolumeSum(hulls) == sourceVolume
    ensures Total(ChildMasses(mass, hulls, sourceVolume)) == mass
  {
    ChildMassesTotal(mass, hulls, sourceVolume);
    CancelFactor(Total(ChildMasses(mass, hulls, sourceVolume)), mass, sourceVolume);
  }

  /** A non-zero factor common to both sides cancels. */
  lemma CancelFactor(x: real, y: real, k: real)
    requires k != 0.0 && x * k == y * k
    ensures x == y
  {
    assert (x - y) * k == 0.0;
  }

  /** Two hulls' masses stand in the ratio of their volumes. */
  lemma MassProportional(mass: real, v1: real, v2: real, sourceVolume: real)
    requires sourceVolume != 0.0
    ensures ChildMass(mass, v1, sourceVolume) * v2 == ChildMass(mass, v2, sourceVolume) * v1
  {
    var m1 := ChildMass(mass, v1, sourceVolume);
    var m2 := ChildMass(mass, v2, sourceVolume);
    assert m1 * sourceVolume * v2 == mass * v1 * v2;
    assert m2 * sourceVolume * v1 == mass * v2 * v1;
    assert (m1 * v2 - m2 * v1) * sourceVolume == 0.0;
  }

  // ---------------------------------------------------------------- the shard list

  /** List.Remove: drops the first occurrence of x, if there is one. */
  function RemoveFirst<T(==)>(s: seq<T>, x: T): (r: seq<T>)
    ensures x !in s ==> r == s
    ensures x in s ==> |r| == |s| - 1
  {
    if s == [] then []
    else if s[0] == x then s[1..]
    else [s[0]] + RemoveFirst(s[1..], x)
  }

  /** Exactly one copy of x leaves the list, and nothing else does. */
  lemma {:induction false} RemoveFirstMultiset<T>(s: seq<T>, x: T)
    requires x in s
    ensures multiset(RemoveFirst(s, x)) == multiset(s) - multiset{x}
  {
    assert s == [s[0]] + s[1..];
    if s[0] != x {
      RemoveFirstMultiset(s[1..], x);
    }
  }

  /** Removing an element that the appended part does not hold leaves that part at the end,
      in order. */
  lemma {:induction false} RemoveFirstAppend<T>(s: seq<T>, c: seq<T>, x: T)
    requires x !in c
    ensures RemoveFirst(s + c, x) == RemoveFirst(s, x) + c
  {
    if s == [] {
      assert s + c == c;
    } else {
      assert (s + c)[0] == s[0];
      assert (s + c)[1..] == s[1..] + c;
      if s[0] != x {
        RemoveFirstAppend(s[1..], c, x);
      }
    }
  }

  /** The position of the first occurrence of x. */
  function IndexOf<T(==)>(s: seq<T>, x: T): (i: nat)
    requires x in s
    ensures i < |s| && s[i] == x && x !in s[..i]
  {
    if s[0] == x then 0
    else
      var i := IndexOf(s[1..], x) + 1;
      assert s[..i] == [s[0]] + s[1..][..i - 1];
      i
  }

  /** The removed entry is the first occurrence; everything before and after it keeps its order. */
  lemma {:induction false} RemoveFirstSplits<T>(s: seq<T>, x: T)
    requires x in s
    ensures RemoveFirst(s, x) == s[..IndexOf(s, x)] + s[IndexOf(s, x) + 1..]
  {
    RemoveFirstAt(s, x, IndexOf(s, x));
  }

  lemma {:induction false} RemoveFirstAt<T>(s: seq<T>, x: T, i: nat)
    requires i < |s| && s[i] == x && x !in s[..i]
    ensures RemoveFirst(s, x) == s[..i] + s[i + 1..]
  {
    if i == 0 {
      assert s[..0] + s[1..] == s[1..];
    } else {
      var t := s[1..];
      assert s[0] != x by { assert s[0] == s[..i][0]; }
      assert x !in t[..i - 1] by { assert t[..i - 1] == s[..i][1..]; }
      RemoveFirstAt(t, x, i - 1);
      calc {
        RemoveFirst(s, x);
        [s[0]] + RemoveFirst(t, x);
        [s[0]] + (t[..i - 1] + t[i..]);
        { assert s[..i] == [s[0]] + t[..i - 1]; assert t[i..] == s[i + 1..]; }
        s[..i] + s[i + 1..];
      }
    }
  }

  /** The shard list after a successful split: the hulls appended in order, then the first
      occurrence of the target removed. */
  function AfterSplit<T(==)>(shards: seq<T>, target: T, created: seq<T>): seq<T> {
    RemoveFirst(shards + created, target)
  }

  /** When the target is a listed shard and not one of the new hulls, the split replaces it
      by the hulls: every other shard keeps its place and the hulls come last, in order. */
  lemma SplitReplacesTarget<T>(shards: seq<T>, target: T, created: seq<T>)
    requires target in shards && target !in created
    ensures AfterSplit(shards, target, created) == RemoveFirst(shards, target) + created
    ensures multiset(AfterSplit(shards, target, created)) == multiset(shards) - multiset{target} + multiset(created)
    ensures |AfterSplit(shards, target, created)| == |shards| - 1 + |created|
  {
    RemoveFirstAppend(shards, created, target);
    RemoveFirstMultiset(shards, target);
  }

  /** When the target is not in the list (the root on a first shatter) the split only appends. */
  lemma SplitOfUnlistedTarget<T>(shards: seq<T>, target: T, created: seq<T>)
    requires target !in shards && target !in created
    ensures AfterSplit(shards, target, created) == shards + created
  {
    RemoveFirstAppend(shards, created, target);
  }
}
