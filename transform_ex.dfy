/** Hierarchy search, sibling navigation and bounds transformation (TransformEx.cs). */
module TransformEx {
  import opened Vectors
  import opened Wrappers

  /** A node of the scene hierarchy: its name, whether its game object is active
      (activeSelf), and its children in sibling order. */
  datatype Transform = Transform(name: string, activeSelf: bool, children: seq<Transform>)

  /** The node a search with these arguments accepts. */
  predicate Matches(t: Transform, name: string, activeOnly: bool) {
    t.name == name && (!activeOnly || t.activeSelf)
  }

  /** Whether the depth-first search descends into a child. */
  predicate Descends(t: Transform, activeOnly: bool) {
    !activeOnly || t.activeSelf
  }

  /** The first accepted node of a visiting order. */
  function FirstMatch(s: seq<Transform>, name: string, activeOnly: bool): (r: Option<Transform>)
    ensures r.Some? ==> r.value in s && Matches(r.value, name, activeOnly)
    ensures r.None? <==> forall t :: t in s ==> !Matches(t, name, activeOnly)
  {
    if s == [] then None
    else if Matches(s[0], name, activeOnly) then Some(s[0])
    else FirstMatch(s[1..], name, activeOnly)
  }

  lemma {:induction false} FirstMatchAppend(a: seq<Transform>, b: seq<Transform>, name: string, activeOnly: bool)
    ensures FirstMatch(a + b, name, activeOnly) ==
      if FirstMatch(a, name, activeOnly).Some? then FirstMatch(a, name, activeOnly) else FirstMatch(b, name, activeOnly)
  {
    if a == [] {
      assert a + b == b;
    } else {
      assert (a + b)[0] == a[0];
      assert (a + b)[1..] == a[1..] + b;
      FirstMatchAppend(a[1..], b, name, activeOnly);
    }
  }

  // ---------------------------------------------------------------- depth first

  /** Pre-order of the nodes the depth-first search visits: the node itself, then, child by
      child, the visit of each child it descends into. */
  function DfsOrder(t: Transform, activeOnly: bool): seq<Transform>
    decreases t, |t.children| + 1
  {
    [t] + DfsChildrenOrder(t, 0, activeOnly)
  }

  function DfsChildrenOrder(t: Transform, i: nat, activeOnly: bool): seq<Transform>
    requires i <= |t.children|
    decreases t, |t.children| - i
  {
    if i == |t.children| then []
    else
      (if Descends(t.children[i], activeOnly) then DfsOrder(t.children[i], activeOnly) else [])
      + DfsChildrenOrder(t, i + 1, activeOnly)
  }

  /** FindDeep with depthFirst set: the node itself if accepted, else the first result of
      the children it descends into. */
  function FindDeepDfs(parent: Transform, name: string, activeOnly: bool): (r: Option<Transform>)
    ensures r.Some? ==> Matches(r.value, name, activeOnly)
    decreases parent, |parent.children| + 1
  {
    if parent.name == name && (!activeOnly || parent.activeSelf) then Some(parent)
    else FindInChildren(parent, 0, name, activeOnly)
  }

  /** The foreach over the children of a depth-first search, from child i on. */
  function FindInChildren(parent: Transform, i: nat, name: string, activeOnly: bool): (r: Option<Transform>)
    requires i <= |parent.children|
    ensures r.Some? ==> Matches(r.value, name, activeOnly)
    decreases parent, |parent.children| - i
  {
    if i == |parent.children| then None
    else
      var child := parent.children[i];
      if !activeOnly || child.activeSelf then
        var result := FindDeepDfs(child, name, activeOnly);
        if result.Some? then result else FindInChildren(parent, i + 1, name, activeOnly)
      else FindInChildren(parent, i + 1, name, activeOnly)
  }

  /** The depth-first search returns the first accepted node in pre-order. */
  lemma {:induction false} DfsFindsFirstInPreorder(t: Transform, name: string, activeOnly: bool)
    ensures FindDeepDfs(t, name, activeOnly) == FirstMatch(DfsOrder(t, activeOnly), name, activeOnly)
    decreases t, |t.children| + 1
  {
    FindInChildrenFindsFirst(t, 0, name, activeOnly);
    FirstMatchAppend([t], DfsChildrenOrder(t, 0, activeOnly), name, activeOnly);
  }

  lemma {:induction false} FindInChildrenFindsFirst(t: Transform, i: nat, name: string, activeOnly: bool)
    requires i <= |t.children|
    ensures FindInChildren(t, i, name, activeOnly) == FirstMatch(DfsChildrenOrder(t, i, activeOnly), name, activeOnly)
    decreases t, |t.children| - i
  {
    if i < |t.children| {
      var child := t.children[i];
      FindInChildrenFindsFirst(t, i + 1, name, activeOnly);
      if Descends(child, activeOnly) {
        DfsFindsFirstInPreorder(child, name, activeOnly);
        FirstMatchAppend(DfsOrder(child, activeOnly), DfsChildrenOrder(t, i + 1, activeOnly), name, activeOnly);
      } else {
        assert DfsChildrenOrder(t, i, activeOnly) == [] + DfsChildrenOrder(t, i + 1, activeOnly);
        assert [] + DfsChildrenOrder(t, i + 1, activeOnly) == DfsChildrenOrder(t, i + 1, activeOnly);
      }
    }
  }

  // ---------------------------------------------------------------- breadth first

  /** Number of nodes in a subtree. */
  function Size(t: Transform): nat
    decreases t, 1
  {
    1 + SizeOfChildren(t, 0)
  }

  function SizeOfChildren(t: Transform, i: nat): nat
    requires i <= |t.children|
    decreases t, 0, |t.children| - i
  {
    if i == |t.children| then 0 else Size(t.children[i]) + SizeOfChildren(t, i + 1)
  }

  /** Number of nodes in all subtrees of a queue. */
  function QueueSize(q: seq<Transform>): nat {
    if q == [] then 0 else Size(q[0]) + QueueSize(q[1..])
  }

  lemma {:induction false} QueueSizeAppend(a: seq<Transform>, b: seq<Transform>)
    ensures QueueSize(a + b) == QueueSize(a) + QueueSize(b)
  {
    if a == [] {
      assert a + b == b;
    } else {
      assert (a + b)[1..] == a[1..] + b;
      QueueSizeAppend(a[1..], b);
    }
  }

  lemma {:induction false} ChildrenQueueSize(t: Transform, i: nat)
    requires i <= |t.children|
    ensures QueueSize(t.children[i..]) == SizeOfChildren(t, i)
    decreases |t.children| - i
  {
    if i < |t.children| {
      assert t.children[i..][1..] == t.children[i + 1..];
      ChildrenQueueSize(t, i + 1);
    }
  }

  /** Dequeuing a node and enqueuing its children shrinks the queue's node count by one. */
  lemma ExpandShrinks(q: seq<Transform>)
    requires q != []
    ensures QueueSize(q[1..] + q[0].children) == QueueSize(q) - 1
  {
    QueueSizeAppend(q[1..], q[0].children);
    ChildrenQueueSize(q[0], 0);
    assert q[0].children[0..] == q[0].children;
  }

  /** Level order of the nodes reachable from a queue: the head, then the level order of the
      rest of the queue followed by the head's children. */
  function LevelOrder(q: seq<Transform>): seq<Transform>
    decreases QueueSize(q)
  {
    if q == [] then []
    else
      ExpandShrinks(q);
      [q[0]] + LevelOrder(q[1..] + q[0].children)
  }

  /** Dequeuing the head: the first accepted node of the level order is the head when that is
      accepted, and otherwise the first of the level order of what the queue becomes. */
  lemma LevelOrderStep(q: seq<Transform>, name: string, activeOnly: bool)
    requires q != []
    ensures FirstMatch(LevelOrder(q), name, activeOnly) ==
      if Matches(q[0], name, activeOnly) then Some(q[0])
      else FirstMatch(LevelOrder(q[1..] + q[0].children), name, activeOnly)
  {
    var next := q[1..] + q[0].children;
    ExpandShrinks(q);
    assert LevelOrder(q) == [q[0]] + LevelOrder(next);
    FirstMatchAppend([q[0]], LevelOrder(next), name, activeOnly);
    assert [q[0]][1..] == [];
  }

  /** The foreach that enqueues every child, in order. */
  method EnqueueAll(queue: seq<Transform>, children: seq<Transform>) returns (q: seq<Transform>)
    ensures q == queue + children
  {
    q := queue;
    for k := 0 to |children|
      invariant q == queue + children[..k]
    {
      q := q + [children[k]];
    }
    assert children[..|children|] == children;
  }

  /** FindDeep without depthFirst: a queue of nodes; every child is enqueued whatever its
      activity, and the first dequeued node that is accepted is the result. */
  method FindDeepBfs(parent: Transform, name: string, activeOnly: bool) returns (r: Option<Transform>)
    ensures r == FirstMatch(LevelOrder([parent]), name, activeOnly)
  {
    var queue := [parent];
    while |queue| > 0
      invariant FirstMatch(LevelOrder(queue), name, activeOnly) == FirstMatch(LevelOrder([parent]), name, activeOnly)
      decreases QueueSize(queue)
    {
      var c := queue[0];
      LevelOrderStep(queue, name, activeOnly);
      ExpandShrinks(queue);
      if c.name == name {
        if !activeOnly || c.activeSelf {
          return Some(c);
        }
      }
      queue := EnqueueAll(queue[1..], c.children);
    }
    return None;
  }

  /** FindDeep: the search mode chosen by depthFirst; by default breadth-first over active nodes. */
  method FindDeep(parent: Transform, name: string, activeOnly: bool := true, depthFirst: bool := false) returns (r: Option<Transform>)
    ensures depthFirst ==> r == FirstMatch(DfsOrder(parent, activeOnly), name, activeOnly)
    ensures !depthFirst ==> r == FirstMatch(LevelOrder([parent]), name, activeOnly)
    ensures r.Some? ==> r.value.name == name && (activeOnly ==> r.value.activeSelf)
  {
    if depthFirst {
      r := FindDeepDfs(parent, name, activeOnly);
      DfsFindsFirstInPreorder(parent, name, activeOnly);
    } else {
      r := FindDeepBfs(parent, name, activeOnly);
    }
  }

  // ---------------------------------------------------------------- what each mode can reach

  /** Some node of the subtree, at any depth and under any activity, is accepted. */
  predicate HasMatch(t: Transform, name: string, activeOnly: bool)
    decreases t
  {
    Matches(t, name, activeOnly)
    || exists i :: 0 <= i < |t.children| && HasMatch(t.children[i], name, activeOnly)
  }

  /** Some node reachable without passing through a child the depth-first search skips is accepted. */
  predicate DfsHasMatch(t: Transform, name: string, activeOnly: bool)
    decreases t
  {
    Matches(t, name, activeOnly)
    || exists i :: 0 <= i < |t.children| && Descends(t.children[i], activeOnly) && DfsHasMatch(t.children[i], name, activeOnly)
  }

  predicate QueueHasMatch(q: seq<Transform>, name: string, activeOnly: bool) {
    exists i :: 0 <= i < |q| && HasMatch(q[i], name, activeOnly)
  }

  /** The depth-first search finds a node exactly when one is reachable under its rule. */
  lemma {:induction false} DfsFindsIffReachable(t: Transform, name: string, activeOnly: bool)
    ensures FindDeepDfs(t, name, activeOnly).Some? <==> DfsHasMatch(t, name, activeOnly)
    decreases t, |t.children| + 1
  {
    FindInChildrenFindsIffReachable(t, 0, name, activeOnly);
  }

  lemma {:induction false} FindInChildrenFindsIffReachable(t: Transform, i: nat, name: string, activeOnly: bool)
    requires i <= |t.children|
    ensures FindInChildren(t, i, name, activeOnly).Some? <==>
      exists j :: i <= j < |t.children| && Descends(t.children[j], activeOnly) && DfsHasMatch(t.children[j], name, activeOnly)
    decreases t, |t.children| - i
  {
    if i < |t.children| {
      FindInChildrenFindsIffReachable(t, i + 1, name, activeOnly);
      if Descends(t.children[i], activeOnly) {
        DfsFindsIffReachable(t.children[i], name, activeOnly);
      }
    }
  }

  /** Dequeuing the head and enqueuing its children keeps what the queue can reach,
      apart from the head itself. */
  lemma QueueHasMatchStep(q: seq<Transform>, name: string, activeOnly: bool)
    requires q != []
    ensures QueueHasMatch(q, name, activeOnly) <==>
      Matches(q[0], name, activeOnly) || QueueHasMatch(q[1..] + q[0].children, name, activeOnly)
  {
    var c, rest := q[0], q[1..];
    var next := rest + c.children;
    if QueueHasMatch(next, name, activeOnly) {
      var i :| 0 <= i < |next| && HasMatch(next[i], name, activeOnly);
      if i < |rest| {
        assert HasMatch(q[i + 1], name, activeOnly);
      } else {
        assert HasMatch(c.children[i - |rest|], name, activeOnly);
        assert HasMatch(q[0], name, activeOnly);
      }
    }
    if QueueHasMatch(q, name, activeOnly) && !Matches(c, name, activeOnly) {
      var i :| 0 <= i < |q| && HasMatch(q[i], name, activeOnly);
      if i > 0 {
        assert next[i - 1] == q[i];
      } else {
        var j :| 0 <= j < |c.children| && HasMatch(c.children[j], name, activeOnly);
        assert next[|rest| + j] == c.children[j];
      }
    }
  }

  /** Level order from a queue meets an accepted node exactly when some subtree of the queue
      holds one. */
  lemma {:induction false} LevelOrderReachesAll(q: seq<Transform>, name: string, activeOnly: bool)
    ensures FirstMatch(LevelOrder(q), name, activeOnly).Some? <==> QueueHasMatch(q, name, activeOnly)
    decreases QueueSize(q)
  {
    if q != [] {
      var next := q[1..] + q[0].children;
      ExpandShrinks(q);
      LevelOrderReachesAll(next, name, activeOnly);
      FirstMatchAppend([q[0]], LevelOrder(next), name, activeOnly);
      assert LevelOrder(q) == [q[0]] + LevelOrder(next);
      QueueHasMatchStep(q, name, activeOnly);
    }
  }

  /** The breadth-first search finds a node exactly when one is anywhere in the tree:
      inactive subtrees are searched too. */
  lemma BfsFindsIffAnywhere(t: Transform, name: string, activeOnly: bool)
    ensures FirstMatch(LevelOrder([t]), name, activeOnly).Some? <==> HasMatch(t, name, activeOnly)
  {
    LevelOrderReachesAll([t], name, activeOnly);
  }

  /** Whatever the depth-first search can reach is in the tree. */
  lemma {:induction false} DfsReachableIsInTree(t: Transform, name: string, activeOnly: bool)
    requires DfsHasMatch(t, name, activeOnly)
    ensures HasMatch(t, name, activeOnly)
    decreases t
  {
    if !Matches(t, name, activeOnly) {
      var i :| 0 <= i < |t.children| && Descends(t.children[i], activeOnly) && DfsHasMatch(t.children[i], name, activeOnly);
      DfsReachableIsInTree(t.children[i], name, activeOnly);
    }
  }

  /** Without activeOnly the two modes agree on whether anything is found. */
  lemma {:induction false} ModesAgreeWithoutActiveOnly(t: Transform, name: string)
    ensures DfsHasMatch(t, name, false) <==> HasMatch(t, name, false)
    decreases t
  {
    forall i | 0 <= i < |t.children|
      ensures DfsHasMatch(t.children[i], name, false) <==> HasMatch(t.children[i], name, false)
    {
      ModesAgreeWithoutActiveOnly(t.children[i], name);
    }
  }

  /** An active node under an inactive child: the breadth-first search finds it, the
      depth-first search with activeOnly does not descend to it. */
  lemma ModesDifferUnderInactiveChild()
    ensures var leaf := Transform("target", true, []);
            var tree := Transform("root", true, [Transform("hidden", false, [leaf])]);
            FindDeepDfs(tree, "target", true) == None
            && FirstMatch(LevelOrder([tree]), "target", true) == Some(leaf)
  {
    var leaf := Transform("target", true, []);
    var hidden := Transform("hidden", false, [leaf]);
    var tree := Transform("root", true, [hidden]);
    assert FindInChildren(tree, 1, "target", true) == None;
    assert FindInChildren(tree, 0, "target", true) == None;
    ExpandShrinks([tree]);
    assert [tree][1..] + tree.children == [hidden];
    ExpandShrinks([hidden]);
    assert [hidden][1..] + hidden.children == [leaf];
    assert LevelOrder([tree]) == [tree] + LevelOrder([hidden]);
    assert LevelOrder([hidden]) == [hidden] + LevelOrder([leaf]);
    ExpandShrinks([leaf]);
    assert [leaf][1..] + leaf.children == [];
    assert LevelOrder([leaf]) == [leaf];
    assert LevelOrder([tree]) == [tree, hidden, leaf];
    assert !Matches(tree, "target", true) && !Matches(hidden, "target", true) && Matches(leaf, "target", true);
    assert [tree, hidden, leaf][1..] == [hidden, leaf];
    assert [hidden, leaf][1..] == [leaf];
  }

  // ---------------------------------------------------------------- siblings and children

  // A node's place in the hierarchy is given by its parent (None for a scene root) and its
  // sibling index; for a scene root the index is its position among the roots.

  /** GetPreviousSibling: null at index 0; otherwise the parent's child before this one,
      which needs a parent. */
  function GetPreviousSibling(parent: Option<Transform>, siblingIndex: nat): (r: Result<Option<Transform>>)
    requires parent.Some? ==> siblingIndex < |parent.value.children|
    ensures r == Ok(None) <==> siblingIndex == 0
    ensures r.Ok? && r.value.Some? ==> parent.Some? && r.value.value == parent.value.children[siblingIndex - 1]
    ensures r.Threw? <==> parent.None? && siblingIndex > 0
  {
    if siblingIndex == 0 then Ok(None)
    else if parent.None? then Threw(NullReference)
    else Ok(Some(parent.value.children[siblingIndex - 1]))
  }

  /** GetNextSibling: reads the parent's child count first, so it always needs a parent;
      null for the last child, otherwise the child after this one. */
  function GetNextSibling(parent: Option<Transform>, siblingIndex: nat): (r: Result<Option<Transform>>)
    requires parent.Some? ==> siblingIndex < |parent.value.children|
    ensures r.Threw? <==> parent.None?
    ensures parent.Some? ==> (r == Ok(None) <==> siblingIndex == |parent.value.children| - 1)
    ensures r.Ok? && r.value.Some? ==> parent.Some? && r.value.value == parent.value.children[siblingIndex + 1]
  {
    if parent.None? then Threw(NullReference)
    else if siblingIndex == |parent.value.children| - 1 then Ok(None)
    else Ok(Some(parent.value.children[siblingIndex + 1]))
  }

  /** GetNumSiblingsAfter: how many children of the parent follow this one. */
  function GetNumSiblingsAfter(parent: Option<Transform>, siblingIndex: nat): (r: Result<int>)
    requires parent.Some? ==> siblingIndex < |parent.value.children|
    ensures r.Threw? <==> parent.None?
    ensures r.Ok? ==> parent.Some? && r.value == |parent.value.children[siblingIndex + 1..]| && r.value >= 0
  {
    if parent.None? then Threw(NullReference)
    else Ok(|parent.value.children| - siblingIndex - 1)
  }

  function GetFirstChild(t: Transform): (r: Option<Transform>)
    ensures r.None? <==> |t.children| == 0
    ensures r.Some? ==> r.value == t.children[0]
  {
    if |t.children| == 0 then None else Some(t.children[0])
  }

  function GetLastChild(t: Transform): (r: Option<Transform>)
    ensures r.None? <==> |t.children| == 0
    ensures r.Some? ==> r.value == t.children[|t.children| - 1]
  {
    var childCount := |t.children|;
    if childCount == 0 then None else Some(t.children[childCount - 1])
  }

  /** Previous and next sibling undo each other. */
  lemma SiblingsRoundTrip(parent: Transform, i: nat)
    requires 0 < i < |parent.children|
    ensures GetPreviousSibling(Some(parent), i) == Ok(Some(parent.children[i - 1]))
    ensures GetNextSibling(Some(parent), i - 1) == Ok(Some(parent.children[i]))
  {
  }

  /** No siblings follow exactly when there is no next sibling. */
  lemma NoSiblingsAfterIffLast(parent: Transform, i: nat)
    requires i < |parent.children|
    ensures GetNumSiblingsAfter(Some(parent), i) == Ok(0) <==> GetNextSibling(Some(parent), i) == Ok(None)
  {
  }

  /** The first child has no previous sibling and the last child no next one. */
  lemma FirstAndLastChildEnds(t: Transform)
    requires |t.children| > 0
    ensures GetFirstChild(t) == Some(t.children[0]) && GetPreviousSibling(Some(t), 0) == Ok(None)
    ensures GetLastChild(t) == Some(t.children[|t.children| - 1])
    ensures GetNextSibling(Some(t), |t.children| - 1) == Ok(None)
    ensures GetNumSiblingsAfter(Some(t), 0) == Ok(|t.children| - 1)
  {
  }

  // ---------------------------------------------------------------- bounds

  /** The linear part of a local-to-world transform, by rows. */
  datatype Matrix3x3 = Matrix3x3(row0: Vector3, row1: Vector3, row2: Vector3)

  /** A local-to-world transform: a linear map followed by a translation. */
  datatype LocalToWorld = LocalToWorld(linear: Matrix3x3, translation: Vector3)

  /** An axis-aligned box: its center and its half-size per axis. */
  datatype Bounds = Bounds(center: Vector3, extents: Vector3)

  function Apply(m: Matrix3x3, v: Vector3): Vector3 {
    Vector3(Dot(m.row0, v), Dot(m.row1, v), Dot(m.row2, v))
  }

  /** The engine's TransformVector: directions ignore the translation. */
  function TransformVector(transform: LocalToWorld, v: Vector3): Vector3 {
    Apply(transform.linear, v)
  }

  /** The engine's TransformPoint. */
  function TransformPoint(transform: LocalToWorld, p: Vector3): Vector3 {
    Add(Apply(transform.linear, p), transform.translation)
  }

  predicate Contains(b: Bounds, p: Vector3) {
    && Abs(p.x - b.center.x) <= b.extents.x
    && Abs(p.y - b.center.y) <= b.extents.y
    && Abs(p.z - b.center.z) <= b.extents.z
  }

  /** The world half-size of a local box: per world axis, the sum over the local axes of
      |m[i][j] * e[j]|. */
  function WorldExtents(m: Matrix3x3, e: Vector3): Vector3 {
    Vector3(
      Abs(Mul(m.row0.x, e.x)) + Abs(Mul(m.row0.y, e.y)) + Abs(Mul(m.row0.z, e.z)),
      Abs(Mul(m.row1.x, e.x)) + Abs(Mul(m.row1.y, e.y)) + Abs(Mul(m.row1.z, e.z)),
      Abs(Mul(m.row2.x, e.x)) + Abs(Mul(m.row2.y, e.y)) + Abs(Mul(m.row2.z, e.z)))
  }

  /** The world box of a local box: the center is mapped as a point, and each world extent
      is the sum of the absolute values of that component of the three mapped half-axes.
      Every point of the local box maps into the world box. */
  method TransformBounds(transform: LocalToWorld, localBounds: Bounds) returns (bounds: Bounds)
    ensures bounds.center == TransformPoint(transform, localBounds.center)
    ensures bounds.extents == WorldExtents(transform.linear, localBounds.extents)
    ensures bounds.extents.x >= 0.0 && bounds.extents.y >= 0.0 && bounds.extents.z >= 0.0
    ensures forall p :: Contains(localBounds, p) ==> Contains(bounds, TransformPoint(transform, p))
  {
    var center := TransformPoint(transform, localBounds.center);
    var extents := localBounds.extents;
    var axisX := TransformVector(transform, Vector3(extents.x, 0.0, 0.0));
    var axisY := TransformVector(transform, Vector3(0.0, extents.y, 0.0));
    var axisZ := TransformVector(transform, Vector3(0.0, 0.0, extents.z));
    MappedAxes(transform.linear, extents);
    extents := extents.(x := Abs(axisX.x) + Abs(axisY.x) + Abs(axisZ.x));
    extents := extents.(y := Abs(axisX.y) + Abs(axisY.y) + Abs(axisZ.y));
    extents := extents.(z := Abs(axisX.z) + Abs(axisY.z) + Abs(axisZ.z));
    bounds := Bounds(center, extents);
    forall p | Contains(localBounds, p)
      ensures Contains(bounds, TransformPoint(transform, p))
    {
      MappedBoxInside(transform, localBounds, p);
    }
  }

  /** The mapped half-axes are the columns of the linear map scaled by the extents. */
  lemma MappedAxes(m: Matrix3x3, e: Vector3)
    ensures Apply(m, Vector3(e.x, 0.0, 0.0)) == Vector3(Mul(m.row0.x, e.x), Mul(m.row1.x, e.x), Mul(m.row2.x, e.x))
    ensures Apply(m, Vector3(0.0, e.y, 0.0)) == Vector3(Mul(m.row0.y, e.y), Mul(m.row1.y, e.y), Mul(m.row2.y, e.y))
    ensures Apply(m, Vector3(0.0, 0.0, e.z)) == Vector3(Mul(m.row0.z, e.z), Mul(m.row1.z, e.z), Mul(m.row2.z, e.z))
  {
  }

  /** |a * d| <= |a * e| when |d| <= e. */
  lemma AbsProductBound(a: real, d: real, e: real)
    requires Abs(d) <= e
    ensures Abs(Mul(a, d)) <= Abs(Mul(a, e))
  {
    AbsMul(a, d);
    AbsMul(a, e);
    assert Mul(Abs(a), e) - Mul(Abs(a), Abs(d)) == Mul(Abs(a), e - Abs(d));
    NonNegativeProduct(Abs(a), e - Abs(d));
  }

  /** The absolute value of a product is the product of the absolute values. */
  lemma AbsMul(a: real, b: real)
    ensures Abs(Mul(a, b)) == Mul(Abs(a), Abs(b))
  {
    if a < 0.0 && b >= 0.0 {
      assert Mul(a, b) == -Mul(-a, b);
      NonNegativeProduct(-a, b);
    } else if a >= 0.0 && b < 0.0 {
      assert Mul(a, b) == -Mul(a, -b);
      NonNegativeProduct(a, -b);
    } else if a < 0.0 && b < 0.0 {
      assert Mul(a, b) == Mul(-a, -b);
      NonNegativeProduct(-a, -b);
    } else {
      NonNegativeProduct(a, b);
    }
  }

  lemma NonNegativeProduct(a: real, b: real)
    requires a >= 0.0 && b >= 0.0
    ensures Mul(a, b) >= 0.0
  {
  }

  lemma TriangleInequality(a: real, b: real, c: real)
    ensures Abs(a + b + c) <= Abs(a) + Abs(b) + Abs(c)
  {
  }

  /** One row of the linear map moves a point of the local box by at most the world extent. */
  lemma RowBound(row: Vector3, d: Vector3, e: Vector3)
    requires Abs(d.x) <= e.x && Abs(d.y) <= e.y && Abs(d.z) <= e.z
    ensures Abs(Dot(row, d)) <= Abs(Mul(row.x, e.x)) + Abs(Mul(row.y, e.y)) + Abs(Mul(row.z, e.z))
  {
    AbsProductBound(row.x, d.x, e.x);
    AbsProductBound(row.y, d.y, e.y);
    AbsProductBound(row.z, d.z, e.z);
    TriangleInequality(Mul(row.x, d.x), Mul(row.y, d.y), Mul(row.z, d.z));
  }

  lemma MappedBoxInside(transform: LocalToWorld, localBounds: Bounds, p: Vector3)
    requires Contains(localBounds, p)
    ensures Contains(Bounds(TransformPoint(transform, localBounds.center), WorldExtents(transform.linear, localBounds.extents)),
                     TransformPoint(transform, p))
  {
    var m := transform.linear;
    var c := localBounds.center;
    var d := Sub(p, c);
    var e := localBounds.extents;
    LinearDifference(m.row0, p, c);
    LinearDifference(m.row1, p, c);
    LinearDifference(m.row2, p, c);
    RowBound(m.row0, d, e);
    RowBound(m.row1, d, e);
    RowBound(m.row2, d, e);
  }

  lemma LinearDifference(row: Vector3, p: Vector3, c: Vector3)
    ensures Dot(row, p) - Dot(row, c) == Dot(row, Sub(p, c))
  {
  }
}
