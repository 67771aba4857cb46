/** The breadth-first walk of a container's containment hierarchy, driven by
    the Fifo worklist.  Each container shifts the coordinate frame of its
    children by its own (x, y) position. */
module NestedComponents {
  import opened Wrappers
  import opened FifoQueue

  /** A component of the containment tree.  `id` stands for the object's
      identity; only containers have children. */
  datatype Component =
    | Widget(id: int, x: real, y: real)
    | Container(id: int, x: real, y: real, components: seq<Component>)

  datatype Offset = Offset(x: real, y: real)

  /** A worklist entry: a component and the frame offset of its parent. */
  datatype Entry = Entry(item: Component, offset: Offset)

  const Origin := Offset(0.0, 0.0)

  // ---------------------------------------------------------------------
  // Sizes, for termination

  function Size(c: Component): (n: nat)
    ensures n >= 1
    decreases c
  {
    match c
    case Widget(_, _, _) => 1
    case Container(_, _, _, cs) => 1 + SizeAll(cs)
  }

  function SizeAll(cs: seq<Component>): nat
    decreases cs
  {
    if cs == [] then 0 else Size(cs[0]) + SizeAll(cs[1..])
  }

  function TotalSize(work: seq<Entry>): nat
  {
    if work == [] then 0 else Size(work[0].item) + TotalSize(work[1..])
  }

  lemma {:induction false} TotalSizeAppend(a: seq<Entry>, b: seq<Entry>)
    ensures TotalSize(a + b) == TotalSize(a) + TotalSize(b)
  {
    if a != [] {
      assert (a + b)[1..] == a[1..] + b;
      TotalSizeAppend(a[1..], b);
    } else {
      assert a + b == b;
    }
  }

  // ---------------------------------------------------------------------
  // One step of the walk

  /** Every child, paired with the same frame offset, in child order. */
  function Enqueued(cs: seq<Component>, off: Offset): (es: seq<Entry>)
    ensures |es| == |cs|
    ensures forall i :: 0 <= i < |cs| ==> es[i] == Entry(cs[i], off)
  {
    seq(|cs|, i requires 0 <= i < |cs| => Entry(cs[i], off))
  }

  lemma {:induction false} EnqueuedSize(cs: seq<Component>, off: Offset)
    ensures TotalSize(Enqueued(cs, off)) == SizeAll(cs)
  {
    if cs != [] {
      assert Enqueued(cs, off)[1..] == Enqueued(cs[1..], off);
      EnqueuedSize(cs[1..], off);
    }
  }

  /** What popping `e` adds to the worklist: a container's children, each
      with the offset shifted by the container's position; nothing for any
      other component. */
  function Expand(e: Entry): seq<Entry>
  {
    match e.item
    case Widget(_, _, _) => []
    case Container(_, x, y, cs) => Enqueued(cs, Offset(e.offset.x + x, e.offset.y + y))
  }

  lemma ExpandSize(e: Entry)
    ensures TotalSize(Expand(e)) == Size(e.item) - 1
  {
    match e.item
    case Widget(_, _, _) =>
    case Container(_, x, y, cs) => EnqueuedSize(cs, Offset(e.offset.x + x, e.offset.y + y));
  }

  lemma StepShrinks(work: seq<Entry>)
    requires work != []
    ensures TotalSize(work[1..] + Expand(work[0])) < TotalSize(work)
  {
    TotalSizeAppend(work[1..], Expand(work[0]));
    ExpandSize(work[0]);
  }

  // ---------------------------------------------------------------------
  // The order of the walk, and an independent reference for its contents

  /** The entries in the order the worklist hands them out: take the oldest,
      queue what it expands to, repeat until the worklist is empty. */
  function Bfs(work: seq<Entry>): seq<Entry>
    decreases TotalSize(work)
  {
    if work == [] then []
    else
      StepShrinks(work);
      [work[0]] + Bfs(work[1..] + Expand(work[0]))
  }

  /** Reference: every node of the subtree of `c`, in pre-order, each with
      the sum of the positions of its proper container ancestors added to
      `off`. */
  function Placed(c: Component, off: Offset): seq<Entry>
    decreases c
  {
    match c
    case Widget(_, _, _) => [Entry(c, off)]
    case Container(_, x, y, cs) => [Entry(c, off)] + PlacedChildren(cs, Offset(off.x + x, off.y + y))
  }

  function PlacedChildren(cs: seq<Component>, off: Offset): seq<Entry>
    decreases cs
  {
    if cs == [] then [] else Placed(cs[0], off) + PlacedChildren(cs[1..], off)
  }

  /** Every subtree of a worklist, concatenated. */
  function PlacedAll(work: seq<Entry>): seq<Entry>
  {
    if work == [] then [] else Placed(work[0].item, work[0].offset) + PlacedAll(work[1..])
  }

  lemma {:induction false} PlacedAllAppend(a: seq<Entry>, b: seq<Entry>)
    ensures PlacedAll(a + b) == PlacedAll(a) + PlacedAll(b)
  {
    if a != [] {
      assert (a + b)[1..] == a[1..] + b;
      PlacedAllAppend(a[1..], b);
    } else {
      assert a + b == b;
    }
  }

  lemma {:induction false} PlacedAllEnqueued(cs: seq<Component>, off: Offset)
    ensures PlacedAll(Enqueued(cs, off)) == PlacedChildren(cs, off)
  {
    if cs != [] {
      assert Enqueued(cs, off)[1..] == Enqueued(cs[1..], off);
      PlacedAllEnqueued(cs[1..], off);
    }
  }

  /** A node's subtree is the node followed by the subtrees it expands to. */
  lemma PlacedUnfold(e: Entry)
    ensures Placed(e.item, e.offset) == [e] + PlacedAll(Expand(e))
  {
    match e.item
    case Widget(_, _, _) =>
    case Container(_, x, y, cs) => PlacedAllEnqueued(cs, Offset(e.offset.x + x, e.offset.y + y));
  }

  /** The walk hands out every node of every queued subtree exactly once, each
      with its accumulated offset: the same multiset of entries as the
      pre-order reference. */
  lemma {:induction false} BfsVisitsEveryNodeOnce(work: seq<Entry>)
    ensures multiset(Bfs(work)) == multiset(PlacedAll(work))
    decreases TotalSize(work)
  {
    if work != [] {
      var next := work[1..] + Expand(work[0]);
      StepShrinks(work);
      BfsVisitsEveryNodeOnce(next);
      PlacedAllAppend(work[1..], Expand(work[0]));
      PlacedUnfold(work[0]);
      calc {
        multiset(Bfs(work));
        multiset([work[0]]) + multiset(Bfs(next));
        multiset([work[0]]) + multiset(PlacedAll(work[1..])) + multiset(PlacedAll(Expand(work[0])));
        multiset(Placed(work[0].item, work[0].offset)) + multiset(PlacedAll(work[1..]));
        multiset(PlacedAll(work));
      }
    }
  }

  /** Breadth-first: the entries already queued come out before anything
      they expand to. */
  lemma {:induction false} BfsEmitsQueueFirst(work: seq<Entry>)
    ensures |work| <= |Bfs(work)| && Bfs(work)[..|work|] == work
    decreases TotalSize(work)
  {
    if work != [] {
      var next := work[1..] + Expand(work[0]);
      StepShrinks(work);
      BfsEmitsQueueFirst(next);
      assert Bfs(next)[..|work| - 1] == next[..|work| - 1] == work[1..];
      assert Bfs(work)[..|work|] == [work[0]] + Bfs(next)[..|work| - 1];
    }
  }

  /** Walking from one root: the root comes out first, immediately followed
      by its children, whose offset is the root's position. */
  lemma WalkStartsAtRoot(root: Component)
    ensures var walk := Bfs([Entry(root, Origin)]);
      && |walk| >= 1 && walk[0] == Entry(root, Origin)
      && (root.Container? ==>
            |walk| >= 1 + |root.components| &&
            walk[1..1 + |root.components|] == Enqueued(root.components, Offset(root.x, root.y)))
  {
    var work := [Entry(root, Origin)];
    var next := Expand(work[0]);
    assert work[1..] + Expand(work[0]) == next;
    StepShrinks(work);
    var walk := Bfs(work);
    assert walk == [work[0]] + Bfs(next);
    BfsEmitsQueueFirst(next);
    if root.Container? {
      assert Offset(0.0 + root.x, 0.0 + root.y) == Offset(root.x, root.y);
      assert walk[1..1 + |next|] == Bfs(next)[..|next|];
    }
  }

  /** Walking from one root hands out the nodes of its tree, each exactly
      once, with the offsets of the pre-order reference. */
  lemma WalkCoversTree(root: Component)
    ensures var walk := Bfs([Entry(root, Origin)]);
      && multiset(walk) == multiset(Placed(root, Origin))
      && |walk| == Size(root)
  {
    var work := [Entry(root, Origin)];
    BfsVisitsEveryNodeOnce(work);
    assert work[1..] == [];
    assert PlacedAll(work) == Placed(root, Origin) + PlacedAll([]);
    assert PlacedAll(work) == Placed(root, Origin);
    PlacedSize(root, Origin);
    var walk := Bfs(work);
    assert |multiset(walk)| == |walk|;
    assert |multiset(Placed(root, Origin))| == |Placed(root, Origin)|;
  }

  lemma {:induction false} PlacedSize(c: Component, off: Offset)
    ensures |Placed(c, off)| == Size(c)
    decreases c
  {
    match c
    case Widget(_, _, _) =>
    case Container(_, x, y, cs) => PlacedChildrenSize(cs, Offset(off.x + x, off.y + y));
  }

  lemma {:induction false} PlacedChildrenSize(cs: seq<Component>, off: Offset)
    ensures |PlacedChildren(cs, off)| == SizeAll(cs)
    decreases cs
  {
    if cs != [] {
      PlacedSize(cs[0], off);
      PlacedChildrenSize(cs[1..], off);
    }
  }

  // ---------------------------------------------------------------------
  // Level order

  /** Everything the entries of a worklist expand to, in worklist order: the
      next generation of the walk. */
  function ExpandAll(work: seq<Entry>): seq<Entry>
  {
    if work == [] then [] else Expand(work[0]) + ExpandAll(work[1..])
  }

  lemma {:induction false} ExpandAllAppend(a: seq<Entry>, b: seq<Entry>)
    ensures ExpandAll(a + b) == ExpandAll(a) + ExpandAll(b)
  {
    if a != [] {
      assert (a + b)[1..] == a[1..] + b;
      ExpandAllAppend(a[1..], b);
    } else {
      assert a + b == b;
    }
  }

  /** Bfs unrolled once, at a worklist whose head and successor are given. */
  lemma BfsPop(w: seq<Entry>, x: Entry, n: seq<Entry>)
    requires w != [] && w[0] == x && w[1..] + Expand(x) == n
    ensures Bfs(w) == [x] + Bfs(n)
  {
    BfsStep(w);
  }

  lemma PopRegroup(a: seq<Entry>, b: seq<Entry>)
    requires a != []
    ensures (a + b)[0] == a[0]
    ensures (a + b)[1..] + Expand(a[0]) == a[1..] + (b + Expand(a[0]))
  {
    assert (a + b)[1..] == a[1..] + b;
  }

  lemma ExpandAllRegroup(a: seq<Entry>, b: seq<Entry>)
    requires a != []
    ensures (b + Expand(a[0])) + ExpandAll(a[1..]) == b + ExpandAll(a)
  {
    AppendAssoc(b, Expand(a[0]), ExpandAll(a[1..]));
  }

  lemma AppendAssoc(p: seq<Entry>, q: seq<Entry>, r: seq<Entry>)
    ensures (p + q) + r == p + (q + r)
  {
  }

  lemma ConsRegroup(x: Entry, t: seq<Entry>, r: seq<Entry>, a: seq<Entry>)
    requires a == [x] + t
    ensures [x] + (t + r) == a + r
  {
  }

  /** The walk hands out the queued entries `a` before anything they expand
      to, and queues their expansions, in order, behind what else was
      waiting. */
  lemma {:induction false} BfsByGeneration(a: seq<Entry>, b: seq<Entry>, w: seq<Entry>, v: seq<Entry>)
    requires w == a + b && v == b + ExpandAll(a)
    ensures Bfs(w) == a + Bfs(v)
    decreases |a|
  {
    if a == [] {
      assert w == b;
      assert v == b;
    } else {
      var rest := b + Expand(a[0]);
      var n := a[1..] + rest;
      PopRegroup(a, b);
      BfsPop(w, a[0], n);
      ExpandAllRegroup(a, b);
      BfsByGeneration(a[1..], rest, n, v);
      ConsRegroup(a[0], a[1..], Bfs(v), a);
    }
  }

  /** Reference: the nodes of the subtree of `c` that lie `d` levels below
      it, in pre-order, each with its accumulated offset. */
  function Level(c: Component, off: Offset, d: nat): seq<Entry>
    decreases c
  {
    if d == 0 then [Entry(c, off)]
    else match c
      case Widget(_, _, _) => []
      case Container(_, x, y, cs) => LevelChildren(cs, Offset(off.x + x, off.y + y), d - 1)
  }

  function LevelChildren(cs: seq<Component>, off: Offset, d: nat): seq<Entry>
    decreases cs
  {
    if cs == [] then [] else Level(cs[0], off, d) + LevelChildren(cs[1..], off, d)
  }

  /** Levels `d` up to `n - 1` of the subtree of `c`, one after the other. */
  function Levels(c: Component, off: Offset, d: nat, n: nat): seq<Entry>
    decreases n - d
  {
    if d >= n then [] else Level(c, off, d) + Levels(c, off, d + 1, n)
  }

  lemma {:induction false} LevelChildrenZero(cs: seq<Component>, off: Offset)
    ensures LevelChildren(cs, off, 0) == Enqueued(cs, off)
    decreases cs
  {
    if cs != [] {
      LevelChildrenZero(cs[1..], off);
      assert Enqueued(cs, off) == [Entry(cs[0], off)] + Enqueued(cs[1..], off);
    }
  }

  /** Expanding one level of a subtree gives the level below it. */
  lemma {:induction false} ExpandLevel(c: Component, off: Offset, d: nat)
    ensures ExpandAll(Level(c, off, d)) == Level(c, off, d + 1)
    decreases c
  {
    if d == 0 {
      assert ExpandAll([Entry(c, off)]) == Expand(Entry(c, off)) + ExpandAll([]);
      match c
      case Widget(_, _, _) =>
      case Container(_, x, y, cs) => LevelChildrenZero(cs, Offset(off.x + x, off.y + y));
    } else {
      match c
      case Widget(_, _, _) =>
      case Container(_, x, y, cs) => ExpandLevelChildren(cs, Offset(off.x + x, off.y + y), d - 1);
    }
  }

  lemma {:induction false} ExpandLevelChildren(cs: seq<Component>, off: Offset, d: nat)
    ensures ExpandAll(LevelChildren(cs, off, d)) == LevelChildren(cs, off, d + 1)
    decreases cs
  {
    if cs != [] {
      ExpandAllAppend(Level(cs[0], off, d), LevelChildren(cs[1..], off, d));
      ExpandLevel(cs[0], off, d);
      ExpandLevelChildren(cs[1..], off, d);
    }
  }

  /** A tree of `n` nodes has nothing at depth `n` or below. */
  lemma {:induction false} LevelBeyondSize(c: Component, off: Offset, d: nat)
    requires d >= Size(c)
    ensures Level(c, off, d) == []
    decreases c
  {
    match c
    case Widget(_, _, _) =>
    case Container(_, x, y, cs) => LevelChildrenBeyondSize(cs, Offset(off.x + x, off.y + y), d - 1);
  }

  lemma {:induction false} LevelChildrenBeyondSize(cs: seq<Component>, off: Offset, d: nat)
    requires d >= SizeAll(cs)
    ensures LevelChildren(cs, off, d) == []
    decreases cs
  {
    if cs != [] {
      LevelBeyondSize(cs[0], off, d);
      LevelChildrenBeyondSize(cs[1..], off, d);
    }
  }

  lemma {:induction false} BfsFromLevel(c: Component, off: Offset, d: nat)
    requires d <= Size(c)
    ensures Bfs(Level(c, off, d)) == Levels(c, off, d, Size(c))
    decreases Size(c) - d
  {
    if d == Size(c) {
      LevelBeyondSize(c, off, d);
    } else {
      var g := Level(c, off, d);
      assert g == g + [];
      assert ExpandAll(g) == [] + ExpandAll(g);
      BfsByGeneration(g, [], g, ExpandAll(g));
      ExpandLevel(c, off, d);
      BfsFromLevel(c, off, d + 1);
    }
  }

  /** Breadth first: the walk from a root hands out the whole tree level by
      level, each level in pre-order, so every node at depth `d` comes out
      before any node at depth `d + 1`. */
  lemma WalkIsLevelOrder(root: Component)
    ensures Bfs([Entry(root, Origin)]) == Levels(root, Origin, 0, Size(root))
  {
    BfsFromLevel(root, Origin, 0);
  }

  // ---------------------------------------------------------------------
  // get_nested_components

  /** Bfs unrolled once. */
  lemma BfsStep(work: seq<Entry>)
    requires work != []
    ensures TotalSize(work[1..] + Expand(work[0])) < TotalSize(work)
    ensures Bfs(work) == [work[0]] + Bfs(work[1..] + Expand(work[0]))
  {
    StepShrinks(work);
  }

  /** One pop-and-queue step keeps "popped so far, then the walk of what is
      queued" equal to the whole walk, and shrinks what is left. */
  lemma WalkAdvances(visited: seq<Entry>, before: seq<Entry>, walk: seq<Entry>)
    requires before != [] && visited + Bfs(before) == walk
    ensures (visited + [before[0]]) + Bfs(before[1..] + Expand(before[0])) == walk
    ensures TotalSize(before[1..] + Expand(before[0])) < TotalSize(before)
  {
    BfsStep(before);
    assert (visited + [before[0]]) + Bfs(before[1..] + Expand(before[0])) == visited + Bfs(before);
  }

  /** The body of the walk after a pop: a container's children are appended
      one by one, each with the container's position added to its offset. */
  method QueueChildren(worklist: Fifo<Entry>, e: Entry)
    requires worklist.Valid()
    modifies worklist
    ensures worklist.Valid()
    ensures worklist.Contents() == old(worklist.Contents()) + Expand(e)
  {
    if e.item.Container? {
      var newOffset := Offset(e.offset.x + e.item.x, e.offset.y + e.item.y);
      var cs := e.item.components;
      for i := 0 to |cs|
        invariant worklist.Valid()
        invariant worklist.Contents() == old(worklist.Contents()) + Enqueued(cs[..i], newOffset)
      {
        worklist.Append(Entry(cs[i], newOffset));
        assert Enqueued(cs[..i + 1], newOffset) == Enqueued(cs[..i], newOffset) + [Entry(cs[i], newOffset)];
      }
      assert cs[..|cs|] == cs;
    }
  }

  /** Runs the walk from `container` with the Fifo worklist, popping an entry,
      queueing a container's children with the shifted offset, and stopping
      once the worklist is empty.  As written it never adds anything to the
      list it returns, so the result is always empty; `visited` records the
      order in which entries were popped, which is level order. */
  method GetNestedComponents(container: Component) returns (components: seq<Entry>, ghost visited: seq<Entry>)
    ensures components == []
    ensures visited == Bfs([Entry(container, Origin)])
    ensures visited == Levels(container, Origin, 0, Size(container))
  {
    components := [];
    var worklist := new Fifo<Entry>();
    worklist.Append(Entry(container, Origin));
    visited := [];
    while true
      invariant worklist.Valid() && worklist.Contents() != []
      invariant visited + Bfs(worklist.Contents()) == Bfs([Entry(container, Origin)])
      invariant components == []
      decreases TotalSize(worklist.Contents())
    {
      ghost var before := worklist.Contents();
      var popped := worklist.Pop();
      var e := popped.value;
      QueueChildren(worklist, e);
      WalkAdvances(visited, before, Bfs([Entry(container, Origin)]));
      visited := visited + [e];
      if worklist.IsEmpty() {
        break;
      }
    }
    WalkIsLevelOrder(container);
  }

  /** The entries of `walk` whose component is not a container, in order. */
  function Leaves(walk: seq<Entry>): seq<Entry>
  {
    if walk == [] then []
    else if walk[0].item.Widget? then [walk[0]] + Leaves(walk[1..])
    else Leaves(walk[1..])
  }

  /** Leaves of the walk agree with leaves of any ordering of the same nodes. */
  lemma {:induction false} LeavesOfPermutation(a: seq<Entry>, b: seq<Entry>)
    requires multiset(a) == multiset(b)
    ensures multiset(Leaves(a)) == multiset(Leaves(b))
  {
    LeavesMultiset(a);
    LeavesMultiset(b);
  }

  /** The leaves of a sequence, as a multiset, are its widget entries. */
  lemma {:induction false} LeavesMultiset(walk: seq<Entry>)
    ensures forall e {:trigger multiset(Leaves(walk))[e]} ::
      multiset(Leaves(walk))[e] == if e.item.Widget? then multiset(walk)[e] else 0
  {
    if walk != [] {
      LeavesMultiset(walk[1..]);
      assert walk == [walk[0]] + walk[1..];
    }
  }

  /** The list the docstring of get_nested_components describes: every
      non-container component, in walk order, with the frame offset of its
      container relative to the top-level container. */
  method GetNestedComponentsIntended(container: Component) returns (components: seq<Entry>)
    ensures components == Leaves(Bfs([Entry(container, Origin)]))
    ensures multiset(components) == multiset(Leaves(Placed(container, Origin)))
  {
    components := [];
    var worklist := new Fifo<Entry>();
    worklist.Append(Entry(container, Origin));
    ghost var visited: seq<Entry> := [];
    while true
      invariant worklist.Valid() && worklist.Contents() != []
      invariant visited + Bfs(worklist.Contents()) == Bfs([Entry(container, Origin)])
      invariant components == Leaves(visited)
      decreases TotalSize(worklist.Contents())
    {
      ghost var before := worklist.Contents();
      var popped := worklist.Pop();
      var e := popped.value;
      QueueChildren(worklist, e);
      if !e.item.Container? {
        components := components + [e];
      }
      WalkAdvances(visited, before, Bfs([Entry(container, Origin)]));
      LeavesAppend(visited, e);
      visited := visited + [e];
      if worklist.IsEmpty() {
        break;
      }
    }
    assert visited == Bfs([Entry(container, Origin)]);
    WidgetsCovered(container);
  }

  /** The widgets of the walk are the widgets of the tree, each once, with
      the offsets of the pre-order reference. */
  lemma WidgetsCovered(root: Component)
    ensures multiset(Leaves(Bfs([Entry(root, Origin)]))) == multiset(Leaves(Placed(root, Origin)))
  {
    WalkCoversTree(root);
    LeavesOfPermutation(Bfs([Entry(root, Origin)]), Placed(root, Origin));
  }

  lemma {:induction false} LeavesAppend(walk: seq<Entry>, e: Entry)
    ensures Leaves(walk + [e]) == Leaves(walk) + (if e.item.Widget? then [e] else [])
  {
    if walk != [] {
      assert (walk + [e])[1..] == walk[1..] + [e];
      LeavesAppend(walk[1..], e);
    }
  }

  /** For a container at the origin holding one widget, the walk pops that
      widget with offset (0, 0), and it is the walk's only non-container
      entry. */
  lemma WalkPopsNestedWidget(w: Component)
    requires w.Widget?
    ensures Leaves(Bfs([Entry(Container(0, 0.0, 0.0, [w]), Origin)])) == [Entry(w, Origin)]
  {
    var root := Container(0, 0.0, 0.0, [w]);
    var e0 := Entry(root, Origin);
    var e1 := Entry(w, Offset(0.0 + 0.0, 0.0 + 0.0));
    assert Expand(e0) == [e1];
    assert Expand(e1) == [];
    StepShrinks([e0]);
    StepShrinks([e1]);
    assert [e0][1..] + Expand(e0) == [e1];
    assert [e1][1..] + Expand(e1) == [];
    assert Bfs([e1]) == [e1];
    assert Bfs([e0]) == [e0, e1];
    assert [e0, e1][1..] == [e1];
    assert [e1][1..] == [];
    assert Leaves([e0, e1]) == Leaves([e1]) == [e1];
    assert e1 == Entry(w, Origin);
  }
}
