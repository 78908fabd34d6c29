/**
 * The editor's automatic layout (handleAutoLayout in frontend/src/pages/EditorPage.tsx and
 * frontend/src/App.tsx): a breadth-first walk from the first root node that places each node
 * it reaches one column (300) to the right of the node it was reached from, fanning siblings
 * out vertically 100 apart around the parent; nodes it never reaches keep their positions and
 * come last. The two pages differ only in which node types count as a root.
 */
module Layout {
  import opened Wrappers
  import opened Seqs
  import opened Graph

  const HorizontalSpacing: int := 300
  const VerticalSpacing: int := 100
  const StartX: int := 50
  const StartY: int := 250

  /** An entry of the walk's queue: a node id and the position it is to get. */
  datatype QueueItem = QueueItem(nodeId: string, x: int, y: int)

  /** The root: the first node whose type is one of `rootTypes`. */
  function Root(nodes: seq<Node>, rootTypes: set<string>): (r: Option<Node>)
    ensures r.None? <==> forall i :: 0 <= i < |nodes| ==> nodes[i].nodeType !in rootTypes
    ensures r.Some? ==> r.value in nodes && r.value.nodeType in rootTypes
    ensures r.Some? ==> r.value == nodes[FirstIndex(nodes, (n: Node) => n.nodeType in rootTypes)]
  {
    First(nodes, (n: Node) => n.nodeType in rootTypes)
  }

  /** The node lookup table of the walk; of several nodes with one id, the last one is kept. */
  function NodeMap(nodes: seq<Node>): (m: map<string, Node>)
    ensures forall id :: id in m <==> id in IdSet(nodes)
    ensures forall id :: id in m ==> m[id] in nodes && m[id].id == id
  {
    if nodes == [] then map[]
    else
      var last := nodes[|nodes| - 1];
      var init := nodes[..|nodes| - 1];
      assert IdSet(nodes) == IdSet(init) + {last.id} by {
        assert forall n :: n in nodes <==> n in init || n == last;
      }
      NodeMap(init)[last.id := last]
  }

  /** With unique ids the table holds every node under its own id. */
  lemma NodeMapUnique(nodes: seq<Node>)
    requires UniqueIds(nodes)
    ensures forall i :: 0 <= i < |nodes| ==> NodeMap(nodes)[nodes[i].id] == nodes[i]
  {
    var m := NodeMap(nodes);
    forall i | 0 <= i < |nodes|
      ensures m[nodes[i].id] == nodes[i]
    {
      assert nodes[i].id in IdSet(nodes);
    }
  }

  /**
   * `childCount > 1 ? (idx - (childCount - 1) / 2) * VERTICAL_SPACING : 0`, computed in
   * integers: the offset is always a whole multiple of 50.
   */
  function ChildOffset(idx: int, k: int): (r: int)
    ensures k > 1 ==> r as real == (idx as real - (k - 1) as real / 2.0) * VerticalSpacing as real
    ensures k <= 1 ==> r == 0
    ensures r % 50 == 0
  {
    if k > 1 then 50 * (2 * idx - (k - 1)) else 0
  }

  /** Siblings are spread symmetrically around their parent. */
  lemma ChildOffsetSymmetric(idx: int, k: int)
    requires 0 <= idx < k
    ensures ChildOffset(k - 1 - idx, k) == -ChildOffset(idx, k)
  {
  }

  /** The coordinates the walk can produce: columns 300 apart from x = 50, rows 50 apart around y = 250. */
  predicate OnGrid(x: int, y: int) {
    x >= StartX && (x - StartX) % HorizontalSpacing == 0 && (y - StartY) % 50 == 0
  }

  /** `edges.filter(e => e.source === src)`. */
  function EdgesFrom(edges: seq<Edge>, src: string): (r: seq<Edge>)
    ensures forall e :: e in r <==> e in edges && e.source == src
  {
    Filter(edges, (e: Edge) => e.source == src)
  }

  /**
   * The edges out of `src` keep their stored order, which fixes each child's offset index, and
   * every such edge occurs as often as in `edges`.
   */
  lemma EdgesFromInOrder(edges: seq<Edge>, src: string)
    ensures IsSubsequence(EdgesFrom(edges, src), edges)
    ensures forall e :: multiset(EdgesFrom(edges, src))[e] == if e.source == src then multiset(edges)[e] else 0
  {
    FilterIsSubsequence(edges, (e: Edge) => e.source == src);
    FilterCount(edges, (e: Edge) => e.source == src);
  }

  /** The ids of the queued entries. */
  function ItemIds(items: seq<QueueItem>): set<string> {
    set q | q in items :: q.nodeId
  }

  /**
   * The entries the walk queues for the first `n` edges out of a node placed at (x, y), of
   * `out` edges in all: one for each edge whose target is not yet visited.
   */
  function ChildItems(out: seq<Edge>, n: nat, visited: set<string>, x: int, y: int): seq<QueueItem>
    requires n <= |out|
  {
    if n == 0 then []
    else
      var e := out[n - 1];
      var init := ChildItems(out, n - 1, visited, x, y);
      if e.target !in visited then init + [QueueItem(e.target, x + HorizontalSpacing, y + ChildOffset(n - 1, |out|))]
      else init
  }

  /**
   * Each queued entry stands for one of the edges, 300 to the right of the parent and at the
   * edge's vertical offset; and every edge's target is either visited already or queued.
   */
  lemma ChildItemsSpec(out: seq<Edge>, n: nat, visited: set<string>, x: int, y: int)
    requires n <= |out|
    ensures var r := ChildItems(out, n, visited, x, y);
      && (forall q :: q in r ==>
            exists idx :: 0 <= idx < n && out[idx].target == q.nodeId && q.x == x + HorizontalSpacing && q.y == y + ChildOffset(idx, |out|))
      && (forall idx :: 0 <= idx < n ==> out[idx].target in visited || out[idx].target in ItemIds(r))
  {
    ChildItemsFrom(out, n, visited, x, y);
    ChildItemsCover(out, n, visited, x, y);
  }

  /** Each queued entry stands for one of the first `n` edges, at its offset. */
  lemma {:induction false} ChildItemsFrom(out: seq<Edge>, n: nat, visited: set<string>, x: int, y: int)
    requires n <= |out|
    ensures forall q :: q in ChildItems(out, n, visited, x, y) ==>
      exists idx :: 0 <= idx < n && out[idx].target == q.nodeId && q.x == x + HorizontalSpacing && q.y == y + ChildOffset(idx, |out|)
  {
    if n > 0 {
      ChildItemsFrom(out, n - 1, visited, x, y);
      var init := ChildItems(out, n - 1, visited, x, y);
      if out[n - 1].target !in visited {
        var q := QueueItem(out[n - 1].target, x + HorizontalSpacing, y + ChildOffset(n - 1, |out|));
        assert forall q' :: q' in init + [q] ==> q' in init || q' == q;
      }
    }
  }

  /** The target of each of the first `n` edges is visited or queued. */
  lemma {:induction false} ChildItemsCover(out: seq<Edge>, n: nat, visited: set<string>, x: int, y: int)
    requires n <= |out|
    ensures forall idx :: 0 <= idx < n ==> out[idx].target in visited || out[idx].target in ItemIds(ChildItems(out, n, visited, x, y))
  {
    if n > 0 {
      ChildItemsCover(out, n - 1, visited, x, y);
      var init := ChildItems(out, n - 1, visited, x, y);
      var r := ChildItems(out, n, visited, x, y);
      assert forall q :: q in init ==> q in r;
      if out[n - 1].target !in visited {
        assert r[|r| - 1].nodeId == out[n - 1].target;
      }
    }
  }

  /** The nodes whose ids were not visited, in their original order and with their own positions. */
  function Unvisited(nodes: seq<Node>, visited: set<string>): (r: seq<Node>)
    ensures forall n :: n in r <==> n in nodes && n.id !in visited
  {
    if nodes == [] then []
    else
      var last := nodes[|nodes| - 1];
      var init := nodes[..|nodes| - 1];
      assert forall n :: n in nodes <==> n in init || n == last;
      Unvisited(init, visited) + (if last.id !in visited then [last] else [])
  }

  /** The unreached nodes keep their original order, each as often as in `nodes`. */
  lemma UnvisitedInOrder(nodes: seq<Node>, visited: set<string>)
    ensures IsSubsequence(Unvisited(nodes, visited), nodes)
    ensures forall n :: multiset(Unvisited(nodes, visited))[n] == if n.id !in visited then multiset(nodes)[n] else 0
  {
    UnvisitedSubsequence(nodes, visited);
    UnvisitedMultiplicity(nodes, visited);
  }

  lemma {:induction false} UnvisitedSubsequence(nodes: seq<Node>, visited: set<string>)
    ensures IsSubsequence(Unvisited(nodes, visited), nodes)
  {
    if nodes != [] {
      var last := nodes[|nodes| - 1];
      var init := nodes[..|nodes| - 1];
      UnvisitedSubsequence(init, visited);
      assert nodes == init + [last];
      var rest := Unvisited(init, visited);
      if last.id !in visited {
        assert Unvisited(nodes, visited) == rest + [last];
        SubsequenceSnoc(rest, init, last);
      } else {
        assert Unvisited(nodes, visited) == rest;
        SubsequenceDropLast(rest, nodes);
      }
    }
  }

  lemma {:induction false} UnvisitedMultiplicity(nodes: seq<Node>, visited: set<string>)
    ensures forall n :: multiset(Unvisited(nodes, visited))[n] == if n.id !in visited then multiset(nodes)[n] else 0
  {
    if nodes != [] {
      var last := nodes[|nodes| - 1];
      var init := nodes[..|nodes| - 1];
      UnvisitedMultiplicity(init, visited);
      assert nodes == init + [last];
      assert multiset(nodes) == multiset(init) + multiset{last};
      assert Unvisited(nodes, visited) == Unvisited(init, visited) + (if last.id !in visited then [last] else []);
    }
  }


  lemma {:induction false} UnvisitedCongruent(nodes: seq<Node>, v1: set<string>, v2: set<string>)
    requires forall n :: n in nodes ==> (n.id in v1 <==> n.id in v2)
    ensures Unvisited(nodes, v1) == Unvisited(nodes, v2)
  {
    if nodes != [] {
      UnvisitedCongruent(nodes[..|nodes| - 1], v1, v2);
    }
  }

  /** With unique ids, exactly the nodes whose ids are in `s` are dropped. */
  lemma {:induction false} UnvisitedCount(nodes: seq<Node>, s: set<string>)
    requires UniqueIds(nodes)
    ensures |Unvisited(nodes, s)| + |s * IdSet(nodes)| == |nodes|
  {
    if nodes != [] {
      var last := nodes[|nodes| - 1];
      var init := nodes[..|nodes| - 1];
      assert UniqueIds(init) by {
        forall i, j | 0 <= i < j < |init| ensures init[i].id != init[j].id {
          assert init[i] == nodes[i] && init[j] == nodes[j];
        }
      }
      UnvisitedCount(init, s);
      assert |Unvisited(nodes, s)| == |Unvisited(init, s)| + (if last.id !in s then 1 else 0);
      IdSetSnoc(nodes);
      MeetSnocSize(s, IdSet(init), last.id);
    }
  }

  /** Adding a fresh element to `a` grows `s * a` by one exactly when the element is in `s`. */
  lemma MeetSnocSize(s: set<string>, a: set<string>, x: string)
    requires x !in a
    ensures |s * (a + {x})| == |s * a| + (if x in s then 1 else 0)
  {
    if x in s {
      assert s * (a + {x}) == (s * a) + {x};
    } else {
      assert s * (a + {x}) == s * a;
    }
  }

  /** Nodes with pairwise different ids have as many ids as elements. */
  lemma {:induction false} UniqueIdSetSize(nodes: seq<Node>)
    requires UniqueIds(nodes)
    ensures |IdSet(nodes)| == |nodes|
  {
    if nodes != [] {
      var last := nodes[|nodes| - 1];
      var init := nodes[..|nodes| - 1];
      UniqueIdSetSize(init);
      IdSetSnoc(nodes);
    }
  }

  /** The ids of a sequence grow by the id of its last element, which is new when ids are unique. */
  lemma IdSetSnoc(nodes: seq<Node>)
    requires nodes != []
    ensures IdSet(nodes) == IdSet(nodes[..|nodes| - 1]) + {nodes[|nodes| - 1].id}
    ensures UniqueIds(nodes) ==> nodes[|nodes| - 1].id !in IdSet(nodes[..|nodes| - 1])
  {
    var init := nodes[..|nodes| - 1];
    assert forall n :: n in nodes <==> n in init || n == nodes[|nodes| - 1];
  }

  // ---------------------------------------------------------------------------------------
  // Breadth-first order, stated on the laid-out sequence alone.

  /** The index, among the edges out of `src`, of the first edge to `t`; their number when none leads there. */
  function EdgeIndex(edges: seq<Edge>, src: string, t: string): (k: nat)
    ensures k <= |EdgesFrom(edges, src)|
    ensures forall idx :: 0 <= idx < k ==> EdgesFrom(edges, src)[idx].target != t
    ensures k < |EdgesFrom(edges, src)| ==> EdgesFrom(edges, src)[k].target == t
  {
    FirstIndex(EdgesFrom(edges, src), (e: Edge) => e.target == t)
  }

  /** Some edge leads from `src` to `t`. */
  predicate HasEdge(edges: seq<Edge>, src: string, t: string) {
    EdgeIndex(edges, src, t) < |EdgesFrom(edges, src)|
  }

  /** The index of the first node of `prefix` with an edge to `t`; |prefix| when none has one. */
  function FirstParent(prefix: seq<Node>, edges: seq<Edge>, t: string): (k: nat)
    ensures k <= |prefix|
    ensures forall j :: 0 <= j < k ==> !HasEdge(edges, prefix[j].id, t)
    ensures k < |prefix| ==> HasEdge(edges, prefix[k].id, t)
  {
    FirstIndex(prefix, (n: Node) => HasEdge(edges, n.id, t))
  }

  /** The parent of the `i`th laid-out node: the first node laid out before it with an edge to it. */
  function ParentIndex(laid: seq<Node>, edges: seq<Edge>, i: nat): nat
    requires i < |laid|
  {
    FirstParent(laid[..i], edges, laid[i].id)
  }

  /** Where an entry comes from: the `idx`th edge out of the `parent`th laid-out node. */
  datatype Origin = Origin(parent: int, idx: int)

  /** Origins are ordered by parent, then by edge index. */
  predicate Before(a: Origin, b: Origin) {
    a.parent < b.parent || (a.parent == b.parent && a.idx < b.idx)
  }

  /** The origin of the `i`th laid-out node: its parent and the parent's first edge to it. */
  function Key(laid: seq<Node>, edges: seq<Edge>, i: nat): Origin
    requires i < |laid|
  {
    var j := ParentIndex(laid, edges, i);
    Origin(j, if j < i then EdgeIndex(edges, laid[j].id, laid[i].id) else 0)
  }

  /** Where the walk puts the target of the `idx`th edge out of `parent`. */
  function ChildPosition(parent: Node, edges: seq<Edge>, idx: int): Position {
    Position(parent.position.x + HorizontalSpacing, parent.position.y + ChildOffset(idx, |EdgesFrom(edges, parent.id)|))
  }

  /**
   * Breadth-first order: every node after the first has a parent laid out before it and sits
   * where the parent's first edge to it puts it; and the nodes come in the order of their
   * origins, the order in which the first-in, first-out queue received them.
   */
  predicate BfsOrdered(laid: seq<Node>, edges: seq<Edge>) {
    && (forall i :: 1 <= i < |laid| ==>
          && ParentIndex(laid, edges, i) < i
          && laid[i].position == ChildPosition(laid[ParentIndex(laid, edges, i)], edges, Key(laid, edges, i).idx))
    && (forall i, i' :: 1 <= i < i' < |laid| ==> Before(Key(laid, edges, i), Key(laid, edges, i')))
  }

  /** Laying out one more node leaves the parents and origins of the earlier ones as they were. */
  lemma KeyStable(laid: seq<Node>, n: Node, edges: seq<Edge>, i: nat)
    requires i < |laid|
    ensures ParentIndex(laid + [n], edges, i) == ParentIndex(laid, edges, i)
    ensures Key(laid + [n], edges, i) == Key(laid, edges, i)
  {
    assert (laid + [n])[..i] == laid[..i];
    assert (laid + [n])[i] == laid[i];
    assert (laid + [n])[ParentIndex(laid, edges, i)] == laid[ParentIndex(laid, edges, i)];
  }

  // ---------------------------------------------------------------------------------------
  // The walk.

  /** Every id the walk can ever visit: the root and the edge targets. */
  function Universe(rootId: string, edges: seq<Edge>): set<string> {
    {rootId} + set e | e in edges :: e.target
  }

  /** Each laid-out node is the table's node under its id, moved onto the grid. */
  predicate LaidOut(nodeMap: map<string, Node>, laid: seq<Node>) {
    forall i :: 0 <= i < |laid| ==>
      laid[i].id in nodeMap && laid[i] == nodeMap[laid[i].id].(position := laid[i].position)
      && OnGrid(laid[i].position.x, laid[i].position.y)
  }

  /** Queued entries are on the grid and name ids of the universe. */
  predicate QueueOk(edges: seq<Edge>, root: Node, queue: seq<QueueItem>) {
    forall q :: q in queue ==> q.nodeId in Universe(root.id, edges) && OnGrid(q.x, q.y)
  }

  /**
   * Laid-out nodes come from the table, have distinct ids, which are exactly the visited ids
   * that have a node, and the first of them is the root at the start position.
   */
  predicate LaidOk(nodeMap: map<string, Node>, root: Node, visited: set<string>, laid: seq<Node>) {
    && root.id in nodeMap
    && LaidOut(nodeMap, laid) && UniqueIds(laid)
    && (forall i :: 0 <= i < |laid| ==> laid[i].id in visited)
    && (forall id :: id in visited && id in nodeMap ==> id in IdSet(laid))
    && (laid != [] ==> laid[0] == nodeMap[root.id].(position := Position(StartX, StartY)))
  }

  /** Every edge out of a laid-out node leads to a visited or a queued id. */
  predicate ClosedOk(edges: seq<Edge>, queue: seq<QueueItem>, visited: set<string>, laid: seq<Node>) {
    forall i, e :: 0 <= i < |laid| && e in edges && e.source == laid[i].id ==>
      e.target in visited || e.target in ItemIds(queue)
  }

  /** Every entry of the table is filed under its own id. */
  predicate KeyedById(nodeMap: map<string, Node>) {
    forall id :: id in nodeMap ==> nodeMap[id].id == id
  }

  /** The entry `q` is the one the `o.idx`th edge out of the `o.parent`th laid-out node queues. */
  predicate EntryFrom(laid: seq<Node>, edges: seq<Edge>, q: QueueItem, o: Origin) {
    && 0 <= o.parent < |laid|
    && 0 <= o.idx < |EdgesFrom(edges, laid[o.parent].id)|
    && q.nodeId == EdgesFrom(edges, laid[o.parent].id)[o.idx].target
    && Position(q.x, q.y) == ChildPosition(laid[o.parent], edges, o.idx)
  }

  /** Once a node is laid out, every queued entry is the one its origin queues. */
  predicate EntriesFrom(edges: seq<Edge>, queue: seq<QueueItem>, origins: seq<Origin>, laid: seq<Node>)
    requires |origins| == |queue|
  {
    laid != [] ==> forall k :: 0 <= k < |queue| ==> EntryFrom(laid, edges, queue[k], origins[k])
  }

  /** The origins increase along the queue. */
  predicate OriginsSorted(origins: seq<Origin>) {
    forall k, k' :: 0 <= k < k' < |origins| ==> Before(origins[k], origins[k'])
  }

  /** Every queued origin comes after the origin of every laid-out node. */
  predicate AfterLaid(edges: seq<Edge>, origins: seq<Origin>, laid: seq<Node>) {
    forall k, i :: 0 <= k < |origins| && 1 <= i < |laid| ==> Before(Key(laid, edges, i), origins[k])
  }

  /** An edge out of a laid-out node to an id not yet visited still has its entry in the queue. */
  predicate Pending(edges: seq<Edge>, origins: seq<Origin>, visited: set<string>, laid: seq<Node>) {
    forall j, idx ::
      (0 <= j < |laid| && 0 <= idx < |EdgesFrom(edges, laid[j].id)| && EdgesFrom(edges, laid[j].id)[idx].target !in visited)
      ==> Origin(j, idx) in origins
  }

  /** What the ghost origins of the queued entries satisfy. */
  predicate OriginsOk(edges: seq<Edge>, queue: seq<QueueItem>, origins: seq<Origin>, visited: set<string>, laid: seq<Node>) {
    && |origins| == |queue|
    && EntriesFrom(edges, queue, origins, laid)
    && OriginsSorted(origins)
    && AfterLaid(edges, origins, laid)
    && Pending(edges, origins, visited, laid)
  }

  /** What holds of the walk's state between two steps; `origins` says where each queued entry comes from. */
  predicate WalkInv(nodeMap: map<string, Node>, edges: seq<Edge>, root: Node,
                    queue: seq<QueueItem>, origins: seq<Origin>, visited: set<string>, laid: seq<Node>)
  {
    && KeyedById(nodeMap)
    && visited <= Universe(root.id, edges)
    && (laid == [] ==> queue == [QueueItem(root.id, StartX, StartY)] && visited == {})
    && QueueOk(edges, root, queue)
    && LaidOk(nodeMap, root, visited, laid)
    && BfsOrdered(laid, edges)
    && OriginsOk(edges, queue, origins, visited, laid)
    && ClosedOk(edges, queue, visited, laid)
  }

  lemma ItemIdsShift(queue: seq<QueueItem>)
    requires queue != []
    ensures ItemIds(queue) == ItemIds(queue[1..]) + {queue[0].nodeId}
  {
    assert forall q :: q in queue <==> q in queue[1..] || q == queue[0];
  }

  lemma ItemIdsAppend(a: seq<QueueItem>, b: seq<QueueItem>)
    ensures ItemIds(a + b) == ItemIds(a) + ItemIds(b)
  {
    assert forall q :: q in a + b <==> q in a || q in b;
  }

  /** A dequeued entry that is visited already, or has no node, is dropped. */
  lemma StepSkip(nodeMap: map<string, Node>, edges: seq<Edge>, root: Node,
                 queue: seq<QueueItem>, origins: seq<Origin>, visited: set<string>, laid: seq<Node>)
    requires WalkInv(nodeMap, edges, root, queue, origins, visited, laid) && queue != []
    requires queue[0].nodeId in visited || queue[0].nodeId !in nodeMap
    ensures WalkInv(nodeMap, edges, root, queue[1..], origins[1..], visited + {queue[0].nodeId}, laid)
  {
    SkipQueue(edges, root, queue, visited, laid);
    SkipLaid(nodeMap, root, visited, laid, queue[0].nodeId);
    SkipOrigins(edges, queue, origins, visited, laid);
  }

  /** Dropping the head entry keeps the queue on the grid and every edge covered. */
  lemma SkipQueue(edges: seq<Edge>, root: Node, queue: seq<QueueItem>, visited: set<string>, laid: seq<Node>)
    requires QueueOk(edges, root, queue) && ClosedOk(edges, queue, visited, laid) && queue != []
    ensures QueueOk(edges, root, queue[1..]) && ClosedOk(edges, queue[1..], visited + {queue[0].nodeId}, laid)
  {
    ItemIdsShift(queue);
    assert forall q :: q in queue[1..] ==> q in queue;
  }

  /** Marking visited an id that is visited already, or has no node, leaves the laid-out part as it was. */
  lemma SkipLaid(nodeMap: map<string, Node>, root: Node, visited: set<string>, laid: seq<Node>, id: string)
    requires LaidOk(nodeMap, root, visited, laid) && (id in visited || id !in nodeMap)
    ensures LaidOk(nodeMap, root, visited + {id}, laid)
  {
  }

  /** Dropping the head entry keeps the origins' invariant once its id is visited. */
  lemma SkipOrigins(edges: seq<Edge>, queue: seq<QueueItem>, origins: seq<Origin>, visited: set<string>, laid: seq<Node>)
    requires OriginsOk(edges, queue, origins, visited, laid) && queue != []
    ensures OriginsOk(edges, queue[1..], origins[1..], visited + {queue[0].nodeId}, laid)
  {
    var visited' := visited + {queue[0].nodeId};
    assert laid != [] ==> EntryFrom(laid, edges, queue[0], origins[0]);
    forall j, idx | 0 <= j < |laid| && 0 <= idx < |EdgesFrom(edges, laid[j].id)|
      && EdgesFrom(edges, laid[j].id)[idx].target !in visited'
      ensures Origin(j, idx) in origins[1..]
    {
      var k :| 0 <= k < |origins| && origins[k] == Origin(j, idx);
      assert k != 0;
      assert origins[k] == origins[1..][k - 1];
    }
  }

  /** The grid is closed under the step from a parent to a child. */
  lemma GridStep(x: int, y: int, off: int)
    requires OnGrid(x, y) && off % 50 == 0
    ensures OnGrid(x + HorizontalSpacing, y + off)
  {
  }

  /** The entries queued for a node placed at (x, y) are edge targets, on the grid. */
  lemma PlaceQueue(edges: seq<Edge>, root: Node, queue: seq<QueueItem>, placed: Node, visited': set<string>)
    requires QueueOk(edges, root, queue) && queue != []
    requires OnGrid(placed.position.x, placed.position.y)
    ensures var out := EdgesFrom(edges, placed.id);
      QueueOk(edges, root, queue[1..] + ChildItems(out, |out|, visited', placed.position.x, placed.position.y))
  {
    var out := EdgesFrom(edges, placed.id);
    var children := ChildItems(out, |out|, visited', placed.position.x, placed.position.y);
    ChildItemsSpec(out, |out|, visited', placed.position.x, placed.position.y);
    forall q | q in queue[1..] + children
      ensures q.nodeId in Universe(root.id, edges) && OnGrid(q.x, q.y)
    {
      if q in children {
        var idx :| 0 <= idx < |out| && out[idx].target == q.nodeId && q.x == placed.position.x + HorizontalSpacing
          && q.y == placed.position.y + ChildOffset(idx, |out|);
        assert out[idx] in edges;
        GridStep(placed.position.x, placed.position.y, ChildOffset(idx, |out|));
      } else {
        assert q in queue;
      }
    }
  }

  /** The laid-out part grows by the dequeued node. */
  lemma PlaceLaid(nodeMap: map<string, Node>, root: Node, visited: set<string>, laid: seq<Node>, item: QueueItem)
    requires LaidOk(nodeMap, root, visited, laid) && KeyedById(nodeMap)
    requires item.nodeId !in visited && item.nodeId in nodeMap && OnGrid(item.x, item.y)
    requires laid == [] ==> item == QueueItem(root.id, StartX, StartY)
    ensures LaidOk(nodeMap, root, visited + {item.nodeId}, laid + [nodeMap[item.nodeId].(position := Position(item.x, item.y))])
  {
    var placed := nodeMap[item.nodeId].(position := Position(item.x, item.y));
    var laid' := laid + [placed];
    assert laid'[..|laid'| - 1] == laid;
    IdSetSnoc(laid');
    assert placed.id !in IdSet(laid);
    SnocUnique(laid, placed);
    assert LaidOut(nodeMap, laid');
  }

  /** Appending a node whose id is new keeps ids unique. */
  lemma SnocUnique(laid: seq<Node>, n: Node)
    requires UniqueIds(laid) && n.id !in IdSet(laid)
    ensures UniqueIds(laid + [n])
  {
    var laid' := laid + [n];
    forall i, j | 0 <= i < j < |laid'| ensures laid'[i].id != laid'[j].id {
      assert laid'[i] == laid[i];
      if j < |laid| {
        assert laid'[j] == laid[j];
      }
    }
  }

  /**
   * The node placed from the head entry has that entry's origin as its own: no earlier node, and
   * no earlier edge of its parent, leads to it, for the entry such an edge queued would be ahead.
   */
  lemma PlaceKey(edges: seq<Edge>, queue: seq<QueueItem>, origins: seq<Origin>, visited: set<string>, laid: seq<Node>, placed: Node)
    requires OriginsOk(edges, queue, origins, visited, laid) && laid != [] && queue != []
    requires placed.id == queue[0].nodeId && placed.id !in visited
    ensures ParentIndex(laid + [placed], edges, |laid|) == origins[0].parent
    ensures Key(laid + [placed], edges, |laid|) == origins[0]
  {
    var laid' := laid + [placed];
    var i := |laid|;
    var o := origins[0];
    assert EntryFrom(laid, edges, queue[0], o);
    assert laid'[..i] == laid && laid'[i] == placed;
    var p := ParentIndex(laid', edges, i);
    assert HasEdge(edges, laid[o.parent].id, placed.id);
    if p < o.parent {
      assert false;
    }
    if EdgeIndex(edges, laid[o.parent].id, placed.id) < o.idx {
      assert false;
    }
  }

  /** Placing the head entry's node keeps the walk in breadth-first order. */
  lemma PlaceOrdered(edges: seq<Edge>, queue: seq<QueueItem>, origins: seq<Origin>, visited: set<string>, laid: seq<Node>, placed: Node)
    requires BfsOrdered(laid, edges) && OriginsOk(edges, queue, origins, visited, laid) && queue != []
    requires placed.id == queue[0].nodeId && placed.id !in visited
    requires placed.position == Position(queue[0].x, queue[0].y)
    ensures BfsOrdered(laid + [placed], edges)
  {
    var laid' := laid + [placed];
    if laid != [] {
      PlaceKey(edges, queue, origins, visited, laid, placed);
      assert EntryFrom(laid, edges, queue[0], origins[0]);
      forall i | 1 <= i < |laid'|
        ensures ParentIndex(laid', edges, i) < i
        ensures laid'[i].position == ChildPosition(laid'[ParentIndex(laid', edges, i)], edges, Key(laid', edges, i).idx)
      {
        if i < |laid| {
          KeyStable(laid, placed, edges, i);
          assert laid'[ParentIndex(laid, edges, i)] == laid[ParentIndex(laid, edges, i)];
        } else {
          assert laid'[origins[0].parent] == laid[origins[0].parent];
        }
      }
      forall i, i' | 1 <= i < i' < |laid'|
        ensures Before(Key(laid', edges, i), Key(laid', edges, i'))
      {
        KeyStable(laid, placed, edges, i);
        if i' < |laid| {
          KeyStable(laid, placed, edges, i');
        }
      }
    }
  }

  /** The origins of the entries ChildItems queues for the `j`th laid-out node. */
  function ChildOrigins(out: seq<Edge>, n: nat, visited: set<string>, j: int): seq<Origin>
    requires n <= |out|
  {
    if n == 0 then []
    else
      var init := ChildOrigins(out, n - 1, visited, j);
      if out[n - 1].target !in visited then init + [Origin(j, n - 1)] else init
  }

  /** Each child entry is the one its origin names: the target of that edge, at that edge's place. */
  lemma {:induction false} ChildOriginsMatch(out: seq<Edge>, n: nat, visited: set<string>, x: int, y: int, j: int)
    requires n <= |out|
    ensures var co := ChildOrigins(out, n, visited, j);
      var ci := ChildItems(out, n, visited, x, y);
      && |co| == |ci|
      && forall k :: 0 <= k < |co| ==>
           && co[k].parent == j && 0 <= co[k].idx < n
           && ci[k] == QueueItem(out[co[k].idx].target, x + HorizontalSpacing, y + ChildOffset(co[k].idx, |out|))
  {
    if n > 0 {
      ChildOriginsMatch(out, n - 1, visited, x, y, j);
    }
  }

  /** The child origins increase with the edge index. */
  lemma {:induction false} ChildOriginsSorted(out: seq<Edge>, n: nat, visited: set<string>, j: int)
    requires n <= |out|
    ensures var co := ChildOrigins(out, n, visited, j);
      forall k, k' :: 0 <= k < k' < |co| ==> co[k].parent == co[k'].parent == j && co[k].idx < co[k'].idx
  {
    if n > 0 {
      ChildOriginsSorted(out, n - 1, visited, j);
      ChildOriginsMatch(out, n - 1, visited, 0, 0, j);
    }
  }

  /** Every edge to an unvisited target has its child origin. */
  lemma {:induction false} ChildOriginsCover(out: seq<Edge>, n: nat, visited: set<string>, j: int)
    requires n <= |out|
    ensures forall idx :: 0 <= idx < n && out[idx].target !in visited ==> Origin(j, idx) in ChildOrigins(out, n, visited, j)
  {
    if n > 0 {
      ChildOriginsCover(out, n - 1, visited, j);
    }
  }

  /** After placing the head entry's node and queueing its children, the origins' invariant holds again. */
  lemma PlaceOrigins(edges: seq<Edge>, root: Node, queue: seq<QueueItem>, origins: seq<Origin>, visited: set<string>,
                     laid: seq<Node>, placed: Node)
    requires OriginsOk(edges, queue, origins, visited, laid) && queue != []
    requires laid == [] ==> queue == [QueueItem(root.id, StartX, StartY)]
    requires placed.id == queue[0].nodeId && placed.id !in visited
    requires placed.position == Position(queue[0].x, queue[0].y)
    ensures var out := EdgesFrom(edges, placed.id);
      var visited' := visited + {placed.id};
      OriginsOk(edges, queue[1..] + ChildItems(out, |out|, visited', placed.position.x, placed.position.y),
                origins[1..] + ChildOrigins(out, |out|, visited', |laid|), visited', laid + [placed])
  {
    var out := EdgesFrom(edges, placed.id);
    var visited' := visited + {placed.id};
    var ci := ChildItems(out, |out|, visited', placed.position.x, placed.position.y);
    var co := ChildOrigins(out, |out|, visited', |laid|);
    ChildOriginsMatch(out, |out|, visited', placed.position.x, placed.position.y, |laid|);
    ChildOriginsSorted(out, |out|, visited', |laid|);
    PlaceEntries(edges, queue, origins, laid, placed, ci, co);
    PlaceSorted(edges, queue, origins, laid, co);
    PlaceAfter(edges, queue, origins, visited, laid, placed, co);
    PlacePending(edges, queue, origins, visited, laid, placed);
  }

  lemma PlaceEntries(edges: seq<Edge>, queue: seq<QueueItem>, origins: seq<Origin>, laid: seq<Node>, placed: Node,
                     ci: seq<QueueItem>, co: seq<Origin>)
    requires |origins| == |queue| && EntriesFrom(edges, queue, origins, laid) && queue != []
    requires laid == [] ==> |queue| == 1
    requires var out := EdgesFrom(edges, placed.id);
      && |co| == |ci|
      && forall k :: 0 <= k < |co| ==>
           && co[k].parent == |laid| && 0 <= co[k].idx < |out|
           && ci[k] == QueueItem(out[co[k].idx].target, placed.position.x + HorizontalSpacing,
                                 placed.position.y + ChildOffset(co[k].idx, |out|))
    ensures |origins[1..] + co| == |queue[1..] + ci|
    ensures EntriesFrom(edges, queue[1..] + ci, origins[1..] + co, laid + [placed])
  {
    var laid' := laid + [placed];
    var q' := queue[1..] + ci;
    var o' := origins[1..] + co;
    forall k | 0 <= k < |q'|
      ensures EntryFrom(laid', edges, q'[k], o'[k])
    {
      if k < |queue| - 1 {
        assert q'[k] == queue[k + 1] && o'[k] == origins[k + 1];
        assert EntryFrom(laid, edges, queue[k + 1], origins[k + 1]);
        assert laid'[origins[k + 1].parent] == laid[origins[k + 1].parent];
      } else {
        assert q'[k] == ci[k - (|queue| - 1)] && o'[k] == co[k - (|queue| - 1)];
        assert laid'[|laid|] == placed;
      }
    }
  }

  lemma PlaceSorted(edges: seq<Edge>, queue: seq<QueueItem>, origins: seq<Origin>, laid: seq<Node>, co: seq<Origin>)
    requires |origins| == |queue| && EntriesFrom(edges, queue, origins, laid) && OriginsSorted(origins) && queue != []
    requires laid == [] ==> |queue| == 1
    requires forall k :: 0 <= k < |co| ==> co[k].parent == |laid|
    requires forall k, k' :: 0 <= k < k' < |co| ==> co[k].idx < co[k'].idx
    ensures OriginsSorted(origins[1..] + co)
  {
    var o' := origins[1..] + co;
    forall k, k' | 0 <= k < k' < |o'|
      ensures Before(o'[k], o'[k'])
    {
      if k' < |origins| - 1 {
        assert o'[k] == origins[k + 1] && o'[k'] == origins[k' + 1];
      } else if k < |origins| - 1 {
        assert o'[k] == origins[k + 1];
        assert EntryFrom(laid, edges, queue[k + 1], origins[k + 1]);
        assert o'[k'] == co[k' - (|origins| - 1)];
      } else {
        assert o'[k] == co[k - (|origins| - 1)] && o'[k'] == co[k' - (|origins| - 1)];
      }
    }
  }

  lemma PlaceAfter(edges: seq<Edge>, queue: seq<QueueItem>, origins: seq<Origin>, visited: set<string>, laid: seq<Node>,
                   placed: Node, co: seq<Origin>)
    requires OriginsOk(edges, queue, origins, visited, laid) && queue != []
    requires placed.id == queue[0].nodeId && placed.id !in visited
    requires forall k :: 0 <= k < |co| ==> co[k].parent == |laid|
    ensures AfterLaid(edges, origins[1..] + co, laid + [placed])
  {
    var laid' := laid + [placed];
    var o' := origins[1..] + co;
    forall k, i | 0 <= k < |o'| && 1 <= i < |laid'|
      ensures Before(Key(laid', edges, i), o'[k])
    {
      if k >= |origins| - 1 {
        assert o'[k] == co[k - (|origins| - 1)];
      } else {
        assert o'[k] == origins[k + 1];
        if i < |laid| {
          KeyStable(laid, placed, edges, i);
        } else {
          PlaceKey(edges, queue, origins, visited, laid, placed);
        }
      }
    }
  }

  lemma PlacePending(edges: seq<Edge>, queue: seq<QueueItem>, origins: seq<Origin>, visited: set<string>, laid: seq<Node>,
                     placed: Node)
    requires OriginsOk(edges, queue, origins, visited, laid) && queue != []
    requires placed.id == queue[0].nodeId
    ensures var out := EdgesFrom(edges, placed.id);
      var visited' := visited + {placed.id};
      Pending(edges, origins[1..] + ChildOrigins(out, |out|, visited', |laid|), visited', laid + [placed])
  {
    var out := EdgesFrom(edges, placed.id);
    var visited' := visited + {placed.id};
    var co := ChildOrigins(out, |out|, visited', |laid|);
    var laid' := laid + [placed];
    ChildOriginsCover(out, |out|, visited', |laid|);
    SkipOrigins(edges, queue, origins, visited, laid);
    forall j, idx | 0 <= j < |laid'| && 0 <= idx < |EdgesFrom(edges, laid'[j].id)|
      && EdgesFrom(edges, laid'[j].id)[idx].target !in visited'
      ensures Origin(j, idx) in origins[1..] + co
    {
      if j == |laid| {
        assert laid'[j] == placed;
        assert Origin(j, idx) in co;
      } else {
        assert laid'[j] == laid[j];
        assert Origin(j, idx) in origins[1..];
      }
    }
  }

  /** After queueing the children of the new node, every edge out of a laid-out node is covered. */
  lemma PlaceClosed(edges: seq<Edge>, queue: seq<QueueItem>, visited: set<string>, laid: seq<Node>, placed: Node)
    requires ClosedOk(edges, queue, visited, laid) && queue != [] && placed.id == queue[0].nodeId
    ensures var out := EdgesFrom(edges, placed.id);
      var visited' := visited + {placed.id};
      ClosedOk(edges, queue[1..] + ChildItems(out, |out|, visited', placed.position.x, placed.position.y), visited', laid + [placed])
  {
    var out := EdgesFrom(edges, placed.id);
    var visited' := visited + {placed.id};
    var children := ChildItems(out, |out|, visited', placed.position.x, placed.position.y);
    var queue' := queue[1..] + children;
    var laid' := laid + [placed];
    ChildItemsSpec(out, |out|, visited', placed.position.x, placed.position.y);
    ItemIdsShift(queue);
    ItemIdsAppend(queue[1..], children);
    forall i, e | 0 <= i < |laid'| && e in edges && e.source == laid'[i].id
      ensures e.target in visited' || e.target in ItemIds(queue')
    {
      if i == |laid| {
        assert e in out;
        var idx :| 0 <= idx < |out| && out[idx] == e;
      } else {
        assert laid'[i] == laid[i];
      }
    }
  }

  /** Laying out a dequeued, unvisited node with a table entry and queueing its children. */
  lemma StepPlace(nodeMap: map<string, Node>, edges: seq<Edge>, root: Node,
                  queue: seq<QueueItem>, origins: seq<Origin>, visited: set<string>, laid: seq<Node>)
    requires WalkInv(nodeMap, edges, root, queue, origins, visited, laid) && queue != []
    requires queue[0].nodeId !in visited && queue[0].nodeId in nodeMap
    ensures var item := queue[0];
      var visited' := visited + {item.nodeId};
      var placed := nodeMap[item.nodeId].(position := Position(item.x, item.y));
      var out := EdgesFrom(edges, item.nodeId);
      WalkInv(nodeMap, edges, root, queue[1..] + ChildItems(out, |out|, visited', item.x, item.y),
              origins[1..] + ChildOrigins(out, |out|, visited', |laid|), visited', laid + [placed])
  {
    var item := queue[0];
    var visited' := visited + {item.nodeId};
    var placed := nodeMap[item.nodeId].(position := Position(item.x, item.y));
    assert item in queue;
    PlaceQueue(edges, root, queue, placed, visited');
    PlaceLaid(nodeMap, root, visited, laid, item);
    PlaceOrdered(edges, queue, origins, visited, laid, placed);
    PlaceOrigins(edges, root, queue, origins, visited, laid, placed);
    PlaceClosed(edges, queue, visited, laid, placed);
  }

  /**
   * The result of a layout with a root: `laidOut` nodes reached by the walk, the root first at
   * the start position and the others in breadth-first order, each placed from its parent;
   * no edge out of them leads to a node left behind; then the nodes never reached, in their
   * original order and with their own positions.
   */
  predicate Arranged(nodes: seq<Node>, edges: seq<Edge>, root: Node, out: seq<Node>, laidOut: nat) {
    var nodeMap := NodeMap(nodes);
    var laid := if laidOut <= |out| then out[..laidOut] else [];
    && 1 <= laidOut <= |out|
    && root.id in nodeMap
    && out[0] == nodeMap[root.id].(position := Position(StartX, StartY))
    && UniqueIds(laid)
    && LaidOut(nodeMap, laid)
    && BfsOrdered(laid, edges)
    && (forall i, e :: 0 <= i < laidOut && e in edges && e.source == out[i].id && e.target in nodeMap ==>
          e.target in IdSet(laid))
    && out[laidOut..] == Unvisited(nodes, IdSet(laid))
  }

  /** handleAutoLayout, for the given root node types. */
  method AutoLayout(nodes: seq<Node>, edges: seq<Edge>, rootTypes: set<string>) returns (out: seq<Node>, ghost laidOut: nat)
    ensures Root(nodes, rootTypes).None? ==> out == nodes
    ensures Root(nodes, rootTypes).Some? ==> Arranged(nodes, edges, Root(nodes, rootTypes).value, out, laidOut)
  {
    var nodeMap := BuildNodeMap(nodes);
    var start := Root(nodes, rootTypes);
    if start.None? {
      return nodes, 0;
    }
    var root := start.value;
    assert root.id in IdSet(nodes);
    var visited, laid := Walk(nodeMap, edges, root);
    out := AppendUnvisited(laid, nodes, visited);
    ghost var origins :| WalkInv(nodeMap, edges, root, [], origins, visited, laid);
    Finish(nodes, edges, root, origins, visited, laid);
    laidOut := |laid|;
  }

  /** `nodes.forEach(node => nodeMap.set(node.id, node))`. */
  method BuildNodeMap(nodes: seq<Node>) returns (nodeMap: map<string, Node>)
    ensures nodeMap == NodeMap(nodes)
  {
    nodeMap := map[];
    for i := 0 to |nodes|
      invariant nodeMap == NodeMap(nodes[..i])
    {
      assert nodes[..i + 1][..i] == nodes[..i];
      nodeMap := nodeMap[nodes[i].id := nodes[i]];
    }
    assert nodes[..|nodes|] == nodes;
  }

  /** The breadth-first walk from the root until the queue is empty. */
  method Walk(nodeMap: map<string, Node>, edges: seq<Edge>, root: Node) returns (visited: set<string>, layouted: seq<Node>)
    requires root.id in nodeMap && KeyedById(nodeMap)
    ensures exists origins :: WalkInv(nodeMap, edges, root, [], origins, visited, layouted)
  {
    var queue := [QueueItem(root.id, StartX, StartY)];
    ghost var origins := [Origin(-1, 0)];
    visited := {};
    layouted := [];
    ghost var universe := Universe(root.id, edges);
    while queue != []
      invariant WalkInv(nodeMap, edges, root, queue, origins, visited, layouted)
      decreases |universe - visited|, |queue|
    {
      var item := queue[0];
      assert item in queue;
      SkipDecreases(universe, visited, item.nodeId);
      if item.nodeId in visited || item.nodeId !in nodeMap {
        StepSkip(nodeMap, edges, root, queue, origins, visited, layouted);
        queue := queue[1..];
        origins := origins[1..];
        visited := visited + {item.nodeId};
        continue;
      }
      StepPlace(nodeMap, edges, root, queue, origins, visited, layouted);
      queue := queue[1..];
      visited := visited + {item.nodeId};
      var out := EdgesFrom(edges, item.nodeId);
      origins := origins[1..] + ChildOrigins(out, |out|, visited, |layouted|);
      var node := nodeMap[item.nodeId];
      layouted := layouted + [node.(position := Position(item.x, item.y))];
      queue := EnqueueChildren(queue, out, visited, item.x, item.y);
    }
  }

  /** `outgoingEdges.forEach(...)`: queue each unvisited target at its place. */
  method EnqueueChildren(queue: seq<QueueItem>, outgoing: seq<Edge>, visited: set<string>, x: int, y: int)
    returns (queue': seq<QueueItem>)
    ensures queue' == queue + ChildItems(outgoing, |outgoing|, visited, x, y)
  {
    queue' := queue;
    var k := |outgoing|;
    var idx := 0;
    while idx < k
      invariant 0 <= idx <= k
      invariant queue' == queue + ChildItems(outgoing, idx, visited, x, y)
    {
      var edge := outgoing[idx];
      if edge.target !in visited {
        queue' := queue' + [QueueItem(edge.target, x + HorizontalSpacing, y + ChildOffset(idx, k))];
      }
      idx := idx + 1;
    }
  }

  /** `nodes.forEach(node => { if (!visited.has(node.id)) layoutedNodes.push(node) })`. */
  method AppendUnvisited(laid: seq<Node>, nodes: seq<Node>, visited: set<string>) returns (out: seq<Node>)
    ensures out == laid + Unvisited(nodes, visited)
  {
    out := laid;
    for i := 0 to |nodes|
      invariant out == laid + Unvisited(nodes[..i], visited)
    {
      assert nodes[..i + 1][..i] == nodes[..i];
      if nodes[i].id !in visited {
        out := out + [nodes[i]];
      }
    }
    assert nodes[..|nodes|] == nodes;
  }

  /** Visiting a new id of the universe brings the walk closer to its end. */
  lemma SkipDecreases(universe: set<string>, visited: set<string>, id: string)
    requires id in universe || id in visited
    ensures |universe - (visited + {id})| <= |universe - visited|
    ensures id !in visited ==> |universe - (visited + {id})| < |universe - visited|
  {
    if id !in visited {
      assert universe - visited == (universe - (visited + {id})) + {id};
    } else {
      assert visited + {id} == visited;
    }
  }

  /** The state the walk ends in gives an arranged result. */
  lemma Finish(nodes: seq<Node>, edges: seq<Edge>, root: Node, origins: seq<Origin>, visited: set<string>, laid: seq<Node>)
    requires root in nodes
    requires WalkInv(NodeMap(nodes), edges, root, [], origins, visited, laid)
    ensures Arranged(nodes, edges, root, laid + Unvisited(nodes, visited), |laid|)
  {
    var nodeMap := NodeMap(nodes);
    var out := laid + Unvisited(nodes, visited);
    assert out[..|laid|] == laid;
    assert out[|laid|..] == Unvisited(nodes, visited);
    forall n | n in nodes
      ensures n.id in visited <==> n.id in IdSet(laid)
    {
      assert n.id in IdSet(nodes);
    }
    UnvisitedCongruent(nodes, visited, IdSet(laid));
    forall i, e | 0 <= i < |laid| && e in edges && e.source == out[i].id && e.target in nodeMap
      ensures e.target in IdSet(laid)
    {
      assert out[i] == laid[i];
    }
  }

  // ---------------------------------------------------------------------------------------
  // Every node exactly once.

  lemma {:induction false} UnvisitedUnique(nodes: seq<Node>, s: set<string>)
    requires UniqueIds(nodes)
    ensures UniqueIds(Unvisited(nodes, s))
  {
    if nodes != [] {
      var init := nodes[..|nodes| - 1];
      UnvisitedUnique(init, s);
      IdSetSnoc(nodes);
    }
  }

  /** Laid-out nodes come from the input, so their ids are input ids. */
  lemma LaidFromNodes(nodes: seq<Node>, laid: seq<Node>)
    requires LaidOut(NodeMap(nodes), laid)
    ensures IdSet(laid) <= IdSet(nodes)
    ensures FromInput(nodes, laid)
  {
    forall id | id in IdSet(laid) ensures id in IdSet(nodes) {
      var i :| 0 <= i < |laid| && laid[i].id == id;
    }
  }

  /** Two id-unique sequences with disjoint ids concatenate to an id-unique one. */
  lemma ConcatUnique(a: seq<Node>, b: seq<Node>)
    requires UniqueIds(a) && UniqueIds(b)
    requires forall n :: n in b ==> n.id !in IdSet(a)
    ensures UniqueIds(a + b)
  {
    var c := a + b;
    forall i, j | 0 <= i < j < |c|
      ensures c[i].id != c[j].id
    {
      if i < |a| && j >= |a| {
        assert c[j] == b[j - |a|];
        assert c[j] in b;
        assert c[i] in a;
      } else if i >= |a| {
        assert c[i] == b[i - |a|] && c[j] == b[j - |a|];
      } else {
        assert c[i] == a[i] && c[j] == a[j];
      }
    }
  }

  /** The ids of a concatenation are the ids of its parts. */
  lemma IdSetConcat(a: seq<Node>, b: seq<Node>)
    ensures IdSet(a + b) == IdSet(a) + IdSet(b)
  {
    forall id | id in IdSet(a + b) ensures id in IdSet(a) + IdSet(b) {
      var i :| 0 <= i < |a + b| && (a + b)[i].id == id;
      if i < |a| {
        assert (a + b)[i] == a[i];
      } else {
        assert (a + b)[i] == b[i - |a|];
      }
    }
    forall n | n in a ensures n in a + b { }
    forall n | n in b ensures n in a + b { }
  }

  /** The unvisited nodes carry exactly the input ids outside `s`. */
  lemma UnvisitedIds(nodes: seq<Node>, s: set<string>)
    ensures IdSet(Unvisited(nodes, s)) == IdSet(nodes) - s
  {
    var r := Unvisited(nodes, s);
    forall id | id in IdSet(nodes) - s ensures id in IdSet(r) {
      var k :| 0 <= k < |nodes| && nodes[k].id == id;
      assert nodes[k] in r;
    }
    forall id | id in IdSet(r) ensures id in IdSet(nodes) - s {
      var k :| 0 <= k < |r| && r[k].id == id;
      assert r[k] in r;
    }
  }

  /** `a` is `b`, possibly moved. */
  predicate Moved(a: Node, b: Node) {
    a.id == b.id && a.nodeType == b.nodeType && a.data == b.data
  }

  /** Each element of `out` is the input node of its id, possibly moved. */
  predicate FromInput(nodes: seq<Node>, out: seq<Node>) {
    forall i :: 0 <= i < |out| ==> out[i].id in NodeMap(nodes) && Moved(out[i], NodeMap(nodes)[out[i].id])
  }

  /** The laid-out prefix and the unvisited tail both come from the input. */
  lemma ConcatOrigins(nodes: seq<Node>, laid: seq<Node>, s: set<string>)
    requires UniqueIds(nodes) && FromInput(nodes, laid)
    ensures FromInput(nodes, laid + Unvisited(nodes, s))
  {
    var tail := Unvisited(nodes, s);
    var out := laid + tail;
    NodeMapUnique(nodes);
    forall i | 0 <= i < |out|
      ensures out[i].id in NodeMap(nodes) && Moved(out[i], NodeMap(nodes)[out[i].id])
    {
      if i < |laid| {
        assert out[i] == laid[i];
      } else {
        assert out[i] == tail[i - |laid|];
        assert out[i] in tail;
        var j :| 0 <= j < |nodes| && nodes[j] == out[i];
      }
    }
  }

  /** Laid-out nodes followed by the unvisited rest are as many as the input nodes. */
  lemma LaidThenRestLength(nodes: seq<Node>, laid: seq<Node>)
    requires UniqueIds(nodes) && UniqueIds(laid) && IdSet(laid) <= IdSet(nodes)
    ensures |laid + Unvisited(nodes, IdSet(laid))| == |nodes|
  {
    var l := IdSet(laid);
    assert l * IdSet(nodes) == l;
    UniqueIdSetSize(laid);
    UnvisitedCount(nodes, l);
  }

  /** Laid-out nodes followed by the unvisited rest have pairwise different ids. */
  lemma LaidThenRestUnique(nodes: seq<Node>, laid: seq<Node>)
    requires UniqueIds(nodes) && UniqueIds(laid)
    ensures UniqueIds(laid + Unvisited(nodes, IdSet(laid)))
  {
    UnvisitedUnique(nodes, IdSet(laid));
    ConcatUnique(laid, Unvisited(nodes, IdSet(laid)));
  }

  /** Laid-out nodes followed by the unvisited rest carry exactly the input ids. */
  lemma LaidThenRestIds(nodes: seq<Node>, laid: seq<Node>)
    requires IdSet(laid) <= IdSet(nodes)
    ensures IdSet(laid + Unvisited(nodes, IdSet(laid))) == IdSet(nodes)
  {
    IdSetConcat(laid, Unvisited(nodes, IdSet(laid)));
    UnvisitedIds(nodes, IdSet(laid));
  }

  /**
   * With unique ids, the laid-out result holds every input node exactly once, each one
   * unchanged except possibly for its position.
   */
  lemma ArrangedIsPermutation(nodes: seq<Node>, edges: seq<Edge>, root: Node, out: seq<Node>, laidOut: nat)
    requires UniqueIds(nodes) && Arranged(nodes, edges, root, out, laidOut)
    ensures |out| == |nodes|
    ensures UniqueIds(out)
    ensures IdSet(out) == IdSet(nodes)
    ensures FromInput(nodes, out)
  {
    var laid := out[..laidOut];
    SplitAt(out, laidOut);
    LaidFromNodes(nodes, laid);
    LaidThenRestLength(nodes, laid);
    LaidThenRestUnique(nodes, laid);
    LaidThenRestIds(nodes, laid);
    ConcatOrigins(nodes, laid, IdSet(laid));
  }

  /** A sequence is its prefix followed by its suffix. */
  lemma SplitAt(s: seq<Node>, k: nat)
    requires k <= |s|
    ensures s == s[..k] + s[k..]
  {
  }

  /**
   * The walk on a diamond: the start node r has edges to a and then to b, and a has an edge to
   * b. The first-in, first-out queue reaches b from r before it dequeues a, so b is r's second
   * child, beside a, and never a's child.
   */
  lemma DiamondLayout(r: Node, a: Node, b: Node, out: seq<Node>, k: nat)
    requires r.id == "r" && a.id == "a" && b.id == "b"
    requires Arranged([r, a, b], DiamondEdges(), r, out, k)
    ensures k == 3
    ensures out == [r.(position := Position(50, 250)), a.(position := Position(350, 200)), b.(position := Position(350, 300))]
  {
    DiamondAllLaid(r, a, b, out, k);
    assert out[..k] == out;
    DiamondMap(r, a, b);
    DiamondOrder(r, a, b, out, NodeMap([r, a, b]));
  }

  /** Of the two orders of a and b, only a before b is breadth-first, and it fixes their places. */
  lemma DiamondOrder(r: Node, a: Node, b: Node, laid: seq<Node>, nodeMap: map<string, Node>)
    requires r.id == "r" && a.id == "a" && b.id == "b"
    requires |laid| == 3 && laid[0] == r.(position := Position(50, 250))
    requires (laid[1].id == "a" && laid[2].id == "b") || (laid[1].id == "b" && laid[2].id == "a")
    requires "a" in nodeMap && "b" in nodeMap && nodeMap["a"] == a && nodeMap["b"] == b
    requires LaidOut(nodeMap, laid)
    requires Before(Key(laid, DiamondEdges(), 1), Key(laid, DiamondEdges(), 2))
    requires forall i :: 1 <= i < 3 ==>
      laid[i].position == ChildPosition(laid[ParentIndex(laid, DiamondEdges(), i)], DiamondEdges(), Key(laid, DiamondEdges(), i).idx)
    ensures laid == [r.(position := Position(50, 250)), a.(position := Position(350, 200)), b.(position := Position(350, 300))]
  {
    DiamondEdgesFrom();
    DiamondKey(laid, 1);
    DiamondKey(laid, 2);
    assert laid[1].id == "a";
    assert ChildOffset(0, 2) == -50 && ChildOffset(1, 2) == 50;
  }

  /** On the diamond the origin of a is r's first edge, and that of b is r's second. */
  lemma DiamondKey(laid: seq<Node>, i: nat)
    requires 1 <= i < |laid| && laid[0].id == "r" && (laid[i].id == "a" || laid[i].id == "b")
    ensures ParentIndex(laid, DiamondEdges(), i) == 0
    ensures Key(laid, DiamondEdges(), i) == Origin(0, if laid[i].id == "a" then 0 else 1)
  {
    DiamondEdgesFrom();
    assert laid[..i][0] == laid[0];
  }

  lemma DiamondMap(r: Node, a: Node, b: Node)
    requires r.id == "r" && a.id == "a" && b.id == "b"
    ensures var nodeMap := NodeMap([r, a, b]);
      && (forall id :: id in nodeMap ==> id == "r" || id == "a" || id == "b")
      && "r" in nodeMap && "a" in nodeMap && "b" in nodeMap
      && nodeMap["r"] == r && nodeMap["a"] == a && nodeMap["b"] == b
  {
    var nodeMap := NodeMap([r, a, b]);
    assert r in [r, a, b] && a in [r, a, b] && b in [r, a, b];
  }

  lemma DiamondEdgesFrom()
    ensures EdgesFrom(DiamondEdges(), "r") == [DiamondEdges()[0], DiamondEdges()[1]]
    ensures EdgeIndex(DiamondEdges(), "r", "a") == 0 && EdgeIndex(DiamondEdges(), "r", "b") == 1
    ensures HasEdge(DiamondEdges(), "r", "a") && HasEdge(DiamondEdges(), "r", "b")
  {
    var edges := DiamondEdges();
    assert edges == [edges[0], edges[1]] + [edges[2]];
  }

  /** On the diamond every node is reached: the root, then a and b in some order, and nothing after them. */
  lemma DiamondAllLaid(r: Node, a: Node, b: Node, out: seq<Node>, k: nat)
    requires r.id == "r" && a.id == "a" && b.id == "b"
    requires Arranged([r, a, b], DiamondEdges(), r, out, k)
    ensures k == 3 && |out| == 3 && out[0] == r.(position := Position(50, 250))
    ensures (out[1].id == "a" && out[2].id == "b") || (out[1].id == "b" && out[2].id == "a")
  {
    var edges := DiamondEdges();
    var laid := out[..k];
    DiamondMap(r, a, b);
    assert edges[0] in edges && edges[1] in edges;
    assert laid[0] == out[0];
    DiamondThree(laid, NodeMap([r, a, b]));
    DiamondNothingLeft(r, a, b, laid);
  }

  /** Distinct ids of {r, a, b}, with r first and a and b among them, are the three of them. */
  lemma DiamondThree(laid: seq<Node>, nodeMap: map<string, Node>)
    requires UniqueIds(laid) && |laid| >= 1 && laid[0].id == "r" && LaidOut(nodeMap, laid)
    requires forall id :: id in nodeMap ==> id == "r" || id == "a" || id == "b"
    requires "a" in IdSet(laid) && "b" in IdSet(laid)
    ensures |laid| == 3
    ensures (laid[1].id == "a" && laid[2].id == "b") || (laid[1].id == "b" && laid[2].id == "a")
  {
    UniqueIdSetSize(laid);
    assert "r" in IdSet(laid);
    assert IdSet(laid) == {"r", "a", "b"};
  }

  /** Once r, a and b are all laid out, no node is left behind. */
  lemma DiamondNothingLeft(r: Node, a: Node, b: Node, laid: seq<Node>)
    requires r.id == "r" && a.id == "a" && b.id == "b"
    requires {"r", "a", "b"} <= IdSet(laid)
    ensures Unvisited([r, a, b], IdSet(laid)) == []
  {
    var s := IdSet(laid);
    assert [r, a, b][..2] == [r, a] && [r, a][..1] == [r] && [r][..0] == [];
    assert Unvisited([r], s) == [];
    assert Unvisited([r, a], s) == [];
  }

  /** The diamond's edges, in stored order: r to a, r to b, a to b. */
  function DiamondEdges(): seq<Edge> {
    [Edge("e1", "r", "a", None), Edge("e2", "r", "b", None), Edge("e3", "a", "b", None)]
  }
}
