/** Reachability in an adjacency graph, and the worklist search that finds a component. */
module Connectivity {
  import opened Wrappers
  import opened Geometry
  import opened WindowAdjacency
  import opened AdjacencyGraph

  predicate Joins(relation: AdjacencyRelation, a: WindowId, b: WindowId) {
    (relation.first == a && relation.second == b) || (relation.second == a && relation.first == b)
  }

  ghost predicate Linked(g: Graph, a: WindowId, b: WindowId) {
    exists k | 0 <= k < |g.relations| :: Joins(g.relations[k], a, b)
  }

  ghost predicate IsPath(g: Graph, path: seq<WindowId>, a: WindowId, b: WindowId) {
    && path != [] && path[0] == a && path[|path| - 1] == b
    && forall k | 0 <= k < |path| - 1 :: Linked(g, path[k], path[k + 1])
  }

  ghost predicate Reachable(g: Graph, a: WindowId, b: WindowId) {
    exists path: seq<WindowId> :: IsPath(g, path, a, b)
  }

  // --- Reachability is an equivalence ---

  lemma ReachableReflexive(g: Graph, a: WindowId)
    ensures Reachable(g, a, a)
  {
    assert IsPath(g, [a], a, a);
  }

  lemma ReachableStep(g: Graph, a: WindowId, b: WindowId, c: WindowId)
    requires Reachable(g, a, b) && Linked(g, b, c)
    ensures Reachable(g, a, c)
  {
    var path :| IsPath(g, path, a, b);
    assert IsPath(g, path + [c], a, c);
  }

  lemma {:induction false} ReachableTransitive(g: Graph, a: WindowId, b: WindowId, c: WindowId)
    requires Reachable(g, a, b) && Reachable(g, b, c)
    ensures Reachable(g, a, c)
  {
    var p :| IsPath(g, p, a, b);
    var q :| IsPath(g, q, b, c);
    var joined := p + q[1..];
    forall k | 0 <= k < |joined| - 1 ensures Linked(g, joined[k], joined[k + 1]) {
      if k >= |p| - 1 {
        assert Linked(g, q[k + 1 - |p|], q[k + 2 - |p|]);
      }
    }
    assert IsPath(g, joined, a, c);
  }

  lemma LinkedSymmetric(g: Graph, a: WindowId, b: WindowId)
    requires Linked(g, a, b)
    ensures Linked(g, b, a)
  {
    var k :| 0 <= k < |g.relations| && Joins(g.relations[k], a, b);
    assert Joins(g.relations[k], b, a);
  }

  lemma {:induction false} ReachableSymmetric(g: Graph, a: WindowId, b: WindowId)
    requires Reachable(g, a, b)
    ensures Reachable(g, b, a)
  {
    var path :| IsPath(g, path, a, b);
    var back := seq(|path|, k requires 0 <= k < |path| => path[|path| - 1 - k]);
    forall k | 0 <= k < |back| - 1 ensures Linked(g, back[k], back[k + 1]) {
      LinkedSymmetric(g, path[|path| - 2 - k], path[|path| - 1 - k]);
    }
    assert IsPath(g, back, b, a);
  }

  // A set that contains the start and is closed under links contains all that is reachable.
  lemma {:induction false} ClosedContainsReachable(g: Graph, closed: set<WindowId>, path: seq<WindowId>,
                                                   a: WindowId, b: WindowId)
    requires a in closed && IsPath(g, path, a, b)
    requires forall x, y | x in closed && Linked(g, x, y) :: y in closed
    ensures b in closed
  {
    if |path| > 1 {
      assert Linked(g, path[0], path[1]);
      forall k | 0 <= k < |path[1..]| - 1 ensures Linked(g, path[1..][k], path[1..][k + 1]) {
        assert Linked(g, path[k + 1], path[k + 2]);
      }
      ClosedContainsReachable(g, closed, path[1..], path[1], b);
    }
  }

  // --- Looking windows up ---

  ghost predicate Knows(windows: seq<WindowGeometry>, id: WindowId) {
    exists k | 0 <= k < |windows| :: windows[k].id == id
  }

  // Binary search for the identifier, as the standard lower bound does it.
  method IndexOf(windows: seq<WindowGeometry>, id: WindowId) returns (r: Option<nat>)
    requires StrictlySorted(windows)
    ensures r.Some? ==> r.value < |windows| && windows[r.value].id == id
    ensures r.None? ==> !Knows(windows, id)
  {
    var low, high := 0, |windows|;
    while low < high
      invariant 0 <= low <= high <= |windows|
      invariant forall k | 0 <= k < low :: IdLess(windows[k].id, id)
      invariant forall k | high <= k < |windows| :: !IdLess(windows[k].id, id)
    {
      var middle := (low + high) / 2;
      if IdLess(windows[middle].id, id) {
        forall k | 0 <= k < middle ensures IdLess(windows[k].id, id) {
          IdLessTransitive(windows[k].id, windows[middle].id, id);
        }
        low := middle + 1;
      } else {
        forall k | middle <= k < |windows| ensures !IdLess(windows[k].id, id) {
          if middle < k && IdLess(windows[k].id, id) {
            IdLessTransitive(windows[middle].id, windows[k].id, id);
          }
        }
        high := middle;
      }
    }
    if low == |windows| || windows[low].id != id {
      forall k | 0 <= k < |windows| ensures windows[k].id != id {
        IdLessTotal(windows[k].id, id);
      }
      return None;
    }
    return Some(low);
  }

  // --- Relations of a built graph ---

  lemma {:induction false} RelationsKnowWindows(windows: seq<WindowGeometry>, first: nat, second: nat,
                                                tolerance: Distance, relations: seq<AdjacencyRelation>)
    requires first < second
    requires RelationsFrom(windows, first, second, tolerance) == Returned(relations)
    ensures forall k | 0 <= k < |relations| :: Knows(windows, relations[k].first) && Knows(windows, relations[k].second)
    decreases |windows| - first, |windows| - second
  {
    if first < |windows| {
      if second >= |windows| {
        RelationsKnowWindows(windows, first + 1, first + 2, tolerance, relations);
      } else {
        var rest := RelationsFrom(windows, first, second + 1, tolerance);
        RelationsKnowWindows(windows, first, second + 1, tolerance, rest.value);
      }
    }
  }

  // Both ends of every relation are windows of the graph, so the search never
  // takes its branch for an unknown neighbour.
  lemma ValidRelationsKnown(g: Graph, k: nat)
    requires Valid(g) && k < |g.relations|
    ensures Knows(g.windows, g.relations[k].first) && Knows(g.windows, g.relations[k].second)
  {
    var tolerance: Distance :| HasRelations(g, tolerance);
    RelationsKnowWindows(g.windows, 0, 1, tolerance, g.relations);
  }

  // --- The component of a window ---

  ghost function ReachableWindows(g: Graph, start: WindowId, windows: seq<WindowGeometry>): seq<WindowGeometry> {
    if windows == [] then []
    else (if Reachable(g, start, windows[0].id) then [windows[0]] else []) +
         ReachableWindows(g, start, windows[1..])
  }

  function Ids(windows: seq<WindowGeometry>): (ids: seq<WindowId>)
    ensures |ids| == |windows| && forall k | 0 <= k < |ids| :: ids[k] == windows[k].id
  {
    if windows == [] then [] else [windows[0].id] + Ids(windows[1..])
  }

  // The windows reachable from the start, in identifier order.
  ghost function Component(g: Graph, start: WindowId): seq<WindowGeometry> {
    ReachableWindows(g, start, g.windows)
  }

  lemma {:induction false} ReachableWindowsExact(g: Graph, start: WindowId, windows: seq<WindowGeometry>)
    requires StrictlySorted(windows)
    ensures StrictlySorted(ReachableWindows(g, start, windows))
    ensures forall w :: w in ReachableWindows(g, start, windows) <==> w in windows && Reachable(g, start, w.id)
  {
    if windows != [] {
      ReachableWindowsExact(g, start, windows[1..]);
      assert windows == [windows[0]] + windows[1..];
      var rest := ReachableWindows(g, start, windows[1..]);
      assert forall j | 0 <= j < |rest| :: rest[j] in windows[1..];
    }
  }

  // The component lists exactly the reachable windows, once each, in order.
  lemma ComponentExact(g: Graph, start: WindowId)
    requires Valid(g)
    ensures StrictlySorted(Component(g, start))
    ensures forall w :: w in Component(g, start) <==> w in g.windows && Reachable(g, start, w.id)
  {
    ReachableWindowsExact(g, start, g.windows);
  }

  // Components partition the windows: every window is in its own component,
  // and two components are the same or have no window in common.
  lemma ComponentsPartition(g: Graph, a: WindowGeometry, b: WindowGeometry)
    requires Valid(g) && a in g.windows && b in g.windows
    ensures a in Component(g, a.id)
    ensures Component(g, a.id) == Component(g, b.id) ||
            forall w :: !(w in Component(g, a.id) && w in Component(g, b.id))
  {
    ComponentExact(g, a.id);
    ComponentExact(g, b.id);
    ReachableReflexive(g, a.id);
    if w :| w in Component(g, a.id) && w in Component(g, b.id) {
      ReachableSymmetric(g, b.id, w.id);
      ReachableTransitive(g, a.id, w.id, b.id);
      SameComponent(g, a.id, b.id, g.windows);
    }
  }

  lemma {:induction false} SameComponent(g: Graph, a: WindowId, b: WindowId, windows: seq<WindowGeometry>)
    requires Reachable(g, a, b)
    ensures ReachableWindows(g, a, windows) == ReachableWindows(g, b, windows)
  {
    if windows != [] {
      SameComponent(g, a, b, windows[1..]);
      var id := windows[0].id;
      ReachableSymmetric(g, a, b);
      if Reachable(g, a, id) {
        ReachableTransitive(g, b, a, id);
      }
      if Reachable(g, b, id) {
        ReachableTransitive(g, a, b, id);
      }
    }
  }

  // --- The worklist search ---

  // The windows whose index has been queued.
  ghost function Queued(g: Graph, pending: seq<nat>): set<WindowId>
    requires forall k | 0 <= k < |pending| :: pending[k] < |g.windows|
  {
    set k | 0 <= k < |pending| :: g.windows[pending[k]].id
  }

  ghost predicate Distinct(pending: seq<nat>) {
    forall i, j | 0 <= i < j < |pending| :: pending[i] != pending[j]
  }

  lemma {:induction false} DistinctIndicesBounded(pending: seq<nat>, bound: nat)
    requires Distinct(pending) && forall k | 0 <= k < |pending| :: pending[k] < bound
    ensures |pending| <= bound
    decreases bound
  {
    if pending != [] {
      assert pending[0] < bound;
      if p :| 0 <= p < |pending| && pending[p] == bound - 1 {
        DistinctIndicesBounded(pending[..p] + pending[p + 1..], bound - 1);
      } else {
        DistinctIndicesBounded(pending, bound - 1);
      }
    }
  }

  // What the search keeps true: `visited` marks exactly the queued windows,
  // each queued once and each reachable from the start.
  ghost predicate Searching(g: Graph, start: WindowId, visited: seq<bool>, pending: seq<nat>) {
    && |visited| == |g.windows|
    && (forall k | 0 <= k < |pending| :: pending[k] < |visited| && visited[pending[k]])
    && (forall i | 0 <= i < |visited| && visited[i] :: i in pending)
    && Distinct(pending)
    && start in Queued(g, pending)
    && forall k | 0 <= k < |pending| :: Reachable(g, start, g.windows[pending[k]].id)
  }

  lemma Enqueue(g: Graph, start: WindowId, visited: seq<bool>, pending: seq<nat>, next: nat, current: WindowId)
    requires Searching(g, start, visited, pending)
    requires next < |visited| && !visited[next]
    requires Reachable(g, start, current) && Linked(g, current, g.windows[next].id)
    ensures Searching(g, start, visited[next := true], pending + [next])
    ensures Queued(g, pending + [next]) == Queued(g, pending) + {g.windows[next].id}
  {
    ReachableStep(g, start, current, g.windows[next].id);
    var more := pending + [next];
    assert forall k | 0 <= k < |pending| :: more[k] == pending[k];
    assert more[|pending|] == next;
  }

  // Every window linked to the `k`-th queued one is queued.
  ghost predicate Expanded(g: Graph, pending: seq<nat>, k: nat)
    requires forall i | 0 <= i < |pending| :: pending[i] < |g.windows|
    requires k < |pending|
  {
    forall y | Linked(g, g.windows[pending[k]].id, y) :: y in Queued(g, pending)
  }

  // When every queued window has been expanded, exactly the reachable ones are marked.
  lemma SearchComplete(g: Graph, start: WindowId, visited: seq<bool>, pending: seq<nat>)
    requires Valid(g) && Searching(g, start, visited, pending)
    requires forall k | 0 <= k < |pending| :: Expanded(g, pending, k)
    ensures forall i | 0 <= i < |visited| :: visited[i] <==> Reachable(g, start, g.windows[i].id)
  {
    var closed := Queued(g, pending);
    forall x, y | x in closed && Linked(g, x, y) ensures y in closed {
      var k :| 0 <= k < |pending| && g.windows[pending[k]].id == x;
      assert Expanded(g, pending, k);
    }
    forall i | 0 <= i < |visited| && Reachable(g, start, g.windows[i].id) ensures visited[i] {
      var path :| IsPath(g, path, start, g.windows[i].id);
      ClosedContainsReachable(g, closed, path, start, g.windows[i].id);
      var k :| 0 <= k < |pending| && g.windows[pending[k]].id == g.windows[i].id;
      IdLessTotal(g.windows[i].id, g.windows[i].id);
      assert pending[k] == i;
    }
  }

  // One round of the search: queue the unvisited neighbours of the window at the cursor.
  method Expand(g: Graph, start: WindowId, visited: seq<bool>, pending: seq<nat>, cursor: nat)
    returns (visited': seq<bool>, pending': seq<nat>)
    requires Valid(g) && Searching(g, start, visited, pending) && cursor < |pending|
    ensures Searching(g, start, visited', pending')
    ensures pending <= pending' && Expanded(g, pending', cursor)
  {
    visited', pending' := visited, pending;
    var current := g.windows[pending[cursor]].id;
    for r := 0 to |g.relations|
      invariant Searching(g, start, visited', pending') && pending <= pending'
      invariant forall j, y | 0 <= j < r && Joins(g.relations[j], current, y) :: y in Queued(g, pending')
    {
      var relation := g.relations[r];
      if relation.first == current || relation.second == current {
        var neighbor := if relation.first == current then relation.second else relation.first;
        ValidRelationsKnown(g, r);
        var next := IndexOf(g.windows, neighbor);
        assert Joins(g.relations[r], current, neighbor);
        if !visited'[next.value] {
          Enqueue(g, start, visited', pending', next.value, current);
          visited' := visited'[next.value := true];
          pending' := pending' + [next.value];
        }
      }
    }
  }

  method Search(g: Graph, start: WindowId, startIndex: nat) returns (visited: seq<bool>)
    requires Valid(g) && startIndex < |g.windows| && g.windows[startIndex].id == start
    ensures |visited| == |g.windows|
    ensures forall i | 0 <= i < |visited| :: visited[i] <==> Reachable(g, start, g.windows[i].id)
  {
    visited := seq(|g.windows|, _ => false)[startIndex := true];
    var pending := [startIndex];
    ReachableReflexive(g, start);
    assert g.windows[pending[0]].id in Queued(g, pending);
    var cursor := 0;
    while cursor < |pending|
      invariant cursor <= |pending|
      invariant Searching(g, start, visited, pending)
      invariant forall k | 0 <= k < cursor :: Expanded(g, pending, k)
      decreases |g.windows| - cursor
    {
      DistinctIndicesBounded(pending, |g.windows|);
      ghost var before := pending;
      visited, pending := Expand(g, start, visited, pending, cursor);
      QueuedGrows(g, before, pending);
      cursor := cursor + 1;
    }
    SearchComplete(g, start, visited, pending);
  }

  lemma QueuedGrows(g: Graph, before: seq<nat>, after: seq<nat>)
    requires before <= after && forall i | 0 <= i < |after| :: after[i] < |g.windows|
    ensures forall k | 0 <= k < |before| && Expanded(g, before, k) :: Expanded(g, after, k)
  {
    assert forall i | 0 <= i < |before| :: after[i] == before[i];
  }

  method ConnectedComponent(g: Graph, start: WindowId) returns (r: Outcome<seq<WindowId>>)
    requires Valid(g)
    ensures r == if Knows(g.windows, start) then Returned(Ids(Component(g, start))) else Threw(InvalidArgument)
  {
    var startIndex := IndexOf(g.windows, start);
    if startIndex.None? {
      return Threw(InvalidArgument);
    }
    var visited := Search(g, start, startIndex.value);
    var component := CollectVisited(g, start, visited);
    return Returned(component);
  }

  method CollectVisited(g: Graph, start: WindowId, visited: seq<bool>) returns (component: seq<WindowId>)
    requires |visited| == |g.windows|
    requires forall i | 0 <= i < |visited| :: visited[i] <==> Reachable(g, start, g.windows[i].id)
    ensures component == Ids(Component(g, start))
  {
    component := [];
    ghost var collected := [];
    for index := 0 to |g.windows|
      invariant component == Ids(collected)
      invariant collected + ReachableWindows(g, start, g.windows[index..]) == Component(g, start)
    {
      ghost var rest := g.windows[index..];
      assert rest[0] == g.windows[index] && rest[1..] == g.windows[index + 1..];
      if visited[index] {
        component := component + [g.windows[index].id];
        collected := collected + [g.windows[index]];
      }
    }
    assert collected + [] == collected;
  }
}
