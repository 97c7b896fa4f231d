/** The adjacency graph of a set of windows: how it is built, and which windows
    can be reached from one another. */
module AdjacencyGraph {
  import opened Wrappers
  import opened Geometry
  import opened WindowAdjacency

  datatype Graph = Graph(windows: seq<WindowGeometry>, relations: seq<AdjacencyRelation>)

  // --- Sorting by identifier ---

  ghost predicate Sorted(windows: seq<WindowGeometry>) {
    forall i, j | 0 <= i < j < |windows| :: !IdLess(windows[j].id, windows[i].id)
  }

  ghost predicate StrictlySorted(windows: seq<WindowGeometry>) {
    forall i, j | 0 <= i < j < |windows| :: IdLess(windows[i].id, windows[j].id)
  }

  predicate HasNeighbourTwins(windows: seq<WindowGeometry>) {
    exists i | 1 <= i < |windows| :: windows[i - 1].id == windows[i].id
  }

  function Insert(window: WindowGeometry, sorted: seq<WindowGeometry>): (r: seq<WindowGeometry>)
    ensures multiset(r) == multiset(sorted) + multiset{window}
  {
    if sorted == [] then [window]
    else if IdLess(sorted[0].id, window.id) then
      assert sorted == [sorted[0]] + sorted[1..];
      [sorted[0]] + Insert(window, sorted[1..])
    else [window] + sorted
  }

  function SortById(windows: seq<WindowGeometry>): (r: seq<WindowGeometry>)
    ensures multiset(r) == multiset(windows)
  {
    if windows == [] then []
    else
      assert windows == [windows[0]] + windows[1..];
      Insert(windows[0], SortById(windows[1..]))
  }

  lemma PrependSorted(window: WindowGeometry, sorted: seq<WindowGeometry>)
    requires Sorted(sorted) && forall w | w in sorted :: !IdLess(w.id, window.id)
    ensures Sorted([window] + sorted)
  {
    var all := [window] + sorted;
    forall i, j | 0 <= i < j < |all| ensures !IdLess(all[j].id, all[i].id) {
      assert all[j] == sorted[j - 1];
    }
  }

  lemma InsertMembers(window: WindowGeometry, sorted: seq<WindowGeometry>)
    ensures forall w :: w in Insert(window, sorted) <==> w == window || w in sorted
  {
    assert forall w :: w in Insert(window, sorted) <==> w in multiset(Insert(window, sorted));
  }

  lemma {:induction false} InsertSorts(window: WindowGeometry, sorted: seq<WindowGeometry>)
    requires Sorted(sorted)
    ensures Sorted(Insert(window, sorted))
  {
    if sorted == [] {
    } else if IdLess(sorted[0].id, window.id) {
      InsertSorts(window, sorted[1..]);
      InsertMembers(window, sorted[1..]);
      IdLessTotal(sorted[0].id, window.id);
      PrependSorted(sorted[0], Insert(window, sorted[1..]));
    } else {
      forall w | w in sorted ensures !IdLess(w.id, window.id) {
        var j :| 0 <= j < |sorted| && sorted[j] == w;
        IdLessTotal(sorted[0].id, w.id);
        if IdLess(sorted[0].id, w.id) && IdLess(w.id, window.id) {
          IdLessTransitive(sorted[0].id, w.id, window.id);
        }
      }
      PrependSorted(window, sorted);
    }
  }

  lemma {:induction false} SortByIdSorts(windows: seq<WindowGeometry>)
    ensures Sorted(SortById(windows))
  {
    if windows != [] {
      SortByIdSorts(windows[1..]);
      InsertSorts(windows[0], SortById(windows[1..]));
    }
  }

  // Without equal neighbours a sorted list is strictly sorted.
  lemma {:induction false} SortedWithoutTwins(windows: seq<WindowGeometry>)
    requires Sorted(windows)
    ensures StrictlySorted(windows) <==> !HasNeighbourTwins(windows)
  {
    forall i, j | 0 <= i < j < |windows|
      ensures !HasNeighbourTwins(windows) ==> IdLess(windows[i].id, windows[j].id)
    {
      if !HasNeighbourTwins(windows) {
        assert windows[i + 1 - 1].id != windows[i + 1].id;
        IdLessTotal(windows[i].id, windows[i + 1].id);
        if j > i + 1 {
          IdLessTotal(windows[i + 1].id, windows[j].id);
          if IdLess(windows[i + 1].id, windows[j].id) {
            IdLessTransitive(windows[i].id, windows[i + 1].id, windows[j].id);
          }
        }
      }
    }
    if HasNeighbourTwins(windows) {
      var i :| 1 <= i < |windows| && windows[i - 1].id == windows[i].id;
      IdLessTotal(windows[i - 1].id, windows[i].id);
    }
  }

  lemma SameFirst(a: seq<WindowGeometry>, b: seq<WindowGeometry>)
    requires StrictlySorted(a) && Sorted(b) && multiset(a) == multiset(b) && a != [] && b != []
    ensures a[0] == b[0]
  {
    assert b[0] in multiset(a) && a[0] in multiset(b);
    var i :| 0 <= i < |a| && a[i] == b[0];
    var j :| 0 <= j < |b| && b[j] == a[0];
    IdLessTotal(a[0].id, b[0].id);
  }

  // One multiset of distinctly named windows has one sorted arrangement.
  lemma {:induction false} SortedArrangementUnique(a: seq<WindowGeometry>, b: seq<WindowGeometry>)
    requires StrictlySorted(a) && Sorted(b) && multiset(a) == multiset(b)
    ensures a == b
  {
    assert |a| == |multiset(a)| == |multiset(b)| == |b|;
    if a != [] {
      SameFirst(a, b);
      assert a == [a[0]] + a[1..] && b == [b[0]] + b[1..];
      assert multiset(a[1..]) == multiset(a) - multiset{a[0]} == multiset(b[1..]);
      SortedArrangementUnique(a[1..], b[1..]);
    }
  }

  // --- Building ---

  // The relations of all pairs (i, j) with i < j, from the given pair onwards.
  ghost function RelationsFrom(windows: seq<WindowGeometry>, first: nat, second: nat, tolerance: Distance)
    : Outcome<seq<AdjacencyRelation>>
    requires first < second
    decreases |windows| - first, |windows| - second
  {
    if first >= |windows| then Returned([])
    else if second >= |windows| then RelationsFrom(windows, first + 1, first + 2, tolerance)
    else
      var relation :- Adjacency(windows[first], windows[second], tolerance);
      var rest :- RelationsFrom(windows, first, second + 1, tolerance);
      Returned((if relation.Some? then [relation.value] else []) + rest)
  }

  ghost function Built(input: seq<WindowGeometry>, tolerance: Distance): Outcome<Graph> {
    if tolerance < 0 then Threw(InvalidArgument)
    else
      var windows := SortById(input);
      if HasNeighbourTwins(windows) then Threw(InvalidArgument)
      else
        var relations :- RelationsFrom(windows, 0, 1, tolerance);
        Returned(Graph(windows, relations))
  }

  method FindTwins(windows: seq<WindowGeometry>) returns (found: bool)
    ensures found <==> HasNeighbourTwins(windows)
  {
    var index := 1;
    while index < |windows|
      invariant 1 <= index
      invariant forall i | 1 <= i < index && i < |windows| :: windows[i - 1].id != windows[i].id
    {
      if windows[index - 1].id == windows[index].id {
        return true;
      }
      index := index + 1;
    }
    return false;
  }

  method CollectRelations(windows: seq<WindowGeometry>, tolerance: Distance)
    returns (r: Outcome<seq<AdjacencyRelation>>)
    ensures r == RelationsFrom(windows, 0, 1, tolerance)
  {
    var relations := [];
    ghost var all := RelationsFrom(windows, 0, 1, tolerance);
    ContinuedNothing(all);
    var first := 0;
    while first < |windows|
      invariant 0 <= first
      invariant Continued(relations, RelationsFrom(windows, first, first + 1, tolerance)) == all
    {
      var second := first + 1;
      while second < |windows|
        invariant first < second
        invariant Continued(relations, RelationsFrom(windows, first, second, tolerance)) == all
        decreases |windows| - second
      {
        var relation := FindAdjacency(windows[first], windows[second], tolerance);
        if relation.Threw? {
          return Threw(relation.error);
        }
        var found := if relation.value.Some? then [relation.value.value] else [];
        ContinuedFurther(relations, found, RelationsFrom(windows, first, second + 1, tolerance));
        relations := relations + found;
        second := second + 1;
      }
      first := first + 1;
    }
    assert relations + [] == relations;
    return Returned(relations);
  }

  method Build(input: seq<WindowGeometry>, tolerance: Distance) returns (r: Outcome<Graph>)
    ensures r == Built(input, tolerance)
  {
    if tolerance < 0 {
      return Threw(InvalidArgument);
    }
    var windows := SortById(input);
    var twins := FindTwins(windows);
    if twins {
      return Threw(InvalidArgument);
    }
    var relations := CollectRelations(windows, tolerance);
    if relations.Threw? {
      return Threw(relations.error);
    }
    return Returned(Graph(windows, relations.value));
  }

  // What is found already, followed by what the remaining pairs give.
  ghost function Continued(found: seq<AdjacencyRelation>, rest: Outcome<seq<AdjacencyRelation>>)
    : Outcome<seq<AdjacencyRelation>>
  {
    if rest.Threw? then rest else Returned(found + rest.value)
  }

  lemma ContinuedNothing(rest: Outcome<seq<AdjacencyRelation>>)
    ensures Continued([], rest) == rest
  {
    if rest.Returned? {
      assert [] + rest.value == rest.value;
    }
  }

  lemma ContinuedFurther(found: seq<AdjacencyRelation>, next: seq<AdjacencyRelation>,
                         rest: Outcome<seq<AdjacencyRelation>>)
    ensures Continued(found + next, rest) == Continued(found, Continued(next, rest))
  {
    if rest.Returned? {
      assert (found + next) + rest.value == found + (next + rest.value);
    }
  }

  // The input order never matters, neither for the graph nor for the exception.
  lemma BuildIgnoresOrder(input: seq<WindowGeometry>, permuted: seq<WindowGeometry>, tolerance: Distance)
    requires multiset(input) == multiset(permuted)
    ensures Built(input, tolerance) == Built(permuted, tolerance)
  {
    var a, b := SortById(input), SortById(permuted);
    SortByIdSorts(input);
    SortByIdSorts(permuted);
    SortedWithoutTwins(a);
    SortedWithoutTwins(b);
    if StrictlySorted(a) {
      SortedArrangementUnique(a, b);
    } else if StrictlySorted(b) {
      SortedArrangementUnique(b, a);
    }
  }

  // Graphs come from `Build` only, so every graph in the source satisfies this.
  ghost predicate Valid(g: Graph) {
    StrictlySorted(g.windows) && exists tolerance: Distance :: HasRelations(g, tolerance)
  }

  ghost predicate HasRelations(g: Graph, tolerance: Distance) {
    tolerance >= 0 && RelationsFrom(g.windows, 0, 1, tolerance) == Returned(g.relations)
  }

  // Strictly sorted windows stay where they are, and no two of them are twins.
  lemma SortingKeepsSorted(windows: seq<WindowGeometry>)
    requires StrictlySorted(windows)
    ensures SortById(windows) == windows && !HasNeighbourTwins(windows)
  {
    forall i, j | 0 <= i < j < |windows| ensures !IdLess(windows[j].id, windows[i].id) {
      IdLessTotal(windows[i].id, windows[j].id);
    }
    SortByIdSorts(windows);
    SortedArrangementUnique(windows, SortById(windows));
    SortedWithoutTwins(windows);
  }

  // A graph is what `Build` returns for some input exactly when it is valid.
  lemma BuiltIffValid(g: Graph)
    ensures Valid(g) <==>
            exists input: seq<WindowGeometry>, tolerance: Distance :: Built(input, tolerance) == Returned(g)
  {
    if Valid(g) {
      var tolerance: Distance :| HasRelations(g, tolerance);
      SortingKeepsSorted(g.windows);
      assert Built(g.windows, tolerance) == Returned(g);
    }
    if input: seq<WindowGeometry>, tolerance: Distance :| Built(input, tolerance) == Returned(g) {
      SortByIdSorts(input);
      SortedWithoutTwins(g.windows);
      assert HasRelations(g, tolerance);
    }
  }

  // --- Relations pair by pair ---

  lemma {:induction false} PairFound(ws: seq<WindowGeometry>, first: nat, second: nat,
                                     tolerance: Distance,
                                     found: Option<AdjacencyRelation>, rest: seq<AdjacencyRelation>)
    requires first < second < |ws| && Adjacency(ws[first], ws[second], tolerance) == Returned(found)
    requires RelationsFrom(ws, first, second + 1, tolerance) == Returned(rest)
    ensures RelationsFrom(ws, first, second, tolerance) == Returned((if found.Some? then [found.value] else []) + rest)
  {
  }

  lemma {:induction false} RowDone(ws: seq<WindowGeometry>, first: nat, tolerance: Distance,
                                   rest: seq<AdjacencyRelation>)
    requires first < |ws| && RelationsFrom(ws, first + 1, first + 2, tolerance) == Returned(rest)
    ensures RelationsFrom(ws, first, |ws|, tolerance) == Returned(rest)
  {
  }

  lemma {:induction false} TwoWindows(ws: seq<WindowGeometry>, tolerance: Distance, relation: AdjacencyRelation)
    requires |ws| == 2 && Adjacency(ws[0], ws[1], tolerance) == Returned(Some(relation))
    ensures RelationsFrom(ws, 0, 1, tolerance) == Returned([relation])
  {
    RowDone(ws, 1, tolerance, []);
    RowDone(ws, 0, tolerance, []);
    PairFound(ws, 0, 1, tolerance, Some(relation), []);
    assert [relation] + [] == [relation];
  }
  // --- The relations of a graph, as a set of pairs ---

  // The pair comes no earlier than the given one, in the order of collection.
  predicate PairFrom(first: nat, second: nat, i: nat, j: nat) {
    i < j && (i > first || (i == first && j >= second))
  }

  ghost predicate RelatedFrom(windows: seq<WindowGeometry>, first: nat, second: nat, tolerance: Distance,
                              r: AdjacencyRelation)
  {
    exists i: nat, j: nat :: PairFrom(first, second, i, j) && j < |windows| &&
                             Adjacency(windows[i], windows[j], tolerance) == Returned(Some(r))
  }

  ghost predicate ThrowsFrom(windows: seq<WindowGeometry>, first: nat, second: nat, tolerance: Distance,
                             error: Exception)
  {
    exists i: nat, j: nat :: PairFrom(first, second, i, j) && j < |windows| &&
                             Adjacency(windows[i], windows[j], tolerance) == Threw(error)
  }

  // By the first identifier, and then by the second.
  ghost predicate InPairOrder(a: AdjacencyRelation, b: AdjacencyRelation) {
    IdLess(a.first, b.first) || (a.first == b.first && IdLess(a.second, b.second))
  }

  lemma PairsSplit(windows: seq<WindowGeometry>, first: nat, second: nat, tolerance: Distance)
    requires first < second < |windows|
    ensures forall e :: ThrowsFrom(windows, first, second, tolerance, e) <==>
                        Adjacency(windows[first], windows[second], tolerance) == Threw(e) ||
                        ThrowsFrom(windows, first, second + 1, tolerance, e)
    ensures forall r :: RelatedFrom(windows, first, second, tolerance, r) <==>
                        Adjacency(windows[first], windows[second], tolerance) == Returned(Some(r)) ||
                        RelatedFrom(windows, first, second + 1, tolerance, r)
  {
    assert PairFrom(first, second, first, second);
    assert forall i: nat, j: nat :: PairFrom(first, second, i, j) <==>
                                    (i == first && j == second) || PairFrom(first, second + 1, i, j);
  }

  lemma RowSplit(windows: seq<WindowGeometry>, first: nat, second: nat, tolerance: Distance)
    requires first < |windows| <= second
    ensures forall e :: ThrowsFrom(windows, first, second, tolerance, e) <==>
                        ThrowsFrom(windows, first + 1, first + 2, tolerance, e)
    ensures forall r :: RelatedFrom(windows, first, second, tolerance, r) <==>
                        RelatedFrom(windows, first + 1, first + 2, tolerance, r)
  {
    assert forall i: nat, j: nat | j < |windows| ::
        PairFrom(first, second, i, j) <==> PairFrom(first + 1, first + 2, i, j);
  }

  lemma {:induction false} RelationsOfPairs(windows: seq<WindowGeometry>, first: nat, second: nat, tolerance: Distance)
    requires first < second
    ensures match RelationsFrom(windows, first, second, tolerance)
            case Threw(error) => ThrowsFrom(windows, first, second, tolerance, error)
            case Returned(rs) =>
              && (forall e :: !ThrowsFrom(windows, first, second, tolerance, e))
              && forall r :: r in rs <==> RelatedFrom(windows, first, second, tolerance, r)
    decreases |windows| - first, |windows| - second
  {
    if first < |windows| {
      if second >= |windows| {
        RowSplit(windows, first, second, tolerance);
        RelationsOfPairs(windows, first + 1, first + 2, tolerance);
      } else {
        PairsSplit(windows, first, second, tolerance);
        RelationsOfPairs(windows, first, second + 1, tolerance);
      }
    }
  }

  lemma RelatedIsAhead(windows: seq<WindowGeometry>, first: nat, second: nat, tolerance: Distance,
                       r: AdjacencyRelation, next: AdjacencyRelation)
    requires StrictlySorted(windows) && first < second < |windows|
    requires Adjacency(windows[first], windows[second], tolerance) == Returned(Some(r))
    requires RelatedFrom(windows, first, second + 1, tolerance, next)
    ensures InPairOrder(r, next)
  {
    var i: nat, j: nat :| PairFrom(first, second + 1, i, j) && j < |windows| &&
                          Adjacency(windows[i], windows[j], tolerance) == Returned(Some(next));
    IdLessTotal(windows[first].id, windows[second].id);
    IdLessTotal(windows[i].id, windows[j].id);
  }

  lemma {:induction false} RelationsInOrder(windows: seq<WindowGeometry>, first: nat, second: nat, tolerance: Distance,
                                            rs: seq<AdjacencyRelation>)
    requires StrictlySorted(windows) && first < second
    requires RelationsFrom(windows, first, second, tolerance) == Returned(rs)
    ensures forall a, b | 0 <= a < b < |rs| :: InPairOrder(rs[a], rs[b])
    decreases |windows| - first, |windows| - second
  {
    if first < |windows| {
      if second >= |windows| {
        RelationsInOrder(windows, first + 1, first + 2, tolerance, rs);
      } else {
        var relation := Adjacency(windows[first], windows[second], tolerance).value;
        var rest := RelationsFrom(windows, first, second + 1, tolerance).value;
        RelationsInOrder(windows, first, second + 1, tolerance, rest);
        RelationsOfPairs(windows, first, second + 1, tolerance);
        if relation.Some? {
          forall k | 0 <= k < |rest| ensures InPairOrder(relation.value, rest[k]) {
            assert rest[k] in rest;
            RelatedIsAhead(windows, first, second, tolerance, relation.value, rest[k]);
          }
        }
      }
    }
  }

  // Only an overflow can be thrown once the identifiers differ and the tolerance is sound.
  ghost predicate PairOverflows(windows: seq<WindowGeometry>, tolerance: Distance) {
    exists i, j | 0 <= i < j < |windows| :: Adjacency(windows[i], windows[j], tolerance) == Threw(Overflow)
  }

  ghost predicate PairRelated(windows: seq<WindowGeometry>, tolerance: Distance, r: AdjacencyRelation) {
    exists i, j | 0 <= i < j < |windows| :: Adjacency(windows[i], windows[j], tolerance) == Returned(Some(r))
  }

  // The windows are in order, no pair overflows, and the relations are those of the pairs.
  ghost predicate Relates(g: Graph, tolerance: Distance) {
    && StrictlySorted(g.windows) && !PairOverflows(g.windows, tolerance)
    && (forall r :: r in g.relations <==> PairRelated(g.windows, tolerance, r))
    && (forall a, b | 0 <= a < b < |g.relations| :: InPairOrder(g.relations[a], g.relations[b]))
  }

  lemma FromTheStart(windows: seq<WindowGeometry>, tolerance: Distance)
    ensures ThrowsFrom(windows, 0, 1, tolerance, Overflow) <==> PairOverflows(windows, tolerance)
    ensures forall r :: RelatedFrom(windows, 0, 1, tolerance, r) <==> PairRelated(windows, tolerance, r)
  {
    assert forall i: nat, j: nat :: PairFrom(0, 1, i, j) <==> i < j;
  }

  lemma OnlyOverflows(windows: seq<WindowGeometry>, tolerance: Distance, error: Exception)
    requires StrictlySorted(windows) && tolerance >= 0 && ThrowsFrom(windows, 0, 1, tolerance, error)
    ensures error == Overflow
  {
    var i: nat, j: nat :| PairFrom(0, 1, i, j) && j < |windows| &&
                          Adjacency(windows[i], windows[j], tolerance) == Threw(error);
    IdLessTotal(windows[i].id, windows[j].id);
  }

  lemma {:induction false} RelatesExactly(windows: seq<WindowGeometry>, tolerance: Distance)
    requires StrictlySorted(windows) && tolerance >= 0
    ensures match RelationsFrom(windows, 0, 1, tolerance)
            case Threw(error) => error == Overflow && PairOverflows(windows, tolerance)
            case Returned(rs) => Relates(Graph(windows, rs), tolerance)
  {
    RelationsOfPairs(windows, 0, 1, tolerance);
    FromTheStart(windows, tolerance);
    match RelationsFrom(windows, 0, 1, tolerance)
    case Threw(error) => OnlyOverflows(windows, tolerance, error);
    case Returned(rs) => RelationsInOrder(windows, 0, 1, tolerance, rs);
  }

  ghost predicate Repeats(windows: seq<WindowGeometry>) {
    exists i, j | 0 <= i < j < |windows| :: windows[i].id == windows[j].id
  }

  // How many windows carry the identifier.
  function Carriers(windows: seq<WindowGeometry>, id: WindowId): nat {
    if windows == [] then 0 else (if windows[0].id == id then 1 else 0) + Carriers(windows[1..], id)
  }

  lemma {:induction false} InsertCarries(window: WindowGeometry, sorted: seq<WindowGeometry>, id: WindowId)
    ensures Carriers(Insert(window, sorted), id) == Carriers([window] + sorted, id)
  {
    assert ([window] + sorted)[1..] == sorted;
    if sorted != [] && IdLess(sorted[0].id, window.id) {
      InsertCarries(window, sorted[1..], id);
      assert ([window] + sorted[1..])[1..] == sorted[1..];
      assert ([sorted[0]] + Insert(window, sorted[1..]))[1..] == Insert(window, sorted[1..]);
    }
  }

  lemma {:induction false} SortingCarries(windows: seq<WindowGeometry>, id: WindowId)
    ensures Carriers(SortById(windows), id) == Carriers(windows, id)
  {
    if windows != [] {
      SortingCarries(windows[1..], id);
      InsertCarries(windows[0], SortById(windows[1..]), id);
      assert ([windows[0]] + SortById(windows[1..]))[1..] == SortById(windows[1..]);
    }
  }

  lemma {:induction false} CarriersAt(windows: seq<WindowGeometry>, id: WindowId)
    ensures Carriers(windows, id) >= 1 <==> exists i | 0 <= i < |windows| :: windows[i].id == id
    ensures Carriers(windows, id) >= 2 <==>
            exists i, j | 0 <= i < j < |windows| :: windows[i].id == id && windows[j].id == id
  {
    if windows != [] {
      CarriersAt(windows[1..], id);
      assert forall k | 0 < k < |windows| :: windows[k] == windows[1..][k - 1];
      assert forall k | 0 <= k < |windows[1..]| :: windows[1..][k] == windows[k + 1];
    }
  }

  lemma {:induction false} RepeatsStay(windows: seq<WindowGeometry>, permuted: seq<WindowGeometry>)
    requires Repeats(windows) && forall id :: Carriers(windows, id) == Carriers(permuted, id)
    ensures Repeats(permuted)
  {
    var i, j :| 0 <= i < j < |windows| && windows[i].id == windows[j].id;
    CarriersAt(windows, windows[i].id);
    CarriersAt(permuted, windows[i].id);
  }

  lemma {:induction false} SortedTwins(sorted: seq<WindowGeometry>)
    requires Sorted(sorted)
    ensures HasNeighbourTwins(sorted) <==> Repeats(sorted)
  {
    SortedWithoutTwins(sorted);
    if Repeats(sorted) {
      var k, l :| 0 <= k < l < |sorted| && sorted[k].id == sorted[l].id;
      IdLessTotal(sorted[k].id, sorted[l].id);
    }
  }

  // Two neighbours of the sorted list are twins exactly when an identifier is repeated.
  lemma {:induction false} TwinsAreRepeated(input: seq<WindowGeometry>, sorted: seq<WindowGeometry>)
    requires sorted == SortById(input)
    ensures HasNeighbourTwins(sorted) <==> Repeats(input)
  {
    SortByIdSorts(input);
    SortedTwins(sorted);
    forall id ensures Carriers(sorted, id) == Carriers(input, id) {
      SortingCarries(input, id);
    }
    if Repeats(input) {
      RepeatsStay(input, sorted);
    }
    if Repeats(sorted) {
      RepeatsStay(sorted, input);
    }
  }

  // What building gives, told by the windows alone: the graph of the windows in order of
  // their identifiers, with the relations of all its pairs and no others, in order and
  // once each; or the exception of a negative tolerance, a repeated identifier, or a pair.
  lemma {:induction false} BuiltExactly(input: seq<WindowGeometry>, tolerance: Distance)
    ensures match Built(input, tolerance)
            case Threw(error) =>
              if tolerance < 0 || Repeats(input) then error == InvalidArgument
              else error == Overflow && PairOverflows(SortById(input), tolerance)
            case Returned(g) =>
              && tolerance >= 0 && !Repeats(input) && multiset(g.windows) == multiset(input)
              && Relates(g, tolerance)
  {
    SortByIdSorts(input);
    SortedWithoutTwins(SortById(input));
    TwinsAreRepeated(input, SortById(input));
    if tolerance >= 0 && !HasNeighbourTwins(SortById(input)) {
      RelatesExactly(SortById(input), tolerance);
    }
  }
}
