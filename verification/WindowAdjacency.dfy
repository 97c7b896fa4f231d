/** Which edges of two windows face each other within a tolerance. */
module WindowAdjacency {
  import opened Wrappers
  import opened Geometry
  import opened Translation

  type WindowId = s: string | s != "" witness "w"

  // Lexicographic order of identifiers.
  predicate IdLess(first: string, second: string) {
    if second == "" then false
    else if first == "" then true
    else first[0] < second[0] || (first[0] == second[0] && IdLess(first[1..], second[1..]))
  }

  lemma {:induction false} IdLessTotal(first: string, second: string)
    ensures IdLess(first, second) || first == second || IdLess(second, first)
    ensures !(IdLess(first, second) && IdLess(second, first))
    ensures first == second ==> !IdLess(first, second)
  {
    if first != "" && second != "" {
      IdLessTotal(first[1..], second[1..]);
      assert first == [first[0]] + first[1..] && second == [second[0]] + second[1..];
    }
  }

  lemma {:induction false} IdLessTransitive(a: string, b: string, c: string)
    requires IdLess(a, b) && IdLess(b, c)
    ensures IdLess(a, c)
  {
    if a != "" && a[0] == b[0] == c[0] {
      IdLessTransitive(a[1..], b[1..], c[1..]);
    }
  }

  // It is the order of a dictionary: a proper prefix comes first, and otherwise the first
  // difference decides.
  lemma {:induction false} IdLessExactly(first: string, second: string)
    ensures IdLess(first, second) <==>
            exists k | 0 <= k <= |first| && k < |second| ::
              first[..k] == second[..k] && (k == |first| || first[k] < second[k])
    decreases |first|
  {
    if first != "" && second != "" && first[0] == second[0] {
      var a, b := first[1..], second[1..];
      IdLessExactly(a, b);
      if k :| 0 <= k <= |a| && k < |b| && a[..k] == b[..k] && (k == |a| || a[k] < b[k]) {
        assert first[..k + 1] == [first[0]] + a[..k] && second[..k + 1] == [second[0]] + b[..k];
      }
      if k :| 0 <= k <= |first| && k < |second| && first[..k] == second[..k] && (k == |first| || first[k] < second[k]) {
        assert a[..k - 1] == first[..k][1..] && b[..k - 1] == second[..k][1..];
      }
    } else if second != "" {
      assert first[..0] == second[..0];
      forall k | 0 < k <= |first| && k < |second| ensures first[..k] != second[..k] {
        assert first[..k][0] == first[0] && second[..k][0] == second[0];
      }
    }
  }

  datatype WindowGeometry = WindowGeometry(id: WindowId, visibleRect: Rect)

  datatype AdjacencyRelation = AdjacencyRelation(
    first: WindowId, second: WindowId,
    firstEdge: Edge, secondEdge: Edge,
    signedGap: Distance, orthogonalOverlap: Distance)

  predicate RectIsEmpty(rect: Rect) {
    rect.left == rect.right || rect.top == rect.bottom
  }

  // The length of the common part of two intervals, over unbounded integers.
  function OverlapLength(firstMin: int, firstMax: int, secondMin: int, secondMax: int): int {
    Max(0, Min(firstMax, secondMax) - Max(firstMin, secondMin))
  }

  function PositiveIntervalOverlap(firstMin: Coordinate, firstMax: Coordinate,
                                   secondMin: Coordinate, secondMax: Coordinate): (r: Outcome<Distance>)
    ensures var length := OverlapLength(firstMin, firstMax, secondMin, secondMax);
            r == if Representable(length) then Returned(length) else Threw(Overflow)
  {
    var lower: Coordinate := Max(firstMin, secondMin);
    var upper: Coordinate := Min(firstMax, secondMax);
    if upper <= lower then Returned(0)
    else
      var overlap := CheckedDifference(upper, lower);
      if overlap.Some? then Returned(overlap.value) else Threw(Overflow)
  }

  // One of the four pairs of opposing edges.
  datatype Contact = Contact(firstEdge: Edge, secondEdge: Edge, minuend: Coordinate, subtrahend: Coordinate,
                             overlap: Distance)
  {
    predicate Holds(tolerance: Distance) {
      overlap > 0 && DifferenceWithin(minuend, subtrahend, tolerance)
    }

    function Relation(first: WindowId, second: WindowId): AdjacencyRelation
      requires Representable(minuend - subtrahend)
    {
      AdjacencyRelation(first, second, firstEdge, secondEdge, minuend - subtrahend, overlap)
    }
  }

  function Contacts(first: Rect, second: Rect, vertical: Distance, horizontal: Distance): (contacts: seq<Contact>)
    ensures |contacts| == 4
  {
    [Contact(Right, Left, second.left, first.right, vertical),
     Contact(Left, Right, first.left, second.right, vertical),
     Contact(Bottom, Top, second.top, first.bottom, horizontal),
     Contact(Top, Bottom, first.top, second.bottom, horizontal)]
  }

  ghost predicate OnlyHolds(contacts: seq<Contact>, tolerance: Distance, k: nat) {
    && k < |contacts|
    && contacts[k].Holds(tolerance)
    && forall j | 0 <= j < |contacts| && j != k :: !contacts[j].Holds(tolerance)
  }

  // The index of the contact that holds, if there is exactly one.
  ghost function OnlyContact(contacts: seq<Contact>, tolerance: Distance): (r: Option<nat>)
    ensures r.Some? ==> OnlyHolds(contacts, tolerance, r.value)
    ensures r.None? ==> forall k: nat :: !OnlyHolds(contacts, tolerance, k)
  {
    if exists k: nat :: OnlyHolds(contacts, tolerance, k)
    then
      var k: nat :| OnlyHolds(contacts, tolerance, k);
      Some(k)
    else None
  }

  // The pair with the smaller identifier first.
  function Ordered(a: WindowGeometry, b: WindowGeometry): (WindowGeometry, WindowGeometry) {
    if IdLess(b.id, a.id) then (b, a) else (a, b)
  }

  // The relation of the one contact that holds between two nonempty windows.
  ghost function Facing(first: WindowGeometry, second: WindowGeometry, tolerance: Distance)
    : Outcome<Option<AdjacencyRelation>>
  {
    var (f, s) := (first.visibleRect, second.visibleRect);
    var vertical := OverlapLength(f.top, f.bottom, s.top, s.bottom);
    var horizontal := OverlapLength(f.left, f.right, s.left, s.right);
    if !Representable(vertical) || !Representable(horizontal) then Threw(Overflow)
    else
      var contacts := Contacts(f, s, vertical, horizontal);
      var only := OnlyContact(contacts, tolerance);
      if only.None? then Returned(None)
      else Returned(Some(contacts[only.value].Relation(first.id, second.id)))
  }

  // What `FindAdjacency` answers.
  ghost function Adjacency(a: WindowGeometry, b: WindowGeometry, tolerance: Distance)
    : Outcome<Option<AdjacencyRelation>>
  {
    if tolerance < 0 || a.id == b.id then Threw(InvalidArgument)
    else if RectIsEmpty(a.visibleRect) || RectIsEmpty(b.visibleRect) then Returned(None)
    else
      var (first, second) := Ordered(a, b);
      Facing(first, second, tolerance)
  }

  // Consider each contact in turn; a second one that holds makes the pair ambiguous.
  method PickContact(contacts: seq<Contact>, tolerance: Distance) returns (candidate: Option<Contact>)
    ensures var only := OnlyContact(contacts, tolerance);
            candidate == if only.None? then None else Some(contacts[only.value])
  {
    candidate := None;
    var multiple := false;
    ghost var found := 0;
    for k := 0 to |contacts|
      invariant candidate.None? ==> !multiple && forall j | 0 <= j < k :: !contacts[j].Holds(tolerance)
      invariant candidate.Some? ==> found < k && contacts[found].Holds(tolerance) && candidate == Some(contacts[found])
      invariant candidate.Some? && !multiple ==> OnlyHolds(contacts[..k], tolerance, found)
      invariant multiple ==> exists j | 0 <= j < k && j != found :: contacts[j].Holds(tolerance)
    {
      if contacts[k].Holds(tolerance) {
        if candidate.Some? {
          multiple := true;
        } else {
          candidate := Some(contacts[k]);
          found := k;
        }
      }
    }
    assert contacts[..|contacts|] == contacts;
    if multiple {
      assert forall k: nat :: !OnlyHolds(contacts, tolerance, k);
      return None;
    }
    if candidate.None? {
      assert forall k: nat :: !OnlyHolds(contacts, tolerance, k);
    }
  }

  method FindAdjacency(a: WindowGeometry, b: WindowGeometry, tolerance: Distance)
    returns (r: Outcome<Option<AdjacencyRelation>>)
    ensures r == Adjacency(a, b, tolerance)
  {
    if tolerance < 0 {
      return Threw(InvalidArgument);
    }
    if a.id == b.id {
      return Threw(InvalidArgument);
    }
    if RectIsEmpty(a.visibleRect) || RectIsEmpty(b.visibleRect) {
      return Returned(None);
    }
    var first, second := a, b;
    if IdLess(second.id, first.id) {
      first, second := second, first;
    }
    var f, s := first.visibleRect, second.visibleRect;
    var vertical := PositiveIntervalOverlap(f.top, f.bottom, s.top, s.bottom);
    if vertical.Threw? {
      return Threw(Overflow);
    }
    var horizontal := PositiveIntervalOverlap(f.left, f.right, s.left, s.right);
    if horizontal.Threw? {
      return Threw(Overflow);
    }
    var contacts := Contacts(f, s, vertical.value, horizontal.value);
    var candidate := PickContact(contacts, tolerance);
    return Returned(if candidate.None? then None else Some(candidate.value.Relation(first.id, second.id)));
  }

  lemma AdjacencySymmetric(a: WindowGeometry, b: WindowGeometry, tolerance: Distance)
    ensures Adjacency(a, b, tolerance) == Adjacency(b, a, tolerance)
  {
    IdLessTotal(a.id, b.id);
  }

  lemma OverlapLengthShifted(firstMin: int, firstMax: int, secondMin: int, secondMax: int, d: int)
    ensures OverlapLength(firstMin + d, firstMax + d, secondMin + d, secondMax + d) ==
            OverlapLength(firstMin, firstMax, secondMin, secondMax)
  {
  }

  lemma ContactsShifted(f: Rect, s: Rect, f': Rect, s': Rect, vertical: Distance, horizontal: Distance,
                        dx: int, dy: int, k: nat)
    requires Shifted(f, f', dx, dy) && Shifted(s, s', dx, dy) && k < 4
    ensures var c, c' := Contacts(f, s, vertical, horizontal)[k], Contacts(f', s', vertical, horizontal)[k];
            && c.firstEdge == c'.firstEdge && c.secondEdge == c'.secondEdge && c.overlap == c'.overlap
            && c.minuend - c.subtrahend == c'.minuend - c'.subtrahend
  {
  }

  lemma FacingTranslationInvariant(first: WindowGeometry, second: WindowGeometry, tolerance: Distance,
                                   movedFirst: Rect, movedSecond: Rect, dx: int, dy: int)
    requires Shifted(first.visibleRect, movedFirst, dx, dy) && Shifted(second.visibleRect, movedSecond, dx, dy)
    ensures Facing(WindowGeometry(first.id, movedFirst), WindowGeometry(second.id, movedSecond), tolerance) ==
            Facing(first, second, tolerance)
  {
    var (f, s) := (first.visibleRect, second.visibleRect);
    var vertical := OverlapLength(f.top, f.bottom, s.top, s.bottom);
    var horizontal := OverlapLength(f.left, f.right, s.left, s.right);
    OverlapLengthShifted(f.top, f.bottom, s.top, s.bottom, dy);
    OverlapLengthShifted(f.left, f.right, s.left, s.right, dx);
    if Representable(vertical) && Representable(horizontal) {
      FacingByContacts(first, second, tolerance, movedFirst, movedSecond, dx, dy, vertical, horizontal);
    }
  }

  lemma FacingByContacts(first: WindowGeometry, second: WindowGeometry, tolerance: Distance,
                         movedFirst: Rect, movedSecond: Rect, dx: int, dy: int,
                         vertical: Distance, horizontal: Distance)
    requires Shifted(first.visibleRect, movedFirst, dx, dy) && Shifted(second.visibleRect, movedSecond, dx, dy)
    ensures var still := Contacts(first.visibleRect, second.visibleRect, vertical, horizontal);
            var moved := Contacts(movedFirst, movedSecond, vertical, horizontal);
            var only := OnlyContact(still, tolerance);
            && OnlyContact(moved, tolerance) == only
            && (only.Some? ==> still[only.value].Relation(first.id, second.id) ==
                               moved[only.value].Relation(first.id, second.id))
  {
    var still := Contacts(first.visibleRect, second.visibleRect, vertical, horizontal);
    var moved := Contacts(movedFirst, movedSecond, vertical, horizontal);
    forall k | 0 <= k < |still|
      ensures moved[k].Holds(tolerance) == still[k].Holds(tolerance)
      ensures still[k].Holds(tolerance) ==>
              still[k].Relation(first.id, second.id) == moved[k].Relation(first.id, second.id)
    {
      ContactsShifted(first.visibleRect, second.visibleRect, movedFirst, movedSecond, vertical, horizontal, dx, dy, k);
    }
    OnlyContactAgrees(still, moved, tolerance);
  }

  // Moving both windows by one delta changes neither the relation nor the
  // exception, whenever both moved rectangles fit in 64 bits.
  lemma AdjacencyTranslationInvariant(a: WindowGeometry, b: WindowGeometry, tolerance: Distance,
                                      movedA: Rect, movedB: Rect, dx: int, dy: int)
    requires Shifted(a.visibleRect, movedA, dx, dy) && Shifted(b.visibleRect, movedB, dx, dy)
    ensures Adjacency(WindowGeometry(a.id, movedA), WindowGeometry(b.id, movedB), tolerance) ==
            Adjacency(a, b, tolerance)
  {
    FacingTranslationInvariant(a, b, tolerance, movedA, movedB, dx, dy);
    FacingTranslationInvariant(b, a, tolerance, movedB, movedA, dx, dy);
  }

  lemma OnlyContactAgrees(still: seq<Contact>, moved: seq<Contact>, tolerance: Distance)
    requires |still| == |moved|
    requires forall k | 0 <= k < |still| :: moved[k].Holds(tolerance) == still[k].Holds(tolerance)
    ensures OnlyContact(still, tolerance) == OnlyContact(moved, tolerance)
  {
    assert forall k: nat :: OnlyHolds(still, tolerance, k) <==> OnlyHolds(moved, tolerance, k);
  }

  // --- Zero tolerance: adjacency as a fact about the points of the plane ---

  predicate Covers(rect: Rect, x: int, y: int) {
    rect.left <= x <= rect.right && rect.top <= y <= rect.bottom
  }

  // The unit square with corners (x, y) and (x+1, y+1) lies inside the rectangle.
  predicate CoversSquare(rect: Rect, x: int, y: int) {
    rect.left <= x < rect.right && rect.top <= y < rect.bottom
  }

  // Two rectangles share a stretch of border and nothing more: two different
  // lattice points in common, but no unit square.
  ghost predicate TouchAlongEdge(a: Rect, b: Rect) {
    && (exists x, y, x', y' :: (x != x' || y != y') && Covers(a, x, y) && Covers(b, x, y) &&
                               Covers(a, x', y') && Covers(b, x', y'))
    && (forall x, y :: !(CoversSquare(a, x, y) && CoversSquare(b, x, y)))
  }

  // A common stretch of border along one of the four pairs of edges.
  predicate BordersMeet(a: Rect, b: Rect) {
    || ((a.right == b.left || a.left == b.right) && OverlapLength(a.top, a.bottom, b.top, b.bottom) > 0)
    || ((a.bottom == b.top || a.top == b.bottom) && OverlapLength(a.left, a.right, b.left, b.right) > 0)
  }

  lemma TouchIsBordersMeet(a: Rect, b: Rect)
    requires !RectIsEmpty(a) && !RectIsEmpty(b)
    ensures TouchAlongEdge(a, b) <==> BordersMeet(a, b)
  {
    var left, right := Max(a.left, b.left), Min(a.right, b.right);
    var top, bottom := Max(a.top, b.top), Min(a.bottom, b.bottom);
    if left < right && top < bottom {
      assert CoversSquare(a, left, top) && CoversSquare(b, left, top);
    }
    if BordersMeet(a, b) {
      assert Covers(a, left, top) && Covers(b, left, top) && Covers(a, right, bottom) && Covers(b, right, bottom);
    }
  }

  // Nonempty rectangles without a gap between them have one contact at most.
  lemma ContactsExclude(f: Rect, s: Rect, vertical: Distance, horizontal: Distance, k: nat)
    requires !RectIsEmpty(f) && !RectIsEmpty(s) && k < 4
    requires vertical == OverlapLength(f.top, f.bottom, s.top, s.bottom)
    requires horizontal == OverlapLength(f.left, f.right, s.left, s.right)
    requires Contacts(f, s, vertical, horizontal)[k].Holds(0)
    ensures OnlyHolds(Contacts(f, s, vertical, horizontal), 0, k)
  {
  }

  // With zero tolerance two contacts never compete: the answer is a relation
  // exactly when the rectangles are nonempty and touch along an edge.
  lemma ZeroToleranceExact(a: WindowGeometry, b: WindowGeometry)
    requires a.id != b.id
    ensures var r := Adjacency(a, b, 0);
            var (p, q) := (a.visibleRect, b.visibleRect);
            if RectIsEmpty(p) || RectIsEmpty(q) then r == Returned(None)
            else if !Representable(OverlapLength(p.top, p.bottom, q.top, q.bottom)) ||
                    !Representable(OverlapLength(p.left, p.right, q.left, q.right)) then r == Threw(Overflow)
            else
              && r.Returned?
              && (r.value.Some? <==> TouchAlongEdge(p, q))
              && (r.value.Some? ==> r.value.value.signedGap == 0 && r.value.value.orthogonalOverlap > 0)
  {
    if !RectIsEmpty(a.visibleRect) && !RectIsEmpty(b.visibleRect) {
      TouchIsBordersMeet(a.visibleRect, b.visibleRect);
      var (first, second) := Ordered(a, b);
      var (f, s) := (first.visibleRect, second.visibleRect);
      var vertical := OverlapLength(f.top, f.bottom, s.top, s.bottom);
      var horizontal := OverlapLength(f.left, f.right, s.left, s.right);
      if Representable(vertical) && Representable(horizontal) {
        var contacts := Contacts(f, s, vertical, horizontal);
        if contacts[0].Holds(0) {
          ContactsExclude(f, s, vertical, horizontal, 0);
        } else if contacts[1].Holds(0) {
          ContactsExclude(f, s, vertical, horizontal, 1);
        } else if contacts[2].Holds(0) {
          ContactsExclude(f, s, vertical, horizontal, 2);
        } else if contacts[3].Holds(0) {
          ContactsExclude(f, s, vertical, horizontal, 3);
        }
      }
    }
  }

  // --- Neighbours without a gap ---

  lemma OnlyContactIs(contacts: seq<Contact>, tolerance: Distance, k: nat)
    requires OnlyHolds(contacts, tolerance, k)
    ensures OnlyContact(contacts, tolerance) == Some(k)
  {
  }

  // A window and its right neighbour, in the same row.
  lemma SideBySide(a: WindowGeometry, b: WindowGeometry)
    requires IdLess(a.id, b.id) && !RectIsEmpty(a.visibleRect) && !RectIsEmpty(b.visibleRect)
    requires a.visibleRect.right == b.visibleRect.left
    requires a.visibleRect.top == b.visibleRect.top && a.visibleRect.bottom == b.visibleRect.bottom
    requires ExtentsFit(a.visibleRect) && ExtentsFit(b.visibleRect)
    ensures Adjacency(a, b, 0) ==
            Returned(Some(AdjacencyRelation(a.id, b.id, Right, Left, 0, a.visibleRect.bottom - a.visibleRect.top)))
  {
    IdLessTotal(a.id, b.id);
    var contacts := Contacts(a.visibleRect, b.visibleRect, a.visibleRect.bottom - a.visibleRect.top, 0);
    assert OnlyHolds(contacts, 0, 0);
    OnlyContactIs(contacts, 0, 0);
  }

  // A window and the one below it, in the same column.
  lemma OneAboveOther(a: WindowGeometry, b: WindowGeometry)
    requires IdLess(a.id, b.id) && !RectIsEmpty(a.visibleRect) && !RectIsEmpty(b.visibleRect)
    requires a.visibleRect.bottom == b.visibleRect.top
    requires a.visibleRect.left == b.visibleRect.left && a.visibleRect.right == b.visibleRect.right
    requires ExtentsFit(a.visibleRect) && ExtentsFit(b.visibleRect)
    ensures Adjacency(a, b, 0) ==
            Returned(Some(AdjacencyRelation(a.id, b.id, Bottom, Top, 0, a.visibleRect.right - a.visibleRect.left)))
  {
    IdLessTotal(a.id, b.id);
    var contacts := Contacts(a.visibleRect, b.visibleRect, 0, a.visibleRect.right - a.visibleRect.left);
    assert OnlyHolds(contacts, 0, 2);
    OnlyContactIs(contacts, 0, 2);
  }
  // --- Adjacency edge by edge, for every tolerance ---

  function Opposite(edge: Edge): Edge {
    match edge
    case Left => Right
    case Right => Left
    case Top => Bottom
    case Bottom => Top
  }

  // How far the edge of the first rectangle is from the opposite edge of the second;
  // negative when the rectangles reach past each other there.
  function GapAt(f: Rect, s: Rect, edge: Edge): int {
    match edge
    case Left => f.left - s.right
    case Right => s.left - f.right
    case Top => f.top - s.bottom
    case Bottom => s.top - f.bottom
  }

  // The length that the two edges have in common.
  function SharedAt(f: Rect, s: Rect, edge: Edge): int {
    if edge.Left? || edge.Right? then OverlapLength(f.top, f.bottom, s.top, s.bottom)
    else OverlapLength(f.left, f.right, s.left, s.right)
  }

  predicate NearAt(f: Rect, s: Rect, edge: Edge, tolerance: Distance) {
    SharedAt(f, s, edge) > 0 && GapAt(f, s, edge) <= tolerance && -GapAt(f, s, edge) <= tolerance
  }

  ghost predicate OnlyNearAt(f: Rect, s: Rect, edge: Edge, tolerance: Distance) {
    NearAt(f, s, edge, tolerance) && forall other: Edge | other != edge :: !NearAt(f, s, other, tolerance)
  }

  ghost predicate OverlapsFit(f: Rect, s: Rect) {
    forall edge: Edge :: Representable(SharedAt(f, s, edge))
  }

  function PlaceOf(edge: Edge): nat {
    match edge case Right => 0 case Left => 1 case Bottom => 2 case Top => 3
  }

  lemma ContactAtEdge(f: Rect, s: Rect, vertical: Distance, horizontal: Distance, tolerance: Distance, edge: Edge)
    requires vertical == SharedAt(f, s, Left) && horizontal == SharedAt(f, s, Top)
    ensures var contact := Contacts(f, s, vertical, horizontal)[PlaceOf(edge)];
            && contact.firstEdge == edge && contact.secondEdge == Opposite(edge)
            && contact.minuend - contact.subtrahend == GapAt(f, s, edge) && contact.overlap == SharedAt(f, s, edge)
            && (contact.Holds(tolerance) <==> NearAt(f, s, edge, tolerance))
  {
  }

  lemma OnlyContactAtEdge(f: Rect, s: Rect, vertical: Distance, horizontal: Distance, tolerance: Distance, edge: Edge)
    requires vertical == SharedAt(f, s, Left) && horizontal == SharedAt(f, s, Top)
    ensures OnlyHolds(Contacts(f, s, vertical, horizontal), tolerance, PlaceOf(edge)) <==>
            OnlyNearAt(f, s, edge, tolerance)
  {
    var contacts := Contacts(f, s, vertical, horizontal);
    forall other: Edge ensures contacts[PlaceOf(other)].Holds(tolerance) <==> NearAt(f, s, other, tolerance) {
      ContactAtEdge(f, s, vertical, horizontal, tolerance, other);
    }
    assert PlaceOf(Right) == 0 && PlaceOf(Left) == 1 && PlaceOf(Bottom) == 2 && PlaceOf(Top) == 3;
  }

  // What the answer says about the two rectangles, window with the smaller identifier
  // first: the named edge is the only one within the tolerance of its opposite, the gap
  // is theirs, and the overlap is what they share; no relation means no such edge.
  ghost predicate Tells(f: WindowGeometry, s: WindowGeometry, tolerance: Distance, answer: Option<AdjacencyRelation>) {
    match answer
    case None => forall edge: Edge :: !OnlyNearAt(f.visibleRect, s.visibleRect, edge, tolerance)
    case Some(r) =>
      && r.first == f.id && r.second == s.id
      && r.secondEdge == Opposite(r.firstEdge) && OnlyNearAt(f.visibleRect, s.visibleRect, r.firstEdge, tolerance)
      && r.signedGap == GapAt(f.visibleRect, s.visibleRect, r.firstEdge)
      && r.orthogonalOverlap == SharedAt(f.visibleRect, s.visibleRect, r.firstEdge)
  }

  lemma FacingTells(first: WindowGeometry, second: WindowGeometry, tolerance: Distance)
    requires OverlapsFit(first.visibleRect, second.visibleRect)
    ensures var r := Facing(first, second, tolerance); r.Returned? && Tells(first, second, tolerance, r.value)
  {
    var (f, s) := (first.visibleRect, second.visibleRect);
    assert Representable(SharedAt(f, s, Left)) && Representable(SharedAt(f, s, Top));
    var vertical: Distance, horizontal: Distance := SharedAt(f, s, Left), SharedAt(f, s, Top);
    forall edge: Edge
      ensures OnlyHolds(Contacts(f, s, vertical, horizontal), tolerance, PlaceOf(edge)) <==>
              OnlyNearAt(f, s, edge, tolerance)
    {
      OnlyContactAtEdge(f, s, vertical, horizontal, tolerance, edge);
    }
    var only := OnlyContact(Contacts(f, s, vertical, horizontal), tolerance);
    if only.Some? {
      var k := only.value;
      var edge := if k == 0 then Right else if k == 1 then Left else if k == 2 then Bottom else Top;
      ContactAtEdge(f, s, vertical, horizontal, tolerance, edge);
    }
  }

  // For windows with the smaller identifier first and every tolerance: which edges a
  // relation names, its gap and overlap, when there is none, and when the call throws.
  lemma AdjacencyTells(a: WindowGeometry, b: WindowGeometry, tolerance: Distance)
    requires IdLess(a.id, b.id)
    ensures var r := Adjacency(a, b, tolerance);
            var (f, s) := (a.visibleRect, b.visibleRect);
            && r == Adjacency(b, a, tolerance)
            && if tolerance < 0 then r == Threw(InvalidArgument)
               else if f.left == f.right || f.top == f.bottom || s.left == s.right || s.top == s.bottom then
                 r == Returned(None)
               else if !OverlapsFit(f, s) then r == Threw(Overflow)
               else r.Returned? && Tells(a, b, tolerance, r.value)
  {
    IdLessTotal(a.id, b.id);
    var (f, s) := (a.visibleRect, b.visibleRect);
    assert SharedAt(f, s, Left) == SharedAt(f, s, Right) && SharedAt(f, s, Top) == SharedAt(f, s, Bottom);
    if OverlapsFit(f, s) {
      FacingTells(a, b, tolerance);
    }
  }
}
