/** The two-by-two layout of the companion harness: where it puts the four windows,
    the graph they form, and the room it keeps for the scripted moves. */
module CompanionLayout {
  import opened Wrappers
  import opened Geometry
  import opened Translation
  import opened WindowAdjacency
  import opened AdjacencyGraph
  import opened Connectivity

  const SCRIPT_WIDTH: Distance := 120
  const SCRIPT_HEIGHT: Distance := 60

  datatype Snapshot = Snapshot(visible: Rect, work: Rect, dpi: nat, monitor: string)

  // A layout, or the exception that ends the run: a failed requirement or an overflow.
  datatype Layout = Arranged(rects: seq<Rect>) | RequirementFailed | CoordinateOverflow

  function Width(r: Rect): int {
    r.right - r.left
  }

  function Height(r: Rect): int {
    r.bottom - r.top
  }

  // Spans must be representable, as the geometry header demands of its callers.
  predicate SpansFit(snapshots: seq<Snapshot>) {
    forall k | 0 <= k < |snapshots| :: ExtentsFit(snapshots[k].visible) && ExtentsFit(snapshots[k].work)
  }

  // What the harness requires of the four windows before it arranges them.
  predicate Arrangeable(snapshots: seq<Snapshot>)
    requires |snapshots| == 4
  {
    var w, h := Width(snapshots[0].visible), Height(snapshots[0].visible);
    && w > 0 && h > 0
    && (forall k | 0 <= k < 4 ::
          && Width(snapshots[k].visible) == w && Height(snapshots[k].visible) == h
          && snapshots[k].dpi == snapshots[0].dpi && snapshots[k].monitor == snapshots[0].monitor)
    && 2 * w + SCRIPT_WIDTH <= Width(snapshots[0].work) && 2 * h + SCRIPT_HEIGHT <= Height(snapshots[0].work)
  }

  predicate GridFits(left: int, top: int, w: int, h: int) {
    && w > 0 && h > 0
    && Representable(left) && Representable(top) && Representable(left + 2 * w) && Representable(top + 2 * h)
  }

  // Two rows of two equal rectangles without gaps: A and B above C and D.
  function Grid(left: int, top: int, w: int, h: int): (rects: seq<Rect>)
    requires GridFits(left, top, w, h)
    ensures |rects| == 4
  {
    [RectBounds(left, top, left + w, top + h), RectBounds(left + w, top, left + 2 * w, top + h),
     RectBounds(left, top + h, left + w, top + 2 * h), RectBounds(left + w, top + h, left + 2 * w, top + 2 * h)]
  }

  // Snapshots that the harness arranges.
  predicate Ready(snapshots: seq<Snapshot>) {
    |snapshots| == 4 && SpansFit(snapshots) && Arrangeable(snapshots)
  }

  // Centred, with the extent of the script left free to the right and below.
  function ArrangedRects(snapshots: seq<Snapshot>): (rects: seq<Rect>)
    requires Ready(snapshots)
    ensures |rects| == 4
  {
    var w, h := Width(snapshots[0].visible), Height(snapshots[0].visible);
    var work := snapshots[0].work;
    Grid(work.left + (Width(work) - 2 * w - SCRIPT_WIDTH) / 2, work.top + (Height(work) - 2 * h - SCRIPT_HEIGHT) / 2, w, h)
  }

  predicate Inside(inner: Rect, outer: Rect) {
    outer.left <= inner.left && inner.right <= outer.right && outer.top <= inner.top && inner.bottom <= outer.bottom
  }

  method CheckedSum(value: Coordinate, delta: Distance) returns (r: Option<Coordinate>)
    ensures r == if Representable(value + delta) then Some(value + delta) else None
  {
    r := CheckedAdd(value, delta);
  }

  // The source's requirement, in the order in which it is checked.
  method MeetsRequirements(snapshots: seq<Snapshot>) returns (ok: bool)
    requires |snapshots| == 4 && SpansFit(snapshots)
    ensures ok <==> Arrangeable(snapshots)
  {
    var width: Distance := Width(snapshots[0].visible);
    var height: Distance := Height(snapshots[0].visible);
    if !(width > 0 && height > 0) {
      return false;
    }
    for k := 0 to 4
      invariant forall j | 0 <= j < k ::
                  && Width(snapshots[j].visible) == width && Height(snapshots[j].visible) == height
                  && snapshots[j].dpi == snapshots[0].dpi && snapshots[j].monitor == snapshots[0].monitor
    {
      var s := snapshots[k];
      if !(Width(s.visible) == width && Height(s.visible) == height) || s.dpi != snapshots[0].dpi ||
         s.monitor != snapshots[0].monitor
      {
        return false;
      }
    }
    var doubleWidth, doubleHeight := CheckedAdd(width, width), CheckedAdd(height, height);
    if doubleWidth.None? || doubleHeight.None? {
      return false;
    }
    var requiredWidth := CheckedAdd(doubleWidth.value, SCRIPT_WIDTH);
    var requiredHeight := CheckedAdd(doubleHeight.value, SCRIPT_HEIGHT);
    if requiredWidth.None? || requiredHeight.None? {
      return false;
    }
    return Width(snapshots[0].work) >= requiredWidth.value && Height(snapshots[0].work) >= requiredHeight.value;
  }

  datatype Origin = Origin(x: Coordinate, y: Coordinate)

  predicate HasRoom(o: Origin, width: Distance, height: Distance) {
    Representable(o.x + width) && Representable(o.y + height)
  }

  function RectAt(o: Origin, width: Distance, height: Distance): Rect
    requires HasRoom(o, width, height)
  {
    Normalized(o.x, o.y, o.x + width, o.y + height)
  }

  // One rectangle of the common size at each origin.
  method PlaceRects(origins: seq<Origin>, width: Distance, height: Distance) returns (r: Layout)
    requires |origins| == 4 && width > 0 && height > 0
    requires forall k | 0 <= k < 4 :: HasRoom(origins[k], width, height)
    ensures r.Arranged? && |r.rects| == 4
    ensures forall k | 0 <= k < 4 :: r.rects[k] == RectAt(origins[k], width, height)
  {
    var rects: seq<Rect> := [];
    for k := 0 to 4
      invariant |rects| == k
      invariant forall j | 0 <= j < k :: rects[j] == RectAt(origins[j], width, height)
    {
      var right := CheckedSum(origins[k].x, width);
      var bottom := CheckedSum(origins[k].y, height);
      if right.None? || bottom.None? {
        return CoordinateOverflow;
      }
      rects := rects + [Normalized(origins[k].x, origins[k].y, right.value, bottom.value)];
    }
    return Arranged(rects);
  }

  // Arranged exactly when the requirements hold; no sum ever overflows.
  method DesiredTwoByTwo(snapshots: seq<Snapshot>) returns (r: Layout)
    requires |snapshots| == 4 && SpansFit(snapshots)
    ensures r.Arranged? <==> Arrangeable(snapshots)
    ensures !r.CoordinateOverflow?
    ensures r.Arranged? ==> r.rects == ArrangedRects(snapshots)
  {
    var ok := MeetsRequirements(snapshots);
    if !ok {
      return RequirementFailed;
    }
    var work := snapshots[0].work;
    var width: Distance := Width(snapshots[0].visible);
    var height: Distance := Height(snapshots[0].visible);
    var spareWidth := CheckedDifference(Width(work), 2 * width + SCRIPT_WIDTH);
    var spareHeight := CheckedDifference(Height(work), 2 * height + SCRIPT_HEIGHT);
    if spareWidth.None? || spareHeight.None? {
      return RequirementFailed;
    }
    var left := CheckedSum(work.left, spareWidth.value / 2);
    var top := CheckedSum(work.top, spareHeight.value / 2);
    if left.None? || top.None? {
      return CoordinateOverflow;
    }
    var rightColumn := CheckedSum(left.value, width);
    var bottomRow := CheckedSum(top.value, height);
    if rightColumn.None? || bottomRow.None? {
      return CoordinateOverflow;
    }
    r := PlaceRects([Origin(left.value, top.value), Origin(rightColumn.value, top.value),
                     Origin(left.value, bottomRow.value), Origin(rightColumn.value, bottomRow.value)], width, height);
  }

  // --- The graph of the layout ---

  function Named(rects: seq<Rect>): (windows: seq<WindowGeometry>)
    requires |rects| == 4
  {
    [WindowGeometry("A", rects[0]), WindowGeometry("B", rects[1]),
     WindowGeometry("C", rects[2]), WindowGeometry("D", rects[3])]
  }

  // Windows that share only a corner are not adjacent.
  lemma CornersOnly(a: WindowGeometry, b: WindowGeometry)
    requires a.id != b.id && !RectIsEmpty(a.visibleRect) && !RectIsEmpty(b.visibleRect)
    requires a.visibleRect.bottom == b.visibleRect.top
    requires a.visibleRect.right == b.visibleRect.left || a.visibleRect.left == b.visibleRect.right
    ensures Adjacency(a, b, 0) == Returned(None)
  {
    ZeroToleranceExact(a, b);
    TouchIsBordersMeet(a.visibleRect, b.visibleRect);
  }

  lemma LettersAscend()
    ensures IdLess("A", "B") && IdLess("A", "C") && IdLess("A", "D")
    ensures IdLess("B", "C") && IdLess("B", "D") && IdLess("C", "D")
  {
  }

  function GridRelations(w: Distance, h: Distance): seq<AdjacencyRelation> {
    [AdjacencyRelation("A", "B", Right, Left, 0, h), AdjacencyRelation("A", "C", Bottom, Top, 0, w),
     AdjacencyRelation("B", "D", Bottom, Top, 0, w), AdjacencyRelation("C", "D", Right, Left, 0, h)]
  }

  lemma {:induction false} RowOfC(ws: seq<WindowGeometry>, cd: AdjacencyRelation)
    requires |ws| == 4 && Adjacency(ws[2], ws[3], 0) == Returned(Some(cd))
    ensures RelationsFrom(ws, 2, 3, 0) == Returned([cd])
  {
    RowDone(ws, 3, 0, []);
    RowDone(ws, 2, 0, []);
    PairFound(ws, 2, 3, 0, Some(cd), []);
    assert [cd] + [] == [cd];
  }

  lemma {:induction false} RowOfB(ws: seq<WindowGeometry>, bd: AdjacencyRelation, rest: seq<AdjacencyRelation>)
    requires |ws| == 4 && Adjacency(ws[1], ws[2], 0) == Returned(None) && Adjacency(ws[1], ws[3], 0) == Returned(Some(bd))
    requires RelationsFrom(ws, 2, 3, 0) == Returned(rest)
    ensures RelationsFrom(ws, 1, 2, 0) == Returned([bd] + rest)
  {
    RowDone(ws, 1, 0, rest);
    PairFound(ws, 1, 3, 0, Some(bd), rest);
    PairFound(ws, 1, 2, 0, None, [bd] + rest);
    assert [] + ([bd] + rest) == [bd] + rest;
  }

  lemma {:induction false} RowOfAFromC(ws: seq<WindowGeometry>, ac: AdjacencyRelation, rest: seq<AdjacencyRelation>)
    requires |ws| == 4 && Adjacency(ws[0], ws[2], 0) == Returned(Some(ac)) && Adjacency(ws[0], ws[3], 0) == Returned(None)
    requires RelationsFrom(ws, 1, 2, 0) == Returned(rest)
    ensures RelationsFrom(ws, 0, 2, 0) == Returned([ac] + rest)
  {
    RowDone(ws, 0, 0, rest);
    PairFound(ws, 0, 3, 0, None, rest);
    assert [] + rest == rest;
    PairFound(ws, 0, 2, 0, Some(ac), rest);
  }

  lemma {:induction false} RowOfA(ws: seq<WindowGeometry>, ab: AdjacencyRelation, ac: AdjacencyRelation,
                                  rest: seq<AdjacencyRelation>)
    requires |ws| == 4 && Adjacency(ws[0], ws[1], 0) == Returned(Some(ab))
    requires RelationsFrom(ws, 0, 2, 0) == Returned([ac] + rest)
    ensures RelationsFrom(ws, 0, 1, 0) == Returned([ab, ac] + rest)
  {
    PairFound(ws, 0, 1, 0, Some(ab), [ac] + rest);
    assert [ab] + ([ac] + rest) == [ab, ac] + rest;
  }

  // The relations of the layout, row by row of the pairs.
  lemma GridRowC(left: int, top: int, w: Distance, h: Distance)
    requires GridFits(left, top, w, h)
    ensures RelationsFrom(Named(Grid(left, top, w, h)), 2, 3, 0) == Returned(GridRelations(w, h)[3..])
  {
    LettersAscend();
    var ws := Named(Grid(left, top, w, h));
    SideBySide(ws[2], ws[3]);
    RowOfC(ws, GridRelations(w, h)[3]);
  }

  lemma GridRowB(left: int, top: int, w: Distance, h: Distance)
    requires GridFits(left, top, w, h)
    ensures RelationsFrom(Named(Grid(left, top, w, h)), 1, 2, 0) == Returned(GridRelations(w, h)[2..])
  {
    LettersAscend();
    var ws := Named(Grid(left, top, w, h));
    CornersOnly(ws[1], ws[2]);
    OneAboveOther(ws[1], ws[3]);
    GridRowC(left, top, w, h);
    var rs := GridRelations(w, h);
    RowOfB(ws, rs[2], rs[3..]);
    assert rs[2..] == [rs[2]] + rs[3..];
  }

  lemma GridRowAFromC(left: int, top: int, w: Distance, h: Distance)
    requires GridFits(left, top, w, h)
    ensures RelationsFrom(Named(Grid(left, top, w, h)), 0, 2, 0) == Returned(GridRelations(w, h)[1..])
  {
    LettersAscend();
    var ws, rs := Named(Grid(left, top, w, h)), GridRelations(w, h);
    OneAboveOther(ws[0], ws[2]);
    CornersOnly(ws[0], ws[3]);
    GridRowB(left, top, w, h);
    RowOfAFromC(ws, rs[1], rs[2..]);
    assert rs[1..] == [rs[1]] + rs[2..];
  }

  lemma GridRowA(left: int, top: int, w: Distance, h: Distance)
    requires GridFits(left, top, w, h)
    ensures RelationsFrom(Named(Grid(left, top, w, h)), 0, 1, 0) == Returned(GridRelations(w, h))
  {
    LettersAscend();
    var ws, rs := Named(Grid(left, top, w, h)), GridRelations(w, h);
    SideBySide(ws[0], ws[1]);
    GridRowAFromC(left, top, w, h);
    assert rs[1..] == [rs[1]] + rs[2..];
    RowOfA(ws, rs[0], rs[1], rs[2..]);
    assert rs == [rs[0], rs[1]] + rs[2..];
  }

  lemma LetteredIsSorted(ws: seq<WindowGeometry>)
    requires |ws| == 4 && ws[0].id == "A" && ws[1].id == "B" && ws[2].id == "C" && ws[3].id == "D"
    ensures StrictlySorted(ws)
  {
    LettersAscend();
  }

  // With zero tolerance the layout has exactly its four inner borders as relations.
  lemma GridGraph(left: int, top: int, w: Distance, h: Distance)
    requires GridFits(left, top, w, h)
    ensures var ws := Named(Grid(left, top, w, h));
            Built(ws, 0) == Returned(Graph(ws, GridRelations(w, h)))
  {
    var ws := Named(Grid(left, top, w, h));
    GridRowA(left, top, w, h);
    LetteredIsSorted(ws);
    SortingKeepsSorted(ws);
  }

  lemma AllFromA(g: Graph, w: Distance, h: Distance)
    requires g.relations == GridRelations(w, h)
    ensures Reachable(g, "A", "A") && Reachable(g, "A", "B") && Reachable(g, "A", "C") && Reachable(g, "A", "D")
  {
    ReachableReflexive(g, "A");
    assert Joins(g.relations[0], "A", "B") && Joins(g.relations[1], "A", "C") && Joins(g.relations[2], "B", "D");
    ReachableStep(g, "A", "A", "B");
    ReachableStep(g, "A", "A", "C");
    ReachableStep(g, "A", "B", "D");
  }

  lemma {:induction false} AllReachableKept(g: Graph, start: WindowId, windows: seq<WindowGeometry>)
    requires forall k | 0 <= k < |windows| :: Reachable(g, start, windows[k].id)
    ensures ReachableWindows(g, start, windows) == windows
  {
    if windows != [] {
      AllReachableKept(g, start, windows[1..]);
      assert windows == [windows[0]] + windows[1..];
    }
  }

  // Whichever window leads, the component is A to D.
  lemma GridIsOneComponent(left: int, top: int, w: Distance, h: Distance, k: nat)
    requires GridFits(left, top, w, h) && k < 4
    ensures var ws := Named(Grid(left, top, w, h));
            Component(Graph(ws, GridRelations(w, h)), ws[k].id) == ws
  {
    var ws := Named(Grid(left, top, w, h));
    var g := Graph(ws, GridRelations(w, h));
    AllFromA(g, w, h);
    ReachableSymmetric(g, "A", ws[k].id);
    forall j | 0 <= j < |ws| ensures Reachable(g, ws[k].id, ws[j].id) {
      ReachableTransitive(g, ws[k].id, "A", ws[j].id);
    }
    AllReachableKept(g, ws[k].id, ws);
  }

  // Every window stays inside the work area under every move of the script, and
  // none of these moves overflows.
  lemma GridStaysInside(snapshots: seq<Snapshot>, delta: TranslationDelta, k: nat)
    requires Ready(snapshots) && k < 4
    requires 0 <= delta.dx <= SCRIPT_WIDTH && 0 <= delta.dy <= SCRIPT_HEIGHT
    ensures var rect, work := ArrangedRects(snapshots)[k], snapshots[0].work;
            && Inside(rect, work) && TranslateRect(rect, delta).Returned?
            && Inside(TranslateRect(rect, delta).value, work)
            && Shifted(rect, TranslateRect(rect, delta).value, delta.dx, delta.dy)
  {
    var rect := ArrangedRects(snapshots)[k];
    assert Inside(rect, snapshots[0].work);
    var moved: Rect :=
      RectBounds(rect.left + delta.dx, rect.top + delta.dy, rect.right + delta.dx, rect.bottom + delta.dy);
    ClassifyInvertsTranslate(rect, moved, delta);
  }

  // The grid with the moves of the script lies in the work area at this place.
  predicate RoomAt(work: Rect, left: int, top: int, w: int, h: int) {
    work.left <= left && left + 2 * w + 120 <= work.right && work.top <= top && top + 2 * h + 60 <= work.bottom
  }

  // The windows are arranged whenever they are alike and any place in the work area would
  // do for the grid and the moves of the script.
  lemma ArrangesWheneverPossible(snapshots: seq<Snapshot>)
    requires |snapshots| == 4 && SpansFit(snapshots)
    ensures var w, h := Width(snapshots[0].visible), Height(snapshots[0].visible);
            Ready(snapshots) <==>
              && w > 0 && h > 0 && (forall k | 0 <= k < 4 :: Alike(snapshots[k], snapshots[0]))
              && exists left, top :: RoomAt(snapshots[0].work, left, top, w, h)
  {
    var w, h := Width(snapshots[0].visible), Height(snapshots[0].visible);
    var work := snapshots[0].work;
    if Ready(snapshots) {
      assert RoomAt(work, work.left, work.top, w, h);
    }
    assert (forall k | 0 <= k < 4 :: Alike(snapshots[k], snapshots[0])) ==>
        forall k | 0 <= k < 4 :: Width(snapshots[k].visible) == w && Height(snapshots[k].visible) == h;
  }

  predicate Alike(a: Snapshot, b: Snapshot) {
    Width(a.visible) == Width(b.visible) && Height(a.visible) == Height(b.visible) && a.dpi == b.dpi &&
    a.monitor == b.monitor
  }

  // Every window keeps its size; B is right of A, C below A and D diagonal to it; what the
  // script leaves free of the work area is divided evenly.
  lemma ArrangementIsCentred(snapshots: seq<Snapshot>)
    requires Ready(snapshots)
    ensures var r, work := ArrangedRects(snapshots), snapshots[0].work;
            && (forall k | 0 <= k < 4 ::
                  Width(r[k]) == Width(snapshots[k].visible) && Height(r[k]) == Height(snapshots[k].visible))
            && (r[1].left, r[1].top) == (r[0].right, r[0].top) && (r[2].left, r[2].top) == (r[0].left, r[0].bottom)
            && (r[3].left, r[3].top) == (r[0].right, r[0].bottom)
            && 0 <= (work.right - r[3].right - 120) - (r[0].left - work.left) <= 1
            && 0 <= (work.bottom - r[3].bottom - 60) - (r[0].top - work.top) <= 1
  {
  }

  lemma GraphOfGrid(rects: seq<Rect>, left: int, top: int, w: Distance, h: Distance)
    requires GridFits(left, top, w, h) && rects == Grid(left, top, w, h)
    ensures Built(Named(rects), 0) == Returned(Graph(Named(rects), GridRelations(w, h)))
  {
    GridGraph(left, top, w, h);
  }

  // The graph of the arranged windows is the grid's.
  lemma ArrangedGraph(snapshots: seq<Snapshot>, rects: seq<Rect>)
    requires Ready(snapshots) && rects == ArrangedRects(snapshots)
    ensures Built(Named(rects), 0) ==
            Returned(Graph(Named(rects), GridRelations(Width(snapshots[0].visible), Height(snapshots[0].visible))))
  {
    var w, h := Width(snapshots[0].visible), Height(snapshots[0].visible);
    var work := snapshots[0].work;
    GraphOfGrid(rects, work.left + (Width(work) - 2 * w - SCRIPT_WIDTH) / 2,
                work.top + (Height(work) - 2 * h - SCRIPT_HEIGHT) / 2, w, h);
  }

  method BuildGraph(rects: seq<Rect>) returns (graph: Outcome<Graph>)
    requires |rects| == 4
    ensures graph == Built(Named(rects), 0)
  {
    graph := Build(Named(rects), 0);
  }
}
