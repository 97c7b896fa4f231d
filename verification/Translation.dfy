/** Classifying a geometry change as a pure translation, and applying one. */
module Translation {
  import opened Wrappers
  import opened Geometry

  datatype TranslationDelta = TranslationDelta(dx: Distance, dy: Distance)

  const NO_MOVE := TranslationDelta(0, 0)

  datatype GeometryChange = Unchanged | Translated(delta: TranslationDelta) | ResizeOrMixed

  function CheckedExtent(maximum: Coordinate, minimum: Coordinate): Outcome<Distance> {
    var extent := CheckedDifference(maximum, minimum);
    if extent.Some? then Returned(extent.value) else Threw(Overflow)
  }

  function CheckedTranslate(coordinate: Coordinate, delta: Distance): Outcome<Coordinate> {
    var translated := CheckedAdd(coordinate, delta);
    if translated.Some? then Returned(translated.value) else Threw(Overflow)
  }

  // All four edges of `before` shifted by (dx, dy), over unbounded integers.
  predicate Shifted(before: Rect, after: Rect, dx: int, dy: int) {
    after.left == before.left + dx && after.right == before.right + dx &&
    after.top == before.top + dy && after.bottom == before.bottom + dy
  }

  predicate SameSize(a: Rect, b: Rect) {
    a.right - a.left == b.right - b.left && a.bottom - a.top == b.bottom - b.top
  }

  // The contract says when each answer is given, for every pair of 64-bit
  // rectangles; the source's check for two different deltas can never succeed.
  function ClassifyGeometryChange(before: Rect, after: Rect): (c: Outcome<GeometryChange>)
    ensures c == Returned(Unchanged) <==> before == after
    ensures c == Returned(ResizeOrMixed) <==>
            ExtentsFit(before) && ExtentsFit(after) && !SameSize(before, after)
    ensures c == Threw(Overflow) <==>
            && before != after
            && (ExtentsFit(before) && ExtentsFit(after) ==>
                && SameSize(before, after)
                && !(Representable(after.left - before.left) && Representable(after.top - before.top)))
    ensures c.Returned? && c.value.Translated? ==>
            before != after && Shifted(before, after, c.value.delta.dx, c.value.delta.dy)
    ensures c != Threw(Logic) && c != Threw(InvalidArgument)
  {
    if before == after then Returned(Unchanged)
    else
      var beforeWidth :- CheckedExtent(before.right, before.left);
      var beforeHeight :- CheckedExtent(before.bottom, before.top);
      var afterWidth :- CheckedExtent(after.right, after.left);
      var afterHeight :- CheckedExtent(after.bottom, after.top);
      if beforeWidth != afterWidth || beforeHeight != afterHeight then Returned(ResizeOrMixed)
      else
        var dx := CheckedDifference(after.left, before.left);
        var dy := CheckedDifference(after.top, before.top);
        var rightDx := CheckedDifference(after.right, before.right);
        var bottomDy := CheckedDifference(after.bottom, before.bottom);
        if dx.None? || dy.None? || rightDx.None? || bottomDy.None? then Threw(Overflow)
        else if dx.value != rightDx.value || dy.value != bottomDy.value then Threw(Logic)
        else Returned(Translated(TranslationDelta(dx.value, dy.value)))
  }

  function TranslateRect(rect: Rect, delta: TranslationDelta): Outcome<Rect> {
    var left :- CheckedTranslate(rect.left, delta.dx);
    var top :- CheckedTranslate(rect.top, delta.dy);
    var right :- CheckedTranslate(rect.right, delta.dx);
    var bottom :- CheckedTranslate(rect.bottom, delta.dy);
    Returned(Normalized(left, top, right, bottom))
  }

  // Classifying and translating undo each other. Translating needs no extent,
  // so the one side condition is that the extents of the rectangle fit.
  lemma ClassifyInvertsTranslate(before: Rect, after: Rect, delta: TranslationDelta)
    ensures ClassifyGeometryChange(before, after) == Returned(Translated(delta)) <==>
            TranslateRect(before, delta) == Returned(after) && delta != NO_MOVE && ExtentsFit(before)
    ensures TranslateRect(before, delta) == Returned(after) <==> Shifted(before, after, delta.dx, delta.dy)
  {
  }

  // Two native rectangles always classify, and any native rectangle can follow.
  lemma NativeNeverOverflows(before: Rect, after: Rect, follower: Rect)
    requires IsNativeRect(before) && IsNativeRect(after) && IsNativeRect(follower)
    ensures var c := ClassifyGeometryChange(before, after);
            c.Returned? && (c.value.Translated? ==> TranslateRect(follower, c.value.delta).Returned?)
  {
  }
}
