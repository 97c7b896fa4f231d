/** A frozen component and its leader: where every other window goes when the leader moves. */
module TranslationSession {
  import opened Wrappers
  import opened Geometry
  import opened Translation
  import opened WindowAdjacency
  import opened AdjacencyGraph
  import opened Connectivity

  datatype PlannedTranslation = PlannedTranslation(id: WindowId, targetVisibleRect: Rect)

  datatype Session = Session(leader: WindowId, initialLeader: Rect, initialComponent: seq<WindowGeometry>)

  // --- Construction ---

  function RectOf(windows: seq<WindowGeometry>, id: WindowId): Rect {
    if windows == [] then ZERO_RECT
    else if windows[0].id == id then windows[0].visibleRect
    else RectOf(windows[1..], id)
  }

  lemma {:induction false} RectOfAt(windows: seq<WindowGeometry>, k: nat)
    requires StrictlySorted(windows) && k < |windows|
    ensures RectOf(windows, windows[k].id) == windows[k].visibleRect
  {
    if k > 0 {
      IdLessTotal(windows[0].id, windows[k].id);
      RectOfAt(windows[1..], k - 1);
    }
  }

  // What `Create` returns: the windows reachable from the leader.
  ghost function Created(g: Graph, leader: WindowId): Outcome<Session> {
    if !Knows(g.windows, leader) then Threw(InvalidArgument)
    else Returned(Session(leader, RectOf(g.windows, leader), Component(g, leader)))
  }

  lemma SameIdSameWindow(windows: seq<WindowGeometry>, a: WindowGeometry, b: WindowGeometry)
    requires StrictlySorted(windows) && a in windows && b in windows && a.id == b.id
    ensures a == b
  {
    IdLessTotal(a.id, b.id);
  }

  method Lookup(windows: seq<WindowGeometry>, id: WindowId) returns (r: Option<WindowGeometry>)
    requires StrictlySorted(windows)
    ensures r.None? ==> !Knows(windows, id)
    ensures r.Some? ==> r.value in windows && r.value.id == id && r.value.visibleRect == RectOf(windows, id)
    ensures r.Some? ==> forall w | w in windows && w.id == id :: w == r.value
  {
    var index := IndexOf(windows, id);
    if index.None? {
      return None;
    }
    RectOfAt(windows, index.value);
    forall w | w in windows && w.id == id ensures w == windows[index.value] {
      SameIdSameWindow(windows, w, windows[index.value]);
    }
    return Some(windows[index.value]);
  }

  // The constructor's loop: look every identifier of the component up again
  // and remember the leader's rectangle on the way.
  method Freeze(windows: seq<WindowGeometry>, leader: WindowId, component: seq<WindowId>,
                ghost expected: seq<WindowGeometry>)
    returns (r: Outcome<Session>)
    requires StrictlySorted(windows)
    requires |component| == |expected| && leader in component
    requires forall k | 0 <= k < |expected| :: expected[k] in windows && component[k] == expected[k].id
    ensures r == Returned(Session(leader, RectOf(windows, leader), expected))
  {
    var initialComponent := [];
    var initialLeader := ZERO_RECT;
    var leaderFound := false;
    for k := 0 to |component|
      invariant initialComponent == expected[..k]
      invariant leaderFound <==> leader in component[..k]
      invariant leaderFound ==> initialLeader == RectOf(windows, leader)
    {
      assert component[..k + 1] == component[..k] + [component[k]];
      var window := Lookup(windows, component[k]);
      if window.None? {
        return Threw(Logic);
      }
      initialComponent := initialComponent + [window.value];
      if window.value.id == leader {
        initialLeader := window.value.visibleRect;
        leaderFound := true;
      }
    }
    assert component[..|component|] == component && expected[..|component|] == expected;
    if !leaderFound {
      return Threw(Logic);
    }
    return Returned(Session(leader, initialLeader, initialComponent));
  }

  method Create(g: Graph, leader: WindowId) returns (r: Outcome<Session>)
    requires Valid(g)
    ensures r == Created(g, leader)
  {
    var component := ConnectedComponent(g, leader);
    if component.Threw? {
      return Threw(component.error);
    }
    LeaderInComponent(g, leader);
    ComponentExact(g, leader);
    r := Freeze(g.windows, leader, component.value, Component(g, leader));
  }

  lemma LeaderInComponent(g: Graph, leader: WindowId)
    requires Valid(g) && Knows(g.windows, leader)
    ensures leader in Ids(Component(g, leader))
  {
    var k :| 0 <= k < |g.windows| && g.windows[k].id == leader;
    ReachableReflexive(g, leader);
    ComponentExact(g, leader);
    assert g.windows[k] in Component(g, leader);
  }

  // A session can be created exactly for a known leader. It freezes the leader's place and
  // the windows the leader is connected with, and no others.
  lemma CreatedExactly(g: Graph, leader: WindowId)
    requires Valid(g)
    ensures match Created(g, leader)
            case Threw(error) => error == InvalidArgument && forall w | w in g.windows :: w.id != leader
            case Returned(session) =>
              && session.leader == leader && WindowGeometry(leader, session.initialLeader) in g.windows
              && StrictlySorted(session.initialComponent)
              && forall w :: w in session.initialComponent <==> w in g.windows && Reachable(g, leader, w.id)
  {
    ComponentExact(g, leader);
    if Knows(g.windows, leader) {
      var k :| 0 <= k < |g.windows| && g.windows[k].id == leader;
      RectOfAt(g.windows, k);
    }
  }

  // Followers are the windows of the component but the leader.
  lemma {:induction false} FollowersExactly(leader: WindowId, windows: seq<WindowGeometry>)
    ensures forall w :: w in Followers(leader, windows) <==> w in windows && w.id != leader
  {
    if windows != [] {
      FollowersExactly(leader, windows[1..]);
      assert windows == [windows[0]] + windows[1..];
    }
  }

  // A plan moves exactly the other windows the leader is connected with.
  lemma PlanMovesComponent(g: Graph, leader: WindowId, currentLeader: Rect, targets: seq<PlannedTranslation>,
                           id: WindowId)
    requires Valid(g) && Created(g, leader).Returned?
    requires Planned(Created(g, leader).value, currentLeader) == Returned(Some(targets))
    ensures (exists k | 0 <= k < |targets| :: targets[k].id == id) <==>
            id != leader && Knows(g.windows, id) && Reachable(g, leader, id)
  {
    var session := Created(g, leader).value;
    var followers := Followers(leader, session.initialComponent);
    CreatedExactly(g, leader);
    PlanIsRigid(session, currentLeader);
    FollowersExactly(leader, session.initialComponent);
    if k :| 0 <= k < |targets| && targets[k].id == id {
      assert followers[k] in followers;
    }
    if id != leader && Knows(g.windows, id) && Reachable(g, leader, id) {
      var k :| 0 <= k < |g.windows| && g.windows[k].id == id;
      assert g.windows[k] in followers;
      var j :| 0 <= j < |followers| && followers[j] == g.windows[k];
      assert targets[j].id == id;
    }
  }

  // --- Planning ---

  function TargetOf(window: WindowGeometry, change: GeometryChange): Outcome<Rect>
    requires !change.ResizeOrMixed?
  {
    if change.Unchanged? then Returned(window.visibleRect) else TranslateRect(window.visibleRect, change.delta)
  }

  function TargetsOf(leader: WindowId, windows: seq<WindowGeometry>, change: GeometryChange)
    : Outcome<seq<PlannedTranslation>>
    requires !change.ResizeOrMixed?
  {
    if windows == [] then Returned([])
    else if windows[0].id == leader then TargetsOf(leader, windows[1..], change)
    else
      var target :- TargetOf(windows[0], change);
      var rest :- TargetsOf(leader, windows[1..], change);
      Returned([PlannedTranslation(windows[0].id, target)] + rest)
  }

  // What `Plan` answers: nothing for a resized leader, else a target per follower.
  function Planned(session: Session, currentLeader: Rect): Outcome<Option<seq<PlannedTranslation>>> {
    var change :- ClassifyGeometryChange(session.initialLeader, currentLeader);
    if change.ResizeOrMixed? then Returned(None)
    else
      var targets :- TargetsOf(session.leader, session.initialComponent, change);
      Returned(Some(targets))
  }

  method Plan(session: Session, currentLeader: Rect) returns (r: Outcome<Option<seq<PlannedTranslation>>>)
    ensures r == Planned(session, currentLeader)
  {
    var change := ClassifyGeometryChange(session.initialLeader, currentLeader);
    if change.Threw? {
      return Threw(change.error);
    }
    if change.value.ResizeOrMixed? {
      return Returned(None);
    }
    var windows := session.initialComponent;
    var result := [];
    ghost var all := TargetsOf(session.leader, windows, change.value);
    assert windows[0..] == windows;
    TargetsNothing(all);
    for k := 0 to |windows|
      invariant TargetsContinued(result, TargetsOf(session.leader, windows[k..], change.value)) == all
    {
      assert windows[k..][1..] == windows[k + 1..];
      if windows[k].id != session.leader {
        var target := TargetOf(windows[k], change.value);
        if target.Threw? {
          return Threw(target.error);
        }
        var next := PlannedTranslation(windows[k].id, target.value);
        TargetsFurther(result, next, TargetsOf(session.leader, windows[k + 1..], change.value));
        result := result + [next];
      }
    }
    assert result + [] == result;
    return Returned(Some(result));
  }

  ghost function TargetsContinued(found: seq<PlannedTranslation>, rest: Outcome<seq<PlannedTranslation>>)
    : Outcome<seq<PlannedTranslation>>
  {
    if rest.Threw? then rest else Returned(found + rest.value)
  }

  lemma TargetsNothing(rest: Outcome<seq<PlannedTranslation>>)
    ensures TargetsContinued([], rest) == rest
  {
    if rest.Returned? {
      assert [] + rest.value == rest.value;
    }
  }

  lemma TargetsFurther(found: seq<PlannedTranslation>, next: PlannedTranslation,
                       rest: Outcome<seq<PlannedTranslation>>)
    ensures TargetsContinued(found + [next], rest) == TargetsContinued(found, TargetsContinued([next], rest))
  {
    if rest.Returned? {
      assert (found + [next]) + rest.value == found + ([next] + rest.value);
    }
  }

  // --- A plan moves the whole component as one rigid body ---

  function Followers(leader: WindowId, windows: seq<WindowGeometry>): seq<WindowGeometry> {
    if windows == [] then []
    else (if windows[0].id == leader then [] else [windows[0]]) + Followers(leader, windows[1..])
  }

  // Planned targets are the given windows, in order, each shifted by (dx, dy).
  ghost predicate MovesAll(windows: seq<WindowGeometry>, targets: seq<PlannedTranslation>, dx: int, dy: int) {
    && |targets| == |windows|
    && forall k | 0 <= k < |windows| ::
         targets[k].id == windows[k].id && Shifted(windows[k].visibleRect, targets[k].targetVisibleRect, dx, dy)
  }

  lemma MovesAllCons(window: WindowGeometry, windows: seq<WindowGeometry>,
                     target: PlannedTranslation, targets: seq<PlannedTranslation>, dx: int, dy: int)
    requires target.id == window.id && Shifted(window.visibleRect, target.targetVisibleRect, dx, dy)
    requires MovesAll(windows, targets, dx, dy)
    ensures MovesAll([window] + windows, [target] + targets, dx, dy)
  {
  }

  lemma {:induction false} TargetsMoveAll(leader: WindowId, windows: seq<WindowGeometry>, change: GeometryChange)
    requires !change.ResizeOrMixed? && TargetsOf(leader, windows, change).Returned?
    ensures var (dx, dy) := if change.Unchanged? then (0, 0) else (change.delta.dx, change.delta.dy);
            MovesAll(Followers(leader, windows), TargetsOf(leader, windows, change).value, dx, dy)
  {
    if windows != [] {
      TargetsMoveAll(leader, windows[1..], change);
      if windows[0].id != leader {
        var (dx, dy) := if change.Unchanged? then (0, 0) else (change.delta.dx, change.delta.dy);
        var target := TargetOf(windows[0], change).value;
        if change.Translated? {
          ClassifyInvertsTranslate(windows[0].visibleRect, target, change.delta);
        }
        MovesAllCons(windows[0], Followers(leader, windows[1..]), PlannedTranslation(windows[0].id, target),
                     TargetsOf(leader, windows[1..], change).value, dx, dy);
      }
    }
  }

  // Every follower is planned exactly the displacement of the leader from the
  // moment the session was created; a leader that changed size gets no plan.
  lemma PlanIsRigid(session: Session, currentLeader: Rect)
    requires Planned(session, currentLeader).Returned?
    ensures match Planned(session, currentLeader).value
            case None => !SameSize(session.initialLeader, currentLeader)
            case Some(targets) =>
              var dx, dy := currentLeader.left - session.initialLeader.left, currentLeader.top - session.initialLeader.top;
              && Shifted(session.initialLeader, currentLeader, dx, dy)
              && MovesAll(Followers(session.leader, session.initialComponent), targets, dx, dy)
  {
    var change := ClassifyGeometryChange(session.initialLeader, currentLeader).value;
    if !change.ResizeOrMixed? {
      TargetsMoveAll(session.leader, session.initialComponent, change);
    }
  }

  // Two planned windows face each other after the move as they did before it.
  lemma PlanKeepsAdjacency(session: Session, currentLeader: Rect, i: nat, j: nat, tolerance: Distance)
    requires Planned(session, currentLeader).Returned? && Planned(session, currentLeader).value.Some?
    requires i < |Followers(session.leader, session.initialComponent)|
    requires j < |Followers(session.leader, session.initialComponent)|
    ensures var followers := Followers(session.leader, session.initialComponent);
            var targets := Planned(session, currentLeader).value.value;
            && |targets| == |followers|
            && Adjacency(WindowGeometry(targets[i].id, targets[i].targetVisibleRect),
                         WindowGeometry(targets[j].id, targets[j].targetVisibleRect), tolerance) ==
               Adjacency(followers[i], followers[j], tolerance)
            && Adjacency(WindowGeometry(session.leader, currentLeader),
                         WindowGeometry(targets[j].id, targets[j].targetVisibleRect), tolerance) ==
               Adjacency(WindowGeometry(session.leader, session.initialLeader), followers[j], tolerance)
  {
    PlanIsRigid(session, currentLeader);
    var followers := Followers(session.leader, session.initialComponent);
    var targets := Planned(session, currentLeader).value.value;
    var dx, dy := currentLeader.left - session.initialLeader.left, currentLeader.top - session.initialLeader.top;
    AdjacencyTranslationInvariant(followers[i], followers[j], tolerance,
                                  targets[i].targetVisibleRect, targets[j].targetVisibleRect, dx, dy);
    AdjacencyTranslationInvariant(WindowGeometry(session.leader, session.initialLeader), followers[j], tolerance,
                                  currentLeader, targets[j].targetVisibleRect, dx, dy);
  }
  lemma MovesAllRest(windows: seq<WindowGeometry>, targets: seq<PlannedTranslation>, dx: int, dy: int)
    requires MovesAll(windows, targets, dx, dy) && windows != []
    ensures MovesAll(windows[1..], targets[1..], dx, dy) && targets == [targets[0]] + targets[1..]
  {
  }

  // Targets that move every follower by the change are the ones planned.
  lemma {:induction false} MovedAreTargets(leader: WindowId, windows: seq<WindowGeometry>, change: GeometryChange,
                                           targets: seq<PlannedTranslation>, dx: int, dy: int)
    requires (dx, dy) == if change.Translated? then (change.delta.dx, change.delta.dy) else (0, 0)
    requires !change.ResizeOrMixed?
    requires MovesAll(Followers(leader, windows), targets, dx, dy)
    ensures TargetsOf(leader, windows, change) == Returned(targets)
    decreases |windows|
  {
    if windows == [] {
    } else if windows[0].id == leader {
      assert [] + Followers(leader, windows[1..]) == Followers(leader, windows[1..]);
      MovedAreTargets(leader, windows[1..], change, targets, dx, dy);
    } else {
      var followers := Followers(leader, windows);
      assert followers[0] == windows[0] && followers[1..] == Followers(leader, windows[1..]);
      MovesAllRest(followers, targets, dx, dy);
      MovedAreTargets(leader, windows[1..], change, targets[1..], dx, dy);
      if change.Translated? {
        ClassifyInvertsTranslate(windows[0].visibleRect, targets[0].targetVisibleRect, change.delta);
      }
    }
  }

  // Exactly what is planned: the followers as they are for a leader that has not moved,
  // the followers moved as the leader was, or nothing for a leader that changed size.
  lemma PlannedExactly(session: Session, currentLeader: Rect, targets: seq<PlannedTranslation>)
    ensures var followers := Followers(session.leader, session.initialComponent);
            Planned(session, currentLeader) == Returned(Some(targets)) <==>
            if currentLeader == session.initialLeader then MovesAll(followers, targets, 0, 0)
            else
              && ExtentsFit(session.initialLeader)
              && exists delta: TranslationDelta ::
                   && Shifted(session.initialLeader, currentLeader, delta.dx, delta.dy)
                   && MovesAll(followers, targets, delta.dx, delta.dy)
    ensures Planned(session, currentLeader) == Returned(None) <==>
            ExtentsFit(session.initialLeader) && ExtentsFit(currentLeader) &&
            !SameSize(session.initialLeader, currentLeader)
  {
    var followers := Followers(session.leader, session.initialComponent);
    var change := ClassifyGeometryChange(session.initialLeader, currentLeader);
    if Planned(session, currentLeader) == Returned(Some(targets)) {
      TargetsMoveAll(session.leader, session.initialComponent, change.value);
      if change.value.Translated? {
        ClassifyInvertsTranslate(session.initialLeader, currentLeader, change.value.delta);
      }
    }
    if currentLeader == session.initialLeader && MovesAll(followers, targets, 0, 0) {
      MovedAreTargets(session.leader, session.initialComponent, Unchanged, targets, 0, 0);
    }
    if currentLeader != session.initialLeader && ExtentsFit(session.initialLeader) {
      if delta: TranslationDelta :| Shifted(session.initialLeader, currentLeader, delta.dx, delta.dy) &&
                                    MovesAll(followers, targets, delta.dx, delta.dy) {
        ClassifyInvertsTranslate(session.initialLeader, currentLeader, delta);
        MovedAreTargets(session.leader, session.initialComponent, Translated(delta), targets, delta.dx, delta.dy);
      }
    }
  }
}
