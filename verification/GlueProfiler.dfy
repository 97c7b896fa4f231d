/** The nested-span profiler: a stack of open spans, sticky failure flags, and what
    a recording that is still valid at its end says about time. */
module GlueProfiler {
  import opened Wrappers

  const SPAN_CAPACITY: nat := 32768
  const STACK_DEPTH: nat := 32
  const STAGE_COUNT: nat := 45

  datatype Point = Point(tick: int, watermark: UInt64)

  datatype Context = Context(quantum: UInt64, operation: UInt64, receipt: UInt64, ofLeader: bool)

  // An open span has the zero point for its end.
  datatype Span = Span(id: nat, parent: nat, stage: nat, context: Context, begun: Point, ended: Point)

  const NO_POINT: Point := Point(0, 0)

  datatype Profile = Profile(limit: nat, spans: seq<Span>, stack: seq<nat>, context: Context, lastTick: int,
                             invalid: bool, overflow: bool)

  function Opened(limit: nat): Profile {
    var usable := 0 < limit <= SPAN_CAPACITY;
    Profile(if usable then limit else 0, [], [], Context(0, 0, 0, true), 0, !usable, false)
  }

  // Reading the clock: a tick that is not positive or runs backwards is remembered.
  function Read(p: Profile, at: Point): Profile {
    p.(lastTick := at.tick, invalid := p.invalid || at.tick <= 0 || at.tick < p.lastTick)
  }

  function Begin(p: Profile, stage: nat, at: Point): (Profile, nat) {
    if stage >= STAGE_COUNT then (p.(invalid := true), 0)
    else if |p.spans| == p.limit || |p.stack| == STACK_DEPTH then (p.(overflow := true), 0)
    else
      var id := |p.spans| + 1;
      var parent := if p.stack == [] then 0 else p.stack[|p.stack| - 1];
      (Read(p, at).(spans := p.spans + [Span(id, parent, stage, p.context, at, NO_POINT)], stack := p.stack + [id]), id)
  }

  function EndAt(p: Profile, id: nat, at: Point): Profile {
    if id == 0 then p
    else if id > |p.spans| || p.stack == [] || p.stack[|p.stack| - 1] != id then p.(invalid := true)
    else
      var span := p.spans[id - 1];
      p.(spans := p.spans[id - 1 := span.(ended := at)], stack := p.stack[..|p.stack| - 1],
         invalid := p.invalid || at.tick < span.begun.tick || at.watermark < span.begun.watermark)
  }

  function End(p: Profile, id: nat, at: Point): Profile {
    if id == 0 then p else EndAt(Read(p, at), id, at)
  }

  predicate Valid(p: Profile) {
    !p.invalid && !p.overflow && p.stack == []
  }

  // --- Runs ---

  // What the recorder is asked to do, with the point its clock then gives. Other
  // recordings read the clock and may only set the failure flags.
  datatype Operation =
    | BeginOp(stage: nat, at: Point)
    | EndOp(id: nat, at: Point)
    | EndAtOp(id: nat, at: Point)
    | ReadOp(at: Point)
    | FaultOp(invalid: bool, overflow: bool)
    | ContextOp(context: Context)

  function Apply(p: Profile, op: Operation): Profile {
    match op
    case BeginOp(stage, at) => Begin(p, stage, at).0
    case EndOp(id, at) => End(p, id, at)
    case EndAtOp(id, at) => EndAt(p, id, at)
    case ReadOp(at) => Read(p, at)
    case FaultOp(invalid, overflow) => p.(invalid := p.invalid || invalid, overflow := p.overflow || overflow)
    case ContextOp(context) => p.(context := context)
  }

  function Run(p: Profile, ops: seq<Operation>): Profile
    decreases |ops|
  {
    if ops == [] then p else Run(Apply(p, ops[0]), ops[1..])
  }

  // A span is opened after every closed one has ended, and closed after all the
  // spans opened since; a caller can check both before the call.
  ghost predicate OpensInTime(p: Profile, at: Point) {
    forall k | 0 <= k < |p.spans| && k + 1 !in p.stack :: p.spans[k].ended.tick <= at.tick
  }

  ghost predicate ClosesInTime(p: Profile, id: nat, at: Point) {
    forall k | id <= k < |p.spans| && k + 1 !in p.stack :: p.spans[k].ended.tick <= at.tick
  }

  ghost predicate InTime(p: Profile, op: Operation) {
    match op
    case BeginOp(_, at) => OpensInTime(p, at)
    case EndOp(id, at) => id == 0 || ClosesInTime(p, id, at)
    case EndAtOp(id, at) => id == 0 || ClosesInTime(p, id, at)
    case _ => true
  }

  ghost predicate AllInTime(p: Profile, ops: seq<Operation>)
    decreases |ops|
  {
    ops == [] || (InTime(p, ops[0]) && AllInTime(Apply(p, ops[0]), ops[1..]))
  }

  // --- The shape of a recording ---

  function Parents(spans: seq<Span>): (parents: seq<nat>)
    ensures |parents| == |spans|
    ensures forall k | 0 <= k < |spans| :: parents[k] == spans[k].parent
  {
    seq(|spans|, k requires 0 <= k < |spans| => spans[k].parent)
  }

  // Span `i` encloses span `j`: it is its parent, its parent's parent, and so on.
  ghost predicate Encloses(parents: seq<nat>, i: nat, j: nat)
    decreases j
  {
    && 1 <= j <= |parents| && parents[j - 1] < j
    && (parents[j - 1] == i || Encloses(parents, i, parents[j - 1]))
  }

  lemma {:induction false} EnclosesStable(parents: seq<nat>, more: seq<nat>, i: nat, j: nat)
    requires j <= |parents|
    ensures Encloses(parents + more, i, j) == Encloses(parents, i, j)
    decreases j
  {
    if 1 <= j && parents[j - 1] < j {
      EnclosesStable(parents, more, i, parents[j - 1]);
    }
  }

  predicate Interval(s: Span) {
    s.begun.tick <= s.ended.tick
  }

  // Identifiers count up, parents come before their children.
  ghost predicate Numbered(spans: seq<Span>) {
    forall k | 0 <= k < |spans| :: spans[k].id == k + 1 && spans[k].parent <= k
  }

  predicate Within(inner: Span, outer: Span) {
    outer.begun.tick <= inner.begun.tick && inner.ended.tick <= outer.ended.tick
  }

  // Of two spans the later one lies inside the earlier one or begins after its end.
  ghost predicate Laminar(spans: seq<Span>) {
    forall i, j | 0 <= i < j < |spans| ::
      if Encloses(Parents(spans), i + 1, j + 1) then Within(spans[j], spans[i])
      else spans[i].ended.tick <= spans[j].begun.tick
  }

  // --- What every recording without a failure keeps ---

  ghost predicate StackOk(spans: seq<Span>, stack: seq<nat>) {
    && (forall k | 0 <= k < |stack| :: 1 <= stack[k] <= |spans|)
    && (forall a, b | 0 <= a < b < |stack| :: stack[a] < stack[b])
  }

  ghost predicate TimesOk(spans: seq<Span>, stack: seq<nat>, lastTick: int) {
    && (forall k | 0 <= k < |spans| ::
          && spans[k].begun.tick <= lastTick
          && (k + 1 !in stack ==> Interval(spans[k])))
    && (forall i, j | 0 <= i < j < |spans| :: spans[i].begun.tick <= spans[j].begun.tick)
  }

  // An open span encloses all later ones; a closed one has seen its last descendant.
  ghost predicate PairOk(spans: seq<Span>, stack: seq<nat>, parents: seq<nat>, i: nat, j: nat)
    requires i < j < |spans|
  {
    if i + 1 in stack then Encloses(parents, i + 1, j + 1)
    else if Encloses(parents, i + 1, j + 1) then j + 1 !in stack && Within(spans[j], spans[i])
    else spans[i].ended.tick <= spans[j].begun.tick
  }

  ghost predicate ShapeOk(spans: seq<Span>, stack: seq<nat>) {
    forall i, j | 0 <= i < j < |spans| :: PairOk(spans, stack, Parents(spans), i, j)
  }

  ghost predicate RecordingOk(p: Profile) {
    !p.invalid ==>
      && Numbered(p.spans) && StackOk(p.spans, p.stack) && TimesOk(p.spans, p.stack, p.lastTick)
      && ShapeOk(p.spans, p.stack)
  }

  // Only earlier spans enclose.
  lemma {:induction false} EnclosesUp(parents: seq<nat>, i: nat, j: nat)
    requires j <= i
    ensures !Encloses(parents, i, j)
    decreases j
  {
    if 1 <= j <= |parents| && parents[j - 1] < j {
      EnclosesUp(parents, i, parents[j - 1]);
    }
  }

  // The next span is enclosed by exactly the open ones.
  lemma OpenEncloseNext(spans: seq<Span>, stack: seq<nat>, i: nat)
    requires Numbered(spans) && StackOk(spans, stack) && ShapeOk(spans, stack) && i < |spans|
    ensures var parent := if stack == [] then 0 else stack[|stack| - 1];
            Encloses(Parents(spans) + [parent], i + 1, |spans| + 1) <==> i + 1 in stack
  {
    var parents := Parents(spans);
    var parent := if stack == [] then 0 else stack[|stack| - 1];
    EnclosesStable(parents, [parent], i + 1, parent);
    if parent > i + 1 {
      assert PairOk(spans, stack, parents, i, parent - 1);
    } else {
      EnclosesUp(parents, i + 1, parent);
    }
  }

  lemma NextKeepsShape(spans: seq<Span>, stack: seq<nat>, lastTick: int, span: Span)
    requires Numbered(spans) && StackOk(spans, stack) && TimesOk(spans, stack, lastTick) && ShapeOk(spans, stack)
    requires span.parent == (if stack == [] then 0 else stack[|stack| - 1]) && lastTick <= span.begun.tick
    requires forall k | 0 <= k < |spans| && k + 1 !in stack :: spans[k].ended.tick <= span.begun.tick
    ensures ShapeOk(spans + [span], stack + [|spans| + 1])
  {
    var spans', stack' := spans + [span], stack + [|spans| + 1];
    assert Parents(spans') == Parents(spans) + [span.parent];
    forall i, j | 0 <= i < j < |spans'| ensures PairOk(spans', stack', Parents(spans'), i, j) {
      assert i + 1 in stack' <==> i + 1 in stack;
      if j < |spans| {
        assert PairOk(spans, stack, Parents(spans), i, j);
        EnclosesStable(Parents(spans), [span.parent], i + 1, j + 1);
      } else {
        OpenEncloseNext(spans, stack, i);
      }
    }
  }

  lemma BeginKeeps(p: Profile, stage: nat, at: Point)
    requires RecordingOk(p) && OpensInTime(p, at)
    ensures RecordingOk(Begin(p, stage, at).0)
  {
    var q := Begin(p, stage, at).0;
    if !q.invalid && |q.spans| > |p.spans| {
      NextKeepsShape(p.spans, p.stack, p.lastTick, q.spans[|p.spans|]);
    }
  }

  lemma EndAtKeeps(p: Profile, id: nat, at: Point)
    requires RecordingOk(p) && (id == 0 || ClosesInTime(p, id, at))
    ensures RecordingOk(EndAt(p, id, at))
  {
    var q := EndAt(p, id, at);
    if id != 0 && !q.invalid {
      assert Parents(q.spans) == Parents(p.spans);
      assert forall k | 0 <= k < |p.stack| - 1 :: p.stack[k] < id;
      assert forall x :: x in q.stack <==> x in p.stack && x != id;
      forall i, j | 0 <= i < j < |q.spans| ensures PairOk(q.spans, q.stack, Parents(q.spans), i, j) {
        assert PairOk(p.spans, p.stack, Parents(p.spans), i, j);
      }
    }
  }

  lemma ApplyKeeps(p: Profile, op: Operation)
    requires RecordingOk(p) && InTime(p, op)
    ensures RecordingOk(Apply(p, op))
  {
    match op
    case BeginOp(stage, at) => BeginKeeps(p, stage, at);
    case EndOp(id, at) =>
      if id != 0 {
        EndAtKeeps(Read(p, at), id, at);
      }
    case EndAtOp(id, at) => EndAtKeeps(p, id, at);
    case _ =>
  }

  // --- An operation out of time leaves a trace that stays ---

  // Two closed spans that neither nest nor follow each other.
  ghost predicate Tangled(p: Profile, i: nat, j: nat) {
    && i < j < |p.spans| && i + 1 !in p.stack && j + 1 !in p.stack
    && if Encloses(Parents(p.spans), i + 1, j + 1) then !Within(p.spans[j], p.spans[i])
       else p.spans[i].ended.tick > p.spans[j].begun.tick
  }

  // The same before the later span has been closed.
  ghost predicate Overtaken(p: Profile, i: nat, j: nat) {
    && i < j < |p.spans| && i + 1 !in p.stack
    && !Encloses(Parents(p.spans), i + 1, j + 1) && p.spans[i].ended.tick > p.spans[j].begun.tick
  }

  // Closed spans and the beginnings of all spans are never changed.
  ghost predicate Extends(p: Profile, q: Profile) {
    && StackOk(q.spans, q.stack) && |p.spans| <= |q.spans|
    && (forall k | 0 <= k < |p.spans| ::
          && q.spans[k].begun == p.spans[k].begun && q.spans[k].parent == p.spans[k].parent
          && (k + 1 !in p.stack ==> k + 1 !in q.stack && q.spans[k] == p.spans[k]))
  }

  lemma BeginExtends(p: Profile, stage: nat, at: Point)
    requires StackOk(p.spans, p.stack)
    ensures Extends(p, Begin(p, stage, at).0)
  {
  }

  lemma EndAtExtends(p: Profile, id: nat, at: Point)
    requires StackOk(p.spans, p.stack)
    ensures Extends(p, EndAt(p, id, at))
  {
  }

  lemma ApplyExtends(p: Profile, op: Operation)
    requires StackOk(p.spans, p.stack)
    ensures Extends(p, Apply(p, op))
  {
    match op
    case BeginOp(stage, at) => BeginExtends(p, stage, at);
    case EndOp(id, at) => EndAtExtends(Read(p, at), id, at);
    case EndAtOp(id, at) => EndAtExtends(p, id, at);
    case _ =>
  }

  lemma TraceExtends(p: Profile, q: Profile, i: nat, j: nat)
    requires Extends(p, q) && (Tangled(p, i, j) || Overtaken(p, i, j))
    ensures Tangled(q, i, j) || Overtaken(q, i, j)
  {
    var parents := Parents(p.spans);
    assert Parents(q.spans) == parents + Parents(q.spans)[|p.spans|..];
    EnclosesStable(parents, Parents(q.spans)[|p.spans|..], i + 1, j + 1);
  }

  lemma {:induction false} TracesStay(p: Profile, ops: seq<Operation>, i: nat, j: nat)
    requires StackOk(p.spans, p.stack) && (Tangled(p, i, j) || Overtaken(p, i, j))
    ensures Tangled(Run(p, ops), i, j) || Overtaken(Run(p, ops), i, j)
    decreases |ops|
  {
    if ops != [] {
      ApplyExtends(p, ops[0]);
      TraceExtends(p, Apply(p, ops[0]), i, j);
      TracesStay(Apply(p, ops[0]), ops[1..], i, j);
    }
  }

  // Opening too early leaves the new span overtaken by an earlier one.
  lemma EarlyOpeningLeavesTrace(p: Profile, stage: nat, at: Point) returns (i: nat, j: nat)
    requires !p.invalid && RecordingOk(p) && !OpensInTime(p, at)
    requires !Begin(p, stage, at).0.invalid && !Begin(p, stage, at).0.overflow
    ensures Overtaken(Begin(p, stage, at).0, i, j)
  {
    var q := Begin(p, stage, at).0;
    i :| 0 <= i < |p.spans| && i + 1 !in p.stack && p.spans[i].ended.tick > at.tick;
    j := |p.spans|;
    OpenEncloseNext(p.spans, p.stack, i);
    assert Parents(q.spans) == Parents(p.spans) + [q.spans[j].parent];
  }

  // Closing too early leaves the closed span tangled with one it encloses.
  lemma EarlyClosingLeavesTrace(p: Profile, id: nat, at: Point) returns (i: nat, j: nat)
    requires !p.invalid && RecordingOk(p) && id != 0 && !ClosesInTime(p, id, at)
    requires !EndAt(p, id, at).invalid
    ensures Tangled(EndAt(p, id, at), i, j)
  {
    var q := EndAt(p, id, at);
    i := id - 1;
    j :| i < j < |p.spans| && j + 1 !in p.stack && p.spans[j].ended.tick > at.tick;
    assert PairOk(p.spans, p.stack, Parents(p.spans), i, j);
    assert Parents(q.spans) == Parents(p.spans);
    assert q.stack == p.stack[..|p.stack| - 1];
    assert forall k | 0 <= k < |q.stack| :: q.stack[k] < id;
  }

  lemma LateLeavesTrace(p: Profile, op: Operation) returns (i: nat, j: nat)
    requires !p.invalid && RecordingOk(p) && !InTime(p, op)
    requires !Apply(p, op).invalid && !Apply(p, op).overflow
    ensures Tangled(Apply(p, op), i, j) || Overtaken(Apply(p, op), i, j)
  {
    match op
    case BeginOp(stage, at) => i, j := EarlyOpeningLeavesTrace(p, stage, at);
    case EndOp(id, at) => i, j := EarlyClosingLeavesTrace(Read(p, at), id, at);
    case EndAtOp(id, at) => i, j := EarlyClosingLeavesTrace(p, id, at);
  }

  lemma {:induction false} FailuresStay(p: Profile, ops: seq<Operation>)
    ensures p.invalid ==> Run(p, ops).invalid
    ensures p.overflow ==> Run(p, ops).overflow
    decreases |ops|
  {
    if ops != [] {
      FailuresStay(Apply(p, ops[0]), ops[1..]);
    }
  }

  lemma TraceIsNotLaminar(p: Profile, i: nat, j: nat)
    requires p.stack == [] && (Tangled(p, i, j) || Overtaken(p, i, j))
    ensures !Laminar(p.spans)
  {
  }

  lemma ShapeIsLaminar(p: Profile)
    requires Valid(p) && RecordingOk(p)
    ensures Laminar(p.spans)
  {
    forall i, j | 0 <= i < j < |p.spans|
      ensures if Encloses(Parents(p.spans), i + 1, j + 1) then Within(p.spans[j], p.spans[i])
              else p.spans[i].ended.tick <= p.spans[j].begun.tick
    {
      assert PairOk(p.spans, p.stack, Parents(p.spans), i, j);
    }
  }

  // --- What a valid recording means ---

  lemma {:induction false} RunIsLaminarExactly(p: Profile, ops: seq<Operation>)
    requires RecordingOk(p) && Valid(Run(p, ops))
    ensures Laminar(Run(p, ops).spans) <==> AllInTime(p, ops)
    decreases |ops|
  {
    FailuresStay(p, ops);
    if ops == [] {
      ShapeIsLaminar(p);
    } else if InTime(p, ops[0]) {
      ApplyKeeps(p, ops[0]);
      RunIsLaminarExactly(Apply(p, ops[0]), ops[1..]);
    } else {
      var q := Apply(p, ops[0]);
      FailuresStay(q, ops[1..]);
      var i, j := LateLeavesTrace(p, ops[0]);
      ApplyExtends(p, ops[0]);
      TracesStay(q, ops[1..], i, j);
      TraceIsNotLaminar(Run(q, ops[1..]), i, j);
    }
  }

  // The parts of a valid recording that need no condition at all.
  ghost predicate BasicsOk(p: Profile) {
    !p.invalid ==> Numbered(p.spans) && StackOk(p.spans, p.stack) && TimesOk(p.spans, p.stack, p.lastTick)
  }

  lemma BeginKeepsBasics(p: Profile, stage: nat, at: Point)
    requires BasicsOk(p)
    ensures BasicsOk(Begin(p, stage, at).0)
  {
  }

  lemma EndAtKeepsBasics(p: Profile, id: nat, at: Point)
    requires BasicsOk(p)
    ensures BasicsOk(EndAt(p, id, at))
  {
    var q := EndAt(p, id, at);
    if |q.stack| < |p.stack| {
      assert forall x :: x in p.stack <==> x in q.stack || x == id;
    }
  }

  lemma ApplyKeepsBasics(p: Profile, op: Operation)
    requires BasicsOk(p)
    ensures BasicsOk(Apply(p, op))
  {
    match op
    case BeginOp(stage, at) => BeginKeepsBasics(p, stage, at);
    case EndOp(id, at) => EndAtKeepsBasics(Read(p, at), id, at);
    case EndAtOp(id, at) => EndAtKeepsBasics(p, id, at);
    case _ =>
  }

  lemma {:induction false} RunKeepsBasics(p: Profile, ops: seq<Operation>)
    requires BasicsOk(p)
    ensures BasicsOk(Run(p, ops))
    decreases |ops|
  {
    if ops != [] {
      ApplyKeepsBasics(p, ops[0]);
      RunKeepsBasics(Apply(p, ops[0]), ops[1..]);
    }
  }

  // In every recording that is valid at its end, parents come first and every span
  // is an interval. Two spans are nested when one encloses the other, and follow
  // each other otherwise, exactly when every operation came in time.
  lemma ValidRunIsForest(limit: nat, ops: seq<Operation>)
    requires Valid(Run(Opened(limit), ops))
    ensures var spans := Run(Opened(limit), ops).spans;
            && Numbered(spans) && (forall k | 0 <= k < |spans| :: Interval(spans[k]))
            && (Laminar(spans) <==> AllInTime(Opened(limit), ops))
  {
    RunIsLaminarExactly(Opened(limit), ops);
    RunKeepsBasics(Opened(limit), ops);
  }

  // --- Operations that are in time by themselves ---

  // Spans are closed with a fresh reading, at the point that was read last, or at an
  // older point that no span opened since has outlived.
  ghost predicate NeverAhead(p: Profile, ops: seq<Operation>)
    decreases |ops|
  {
    ops == [] ||
    (&& (ops[0].EndAtOp? && ops[0].id != 0 ==>
           ops[0].at.tick == p.lastTick || (ops[0].at.tick < p.lastTick && ClosesInTime(p, ops[0].id, ops[0].at)))
     && NeverAhead(Apply(p, ops[0]), ops[1..]))
  }

  // No closed span has ended after the last reading.
  ghost predicate EndedByNow(p: Profile) {
    !p.invalid ==> forall k | 0 <= k < |p.spans| && k + 1 !in p.stack :: p.spans[k].ended.tick <= p.lastTick
  }

  lemma ApplyKeepsEnds(p: Profile, op: Operation)
    requires BasicsOk(p) && EndedByNow(p)
    requires op.EndAtOp? && op.id != 0 ==> op.at.tick <= p.lastTick
    ensures EndedByNow(Apply(p, op))
  {
    var q := Apply(p, op);
    if (op.EndOp? || op.EndAtOp?) && |q.stack| < |p.stack| {
      assert forall x :: x in p.stack <==> x in q.stack || x == op.id;
    }
  }

  // Such a run comes in time, so that a valid one always gives a forest.
  lemma {:induction false} NeverAheadIsInTime(p: Profile, ops: seq<Operation>)
    requires BasicsOk(p) && EndedByNow(p) && NeverAhead(p, ops) && Valid(Run(p, ops))
    ensures AllInTime(p, ops)
    decreases |ops|
  {
    if ops != [] {
      FailuresStay(p, ops);
      FailuresStay(Apply(p, ops[0]), ops[1..]);
      ApplyKeepsBasics(p, ops[0]);
      ApplyKeepsEnds(p, ops[0]);
      NeverAheadIsInTime(Apply(p, ops[0]), ops[1..]);
    }
  }

  lemma FreshReadingsGiveForest(limit: nat, ops: seq<Operation>)
    requires NeverAhead(Opened(limit), ops) && Valid(Run(Opened(limit), ops))
    ensures Laminar(Run(Opened(limit), ops).spans)
  {
    NeverAheadIsInTime(Opened(limit), ops);
    ValidRunIsForest(limit, ops);
  }

  function Duration(s: Span): int {
    s.ended.tick - s.begun.tick
  }

  // The durations of the children of a span among the first `n` spans, added up.
  function ChildTime(spans: seq<Span>, parent: nat, n: nat): int
    requires n <= |spans|
  {
    if n == 0 then 0
    else ChildTime(spans, parent, n - 1) + if spans[n - 1].parent == parent then Duration(spans[n - 1]) else 0
  }

  // Spans with the same parent follow each other.
  lemma {:induction false} SiblingsDisjoint(spans: seq<Span>, i: nat, j: nat)
    requires Numbered(spans) && Laminar(spans) && i < j < |spans| && spans[i].parent == spans[j].parent
    ensures spans[i].ended.tick <= spans[j].begun.tick
  {
    EnclosesUp(Parents(spans), i + 1, spans[j].parent);
  }

  lemma {:induction false} ChildTimeBounded(spans: seq<Span>, parent: nat, n: nat, start: int, bound: int)
    requires Numbered(spans) && Laminar(spans) && n <= |spans| && start <= bound
    requires forall k | 0 <= k < |spans| :: Interval(spans[k])
    requires forall k | 0 <= k < n && spans[k].parent == parent ::
               start <= spans[k].begun.tick && spans[k].ended.tick <= bound
    ensures ChildTime(spans, parent, n) <= bound - start
  {
    if n > 0 {
      if spans[n - 1].parent == parent {
        forall k | 0 <= k < n - 1 && spans[k].parent == parent ensures spans[k].ended.tick <= spans[n - 1].begun.tick {
          SiblingsDisjoint(spans, k, n - 1);
        }
        ChildTimeBounded(spans, parent, n - 1, start, spans[n - 1].begun.tick);
      } else {
        ChildTimeBounded(spans, parent, n - 1, start, bound);
      }
    }
  }

  // The children of a span together never take longer than the span itself.
  lemma ChildrenFitTheirParent(limit: nat, ops: seq<Operation>, id: nat)
    requires AllInTime(Opened(limit), ops) && Valid(Run(Opened(limit), ops))
    requires 1 <= id <= |Run(Opened(limit), ops).spans|
    ensures var spans := Run(Opened(limit), ops).spans;
            ChildTime(spans, id, |spans|) <= Duration(spans[id - 1])
  {
    ValidRunIsForest(limit, ops);
    var spans := Run(Opened(limit), ops).spans;
    forall k | 0 <= k < |spans| && spans[k].parent == id ensures Within(spans[k], spans[id - 1]) {
      assert Encloses(Parents(spans), id, k + 1);
    }
    ChildTimeBounded(spans, id, |spans|, spans[id - 1].begun.tick, spans[id - 1].ended.tick);
  }

  lemma RunFirst(p: Profile, op: Operation, rest: seq<Operation>)
    ensures Run(p, [op] + rest) == Run(Apply(p, op), rest)
  {
    assert ([op] + rest)[1..] == rest;
  }

  lemma RunFive(p0: Profile, p1: Profile, p2: Profile, p3: Profile, p4: Profile, p5: Profile,
                a: Operation, b: Operation, c: Operation, d: Operation, e: Operation)
    requires Apply(p0, a) == p1 && Apply(p1, b) == p2 && Apply(p2, c) == p3 && Apply(p3, d) == p4 && Apply(p4, e) == p5
    ensures Run(p0, [a] + ([b] + ([c] + ([d] + ([e] + []))))) == p5
  {
    RunFirst(p4, e, []);
    RunFirst(p3, d, [e] + []);
    RunFirst(p2, c, [d] + ([e] + []));
    RunFirst(p1, b, [c] + ([d] + ([e] + [])));
    RunFirst(p0, a, [b] + ([c] + ([d] + ([e] + []))));
  }

  // A span closed at a point that was read before its child ended is not in time: the
  // recording counts as valid, yet the parent ends before the child it encloses.
  lemma EndingInThePast()
    ensures var a, b := BeginOp(0, Point(1, 0)), ReadOp(Point(2, 0));
            var c, d, e := BeginOp(1, Point(5, 0)), EndOp(2, Point(7, 0)), EndAtOp(1, Point(2, 0));
            var p := Run(Opened(10), [a] + ([b] + ([c] + ([d] + ([e] + [])))));
            Valid(p) && |p.spans| == 2 && p.spans[1].parent == 1 && p.spans[0].ended.tick < p.spans[1].begun.tick
  {
    var noContext := Context(0, 0, 0, true);
    var parent := Span(1, 0, 0, noContext, Point(1, 0), NO_POINT);
    var child := Span(2, 1, 1, noContext, Point(5, 0), NO_POINT);
    var p1 := Profile(10, [parent], [1], noContext, 1, false, false);
    var p2 := p1.(lastTick := 2);
    var p3 := Profile(10, [parent, child], [1, 2], noContext, 5, false, false);
    var p4 := Profile(10, [parent, child.(ended := Point(7, 0))], [1], noContext, 7, false, false);
    var p5 := Profile(10, [parent.(ended := Point(2, 0)), child.(ended := Point(7, 0))], [], noContext, 7, false, false);
    RunFive(Opened(10), p1, p2, p3, p4, p5, BeginOp(0, Point(1, 0)), ReadOp(Point(2, 0)), BeginOp(1, Point(5, 0)),
            EndOp(2, Point(7, 0)), EndAtOp(1, Point(2, 0)));
  }

  // --- Exactly what keeps a recording valid ---

  // The span is the innermost of those still open.
  predicate Innermost(p: Profile, id: nat) {
    p.stack != [] && p.stack[|p.stack| - 1] == id
  }

  predicate TicksOn(p: Profile, at: Point) {
    at.tick > 0 && at.tick >= p.lastTick
  }

  // What a caller must keep to: known stages, room for the span, a clock that runs, the
  // innermost span first, and no end before its beginning.
  predicate Sound(p: Profile, op: Operation)
    requires StackOk(p.spans, p.stack)
  {
    match op
    case BeginOp(stage, at) => stage < 45 && |p.spans| < p.limit && |p.stack| < 32 && TicksOn(p, at)
    case EndOp(id, at) =>
      id == 0 || (Innermost(p, id) && TicksOn(p, at) && at.watermark >= p.spans[id - 1].begun.watermark)
    case EndAtOp(id, at) =>
      id == 0 || (Innermost(p, id) && at.tick >= p.spans[id - 1].begun.tick &&
                  at.watermark >= p.spans[id - 1].begun.watermark)
    case ReadOp(at) => TicksOn(p, at)
    case FaultOp(invalid, overflow) => !invalid && !overflow
    case ContextOp(_) => true
  }

  // The recording after a sound operation: a new span under the innermost one, or the
  // innermost one ended, and nothing else.
  ghost predicate Recorded(p: Profile, q: Profile, op: Operation)
    requires StackOk(p.spans, p.stack)
  {
    match op
    case BeginOp(stage, at) =>
      var id := |p.spans| + 1;
      && q.spans == p.spans + [Span(id, if p.stack == [] then 0 else p.stack[|p.stack| - 1], stage, p.context, at,
                                    Point(0, 0))]
      && q.stack == p.stack + [id] && q.lastTick == at.tick && q.context == p.context
    case EndOp(id, at) => q.lastTick == (if id == 0 then p.lastTick else at.tick) && Ended(p, q, id, at)
    case EndAtOp(id, at) => q.lastTick == p.lastTick && Ended(p, q, id, at)
    case ReadOp(at) => q == p.(lastTick := at.tick)
    case FaultOp(_, _) => q == p
    case ContextOp(context) => q == p.(context := context)
  }

  ghost predicate Ended(p: Profile, q: Profile, id: nat, at: Point) {
    && q.context == p.context
    && if id == 0 then q.spans == p.spans && q.stack == p.stack
       else
         && q.stack + [id] == p.stack && |q.spans| == |p.spans|
         && forall k | 0 <= k < |p.spans| ::
              q.spans[k] == if k == id - 1 then p.spans[k].(ended := at) else p.spans[k]
  }

  lemma BeginExactly(p: Profile, stage: nat, at: Point)
    requires BasicsOk(p) && !p.invalid && !p.overflow
    ensures var q, op := Begin(p, stage, at).0, BeginOp(stage, at);
            && (!q.invalid && !q.overflow <==> Sound(p, op)) && (Sound(p, op) ==> Recorded(p, q, op))
            && (q.overflow <==> stage < 45 && (|p.spans| == p.limit || |p.stack| == 32))
    requires |p.spans| <= p.limit && |p.stack| <= 32
  {
  }

  lemma EndAtExactly(p: Profile, id: nat, at: Point)
    requires BasicsOk(p) && !p.invalid && !p.overflow
    ensures var q, op := EndAt(p, id, at), EndAtOp(id, at);
            && !q.overflow && (!q.invalid <==> Sound(p, op)) && (Sound(p, op) ==> Recorded(p, q, op))
  {
    if id != 0 && Innermost(p, id) {
      assert p.stack == p.stack[..|p.stack| - 1] + [id];
    }
  }

  lemma EndExactly(p: Profile, id: nat, at: Point)
    requires BasicsOk(p) && !p.invalid && !p.overflow
    ensures var q, op := End(p, id, at), EndOp(id, at);
            && !q.overflow && (!q.invalid <==> Sound(p, op)) && (Sound(p, op) ==> Recorded(p, q, op))
  {
    if id != 0 && TicksOn(p, at) {
      EndAtExactly(Read(p, at), id, at);
    }
  }

  ghost predicate AllSound(p: Profile, ops: seq<Operation>)
    requires BasicsOk(p) && !p.invalid && !p.overflow && |p.spans| <= p.limit && |p.stack| <= 32
    decreases |ops|
  {
    ops == [] ||
    (&& Sound(p, ops[0])
     && (OperationExactly(p, ops[0]); AllSound(Apply(p, ops[0]), ops[1..])))
  }

  lemma OperationExactly(p: Profile, op: Operation)
    requires BasicsOk(p) && !p.invalid && !p.overflow && |p.spans| <= p.limit && |p.stack| <= 32
    ensures var q := Apply(p, op);
            && (!q.invalid && !q.overflow <==> Sound(p, op)) && (Sound(p, op) ==> Recorded(p, q, op))
            && BasicsOk(q) && q.limit == p.limit && |q.spans| <= q.limit && |q.stack| <= 32
  {
    ApplyKeepsBasics(p, op);
    match op
    case BeginOp(stage, at) => BeginExactly(p, stage, at);
    case EndOp(id, at) => EndExactly(p, id, at);
    case EndAtOp(id, at) => EndAtExactly(p, id, at);
    case _ =>
  }

  lemma {:induction false} RunSoundExactly(p: Profile, ops: seq<Operation>)
    requires BasicsOk(p) && !p.invalid && !p.overflow && |p.spans| <= p.limit && |p.stack| <= 32
    ensures !Run(p, ops).invalid && !Run(p, ops).overflow <==> AllSound(p, ops)
    decreases |ops|
  {
    if ops != [] {
      OperationExactly(p, ops[0]);
      if Sound(p, ops[0]) {
        RunSoundExactly(Apply(p, ops[0]), ops[1..]);
      } else {
        FailuresStay(Apply(p, ops[0]), ops[1..]);
      }
    }
  }

  // A recording is valid exactly when its limit is usable, its caller kept to the rules
  // and every span was closed.
  lemma ValidExactly(limit: nat, ops: seq<Operation>)
    ensures Valid(Run(Opened(limit), ops)) <==>
            0 < limit <= 32768 && AllSound(Opened(limit), ops) && Run(Opened(limit), ops).stack == []
  {
    if 0 < limit <= 32768 {
      RunSoundExactly(Opened(limit), ops);
    } else {
      FailuresStay(Opened(limit), ops);
    }
  }

  // --- The recorder ---

  class ExplorerGlueProfiler {
    const limit: nat
    const spans: array<Span>
    const stack: array<nat>
    var size: nat
    var depth: nat
    var context: Context
    var lastTick: int
    var invalid: bool
    var overflow: bool

    ghost predicate Storage()
      reads this
    {
      && spans.Length == SPAN_CAPACITY && stack.Length == STACK_DEPTH
      && size <= limit <= SPAN_CAPACITY && depth <= STACK_DEPTH
    }

    ghost function Value(): Profile
      reads this, spans, stack
      requires Storage()
    {
      Profile(limit, spans[..size], stack[..depth], context, lastTick, invalid, overflow)
    }

    constructor (limit: nat)
      ensures Storage() && Value() == Opened(limit) && fresh(spans) && fresh(stack)
    {
      var usable := 0 < limit <= SPAN_CAPACITY;
      this.limit := if usable then limit else 0;
      spans := new Span[SPAN_CAPACITY](_ => Span(0, 0, 0, Context(0, 0, 0, true), NO_POINT, NO_POINT));
      stack := new nat[STACK_DEPTH](_ => 0);
      size, depth, context, lastTick := 0, 0, Context(0, 0, 0, true), 0;
      invalid, overflow := !usable, false;
    }

    method ReadPoint(at: Point)
      requires Storage()
      modifies this`lastTick, this`invalid
      ensures Storage() && Value() == Read(old(Value()), at)
    {
      if at.tick <= 0 || at.tick < lastTick {
        invalid := true;
      }
      lastTick := at.tick;
    }

    method BeginSpan(stage: nat, at: Point) returns (id: nat)
      requires Storage()
      modifies this, spans, stack
      ensures Storage() && (Value(), id) == Begin(old(Value()), stage, at)
    {
      if stage >= STAGE_COUNT {
        invalid := true;
        return 0;
      }
      if size == limit || depth == stack.Length {
        overflow := true;
        return 0;
      }
      ghost var before := Value();
      size := size + 1;
      id := size;
      var parent := if depth != 0 then stack[depth - 1] else 0;
      ReadPoint(at);
      spans[size - 1] := Span(id, parent, stage, context, at, NO_POINT);
      stack[depth] := id;
      depth := depth + 1;
      assert spans[..size] == before.spans + [Span(id, parent, stage, context, at, NO_POINT)];
      assert stack[..depth] == before.stack + [id];
    }

    method EndSpanAt(id: nat, at: Point)
      requires Storage()
      modifies this, spans
      ensures Storage() && Value() == EndAt(old(Value()), id, at)
    {
      if id == 0 {
        return;
      }
      if id > size || depth == 0 || stack[depth - 1] != id {
        invalid := true;
        return;
      }
      var span := spans[id - 1];
      if at.tick < span.begun.tick || at.watermark < span.begun.watermark {
        invalid := true;
      }
      spans[id - 1] := span.(ended := at);
      depth := depth - 1;
      assert spans[..size] == old(spans[..size])[id - 1 := span.(ended := at)];
      assert stack[..depth] == old(stack[..depth])[..depth];
    }

    method EndSpan(id: nat, at: Point)
      requires Storage()
      modifies this, spans
      ensures Storage() && Value() == End(old(Value()), id, at)
    {
      if id != 0 {
        ReadPoint(at);
        EndSpanAt(id, at);
      }
    }

    method IsValid() returns (valid: bool)
      requires Storage()
      ensures valid <==> Valid(Value())
    {
      return !invalid && !overflow && depth == 0;
    }
  }
}
