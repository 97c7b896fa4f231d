/** The one-shot activation of a glue session: a start of the leader with Ctrl held
    latches it once, and whatever ends it ends it for good. */
module GlueActivation {
  import opened Wrappers

  const CAPACITY: nat := 8

  type Tick = x: int | -0x8000_0000_0000_0000 <= x < 0x8000_0000_0000_0000

  datatype PairIds = PairIds(
    authority: UInt64, authorityGeneration: UInt64, leader: UInt64, leaderCapability: UInt64,
    follower: UInt64, followerCapability: UInt64, leaderConsent: UInt64, followerConsent: UInt64, glueSession: UInt64)

  predicate PairValid(p: PairIds) {
    && p.authority != 0 && p.authorityGeneration != 0 && p.leader != 0 && p.follower != 0 && p.leader != p.follower
    && p.leaderCapability != 0 && p.followerCapability != 0 && p.leaderConsent != 0 && p.followerConsent != 0
    && p.glueSession != 0
  }

  datatype CtrlSample = CtrlSample(available: bool, ctrl: bool)

  datatype Event = Event(moveResizeStarted: bool, receipt: UInt64, ofLeader: bool, window: UInt64, capability: UInt64,
                         ctrlCallback: CtrlSample, callbackTick: Tick)

  datatype Reason =
    | Activated | CtrlNotDownAtStart | WrongWindow | StalePairAuthority | WrongTargetGeneration | DuplicateStart
    | InvalidStart | MissingCtrlSample | InvalidTiming | EvidenceOverflow

  // What a start is judged by.
  datatype Start = Start(event: Event, owner: CtrlSample, current: PairIds, livePairValid: bool, ownerTick: Tick,
                         decisionTick: Tick)

  datatype Attempt = Attempt(attemptGeneration: UInt64, activationGeneration: UInt64, start: Start, activated: bool,
                             reason: Reason)

  datatype Activation = Activation(
    pair: PairIds, records: seq<Attempt>, attemptCount: nat, generation: UInt64, startEvaluated: bool, active: bool,
    rejected: bool, poisoned: bool, overflowed: bool)

  function Fresh(pair: PairIds): Activation {
    Activation(pair, [], 0, 0, false, false, false, false, false)
  }

  function ReasonOf(pair: PairIds, evaluated: bool, poisoned: bool, s: Start): Reason {
    if !s.event.moveResizeStarted || s.event.receipt == 0 then InvalidStart
    else if !PairValid(pair) || !s.livePairValid || s.current != pair then StalePairAuthority
    else if !s.event.ofLeader || s.event.window != pair.leader then WrongWindow
    else if s.event.capability != pair.leaderCapability then WrongTargetGeneration
    else if evaluated || poisoned then DuplicateStart
    else if !s.event.ctrlCallback.available || !s.owner.available then MissingCtrlSample
    else if s.event.callbackTick <= 0 || s.ownerTick < s.event.callbackTick || s.decisionTick < s.ownerTick then
      InvalidTiming
    else if !s.event.ctrlCallback.ctrl then CtrlNotDownAtStart
    else Activated
  }

  // The start got past every check that leaves the latch untouched.
  predicate Evaluates(r: Reason) {
    r.MissingCtrlSample? || r.InvalidTiming? || r.CtrlNotDownAtStart? || r.Activated?
  }

  predicate Poisons(r: Reason) {
    !r.Activated? && !r.CtrlNotDownAtStart? && !r.WrongWindow?
  }

  // The state and the record after a verdict; the attempt has been counted.
  function Judged(a: Activation, s: Start, reason: Reason): (Activation, Attempt)
    requires a.attemptCount <= CAPACITY + 1
  {
    var activated := reason.Activated?;
    var attempt := Attempt(a.attemptCount, if activated then a.attemptCount else 0, s, activated, reason);
    (a.(records := a.records + [attempt],
        generation := if activated then a.attemptCount else a.generation,
        startEvaluated := a.startEvaluated || Evaluates(reason),
        active := (a.active || activated) && !Poisons(reason),
        rejected := a.rejected || reason.CtrlNotDownAtStart?,
        poisoned := a.poisoned || Poisons(reason)),
     attempt)
  }

  function EvaluateStart(a: Activation, s: Start): (Activation, Attempt)
    requires a.attemptCount <= CAPACITY + 1
  {
    var counted := if a.attemptCount <= CAPACITY then a.(attemptCount := a.attemptCount + 1) else a;
    if |a.records| == CAPACITY then
      (counted.(overflowed := true, poisoned := true, active := false),
       Attempt(counted.attemptCount, 0, s, false, EvidenceOverflow))
    else Judged(counted, s, ReasonOf(a.pair, a.startEvaluated, a.poisoned, s))
  }

  function StampLastDecision(a: Activation, tick: Tick): (Activation, bool) {
    if a.records == [] || a.overflowed || tick <= 0 || tick < a.records[|a.records| - 1].start.decisionTick then
      (a.(poisoned := true, active := false), false)
    else
      var last := a.records[|a.records| - 1];
      (a.(records := a.records[|a.records| - 1 := last.(start := last.start.(decisionTick := tick))]), true)
  }

  predicate IsActive(a: Activation) {
    a.active && !a.poisoned
  }

  predicate Matches(a: Activation, generation: UInt64, current: PairIds) {
    IsActive(a) && generation != 0 && generation == a.generation && current == a.pair
  }

  // --- Runs ---

  datatype Input = StartIn(start: Start) | StampIn(tick: Tick) | FinishIn

  function Next(a: Activation, input: Input): Activation
    requires a.attemptCount <= CAPACITY + 1
  {
    match input
    case StartIn(start) => EvaluateStart(a, start).0
    case StampIn(tick) => StampLastDecision(a, tick).0
    case FinishIn => a.(active := false)
  }

  // What a start must bring to activate the session.
  predicate Qualifies(pair: PairIds, s: Start) {
    && s.event.moveResizeStarted && s.event.receipt != 0 && PairValid(pair) && s.livePairValid && s.current == pair
    && s.event.ofLeader && s.event.window == pair.leader && s.event.capability == pair.leaderCapability
    && s.event.ctrlCallback == CtrlSample(true, true) && s.owner.available
    && 0 < s.event.callbackTick <= s.ownerTick <= s.decisionTick
  }

  // The records tell the whole story: the activation is the record its generation
  // names, only wrong windows came before it, and, while active, after it.
  ghost predicate Consistent(a: Activation) {
    && |a.records| <= CAPACITY
    && a.attemptCount == (if a.overflowed then CAPACITY + 1 else |a.records|)
    && (a.overflowed ==> a.poisoned && |a.records| == CAPACITY)
    && (a.poisoned ==> !a.active)
    && (a.active ==> a.generation != 0)
    && (a.generation != 0 ==> a.startEvaluated && !a.rejected)
    && (a.rejected ==> a.startEvaluated)
    && 0 <= a.generation <= |a.records|
    && forall k | 0 <= k < |a.records| :: RecordOk(a, k, a.records[k])
  }

  predicate RecordOk(a: Activation, k: nat, r: Attempt) {
    && r.attemptGeneration == k + 1
    && (r.activated <==> k + 1 == a.generation) && (r.activated <==> r.reason.Activated?)
    && r.activationGeneration == (if r.activated then a.generation else 0)
    && (r.activated ==> Qualifies(a.pair, r.start))
    && (k + 1 < a.generation || (a.active && a.generation < k + 1) || (!a.startEvaluated && !a.poisoned) ==>
          r.reason.WrongWindow?)
  }

  function Run(a: Activation, inputs: seq<Input>): (b: Activation)
    requires a.attemptCount <= CAPACITY + 1
    ensures b.pair == a.pair && b.attemptCount <= CAPACITY + 1
    decreases |inputs|
  {
    if inputs == [] then a else Run(Next(a, inputs[0]), inputs[1..])
  }

  // The verdicts that the run returned to its caller.
  function Verdicts(a: Activation, inputs: seq<Input>): seq<Attempt>
    requires a.attemptCount <= CAPACITY + 1
    decreases |inputs|
  {
    if inputs == [] then []
    else
      (if inputs[0].StartIn? then [EvaluateStart(a, inputs[0].start).1] else []) +
      Verdicts(Next(a, inputs[0]), inputs[1..])
  }

  lemma StartKeepsConsistent(a: Activation, s: Start)
    requires Consistent(a)
    ensures Consistent(EvaluateStart(a, s).0)
  {
    var (b, attempt) := EvaluateStart(a, s);
    if |b.records| > |a.records| {
      assert RecordOk(b, |a.records|, attempt);
      forall k | 0 <= k < |a.records| ensures RecordOk(b, k, b.records[k]) {
        assert b.records[k] == a.records[k] && RecordOk(a, k, a.records[k]);
      }
    }
  }

  lemma StampKeepsConsistent(a: Activation, tick: Tick)
    requires Consistent(a)
    ensures Consistent(StampLastDecision(a, tick).0)
  {
    var b := StampLastDecision(a, tick).0;
    forall k | 0 <= k < |b.records| ensures RecordOk(b, k, b.records[k]) {
      assert RecordOk(a, k, a.records[k]);
    }
  }

  lemma NextKeepsConsistent(a: Activation, input: Input)
    requires Consistent(a)
    ensures Consistent(Next(a, input))
  {
    match input
    case StartIn(start) => StartKeepsConsistent(a, start);
    case StampIn(tick) => StampKeepsConsistent(a, tick);
    case FinishIn =>
      forall k | 0 <= k < |a.records| ensures RecordOk(Next(a, input), k, a.records[k]) {
        assert RecordOk(a, k, a.records[k]);
      }
  }

  lemma {:induction false} RunKeepsConsistent(a: Activation, inputs: seq<Input>)
    requires Consistent(a)
    ensures Consistent(Run(a, inputs))
    decreases |inputs|
  {
    if inputs != [] {
      NextKeepsConsistent(a, inputs[0]);
      RunKeepsConsistent(Next(a, inputs[0]), inputs[1..]);
    }
  }

  // A start activates exactly when it qualifies, is the first leader start to be
  // judged, nothing was poisoned before and there is room for its record.
  lemma ActivatesExactly(a: Activation, s: Start)
    requires Consistent(a)
    ensures EvaluateStart(a, s).1.activated <==>
            Qualifies(a.pair, s) && !a.startEvaluated && !a.poisoned && |a.records| < CAPACITY
    ensures EvaluateStart(a, s).1.activated ==> IsActive(EvaluateStart(a, s).0)
  {
  }

  // The latch is used up: evaluated or poisoned, and not active.
  predicate Over(a: Activation) {
    (a.startEvaluated || a.poisoned) && !a.active
  }

  // Once over, it is never active again and no start activates it.
  lemma {:induction false} OverForever(a: Activation, inputs: seq<Input>)
    requires Consistent(a) && Over(a)
    ensures Over(Run(a, inputs)) && !IsActive(Run(a, inputs))
    ensures forall k | 0 <= k < |Verdicts(a, inputs)| :: !Verdicts(a, inputs)[k].activated
    decreases |inputs|
  {
    if inputs != [] {
      NextKeepsConsistent(a, inputs[0]);
      OverForever(Next(a, inputs[0]), inputs[1..]);
    }
  }

  lemma {:induction false} RunJoins(a: Activation, before: seq<Input>, after: seq<Input>)
    requires a.attemptCount <= CAPACITY + 1
    ensures Run(a, before + after) == Run(Run(a, before), after)
    decreases |before|
  {
    if before == [] {
      assert before + after == after;
    } else {
      RunJoins(Next(a, before[0]), before[1..], after);
      assert (before + after)[1..] == before[1..] + after;
    }
  }

  // A session that was active and no longer is stays inactive.
  lemma NeverActiveAgain(pair: PairIds, before: seq<Input>, between: seq<Input>, later: seq<Input>)
    requires IsActive(Run(Fresh(pair), before)) && !IsActive(Run(Fresh(pair), before + between))
    ensures !IsActive(Run(Fresh(pair), before + between + later))
  {
    RunKeepsConsistent(Fresh(pair), before);
    var a := Run(Fresh(pair), before);
    RunJoins(Fresh(pair), before, between);
    RunKeepsConsistent(a, between);
    EvaluatedStays(a, between);
    RunJoins(Fresh(pair), before + between, later);
    OverForever(Run(a, between), later);
  }

  lemma {:induction false} EvaluatedStays(a: Activation, inputs: seq<Input>)
    requires a.attemptCount <= CAPACITY + 1 && a.startEvaluated
    ensures Run(a, inputs).startEvaluated
    decreases |inputs|
  {
    if inputs != [] {
      EvaluatedStays(Next(a, inputs[0]), inputs[1..]);
    }
  }

  lemma {:induction false} EvaluatedActivatesNoMore(a: Activation, inputs: seq<Input>)
    requires Consistent(a) && a.startEvaluated
    ensures forall k | 0 <= k < |Verdicts(a, inputs)| :: !Verdicts(a, inputs)[k].activated
    decreases |inputs|
  {
    if inputs != [] {
      NextKeepsConsistent(a, inputs[0]);
      EvaluatedActivatesNoMore(Next(a, inputs[0]), inputs[1..]);
    }
  }

  // No run activates twice.
  lemma {:induction false} ActivatesAtMostOnce(a: Activation, inputs: seq<Input>, i: nat, j: nat)
    requires Consistent(a) && i < j < |Verdicts(a, inputs)|
    ensures !(Verdicts(a, inputs)[i].activated && Verdicts(a, inputs)[j].activated)
    decreases |inputs|
  {
    var next := Next(a, inputs[0]);
    var first := if inputs[0].StartIn? then [EvaluateStart(a, inputs[0].start).1] else [];
    NextKeepsConsistent(a, inputs[0]);
    if i < |first| {
      if first[0].activated {
        EvaluatedActivatesNoMore(next, inputs[1..]);
      }
    } else {
      ActivatesAtMostOnce(next, inputs[1..], i - |first|, j - |first|);
    }
  }

  // A generation that matches names the one record that activated the session: the
  // first start of the leader, with Ctrl held, after nothing but wrong windows.
  lemma MatchNamesTheActivation(pair: PairIds, inputs: seq<Input>, generation: UInt64, current: PairIds)
    requires Matches(Run(Fresh(pair), inputs), generation, current)
    ensures var records := Run(Fresh(pair), inputs).records;
            && 1 <= generation <= |records| && current == pair
            && records[generation - 1].activated && Qualifies(pair, records[generation - 1].start)
            && forall k | 0 <= k < |records| && k != generation - 1 :: records[k].reason.WrongWindow?
  {
    RunKeepsConsistent(Fresh(pair), inputs);
  }

  // Finishing deactivates at once, keeping the records, and an evaluated session never
  // becomes active again after it.
  lemma FinishEnds(a: Activation, later: seq<Input>)
    requires Consistent(a)
    ensures !IsActive(Next(a, FinishIn)) && Next(a, FinishIn).records == a.records
    ensures a.startEvaluated ==> !IsActive(Run(Next(a, FinishIn), later))
  {
    NextKeepsConsistent(a, FinishIn);
    if a.startEvaluated {
      OverForever(Next(a, FinishIn), later);
    }
  }

  // --- Every verdict, and what it does to the latch ---

  // The pair is complete, still alive, and the one the start names.
  predicate PairStands(a: Activation, s: Start) {
    var p := a.pair;
    && 0 !in {p.authority, p.authorityGeneration, p.leader, p.leaderCapability, p.follower, p.followerCapability,
              p.leaderConsent, p.followerConsent, p.glueSession}
    && p.leader != p.follower && s.livePairValid && s.current == p
  }

  predicate TimesRun(s: Start) {
    0 < s.event.callbackTick && s.event.callbackTick <= s.ownerTick && s.ownerTick <= s.decisionTick
  }

  // The first of the conditions of an activation that fails decides the verdict.
  function FirstFailing(a: Activation, s: Start): Reason {
    if |a.records| >= 8 then EvidenceOverflow
    else if !(s.event.moveResizeStarted && s.event.receipt > 0) then InvalidStart
    else if !PairStands(a, s) then StalePairAuthority
    else if !(s.event.ofLeader && s.event.window == a.pair.leader) then WrongWindow
    else if s.event.capability != a.pair.leaderCapability then WrongTargetGeneration
    else if a.startEvaluated || a.poisoned then DuplicateStart
    else if !(s.event.ctrlCallback.available && s.owner.available) then MissingCtrlSample
    else if !TimesRun(s) then InvalidTiming
    else if !s.event.ctrlCallback.ctrl then CtrlNotDownAtStart
    else Activated
  }

  // The latch may still be closed by a later start.
  predicate Open(a: Activation) {
    !a.startEvaluated && !a.poisoned
  }

  // A start is judged by the first condition it fails. It is recorded while there is room.
  // A wrong window changes nothing else; a missing Ctrl uses the latch up; every other
  // failing start poisons it.
  lemma VerdictExactly(a: Activation, s: Start)
    requires Consistent(a)
    ensures var (b, verdict) := EvaluateStart(a, s);
            var reason := verdict.reason;
            && reason == FirstFailing(a, s) && verdict.start == s && (verdict.activated <==> reason.Activated?)
            && b.records == (if |a.records| < 8 then a.records + [verdict] else a.records)
            && (b.poisoned <==> a.poisoned || reason !in {Activated, WrongWindow, CtrlNotDownAtStart})
            && (IsActive(b) <==> reason.Activated? || (IsActive(a) && reason.WrongWindow?))
            && (Open(b) <==> Open(a) && reason.WrongWindow?)
            && (b.rejected <==> a.rejected || reason.CtrlNotDownAtStart?)
            && (b.overflowed <==> a.overflowed || |a.records| >= 8)
  {
  }

  // The stamp of the last decision is taken exactly when it does not run backwards and no
  // record was lost; it changes that record's time alone, and a bad stamp poisons.
  lemma StampExactly(a: Activation, tick: Tick)
    requires Consistent(a)
    ensures var (b, ok) := StampLastDecision(a, tick);
            var n := |a.records| - 1;
            && (ok <==> n >= 0 && !a.overflowed && tick > 0 && tick >= a.records[n].start.decisionTick)
            && (ok ==> |b.records| == n + 1 && b.records[..n] == a.records[..n] &&
                       b.records[n].start == a.records[n].start.(decisionTick := tick) &&
                       b.records[n].reason == a.records[n].reason &&
                       b.poisoned == a.poisoned && IsActive(b) == IsActive(a))
            && (!ok ==> b == a.(poisoned := true, active := false))
  {
  }

  // --- The controller ---

  class ExplorerGlueActivationController {
    const pair: PairIds
    const records: array<Attempt>
    var stored: nat
    var attemptCount: nat
    var generation: UInt64
    var startEvaluated: bool
    var active: bool
    var rejected: bool
    var poisoned: bool
    var overflowed: bool

    ghost predicate Storage()
      reads this
    {
      records.Length == CAPACITY && stored <= CAPACITY && attemptCount <= CAPACITY + 1
    }

    ghost function Value(): Activation
      reads this, records
      requires Storage()
    {
      Activation(pair, records[..stored], attemptCount, generation, startEvaluated, active, rejected, poisoned, overflowed)
    }

    constructor (pair: PairIds)
      ensures Storage() && Value() == Fresh(pair) && Consistent(Value()) && fresh(records)
    {
      this.pair := pair;
      var noPair := PairIds(0, 0, 0, 0, 0, 0, 0, 0, 0);
      var noEvent := Event(false, 0, true, 0, 0, CtrlSample(false, false), 0);
      records := new Attempt[CAPACITY](_ =>
        Attempt(0, 0, Start(noEvent, CtrlSample(false, false), noPair, false, 0, 0), false, InvalidStart));
      stored, attemptCount, generation := 0, 0, 0;
      startEvaluated, active, rejected, poisoned, overflowed := false, false, false, false, false;
    }

    method Judge(s: Start) returns (reason: Reason, activated: bool)
      requires Storage()
      modifies this`startEvaluated, this`rejected, this`active, this`generation
      ensures reason == ReasonOf(pair, old(startEvaluated), poisoned, s) && activated == reason.Activated?
      ensures startEvaluated == (old(startEvaluated) || Evaluates(reason))
      ensures rejected == (old(rejected) || reason.CtrlNotDownAtStart?)
      ensures active == (old(active) || activated)
      ensures generation == if activated then attemptCount else old(generation)
    {
      activated := false;
      if !s.event.moveResizeStarted || s.event.receipt == 0 {
        reason := InvalidStart;
      } else if !PairValid(pair) || !s.livePairValid || s.current != pair {
        reason := StalePairAuthority;
      } else if !s.event.ofLeader || s.event.window != pair.leader {
        reason := WrongWindow;
      } else if s.event.capability != pair.leaderCapability {
        reason := WrongTargetGeneration;
      } else if startEvaluated || poisoned {
        reason := DuplicateStart;
      } else {
        startEvaluated := true;
        if !s.event.ctrlCallback.available || !s.owner.available {
          reason := MissingCtrlSample;
        } else if s.event.callbackTick <= 0 || s.ownerTick < s.event.callbackTick || s.decisionTick < s.ownerTick {
          reason := InvalidTiming;
        } else if !s.event.ctrlCallback.ctrl {
          rejected := true;
          reason := CtrlNotDownAtStart;
        } else {
          active, activated := true, true;
          generation := attemptCount;
          reason := Activated;
        }
      }
    }

    method Record(attempt: Attempt)
      requires Storage() && stored < CAPACITY
      modifies this`stored, records
      ensures Storage() && records[..stored] == old(records[..stored]) + [attempt]
    {
      records[stored] := attempt;
      stored := stored + 1;
    }

    method Decide(s: Start) returns (attempt: Attempt)
      requires Storage() && stored < CAPACITY
      modifies this, records
      ensures attempt.reason == ReasonOf(pair, old(startEvaluated), old(poisoned), s)
      ensures Storage() && (Value(), attempt) == Judged(old(Value()), s, attempt.reason)
    {
      var reason, activated := Judge(s);
      attempt := Attempt(attemptCount, if activated then generation else 0, s, activated, reason);
      if !reason.Activated? && !reason.CtrlNotDownAtStart? && !reason.WrongWindow? {
        poisoned := true;
        active := false;
      }
      Record(attempt);
    }

    method Evaluate(s: Start) returns (attempt: Attempt)
      requires Storage()
      modifies this, records
      ensures Storage() && (Value(), attempt) == EvaluateStart(old(Value()), s)
    {
      if attemptCount <= CAPACITY {
        attemptCount := attemptCount + 1;
      }
      if stored == CAPACITY {
        overflowed, poisoned := true, true;
        active := false;
        return Attempt(attemptCount, 0, s, false, EvidenceOverflow);
      }
      attempt := Decide(s);
    }

    method StampLastDecisionComplete(tick: Tick) returns (ok: bool)
      requires Storage()
      modifies this`poisoned, this`active, records
      ensures Storage() && (Value(), ok) == StampLastDecision(old(Value()), tick)
    {
      if stored == 0 || overflowed || tick <= 0 || tick < records[stored - 1].start.decisionTick {
        poisoned := true;
        active := false;
        return false;
      }
      var last := records[stored - 1];
      records[stored - 1] := last.(start := last.start.(decisionTick := tick));
      assert records[..stored] == old(records[..stored])[stored - 1 := last.(start := last.start.(decisionTick := tick))];
      return true;
    }

    method MatchesActivation(wanted: UInt64, current: PairIds) returns (matches: bool)
      requires Storage()
      ensures matches <==> Matches(Value(), wanted, current)
    {
      return active && !poisoned && wanted != 0 && wanted == generation && current == pair;
    }

    method Finish()
      requires Storage()
      modifies this`active
      ensures Storage() && Value() == Next(old(Value()), FinishIn)
    {
      active := false;
    }
  }
}
