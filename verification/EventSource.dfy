/** The bounded event source: raw receipts enter a ring in callbacks and leave it
    in drains; the first failure poisons it for good. */
module EventSource {
  import opened Wrappers

  datatype EventCode = MoveSizeStart | LocationChange | MoveSizeEnd | DestroyObject | OtherCode(code: nat)

  predicate IsSupported(event: EventCode) {
    !event.OtherCode?
  }

  datatype HookKind = LifecycleHook | LocationHook | DestroyHook

  datatype HookSlot = HookSlot(hook: nat, process: nat, kind: HookKind)

  datatype WindowRole = LeaderWindow | FollowerWindow

  datatype Binding = Binding(window: nat, process: nat, thread: nat, windowId: UInt64, capability: UInt64,
                             role: WindowRole)

  datatype Poison =
    | NoPoison | InvalidBinding | HookUnhookFailure | HookReceiptMismatch | QueueOverflow | NotificationFailure
    | ReentrantCallback | ReentrantDrain | WrongOwnerThread | TargetIdentityMismatch | TargetNotRoot | SequenceExhausted

  const OBJID_WINDOW: int := 0
  const CHILDID_SELF: int := 0

  // The arguments of one callback. `onOwner` tells whether it runs on the owner
  // thread, and `posts` whether the operating system would accept a notification.
  datatype Callback = Callback(hook: nat, event: EventCode, window: nat, objectId: int, childId: int,
                               thread: nat, time: nat, onOwner: bool, posts: bool)

  datatype RawReceipt = RawReceipt(hook: nat, event: EventCode, window: nat, objectId: int, childId: int,
                                   thread: nat, time: nat, sequence: UInt64)

  const EMPTY_RECEIPT := RawReceipt(0, OtherCode(0), 0, 0, 0, 0, 0, 0)

  datatype DeliveredKind = MoveStarted | Moved | MoveEnded | TargetDestroyed

  datatype Delivered = Delivered(kind: DeliveredKind, role: WindowRole, windowId: UInt64, capability: UInt64,
                                 sequence: UInt64, thread: nat, time: nat)

  // What the operating system says about a window when its receipt is drained.
  datatype Identity = Identity(process: nat, thread: nat, rootIsSelf: bool)

  datatype Source = Source(
    leader: Binding, follower: Binding, hooks: seq<HookSlot>, capacity: nat,
    running: bool, notificationPending: bool, callbackInProgress: bool, drainInProgress: bool,
    poison: Poison,
    queue: seq<RawReceipt>,
    nextSequence: UInt64, latestSequence: UInt64,
    accepted: nat, ignoredOtherWindow: nat, ignoredObjectChild: nat, ignoredEvent: nat,
    overflow: nat, notificationFailures: nat, wrongThread: nat, reentrant: nat, postPoison: nat)

  predicate BindingsValid(leader: Binding, follower: Binding, capacity: nat) {
    && capacity != 0 && leader.window != 0 && follower.window != 0 && leader.window != follower.window
    && leader.process != 0 && follower.process != 0 && leader.thread != 0 && follower.thread != 0
    && leader.windowId != 0 && follower.windowId != 0 && leader.windowId != follower.windowId
    && leader.capability != 0 && follower.capability != 0
    && leader.role.LeaderWindow? && follower.role.FollowerWindow?
  }

  // A source right after construction; with valid bindings it runs.
  function Opened(leader: Binding, follower: Binding, hooks: seq<HookSlot>, capacity: nat): Source {
    var valid := BindingsValid(leader, follower, capacity);
    Source(leader, follower, hooks, capacity, valid, false, false, false,
           if valid then NoPoison else InvalidBinding, [], 1, 0, 0, 0, 0, 0, 0, 0, 0, 0, 0)
  }

  // The first poison wins.
  function MarkPoison(s: Source, poison: Poison): Source {
    if s.poison.NoPoison? then s.(poison := poison) else s
  }

  // --- One callback ---

  datatype Refusal =
    | OffOwnerThread | WhileBusy | NotListening | UnsupportedEvent | OtherObject | OtherWindow

  // Why a callback gets no receipt, by the first check that it fails.
  function RefusalOf(s: Source, call: Callback): Option<Refusal> {
    if !call.onOwner then Some(OffOwnerThread)
    else if s.callbackInProgress || s.drainInProgress then Some(WhileBusy)
    else if !s.running || !s.poison.NoPoison? then Some(NotListening)
    else if !IsSupported(call.event) then Some(UnsupportedEvent)
    else if call.objectId != OBJID_WINDOW || call.childId != CHILDID_SELF then Some(OtherObject)
    else if call.window != s.leader.window && call.window != s.follower.window then Some(OtherWindow)
    else None
  }

  function Refused(s: Source, refusal: Refusal): Source {
    match refusal
    case OffOwnerThread => MarkPoison(s.(wrongThread := s.wrongThread + 1), WrongOwnerThread)
    case WhileBusy => MarkPoison(s.(reentrant := s.reentrant + 1), ReentrantCallback)
    case NotListening => s.(postPoison := s.postPoison + 1)
    case UnsupportedEvent => s.(ignoredEvent := s.ignoredEvent + 1)
    case OtherObject => s.(ignoredObjectChild := s.ignoredObjectChild + 1)
    case OtherWindow => s.(ignoredOtherWindow := s.ignoredOtherWindow + 1)
  }

  function Receive(s: Source, call: Callback): Source {
    match RefusalOf(s, call)
    case Some(refusal) => Refused(s, refusal)
    case None => Numbered(s, call)
  }

  // The part of the callback during which it counts as in progress.
  function Numbered(s: Source, call: Callback): Source {
    Admitted(s.(callbackInProgress := true), call).(callbackInProgress := false)
  }

  function Admitted(s: Source, call: Callback): Source {
    if s.nextSequence == 0 then MarkPoison(s, SequenceExhausted)
    else Sequenced(s.(nextSequence := if s.nextSequence == UINT64_MAX then 0 else s.nextSequence + 1,
                      latestSequence := s.nextSequence), call)
  }

  // The receipt has its sequence; it is queued and announced, or the ring is full.
  function Sequenced(s: Source, call: Callback): Source {
    if |s.queue| >= s.capacity then MarkPoison(s.(overflow := s.overflow + 1), QueueOverflow)
    else Notified(s.(queue := s.queue + [ReceiptOf(call, s.latestSequence)]), call.posts)
  }

  // A notification is posted unless one is pending already.
  function Notified(s: Source, posts: bool): Source {
    if s.notificationPending then s
    else if posts then s.(notificationPending := true)
    else MarkPoison(s.(notificationFailures := s.notificationFailures + 1), NotificationFailure)
  }

  function ReceiptOf(call: Callback, sequence: UInt64): RawReceipt {
    RawReceipt(call.hook, call.event, call.window, call.objectId, call.childId, call.thread, call.time, sequence)
  }

  // --- One drain, as its beginning, its pops and its end ---

  function MayDrain(s: Source, onOwner: bool): bool {
    onOwner && !s.drainInProgress && !s.callbackInProgress
  }

  function RefuseDrain(s: Source, onOwner: bool): Source {
    if !onOwner then MarkPoison(s.(wrongThread := s.wrongThread + 1), WrongOwnerThread)
    else MarkPoison(s.(reentrant := s.reentrant + 1), ReentrantDrain)
  }

  function BeginDrain(s: Source): Source {
    s.(drainInProgress := true, notificationPending := false)
  }

  function EndDrain(s: Source): Source {
    s.(drainInProgress := false)
  }

  function FindBinding(leader: Binding, follower: Binding, window: nat): Option<Binding> {
    if window == leader.window then Some(leader)
    else if window == follower.window then Some(follower)
    else None
  }

  function FindHook(hooks: seq<HookSlot>, hook: nat): Option<HookSlot> {
    if hooks == [] then None
    else if hooks[0].hook == hook then Some(hooks[0])
    else FindHook(hooks[1..], hook)
  }

  function ExpectedHook(event: EventCode): HookKind {
    match event
    case LocationChange => LocationHook
    case DestroyObject => DestroyHook
    case _ => LifecycleHook
  }

  function NormalizedKind(event: EventCode): DeliveredKind {
    match event
    case MoveSizeStart => MoveStarted
    case MoveSizeEnd => MoveEnded
    case DestroyObject => TargetDestroyed
    case _ => Moved
  }

  predicate Names(b: Binding, receipt: RawReceipt, event: Delivered) {
    receipt.window == b.window && event.role == b.role && event.windowId == b.windowId && event.capability == b.capability
  }

  // A delivered event tells what its receipt said, of the window bound to the receipt.
  predicate Announces(leader: Binding, follower: Binding, receipt: RawReceipt, event: Delivered) {
    && event.sequence == receipt.sequence && event.thread == receipt.thread && event.time == receipt.time
    && receipt.objectId == OBJID_WINDOW && receipt.childId == CHILDID_SELF
    && (event.kind.MoveStarted? <==> receipt.event.MoveSizeStart?)
    && (event.kind.Moved? <==> receipt.event.LocationChange?)
    && (event.kind.MoveEnded? <==> receipt.event.MoveSizeEnd?)
    && (Names(leader, receipt, event) || Names(follower, receipt, event))
  }

  // Interpreting a receipt leaves the ring, the sequence counters and the flags alone.
  predicate SameRing(s: Source, t: Source) {
    && t.leader == s.leader && t.follower == s.follower
    && t.queue == s.queue && t.capacity == s.capacity && t.overflow == s.overflow
    && t.nextSequence == s.nextSequence && t.latestSequence == s.latestSequence
    && t.running == s.running && t.notificationPending == s.notificationPending
    && t.callbackInProgress == s.callbackInProgress && t.drainInProgress == s.drainInProgress
    && (!s.poison.NoPoison? ==> t.poison == s.poison)
  }

  datatype Verdict = BadEvent | BadObject | BadWindow | Fault(poison: Poison) | Deliver(event: Delivered)

  // What becomes of a receipt that has left the ring.
  function VerdictOn(leader: Binding, follower: Binding, hooks: seq<HookSlot>, receipt: RawReceipt, identity: Identity)
    : (v: Verdict)
    ensures v.Deliver? ==> Announces(leader, follower, receipt, v.event)
  {
    if !IsSupported(receipt.event) then BadEvent
    else if receipt.objectId != OBJID_WINDOW || receipt.childId != CHILDID_SELF then BadObject
    else
      var slot := FindHook(hooks, receipt.hook);
      if slot.None? || slot.value.kind != ExpectedHook(receipt.event) then Fault(HookReceiptMismatch)
      else
        var binding := FindBinding(leader, follower, receipt.window);
        if binding.None? then BadWindow
        else if slot.value.process != binding.value.process then Fault(HookReceiptMismatch)
        else if !receipt.event.DestroyObject? &&
                (identity.thread == 0 || identity.process != binding.value.process ||
                 identity.thread != binding.value.thread) then Fault(TargetIdentityMismatch)
        else if !receipt.event.DestroyObject? && !identity.rootIsSelf then Fault(TargetNotRoot)
        else Deliver(Delivered(NormalizedKind(receipt.event), binding.value.role, binding.value.windowId,
                               binding.value.capability, receipt.sequence, receipt.thread, receipt.time))
  }

  // Deliver the receipt, ignore it, or poison the source.
  function Interpret(s: Source, receipt: RawReceipt, identity: Identity): (r: (Source, Option<Delivered>))
    ensures SameRing(s, r.0)
    ensures r.0.accepted == s.accepted + if r.1.Some? then 1 else 0
    ensures r.1.Some? ==> Announces(s.leader, s.follower, receipt, r.1.value)
  {
    Applied(s, VerdictOn(s.leader, s.follower, s.hooks, receipt, identity))
  }

  function Applied(s: Source, verdict: Verdict): (r: (Source, Option<Delivered>))
    ensures SameRing(s, r.0)
    ensures r.0.accepted == s.accepted + if r.1.Some? then 1 else 0
  {
    match verdict
    case BadEvent => (s.(ignoredEvent := s.ignoredEvent + 1), None)
    case BadObject => (s.(ignoredObjectChild := s.ignoredObjectChild + 1), None)
    case BadWindow => (s.(ignoredOtherWindow := s.ignoredOtherWindow + 1), None)
    case Fault(poison) => (MarkPoison(s, poison), None)
    case Deliver(event) => (s.(accepted := s.accepted + 1), Some(event))
  }

  function Pop(s: Source, identity: Identity): (r: (Source, Option<Delivered>))
    requires s.queue != []
    ensures SameRing(s.(queue := s.queue[1..]), r.0)
  {
    Interpret(s.(queue := s.queue[1..]), s.queue[0], identity)
  }

  type IdentityOf = RawReceipt -> Identity

  function PopAll(s: Source, identityOf: IdentityOf): (Source, seq<Delivered>)
    decreases |s.queue|
  {
    if s.queue == [] then (s, [])
    else
      var (popped, event) := Pop(s, identityOf(s.queue[0]));
      var (end, rest) := PopAll(popped, identityOf);
      (end, (if event.Some? then [event.value] else []) + rest)
  }

  function Drain(s: Source, onOwner: bool, identityOf: IdentityOf): (Source, seq<Delivered>) {
    if !MayDrain(s, onOwner) then (RefuseDrain(s, onOwner), [])
    else
      var (end, events) := PopAll(BeginDrain(s), identityOf);
      (EndDrain(end), events)
  }

  // --- Stopping ---

  // Off the owner thread the source stops but keeps its pending flag.
  function StopLive(s: Source, onOwner: bool, unhookFailed: bool): Source {
    if !onOwner then MarkPoison(s.(wrongThread := s.wrongThread + 1, running := false), WrongOwnerThread)
    else
      var stopped := s.(running := false, notificationPending := false);
      if unhookFailed then MarkPoison(stopped, HookUnhookFailure) else stopped
  }

  function StopSynthetic(s: Source, injectFailure: bool): Source {
    var stopped := s.(running := false, notificationPending := false);
    if injectFailure then MarkPoison(stopped, HookUnhookFailure) else stopped
  }

  // --- Whole runs ---

  datatype Operation =
    | ReceiveOp(call: Callback)
    | BeginOp(onOwner: bool)
    | PopOp(identity: Identity)
    | EndOp
    | StopLiveOp(onOwnerThread: bool, unhookFailed: bool)
    | StopSyntheticOp(injectFailure: bool)

  // The source with the history of what went in, what came out, and what was delivered.
  datatype World = World(source: Source, pushed: seq<RawReceipt>, popped: seq<RawReceipt>, delivered: seq<Delivered>)

  // Pops and the end of a drain happen only inside a drain; callbacks, refused
  // drains and stops may interrupt one at any point.
  predicate Enabled(w: World, op: Operation) {
    match op
    case PopOp(_) => w.source.drainInProgress && w.source.queue != []
    case EndOp => w.source.drainInProgress && w.source.queue == []
    case _ => true
  }

  function Advance(w: World, op: Operation): World
    requires Enabled(w, op)
  {
    var s := w.source;
    match op
    case ReceiveOp(call) =>
      var after := Receive(s, call);
      World(after, w.pushed + if |after.queue| > |s.queue| then [after.queue[|s.queue|]] else [], w.popped, w.delivered)
    case BeginOp(onOwner) => w.(source := if MayDrain(s, onOwner) then BeginDrain(s) else RefuseDrain(s, onOwner))
    case PopOp(identity) =>
      var (after, event) := Pop(s, identity);
      World(after, w.pushed, w.popped + [s.queue[0]], w.delivered + if event.Some? then [event.value] else [])
    case EndOp => w.(source := EndDrain(s))
    case StopLiveOp(onOwner, unhookFailed) => w.(source := StopLive(s, onOwner, unhookFailed))
    case StopSyntheticOp(injectFailure) => w.(source := StopSynthetic(s, injectFailure))
  }

  ghost predicate CanRun(w: World, ops: seq<Operation>)
    decreases |ops|
  {
    ops == [] || (Enabled(w, ops[0]) && CanRun(Advance(w, ops[0]), ops[1..]))
  }

  function RunOps(w: World, ops: seq<Operation>): World
    requires CanRun(w, ops)
    decreases |ops|
  {
    if ops == [] then w else RunOps(Advance(w, ops[0]), ops[1..])
  }

  // --- The ring is a FIFO and numbers its receipts without a gap ---

  ghost predicate FifoOk(w: World) {
    && w.pushed == w.popped + w.source.queue
    && (forall k | 0 <= k < |w.pushed| :: w.pushed[k].sequence == k + 1)
    && |w.pushed| + w.source.overflow == w.source.latestSequence
    && w.source.nextSequence == (if w.source.latestSequence == UINT64_MAX then 0 else w.source.latestSequence + 1)
    && (w.source.overflow == 0 || (w.source.overflow == 1 && !w.source.poison.NoPoison?))
    && |w.source.queue| <= w.source.capacity
    && !w.source.callbackInProgress
  }

  // Deliveries announce popped receipts, in their order, and are what is counted as accepted.
  ghost predicate DeliveryOk(w: World) {
    && |w.delivered| == w.source.accepted
    && (forall k | 0 <= k < |w.delivered| ::
          && 0 < w.delivered[k].sequence <= |w.popped|
          && Announces(w.source.leader, w.source.follower, w.popped[w.delivered[k].sequence - 1], w.delivered[k]))
    && (forall j, k | 0 <= j < k < |w.delivered| :: w.delivered[j].sequence < w.delivered[k].sequence)
  }

  // A running healthy source between drains owes a notification exactly when it holds receipts.
  predicate NotificationOk(s: Source) {
    && (s.running && s.poison.NoPoison? && !s.drainInProgress ==> (s.notificationPending <==> s.queue != []))
    && (s.running && s.drainInProgress ==> !s.notificationPending)
  }

  ghost predicate WorldOk(w: World) {
    FifoOk(w) && DeliveryOk(w) && NotificationOk(w.source)
  }

  // What one callback can do to the ring.
  ghost predicate Effect(s: Source, t: Source, call: Callback) {
    && t.leader == s.leader && t.follower == s.follower
    && t.capacity == s.capacity && t.accepted == s.accepted && t.running == s.running
    && t.callbackInProgress == s.callbackInProgress && t.drainInProgress == s.drainInProgress
    && (!s.poison.NoPoison? ==> t.poison == s.poison)
    && (|| Untouched(s, t)
        || (&& s.poison.NoPoison? && s.running && !s.drainInProgress
            && s.nextSequence != 0 && t.latestSequence == s.nextSequence
            && t.nextSequence == (if s.nextSequence == UINT64_MAX then 0 else s.nextSequence + 1)
            && (Overflowed(s, t) || Queued(s, t, call))))
  }

  predicate Untouched(s: Source, t: Source) {
    && t.queue == s.queue && t.overflow == s.overflow && t.notificationPending == s.notificationPending
    && t.nextSequence == s.nextSequence && t.latestSequence == s.latestSequence
  }

  predicate Overflowed(s: Source, t: Source) {
    |s.queue| >= s.capacity && t.queue == s.queue && t.overflow == s.overflow + 1 && !t.poison.NoPoison?
  }

  predicate Queued(s: Source, t: Source, call: Callback) {
    && |s.queue| < s.capacity && t.queue == s.queue + [ReceiptOf(call, s.nextSequence)] && t.overflow == s.overflow
    && (t.poison.NoPoison? ==> t.notificationPending)
  }

  lemma ReceiveEffect(s: Source, call: Callback)
    requires !s.callbackInProgress
    ensures Effect(s, Receive(s, call), call)
  {
  }

  lemma ReceiveKeepsFifo(w: World, call: Callback)
    requires FifoOk(w)
    ensures FifoOk(Advance(w, ReceiveOp(call)))
  {
    ReceiveEffect(w.source, call);
    var s, after := w.source, Receive(w.source, call);
    if |after.queue| > |s.queue| {
      assert w.pushed + [after.queue[|s.queue|]] == w.popped + after.queue;
    }
  }

  lemma ReceiveKeepsWorld(w: World, call: Callback)
    requires WorldOk(w)
    ensures WorldOk(Advance(w, ReceiveOp(call)))
  {
    ReceiveKeepsFifo(w, call);
    ReceiveEffect(w.source, call);
  }

  lemma PopKeepsDelivery(w: World, identity: Identity)
    requires FifoOk(w) && DeliveryOk(w) && Enabled(w, PopOp(identity))
    ensures DeliveryOk(Advance(w, PopOp(identity)))
  {
    assert w.pushed[|w.popped|] == w.source.queue[0];
  }

  lemma PopKeepsWorld(w: World, identity: Identity)
    requires WorldOk(w) && Enabled(w, PopOp(identity))
    ensures WorldOk(Advance(w, PopOp(identity)))
  {
    assert w.pushed == (w.popped + [w.source.queue[0]]) + w.source.queue[1..];
    PopKeepsDelivery(w, identity);
  }

  // Changing flags and failure counters touches neither the ring nor its history.
  lemma FlagsKeepHistory(w: World, t: Source)
    requires FifoOk(w) && DeliveryOk(w)
    requires SameRing(w.source.(running := t.running, notificationPending := t.notificationPending,
                                drainInProgress := t.drainInProgress), t)
    requires t.accepted == w.source.accepted
    ensures FifoOk(w.(source := t)) && DeliveryOk(w.(source := t))
  {
  }

  lemma DrainEdgeKeepsWorld(w: World, op: Operation)
    requires WorldOk(w) && Enabled(w, op) && (op.BeginOp? || op.EndOp?)
    ensures WorldOk(Advance(w, op))
  {
    FlagsKeepHistory(w, Advance(w, op).source);
  }

  lemma StopKeepsWorld(w: World, op: Operation)
    requires WorldOk(w) && Enabled(w, op) && (op.StopLiveOp? || op.StopSyntheticOp?)
    ensures WorldOk(Advance(w, op))
  {
    FlagsKeepHistory(w, Advance(w, op).source);
  }

  lemma AdvanceKeepsWorld(w: World, op: Operation)
    requires WorldOk(w) && Enabled(w, op)
    ensures WorldOk(Advance(w, op))
  {
    match op
    case ReceiveOp(call) => ReceiveKeepsWorld(w, call);
    case PopOp(identity) => PopKeepsWorld(w, identity);
    case BeginOp(_) => DrainEdgeKeepsWorld(w, op);
    case EndOp => DrainEdgeKeepsWorld(w, op);
    case _ => StopKeepsWorld(w, op);
  }

  // The poison, once set, never changes, and history only grows.
  lemma AdvanceKeepsPoison(w: World, op: Operation)
    requires Enabled(w, op)
    ensures var w' := Advance(w, op);
            && (!w.source.poison.NoPoison? ==> w'.source.poison == w.source.poison)
            && w.pushed <= w'.pushed && w.popped <= w'.popped && w.delivered <= w'.delivered
  {
  }

  function Fresh(leader: Binding, follower: Binding, hooks: seq<HookSlot>, capacity: nat): World {
    World(Opened(leader, follower, hooks, capacity), [], [], [])
  }

  lemma {:induction false} RunKeepsWorld(w: World, ops: seq<Operation>)
    requires WorldOk(w) && CanRun(w, ops)
    ensures WorldOk(RunOps(w, ops))
    ensures !w.source.poison.NoPoison? ==> RunOps(w, ops).source.poison == w.source.poison
    ensures w.delivered <= RunOps(w, ops).delivered
    decreases |ops|
  {
    if ops != [] {
      AdvanceKeepsWorld(w, ops[0]);
      AdvanceKeepsPoison(w, ops[0]);
      RunKeepsWorld(Advance(w, ops[0]), ops[1..]);
    }
  }

  // Every run of a new source, with any interleaving of callbacks, drains and stops.
  lemma SourceRefinesFifo(leader: Binding, follower: Binding, hooks: seq<HookSlot>, capacity: nat, ops: seq<Operation>)
    requires CanRun(Fresh(leader, follower, hooks, capacity), ops)
    ensures WorldOk(RunOps(Fresh(leader, follower, hooks, capacity), ops))
  {
    RunKeepsWorld(Fresh(leader, follower, hooks, capacity), ops);
  }

  function PopOps(queue: seq<RawReceipt>, identityOf: IdentityOf): seq<Operation> {
    if queue == [] then [] else [PopOp(identityOf(queue[0]))] + PopOps(queue[1..], identityOf)
  }

  // A drain that is not interrupted is the sequence of pops it is made of.
  lemma {:induction false} PopAllIsPops(w: World, identityOf: IdentityOf)
    requires w.source.drainInProgress
    ensures var ops := PopOps(w.source.queue, identityOf);
            var (end, events) := PopAll(w.source, identityOf);
            && CanRun(w, ops)
            && RunOps(w, ops) == World(end, w.pushed, w.popped + w.source.queue, w.delivered + events)
    decreases |w.source.queue|
  {
    var s := w.source;
    if s.queue == [] {
      assert w.popped + [] == w.popped && w.delivered + [] == w.delivered;
    } else {
      var op := PopOp(identityOf(s.queue[0]));
      var rest := PopOps(s.queue[1..], identityOf);
      assert ([op] + rest)[1..] == rest;
      var next := Advance(w, op);
      PopAllIsPops(next, identityOf);
      assert next.popped + s.queue[1..] == w.popped + s.queue;
      DeliveredJoin(w, s.queue[0], identityOf);
    }
  }

  lemma DeliveredJoin(w: World, receipt: RawReceipt, identityOf: IdentityOf)
    requires w.source.queue != [] && w.source.queue[0] == receipt && w.source.drainInProgress
    ensures var next := Advance(w, PopOp(identityOf(receipt)));
            next.delivered + PopAll(next.source, identityOf).1 == w.delivered + PopAll(w.source, identityOf).1
  {
    var (after, event) := Pop(w.source, identityOf(receipt));
    var found := if event.Some? then [event.value] else [];
    var rest := PopAll(after, identityOf).1;
    assert (w.delivered + found) + rest == w.delivered + (found + rest);
  }
}
