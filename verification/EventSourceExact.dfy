/** What becomes of every callback, receipt, drain and stop of the event source, told
    by their own arguments, and what a source that is still healthy has delivered. */
module EventSourceExact {
  import opened Wrappers
  import opened EventSource

  // --- Receipts that leave the ring ---

  // The hook of an event: lifecycle for the start and the end of a move, and one each
  // for locations and for the destruction of a window.
  predicate Fits(kind: HookKind, event: EventCode) {
    match event
    case MoveSizeStart => kind == LifecycleHook
    case MoveSizeEnd => kind == LifecycleHook
    case LocationChange => kind == LocationHook
    case DestroyObject => kind == DestroyHook
    case OtherCode(_) => false
  }

  // The slot is the first with its hook.
  ghost predicate IsFirst(hooks: seq<HookSlot>, hook: nat, k: nat) {
    k < |hooks| && hooks[k].hook == hook && forall j | 0 <= j < k :: hooks[j].hook != hook
  }

  // The first registration of the hook fits the event and, if asked for, the process.
  ghost predicate Registered(hooks: seq<HookSlot>, hook: nat, event: EventCode, process: Option<nat>) {
    exists k: nat ::
      && IsFirst(hooks, hook, k) && Fits(hooks[k].kind, event)
      && (process.Some? ==> hooks[k].process == process.value)
  }

  predicate Bound(s: Source, window: nat) {
    window == s.leader.window || window == s.follower.window
  }

  function BindingOf(s: Source, window: nat): Binding {
    if window == s.leader.window then s.leader else s.follower
  }

  predicate IsSelf(objectId: int, childId: int) {
    objectId == 0 && childId == 0
  }

  predicate Identified(b: Binding, identity: Identity) {
    identity.process == b.process && identity.thread == b.thread && identity.thread != 0
  }

  ghost predicate Deliverable(s: Source, receipt: RawReceipt, identity: Identity) {
    var b := BindingOf(s, receipt.window);
    && IsSelf(receipt.objectId, receipt.childId) && Bound(s, receipt.window)
    && Registered(s.hooks, receipt.hook, receipt.event, Some(b.process))
    && (receipt.event.DestroyObject? || (Identified(b, identity) && identity.rootIsSelf))
  }

  lemma {:induction false} FoundIsFirst(hooks: seq<HookSlot>, hook: nat)
    ensures match FindHook(hooks, hook)
            case None => forall k | 0 <= k < |hooks| :: hooks[k].hook != hook
            case Some(slot) => exists k: nat :: IsFirst(hooks, hook, k) && hooks[k] == slot
  {
    if hooks != [] && hooks[0].hook == hook {
      assert IsFirst(hooks, hook, 0);
    } else if hooks != [] {
      FoundIsFirst(hooks[1..], hook);
      assert forall k | 0 < k < |hooks| :: hooks[k] == hooks[1..][k - 1];
      if FindHook(hooks[1..], hook).Some? {
        var k: nat :| IsFirst(hooks[1..], hook, k) && hooks[1..][k] == FindHook(hooks[1..], hook).value;
        assert IsFirst(hooks, hook, k + 1);
      }
    }
  }

  lemma RegisteredIsFound(hooks: seq<HookSlot>, hook: nat, event: EventCode, process: Option<nat>)
    ensures Registered(hooks, hook, event, process) <==>
            var slot := FindHook(hooks, hook);
            slot.Some? && Fits(slot.value.kind, event) && (process.Some? ==> slot.value.process == process.value)
  {
    FoundIsFirst(hooks, hook);
    if FindHook(hooks, hook).Some? {
      var k: nat :| IsFirst(hooks, hook, k) && hooks[k] == FindHook(hooks, hook).value;
      forall j: nat | IsFirst(hooks, hook, j) ensures j == k {
      }
    }
  }

  // The one effect of a receipt that is not delivered.
  ghost predicate Dismissed(s: Source, t: Source, receipt: RawReceipt, identity: Identity) {
    var b := BindingOf(s, receipt.window);
    if receipt.event.OtherCode? then t == s.(ignoredEvent := s.ignoredEvent + 1)
    else if !IsSelf(receipt.objectId, receipt.childId) then t == s.(ignoredObjectChild := s.ignoredObjectChild + 1)
    else if Registered(s.hooks, receipt.hook, receipt.event, None) && !Bound(s, receipt.window) then
      t == s.(ignoredOtherWindow := s.ignoredOtherWindow + 1)
    else
      var cause := if !Registered(s.hooks, receipt.hook, receipt.event, Some(b.process)) then HookReceiptMismatch
                   else if !Identified(b, identity) then TargetIdentityMismatch else TargetNotRoot;
      t == s.(poison := if s.poison == NoPoison then cause else s.poison)
  }

  // A receipt is delivered, and only counted, exactly when it is deliverable; otherwise
  // it is counted as ignored, or poisons a source that was healthy.
  lemma DeliveredExactly(s: Source, receipt: RawReceipt, identity: Identity)
    ensures var (t, event) := Interpret(s, receipt, identity);
            && (event.Some? <==> Deliverable(s, receipt, identity))
            && (event.Some? ==> t == s.(accepted := s.accepted + 1))
            && (event.None? ==> Dismissed(s, t, receipt, identity))
  {
    RegisteredIsFound(s.hooks, receipt.hook, receipt.event, None);
    RegisteredIsFound(s.hooks, receipt.hook, receipt.event, Some(BindingOf(s, receipt.window).process));
  }

  // --- Callbacks ---

  predicate Admissible(s: Source, call: Callback) {
    && call.onOwner && !s.callbackInProgress && !s.drainInProgress && s.running && s.poison == NoPoison
    && !call.event.OtherCode? && IsSelf(call.objectId, call.childId) && Bound(s, call.window)
  }

  // How many receipts are counted under a heading after a callback.
  function Bumped(count: nat, reached: bool): nat {
    if reached then count + 1 else count
  }

  function CallbackPoison(s: Source, call: Callback): Poison {
    if s.poison != NoPoison then s.poison
    else if !call.onOwner then WrongOwnerThread
    else if s.callbackInProgress || s.drainInProgress then ReentrantCallback
    else if !Admissible(s, call) then NoPoison
    else if s.nextSequence == 0 then SequenceExhausted
    else if |s.queue| >= s.capacity then QueueOverflow
    else if !s.notificationPending && !call.posts then NotificationFailure
    else NoPoison
  }

  predicate Heard(s: Source, t: Source, call: Callback) {
    var numbered := Admissible(s, call) && s.nextSequence != 0;
    var queued := numbered && |s.queue| < s.capacity;
    && t.queue == s.queue + (if queued then [RawReceipt(call.hook, call.event, call.window, call.objectId,
                                                        call.childId, call.thread, call.time, s.nextSequence)]
                             else [])
    && t.latestSequence == (if numbered then s.nextSequence else s.latestSequence)
    && t.overflow == Bumped(s.overflow, numbered && !queued)
    && t.notificationPending == (s.notificationPending || (queued && call.posts))
    && t.notificationFailures == Bumped(s.notificationFailures, queued && !s.notificationPending && !call.posts)
    && t.poison == CallbackPoison(s, call)
    && t.leader == s.leader && t.follower == s.follower
  }

  lemma AdmittedIsHeard(s: Source, call: Callback)
    requires Admissible(s, call)
    ensures Heard(s, Receive(s, call), call)
  {
  }

  lemma RefusedIsHeard(s: Source, call: Callback)
    requires !Admissible(s, call)
    ensures Heard(s, Receive(s, call), call)
  {
    assert s.queue + [] == s.queue;
  }

  // A callback gets a sequence exactly when it is admissible and sequences are left; it
  // is queued if there is room, and announced unless a notification is pending.
  lemma CallbackExactly(s: Source, call: Callback)
    ensures Heard(s, Receive(s, call), call)
  {
    if Admissible(s, call) {
      AdmittedIsHeard(s, call);
    } else {
      RefusedIsHeard(s, call);
    }
  }

  // Every other callback is counted under the first heading that applies.
  lemma RefusedCallbackCounts(s: Source, call: Callback)
    ensures var t := Receive(s, call);
            var busy := s.callbackInProgress || s.drainInProgress;
            var heard := call.onOwner && !busy && s.running && s.poison == NoPoison;
            && t.wrongThread == Bumped(s.wrongThread, !call.onOwner)
            && t.reentrant == Bumped(s.reentrant, call.onOwner && busy)
            && t.postPoison == Bumped(s.postPoison, call.onOwner && !busy && !heard)
            && t.ignoredEvent == Bumped(s.ignoredEvent, heard && call.event.OtherCode?)
            && t.ignoredObjectChild == Bumped(s.ignoredObjectChild, heard && !call.event.OtherCode? &&
                                                                     !IsSelf(call.objectId, call.childId))
            && t.ignoredOtherWindow == Bumped(s.ignoredOtherWindow, heard && !call.event.OtherCode? &&
                                                                     IsSelf(call.objectId, call.childId) &&
                                                                     !Bound(s, call.window))
            && t.accepted == s.accepted && t.running == s.running
  {
  }

  // --- Drains and stops ---

  // A drain begins exactly on the owner thread with nothing in progress, and then the
  // notification is taken back; otherwise the source is poisoned.
  lemma DrainBeginsExactly(w: World, onOwner: bool)
    ensures var s, t := w.source, Advance(w, BeginOp(onOwner)).source;
            var busy := s.drainInProgress || s.callbackInProgress;
            if onOwner && !busy then t == s.(drainInProgress := true, notificationPending := false)
            else
              && t.poison == (if s.poison != NoPoison then s.poison
                              else if onOwner then ReentrantDrain else WrongOwnerThread)
              && t == s.(poison := t.poison, wrongThread := Bumped(s.wrongThread, !onOwner),
                         reentrant := Bumped(s.reentrant, onOwner))
  {
  }

  // A stop ends the running source for good; only on the owner thread is the
  // notification taken back. A failed removal of hooks poisons.
  lemma StopsExactly(w: World, onOwner: bool, failed: bool)
    ensures var s, t := w.source, Advance(w, StopLiveOp(onOwner, failed)).source;
            && !t.running && t.notificationPending == (s.notificationPending && !onOwner)
            && t.poison == (if s.poison != NoPoison then s.poison else if !onOwner then WrongOwnerThread
                            else if failed then HookUnhookFailure else NoPoison)
            && t.wrongThread == Bumped(s.wrongThread, !onOwner) && t.queue == s.queue
    ensures var s, t := w.source, Advance(w, StopSyntheticOp(failed)).source;
            && !t.running && !t.notificationPending
            && t.poison == (if s.poison == NoPoison && failed then HookUnhookFailure else s.poison)
  {
  }

  lemma {:induction false} StoppedForever(w: World, ops: seq<Operation>)
    requires CanRun(w, ops) && !w.source.running
    ensures !RunOps(w, ops).source.running && RunOps(w, ops).pushed == w.pushed
    decreases |ops|
  {
    if ops != [] {
      StoppedForever(Advance(w, ops[0]), ops[1..]);
    }
  }

  // --- What a healthy source has delivered ---

  // Only receipts of the two windows themselves are queued.
  ghost predicate QueueClean(s: Source) {
    forall k | 0 <= k < |s.queue| ::
      && !s.queue[k].event.OtherCode? && IsSelf(s.queue[k].objectId, s.queue[k].childId)
      && Bound(s, s.queue[k].window)
  }

  // As long as nothing has poisoned the source, every receipt that left the ring has
  // been delivered, in its place.
  ghost predicate AllDelivered(w: World) {
    && QueueClean(w.source)
    && (w.source.poison == NoPoison ==>
          |w.delivered| == |w.popped| && forall k | 0 <= k < |w.delivered| :: w.delivered[k].sequence == k + 1)
  }

  lemma PopKeepsDelivered(w: World, identity: Identity)
    requires FifoOk(w) && AllDelivered(w) && Enabled(w, PopOp(identity))
    ensures AllDelivered(Advance(w, PopOp(identity)))
  {
    assert w.pushed[|w.popped|] == w.source.queue[0];
  }

  lemma ReceiveKeepsDelivered(w: World, call: Callback)
    requires FifoOk(w) && AllDelivered(w)
    ensures AllDelivered(Advance(w, ReceiveOp(call)))
  {
    CallbackExactly(w.source, call);
  }

  lemma OthersKeepDelivered(w: World, op: Operation)
    requires FifoOk(w) && AllDelivered(w) && Enabled(w, op) && !op.ReceiveOp? && !op.PopOp?
    ensures AllDelivered(Advance(w, op))
  {
  }

  lemma AdvanceKeepsDelivered(w: World, op: Operation)
    requires FifoOk(w) && AllDelivered(w) && Enabled(w, op)
    ensures AllDelivered(Advance(w, op))
  {
    match op
    case ReceiveOp(call) => ReceiveKeepsDelivered(w, call);
    case PopOp(identity) => PopKeepsDelivered(w, identity);
    case _ => OthersKeepDelivered(w, op);
  }

  lemma {:induction false} RunKeepsDelivered(w: World, ops: seq<Operation>)
    requires WorldOk(w) && AllDelivered(w) && CanRun(w, ops)
    ensures AllDelivered(RunOps(w, ops))
    decreases |ops|
  {
    if ops != [] {
      AdvanceKeepsWorld(w, ops[0]);
      AdvanceKeepsDelivered(w, ops[0]);
      RunKeepsDelivered(Advance(w, ops[0]), ops[1..]);
    }
  }

  // In every run that has not poisoned the source: every sequence number given out has
  // been delivered, in order and without a gap, or still waits in the ring; and it was
  // delivered for the window its callback came from.
  lemma HealthyDeliversAll(leader: Binding, follower: Binding, hooks: seq<HookSlot>, capacity: nat, ops: seq<Operation>)
    requires CanRun(Fresh(leader, follower, hooks, capacity), ops)
    requires RunOps(Fresh(leader, follower, hooks, capacity), ops).source.poison == NoPoison
    ensures var w := RunOps(Fresh(leader, follower, hooks, capacity), ops);
            && |w.delivered| + |w.source.queue| == w.source.latestSequence == |w.pushed|
            && (forall k | 0 <= k < |w.delivered| ::
                  && w.delivered[k].sequence == k + 1
                  && Announces(w.source.leader, w.source.follower, w.pushed[k], w.delivered[k]))
  {
    var w := Fresh(leader, follower, hooks, capacity);
    RunKeepsWorld(w, ops);
    RunKeepsDelivered(w, ops);
    var e := RunOps(w, ops);
    forall k | 0 <= k < |e.delivered|
      ensures Announces(e.source.leader, e.source.follower, e.pushed[k], e.delivered[k])
    {
      assert e.popped[e.delivered[k].sequence - 1] == e.pushed[k];
    }
  }
  // --- Opening ---

  // A new source runs exactly when its bindings are complete and name two windows, and is
  // poisoned from the start otherwise.
  lemma OpensExactly(leader: Binding, follower: Binding, hooks: seq<HookSlot>, capacity: nat)
    ensures var s := Opened(leader, follower, hooks, capacity);
            var complete :=
              && capacity > 0
              && 0 !in {leader.window, leader.process, leader.thread} && 0 !in {leader.windowId, leader.capability}
              && 0 !in {follower.window, follower.process, follower.thread}
              && 0 !in {follower.windowId, follower.capability}
              && leader.window != follower.window && leader.windowId != follower.windowId
              && leader.role == LeaderWindow && follower.role == FollowerWindow;
            && s.running == complete && s.poison == (if complete then NoPoison else InvalidBinding)
            && s.queue == [] && s.nextSequence == 1 && s.latestSequence == 0
            && !s.notificationPending && !s.callbackInProgress && !s.drainInProgress
  {
  }
}
