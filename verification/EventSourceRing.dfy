/** The event source as the object it is: a fixed ring of receipts with a head and
    a size, proved against the queue of EventSource. */
module EventSourceRing {
  import opened Wrappers
  import opened EventSource

  // --- A ring as a sequence ---

  function Slot(head: nat, offset: nat, n: nat): (slot: nat)
    requires head < n && offset <= n
    ensures slot == if head + offset < n then head + offset else head + offset - n
  {
    WrapOnce(head + offset, n);
    (head + offset) % n
  }

  lemma WrapOnce(x: nat, n: nat)
    requires n > 0 && x < 2 * n
    ensures x % n == if x < n then x else x - n
  {
    if x >= n {
      assert x == n * 1 + (x - n);
      assert x / n == 1;
    }
  }

  ghost predicate RingOk(n: nat, head: nat, size: nat) {
    size <= n && (n == 0 || head < n)
  }

  // The receipts of the ring, oldest first.
  ghost function Unrolled(slots: seq<RawReceipt>, head: nat, size: nat): (r: seq<RawReceipt>)
    requires RingOk(|slots|, head, size)
    ensures |r| == size && forall k | 0 <= k < size :: r[k] == slots[Slot(head, k, |slots|)]
  {
    seq(size, k requires 0 <= k < size => slots[Slot(head, k, |slots|)])
  }

  lemma PushUnrolled(slots: seq<RawReceipt>, head: nat, size: nat, receipt: RawReceipt)
    requires RingOk(|slots|, head, size) && size < |slots|
    ensures Unrolled(slots[Slot(head, size, |slots|) := receipt], head, size + 1) ==
            Unrolled(slots, head, size) + [receipt]
  {
  }

  lemma PopUnrolled(slots: seq<RawReceipt>, head: nat, size: nat)
    requires RingOk(|slots|, head, size) && size > 0
    ensures Unrolled(slots, head, size)[0] == slots[head]
    ensures Unrolled(slots, Slot(head, 1, |slots|), size - 1) == Unrolled(slots, head, size)[1..]
  {
  }

  lemma Regrouped<T>(taken: seq<T>, found: seq<T>, rest: seq<T>)
    ensures taken + (found + rest) == (taken + found) + rest
  {
  }

  lemma {:induction false} PopAllUnfolds(s: Source, identityOf: IdentityOf, taken: seq<Delivered>)
    requires s.queue != []
    ensures var (popped, event) := Pop(s, identityOf(s.queue[0]));
            && PopAll(s, identityOf).0 == PopAll(popped, identityOf).0
            && taken + PopAll(s, identityOf).1 ==
               (taken + if event.Some? then [event.value] else []) + PopAll(popped, identityOf).1
  {
    var (popped, event) := Pop(s, identityOf(s.queue[0]));
    Regrouped(taken, if event.Some? then [event.value] else [], PopAll(popped, identityOf).1);
  }

  class EventSourceObject {
    const leader: Binding
    const follower: Binding
    const hooks: seq<HookSlot>
    const queue: array<RawReceipt>
    var head: nat
    var size: nat
    var running: bool
    var notificationPending: bool
    var callbackInProgress: bool
    var drainInProgress: bool
    var poison: Poison
    var nextSequence: UInt64
    var latestSequence: UInt64
    var accepted: nat
    var ignoredOtherWindow: nat
    var ignoredObjectChild: nat
    var ignoredEvent: nat
    var overflow: nat
    var notificationFailures: nat
    var wrongThread: nat
    var reentrant: nat
    var postPoison: nat

    ghost predicate Valid()
      reads this
    {
      RingOk(queue.Length, head, size)
    }

    ghost function Value(): Source
      requires Valid()
      reads this, queue
    {
      Source(leader, follower, hooks, queue.Length, running, notificationPending, callbackInProgress, drainInProgress,
             poison, Unrolled(queue[..], head, size), nextSequence, latestSequence, accepted, ignoredOtherWindow,
             ignoredObjectChild, ignoredEvent, overflow, notificationFailures, wrongThread, reentrant, postPoison)
    }

    constructor (leader: Binding, follower: Binding, hooks: seq<HookSlot>, capacity: nat)
      ensures Valid() && fresh(queue) && Value() == Opened(leader, follower, hooks, capacity)
    {
      this.leader, this.follower, this.hooks := leader, follower, hooks;
      queue := new RawReceipt[capacity](_ => EMPTY_RECEIPT);
      head, size := 0, 0;
      var valid := BindingsValid(leader, follower, capacity);
      running := valid;
      poison := if valid then NoPoison else InvalidBinding;
      notificationPending, callbackInProgress, drainInProgress := false, false, false;
      nextSequence, latestSequence := 1, 0;
      accepted, ignoredOtherWindow, ignoredObjectChild, ignoredEvent := 0, 0, 0, 0;
      overflow, notificationFailures, wrongThread, reentrant, postPoison := 0, 0, 0, 0, 0;
    }

    method Poisoned(p: Poison)
      requires Valid()
      modifies this`poison
      ensures Valid() && Value() == MarkPoison(old(Value()), p)
    {
      if poison.NoPoison? {
        poison := p;
      }
    }

    // The checks of a callback, before anything is changed.
    method CheckCallback(call: Callback) returns (refusal: Option<Refusal>)
      requires Valid()
      ensures refusal == RefusalOf(Value(), call)
    {
      if !call.onOwner {
        return Some(OffOwnerThread);
      }
      if callbackInProgress || drainInProgress {
        return Some(WhileBusy);
      }
      if !running || !poison.NoPoison? {
        return Some(NotListening);
      }
      if !IsSupported(call.event) {
        return Some(UnsupportedEvent);
      }
      if call.objectId != OBJID_WINDOW || call.childId != CHILDID_SELF {
        return Some(OtherObject);
      }
      if call.window != leader.window && call.window != follower.window {
        return Some(OtherWindow);
      }
      return None;
    }

    // A callback that must not happen poisons the source.
    method RefuseIntruder(refusal: Refusal)
      requires Valid() && (refusal.OffOwnerThread? || refusal.WhileBusy?)
      modifies this`wrongThread, this`reentrant, this`poison
      ensures Valid() && Value() == Refused(old(Value()), refusal)
    {
      if refusal.OffOwnerThread? {
        wrongThread := wrongThread + 1;
        Poisoned(WrongOwnerThread);
      } else {
        reentrant := reentrant + 1;
        Poisoned(ReentrantCallback);
      }
    }

    // A callback of no interest is counted.
    method CountIgnored(refusal: Refusal)
      requires Valid() && !refusal.OffOwnerThread? && !refusal.WhileBusy?
      modifies this`postPoison, this`ignoredEvent, this`ignoredObjectChild, this`ignoredOtherWindow
      ensures Valid() && Value() == Refused(old(Value()), refusal)
    {
      match refusal
      case NotListening =>
        postPoison := postPoison + 1;
      case UnsupportedEvent =>
        ignoredEvent := ignoredEvent + 1;
      case OtherObject =>
        ignoredObjectChild := ignoredObjectChild + 1;
      case OtherWindow =>
        ignoredOtherWindow := ignoredOtherWindow + 1;
    }

    method ReceiveRawEvent(call: Callback)
      requires Valid()
      modifies this, queue
      ensures Valid() && Value() == Receive(old(Value()), call)
    {
      var refusal := CheckCallback(call);
      if refusal.None? {
        Number(call);
      } else if refusal.value.OffOwnerThread? || refusal.value.WhileBusy? {
        RefuseIntruder(refusal.value);
      } else {
        CountIgnored(refusal.value);
      }
    }

    // The part of the callback that counts as in progress.
    method Number(call: Callback)
      requires Valid() && !callbackInProgress && poison.NoPoison?
      modifies this, queue
      ensures Valid() && Value() == Numbered(old(Value()), call)
    {
      callbackInProgress := true;
      Admit(call);
      callbackInProgress := false;
    }

    method Admit(call: Callback)
      requires Valid() && poison.NoPoison?
      modifies this, queue
      ensures Valid() && Value() == Admitted(old(Value()), call)
    {
      if nextSequence == 0 {
        Poisoned(SequenceExhausted);
        return;
      }
      var sequence := nextSequence;
      nextSequence := if nextSequence == UINT64_MAX then 0 else nextSequence + 1;
      latestSequence := sequence;
      StoreAndNotify(call);
    }

    method StoreAndNotify(call: Callback)
      requires Valid() && poison.NoPoison?
      modifies this, queue
      ensures Valid() && Value() == Sequenced(old(Value()), call)
    {
      if size >= queue.Length {
        overflow := overflow + 1;
        Poisoned(QueueOverflow);
        return;
      }
      Store(ReceiptOf(call, latestSequence));
      Notify(call.posts);
    }

    method Notify(posts: bool)
      requires Valid()
      modifies this`notificationPending, this`notificationFailures, this`poison
      ensures Valid() && Value() == Notified(old(Value()), posts)
    {
      if !notificationPending {
        notificationPending := true;
        if !posts {
          notificationPending := false;
          notificationFailures := notificationFailures + 1;
          Poisoned(NotificationFailure);
        }
      }
    }

    // The tail of the ring takes the receipt.
    method Store(receipt: RawReceipt)
      requires Valid() && size < queue.Length
      modifies this`size, queue
      ensures Valid() && Value() == old(Value()).(queue := old(Value()).queue + [receipt])
    {
      var tail := Slot(head, size, queue.Length);
      PushUnrolled(queue[..], head, size, receipt);
      ghost var slots := queue[..];
      queue[tail] := receipt;
      assert queue[..] == slots[tail := receipt];
      size := size + 1;
    }

    // The head of the ring gives its receipt up.
    method Take() returns (receipt: RawReceipt)
      requires Valid() && size > 0
      modifies this`head, this`size
      ensures Valid() && receipt == old(Value()).queue[0]
      ensures Value() == old(Value()).(queue := old(Value()).queue[1..])
    {
      PopUnrolled(queue[..], head, size);
      receipt := queue[head];
      head := Slot(head, 1, queue.Length);
      size := size - 1;
    }

    method RefuseToDrain(onOwner: bool)
      requires Valid()
      modifies this`wrongThread, this`reentrant, this`poison
      ensures Valid() && Value() == RefuseDrain(old(Value()), onOwner)
    {
      if !onOwner {
        wrongThread := wrongThread + 1;
        Poisoned(WrongOwnerThread);
      } else {
        reentrant := reentrant + 1;
        Poisoned(ReentrantDrain);
      }
    }

    method DrainOwnerQueue(onOwner: bool, identityOf: IdentityOf) returns (events: seq<Delivered>)
      requires Valid()
      modifies this
      ensures Valid() && (Value(), events) == Drain(old(Value()), onOwner, identityOf)
    {
      events := [];
      if !onOwner || drainInProgress || callbackInProgress {
        RefuseToDrain(onOwner);
        return;
      }
      drainInProgress := true;
      notificationPending := false;
      assert Value() == BeginDrain(old(Value()));
      events := PopEverything(identityOf);
      label Emptied:
      drainInProgress := false;
      assert Value() == EndDrain(old@Emptied(Value()));
    }

    method PopEverything(identityOf: IdentityOf) returns (events: seq<Delivered>)
      requires Valid()
      modifies this
      ensures Valid() && (Value(), events) == PopAll(old(Value()), identityOf)
    {
      events := [];
      ghost var (end, all) := PopAll(Value(), identityOf);
      while size != 0
        invariant Valid()
        invariant PopAll(Value(), identityOf).0 == end
        invariant events + PopAll(Value(), identityOf).1 == all
        decreases size
      {
        PopAllUnfolds(Value(), identityOf, events);
        var event := PopOne(identityOf);
        events := events + if event.Some? then [event.value] else [];
      }
      assert Value().queue == [] && events + [] == events;
    }

    method PopOne(identityOf: IdentityOf) returns (event: Option<Delivered>)
      requires Valid() && size > 0
      modifies this
      ensures Valid() && size < old(size)
      ensures (Value(), event) == Pop(old(Value()), identityOf(old(Value()).queue[0]))
    {
      var receipt := Take();
      event := InterpretReceipt(receipt, identityOf(receipt));
    }

    // The checks of a drained receipt against its hook, its binding and its window.
    method Judge(receipt: RawReceipt, identity: Identity) returns (v: Verdict)
      ensures v == VerdictOn(leader, follower, hooks, receipt, identity)
    {
      if !IsSupported(receipt.event) {
        return BadEvent;
      }
      if receipt.objectId != OBJID_WINDOW || receipt.childId != CHILDID_SELF {
        return BadObject;
      }
      var slot := LookUpHook(receipt.hook);
      if slot.None? || slot.value.kind != ExpectedHook(receipt.event) {
        return Fault(HookReceiptMismatch);
      }
      var binding := FindBinding(leader, follower, receipt.window);
      if binding.None? {
        return BadWindow;
      }
      if slot.value.process != binding.value.process {
        return Fault(HookReceiptMismatch);
      }
      if !receipt.event.DestroyObject? {
        if identity.thread == 0 || identity.process != binding.value.process || identity.thread != binding.value.thread {
          return Fault(TargetIdentityMismatch);
        }
        if !identity.rootIsSelf {
          return Fault(TargetNotRoot);
        }
      }
      return Deliver(Delivered(NormalizedKind(receipt.event), binding.value.role, binding.value.windowId,
                               binding.value.capability, receipt.sequence, receipt.thread, receipt.time));
    }

    method InterpretReceipt(receipt: RawReceipt, identity: Identity) returns (event: Option<Delivered>)
      requires Valid()
      modifies this`poison, this`accepted, this`ignoredEvent, this`ignoredObjectChild, this`ignoredOtherWindow
      ensures Valid() && (Value(), event) == Interpret(old(Value()), receipt, identity)
    {
      var verdict := Judge(receipt, identity);
      event := Apply(verdict);
    }

    // The receipt is delivered, poisons the source, or is counted as ignored.
    method Apply(verdict: Verdict) returns (event: Option<Delivered>)
      requires Valid()
      modifies this`poison, this`accepted, this`ignoredEvent, this`ignoredObjectChild, this`ignoredOtherWindow
      ensures Valid() && (Value(), event) == Applied(old(Value()), verdict)
    {
      if verdict.Deliver? {
        accepted := accepted + 1;
        return Some(verdict.event);
      }
      if verdict.Fault? {
        Poisoned(verdict.poison);
      } else {
        CountBad(verdict);
      }
      return None;
    }

    method CountBad(verdict: Verdict)
      requires Valid() && (verdict.BadEvent? || verdict.BadObject? || verdict.BadWindow?)
      modifies this`ignoredEvent, this`ignoredObjectChild, this`ignoredOtherWindow
      ensures Valid() && (Value(), None) == Applied(old(Value()), verdict)
    {
      if verdict.BadEvent? {
        ignoredEvent := ignoredEvent + 1;
      } else if verdict.BadObject? {
        ignoredObjectChild := ignoredObjectChild + 1;
      } else {
        ignoredOtherWindow := ignoredOtherWindow + 1;
      }
    }

    method LookUpHook(hook: nat) returns (slot: Option<HookSlot>)
      ensures slot == FindHook(hooks, hook)
    {
      for k := 0 to |hooks|
        invariant FindHook(hooks[k..], hook) == FindHook(hooks, hook)
      {
        assert hooks[k..][0] == hooks[k] && hooks[k..][1..] == hooks[k + 1..];
        if hooks[k].hook == hook {
          return Some(hooks[k]);
        }
      }
      return None;
    }

    // Bit 0 for the leader, bit 1 for the follower; both off the owner thread.
    method PendingDestroyedRoles(onOwner: bool) returns (leaderGone: bool, followerGone: bool)
      requires Valid()
      ensures !onOwner ==> leaderGone && followerGone
      ensures onOwner ==> (leaderGone <==> AwaitsDestroyed(Value(), LeaderWindow))
      ensures onOwner ==> (followerGone <==> AwaitsDestroyed(Value(), FollowerWindow))
    {
      if !onOwner {
        return true, true;
      }
      leaderGone, followerGone := false, false;
      ghost var all := Value().queue;
      for k := 0 to size
        invariant leaderGone <==> exists j | 0 <= j < k :: AnnouncesDestroyed(Value(), all[j], LeaderWindow)
        invariant followerGone <==> exists j | 0 <= j < k :: AnnouncesDestroyed(Value(), all[j], FollowerWindow)
      {
        var receipt := queue[Slot(head, k, queue.Length)];
        if receipt.event.DestroyObject? && receipt.objectId == OBJID_WINDOW && receipt.childId == CHILDID_SELF {
          var binding := FindBinding(leader, follower, receipt.window);
          if binding.Some? {
            if binding.value.role.LeaderWindow? {
              leaderGone := true;
            } else {
              followerGone := true;
            }
          }
        }
      }
    }

    method StopLive(onOwner: bool, unhookFailed: bool)
      requires Valid()
      modifies this
      ensures Valid() && Value() == EventSource.StopLive(old(Value()), onOwner, unhookFailed)
    {
      if !onOwner {
        wrongThread := wrongThread + 1;
        Poisoned(WrongOwnerThread);
        running := false;
        return;
      }
      if unhookFailed {
        Poisoned(HookUnhookFailure);
      }
      running := false;
      notificationPending := false;
    }

    method StopSynthetic(injectFailure: bool)
      requires Valid()
      modifies this
      ensures Valid() && Value() == EventSource.StopSynthetic(old(Value()), injectFailure)
    {
      running := false;
      notificationPending := false;
      if injectFailure {
        Poisoned(HookUnhookFailure);
      }
    }
  }

  // A queued receipt says that the window of the role is gone.
  ghost predicate AnnouncesDestroyed(s: Source, receipt: RawReceipt, role: WindowRole) {
    && receipt.event.DestroyObject? && receipt.objectId == OBJID_WINDOW && receipt.childId == CHILDID_SELF
    && (|| (receipt.window == s.leader.window && s.leader.role == role)
        || (receipt.window != s.leader.window && receipt.window == s.follower.window && s.follower.role == role))
  }

  ghost predicate AwaitsDestroyed(s: Source, role: WindowRole) {
    exists k | 0 <= k < |s.queue| :: AnnouncesDestroyed(s, s.queue[k], role)
  }
}
