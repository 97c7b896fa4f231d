/** The observer's event queue as a concurrent protocol: any number of producers
    push and announce receipts while one drainer empties the queue. Every step
    below is one atomic action of the source. */
module ObserverQueue {
  import opened Wrappers

  const EVENT_QUEUE_CAPACITY: nat := 4096

  // Sequences start at one, so zero can stand for "nothing dropped".
  datatype Receipt = Receipt(producer: nat, sequence: nat)

  // A producer, from its push to the end of its callback.
  datatype ProducerPhase =
    | Resting
    | Pushed      // has queued or refused its receipt, has not yet exchanged the flag
    | Posting     // found the flag clear and set it, has not yet posted
    | Restoring   // the post failed, the flag is not yet cleared again
    | Recording   // the flag is cleared, the failure is not yet counted

  datatype DrainerPhase =
    | Waiting
    | Clearing                        // about to clear the flag
    | Swapping                        // about to look at the queue
    | Emitting(batch: seq<Receipt>)   // holds a batch taken out of the queue
    | Reporting                       // found the queue empty, about to report drops

  datatype Shared = Shared(
    queue: seq<Receipt>,
    flag: bool,
    messages: nat,
    dropped: nat, firstDropped: nat, lastDropped: nat,
    postFailures: nat,
    producers: seq<ProducerPhase>,
    drainer: DrainerPhase)

  // What has happened so far.
  datatype History = History(
    pushed: seq<Receipt>, emitted: seq<Receipt>,
    refused: seq<Receipt>, unreported: seq<Receipt>, reportedDrops: nat,
    failedSinceClear: nat,   // posts failed since the drainer last cleared the flag
    failed: nat, reportedFailures: nat)

  datatype System = System(s: Shared, h: History)

  datatype Step =
    | Push(p: nat, receipt: Receipt) | Exchange(p: nat) | Post(p: nat, succeeds: bool) | Restore(p: nat) | Record(p: nat)
    | TakeMessage | StartDrain | ClearFlag | Swap | Emit | Report

  predicate At(producers: seq<ProducerPhase>, p: nat, phase: ProducerPhase) {
    p < |producers| && producers[p] == phase
  }

  predicate Enabled(s: Shared, step: Step) {
    match step
    case Push(p, receipt) => At(s.producers, p, Resting) && receipt.sequence > 0
    case Exchange(p) => At(s.producers, p, Pushed)
    case Post(p, _) => At(s.producers, p, Posting)
    case Restore(p) => At(s.producers, p, Restoring)
    case Record(p) => At(s.producers, p, Recording)
    case TakeMessage => s.drainer.Waiting? && s.messages > 0
    case StartDrain => s.drainer.Waiting?
    case ClearFlag => s.drainer.Clearing?
    case Swap => s.drainer.Swapping?
    case Emit => s.drainer.Emitting?
    case Report => s.drainer.Reporting?
  }

  function Move(s: Shared, p: nat, phase: ProducerPhase): Shared
    requires p < |s.producers|
  {
    s.(producers := s.producers[p := phase])
  }

  function Next(x: System, step: Step): System
    requires Enabled(x.s, step)
  {
    var (s, h) := (x.s, x.h);
    match step
    case Push(p, receipt) =>
      var moved := Move(s, p, Pushed);
      if |s.queue| < EVENT_QUEUE_CAPACITY then
        System(moved.(queue := s.queue + [receipt]), h.(pushed := h.pushed + [receipt]))
      else
        System(moved.(dropped := s.dropped + 1,
                      firstDropped := if s.firstDropped == 0 then receipt.sequence else s.firstDropped,
                      lastDropped := receipt.sequence),
               h.(refused := h.refused + [receipt], unreported := h.unreported + [receipt]))
    case Exchange(p) => System(Move(s, p, if s.flag then Resting else Posting).(flag := true), h)
    case Post(p, succeeds) =>
      if succeeds then System(Move(s, p, Resting).(messages := s.messages + 1), h)
      else System(Move(s, p, Restoring), h.(failedSinceClear := h.failedSinceClear + 1, failed := h.failed + 1))
    case Restore(p) => System(Move(s, p, Recording).(flag := false), h)
    case Record(p) => System(Move(s, p, Resting).(postFailures := s.postFailures + 1), h)
    case TakeMessage => System(s.(messages := s.messages - 1, drainer := Clearing), h)
    case StartDrain => System(s.(drainer := Clearing), h)
    case ClearFlag => System(s.(flag := false, drainer := Swapping), h.(failedSinceClear := 0))
    case Swap =>
      if s.queue == [] then System(s.(drainer := Reporting), h)
      else System(s.(queue := [], drainer := Emitting(s.queue)), h)
    case Emit =>
      var batch := s.drainer.batch;
      if batch == [] then System(s.(drainer := Swapping), h)
      else System(s.(drainer := Emitting(batch[1..])), h.(emitted := h.emitted + [batch[0]]))
    case Report =>
      System(s.(dropped := 0, firstDropped := 0, lastDropped := 0, postFailures := 0, drainer := Waiting),
             h.(unreported := [], reportedDrops := h.reportedDrops + s.dropped,
                reportedFailures := h.reportedFailures + s.postFailures))
  }

  function Start(producers: nat): System {
    System(Shared([], false, 0, 0, 0, 0, 0, seq(producers, _ => Resting), Waiting), History([], [], [], [], 0, 0, 0, 0))
  }

  ghost predicate CanRun(x: System, steps: seq<Step>)
    decreases |steps|
  {
    steps == [] || (Enabled(x.s, steps[0]) && CanRun(Next(x, steps[0]), steps[1..]))
  }

  function Run(x: System, steps: seq<Step>): System
    requires CanRun(x, steps)
    decreases |steps|
  {
    if steps == [] then x else Run(Next(x, steps[0]), steps[1..])
  }

  // --- Nothing is lost, repeated or reordered ---

  function InHand(drainer: DrainerPhase): seq<Receipt> {
    if drainer.Emitting? then drainer.batch else []
  }

  // Pushed receipts are emitted, in the drainer's hand or queued, in push order.
  ghost predicate Conserved(x: System) {
    && x.h.pushed == x.h.emitted + InHand(x.s.drainer) + x.s.queue
    && |x.s.queue| <= EVENT_QUEUE_CAPACITY
  }

  // The counters describe the refused receipts that no report has covered yet,
  // which are the last ones refused.
  ghost predicate Drops(refused: seq<Receipt>, unreported: seq<Receipt>, reported: nat,
                        dropped: nat, firstDropped: nat, lastDropped: nat)
  {
    && |refused| == reported + dropped
    && dropped == |unreported|
    && (forall k | 0 <= k < |unreported| :: unreported[k].sequence > 0)
    && firstDropped == (if unreported == [] then 0 else unreported[0].sequence)
    && lastDropped == (if unreported == [] then 0 else unreported[|unreported| - 1].sequence)
    && |unreported| <= |refused| && refused[|refused| - |unreported|..] == unreported
  }

  ghost predicate DropsOk(x: System) {
    Drops(x.h.refused, x.h.unreported, x.h.reportedDrops, x.s.dropped, x.s.firstDropped, x.s.lastDropped)
  }

  // --- No lost wake-up ---

  // A message is there for the drainer, or a producer is about to post one.
  ghost predicate Announced(s: Shared) {
    s.messages > 0 || exists p :: At(s.producers, p, Posting)
  }

  ghost predicate WakeOk(x: System) {
    x.h.failedSinceClear == 0 ==>
      && (x.s.flag ==> Announced(x.s) || x.s.drainer.Clearing?)
      && (x.s.queue != [] ==>
            || Announced(x.s) || (exists p :: At(x.s.producers, p, Pushed))
            || x.s.drainer.Clearing? || x.s.drainer.Swapping? || x.s.drainer.Emitting?)
  }

  ghost predicate Inv(x: System) {
    Conserved(x) && DropsOk(x) && WakeOk(x)
  }

  lemma OthersStay(s: Shared, p: nat, phase: ProducerPhase)
    requires p < |s.producers|
    ensures At(Move(s, p, phase).producers, p, phase)
    ensures forall q, other | q != p :: At(Move(s, p, phase).producers, q, other) <==> At(s.producers, q, other)
  {
  }

  lemma NextKeepsConserved(x: System, step: Step)
    requires Enabled(x.s, step) && Conserved(x)
    ensures Conserved(Next(x, step))
  {
    var (s, h) := (x.s, x.h);
    if step.Push? && |s.queue| < EVENT_QUEUE_CAPACITY {
      assert h.pushed + [step.receipt] == h.emitted + InHand(s.drainer) + (s.queue + [step.receipt]);
    } else if step.Emit? && s.drainer.batch != [] {
      var batch := s.drainer.batch;
      assert h.emitted + batch + s.queue == (h.emitted + [batch[0]]) + batch[1..] + s.queue;
    } else if step.Swap? && s.queue != [] {
      assert h.emitted + [] + s.queue == h.emitted + s.queue + [];
    }
  }

  lemma RefusingKeepsSuffix(refused: seq<Receipt>, unreported: seq<Receipt>, receipt: Receipt)
    requires |unreported| <= |refused| && refused[|refused| - |unreported|..] == unreported
    ensures (refused + [receipt])[|refused| - |unreported|..] == unreported + [receipt]
  {
  }

  lemma NextKeepsDrops(x: System, step: Step)
    requires Enabled(x.s, step) && DropsOk(x)
    ensures DropsOk(Next(x, step))
  {
    match step
    case Push(p, receipt) =>
      if |x.s.queue| >= EVENT_QUEUE_CAPACITY {
        RefusingKeepsSuffix(x.h.refused, x.h.unreported, receipt);
      }
    case _ =>
  }

  lemma NextKeepsWake(x: System, step: Step)
    requires Enabled(x.s, step) && WakeOk(x)
    ensures WakeOk(Next(x, step))
  {
    match step
    case Push(p, _) => OthersStay(x.s, p, Pushed);
    case Exchange(p) => OthersStay(x.s, p, if x.s.flag then Resting else Posting);
    case Post(p, succeeds) => OthersStay(x.s, p, if succeeds then Resting else Restoring);
    case Restore(p) => OthersStay(x.s, p, Recording);
    case Record(p) => OthersStay(x.s, p, Resting);
    case _ =>
  }

  lemma {:induction false} RunKeepsInv(x: System, steps: seq<Step>)
    requires Inv(x) && CanRun(x, steps)
    ensures Inv(Run(x, steps))
    decreases |steps|
  {
    if steps != [] {
      NextKeepsConserved(x, steps[0]);
      NextKeepsDrops(x, steps[0]);
      NextKeepsWake(x, steps[0]);
      RunKeepsInv(Next(x, steps[0]), steps[1..]);
    }
  }

  lemma StartOk(producers: nat)
    ensures Inv(Start(producers))
  {
  }

  // In every run of any number of producers every pushed receipt is emitted, in
  // hand or queued exactly once and in push order, and every refused one is counted.
  lemma NothingLost(producers: nat, steps: seq<Step>)
    requires CanRun(Start(producers), steps)
    ensures Conserved(Run(Start(producers), steps)) && DropsOk(Run(Start(producers), steps))
  {
    StartOk(producers);
    RunKeepsInv(Start(producers), steps);
  }

  // While no post has failed since the drainer last cleared the flag, a nonempty queue
  // with an idle drainer means that a message is outstanding or a producer is between
  // its push and its post.
  lemma NoLostWakeup(producers: nat, steps: seq<Step>)
    requires CanRun(Start(producers), steps)
    ensures var x := Run(Start(producers), steps);
            x.h.failedSinceClear == 0 && x.s.queue != [] && (x.s.drainer.Waiting? || x.s.drainer.Reporting?) ==>
              Announced(x.s) || exists p :: At(x.s.producers, p, Pushed)
  {
    StartOk(producers);
    RunKeepsInv(Start(producers), steps);
  }

  predicate NoPostFails(steps: seq<Step>) {
    forall k | 0 <= k < |steps| :: !(steps[k].Post? && !steps[k].succeeds)
  }

  lemma {:induction false} NoFailureCounted(x: System, steps: seq<Step>)
    requires CanRun(x, steps) && NoPostFails(steps) && x.h.failedSinceClear == 0
    ensures Run(x, steps).h.failedSinceClear == 0
    decreases |steps|
  {
    if steps != [] {
      NoFailureCounted(Next(x, steps[0]), steps[1..]);
    }
  }

  // Whatever failed before: from a drain's clearing of the flag on, no wake-up is
  // lost while posts succeed.
  lemma DrainRestoresWakeup(producers: nat, before: seq<Step>, later: seq<Step>)
    requires CanRun(Start(producers), before) && Enabled(Run(Start(producers), before).s, ClearFlag)
    requires CanRun(Next(Run(Start(producers), before), ClearFlag), later) && NoPostFails(later)
    ensures var x := Run(Next(Run(Start(producers), before), ClearFlag), later);
            x.s.queue != [] && (x.s.drainer.Waiting? || x.s.drainer.Reporting?) ==>
              Announced(x.s) || exists p :: At(x.s.producers, p, Pushed)
  {
    var start := Run(Start(producers), before);
    StartOk(producers);
    RunKeepsInv(Start(producers), before);
    RunKeepsInv(start, [ClearFlag]);
    RunKeepsInv(Next(start, ClearFlag), later);
    NoFailureCounted(Next(start, ClearFlag), later);
  }

  // A drain stops only when everything pushed so far has been emitted, whether
  // or not posts have failed.
  lemma DrainEmptiesQueue(producers: nat, steps: seq<Step>)
    requires CanRun(Start(producers), steps)
    requires var x := Run(Start(producers), steps); Enabled(x.s, Swap) && Next(x, Swap).s.drainer.Reporting?
    ensures var x := Run(Start(producers), steps); x.h.emitted == x.h.pushed
  {
    StartOk(producers);
    RunKeepsInv(Start(producers), steps);
  }

  lemma RunFirst(x: System, step: Step, rest: seq<Step>)
    requires Enabled(x.s, step) && CanRun(Next(x, step), rest)
    ensures CanRun(x, [step] + rest) && Run(x, [step] + rest) == Run(Next(x, step), rest)
  {
    assert ([step] + rest)[1..] == rest;
  }

  // The condition on posts is needed: after one failed post a receipt waits with
  // nobody on the way to fetch it.
  lemma FailedPostStrandsReceipt(receipt: Receipt)
    requires receipt.sequence > 0
    ensures var steps := [Push(0, receipt)] + ([Exchange(0)] + ([Post(0, false)] + ([Restore(0)] + ([Record(0)] + []))));
            && CanRun(Start(1), steps)
            && var x := Run(Start(1), steps);
               && x.s.queue == [receipt] && x.s.drainer.Waiting? && x.s.messages == 0 && x.s.postFailures == 1
               && x.s.producers == [Resting]
  {
    var x1 := Next(Start(1), Push(0, receipt));
    var x2 := Next(x1, Exchange(0));
    var x3 := Next(x2, Post(0, false));
    var x4 := Next(x3, Restore(0));
    RunFirst(x4, Record(0), []);
    RunFirst(x3, Restore(0), [Record(0)] + []);
    RunFirst(x2, Post(0, false), [Restore(0)] + ([Record(0)] + []));
    RunFirst(x1, Exchange(0), [Post(0, false)] + ([Restore(0)] + ([Record(0)] + [])));
    RunFirst(Start(1), Push(0, receipt), [Exchange(0)] + ([Post(0, false)] + ([Restore(0)] + ([Record(0)] + []))));
  }
  // --- Failed posts are counted ---

  // Producers whose post has failed and is not yet counted.
  function Uncounted(producers: seq<ProducerPhase>): nat {
    if producers == [] then 0
    else (if producers[0].Restoring? || producers[0].Recording? then 1 else 0) + Uncounted(producers[1..])
  }

  lemma {:induction false} UncountedAt(producers: seq<ProducerPhase>, p: nat, phase: ProducerPhase)
    requires p < |producers|
    ensures Uncounted(producers[p := phase]) ==
            Uncounted(producers) - (if producers[p].Restoring? || producers[p].Recording? then 1 else 0)
            + (if phase.Restoring? || phase.Recording? then 1 else 0)
    decreases p
  {
    if p > 0 {
      UncountedAt(producers[1..], p - 1, phase);
      assert producers[p := phase][1..] == producers[1..][p - 1 := phase];
    } else {
      assert producers[0 := phase][1..] == producers[1..];
    }
  }

  ghost predicate FailuresOk(x: System) {
    x.h.failed == x.h.reportedFailures + x.s.postFailures + Uncounted(x.s.producers)
  }

  lemma NextKeepsFailures(x: System, step: Step)
    requires Enabled(x.s, step) && FailuresOk(x)
    ensures FailuresOk(Next(x, step))
  {
    match step
    case Push(p, _) => UncountedAt(x.s.producers, p, Pushed);
    case Exchange(p) => UncountedAt(x.s.producers, p, if x.s.flag then Resting else Posting);
    case Post(p, succeeds) => UncountedAt(x.s.producers, p, if succeeds then Resting else Restoring);
    case Restore(p) => UncountedAt(x.s.producers, p, Recording);
    case Record(p) => UncountedAt(x.s.producers, p, Resting);
    case _ =>
  }

  lemma {:induction false} RunKeepsFailures(x: System, steps: seq<Step>)
    requires FailuresOk(x) && CanRun(x, steps)
    ensures FailuresOk(Run(x, steps))
    decreases |steps|
  {
    if steps != [] {
      NextKeepsFailures(x, steps[0]);
      RunKeepsFailures(Next(x, steps[0]), steps[1..]);
    }
  }

  lemma {:induction false} NobodyUncounted(producers: seq<ProducerPhase>)
    requires forall p | 0 <= p < |producers| :: producers[p].Resting?
    ensures Uncounted(producers) == 0
  {
    if producers != [] {
      NobodyUncounted(producers[1..]);
    }
  }

  // Every failed post has been reported, waits to be, or is about to be counted by its
  // producer; none is counted twice.
  lemma FailedPostsCounted(producers: nat, steps: seq<Step>)
    requires CanRun(Start(producers), steps)
    ensures FailuresOk(Run(Start(producers), steps))
  {
    NobodyUncounted(Start(producers).s.producers);
    RunKeepsFailures(Start(producers), steps);
  }

  // A receipt is refused exactly when 4096 wait, and the first and the last refused one
  // since the last report are remembered.
  lemma RefusedExactly(x: System, p: nat, receipt: Receipt)
    requires Conserved(x) && Enabled(x.s, Push(p, receipt))
    ensures var y := Next(x, Push(p, receipt));
            if |x.s.queue| < 4096 then y.s.queue == x.s.queue + [receipt] && y.h.refused == x.h.refused
            else y.s.queue == x.s.queue && y.h.refused == x.h.refused + [receipt] && y.s.dropped == x.s.dropped + 1
  {
  }
  // --- A failed post does not silence the next producer ---

  // Whether or not posts have failed, a set flag means that someone is about to clear it or
  // to wake the drainer.
  ghost predicate FlagOk(s: Shared) {
    s.flag ==> Announced(s) || s.drainer.Clearing? || exists p :: At(s.producers, p, Restoring)
  }

  lemma NextKeepsFlag(x: System, step: Step)
    requires Enabled(x.s, step) && FlagOk(x.s)
    ensures FlagOk(Next(x, step).s)
  {
    match step
    case Push(p, _) => OthersStay(x.s, p, Pushed);
    case Exchange(p) => OthersStay(x.s, p, if x.s.flag then Resting else Posting);
    case Post(p, succeeds) => OthersStay(x.s, p, if succeeds then Resting else Restoring);
    case Restore(p) => OthersStay(x.s, p, Recording);
    case Record(p) => OthersStay(x.s, p, Resting);
    case _ =>
  }

  lemma {:induction false} RunKeepsFlag(x: System, steps: seq<Step>)
    requires FlagOk(x.s) && CanRun(x, steps)
    ensures FlagOk(Run(x, steps).s)
    decreases |steps|
  {
    if steps != [] {
      NextKeepsFlag(x, steps[0]);
      RunKeepsFlag(Next(x, steps[0]), steps[1..]);
    }
  }

  // When everyone rests and no message is left, the next receipt of any producer is posted
  // for, whatever failed before.
  lemma NextProducerPosts(producers: nat, steps: seq<Step>, p: nat, receipt: Receipt)
    requires CanRun(Start(producers), steps) && p < |Run(Start(producers), steps).s.producers| && receipt.sequence > 0
    requires var s := Run(Start(producers), steps).s;
             && s.messages == 0 && s.drainer.Waiting? && forall q | 0 <= q < |s.producers| :: s.producers[q] == Resting
    ensures var x := Run(Start(producers), steps);
            && CanRun(x, [Push(p, receipt)] + ([Exchange(p)] + []))
            && At(Run(x, [Push(p, receipt)] + ([Exchange(p)] + [])).s.producers, p, Posting)
  {
    RunKeepsFlag(Start(producers), steps);
    var x := Run(Start(producers), steps);
    var pushed := Next(x, Push(p, receipt));
    RunFirst(pushed, Exchange(p), []);
    RunFirst(x, Push(p, receipt), [Exchange(p)] + []);
  }
}
