/** From the event source to the coordinator: every batch that a drain delivers is in
    order for a coordinator that has been fed earlier batches only. */
module GlueDelivery {
  import opened Wrappers
  import opened GlueMove
  import opened GlueQuantum
  import opened GlueQuantumExact
  import S = EventSource

  function QuantumOf(d: S.Delivered): QuantumEvent {
    QuantumEvent(match d.kind
                 case MoveStarted => Started
                 case Moved => Location
                 case MoveEnded => Ended
                 case TargetDestroyed => Destroyed,
                 if d.role.LeaderWindow? then LeaderRole else FollowerRole, d.sequence)
  }

  function BatchOf(delivered: seq<S.Delivered>): (events: seq<QuantumEvent>)
    ensures |events| == |delivered| && forall k | 0 <= k < |events| :: events[k] == QuantumOf(delivered[k])
  {
    seq(|delivered|, k requires 0 <= k < |delivered| => QuantumOf(delivered[k]))
  }

  function LastDelivered(delivered: seq<S.Delivered>): UInt64 {
    if delivered == [] then 0 else delivered[|delivered| - 1].sequence
  }

  // Sequences of one drain increase and lie above all that was delivered before.
  lemma DrainAscends(w: S.World, identityOf: S.IdentityOf)
    requires S.WorldOk(w) && w.source.drainInProgress
    ensures var batch := BatchOf(S.PopAll(w.source, identityOf).1);
            && (forall k | 0 <= k < |batch| :: batch[k].sequence > LastDelivered(w.delivered))
            && (forall j, k | 0 <= j < k < |batch| :: batch[j].sequence < batch[k].sequence)
            && LastDelivered(w.delivered) <= LastDelivered(w.delivered + S.PopAll(w.source, identityOf).1)
  {
    var ops := S.PopOps(w.source.queue, identityOf);
    var events := S.PopAll(w.source, identityOf).1;
    S.PopAllIsPops(w, identityOf);
    S.RunKeepsWorld(w, ops);
    var all := S.RunOps(w, ops).delivered;
    assert all == w.delivered + events;
    forall k | 0 <= k < |events| ensures events[k] == all[|w.delivered| + k] && events[k].sequence > 0 {
    }
  }

  lemma {:induction false} FeedStaysBehind(c: Core, events: seq<QuantumEvent>, samples: Samples, execute: Executor,
                                           last: UInt64)
    requires NoneDestroyed(events) && InOrder(events, c.lastSequence) && c.lastSequence <= last
    requires forall k | 0 <= k < |events| :: events[k].sequence <= last
    ensures Feed(c, events, samples, execute).core.lastSequence <= last
    decreases |events|
  {
    if events != [] {
      FeedOneLast(c, events[0], samples, execute);
      FeedStaysBehind(FeedOne(c, events[0], samples, execute).core, events[1..], samples, execute, last);
    }
  }

  lemma {:induction false} KeptInOrder(events: seq<QuantumEvent>, selected: seq<bool>, last: UInt64)
    requires |selected| == |events| && InOrder(events, last)
    ensures InOrder(Keep(events, selected), last)
    decreases |events|
  {
    if events != [] {
      KeptInOrder(events[1..], selected[1..], events[0].sequence);
    }
  }

  lemma {:induction false} KeptComeFromBatch(events: seq<QuantumEvent>, selected: seq<bool>, last: UInt64)
    requires |selected| == |events| && forall k | 0 <= k < |events| :: events[k].sequence <= last
    ensures forall k | 0 <= k < |Keep(events, selected)| :: Keep(events, selected)[k].sequence <= last
    decreases |events|
  {
    if events != [] {
      KeptComeFromBatch(events[1..], selected[1..], last);
    }
  }

  // A coordinator behind the deliveries finds the next batch in order, and is behind
  // the deliveries again once it has been fed the batch, whole or thinned.
  lemma BatchesComeInOrder(w: S.World, identityOf: S.IdentityOf, c: Core, selected: seq<bool>, samples: Samples,
                           execute: Executor)
    requires S.WorldOk(w) && w.source.drainInProgress && c.lastSequence <= LastDelivered(w.delivered)
    requires NoneDestroyed(BatchOf(S.PopAll(w.source, identityOf).1))
    requires |selected| == |S.PopAll(w.source, identityOf).1|
    ensures var events := S.PopAll(w.source, identityOf).1;
            && InOrder(BatchOf(events), c.lastSequence)
            && NoneDestroyed(Keep(BatchOf(events), selected))
            && Feed(c, Keep(BatchOf(events), selected), samples, execute).core.lastSequence <=
               LastDelivered(w.delivered + events)
  {
    var events := S.PopAll(w.source, identityOf).1;
    var batch, last := BatchOf(events), LastDelivered(w.delivered + events);
    DrainAscends(w, identityOf);
    assert events != [] ==> last == batch[|batch| - 1].sequence;
    KeptInOrder(batch, selected, c.lastSequence);
    KeptComeFromBatch(batch, selected, last);
    FeedStaysBehind(c, Keep(batch, selected), samples, execute, last);
  }
  // From the callback to the coordinator: what a delivered event is fed as has the kind,
  // the role and the sequence of the receipt it announces, and the sample of its role.
  lemma FedAsReceived(leader: S.Binding, follower: S.Binding, raw: S.RawReceipt, d: S.Delivered, session: UInt64,
                      samples: Samples)
    requires S.Announces(leader, follower, raw, d) && leader.window != follower.window
    requires leader.role.LeaderWindow? && follower.role.FollowerWindow?
    requires !raw.event.DestroyObject? && !raw.event.OtherCode?
    ensures !QuantumOf(d).kind.Destroyed?
    ensures var fed := ReceiptOf(QuantumOf(d), session, samples);
            && fed.session == session && fed.sequence == raw.sequence
            && fed.role == (if raw.window == leader.window then Role.Leader else Role.Follower)
            && (match raw.event
                case MoveSizeStart => fed.kind == MoveResizeStarted
                case LocationChange => fed.kind == GeometryChanged
                case MoveSizeEnd => fed.kind == MoveResizeEnded
                case _ => false)
            && (fed.kind != MoveResizeStarted ==>
                  fed.visibleRect == Some(if raw.window == leader.window then samples.leader else samples.follower))
  {
  }
}
