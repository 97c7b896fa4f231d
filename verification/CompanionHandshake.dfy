/** Accepting the launch handshake of a companion process: exactly the windows A to D,
    each registered once. */
module CompanionHandshake {
  import opened Wrappers
  import opened CompanionLedger

  const WINDOW_COUNT: nat := 4
  const ALL_WINDOWS: bv32 := 0x0F

  function LogicalBit(id: LogicalId): (bit: bv32)
    requires IsLogicalId(id)
  {
    if id == 1 then 1 else if id == 2 then 2 else if id == 3 then 4 else 8
  }

  // It is a one shifted to the place of the identifier.
  lemma LogicalBitIsShift(id: LogicalId)
    requires IsLogicalId(id)
    ensures LogicalBit(id) == (1 as bv32) << (id - 1)
  {
  }

  datatype WindowFact = WindowFact(logicalId: LogicalId, generation: UInt64, nativeWindow: UInt64,
                                   process: UInt32, uiThread: UInt32, marker: UInt64)

  datatype Handshake = Handshake(process: UInt32, uiThread: UInt32, windowCount: UInt32, windows: seq<WindowFact>)

  function RegistrationOf(fact: WindowFact): Registration {
    Registration(fact.logicalId, fact.generation, fact.nativeWindow, fact.process, fact.uiThread)
  }

  predicate FactOk(fact: WindowFact, h: Handshake, target: UInt32) {
    && IsLogicalId(fact.logicalId) && fact.generation != 0 && fact.nativeWindow != 0
    && fact.process == target && fact.uiThread == h.uiThread
    && fact.marker == MarkerValue(fact.logicalId, fact.generation)
  }

  predicate HeaderOk(h: Handshake, target: UInt32) {
    h.process == target && h.uiThread != 0 && h.windowCount == WINDOW_COUNT
  }

  // Each of A to D is registered, no native window twice, every fact consistent.
  ghost predicate WellFormed(h: Handshake, target: UInt32) {
    && HeaderOk(h, target)
    && (forall k | 0 <= k < |h.windows| :: FactOk(h.windows[k], h, target))
    && DistinctIds(h.windows)
    && (forall id | IsLogicalId(id) :: Registered(h.windows, id))
    && DistinctNatives(h.windows)
  }

  ghost predicate Registered(windows: seq<WindowFact>, id: LogicalId) {
    exists k | 0 <= k < |windows| :: windows[k].logicalId == id
  }

  // The mask has exactly the bits of the identifiers seen so far.
  ghost predicate MaskMatches(mask: bv32, windows: seq<WindowFact>) {
    && mask & !ALL_WINDOWS == 0
    && forall id | IsLogicalId(id) :: mask & LogicalBit(id) != 0 <==> Registered(windows, id)
  }

  lemma MaskGrows(mask: bv32, windows: seq<WindowFact>, fact: WindowFact)
    requires MaskMatches(mask, windows) && IsLogicalId(fact.logicalId)
    ensures MaskMatches(mask | LogicalBit(fact.logicalId), windows + [fact])
  {
    var grown, more := mask | LogicalBit(fact.logicalId), windows + [fact];
    forall id | IsLogicalId(id) ensures grown & LogicalBit(id) != 0 <==> Registered(more, id) {
      if id == fact.logicalId {
        assert more[|windows|].logicalId == id;
      } else if Registered(windows, id) {
        var k :| 0 <= k < |windows| && windows[k].logicalId == id;
        assert more[k].logicalId == id;
      }
    }
  }

  lemma FullMask(mask: bv32, windows: seq<WindowFact>)
    requires MaskMatches(mask, windows)
    ensures mask == ALL_WINDOWS <==> forall id | IsLogicalId(id) :: Registered(windows, id)
  {
    assert Registered(windows, 1) <==> mask & 1 != 0 by { assert LogicalBit(1) == 1; }
    assert Registered(windows, 2) <==> mask & 2 != 0 by { assert LogicalBit(2) == 2; }
    assert Registered(windows, 3) <==> mask & 4 != 0 by { assert LogicalBit(3) == 4; }
    assert Registered(windows, 4) <==> mask & 8 != 0 by { assert LogicalBit(4) == 8; }
  }

  ghost predicate DistinctIds(windows: seq<WindowFact>) {
    forall i, j | 0 <= i < j < |windows| :: windows[i].logicalId != windows[j].logicalId
  }

  ghost predicate DistinctNatives(windows: seq<WindowFact>) {
    forall i, j | 0 <= i < j < |windows| :: windows[i].nativeWindow != windows[j].nativeWindow
  }

  // Every fact consistent and every identifier new, collecting the mask.
  method CollectMask(h: Handshake, target: UInt32) returns (mask: Option<bv32>)
    ensures mask.Some? <==> (forall k | 0 <= k < |h.windows| :: FactOk(h.windows[k], h, target)) && DistinctIds(h.windows)
    ensures mask.Some? ==> MaskMatches(mask.value, h.windows)
  {
    var seen: bv32 := 0;
    for k := 0 to |h.windows|
      invariant MaskMatches(seen, h.windows[..k])
      invariant forall i | 0 <= i < k :: FactOk(h.windows[i], h, target)
      invariant DistinctIds(h.windows[..k])
    {
      var fact := h.windows[k];
      if !FactOk(fact, h, target) {
        return None;
      }
      assert h.windows[..k + 1] == h.windows[..k] + [fact];
      if seen & LogicalBit(fact.logicalId) != 0 {
        var i :| 0 <= i < k && h.windows[..k][i].logicalId == fact.logicalId;
        assert h.windows[i].logicalId == h.windows[k].logicalId;
        return None;
      }
      MaskGrows(seen, h.windows[..k], fact);
      NewIdStaysDistinct(h.windows[..k], fact);
      seen := seen | LogicalBit(fact.logicalId);
    }
    assert h.windows[..|h.windows|] == h.windows;
    return Some(seen);
  }

  lemma NewIdStaysDistinct(windows: seq<WindowFact>, fact: WindowFact)
    requires DistinctIds(windows) && !Registered(windows, fact.logicalId)
    ensures DistinctIds(windows + [fact])
  {
  }

  method CheckNatives(windows: seq<WindowFact>) returns (distinct: bool)
    ensures distinct <==> DistinctNatives(windows)
  {
    for first := 0 to |windows|
      invariant forall i, j | 0 <= i < first && i < j < |windows| :: windows[i].nativeWindow != windows[j].nativeWindow
    {
      for second := first + 1 to |windows|
        invariant forall j | first < j < second :: windows[first].nativeWindow != windows[j].nativeWindow
      {
        if windows[first].nativeWindow == windows[second].nativeWindow {
          return false;
        }
      }
    }
    return true;
  }

  method CheckFacts(h: Handshake, target: UInt32) returns (ok: bool)
    ensures ok <==> WellFormed(h, target)
  {
    if !HeaderOk(h, target) {
      return false;
    }
    var mask := CollectMask(h, target);
    if mask.None? {
      return false;
    }
    FullMask(mask.value, h.windows);
    if mask.value != ALL_WINDOWS {
      return false;
    }
    ok := CheckNatives(h.windows);
  }

  function IdsOf(windows: seq<WindowFact>): set<LogicalId> {
    set k | 0 <= k < |windows| :: windows[k].logicalId
  }

  function NativesOf(windows: seq<WindowFact>): set<UInt64> {
    set k | 0 <= k < |windows| :: windows[k].nativeWindow
  }

  function EntryOf(l: Ledger, fact: WindowFact): Entry {
    Entry(l.session, fact.logicalId, fact.generation, fact.nativeWindow, fact.process, fact.uiThread)
  }

  // The ledger once these facts, and no others, have been registered.
  ghost predicate Holds(l: Ledger, windows: seq<WindowFact>) {
    && l.sessionActive && l.controller != 0
    && l.active.Keys == l.highestGeneration.Keys == IdsOf(windows)
    && l.logicalByNative.Keys == NativesOf(windows)
    && forall k | 0 <= k < |windows| ::
         windows[k].logicalId in l.active && l.active[windows[k].logicalId] == EntryOf(l, windows[k])
  }

  // After an accepted handshake exactly the announced windows resolve, each to what was
  // announced of it.
  lemma AcceptedResolves(l: Ledger, windows: seq<WindowFact>, t: Token)
    requires Holds(l, windows) && DistinctIds(windows)
    ensures forall k | 0 <= k < |windows| ::
              Resolve(l, Token(l.controller, l.session, windows[k].logicalId, windows[k].generation)) ==
              Some(Entry(l.session, windows[k].logicalId, windows[k].generation, windows[k].nativeWindow,
                         windows[k].process, windows[k].uiThread))
    ensures Resolve(l, t).Some? ==>
              exists k | 0 <= k < |windows| :: windows[k].logicalId == t.logicalId && windows[k].generation == t.generation
  {
    if Resolve(l, t).Some? {
      assert t.logicalId in IdsOf(windows);
    }
  }

  lemma SetsGrow(windows: seq<WindowFact>, fact: WindowFact)
    ensures IdsOf(windows + [fact]) == IdsOf(windows) + {fact.logicalId}
    ensures NativesOf(windows + [fact]) == NativesOf(windows) + {fact.nativeWindow}
  {
    var more := windows + [fact];
    assert forall k | 0 <= k < |windows| :: more[k] == windows[k];
    assert more[|windows|] == fact;
  }

  lemma NextIsNew(h: Handshake, target: UInt32, k: nat)
    requires WellFormed(h, target) && k < |h.windows|
    ensures h.windows[k].logicalId !in IdsOf(h.windows[..k]) && h.windows[k].nativeWindow !in NativesOf(h.windows[..k])
    ensures h.windows[..k + 1] == h.windows[..k] + [h.windows[k]]
  {
  }

  lemma RegistersNext(l: Ledger, windows: seq<WindowFact>, fact: WindowFact)
    requires Holds(l, windows) && fact.logicalId !in IdsOf(windows) && fact.nativeWindow !in NativesOf(windows)
    requires IsLogicalId(fact.logicalId) && fact.generation != 0 && fact.nativeWindow != 0
    requires fact.process != 0 && fact.uiThread != 0
    ensures IssueStatusOf(l, RegistrationOf(fact)).Issued? && Holds(Issue(l, RegistrationOf(fact)), windows + [fact])
  {
    SetsGrow(windows, fact);
    var issued, more := Issue(l, RegistrationOf(fact)), windows + [fact];
    forall k | 0 <= k < |more|
      ensures more[k].logicalId in issued.active && issued.active[more[k].logicalId] == EntryOf(issued, more[k])
    {
      if k < |windows| {
        assert more[k] == windows[k] && windows[k].logicalId in IdsOf(windows);
      }
    }
  }

  // `nativeOk` stands for the checks on the live window: class, thread, shape, mark.
  // On a new ledger a well-formed handshake is accepted, and its registrations are
  // the ledger; the source's branch for a registration that fails never decides.
  method AcceptHandshake(ledger: TokenLedger, h: Handshake, target: UInt32, nativeOk: WindowFact -> bool)
    returns (accepted: bool)
    requires ledger.Value() == Opened(ledger.session, ledger.controller) && target != 0
    modifies ledger
    ensures LedgerOk(ledger.Value())
    ensures accepted <==> old(ledger.sessionActive) && WellFormed(h, target) &&
                          forall k | 0 <= k < |h.windows| :: nativeOk(h.windows[k])
    ensures accepted ==> Holds(ledger.Value(), h.windows)
    ensures !accepted ==> ledger.active == map[]
  {
    var ok := CheckFacts(h, target);
    if !ok {
      return false;
    }
    for k := 0 to |h.windows|
      invariant forall i | 0 <= i < k :: nativeOk(h.windows[i])
    {
      if !nativeOk(h.windows[k]) {
        return false;
      }
    }
    for k := 0 to |h.windows|
      invariant LedgerOk(ledger.Value()) && ledger.sessionActive == old(ledger.sessionActive)
      invariant ledger.sessionActive ==> Holds(ledger.Value(), h.windows[..k])
      invariant k > 0 ==> ledger.sessionActive
    {
      if ledger.sessionActive {
        NextIsNew(h, target, k);
        assert FactOk(h.windows[k], h, target);
        RegistersNext(ledger.Value(), h.windows[..k], h.windows[k]);
      }
      var status, token := ledger.IssueToken(RegistrationOf(h.windows[k]));
      if !status.Issued? {
        ledger.RetireEverything();
        return false;
      }
    }
    assert Registered(h.windows, WINDOW_A);
    assert h.windows[..|h.windows|] == h.windows;
    return true;
  }

  // --- What a well-formed handshake is ---

  lemma {:induction false} IdsCount(windows: seq<WindowFact>)
    requires DistinctIds(windows)
    ensures |IdsOf(windows)| == |windows|
    decreases |windows|
  {
    if windows != [] {
      var n := |windows| - 1;
      IdsCount(windows[..n]);
      SetsGrow(windows[..n], windows[n]);
      assert windows == windows[..n] + [windows[n]];
    }
  }

  lemma AllIds(ids: set<LogicalId>)
    requires forall id | id in ids :: IsLogicalId(id)
    ensures |ids| <= 4 && (|ids| == 4 <==> ids == {1, 2, 3, 4})
  {
    var all: set<LogicalId> := {1, 2, 3, 4};
    assert |all| == 4;
    assert ids <= all;
    var missing := all - ids;
    assert |missing| == |all| - |ids| by {
      assert ids + missing == all && ids !! missing;
    }
  }

  lemma FactSoundExactly(fact: WindowFact, h: Handshake, target: UInt32)
    ensures FactOk(fact, h, target) <==> FactSound(fact, target, h.uiThread)
  {
  }

  // Four different windows A to D are all of them.
  lemma FourAreAll(windows: seq<WindowFact>)
    requires DistinctIds(windows) && forall k | 0 <= k < |windows| :: IsLogicalId(windows[k].logicalId)
    ensures |windows| == 4 <==> forall id | IsLogicalId(id) :: Registered(windows, id)
  {
    var ids := IdsOf(windows);
    IdsCount(windows);
    AllIds(ids);
    assert forall id :: Registered(windows, id) <==> id in ids;
    assert ids == {1, 2, 3, 4} <==> forall id | IsLogicalId(id) :: id in ids;
  }

  // It has exactly four facts, told one by one: different windows A to D with different
  // native windows, nonzero generations, the sender's process and thread, and the mark of
  // the generation and the identifier.
  lemma WellFormedExactly(h: Handshake, target: UInt32)
    ensures WellFormed(h, target) <==>
            && h.process == target && h.uiThread != 0 && h.windowCount == 4 && |h.windows| == 4
            && (forall k | 0 <= k < |h.windows| :: FactSound(h.windows[k], target, h.uiThread))
            && DistinctIds(h.windows) && DistinctNatives(h.windows)
  {
    forall k | 0 <= k < |h.windows|
      ensures FactOk(h.windows[k], h, target) <==> FactSound(h.windows[k], target, h.uiThread)
    {
      FactSoundExactly(h.windows[k], h, target);
    }
    if DistinctIds(h.windows) && forall k | 0 <= k < |h.windows| :: IsLogicalId(h.windows[k].logicalId) {
      FourAreAll(h.windows);
    }
  }

  predicate FactSound(fact: WindowFact, process: UInt32, uiThread: UInt32) {
    && 1 <= fact.logicalId <= 4 && 0 !in {fact.generation, fact.nativeWindow}
    && fact.process == process && fact.uiThread == uiThread
    && fact.marker == if fact.generation < 0x2000_0000_0000_0000 then 8 * fact.generation + fact.logicalId else 0
  }

  // --- The target's side ---

  const INITIAL_GENERATION: UInt64 := 1

  // What the target announces: its windows in order, all on one thread.
  function MakeHandshake(process: UInt32, uiThread: UInt32, natives: seq<UInt64>): (h: Handshake)
    requires |natives| == WINDOW_COUNT
    ensures |h.windows| == WINDOW_COUNT
  {
    Handshake(process, uiThread, WINDOW_COUNT,
              seq(WINDOW_COUNT, k requires 0 <= k < WINDOW_COUNT =>
                WindowFact(k + 1, INITIAL_GENERATION, natives[k], process, uiThread,
                           MarkerValue(k + 1, INITIAL_GENERATION))))
  }

  // Its handshake is well formed exactly when it has a window thread and four
  // different native windows.
  lemma TargetHandshakeWellFormed(process: UInt32, uiThread: UInt32, natives: seq<UInt64>)
    requires |natives| == WINDOW_COUNT
    ensures WellFormed(MakeHandshake(process, uiThread, natives), process) <==>
            && uiThread != 0 && (forall k | 0 <= k < WINDOW_COUNT :: natives[k] != 0)
            && (forall i, j | 0 <= i < j < WINDOW_COUNT :: natives[i] != natives[j])
    ensures forall k | 0 <= k < 4 ::
              MakeHandshake(process, uiThread, natives).windows[k] ==
              WindowFact(k + 1, 1, natives[k], process, uiThread, 8 + k + 1)
  {
    var h := MakeHandshake(process, uiThread, natives);
    assert forall k | 0 <= k < WINDOW_COUNT :: h.windows[k].nativeWindow == natives[k];
    forall id | IsLogicalId(id) ensures Registered(h.windows, id) {
      assert h.windows[id - 1].logicalId == id;
    }
  }
}
