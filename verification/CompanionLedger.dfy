/** The token ledger of a companion session: which capabilities exist, and why a
    retired one never comes back. */
module CompanionLedger {
  import opened Wrappers

  type UInt32 = x: int | 0 <= x <= 0xFFFF_FFFF

  datatype SessionMarker = SessionMarker(high: UInt64, low: UInt64) {
    predicate Valid() {
      high != 0 || low != 0
    }
  }

  // A to D are numbered one to four; anything else may arrive over the wire.
  type LogicalId = UInt32

  const WINDOW_A: LogicalId := 1
  const WINDOW_D: LogicalId := 4

  predicate IsLogicalId(value: UInt32) {
    WINDOW_A <= value <= WINDOW_D
  }

  datatype Entry = Entry(session: SessionMarker, logicalId: LogicalId, generation: UInt64, nativeKey: UInt64,
                         process: UInt32, thread: UInt32)

  datatype Token = Token(controller: UInt64, session: SessionMarker, logicalId: LogicalId, generation: UInt64)

  datatype IssueStatus =
    | Issued | SessionRetired | AuthorityExhausted | InvalidIdentity | DuplicateLogicalId | DuplicateNativeKey
    | NonMonotonicGeneration

  datatype Ledger = Ledger(
    controller: UInt64, session: SessionMarker, sessionActive: bool,
    active: map<LogicalId, Entry>,
    logicalByNative: map<UInt64, LogicalId>,
    highestGeneration: map<LogicalId, UInt64>)

  function Opened(session: SessionMarker, controller: UInt64): Ledger {
    Ledger(controller, session, session.Valid() && controller != 0, map[], map[], map[])
  }

  datatype Registration = Registration(logicalId: LogicalId, generation: UInt64, nativeKey: UInt64,
                                       process: UInt32, thread: UInt32)

  function IssueStatusOf(l: Ledger, r: Registration): IssueStatus {
    if !l.sessionActive then SessionRetired
    else if l.controller == 0 then AuthorityExhausted
    else if !IsLogicalId(r.logicalId) || r.generation == 0 || r.nativeKey == 0 || r.process == 0 || r.thread == 0 then
      InvalidIdentity
    else if r.logicalId in l.active then DuplicateLogicalId
    else if r.nativeKey in l.logicalByNative then DuplicateNativeKey
    else if r.logicalId in l.highestGeneration && r.generation <= l.highestGeneration[r.logicalId] then
      NonMonotonicGeneration
    else Issued
  }

  function TokenFor(l: Ledger, r: Registration): Token {
    Token(l.controller, l.session, r.logicalId, r.generation)
  }

  function Issue(l: Ledger, r: Registration): Ledger {
    if !IssueStatusOf(l, r).Issued? then l
    else l.(active := l.active[r.logicalId :=
                                 Entry(l.session, r.logicalId, r.generation, r.nativeKey, r.process, r.thread)],
            logicalByNative := l.logicalByNative[r.nativeKey := r.logicalId],
            highestGeneration := l.highestGeneration[r.logicalId := r.generation])
  }

  function Retire(l: Ledger, id: LogicalId): Ledger {
    if id !in l.active then l
    else l.(active := l.active - {id}, logicalByNative := l.logicalByNative - {l.active[id].nativeKey})
  }

  function RetireAll(l: Ledger): Ledger {
    l.(active := map[], logicalByNative := map[], sessionActive := false)
  }

  function Resolve(l: Ledger, t: Token): Option<Entry> {
    if !l.sessionActive || t.controller != l.controller || t.session != l.session then None
    else if t.logicalId !in l.active || l.active[t.logicalId].generation != t.generation then None
    else Some(l.active[t.logicalId])
  }

  // --- What every operation keeps ---

  // The active and the native-key maps are inverse to each other, and no active
  // entry is older than the highest generation its identifier has had.
  ghost predicate LedgerOk(l: Ledger) {
    && (forall id | id in l.active ::
          && IsLogicalId(id) && l.active[id].logicalId == id && l.active[id].session == l.session
          && l.active[id].nativeKey in l.logicalByNative && l.logicalByNative[l.active[id].nativeKey] == id
          && id in l.highestGeneration && l.highestGeneration[id] == l.active[id].generation)
    && (forall key | key in l.logicalByNative ::
          l.logicalByNative[key] in l.active && l.active[l.logicalByNative[key]].nativeKey == key)
    && (!l.sessionActive ==> l.active == map[])
  }

  datatype Operation = IssueOp(registration: Registration) | RetireOp(id: LogicalId) | RetireAllOp

  function Apply(l: Ledger, op: Operation): Ledger {
    match op
    case IssueOp(r) => Issue(l, r)
    case RetireOp(id) => Retire(l, id)
    case RetireAllOp => RetireAll(l)
  }

  function IssuedBy(l: Ledger, op: Operation): seq<Token> {
    if op.IssueOp? && IssueStatusOf(l, op.registration).Issued? then [TokenFor(l, op.registration)] else []
  }

  function Run(l: Ledger, ops: seq<Operation>): Ledger
    decreases |ops|
  {
    if ops == [] then l else Run(Apply(l, ops[0]), ops[1..])
  }

  // Every token handed out while the operations run.
  function Tokens(l: Ledger, ops: seq<Operation>): seq<Token>
    decreases |ops|
  {
    if ops == [] then [] else IssuedBy(l, ops[0]) + Tokens(Apply(l, ops[0]), ops[1..])
  }

  lemma ApplyKeepsOk(l: Ledger, op: Operation)
    requires LedgerOk(l)
    ensures LedgerOk(Apply(l, op))
  {
  }

  lemma {:induction false} RunKeepsOk(l: Ledger, ops: seq<Operation>)
    requires LedgerOk(l)
    ensures LedgerOk(Run(l, ops))
    decreases |ops|
  {
    if ops != [] {
      ApplyKeepsOk(l, ops[0]);
      RunKeepsOk(Apply(l, ops[0]), ops[1..]);
    }
  }

  // The identifier has had this generation or a later one.
  predicate Reached(l: Ledger, t: Token) {
    t.logicalId in l.highestGeneration && t.generation <= l.highestGeneration[t.logicalId]
  }

  // A token of a generation that was reached and that does not resolve now
  // does not resolve after any further operations.
  lemma {:induction false} StaleForever(l: Ledger, ops: seq<Operation>, t: Token)
    requires LedgerOk(l) && Reached(l, t) && Resolve(l, t).None?
    ensures Resolve(Run(l, ops), t).None?
    decreases |ops|
  {
    if ops != [] {
      ApplyKeepsOk(l, ops[0]);
      StaleForever(Apply(l, ops[0]), ops[1..], t);
    }
  }

  lemma {:induction false} ReachedForever(l: Ledger, ops: seq<Operation>, t: Token)
    requires LedgerOk(l) && Reached(l, t)
    ensures Reached(Run(l, ops), t)
    decreases |ops|
  {
    if ops != [] {
      ApplyKeepsOk(l, ops[0]);
      ReachedForever(Apply(l, ops[0]), ops[1..], t);
    }
  }

  lemma {:induction false} TokensReached(l: Ledger, ops: seq<Operation>, k: nat)
    requires LedgerOk(l) && k < |Tokens(l, ops)|
    ensures Reached(Run(l, ops), Tokens(l, ops)[k])
    decreases |ops|
  {
    ApplyKeepsOk(l, ops[0]);
    var next, first := Apply(l, ops[0]), IssuedBy(l, ops[0]);
    if k < |first| {
      ReachedForever(next, ops[1..], first[k]);
    } else {
      TokensReached(next, ops[1..], k - |first|);
    }
  }

  lemma {:induction false} RunJoins(l: Ledger, before: seq<Operation>, after: seq<Operation>)
    ensures Run(l, before + after) == Run(Run(l, before), after)
    decreases |before|
  {
    if before == [] {
      assert before + after == after;
    } else {
      RunJoins(Apply(l, before[0]), before[1..], after);
      assert (before + after)[0] == before[0] && (before + after)[1..] == before[1..] + after;
    }
  }

  // An issued token that has stopped resolving never resolves again.
  lemma RetiredForever(session: SessionMarker, controller: UInt64, before: seq<Operation>, after: seq<Operation>, k: nat)
    requires k < |Tokens(Opened(session, controller), before)|
    requires var t := Tokens(Opened(session, controller), before)[k];
             Resolve(Run(Opened(session, controller), before), t).None?
    ensures var t := Tokens(Opened(session, controller), before)[k];
            Resolve(Run(Opened(session, controller), before + after), t).None?
  {
    var l := Opened(session, controller);
    RunKeepsOk(l, before);
    TokensReached(l, before, k);
    StaleForever(Run(l, before), after, Tokens(l, before)[k]);
    RunJoins(l, before, after);
  }

  // A token resolves to its own registration as soon as it is issued.
  lemma IssuedResolves(l: Ledger, r: Registration)
    requires IssueStatusOf(l, r).Issued?
    ensures Resolve(Issue(l, r), TokenFor(l, r)) ==
            Some(Entry(l.session, r.logicalId, r.generation, r.nativeKey, r.process, r.thread))
  {
  }

  lemma NextTokenNew(l: Ledger, op: Operation, t: Token)
    requires LedgerOk(l) && Reached(l, t)
    ensures LedgerOk(Apply(l, op)) && Reached(Apply(l, op), t) && t !in IssuedBy(l, op)
  {
    ApplyKeepsOk(l, op);
  }

  lemma {:induction false} LaterTokensNew(l: Ledger, ops: seq<Operation>, t: Token, k: nat)
    requires LedgerOk(l) && Reached(l, t) && k < |Tokens(l, ops)|
    ensures Tokens(l, ops)[k] != t
    decreases |ops|
  {
    var next, first := Apply(l, ops[0]), IssuedBy(l, ops[0]);
    NextTokenNew(l, ops[0], t);
    if k >= |first| {
      LaterTokensNew(next, ops[1..], t, k - |first|);
    }
  }

  // No token is issued twice.
  lemma {:induction false} TokensDistinct(l: Ledger, ops: seq<Operation>, j: nat, k: nat)
    requires LedgerOk(l) && j < k < |Tokens(l, ops)|
    ensures Tokens(l, ops)[j] != Tokens(l, ops)[k]
    decreases |ops|
  {
    ApplyKeepsOk(l, ops[0]);
    var next, first := Apply(l, ops[0]), IssuedBy(l, ops[0]);
    if j < |first| {
      LaterTokensNew(next, ops[1..], first[j], k - |first|);
    } else {
      TokensDistinct(next, ops[1..], j - |first|, k - |first|);
    }
  }

  // --- How long a token resolves, and what can be issued ---

  // Retiring one window takes away its tokens and leaves all others alone.
  lemma RetireOnlyOne(l: Ledger, id: LogicalId, t: Token)
    requires LedgerOk(l)
    ensures Resolve(Retire(l, id), t) == if t.logicalId == id then None else Resolve(l, t)
  {
  }

  // Issuing adds one token and touches no other.
  lemma IssueOnlyOne(l: Ledger, r: Registration, t: Token)
    requires LedgerOk(l)
    ensures Resolve(Issue(l, r), t) ==
            if IssueStatusOf(l, r).Issued? && t == TokenFor(l, r)
            then Some(Entry(l.session, r.logicalId, r.generation, r.nativeKey, r.process, r.thread))
            else Resolve(l, t)
  {
  }

  predicate Ends(op: Operation, id: LogicalId) {
    op.RetireAllOp? || op == RetireOp(id)
  }

  ghost predicate EndedBy(ops: seq<Operation>, id: LogicalId) {
    exists k | 0 <= k < |ops| :: Ends(ops[k], id)
  }

  lemma ApplyKeepsToken(l: Ledger, op: Operation, t: Token)
    requires LedgerOk(l) && Resolve(l, t).Some?
    ensures Resolve(Apply(l, op), t) == if Ends(op, t.logicalId) then None else Resolve(l, t)
  {
    match op
    case IssueOp(r) => IssueOnlyOne(l, r, t);
    case RetireOp(id) => RetireOnlyOne(l, id, t);
    case RetireAllOp =>
  }

  // A token that resolves keeps resolving to the same entry until its own window is
  // retired or everything is, and then never again.
  lemma {:induction false} ResolvesUntilRetired(l: Ledger, ops: seq<Operation>, t: Token)
    requires LedgerOk(l) && Resolve(l, t).Some?
    ensures Resolve(Run(l, ops), t) == if EndedBy(ops, t.logicalId) then None else Resolve(l, t)
    decreases |ops|
  {
    if ops != [] {
      ApplyKeepsOk(l, ops[0]);
      ApplyKeepsToken(l, ops[0], t);
      if Ends(ops[0], t.logicalId) {
        StaleForever(Apply(l, ops[0]), ops[1..], t);
      } else {
        ResolvesUntilRetired(Apply(l, ops[0]), ops[1..], t);
        assert EndedBy(ops, t.logicalId) <==> EndedBy(ops[1..], t.logicalId) by {
          assert forall k | 1 <= k < |ops| :: ops[k] == ops[1..][k - 1];
        }
      }
    }
  }

  // Nothing resolves but what was issued.
  lemma {:induction false} OnlyIssuedResolve(l: Ledger, ops: seq<Operation>, t: Token)
    requires LedgerOk(l) && Resolve(l, t).None? && Resolve(Run(l, ops), t).Some?
    ensures t in Tokens(l, ops)
    decreases |ops|
  {
    ApplyKeepsOk(l, ops[0]);
    if Resolve(Apply(l, ops[0]), t).None? {
      OnlyIssuedResolve(Apply(l, ops[0]), ops[1..], t);
    } else {
      match ops[0]
      case IssueOp(r) => IssueOnlyOne(l, r, t);
      case RetireOp(id) => RetireOnlyOne(l, id, t);
      case RetireAllOp =>
    }
  }

  // The highest generation of an identifier is that of a token issued for it.
  lemma {:induction false} HighestIsIssued(l: Ledger, ops: seq<Operation>, id: LogicalId)
    requires LedgerOk(l) && id !in l.highestGeneration && id in Run(l, ops).highestGeneration
    ensures exists t :: t in Tokens(l, ops) && t.logicalId == id && t.generation == Run(l, ops).highestGeneration[id]
    decreases |ops|
  {
    var next := Apply(l, ops[0]);
    ApplyKeepsOk(l, ops[0]);
    if id in next.highestGeneration {
      HighestStaysOrIsIssued(next, ops[1..], id);
      assert TokenFor(l, ops[0].registration) in Tokens(l, ops);
    } else {
      HighestIsIssued(next, ops[1..], id);
    }
  }

  lemma {:induction false} HighestStaysOrIsIssued(l: Ledger, ops: seq<Operation>, id: LogicalId)
    requires LedgerOk(l) && id in l.highestGeneration
    ensures var h := Run(l, ops).highestGeneration;
            && id in h
            && (h[id] == l.highestGeneration[id] ||
                exists t :: t in Tokens(l, ops) && t.logicalId == id && t.generation == h[id])
    decreases |ops|
  {
    if ops != [] {
      ApplyKeepsOk(l, ops[0]);
      var next := Apply(l, ops[0]);
      HighestStaysOrIsIssued(next, ops[1..], id);
      if next.highestGeneration[id] != l.highestGeneration[id] {
        assert TokenFor(l, ops[0].registration) in Tokens(l, ops);
      }
    }
  }

  lemma {:induction false} OpenUntilRetired(l: Ledger, ops: seq<Operation>)
    ensures var e := Run(l, ops);
            e.session == l.session && e.controller == l.controller &&
            (e.sessionActive <==> l.sessionActive && RetireAllOp !in ops)
    decreases |ops|
  {
    if ops != [] {
      OpenUntilRetired(Apply(l, ops[0]), ops[1..]);
    }
  }

  // The identifier has a token that resolves.
  ghost predicate Taken(l: Ledger, id: LogicalId) {
    exists t :: Resolve(l, t).Some? && t.logicalId == id
  }

  // A token that resolves names the native window.
  ghost predicate Held(l: Ledger, nativeKey: UInt64) {
    exists t :: Resolve(l, t).Some? && Resolve(l, t).value.nativeKey == nativeKey
  }

  // A token of this or a later generation has been issued for the identifier.
  ghost predicate Outdated(tokens: seq<Token>, r: Registration) {
    exists t :: t in tokens && t.logicalId == r.logicalId && r.generation <= t.generation
  }

  lemma TakenAndHeld(l: Ledger, id: LogicalId, nativeKey: UInt64)
    requires LedgerOk(l) && l.sessionActive
    ensures Taken(l, id) <==> id in l.active
    ensures Held(l, nativeKey) <==> nativeKey in l.logicalByNative
  {
    if id in l.active {
      assert Resolve(l, Token(l.controller, l.session, id, l.active[id].generation)).Some?;
    }
    if nativeKey in l.logicalByNative {
      var owner := l.logicalByNative[nativeKey];
      assert Resolve(l, Token(l.controller, l.session, owner, l.active[owner].generation)).Some?;
    }
  }

  lemma {:induction false} OutdatedExactly(l: Ledger, ops: seq<Operation>, r: Registration)
    requires LedgerOk(l) && l.highestGeneration == map[]
    ensures var h := Run(l, ops).highestGeneration;
            Outdated(Tokens(l, ops), r) <==> r.logicalId in h && r.generation <= h[r.logicalId]
  {
    if t :| t in Tokens(l, ops) && t.logicalId == r.logicalId && r.generation <= t.generation {
      var k :| 0 <= k < |Tokens(l, ops)| && Tokens(l, ops)[k] == t;
      TokensReached(l, ops, k);
    }
    if r.logicalId in Run(l, ops).highestGeneration {
      HighestIsIssued(l, ops, r.logicalId);
    }
  }

  // After any operations, what becomes of a registration, told by what was issued
  // and what still resolves.
  lemma IssueStatusExactly(session: SessionMarker, controller: UInt64, ops: seq<Operation>, r: Registration)
    ensures var start := Opened(session, controller);
            var l, tokens := Run(start, ops), Tokens(start, ops);
            IssueStatusOf(l, r) ==
            if (session.high == 0 && session.low == 0) || controller == 0 || RetireAllOp in ops then SessionRetired
            else if !(1 <= r.logicalId <= 4) || 0 in {r.generation, r.nativeKey} || 0 in {r.process, r.thread} then
              InvalidIdentity
            else if Taken(l, r.logicalId) then DuplicateLogicalId
            else if Held(l, r.nativeKey) then DuplicateNativeKey
            else if Outdated(tokens, r) then NonMonotonicGeneration
            else Issued
  {
    var start := Opened(session, controller);
    RunKeepsOk(start, ops);
    OpenUntilRetired(start, ops);
    OutdatedExactly(start, ops, r);
    if Run(start, ops).sessionActive {
      TakenAndHeld(Run(start, ops), r.logicalId, r.nativeKey);
    }
  }

  // --- Batches ---

  datatype BatchValidation = Succeeded | Empty | Duplicate | Unknown

  ghost predicate HasDuplicate(tokens: seq<Token>) {
    exists i, j | 0 <= i < j < |tokens| :: tokens[i] == tokens[j]
  }

  ghost predicate AllResolve(l: Ledger, tokens: seq<Token>) {
    forall k | 0 <= k < |tokens| :: Resolve(l, tokens[k]).Some?
  }

  // Windows of a valid batch are pairwise different native windows.
  lemma BatchNamesDistinctWindows(l: Ledger, tokens: seq<Token>, i: nat, j: nat)
    requires LedgerOk(l) && AllResolve(l, tokens) && !HasDuplicate(tokens) && i < j < |tokens|
    ensures Resolve(l, tokens[i]).value.nativeKey != Resolve(l, tokens[j]).value.nativeKey
  {
    assert tokens[i] != tokens[j];
  }

  // --- The consistency mark of a window ---

  // The generation shifted by three bits, with the identifier in the low bits.
  function MarkerValue(id: LogicalId, generation: UInt64): UInt64
    requires IsLogicalId(id)
  {
    if generation <= UINT64_MAX / 8 then generation * 8 + id else 0
  }

  // A nonzero mark determines the window and its generation.
  lemma MarkerDetermines(id: LogicalId, generation: UInt64, id': LogicalId, generation': UInt64)
    requires IsLogicalId(id) && IsLogicalId(id')
    requires MarkerValue(id, generation) == MarkerValue(id', generation') != 0
    ensures id == id' && generation == generation'
  {
  }

  // The mark is nonzero as long as the generation leaves room for the shift, and
  // then both can be read back from it.
  lemma MarkerReadsBack(id: LogicalId, generation: UInt64)
    requires IsLogicalId(id)
    ensures MarkerValue(id, generation) != 0 <==> generation < 0x2000_0000_0000_0000
    ensures MarkerValue(id, generation) != 0 ==>
              MarkerValue(id, generation) / 8 == generation && MarkerValue(id, generation) % 8 == id
  {
  }

  // --- The ledger object ---

  class TokenLedger {
    const controller: UInt64
    const session: SessionMarker
    var sessionActive: bool
    var active: map<LogicalId, Entry>
    var logicalByNative: map<UInt64, LogicalId>
    var highestGeneration: map<LogicalId, UInt64>

    ghost function Value(): Ledger
      reads this
    {
      Ledger(controller, session, sessionActive, active, logicalByNative, highestGeneration)
    }

    constructor (session: SessionMarker, controller: UInt64)
      ensures Value() == Opened(session, controller) && LedgerOk(Value())
    {
      this.controller, this.session := controller, session;
      sessionActive := session.Valid() && controller != 0;
      active, logicalByNative, highestGeneration := map[], map[], map[];
    }

    method IssueToken(r: Registration) returns (status: IssueStatus, token: Option<Token>)
      requires LedgerOk(Value())
      modifies this
      ensures Value() == Issue(old(Value()), r) && LedgerOk(Value())
      ensures status == IssueStatusOf(old(Value()), r)
      ensures token == if status.Issued? then Some(TokenFor(old(Value()), r)) else None
    {
      ApplyKeepsOk(Value(), IssueOp(r));
      if !sessionActive {
        return SessionRetired, None;
      }
      if controller == 0 {
        return AuthorityExhausted, None;
      }
      if !IsLogicalId(r.logicalId) || r.generation == 0 || r.nativeKey == 0 || r.process == 0 || r.thread == 0 {
        return InvalidIdentity, None;
      }
      if r.logicalId in active {
        return DuplicateLogicalId, None;
      }
      if r.nativeKey in logicalByNative {
        return DuplicateNativeKey, None;
      }
      if r.logicalId in highestGeneration && r.generation <= highestGeneration[r.logicalId] {
        return NonMonotonicGeneration, None;
      }
      active := active[r.logicalId := Entry(session, r.logicalId, r.generation, r.nativeKey, r.process, r.thread)];
      logicalByNative := logicalByNative[r.nativeKey := r.logicalId];
      highestGeneration := highestGeneration[r.logicalId := r.generation];
      return Issued, Some(Token(controller, session, r.logicalId, r.generation));
    }

    method RetireToken(id: LogicalId) returns (found: bool)
      requires LedgerOk(Value())
      modifies this
      ensures Value() == Retire(old(Value()), id) && LedgerOk(Value())
      ensures found <==> id in old(active)
    {
      ApplyKeepsOk(Value(), RetireOp(id));
      if id !in active {
        return false;
      }
      logicalByNative := logicalByNative - {active[id].nativeKey};
      active := active - {id};
      return true;
    }

    method RetireEverything()
      modifies this
      ensures Value() == RetireAll(old(Value())) && LedgerOk(Value())
    {
      active, logicalByNative := map[], map[];
      sessionActive := false;
    }

    method ResolveToken(t: Token) returns (entry: Option<Entry>)
      ensures entry == Resolve(Value(), t)
    {
      if !sessionActive || t.controller != controller || t.session != session {
        return None;
      }
      if t.logicalId !in active || active[t.logicalId].generation != t.generation {
        return None;
      }
      return Some(active[t.logicalId]);
    }

    method ValidateBatch(tokens: seq<Token>) returns (v: BatchValidation)
      ensures v == if tokens == [] then Empty
                   else if HasDuplicate(tokens) then Duplicate
                   else if !AllResolve(Value(), tokens) then Unknown
                   else Succeeded
    {
      if tokens == [] {
        return Empty;
      }
      for first := 0 to |tokens|
        invariant forall i, j | 0 <= i < first && i < j < |tokens| :: tokens[i] != tokens[j]
      {
        for second := first + 1 to |tokens|
          invariant forall j | first < j < second :: tokens[first] != tokens[j]
        {
          if tokens[first] == tokens[second] {
            return Duplicate;
          }
        }
      }
      for k := 0 to |tokens|
        invariant forall i | 0 <= i < k :: Resolve(Value(), tokens[i]).Some?
      {
        var entry := ResolveToken(tokens[k]);
        if entry.None? {
          return Unknown;
        }
      }
      return Succeeded;
    }
  }
}
