/**
 The durable run rows: budget reservations that go through the stored dict,
 claim transactions that raise counters and register an invocation, and the
 transaction that cuts a run over to its continuation. A claim or a completion is
 one transaction; between two statements of a longer method other workers act.
 */
module RunStore {
  import opened Common
  import opened Projections
  import opened Budget

  datatype RunStatus = Pending | Running | Succeeded | Failed | Rejected | OtherStatus

  datatype Invocation = Started | Completed(result: Json)

  datatype RunState = RunState(
    executionLineage: Option<StoredLineage>,
    criticInvocations: map<string, Invocation>,
    semanticReplanInvocations: map<string, Invocation>,
    assessment: map<string, Invocation>,
    replannedToRunId: string,
    replannedToVersion: int,
    terminationReason: string,
    replannedFromRunId: string,
    replannedFromVersion: int,
    carriedForwardResultRefs: map<string, string>,
    inherited: map<string, Json>,
    other: map<string, Json>
  )

  datatype Run = Run(definitionId: string, version: int, status: RunStatus, state: RunState)

  function GetLineage(state: RunState): LineageValue {
    FromDict(GetOrElse(state.executionLineage, NO_STORED_LINEAGE))
  }

  function SetLineage(state: RunState, l: LineageValue): RunState {
    state.(executionLineage := Some(ToDict(l)))
  }

  lemma LineageRoundTrip(state: RunState, l: LineageValue)
    ensures GetLineage(SetLineage(state, l)) == l
  {
  }

  // ---- claims ------------------------------------------------------------------

  datatype ClaimKind = CriticClaim | SemanticClaim | AssessmentClaim

  datatype ClaimResult = Claimed | AlreadyCompleted(result: Json) | AlreadyStarted | BudgetExhausted | NotEligible

  function Registry(state: RunState, kind: ClaimKind): map<string, Invocation> {
    match kind
    case CriticClaim => state.criticInvocations
    case SemanticClaim => state.semanticReplanInvocations
    case AssessmentClaim => state.assessment
  }

  function WithRegistry(state: RunState, kind: ClaimKind, registry: map<string, Invocation>): RunState {
    match kind
    case CriticClaim => state.(criticInvocations := registry)
    case SemanticClaim => state.(semanticReplanInvocations := registry)
    case AssessmentClaim => state.(assessment := registry)
  }

  /** The budget check of a claim: language-model calls, and the claim's own counter if it has one. */
  predicate ClaimAffordable(l: LineageValue, kind: ClaimKind) {
    && l.usage.llmCallsUsed < l.limits.maxLlmCalls
    && (kind == CriticClaim ==> l.usage.criticCallsUsed < l.limits.maxCriticCalls)
    && (kind == AssessmentClaim ==> l.usage.assessmentCallsUsed < l.limits.maxAssessments)
  }

  function Charged(u: Usage, kind: ClaimKind): Usage {
    var v := u.(llmCallsUsed := u.llmCallsUsed + 1);
    match kind
    case CriticClaim => v.(criticCallsUsed := v.criticCallsUsed + 1)
    case AssessmentClaim => v.(assessmentCallsUsed := v.assessmentCallsUsed + 1)
    case SemanticClaim => v
  }

  function ClaimOutcome(state: RunState, kind: ClaimKind, key: string): ClaimResult {
    var registry := Registry(state, kind);
    if key == "" then NotEligible
    else if key in registry then (if registry[key].Completed? then AlreadyCompleted(registry[key].result) else AlreadyStarted)
    else if ClaimAffordable(GetLineage(state), kind) then Claimed
    else BudgetExhausted
  }

  /** A granted claim raises only its counters in the stored usage and registers its key, nothing else. */
  function AfterClaim(state: RunState, kind: ClaimKind, key: string): RunState {
    if ClaimOutcome(state, kind, key) != Claimed then state
    else
      var stored := GetOrElse(state.executionLineage, NO_STORED_LINEAGE);
      var usage := GetOrElse(stored.budgetUsage, NO_STORED_USAGE);
      var read := UsageFromDict(usage);
      var raised := usage.(llmCallsUsed := Some(read.llmCallsUsed + 1));
      var written := match kind
        case CriticClaim => raised.(criticCallsUsed := Some(read.criticCallsUsed + 1))
        case AssessmentClaim => raised.(assessmentCallsUsed := Some(read.assessmentCallsUsed + 1))
        case SemanticClaim => raised;
      WithRegistry(state.(executionLineage := Some(stored.(budgetUsage := Some(written)))), kind,
                   Registry(state, kind)[key := Started])
  }

  function AfterCompletion(state: RunState, kind: ClaimKind, key: string, result: Json): RunState {
    var registry := Registry(state, kind);
    if kind == AssessmentClaim || (key in registry && registry[key] == Started)
    then WithRegistry(state, kind, registry[key := Completed(result)])
    else state
  }

  /** The lineage read back after a claim is the old one with exactly the claim charged. */
  lemma ClaimCharges(state: RunState, kind: ClaimKind, key: string)
    ensures var l := GetLineage(state);
            GetLineage(AfterClaim(state, kind, key))
            == if ClaimOutcome(state, kind, key) == Claimed then l.(usage := Charged(l.usage, kind)) else l
  {
  }

  // ---- what other workers do to a run meanwhile ----------------------------------

  /** What another worker can do to the run's row in one step of its own. */
  datatype Event =
    | Claim(kind: ClaimKind, key: string)
    | Complete(kind: ClaimKind, key: string, result: Json)
    | Reserve(op: Op)

  /** Durable reservations exist for these four counters. */
  predicate IsDurable(e: Event) {
    e.Reserve? ==> e.op.ReserveStep? || e.op.ReserveToolCall? || e.op.ReserveLlmCall? || e.op.ReserveRetry?
  }

  /** The event spends budget. */
  predicate Spends(state: RunState, e: Event) {
    match e
    case Claim(kind, key) => ClaimOutcome(state, kind, key) == Claimed
    case Complete(_, _, _) => false
    case Reserve(op) => GetLineage(state).rootRunId != "" && Granted(GetLineage(state), op)
  }

  function AfterEvent(state: RunState, e: Event): RunState {
    match e
    case Claim(kind, key) => AfterClaim(state, kind, key)
    case Complete(kind, key, result) => AfterCompletion(state, kind, key, result)
    case Reserve(op) => if Spends(state, e) then SetLineage(state, After(GetLineage(state), op)) else state
  }

  function AfterEvents(state: RunState, es: seq<Event>): RunState {
    if es == [] then state else AfterEvent(AfterEvents(state, Init(es)), Last(es))
  }

  function SpendCount(state: RunState, es: seq<Event>): nat {
    if es == [] then 0
    else SpendCount(state, Init(es)) + (if Spends(AfterEvents(state, Init(es)), Last(es)) then 1 else 0)
  }

  function Spent(u: Usage): int {
    u.stepsUsed + u.toolCallsUsed + u.llmCallsUsed + u.retriesUsed
  }

  lemma {:induction false} EventsSpend(state: RunState, es: seq<Event>)
    requires forall e | e in es :: IsDurable(e)
    ensures Spent(GetLineage(AfterEvents(state, es)).usage) == Spent(GetLineage(state).usage) + SpendCount(state, es)
    ensures GetLineage(AfterEvents(state, es)).usage.replansUsed == GetLineage(state).usage.replansUsed
    ensures SpendCount(state, es) == 0 ==> GetLineage(AfterEvents(state, es)) == GetLineage(state)
  {
    if es != [] {
      EventsSpend(state, Init(es));
      assert Last(es) in es;
      EventSpends(AfterEvents(state, Init(es)), Last(es));
    }
  }

  /** One event raises the spent total by one if it spends, never the replans, and leaves the lineage alone otherwise. */
  ghost predicate Accounted(l: LineageValue, m: LineageValue, spends: bool) {
    && Spent(m.usage) == Spent(l.usage) + (if spends then 1 else 0)
    && m.usage.replansUsed == l.usage.replansUsed
    && (!spends ==> m == l)
  }

  lemma ChargeAccounted(l: LineageValue, kind: ClaimKind)
    ensures Accounted(l, l.(usage := Charged(l.usage, kind)), true)
  {
  }

  lemma GrantAccounted(l: LineageValue, op: Op)
    requires IsDurable(Reserve(op)) && Granted(l, op)
    ensures Accounted(l, After(l, op), true)
  {
  }

  lemma EventSpends(state: RunState, e: Event)
    requires IsDurable(e)
    ensures Accounted(GetLineage(state), GetLineage(AfterEvent(state, e)), Spends(state, e))
  {
    var l := GetLineage(state);
    if e.Claim? {
      ClaimCharges(state, e.kind, e.key);
      ChargeAccounted(l, e.kind);
    } else if e.Complete? {
      CompletionSpendsNothing(state, e.kind, e.key, e.result);
    } else if Spends(state, e) {
      LineageRoundTrip(state, After(l, e.op));
      GrantAccounted(l, e.op);
    }
  }

  lemma CompletionSpendsNothing(state: RunState, kind: ClaimKind, key: string, result: Json)
    ensures AfterCompletion(state, kind, key, result).executionLineage == state.executionLineage
  {
  }

  lemma {:induction false} EventsAppend(state: RunState, es: seq<Event>, fs: seq<Event>)
    ensures AfterEvents(state, es + fs) == AfterEvents(AfterEvents(state, es), fs)
  {
    if fs == [] {
      assert es + fs == es;
    } else {
      assert Init(es + fs) == es + Init(fs);
      EventsAppend(state, es, Init(fs));
    }
  }

  lemma ClaimKeepsRegistration(state: RunState, claimed: ClaimKind, newKey: string, kind: ClaimKind, key: string)
    requires key in Registry(state, kind)
    ensures key in Registry(AfterClaim(state, claimed, newKey), kind)
  {
  }

  lemma CompletionKeepsRegistration(state: RunState, completed: ClaimKind, done: string, result: Json, kind: ClaimKind, key: string)
    requires key in Registry(state, kind)
    ensures key in Registry(AfterCompletion(state, completed, done, result), kind)
  {
  }

  lemma EventKeepsRegistration(state: RunState, e: Event, kind: ClaimKind, key: string)
    requires key in Registry(state, kind)
    ensures key in Registry(AfterEvent(state, e), kind)
  {
    match e
    case Claim(claimed, newKey) => ClaimKeepsRegistration(state, claimed, newKey, kind, key);
    case Complete(completed, done, result) => CompletionKeepsRegistration(state, completed, done, result, kind, key);
    case Reserve(_) =>
  }

  /** A registration is never taken back. */
  lemma {:induction false} EventsKeepRegistration(state: RunState, es: seq<Event>, kind: ClaimKind, key: string)
    requires key in Registry(state, kind)
    ensures key in Registry(AfterEvents(state, es), kind)
  {
    if es != [] {
      EventsKeepRegistration(state, Init(es), kind, key);
      EventKeepsRegistration(AfterEvents(state, Init(es)), Last(es), kind, key);
    }
  }

  /** The n-th event is a claim, and it was granted. */
  predicate GrantsAt(state: RunState, es: seq<Event>, n: nat, kind: ClaimKind, key: string) {
    n < |es| && es[n] == Claim(kind, key) && ClaimOutcome(AfterEvents(state, es[..n]), kind, key) == Claimed
  }

  lemma GrantedClaimIsRegistered(state: RunState, es: seq<Event>, n: nat, kind: ClaimKind, key: string)
    requires GrantsAt(state, es, n, kind, key)
    ensures key in Registry(AfterEvents(state, es), kind) && key !in Registry(state, kind)
  {
    assert es == (es[..n] + [es[n]]) + es[n + 1..];
    EventsAppend(state, es[..n] + [es[n]], es[n + 1..]);
    assert Init(es[..n] + [es[n]]) == es[..n];
    var granted := AfterEvents(state, es[..n] + [es[n]]);
    assert key in Registry(granted, kind);
    EventsKeepRegistration(granted, es[n + 1..], kind, key);
    if key in Registry(state, kind) {
      EventsKeepRegistration(state, es[..n], kind, key);
    }
  }

  /** No counter that a claim looks at ever falls, and the limits stay. */
  ghost predicate CallsAdvance(l: LineageValue, m: LineageValue) {
    && m.limits == l.limits
    && l.usage.llmCallsUsed <= m.usage.llmCallsUsed
    && l.usage.criticCallsUsed <= m.usage.criticCallsUsed
    && l.usage.assessmentCallsUsed <= m.usage.assessmentCallsUsed
  }

  lemma ClaimAdvancesCalls(state: RunState, kind: ClaimKind, key: string)
    ensures CallsAdvance(GetLineage(state), GetLineage(AfterClaim(state, kind, key)))
  {
    ClaimCharges(state, kind, key);
  }

  lemma ReservationAdvancesCalls(l: LineageValue, op: Op)
    requires IsDurable(Reserve(op))
    ensures CallsAdvance(l, After(l, op))
  {
  }

  lemma EventAdvancesCalls(state: RunState, e: Event)
    requires IsDurable(e)
    ensures CallsAdvance(GetLineage(state), GetLineage(AfterEvent(state, e)))
  {
    if e.Claim? {
      ClaimAdvancesCalls(state, e.kind, e.key);
    } else if e.Complete? {
      CompletionSpendsNothing(state, e.kind, e.key, e.result);
    } else if Spends(state, e) {
      LineageRoundTrip(state, After(GetLineage(state), e.op));
      ReservationAdvancesCalls(GetLineage(state), e.op);
    }
  }

  lemma {:induction false} EventsAdvanceCalls(state: RunState, es: seq<Event>)
    requires forall e | e in es :: IsDurable(e)
    ensures CallsAdvance(GetLineage(state), GetLineage(AfterEvents(state, es)))
  {
    if es != [] {
      EventsAdvanceCalls(state, Init(es));
      assert Last(es) in es;
      EventAdvancesCalls(AfterEvents(state, Init(es)), Last(es));
    }
  }

  /** A claim granted at the end of some events was affordable before them, and its key was free. */
  lemma GrantedClaimWasAffordable(state: RunState, es: seq<Event>, n: nat, kind: ClaimKind, key: string)
    requires (forall e | e in es :: IsDurable(e)) && GrantsAt(state, es, n, kind, key)
    ensures key != "" && ClaimAffordable(GetLineage(state), kind)
  {
    assert forall e | e in es[..n] :: e in es;
    EventsAdvanceCalls(state, es[..n]);
  }

  // ---- what a claim is answered, and how often it is granted -------------------------

  /** A key that is not registered is refused exactly when the calls, or the calls of its kind, are used up. */
  lemma NewClaimIsRefusedIff(state: RunState, kind: ClaimKind, key: string)
    requires key != "" && key !in Registry(state, kind)
    ensures var u, m := GetLineage(state).usage, GetLineage(state).limits;
            && (ClaimOutcome(state, kind, key) == BudgetExhausted
                <==> || u.llmCallsUsed >= m.maxLlmCalls
                     || (kind.CriticClaim? && u.criticCallsUsed >= m.maxCriticCalls)
                     || (kind.AssessmentClaim? && u.assessmentCallsUsed >= m.maxAssessments))
            && ClaimOutcome(state, kind, key) in [Claimed, BudgetExhausted]
  {
  }

  /** A registered key is answered from its own registry, whatever is left of the budget; the empty key from none. */
  lemma RegisteredClaimIsAnswered(state: RunState, key: string)
    ensures forall kind :: ClaimOutcome(state, kind, "") == NotEligible
    ensures key != "" && key in state.criticInvocations ==>
              ClaimOutcome(state, CriticClaim, key)
              == if state.criticInvocations[key].Started? then AlreadyStarted
                 else AlreadyCompleted(state.criticInvocations[key].result)
    ensures key != "" && key in state.semanticReplanInvocations ==>
              ClaimOutcome(state, SemanticClaim, key)
              == if state.semanticReplanInvocations[key].Started? then AlreadyStarted
                 else AlreadyCompleted(state.semanticReplanInvocations[key].result)
    ensures key != "" && key in state.assessment ==>
              ClaimOutcome(state, AssessmentClaim, key)
              == if state.assessment[key].Started? then AlreadyStarted else AlreadyCompleted(state.assessment[key].result)
  {
  }

  /** A claim that is not granted changes nothing. */
  lemma RefusedClaimChangesNothing(state: RunState, kind: ClaimKind, key: string)
    ensures ClaimOutcome(state, kind, key) != Claimed ==> AfterClaim(state, kind, key) == state
  {
  }

  /** A granted critic claim registers its key as started, and charges one call and one critic call. */
  lemma CriticClaimCharges(state: RunState, key: string)
    requires ClaimOutcome(state, CriticClaim, key) == Claimed
    ensures var u, after := GetLineage(state).usage, AfterClaim(state, CriticClaim, key);
            && after == state.(executionLineage := after.executionLineage,
                               criticInvocations := state.criticInvocations[key := Started])
            && GetLineage(after)
               == GetLineage(state).(usage := u.(llmCallsUsed := u.llmCallsUsed + 1, criticCallsUsed := u.criticCallsUsed + 1))
  {
    ClaimCharges(state, CriticClaim, key);
  }

  /** A granted semantic claim registers its key as started, and charges one call. */
  lemma SemanticClaimCharges(state: RunState, key: string)
    requires ClaimOutcome(state, SemanticClaim, key) == Claimed
    ensures var u, after := GetLineage(state).usage, AfterClaim(state, SemanticClaim, key);
            && after == state.(executionLineage := after.executionLineage,
                               semanticReplanInvocations := state.semanticReplanInvocations[key := Started])
            && GetLineage(after) == GetLineage(state).(usage := u.(llmCallsUsed := u.llmCallsUsed + 1))
  {
    ClaimCharges(state, SemanticClaim, key);
  }

  /** A granted assessment registers its key as started, and charges one call and one assessment. */
  lemma AssessmentClaimCharges(state: RunState, key: string)
    requires ClaimOutcome(state, AssessmentClaim, key) == Claimed
    ensures var u, after := GetLineage(state).usage, AfterClaim(state, AssessmentClaim, key);
            && after == state.(executionLineage := after.executionLineage, assessment := state.assessment[key := Started])
            && GetLineage(after)
               == GetLineage(state).(usage := u.(llmCallsUsed := u.llmCallsUsed + 1, assessmentCallsUsed := u.assessmentCallsUsed + 1))
  {
    ClaimCharges(state, AssessmentClaim, key);
  }

  /** Over whatever happens to a run, no call counter passes its limit, unless it had passed it before. */
  ghost predicate CallsWithinLimits(l: LineageValue, m: LineageValue) {
    && m.limits == l.limits
    && m.usage.llmCallsUsed <= Max(l.usage.llmCallsUsed, l.limits.maxLlmCalls)
    && m.usage.criticCallsUsed <= Max(l.usage.criticCallsUsed, l.limits.maxCriticCalls)
    && m.usage.assessmentCallsUsed <= Max(l.usage.assessmentCallsUsed, l.limits.maxAssessments)
  }

  lemma ClaimKeepsCallsWithinLimits(l: LineageValue, state: RunState, kind: ClaimKind, key: string)
    requires CallsWithinLimits(l, GetLineage(state))
    ensures CallsWithinLimits(l, GetLineage(AfterClaim(state, kind, key)))
  {
    ClaimCharges(state, kind, key);
  }

  lemma ReservationKeepsCallsWithinLimits(l: LineageValue, m: LineageValue, op: Op)
    requires IsDurable(Reserve(op)) && CallsWithinLimits(l, m)
    ensures CallsWithinLimits(l, After(m, op))
  {
  }

  lemma EventKeepsCallsWithinLimits(l: LineageValue, state: RunState, e: Event)
    requires IsDurable(e) && CallsWithinLimits(l, GetLineage(state))
    ensures CallsWithinLimits(l, GetLineage(AfterEvent(state, e)))
  {
    if e.Claim? {
      ClaimKeepsCallsWithinLimits(l, state, e.kind, e.key);
    } else if e.Complete? {
      CompletionSpendsNothing(state, e.kind, e.key, e.result);
    } else if Spends(state, e) {
      LineageRoundTrip(state, After(GetLineage(state), e.op));
      ReservationKeepsCallsWithinLimits(l, GetLineage(state), e.op);
    }
  }

  lemma {:induction false} CallsStayWithinLimits(state: RunState, es: seq<Event>)
    requires forall e | e in es :: IsDurable(e)
    ensures CallsWithinLimits(GetLineage(state), GetLineage(AfterEvents(state, es)))
  {
    if es != [] {
      CallsStayWithinLimits(state, Init(es));
      assert Last(es) in es;
      EventKeepsCallsWithinLimits(GetLineage(state), AfterEvents(state, Init(es)), Last(es));
    }
  }

  /** How many of the events were granted claims of this kind. */
  function ClaimGrants(state: RunState, es: seq<Event>, kind: ClaimKind): nat {
    if es == [] then 0
    else
      ClaimGrants(state, Init(es), kind)
      + (if Last(es).Claim? && Last(es).kind == kind && ClaimOutcome(AfterEvents(state, Init(es)), kind, Last(es).key) == Claimed
         then 1 else 0)
  }

  /** How many of them were granted reservations of one more call. */
  function LlmReservations(state: RunState, es: seq<Event>): nat {
    if es == [] then 0
    else
      LlmReservations(state, Init(es))
      + (if Last(es) == Reserve(ReserveLlmCall) && Spends(AfterEvents(state, Init(es)), Last(es)) then 1 else 0)
  }

  /** From l to m the calls rise by this many of each sort. */
  predicate CallsRise(l: LineageValue, m: LineageValue, llm: int, critic: int, assessment: int) {
    && m.usage.llmCallsUsed == l.usage.llmCallsUsed + llm
    && m.usage.criticCallsUsed == l.usage.criticCallsUsed + critic
    && m.usage.assessmentCallsUsed == l.usage.assessmentCallsUsed + assessment
  }

  lemma ClaimRaisesCalls(state: RunState, kind: ClaimKind, key: string)
    ensures var one := if ClaimOutcome(state, kind, key) == Claimed then 1 else 0;
            CallsRise(GetLineage(state), GetLineage(AfterClaim(state, kind, key)),
                      one, if kind == CriticClaim then one else 0, if kind == AssessmentClaim then one else 0)
  {
    ClaimCharges(state, kind, key);
  }

  lemma ReservationRaisesCalls(l: LineageValue, op: Op)
    requires IsDurable(Reserve(op)) && Granted(l, op)
    ensures CallsRise(l, After(l, op), if op == ReserveLlmCall then 1 else 0, 0, 0)
  {
  }

  lemma EventCountsGrants(state: RunState, e: Event)
    requires IsDurable(e)
    ensures var claimed := e.Claim? && ClaimOutcome(state, e.kind, e.key) == Claimed;
            CallsRise(GetLineage(state), GetLineage(AfterEvent(state, e)),
                      if claimed || (e == Reserve(ReserveLlmCall) && Spends(state, e)) then 1 else 0,
                      if claimed && e.kind == CriticClaim then 1 else 0,
                      if claimed && e.kind == AssessmentClaim then 1 else 0)
  {
    if e.Claim? {
      ClaimRaisesCalls(state, e.kind, e.key);
    } else if e.Complete? {
      CompletionSpendsNothing(state, e.kind, e.key, e.result);
    } else if Spends(state, e) {
      LineageRoundTrip(state, After(GetLineage(state), e.op));
      ReservationRaisesCalls(GetLineage(state), e.op);
    }
  }

  /** All granted claims and reservations that charge a call. */
  function CallGrants(state: RunState, es: seq<Event>): nat {
    ClaimGrants(state, es, CriticClaim) + ClaimGrants(state, es, SemanticClaim) + ClaimGrants(state, es, AssessmentClaim)
    + LlmReservations(state, es)
  }

  lemma CallGrantsStep(state: RunState, es: seq<Event>)
    requires es != []
    ensures var before, e := AfterEvents(state, Init(es)), Last(es);
            var claimed := e.Claim? && ClaimOutcome(before, e.kind, e.key) == Claimed;
            && CallGrants(state, es)
               == CallGrants(state, Init(es)) + (if claimed || (e == Reserve(ReserveLlmCall) && Spends(before, e)) then 1 else 0)
            && (forall kind :: ClaimGrants(state, es, kind)
                  == ClaimGrants(state, Init(es), kind) + (if claimed && e.kind == kind then 1 else 0))
  {
    var e := Last(es);
    if e.Claim? {
      match e.kind case CriticClaim => case SemanticClaim => case AssessmentClaim =>
    }
  }

  /** The counters are an exact account: every granted claim and reservation is in them once, and nothing else. */
  lemma {:induction false} CallsCountGrants(state: RunState, es: seq<Event>)
    requires forall e | e in es :: IsDurable(e)
    ensures CallsRise(GetLineage(state), GetLineage(AfterEvents(state, es)),
                      CallGrants(state, es), ClaimGrants(state, es, CriticClaim), ClaimGrants(state, es, AssessmentClaim))
  {
    if es != [] {
      CallsCountGrants(state, Init(es));
      assert Last(es) in es;
      EventCountsGrants(AfterEvents(state, Init(es)), Last(es));
      CallGrantsStep(state, es);
    }
  }

  /** As long as everybody works in single transactions, a key is granted at most once. */
  lemma KeyIsGrantedOnce(state: RunState, es: seq<Event>, m: nat, n: nat, kind: ClaimKind, key: string)
    requires GrantsAt(state, es, m, kind, key) && GrantsAt(state, es, n, kind, key)
    ensures m == n
  {
    if m != n {
      var (first, second) := if m < n then (m, n) else (n, m);
      var before := es[..second];
      assert before[..first] == es[..first] && GrantsAt(state, before, first, kind, key);
      GrantedClaimIsRegistered(state, before, first, kind, key);
    }
  }

  // ---- the table -----------------------------------------------------------------

  type Runs = map<string, Run>

  function ByOthers(runs: Runs, runId: string, es: seq<Event>): Runs {
    if runId !in runs then runs else runs[runId := runs[runId].(state := AfterEvents(runs[runId].state, es))]
  }

  /**
   Reads the run, reserves on its lineage, and saves the whole run as it was read.
   Others may do anything in between; they leave the table `atSave`.
   */
  function DurableReservation(runs: Runs, runId: string, op: Op, saveFails: bool, atSave: Runs): (bool, Runs) {
    if runId !in runs then (false, runs)
    else
      var l := GetLineage(runs[runId].state);
      if l.rootRunId == "" || !Granted(l, op) || saveFails then (false, atSave)
      else (true, atSave[runId := runs[runId].(state := SetLineage(runs[runId].state, After(l, op)))])
  }

  class RunRepository {
    var runs: Runs
    var definitionVersions: map<string, int>

    constructor ()
      ensures runs == map[] && definitionVersions == map[]
    {
      runs, definitionVersions := map[], map[];
    }

    /** Steps other workers take on a run between two statements of a caller. */
    method OthersWork(runId: string, es: seq<Event>)
      modifies this`runs
      ensures runs == ByOthers(old(runs), runId, es)
    {
      if runId in runs {
        runs := runs[runId := runs[runId].(state := AfterEvents(runs[runId].state, es))];
      }
    }

    /**
     Read the run, reserve on the lineage read back from its dict, save the run as it was read
     over what others stored.
     */
    method ReserveDurable(runId: string, op: Op, saveFails: bool, atSave: Runs) returns (ok: bool)
      requires op.ReserveStep? || op.ReserveToolCall? || op.ReserveRetry? || op.ReserveLlmCall?
      modifies this`runs
      ensures ok == DurableReservation(old(runs), runId, op, saveFails, atSave).0
      ensures runs == DurableReservation(old(runs), runId, op, saveFails, atSave).1
    {
      if runId !in runs {
        return false;
      }
      var run := runs[runId];
      runs := atSave;
      var value := GetLineage(run.state);
      if value.rootRunId == "" {
        return false;
      }
      var lineage := new ExecutionLineage.FromValue(value);
      match op {
        case ReserveStep => ok := lineage.TryReserveStep();
        case ReserveToolCall => ok := lineage.TryReserveToolCall();
        case ReserveRetry => ok := lineage.TryReserveRetry();
        case ReserveLlmCall => ok := lineage.TryReserveLlmCall();
      }
      if !ok || saveFails {
        return false;
      }
      var reserved := LineageValue(lineage.rootRunId, lineage.limits, lineage.usage, lineage.loopGuard,
                                   lineage.rejectionConstraints, lineage.policyDenyConstraints, lineage.activeSegmentStart);
      assert reserved == lineage.View() == After(value, op);
      runs := runs[runId := run.(state := SetLineage(run.state, reserved))];
    }

    method ClaimTx(runId: string, kind: ClaimKind, key: string) returns (result: ClaimResult)
      modifies this`runs
      ensures result == if runId == "" || runId !in old(runs) then NotEligible else ClaimOutcome(old(runs)[runId].state, kind, key)
      ensures runs == if runId == "" || runId !in old(runs) then old(runs)
                      else old(runs)[runId := old(runs)[runId].(state := AfterClaim(old(runs)[runId].state, kind, key))]
    {
      if key == "" || runId == "" || runId !in runs {
        result := NotEligible;
        return;
      }
      var state := runs[runId].state;
      var registry := Registry(state, kind);
      if key in registry {
        result := if registry[key].Completed? then AlreadyCompleted(registry[key].result) else AlreadyStarted;
        return;
      }
      var stored := GetOrElse(state.executionLineage, NO_STORED_LINEAGE);
      var usage := GetOrElse(stored.budgetUsage, NO_STORED_USAGE);
      var limits := GetOrElse(stored.budgetLimits, NO_STORED_LIMITS);
      var llmUsed := GetOrElse(usage.llmCallsUsed, 0);
      var criticUsed := GetOrElse(usage.criticCallsUsed, 0);
      var assessUsed := GetOrElse(usage.assessmentCallsUsed, 0);
      if || llmUsed >= GetOrElse(limits.maxLlmCalls, 5)
         || (kind == CriticClaim && criticUsed >= GetOrElse(limits.maxCriticCalls, 3))
         || (kind == AssessmentClaim && assessUsed >= GetOrElse(limits.maxAssessments, 1))
      {
        result := BudgetExhausted;
        return;
      }
      usage := usage.(llmCallsUsed := Some(llmUsed + 1));
      match kind {
        case CriticClaim => usage := usage.(criticCallsUsed := Some(criticUsed + 1));
        case AssessmentClaim => usage := usage.(assessmentCallsUsed := Some(assessUsed + 1));
        case SemanticClaim =>
      }
      state := state.(executionLineage := Some(stored.(budgetUsage := Some(usage))));
      state := WithRegistry(state, kind, registry[key := Started]);
      runs := runs[runId := runs[runId].(state := state)];
      result := Claimed;
    }

    method CompleteTx(runId: string, kind: ClaimKind, key: string, value: Json)
      modifies this`runs
      ensures runs == if runId !in old(runs) then old(runs)
                      else old(runs)[runId := old(runs)[runId].(state := AfterCompletion(old(runs)[runId].state, kind, key, value))]
    {
      if runId in runs {
        runs := runs[runId := runs[runId].(state := AfterCompletion(runs[runId].state, kind, key, value))];
      }
    }

    /**
     Version allocation, version snapshot, child row and parent row in one
     transaction; it fails without effect when the child's id is taken.
     */
    method CreateChildContinuationTx(childId: string, child: Run, parentId: string, parentStatus: RunStatus, parentState: RunState)
      returns (version: Option<int>)
      modifies this`runs, this`definitionVersions
      ensures version.None? <==> childId in old(runs)
      ensures version.None? ==> runs == old(runs) && definitionVersions == old(definitionVersions)
      ensures version.Some? ==>
                && version.value == NextVersion(old(definitionVersions), child.definitionId)
                && definitionVersions == old(definitionVersions)[child.definitionId := version.value]
                && runs == CutOver(old(runs), childId, child, parentId, parentStatus, parentState, version.value)
    {
      if childId in runs {
        return None;
      }
      var next := (if child.definitionId in definitionVersions then definitionVersions[child.definitionId] else 0) + 1;
      definitionVersions := definitionVersions[child.definitionId := next];
      runs := runs[childId := child.(version := next)];
      if parentId in runs {
        var stamped := parentState.(replannedToVersion := next);
        runs := runs[parentId := runs[parentId].(status := parentStatus, state := stamped)];
      }
      version := Some(next);
    }
  }

  function NextVersion(versions: map<string, int>, definitionId: string): int {
    (if definitionId in versions then versions[definitionId] else 0) + 1
  }

  function CutOver(
    runs: Runs, childId: string, child: Run, parentId: string, parentStatus: RunStatus, parentState: RunState, version: int): Runs
  {
    var withChild := runs[childId := child.(version := version)];
    if parentId !in withChild then withChild
    else withChild[parentId := withChild[parentId].(status := parentStatus, state := parentState.(replannedToVersion := version))]
  }

  // ---- durable reservations refine the pure ones -----------------------------------

  /** A reservation nobody interferes with. */
  function Undisturbed(runs: Runs, runId: string, op: Op): Runs {
    DurableReservation(runs, runId, op, false, runs).1
  }

  function DurableReservations(runs: Runs, runId: string, ops: seq<Op>): Runs {
    if ops == [] then runs else Undisturbed(DurableReservations(runs, runId, Init(ops)), runId, Last(ops))
  }

  /** The pure reservation on the stored lineage, and nothing else. */
  ghost predicate Refines(runs: Runs, later: Runs, runId: string, l: LineageValue) {
    && runId in runs && runId in later && later - {runId} == runs - {runId}
    && GetLineage(later[runId].state) == l
    && later[runId].state.(executionLineage := None) == runs[runId].state.(executionLineage := None)
  }

  lemma UndisturbedRefines(runs: Runs, runId: string, op: Op)
    requires runId in runs && GetLineage(runs[runId].state).rootRunId != ""
    ensures Refines(runs, Undisturbed(runs, runId, op), runId, After(GetLineage(runs[runId].state), op))
  {
    LineageRoundTrip(runs[runId].state, After(GetLineage(runs[runId].state), op));
  }

  /**
   Any series of durable reservations leaves the stored lineage the pure reservations compute,
   and touches nothing else.
   */
  lemma {:induction false} DurableRefinesPure(runs: Runs, runId: string, ops: seq<Op>)
    requires runId in runs && GetLineage(runs[runId].state).rootRunId != ""
    ensures Refines(runs, DurableReservations(runs, runId, ops), runId, AfterAll(GetLineage(runs[runId].state), ops))
  {
    if ops != [] {
      DurableRefinesPure(runs, runId, Init(ops));
      CountersAdvance(GetLineage(runs[runId].state), Init(ops));
      UndisturbedRefines(DurableReservations(runs, runId, Init(ops)), runId, Last(ops));
    }
  }

  // ---- what a reservation overwrites -------------------------------------------------

  /**
   A reservation is granted exactly for a run with a lineage that can afford it and a save that
   succeeds; otherwise it stores nothing.
   */
  lemma ReservationIsGrantedIff(runs: Runs, runId: string, op: Op, saveFails: bool, atSave: Runs)
    ensures var (granted, saved) := DurableReservation(runs, runId, op, saveFails, atSave);
            && (granted <==> && runId in runs && GetLineage(runs[runId].state).rootRunId != ""
                             && Granted(GetLineage(runs[runId].state), op) && !saveFails)
            && (!granted ==> saved == if runId in runs then atSave else runs)
            && (granted ==> runId in saved && saved[runId].definitionId == runs[runId].definitionId
                            && saved[runId].version == runs[runId].version && saved[runId].status == runs[runId].status)
  {
  }

  /**
   The row after a granted reservation: the state as it was read, with the reservation charged;
   other rows as others left them.
   */
  lemma GrantedReservationRow(runs: Runs, runId: string, op: Op, atSave: Runs)
    requires DurableReservation(runs, runId, op, false, atSave).0
    ensures runId in runs && DurableReservation(runs, runId, op, false, atSave).1 - {runId} == atSave - {runId}
    ensures var saved := DurableReservation(runs, runId, op, false, atSave).1[runId].state;
            && GetLineage(saved) == After(GetLineage(runs[runId].state), op) && Granted(GetLineage(runs[runId].state), op)
            && saved.(executionLineage := None) == runs[runId].state.(executionLineage := None)
  {
    LineageRoundTrip(runs[runId].state, After(GetLineage(runs[runId].state), op));
  }

  /**
   A durable reservation is two transactions, a read and a save of the whole run.
   What it stores is the usage at the save with the reservation charged exactly
   when nobody spent in between.
   */
  lemma ReservationKeepsChargesIff(runs: Runs, runId: string, op: Op, meanwhile: seq<Event>)
    requires (forall e | e in meanwhile :: IsDurable(e)) && IsDurable(Reserve(op))
    requires DurableReservation(runs, runId, op, false, ByOthers(runs, runId, meanwhile)).0
    ensures runId in runs
    ensures var saved := GetLineage(DurableReservation(runs, runId, op, false, ByOthers(runs, runId, meanwhile)).1[runId].state);
            var atSave := GetLineage(AfterEvents(runs[runId].state, meanwhile));
            && (Spent(saved.usage) == Spent(atSave.usage) + 1 <==> SpendCount(runs[runId].state, meanwhile) == 0)
            && (SpendCount(runs[runId].state, meanwhile) == 0 ==> saved == After(atSave, op))
  {
    GrantedReservationRow(runs, runId, op, ByOthers(runs, runId, meanwhile));
    EventsSpend(runs[runId].state, meanwhile);
    GrantAccounted(GetLineage(runs[runId].state), op);
  }

  /**
   Every claim granted in between loses its registration and its charge, and would be granted
   again unless this reservation took the last call.
   */
  lemma ClaimDuringReservationIsGrantedAgainIff(
      runs: Runs, runId: string, op: Op, meanwhile: seq<Event>, n: nat, kind: ClaimKind, key: string)
    requires (forall e | e in meanwhile :: IsDurable(e)) && IsDurable(Reserve(op))
    requires DurableReservation(runs, runId, op, false, ByOthers(runs, runId, meanwhile)).0 && runId in runs
    requires GrantsAt(runs[runId].state, meanwhile, n, kind, key)
    ensures var saved := DurableReservation(runs, runId, op, false, ByOthers(runs, runId, meanwhile)).1[runId].state;
            && key in Registry(AfterEvents(runs[runId].state, meanwhile), kind) && key !in Registry(saved, kind)
            && (ClaimOutcome(saved, kind, key) == Claimed
                <==> !(op == ReserveLlmCall && GetLineage(saved).usage.llmCallsUsed == GetLineage(saved).limits.maxLlmCalls))
  {
    GrantedReservationRow(runs, runId, op, ByOthers(runs, runId, meanwhile));
    GrantedClaimIsRegistered(runs[runId].state, meanwhile, n, kind, key);
    GrantedClaimWasAffordable(runs[runId].state, meanwhile, n, kind, key);
  }

  predicate IsExhausted(l: LineageValue) {
    Exhausted(l.limits, l.usage)
  }

  /** The reservation takes what was left of a counter that exhausts the run. */
  predicate TakesLast(l: LineageValue, op: Op) {
    match op
    case ReserveStep => l.usage.stepsUsed + 1 >= l.limits.maxSteps
    case ReserveToolCall => l.usage.toolCallsUsed + 1 >= l.limits.maxToolCalls
    case ReserveLlmCall => l.usage.llmCallsUsed + 1 >= l.limits.maxLlmCalls
    case _ => false
  }

  lemma ChargeExhaustsIff(l: LineageValue, op: Op)
    requires IsDurable(Reserve(op)) && Granted(l, op)
    ensures IsExhausted(After(l, op)) <==> IsExhausted(l) || TakesLast(l, op)
  {
  }

  /**
   Whatever others stored in between, a saved run is exhausted exactly if it was when
   it was read or the reservation took the last of its counter. So exhaustion does
   not stay: it is undone exactly if others exhausted the run and neither holds.
   */
  lemma ReservationLeavesExhaustedIff(runs: Runs, runId: string, op: Op, atSave: Runs)
    requires IsDurable(Reserve(op)) && DurableReservation(runs, runId, op, false, atSave).0
    ensures runId in runs
    ensures var read := GetLineage(runs[runId].state);
            var saved := GetLineage(DurableReservation(runs, runId, op, false, atSave).1[runId].state);
            IsExhausted(saved) <==> IsExhausted(read) || TakesLast(read, op)
  {
    GrantedReservationRow(runs, runId, op, atSave);
    ChargeExhaustsIff(GetLineage(runs[runId].state), op);
  }

  /** A run that a claim exhausted in between is no longer exhausted after the save. */
  lemma ReservationCanUndoExhaustion(runs: Runs, runId: string, key: string)
    requires runId in runs && key != "" && key !in runs[runId].state.semanticReplanInvocations
    requires var l := GetLineage(runs[runId].state);
             l.rootRunId != "" && l.limits == DEFAULT_LIMITS && l.usage == NO_USAGE.(llmCallsUsed := 4)
    ensures var atSave := ByOthers(runs, runId, [Claim(SemanticClaim, key)]);
            var saved := DurableReservation(runs, runId, ReserveToolCall, false, atSave).1;
            IsExhausted(GetLineage(atSave[runId].state)) && !IsExhausted(GetLineage(saved[runId].state))
  {
    var state := runs[runId].state;
    ClaimCharges(state, SemanticClaim, key);
    assert Init([Claim(SemanticClaim, key)]) == [] && AfterEvents(state, []) == state;
    ReservationLeavesExhaustedIff(runs, runId, ReserveToolCall, ByOthers(runs, runId, [Claim(SemanticClaim, key)]));
  }

  // ---- completed calls ------------------------------------------------------------------

  predicate HasResult(state: RunState, kind: ClaimKind, key: string, result: Json) {
    key in Registry(state, kind) && Registry(state, kind)[key] == Completed(result)
  }

  lemma ClaimKeepsResult(state: RunState, claimed: ClaimKind, newKey: string, kind: ClaimKind, key: string, result: Json)
    requires HasResult(state, kind, key, result)
    ensures HasResult(AfterClaim(state, claimed, newKey), kind, key, result)
  {
  }

  lemma CompletionKeepsResult(
      state: RunState, completed: ClaimKind, done: string, value: Json, kind: ClaimKind, key: string, result: Json)
    requires HasResult(state, kind, key, result) && kind != AssessmentClaim
    ensures HasResult(AfterCompletion(state, completed, done, value), kind, key, result)
  {
  }

  lemma {:induction false} ResultStays(state: RunState, es: seq<Event>, kind: ClaimKind, key: string, result: Json)
    requires HasResult(state, kind, key, result) && kind != AssessmentClaim
    ensures HasResult(AfterEvents(state, es), kind, key, result)
  {
    if es != [] {
      ResultStays(state, Init(es), kind, key, result);
      var before, e := AfterEvents(state, Init(es)), Last(es);
      match e {
        case Claim(claimed, newKey) => ClaimKeepsResult(before, claimed, newKey, kind, key, result);
        case Complete(completed, done, value) => CompletionKeepsResult(before, completed, done, value, kind, key, result);
        case Reserve(_) =>
      }
    }
  }

  lemma ResultIsAnswered(state: RunState, es: seq<Event>, kind: ClaimKind, key: string, result: Json)
    requires key != "" && HasResult(state, kind, key, result) && kind != AssessmentClaim
    ensures ClaimOutcome(AfterEvents(state, es), kind, key) == AlreadyCompleted(result)
  {
    ResultStays(state, es, kind, key, result);
  }

  lemma SecondCompletionIsAnswered(state: RunState, key: string, result: Json)
    requires key != ""
    ensures ClaimOutcome(AfterEvents(state, [Complete(AssessmentClaim, key, JList([result]))]), AssessmentClaim, key)
         != AlreadyCompleted(result)
  {
    var again := [Complete(AssessmentClaim, key, JList([result]))];
    assert Init(again) == [] && AfterEvents(state, []) == state;
    OtherResultReplaces(state, key, result);
  }

  /**
   Once a call is completed, every later claim of its key is answered with its result,
   whatever happens in between; except for assessments, which a second completion
   overwrites.
   */
  lemma CompletedAnswerIsFinalIff(state: RunState, kind: ClaimKind, key: string, result: Json)
    requires key != "" && HasResult(state, kind, key, result)
    ensures (forall es :: ClaimOutcome(AfterEvents(state, es), kind, key) == AlreadyCompleted(result)) <==> kind != AssessmentClaim
  {
    if kind != AssessmentClaim {
      forall es
        ensures ClaimOutcome(AfterEvents(state, es), kind, key) == AlreadyCompleted(result)
      {
        ResultIsAnswered(state, es, kind, key, result);
      }
    } else {
      SecondCompletionIsAnswered(state, key, result);
    }
  }

  lemma OtherResultReplaces(state: RunState, key: string, result: Json)
    requires key != ""
    ensures ClaimOutcome(AfterCompletion(state, AssessmentClaim, key, JList([result])), AssessmentClaim, key) != AlreadyCompleted(result)
  {
    var other := JList([result]);
    assert other.items[0] == result;
  }

  /**
   A completion gives its key the result if the call was started, or is an assessment; it
   changes no other entry and no budget.
   */
  lemma CompletionStoresResultIff(state: RunState, kind: ClaimKind, key: string, result: Json)
    ensures var done := AfterCompletion(state, kind, key, result);
            && (HasResult(done, kind, key, result)
                <==> kind == AssessmentClaim || HasResult(state, kind, key, result)
                     || (key in Registry(state, kind) && Registry(state, kind)[key] == Started))
            && GetLineage(done) == GetLineage(state)
            && (forall k | k != key :: k in Registry(done, kind) <==> k in Registry(state, kind))
            && (forall k | k != key && k in Registry(state, kind) :: Registry(done, kind)[k] == Registry(state, kind)[k])
            && (forall other | other != kind :: Registry(done, other) == Registry(state, other))
  {
    CompletionSpendsNothing(state, kind, key, result);
  }
}
