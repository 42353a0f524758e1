/**
 The execution budget of a run lineage: counters against limits, reserved one at
 a time, inherited by continuations, and stored as a dict between steps.
 Elapsed seconds are real numbers.
 */
module Budget {
  import opened Common
  import opened Projections

  datatype Limits = Limits(
    maxSteps: int, maxReplans: int, maxRetries: int, maxToolCalls: int,
    maxLlmCalls: int, maxCriticCalls: int, maxAssessments: int, maxTotalSeconds: int)

  datatype Usage = Usage(
    stepsUsed: int, replansUsed: int, retriesUsed: int, toolCallsUsed: int,
    llmCallsUsed: int, criticCallsUsed: int, assessmentCallsUsed: int, activeElapsedSeconds: real)

  datatype LineageValue = LineageValue(
    rootRunId: string, limits: Limits, usage: Usage,
    loopGuard: map<string, Json>, rejectionConstraints: seq<Json>, policyDenyConstraints: seq<Json>,
    activeSegmentStart: Option<real>)

  const DEFAULT_LIMITS := Limits(100, 3, 2, 5, 5, 3, 1, 300)

  const NO_USAGE := Usage(0, 0, 0, 0, 0, 0, 0, 0.0)

  function NewLineage(rootRunId: string): LineageValue {
    LineageValue(rootRunId, DEFAULT_LIMITS, NO_USAGE, map[], [], [], None)
  }

  /** A child shares everything with its parent except the open time segment. */
  function Inherit(parent: LineageValue): LineageValue {
    parent.(activeSegmentStart := None)
  }

  predicate Exhausted(limits: Limits, usage: Usage) {
    || usage.stepsUsed >= limits.maxSteps
    || usage.toolCallsUsed >= limits.maxToolCalls
    || usage.llmCallsUsed >= limits.maxLlmCalls
    || usage.replansUsed >= limits.maxReplans
    || usage.activeElapsedSeconds >= limits.maxTotalSeconds as real
  }

  datatype Op =
    | ReserveStep | ReserveToolCall | ReserveLlmCall | ReserveRetry | ReplanStep
    | OpenSegment(now: real) | CloseSegment(now: real)
    | ToChild

  /** Whether the operation is granted. */
  predicate Granted(l: LineageValue, op: Op) {
    match op
    case ReserveStep => !Exhausted(l.limits, l.usage)
    case ReserveToolCall => l.usage.toolCallsUsed < l.limits.maxToolCalls
    case ReserveLlmCall => l.usage.llmCallsUsed < l.limits.maxLlmCalls
    case ReserveRetry => l.usage.retriesUsed < l.limits.maxRetries
    case ReplanStep => l.usage.replansUsed < l.limits.maxReplans
    case _ => true
  }

  function RealMax(a: real, b: real): real {
    if a >= b then a else b
  }

  /** The lineage after the operation; a refused reservation changes nothing. */
  function After(l: LineageValue, op: Op): LineageValue {
    if !Granted(l, op) then l
    else
      var u := l.usage;
      match op
      case ReserveStep => l.(usage := u.(stepsUsed := u.stepsUsed + 1))
      case ReserveToolCall => l.(usage := u.(toolCallsUsed := u.toolCallsUsed + 1))
      case ReserveLlmCall => l.(usage := u.(llmCallsUsed := u.llmCallsUsed + 1))
      case ReserveRetry => l.(usage := u.(retriesUsed := u.retriesUsed + 1))
      case ReplanStep => l.(usage := u.(replansUsed := u.replansUsed + 1))
      case OpenSegment(now) => l.(activeSegmentStart := Some(now))
      case CloseSegment(now) =>
        if l.activeSegmentStart.None? then l
        else l.(usage := u.(activeElapsedSeconds := u.activeElapsedSeconds + RealMax(0.0, now - l.activeSegmentStart.value)),
                activeSegmentStart := None)
      case ToChild => Inherit(l)
  }

  function AfterAll(l: LineageValue, ops: seq<Op>): LineageValue {
    if ops == [] then l else After(AfterAll(l, Init(ops)), Last(ops))
  }

  /** The lineage object the executor works on in place. */
  class ExecutionLineage {
    var rootRunId: string
    var limits: Limits
    var usage: Usage
    var loopGuard: map<string, Json>
    var rejectionConstraints: seq<Json>
    var policyDenyConstraints: seq<Json>
    var activeSegmentStart: Option<real>

    ghost function View(): LineageValue
      reads this
    {
      LineageValue(rootRunId, limits, usage, loopGuard, rejectionConstraints, policyDenyConstraints, activeSegmentStart)
    }

    constructor FromValue(l: LineageValue)
      ensures View() == l
    {
      rootRunId, limits, usage := l.rootRunId, l.limits, l.usage;
      loopGuard, rejectionConstraints, policyDenyConstraints := l.loopGuard, l.rejectionConstraints, l.policyDenyConstraints;
      activeSegmentStart := l.activeSegmentStart;
    }

    method TryReserveStep() returns (ok: bool)
      modifies this`usage
      ensures ok == old(Granted(View(), ReserveStep)) && View() == old(After(View(), ReserveStep))
    {
      if Exhausted(limits, usage) {
        return false;
      }
      usage := usage.(stepsUsed := usage.stepsUsed + 1);
      ok := true;
    }

    method TryReserveToolCall() returns (ok: bool)
      modifies this`usage
      ensures ok == old(Granted(View(), ReserveToolCall)) && View() == old(After(View(), ReserveToolCall))
    {
      if usage.toolCallsUsed >= limits.maxToolCalls {
        return false;
      }
      usage := usage.(toolCallsUsed := usage.toolCallsUsed + 1);
      ok := true;
    }

    method TryReserveLlmCall() returns (ok: bool)
      modifies this`usage
      ensures ok == old(Granted(View(), ReserveLlmCall)) && View() == old(After(View(), ReserveLlmCall))
    {
      if usage.llmCallsUsed >= limits.maxLlmCalls {
        return false;
      }
      usage := usage.(llmCallsUsed := usage.llmCallsUsed + 1);
      ok := true;
    }

    method TryReserveRetry() returns (ok: bool)
      modifies this`usage
      ensures ok == old(Granted(View(), ReserveRetry)) && View() == old(After(View(), ReserveRetry))
    {
      if usage.retriesUsed >= limits.maxRetries {
        return false;
      }
      usage := usage.(retriesUsed := usage.retriesUsed + 1);
      ok := true;
    }

    method TryReserveReplan() returns (ok: bool)
      modifies this`usage
      ensures ok == old(Granted(View(), ReplanStep)) && View() == old(After(View(), ReplanStep))
    {
      if usage.replansUsed >= limits.maxReplans {
        return false;
      }
      usage := usage.(replansUsed := usage.replansUsed + 1);
      ok := true;
    }

    method OpenActiveSegment(now: real)
      modifies this`activeSegmentStart
      ensures View() == old(After(View(), OpenSegment(now)))
    {
      activeSegmentStart := Some(now);
    }

    method CloseActiveSegment(now: real)
      modifies this`usage, this`activeSegmentStart
      ensures View() == old(After(View(), CloseSegment(now)))
    {
      if activeSegmentStart.Some? {
        var span := now - activeSegmentStart.value;
        usage := usage.(activeElapsedSeconds := usage.activeElapsedSeconds + (if span >= 0.0 then span else 0.0));
        activeSegmentStart := None;
      }
    }
  }

  // ---- what any sequence of operations keeps ---------------------------------

  function Max(a: int, b: int): int {
    if a >= b then a else b
  }

  /** No counter falls, and none with a reservation of its own is pushed past its limit. */
  ghost predicate Advances(before: LineageValue, after: LineageValue) {
    var u, v, m := before.usage, after.usage, before.limits;
    && after.limits == m && after.rootRunId == before.rootRunId
    && u.stepsUsed <= v.stepsUsed <= Max(u.stepsUsed, m.maxSteps)
    && u.replansUsed <= v.replansUsed <= Max(u.replansUsed, m.maxReplans)
    && u.retriesUsed <= v.retriesUsed <= Max(u.retriesUsed, m.maxRetries)
    && u.toolCallsUsed <= v.toolCallsUsed <= Max(u.toolCallsUsed, m.maxToolCalls)
    && u.llmCallsUsed <= v.llmCallsUsed <= Max(u.llmCallsUsed, m.maxLlmCalls)
    && u.criticCallsUsed == v.criticCallsUsed && u.assessmentCallsUsed == v.assessmentCallsUsed
    && u.activeElapsedSeconds <= v.activeElapsedSeconds
  }

  lemma {:induction false} CountersAdvance(l: LineageValue, ops: seq<Op>)
    ensures Advances(l, AfterAll(l, ops))
  {
    if ops != [] {
      CountersAdvance(l, Init(ops));
    }
  }

  /** Once the budget is exhausted it stays so, in this run and in every descendant, and no further step is granted. */
  lemma {:induction false} ExhaustionIsAbsorbing(l: LineageValue, ops: seq<Op>)
    requires Exhausted(l.limits, l.usage)
    ensures var later := AfterAll(l, ops);
            && Exhausted(later.limits, later.usage)
            && !Granted(later, ReserveStep)
            && later.usage.stepsUsed == l.usage.stepsUsed
  {
    CountersAdvance(l, ops);
    ExhaustedStepsFrozen(l, ops);
  }

  lemma {:induction false} ExhaustedStepsFrozen(l: LineageValue, ops: seq<Op>)
    requires Exhausted(l.limits, l.usage)
    ensures AfterAll(l, ops).usage.stepsUsed == l.usage.stepsUsed
  {
    if ops != [] {
      ExhaustedStepsFrozen(l, Init(ops));
      CountersAdvance(l, Init(ops));
    }
  }

  // ---- what is granted, and how often --------------------------------------------

  /** A step needs all five budgets that exhaust a run, every other reservation its own counter alone. */
  lemma GrantedIffBelowLimit(l: LineageValue)
    ensures var u, m := l.usage, l.limits;
            && (Granted(l, ReserveStep)
                <==> && u.stepsUsed < m.maxSteps && u.toolCallsUsed < m.maxToolCalls && u.llmCallsUsed < m.maxLlmCalls
                     && u.replansUsed < m.maxReplans && u.activeElapsedSeconds < m.maxTotalSeconds as real)
            && (Granted(l, ReserveToolCall) <==> u.toolCallsUsed < m.maxToolCalls)
            && (Granted(l, ReserveLlmCall) <==> u.llmCallsUsed < m.maxLlmCalls)
            && (Granted(l, ReserveRetry) <==> u.retriesUsed < m.maxRetries)
            && (Granted(l, ReplanStep) <==> u.replansUsed < m.maxReplans)
  {
  }

  /** How many of the operations were this reservation, and granted. */
  function Grants(l: LineageValue, ops: seq<Op>, op: Op): nat {
    if ops == [] then 0
    else Grants(l, Init(ops), op) + (if Last(ops) == op && Granted(AfterAll(l, Init(ops)), op) then 1 else 0)
  }

  /**
   Over any sequence of operations a counter moves once for every granted reservation of its
   own, and for nothing else.
   */
  lemma {:induction false} CountersCountGrants(l: LineageValue, ops: seq<Op>)
    ensures var u, v := l.usage, AfterAll(l, ops).usage;
            && v.stepsUsed == u.stepsUsed + Grants(l, ops, ReserveStep)
            && v.toolCallsUsed == u.toolCallsUsed + Grants(l, ops, ReserveToolCall)
            && v.llmCallsUsed == u.llmCallsUsed + Grants(l, ops, ReserveLlmCall)
            && v.retriesUsed == u.retriesUsed + Grants(l, ops, ReserveRetry)
            && v.replansUsed == u.replansUsed + Grants(l, ops, ReplanStep)
  {
    if ops != [] {
      CountersCountGrants(l, Init(ops));
    }
  }

  /** The counter of a reservation and its limit. */
  function UsedAndLimit(l: LineageValue, op: Op): (int, int) {
    match op
    case ReserveStep => (l.usage.stepsUsed, l.limits.maxSteps)
    case ReserveToolCall => (l.usage.toolCallsUsed, l.limits.maxToolCalls)
    case ReserveLlmCall => (l.usage.llmCallsUsed, l.limits.maxLlmCalls)
    case ReserveRetry => (l.usage.retriesUsed, l.limits.maxRetries)
    case ReplanStep => (l.usage.replansUsed, l.limits.maxReplans)
    case _ => (0, 0)
  }

  function Repeated(op: Op, n: nat): seq<Op> {
    if n == 0 then [] else Repeated(op, n - 1) + [op]
  }

  predicate HasOwnLimit(op: Op) {
    op in [ReserveToolCall, ReserveLlmCall, ReserveRetry, ReplanStep]
  }

  lemma GrantedBelowOwnLimit(l: LineageValue, op: Op)
    requires HasOwnLimit(op)
    ensures Granted(l, op) <==> UsedAndLimit(l, op).0 < UsedAndLimit(l, op).1
  {
    GrantedIffBelowLimit(l);
  }

  lemma UsedIsGranted(l: LineageValue, ops: seq<Op>, op: Op)
    requires HasOwnLimit(op)
    ensures UsedAndLimit(AfterAll(l, ops), op) == (UsedAndLimit(l, op).0 + Grants(l, ops, op), UsedAndLimit(l, op).1)
  {
    CountersCountGrants(l, ops);
    LimitsStay(l, ops);
  }

  lemma LimitsStay(l: LineageValue, ops: seq<Op>)
    ensures AfterAll(l, ops).limits == l.limits
  {
    CountersAdvance(l, ops);
  }

  /**
   A budget can be used up to its limit and not beyond: asked n times, exactly what was left of
   it is granted, at most n.
   */
  lemma {:induction false} ReservationsRunOutAtLimit(l: LineageValue, op: Op, n: nat)
    requires HasOwnLimit(op)
    ensures var (used, limit) := UsedAndLimit(l, op);
            Grants(l, Repeated(op, n), op) == Max(0, if limit - used <= n then limit - used else n)
  {
    if n > 0 {
      var before := Repeated(op, n - 1);
      ReservationsRunOutAtLimit(l, op, n - 1);
      assert Init(Repeated(op, n)) == before && Last(Repeated(op, n)) == op;
      UsedIsGranted(l, before, op);
      GrantedBelowOwnLimit(AfterAll(l, before), op);
    }
  }

  /** A closed segment adds its span, none if the clock went back, and closing again adds nothing. */
  lemma SegmentAddsItsSpan(l: LineageValue, from: real, to: real, again: real)
    ensures var closed := AfterAll(l, [OpenSegment(from), CloseSegment(to)]);
            && closed == l.(usage := l.usage.(activeElapsedSeconds :=
                              l.usage.activeElapsedSeconds + (if from < to then to - from else 0.0)),
                            activeSegmentStart := None)
            && After(closed, CloseSegment(again)) == closed
  {
    var both := [OpenSegment(from), CloseSegment(to)];
    assert Init(both) == [OpenSegment(from)] && Init([OpenSegment(from)]) == [];
    assert AfterAll(l, [OpenSegment(from)]) == l.(activeSegmentStart := Some(from));
  }

  /** A root starts with nothing used, under the limits of the code. */
  lemma RootStartsUnused(rootRunId: string)
    ensures var l := NewLineage(rootRunId);
            && l.rootRunId == rootRunId && l.activeSegmentStart.None?
            && l.loopGuard == map[] && l.rejectionConstraints == [] && l.policyDenyConstraints == []
            && l.usage == Usage(0, 0, 0, 0, 0, 0, 0, 0.0) && l.limits == Limits(100, 3, 2, 5, 5, 3, 1, 300)
  {
  }

  // ---- active time -------------------------------------------------------------

  /** The clock after the operations: the time of the last segment that was opened or closed. */
  function Clock(ops: seq<Op>, from: real): real {
    if ops == [] then from
    else match Last(ops)
      case OpenSegment(now) => now
      case CloseSegment(now) => now
      case _ => Clock(Init(ops), from)
  }

  /** The clock never goes back. */
  predicate Clocked(ops: seq<Op>, from: real) {
    ops != [] ==> Clocked(Init(ops), from) && Clock(Init(ops), from) <= Clock(ops, from)
  }

  /** Up to where elapsed time may be accounted for: an open segment is not counted yet. */
  function Counted(l: LineageValue, clock: real): real {
    if l.activeSegmentStart.Some? then l.activeSegmentStart.value else clock
  }

  /**
   However segments are opened, opened again, closed twice or left open in a child,
   no time is counted twice: what was added is at most what the clock has advanced.
   */
  lemma {:induction false} ActiveTimeWithinClock(l: LineageValue, ops: seq<Op>, from: real)
    requires l.activeSegmentStart.None? && Clocked(ops, from)
    ensures var later := AfterAll(l, ops);
            && Counted(later, Clock(ops, from)) <= Clock(ops, from)
            && later.usage.activeElapsedSeconds <= l.usage.activeElapsedSeconds + (Counted(later, Clock(ops, from)) - from)
  {
    if ops != [] {
      ActiveTimeWithinClock(l, Init(ops), from);
    }
  }

  // ---- the stored form ----------------------------------------------------------

  /** The dict form: any key may be missing. */
  datatype StoredLimits = StoredLimits(
    maxSteps: Option<int>, maxReplans: Option<int>, maxRetries: Option<int>, maxToolCalls: Option<int>,
    maxLlmCalls: Option<int>, maxCriticCalls: Option<int>, maxAssessments: Option<int>, maxTotalSeconds: Option<int>)

  datatype StoredUsage = StoredUsage(
    stepsUsed: Option<int>, replansUsed: Option<int>, retriesUsed: Option<int>, toolCallsUsed: Option<int>,
    llmCallsUsed: Option<int>, criticCallsUsed: Option<int>, assessmentCallsUsed: Option<int>,
    activeElapsedSeconds: Option<real>)

  datatype StoredLineage = StoredLineage(
    rootRunId: Option<string>, budgetLimits: Option<StoredLimits>, budgetUsage: Option<StoredUsage>,
    loopGuard: Option<map<string, Json>>, rejectionConstraints: Option<seq<Json>>,
    policyDenyConstraints: Option<seq<Json>>, activeSegmentStart: Option<real>)

  const NO_STORED_LIMITS := StoredLimits(None, None, None, None, None, None, None, None)

  const NO_STORED_USAGE := StoredUsage(None, None, None, None, None, None, None, None)

  const NO_STORED_LINEAGE := StoredLineage(None, None, None, None, None, None, None)

  function GetOrElse<T>(o: Option<T>, default: T): T {
    if o.Some? then o.value else default
  }

  function LimitsToDict(m: Limits): StoredLimits {
    StoredLimits(Some(m.maxSteps), Some(m.maxReplans), Some(m.maxRetries), Some(m.maxToolCalls),
                 Some(m.maxLlmCalls), Some(m.maxCriticCalls), Some(m.maxAssessments), Some(m.maxTotalSeconds))
  }

  function LimitsFromDict(d: StoredLimits): Limits {
    Limits(GetOrElse(d.maxSteps, 100), GetOrElse(d.maxReplans, 3), GetOrElse(d.maxRetries, 2), GetOrElse(d.maxToolCalls, 5),
           GetOrElse(d.maxLlmCalls, 5), GetOrElse(d.maxCriticCalls, 3), GetOrElse(d.maxAssessments, 1),
           GetOrElse(d.maxTotalSeconds, 300))
  }

  function UsageToDict(u: Usage): StoredUsage {
    StoredUsage(Some(u.stepsUsed), Some(u.replansUsed), Some(u.retriesUsed), Some(u.toolCallsUsed),
                Some(u.llmCallsUsed), Some(u.criticCallsUsed), Some(u.assessmentCallsUsed), Some(u.activeElapsedSeconds))
  }

  function UsageFromDict(d: StoredUsage): Usage {
    Usage(GetOrElse(d.stepsUsed, 0), GetOrElse(d.replansUsed, 0), GetOrElse(d.retriesUsed, 0), GetOrElse(d.toolCallsUsed, 0),
          GetOrElse(d.llmCallsUsed, 0), GetOrElse(d.criticCallsUsed, 0), GetOrElse(d.assessmentCallsUsed, 0),
          GetOrElse(d.activeElapsedSeconds, 0.0))
  }

  function ToDict(l: LineageValue): StoredLineage {
    StoredLineage(Some(l.rootRunId), Some(LimitsToDict(l.limits)), Some(UsageToDict(l.usage)), Some(l.loopGuard),
                  Some(l.rejectionConstraints), Some(l.policyDenyConstraints), l.activeSegmentStart)
  }

  /** Reading a dict fills in the default of every missing key. */
  function FromDict(d: StoredLineage): LineageValue {
    LineageValue(
      GetOrElse(d.rootRunId, ""),
      LimitsFromDict(GetOrElse(d.budgetLimits, NO_STORED_LIMITS)),
      UsageFromDict(GetOrElse(d.budgetUsage, NO_STORED_USAGE)),
      GetOrElse(d.loopGuard, map[]),
      GetOrElse(d.rejectionConstraints, []),
      GetOrElse(d.policyDenyConstraints, []),
      d.activeSegmentStart)
  }

  /** A dict without any key reads as a root without a run; a single missing number reads as its default. */
  lemma MissingKeysReadAsDefaults(l: LineageValue)
    ensures FromDict(NO_STORED_LINEAGE) == NewLineage("")
    ensures var d, m := LimitsToDict(l.limits), l.limits;
            && LimitsFromDict(d.(maxSteps := None)) == m.(maxSteps := 100)
            && LimitsFromDict(d.(maxReplans := None)) == m.(maxReplans := 3)
            && LimitsFromDict(d.(maxRetries := None)) == m.(maxRetries := 2)
            && LimitsFromDict(d.(maxToolCalls := None)) == m.(maxToolCalls := 5)
            && LimitsFromDict(d.(maxLlmCalls := None)) == m.(maxLlmCalls := 5)
            && LimitsFromDict(d.(maxCriticCalls := None)) == m.(maxCriticCalls := 3)
            && LimitsFromDict(d.(maxAssessments := None)) == m.(maxAssessments := 1)
            && LimitsFromDict(d.(maxTotalSeconds := None)) == m.(maxTotalSeconds := 300)
    ensures var d, u := UsageToDict(l.usage), l.usage;
            && UsageFromDict(d.(stepsUsed := None)) == u.(stepsUsed := 0)
            && UsageFromDict(d.(replansUsed := None)) == u.(replansUsed := 0)
            && UsageFromDict(d.(retriesUsed := None)) == u.(retriesUsed := 0)
            && UsageFromDict(d.(toolCallsUsed := None)) == u.(toolCallsUsed := 0)
            && UsageFromDict(d.(llmCallsUsed := None)) == u.(llmCallsUsed := 0)
            && UsageFromDict(d.(criticCallsUsed := None)) == u.(criticCallsUsed := 0)
            && UsageFromDict(d.(assessmentCallsUsed := None)) == u.(assessmentCallsUsed := 0)
            && UsageFromDict(d.(activeElapsedSeconds := None)) == u.(activeElapsedSeconds := 0.0)
  {
  }
}
