/**
 The continuation coordinator: it turns a failed or rejected run into a child
 run that inherits the lineage budget. What the abstract collaborators answer
 (plan loading, decision, revision checks, ids) is given as input.
 */
module Continuation {
  import opened Common
  import opened Projections
  import opened Budget
  import opened RunStore

  /**
   What the collaborators answer during one replan request, and what other workers
   do to the run meanwhile: before each of the two claims, before the revision step
   reads the run, between that read and the second one (while the revision is built),
   and between the second read and the commit.
   */
  datatype Answers = Answers(
    planLoads: bool,
    criticKey: Option<string>,
    criticCompletes: Option<Json>,
    decidesReplan: bool,
    semanticKey: Option<string>,
    semanticCompletes: Option<Json>,
    revisionValid: bool,
    carriedValid: bool,
    planId: string,
    carriedRefs: map<string, string>,
    childRunId: string,
    beforeCritic: seq<Event>,
    beforeSemantic: seq<Event>,
    beforeRevision: seq<Event>,
    duringRevision: seq<Event>,
    duringCutover: seq<Event>
  )

  datatype Outcome =
    | RunNotFound
    | NotEligibleStatus
    | AlreadyReplanned(existing: string)
    | NoPlan
    | NoReplanDecision
    | RevisionInvalid
    | CarriedInvalid
    | ReplansExhausted
    | StartedChild(child: string, version: int)

  function InitialState(parent: RunState, l: LineageValue, parentId: string, parentVersion: int, refs: map<string, string>): RunState {
    RunState(Some(ToDict(l)), map[], map[], map[], "", 0, "", parentId, parentVersion, refs, parent.inherited, map[])
  }

  /** The lineage a cutover hands on: the one read back from the run, with one more replan, and no open time segment. */
  function ChildLineage(stored: LineageValue): LineageValue {
    Inherit(After(stored, ReplanStep))
  }

  /** The stored lineage if there is one, otherwise the copy the coordinator holds. */
  function FreshOr(state: RunState, copy: LineageValue): LineageValue {
    var stored := GetLineage(state);
    if stored.rootRunId != "" then stored else copy
  }

  function CutoverParentState(parent: RunState, childId: string, l: LineageValue): RunState {
    parent.(replannedToRunId := childId, terminationReason := "replanned", executionLineage := Some(ToDict(l)))
  }

  function ParentStatus(status: RunStatus): RunStatus {
    if status == Rejected then Rejected else Failed
  }

  /**
   The rows and the answer of a replan request from the revision step on. The
   lineage comes from the first read of the run, the rest of the state the parent
   is given from the second.
   */
  function Performed(runs: Runs, versions: map<string, int>, parentId: string, copy: LineageValue, a: Answers): (Outcome, Runs)
    requires parentId in runs
  {
    var first := runs[parentId];
    var stored := FreshOr(first.state, copy);
    var revised := ByOthers(runs, parentId, a.duringRevision);
    if !a.revisionValid then (RevisionInvalid, revised)
    else if !a.carriedValid then (CarriedInvalid, revised)
    else if !Granted(stored, ReplanStep) then (ReplansExhausted, revised)
    else CutOverFrom(revised, versions, parentId, first.status, ChildLineage(stored), a)
  }

  /** The second read, what others do before the commit, and the commit. */
  function CutOverFrom(
    runs: Runs, versions: map<string, int>, parentId: string, status: RunStatus, l: LineageValue, a: Answers): (Outcome, Runs)
    requires parentId in runs
  {
    var second := runs[parentId];
    var atCommit := ByOthers(runs, parentId, a.duringCutover);
    if a.childRunId in atCommit then (AlreadyReplanned(a.childRunId), atCommit)
    else
      var version := NextVersion(versions, a.planId);
      var child := Run(a.planId, version, Pending, InitialState(second.state, l, parentId, second.version, a.carriedRefs));
      (StartedChild(a.childRunId, version),
       CutOver(atCommit, a.childRunId, child, parentId, ParentStatus(status), CutoverParentState(second.state, a.childRunId, l), version))
  }

  /** Only a started child takes a version. */
  function VersionsAfter(versions: map<string, int>, planId: string, outcome: Outcome): map<string, int> {
    if outcome.StartedChild? then versions[planId := outcome.version] else versions
  }

  function WithInitializedLineage(runs: Runs, runId: string): Runs
    requires runId in runs
  {
    if GetLineage(runs[runId].state).rootRunId != "" then runs
    else runs[runId := runs[runId].(state := SetLineage(runs[runId].state, NewLineage(runId)))]
  }

  /** A run's state after its coordinator claimed, and completed what it may call. */
  function ClaimedState(state: RunState, kind: ClaimKind, key: string, completes: Option<Json>): RunState {
    var claimed := AfterClaim(state, kind, key);
    if ClaimOutcome(state, kind, key) == Claimed && completes.Some? then AfterCompletion(claimed, kind, key, completes.value)
    else claimed
  }

  /** One optional claim and, if it was granted, its optional completion. */
  function WithClaim(runs: Runs, runId: string, kind: ClaimKind, key: Option<string>, completes: Option<Json>): Runs
    requires runId in runs
  {
    if key.None? || runId == "" then runs
    else runs[runId := runs[runId].(state := ClaimedState(runs[runId].state, kind, key.value, completes))]
  }

  /** The semantic claim is only attempted while the coordinator's copy has replans left. */
  function WithSemanticClaim(runs: Runs, runId: string, copy: LineageValue, a: Answers): Runs
    requires runId in runs
  {
    if copy.usage.replansUsed >= copy.limits.maxReplans then runs
    else WithClaim(runs, runId, SemanticClaim, a.semanticKey, a.semanticCompletes)
  }

  /** The rows when the decision is made. */
  function BeforeDecision(runs: Runs, runId: string, a: Answers): Runs
    requires runId in runs
  {
    WithClaim(ByOthers(WithInitializedLineage(runs, runId), runId, a.beforeCritic), runId, CriticClaim, a.criticKey, a.criticCompletes)
  }

  /** The rows when the revision step reads the run. */
  function BeforeRevision(runs: Runs, runId: string, a: Answers): Runs
    requires runId in runs
  {
    var copy := GetLineage(WithInitializedLineage(runs, runId)[runId].state);
    var r := ByOthers(BeforeDecision(runs, runId, a), runId, a.beforeSemantic);
    ByOthers(WithSemanticClaim(r, runId, copy, a), runId, a.beforeRevision)
  }

  /** The part shared by explicit and automatic continuation, from plan loading on. */
  function Continued(runs: Runs, versions: map<string, int>, runId: string, a: Answers): (Outcome, Runs)
    requires runId in runs
  {
    if !a.planLoads then (NoPlan, runs)
    else if !a.decidesReplan then (NoReplanDecision, BeforeDecision(runs, runId, a))
    else
      var copy := GetLineage(WithInitializedLineage(runs, runId)[runId].state);
      Performed(BeforeRevision(runs, runId, a), versions, runId, copy, a)
  }

  class PlanningContinuationCoordinator {
    const repo: RunRepository

    constructor (repository: RunRepository)
      ensures repo == repository
    {
      repo := repository;
    }

    method GetOrInitLineage(runId: string) returns (l: LineageValue)
      requires runId in repo.runs
      modifies repo`runs
      ensures repo.runs == WithInitializedLineage(old(repo.runs), runId)
      ensures l == GetLineage(repo.runs[runId].state)
    {
      var run := repo.runs[runId];
      l := GetLineage(run.state);
      if l.rootRunId == "" {
        l := NewLineage(runId);
        repo.runs := repo.runs[runId := run.(state := SetLineage(run.state, l))];
      }
    }

    method ClaimAndComplete(runId: string, kind: ClaimKind, key: Option<string>, completes: Option<Json>)
      requires runId in repo.runs
      modifies repo`runs
      ensures repo.runs == WithClaim(old(repo.runs), runId, kind, key, completes)
    {
      if key.Some? {
        var result := repo.ClaimTx(runId, kind, key.value);
        if result == Claimed && completes.Some? {
          repo.CompleteTx(runId, kind, key.value, completes.value);
        }
      }
    }

    method TrySemanticReplan(runId: string, copy: LineageValue, a: Answers)
      requires runId in repo.runs
      modifies repo`runs
      ensures repo.runs == WithSemanticClaim(old(repo.runs), runId, copy, a)
    {
      if copy.usage.replansUsed >= copy.limits.maxReplans {
        return;
      }
      ClaimAndComplete(runId, SemanticClaim, a.semanticKey, a.semanticCompletes);
    }

    /** `parent` is the run as the caller holds it; its state is read again here. */
    method CreateAndExecuteChild(parentId: string, parent: Run, l: LineageValue, a: Answers) returns (outcome: Outcome)
      requires parentId in repo.runs && repo.runs[parentId].version == parent.version
      modifies repo`runs, repo`definitionVersions
      ensures outcome == CutOverFrom(old(repo.runs), old(repo.definitionVersions), parentId, parent.status, l, a).0
      ensures repo.runs == CutOverFrom(old(repo.runs), old(repo.definitionVersions), parentId, parent.status, l, a).1
      ensures repo.definitionVersions == VersionsAfter(old(repo.definitionVersions), a.planId, outcome)
    {
      var parentState := repo.runs[parentId].state;
      var childState := InitialState(parentState, l, parentId, parent.version, a.carriedRefs);
      var child := Run(a.planId, parent.version + 1, Pending, childState);
      var newParentState := parentState;
      newParentState := newParentState.(replannedToRunId := a.childRunId);
      newParentState := newParentState.(terminationReason := "replanned");
      newParentState := newParentState.(executionLineage := Some(ToDict(l)));
      var status := if parent.status == Rejected then Rejected else Failed;
      repo.OthersWork(parentId, a.duringCutover);
      var version := repo.CreateChildContinuationTx(a.childRunId, child, parentId, status, newParentState);
      outcome := if version.Some? then StartedChild(a.childRunId, version.value) else AlreadyReplanned(a.childRunId);
    }

    method PerformReplan(parentId: string, copy: LineageValue, a: Answers) returns (outcome: Outcome)
      requires parentId in repo.runs
      modifies repo`runs, repo`definitionVersions
      ensures outcome == Performed(old(repo.runs), old(repo.definitionVersions), parentId, copy, a).0
      ensures repo.runs == Performed(old(repo.runs), old(repo.definitionVersions), parentId, copy, a).1
      ensures repo.definitionVersions == VersionsAfter(old(repo.definitionVersions), a.planId, outcome)
    {
      var parent := repo.runs[parentId];
      var stored := GetLineage(parent.state);
      if stored.rootRunId == "" {
        stored := copy;
      }
      repo.OthersWork(parentId, a.duringRevision);
      if !a.revisionValid {
        return RevisionInvalid;
      }
      if !a.carriedValid {
        return CarriedInvalid;
      }
      var lineage := new ExecutionLineage.FromValue(stored);
      var ok := lineage.TryReserveReplan();
      if !ok {
        return ReplansExhausted;
      }
      var reserved := LineageValue(lineage.rootRunId, lineage.limits, lineage.usage, lineage.loopGuard,
                                   lineage.rejectionConstraints, lineage.policyDenyConstraints, lineage.activeSegmentStart);
      assert reserved == lineage.View() == After(stored, ReplanStep);
      outcome := CreateAndExecuteChild(parentId, parent, Inherit(reserved), a);
    }

    method Continue(runId: string, a: Answers) returns (outcome: Outcome)
      requires runId in repo.runs
      modifies repo`runs, repo`definitionVersions
      ensures outcome == Continued(old(repo.runs), old(repo.definitionVersions), runId, a).0
      ensures repo.runs == Continued(old(repo.runs), old(repo.definitionVersions), runId, a).1
      ensures repo.definitionVersions == VersionsAfter(old(repo.definitionVersions), a.planId, outcome)
    {
      if !a.planLoads {
        return NoPlan;
      }
      var copy := GetOrInitLineage(runId);
      repo.OthersWork(runId, a.beforeCritic);
      ClaimAndComplete(runId, CriticClaim, a.criticKey, a.criticCompletes);
      if !a.decidesReplan {
        return NoReplanDecision;
      }
      repo.OthersWork(runId, a.beforeSemantic);
      TrySemanticReplan(runId, copy, a);
      repo.OthersWork(runId, a.beforeRevision);
      outcome := PerformReplan(runId, copy, a);
    }

    /** A run that was already replanned answers with its child and changes nothing. */
    method ExplicitReplan(runId: string, a: Answers) returns (outcome: Outcome)
      modifies repo`runs, repo`definitionVersions
      ensures runId !in old(repo.runs) ==> outcome == RunNotFound && repo.runs == old(repo.runs)
      ensures runId in old(repo.runs) && old(repo.runs)[runId].state.replannedToRunId != "" ==>
                outcome == AlreadyReplanned(old(repo.runs)[runId].state.replannedToRunId) && repo.runs == old(repo.runs)
      ensures runId in old(repo.runs) && old(repo.runs)[runId].state.replannedToRunId == "" ==>
                && outcome == Continued(old(repo.runs), old(repo.definitionVersions), runId, a).0
                && repo.runs == Continued(old(repo.runs), old(repo.definitionVersions), runId, a).1
      ensures repo.definitionVersions == VersionsAfter(old(repo.definitionVersions), a.planId, outcome)
    {
      if runId !in repo.runs {
        return RunNotFound;
      }
      var existing := repo.runs[runId].state.replannedToRunId;
      if existing != "" {
        return AlreadyReplanned(existing);
      }
      outcome := Continue(runId, a);
    }

    /** Only machine failures continue by themselves; an earlier replan of the run does not stop it. */
    method AutoContinue(runId: string, a: Answers) returns (outcome: Outcome)
      modifies repo`runs, repo`definitionVersions
      ensures runId !in old(repo.runs) ==> outcome == RunNotFound && repo.runs == old(repo.runs)
      ensures runId in old(repo.runs) && old(repo.runs)[runId].status != Failed ==>
                outcome == NotEligibleStatus && repo.runs == old(repo.runs)
      ensures runId in old(repo.runs) && old(repo.runs)[runId].status == Failed ==>
                && outcome == Continued(old(repo.runs), old(repo.definitionVersions), runId, a).0
                && repo.runs == Continued(old(repo.runs), old(repo.definitionVersions), runId, a).1
      ensures repo.definitionVersions == VersionsAfter(old(repo.definitionVersions), a.planId, outcome)
    {
      if runId !in repo.runs {
        return RunNotFound;
      }
      if repo.runs[runId].status != Failed {
        return NotEligibleStatus;
      }
      outcome := Continue(runId, a);
    }
  }

  // ---- what a cutover keeps ------------------------------------------------------

  /** The parts of a run's state that no claim, completion or reservation touches. */
  predicate SameRest(s: RunState, t: RunState) {
    && t.other == s.other && t.inherited == s.inherited && t.carriedForwardResultRefs == s.carriedForwardResultRefs
    && t.replannedFromRunId == s.replannedFromRunId && t.replannedFromVersion == s.replannedFromVersion
    && t.replannedToRunId == s.replannedToRunId && t.replannedToVersion == s.replannedToVersion
    && t.terminationReason == s.terminationReason
  }

  lemma ClaimKeepsTheRest(state: RunState, kind: ClaimKind, key: string)
    ensures SameRest(state, AfterClaim(state, kind, key))
  {
    if ClaimOutcome(state, kind, key) != Claimed {
      RefusedClaimChangesNothing(state, kind, key);
    } else if kind == CriticClaim {
      CriticClaimCharges(state, key);
    } else if kind == SemanticClaim {
      SemanticClaimCharges(state, key);
    } else {
      AssessmentClaimCharges(state, key);
    }
  }

  lemma CompletionKeepsTheRest(state: RunState, kind: ClaimKind, key: string, result: Json)
    ensures SameRest(state, AfterCompletion(state, kind, key, result))
  {
  }

  lemma ReservationKeepsTheRest(state: RunState, op: Op)
    ensures SameRest(state, AfterEvent(state, Reserve(op)))
  {
  }

  lemma EventKeepsTheRest(state: RunState, e: Event)
    ensures SameRest(state, AfterEvent(state, e))
  {
    match e
    case Claim(kind, key) => ClaimKeepsTheRest(state, kind, key);
    case Complete(kind, key, result) => CompletionKeepsTheRest(state, kind, key, result);
    case Reserve(op) => ReservationKeepsTheRest(state, op);
  }

  /** What others do leaves everything but the budget and the registries alone. */
  lemma {:induction false} EventsKeepTheRest(state: RunState, es: seq<Event>)
    ensures SameRest(state, AfterEvents(state, es))
  {
    if es != [] {
      EventsKeepTheRest(state, Init(es));
      EventKeepsTheRest(AfterEvents(state, Init(es)), Last(es));
    }
  }

  /** The rows a commit leaves. */
  lemma CutOverRows(runs: Runs, childId: string, child: Run, parentId: string, status: RunStatus, state: RunState, version: int)
    requires parentId in runs && childId !in runs
    ensures var later := CutOver(runs, childId, child, parentId, status, state, version);
            && later.Keys == runs.Keys + {childId}
            && later[childId] == child.(version := version)
            && later[parentId].state == state.(replannedToVersion := version)
            && (forall r | r in runs && r != parentId :: later[r] == runs[r])
  {
  }

  lemma CommittedRows(runs: Runs, versions: map<string, int>, parentId: string, status: RunStatus, l: LineageValue, a: Answers)
    requires parentId in runs && CutOverFrom(runs, versions, parentId, status, l, a).0.StartedChild?
    ensures var second := runs[parentId];
            var (outcome, later) := CutOverFrom(runs, versions, parentId, status, l, a);
            && a.childRunId !in runs && later.Keys == runs.Keys + {a.childRunId}
            && later[a.childRunId].state == InitialState(second.state, l, parentId, second.version, a.carriedRefs)
            && later[parentId].state == CutoverParentState(second.state, a.childRunId, l).(replannedToVersion := outcome.version)
            && (forall r | r in runs && r != parentId :: later[r] == runs[r])
  {
    var second, version := runs[parentId], NextVersion(versions, a.planId);
    var child := Run(a.planId, version, Pending, InitialState(second.state, l, parentId, second.version, a.carriedRefs));
    CutOverRows(ByOthers(runs, parentId, a.duringCutover), a.childRunId, child, parentId,
                ParentStatus(status), CutoverParentState(second.state, a.childRunId, l), version);
  }

  /**
   A cutover hands on the usage stored at its first read with one more replan, to
   child and parent alike; the parent keeps the registries of the second read and
   every other key of its state, and no other run changes.
   */
  lemma CutoverKeepsStoredState(runs: Runs, versions: map<string, int>, parentId: string, copy: LineageValue, a: Answers)
    requires parentId in runs && Performed(runs, versions, parentId, copy, a).0.StartedChild?
    requires GetLineage(runs[parentId].state).rootRunId != ""
    ensures var before := GetLineage(runs[parentId].state);
            var second := AfterEvents(runs[parentId].state, a.duringRevision);
            var later := Performed(runs, versions, parentId, copy, a).1;
            && later.Keys == runs.Keys + {a.childRunId} && a.childRunId !in runs
            && GetLineage(later[a.childRunId].state)
               == before.(usage := before.usage.(replansUsed := before.usage.replansUsed + 1), activeSegmentStart := None)
            && GetLineage(later[parentId].state) == GetLineage(later[a.childRunId].state)
            && later[parentId].state.replannedToRunId == a.childRunId
            && later[a.childRunId].state.replannedFromRunId == parentId
            && (forall kind :: Registry(later[parentId].state, kind) == Registry(second, kind))
            && later[parentId].state.other == runs[parentId].state.other
            && (forall r | r in runs && r != parentId :: later[r] == runs[r])
  {
    EventsKeepTheRest(runs[parentId].state, a.duringRevision);
    var l := ChildLineage(GetLineage(runs[parentId].state));
    CommittedRows(ByOthers(runs, parentId, a.duringRevision), versions, parentId, runs[parentId].status, l, a);
    LineageRoundTrip(runs[parentId].state, l);
  }

  /** The row of a child: what the parent's second read and the cutover give it, and nothing of its own yet. */
  lemma ChildStartsFromParent(runs: Runs, versions: map<string, int>, parentId: string, copy: LineageValue, a: Answers)
    requires parentId in runs && Performed(runs, versions, parentId, copy, a).0.StartedChild?
    ensures var (outcome, later) := Performed(runs, versions, parentId, copy, a);
            && a.childRunId in later && outcome.child == a.childRunId
            && outcome.version == (if a.planId in versions then versions[a.planId] else 0) + 1
            && var child := later[a.childRunId];
            && child.definitionId == a.planId && child.version == outcome.version && child.status == Pending
            && child.state.carriedForwardResultRefs == a.carriedRefs && child.state.inherited == runs[parentId].state.inherited
            && child.state.replannedFromRunId == parentId && child.state.replannedFromVersion == runs[parentId].version
            && child.state.criticInvocations == child.state.semanticReplanInvocations == child.state.assessment == map[]
            && child.state.replannedToRunId == child.state.terminationReason == "" && child.state.replannedToVersion == 0
            && child.state.other == map[]
  {
    EventsKeepTheRest(runs[parentId].state, a.duringRevision);
    var l := ChildLineage(FreshOr(runs[parentId].state, copy));
    CommittedRows(ByOthers(runs, parentId, a.duringRevision), versions, parentId, runs[parentId].status, l, a);
  }

  /**
   The row of the parent: rejected if it was rejected and failed otherwise, replanned to
   the child and its version; the rest of the state as the second read found it.
   */
  lemma ParentPointsToChild(runs: Runs, versions: map<string, int>, parentId: string, copy: LineageValue, a: Answers)
    requires parentId in runs && Performed(runs, versions, parentId, copy, a).0.StartedChild?
    ensures var (outcome, later) := Performed(runs, versions, parentId, copy, a);
            && parentId in later
            && var parent, was := later[parentId], runs[parentId];
            && parent.status == (if was.status == Rejected then Rejected else Failed)
            && parent.definitionId == was.definitionId && parent.version == was.version
            && parent.state.replannedToRunId == a.childRunId && parent.state.replannedToVersion == outcome.version
            && parent.state.terminationReason == "replanned"
            && parent.state.inherited == was.state.inherited && parent.state.other == was.state.other
            && parent.state.carriedForwardResultRefs == was.state.carriedForwardResultRefs
            && parent.state.replannedFromRunId == was.state.replannedFromRunId
            && parent.state.replannedFromVersion == was.state.replannedFromVersion
  {
    EventsKeepTheRest(runs[parentId].state, a.duringRevision);
    var l := ChildLineage(FreshOr(runs[parentId].state, copy));
    CommittedRows(ByOthers(runs, parentId, a.duringRevision), versions, parentId, runs[parentId].status, l, a);
  }

  /** The answers of a replan, in the order the request is checked: revision, carried results, budget, id. */
  lemma ReplanIsAnsweredIff(runs: Runs, versions: map<string, int>, parentId: string, copy: LineageValue, a: Answers)
    requires parentId in runs
    ensures var outcome := Performed(runs, versions, parentId, copy, a).0;
            var stored := GetLineage(runs[parentId].state);
            var l := if stored.rootRunId == "" then copy else stored;
            var left := l.usage.replansUsed < l.limits.maxReplans;
            && (outcome == RevisionInvalid <==> !a.revisionValid)
            && (outcome == CarriedInvalid <==> a.revisionValid && !a.carriedValid)
            && (outcome == ReplansExhausted <==> a.revisionValid && a.carriedValid && !left)
            && (outcome == AlreadyReplanned(a.childRunId) <==> a.revisionValid && a.carriedValid && left && a.childRunId in runs)
            && (outcome.StartedChild? <==> a.revisionValid && a.carriedValid && left && a.childRunId !in runs)
  {
  }

  /** Without a child nothing is stored but what others store. */
  lemma RefusedReplanStoresNothing(runs: Runs, versions: map<string, int>, parentId: string, copy: LineageValue, a: Answers)
    requires parentId in runs && !Performed(runs, versions, parentId, copy, a).0.StartedChild?
    ensures var (outcome, later) := Performed(runs, versions, parentId, copy, a);
            var revised := ByOthers(runs, parentId, a.duringRevision);
            later == if outcome.AlreadyReplanned? then ByOthers(revised, parentId, a.duringCutover) else revised
  {
  }

  /** Before that, a request ends for want of a plan or of a decision to replan; only then it may charge anything. */
  lemma RequestEndsEarlyIff(runs: Runs, versions: map<string, int>, runId: string, a: Answers)
    requires runId in runs
    ensures var (outcome, later) := Continued(runs, versions, runId, a);
            && (outcome == NoPlan <==> !a.planLoads)
            && (outcome == NoPlan ==> later == runs)
            && (outcome == NoReplanDecision <==> a.planLoads && !a.decidesReplan)
  {
  }

  /** A run without a lineage becomes a root of its own, with nothing used; any other keeps the lineage it has. */
  lemma RequestRootsRun(runs: Runs, runId: string)
    requires runId in runs
    ensures var later := WithInitializedLineage(runs, runId);
            && later.Keys == runs.Keys && (forall r | r in runs && r != runId :: later[r] == runs[r])
            && (GetLineage(runs[runId].state).rootRunId != "" ==> later[runId] == runs[runId])
            && (GetLineage(runs[runId].state).rootRunId == "" ==>
                  && later[runId].(state := runs[runId].state) == runs[runId]
                  && later[runId].state.(executionLineage := None) == runs[runId].state.(executionLineage := None)
                  && GetLineage(later[runId].state)
                     == LineageValue(runId, Limits(100, 3, 2, 5, 5, 3, 1, 300), Usage(0, 0, 0, 0, 0, 0, 0, 0.0), map[], [], [], None))
  {
    LineageRoundTrip(runs[runId].state, NewLineage(runId));
  }

  // ---- what a whole replan request does to the budget ---------------------------

  /** A claim and its completion, as steps on the run. */
  function ClaimEvents(state: RunState, kind: ClaimKind, key: Option<string>, completes: Option<Json>): seq<Event> {
    if key.None? then []
    else if ClaimOutcome(state, kind, key.value) == Claimed && completes.Some?
    then [Claim(kind, key.value), Complete(kind, key.value, completes.value)]
    else [Claim(kind, key.value)]
  }

  /** The semantic claim, unless the request started without replans left. */
  function SemanticEvents(start: RunState, state: RunState, a: Answers): seq<Event> {
    if GetLineage(start).usage.replansUsed >= GetLineage(start).limits.maxReplans then []
    else ClaimEvents(state, SemanticClaim, a.semanticKey, a.semanticCompletes)
  }

  /** Everything that happens to the run from the start of a request to the read of the revision step, in order. */
  function RequestEvents(start: RunState, a: Answers): seq<Event> {
    var before := a.beforeCritic;
    var withCritic := before + ClaimEvents(AfterEvents(start, before), CriticClaim, a.criticKey, a.criticCompletes);
    var decided := withCritic + a.beforeSemantic;
    decided + SemanticEvents(start, AfterEvents(start, decided), a) + a.beforeRevision
  }

  ghost predicate OthersAreDurable(a: Answers) {
    forall e | e in a.beforeCritic || e in a.beforeSemantic || e in a.beforeRevision :: IsDurable(e)
  }

  lemma RequestEventsAreDurable(start: RunState, a: Answers)
    requires OthersAreDurable(a)
    ensures forall e | e in RequestEvents(start, a) :: IsDurable(e)
  {
  }

  lemma ClaimIsEvents(runs: Runs, runId: string, kind: ClaimKind, key: Option<string>, completes: Option<Json>)
    requires runId in runs && runId != ""
    ensures WithClaim(runs, runId, kind, key, completes)
         == ByOthers(runs, runId, ClaimEvents(runs[runId].state, kind, key, completes))
  {
    var state := runs[runId].state;
    if key.Some? {
      var claim := Claim(kind, key.value);
      assert Init([claim]) == [] && AfterEvents(state, []) == state && AfterEvents(state, [claim]) == AfterEvent(state, claim);
      if completes.Some? {
        var complete := Complete(kind, key.value, completes.value);
        assert Init([claim, complete]) == [claim];
      }
    }
  }

  lemma ByOthersChain(runs: Runs, runId: string, es: seq<Event>, fs: seq<Event>)
    requires runId in runs
    ensures ByOthers(ByOthers(runs, runId, es), runId, fs) == ByOthers(runs, runId, es + fs)
  {
    EventsAppend(runs[runId].state, es, fs);
  }

  lemma SemanticIsEvents(runs: Runs, runId: string, start: RunState, a: Answers)
    requires runId in runs && runId != ""
    ensures WithSemanticClaim(runs, runId, GetLineage(start), a)
         == ByOthers(runs, runId, SemanticEvents(start, runs[runId].state, a))
  {
    ClaimIsEvents(runs, runId, SemanticClaim, a.semanticKey, a.semanticCompletes);
    assert AfterEvents(runs[runId].state, []) == runs[runId].state;
  }

  /** Up to the read of the revision step a request is one series of steps on its run. */
  lemma RequestIsEvents(runs: Runs, runId: string, a: Answers)
    requires runId in runs && runId != ""
    ensures var r := WithInitializedLineage(runs, runId);
            BeforeRevision(runs, runId, a) == ByOthers(r, runId, RequestEvents(r[runId].state, a))
  {
    var r := WithInitializedLineage(runs, runId);
    var start := r[runId].state;
    var before := a.beforeCritic;
    ClaimIsEvents(ByOthers(r, runId, before), runId, CriticClaim, a.criticKey, a.criticCompletes);
    var critic := ClaimEvents(AfterEvents(start, before), CriticClaim, a.criticKey, a.criticCompletes);
    ByOthersChain(r, runId, before, critic);
    ByOthersChain(r, runId, before + critic, a.beforeSemantic);
    var decided := before + critic + a.beforeSemantic;
    SemanticIsEvents(ByOthers(r, runId, decided), runId, start, a);
    var semantic := SemanticEvents(start, AfterEvents(start, decided), a);
    ByOthersChain(r, runId, decided, semantic);
    ByOthersChain(r, runId, decided + semantic, a.beforeRevision);
  }

  lemma LineageInitialized(runs: Runs, runId: string)
    requires runId in runs && runId != ""
    ensures GetLineage(WithInitializedLineage(runs, runId)[runId].state).rootRunId != ""
  {
    LineageRoundTrip(runs[runId].state, NewLineage(runId));
  }

  /** No step of others takes the root away, changes the limits or spends a replan. */
  lemma {:induction false} EventsKeepRoot(state: RunState, es: seq<Event>)
    requires forall e | e in es :: IsDurable(e)
    ensures var l, m := GetLineage(state), GetLineage(AfterEvents(state, es));
            m.rootRunId == l.rootRunId && m.limits == l.limits && m.usage.replansUsed == l.usage.replansUsed
  {
    if es != [] {
      EventsKeepRoot(state, Init(es));
      assert Last(es) in es;
      EventKeepsRoot(AfterEvents(state, Init(es)), Last(es));
    }
  }

  lemma EventKeepsRoot(state: RunState, e: Event)
    requires IsDurable(e)
    ensures var l, m := GetLineage(state), GetLineage(AfterEvent(state, e));
            m.rootRunId == l.rootRunId && m.limits == l.limits && m.usage.replansUsed == l.usage.replansUsed
  {
    if e.Claim? {
      ClaimCharges(state, e.kind, e.key);
    } else if e.Complete? {
      CompletionSpendsNothing(state, e.kind, e.key, e.result);
    } else if Spends(state, e) {
      LineageRoundTrip(state, After(GetLineage(state), e.op));
    }
  }

  /**
   Over a whole request the stale copy plays no part: child and parent get exactly
   what was stored at the start, charged for every claim of the request and for
   everything others spent until the revision step read the run, with one more replan.
   */
  lemma ReplanChargesExactly(runs: Runs, versions: map<string, int>, runId: string, a: Answers)
    requires runId in runs && runId != "" && OthersAreDurable(a) && Continued(runs, versions, runId, a).0.StartedChild?
    ensures a.childRunId in Continued(runs, versions, runId, a).1 && runId in Continued(runs, versions, runId, a).1
    ensures var start := WithInitializedLineage(runs, runId)[runId].state;
            var es := RequestEvents(start, a);
            var later := Continued(runs, versions, runId, a).1;
            var given := GetLineage(later[a.childRunId].state);
            && given == ChildLineage(GetLineage(AfterEvents(start, es))) == GetLineage(later[runId].state)
            && Spent(given.usage) == Spent(GetLineage(start).usage) + SpendCount(start, es)
            && given.usage.replansUsed == GetLineage(start).usage.replansUsed + 1
  {
    var start := WithInitializedLineage(runs, runId)[runId].state;
    var es := RequestEvents(start, a);
    RequestIsEvents(runs, runId, a);
    LineageInitialized(runs, runId);
    RequestEventsAreDurable(start, a);
    EventsKeepRoot(start, es);
    EventsSpend(start, es);
    CutoverKeepsStoredState(BeforeRevision(runs, runId, a), versions, runId, GetLineage(start), a);
  }

  lemma ClaimEventsEnd(state: RunState, kind: ClaimKind, key: string, completes: Option<Json>)
    ensures var claimed := AfterClaim(state, kind, key);
            AfterEvents(state, ClaimEvents(state, kind, Some(key), completes))
            == if ClaimOutcome(state, kind, key) == Claimed && completes.Some?
               then AfterCompletion(claimed, kind, key, completes.value) else claimed
  {
    var claim := Claim(kind, key);
    assert Init([claim]) == [] && AfterEvents(state, []) == state && AfterEvents(state, [claim]) == AfterEvent(state, claim);
    if completes.Some? {
      var complete := Complete(kind, key, completes.value);
      assert Init([claim, complete]) == [claim];
    }
  }

  lemma ClaimEventsCharge(state: RunState, kind: ClaimKind, key: Option<string>, completes: Option<Json>)
    ensures var l := GetLineage(state);
            GetLineage(AfterEvents(state, ClaimEvents(state, kind, key, completes)))
            == if key.Some? && ClaimOutcome(state, kind, key.value) == Claimed then l.(usage := Charged(l.usage, kind)) else l
  {
    if key.Some? {
      ClaimEventsEnd(state, kind, key.value, completes);
      ClaimCharges(state, kind, key.value);
      if completes.Some? {
        CompletionSpendsNothing(AfterClaim(state, kind, key.value), kind, key.value, completes.value);
      }
    }
  }

  lemma CriticKeepsSemanticKeys(state: RunState, key: Option<string>, completes: Option<Json>)
    ensures AfterEvents(state, ClaimEvents(state, CriticClaim, key, completes)).semanticReplanInvocations == state.semanticReplanInvocations
  {
    if key.Some? {
      ClaimEventsEnd(state, CriticClaim, key.value, completes);
    }
  }

  lemma UndisturbedEvents(start: RunState, a: Answers)
    requires a.beforeCritic == a.beforeSemantic == a.beforeRevision == []
    ensures var critic := ClaimEvents(start, CriticClaim, a.criticKey, a.criticCompletes);
            RequestEvents(start, a) == critic + SemanticEvents(start, AfterEvents(start, critic), a)
  {
    var critic := ClaimEvents(start, CriticClaim, a.criticKey, a.criticCompletes);
    assert [] + critic == critic && critic + [] == critic && AfterEvents(start, []) == start;
  }

  /** One if an optional claim of a kind is granted: its key is new and the budget allows it. */
  function OneIfGranted(state: RunState, kind: ClaimKind, key: Option<string>): int {
    if key.Some? && ClaimOutcome(state, kind, key.value) == Claimed then 1 else 0
  }

  function WithCalls(l: LineageValue, llm: int, critic: int): LineageValue {
    l.(usage := l.usage.(llmCallsUsed := l.usage.llmCallsUsed + llm, criticCallsUsed := l.usage.criticCallsUsed + critic))
  }

  lemma TwoClaimsCharge(start: RunState, a: Answers)
    ensures var after := AfterEvents(start, ClaimEvents(start, CriticClaim, a.criticKey, a.criticCompletes));
            var l := GetLineage(start);
            var critic := OneIfGranted(start, CriticClaim, a.criticKey);
            var semantic := if l.usage.replansUsed < l.limits.maxReplans then OneIfGranted(after, SemanticClaim, a.semanticKey) else 0;
            && GetLineage(after) == WithCalls(l, critic, critic)
            && GetLineage(AfterEvents(after, SemanticEvents(start, after, a)))
               == WithCalls(l, critic + semantic, critic)
  {
    var after := AfterEvents(start, ClaimEvents(start, CriticClaim, a.criticKey, a.criticCompletes));
    ClaimEventsCharge(start, CriticClaim, a.criticKey, a.criticCompletes);
    ClaimEventsCharge(after, SemanticClaim, a.semanticKey, a.semanticCompletes);
    assert AfterEvents(after, []) == after;
  }

  lemma GrantedIffNewAndAffordable(state: RunState, kind: ClaimKind, key: Option<string>)
    requires kind != AssessmentClaim
    ensures var u, m := GetLineage(state).usage, GetLineage(state).limits;
            OneIfGranted(state, kind, key)
            == if key.Some? && key.value != "" && key.value !in Registry(state, kind) && u.llmCallsUsed < m.maxLlmCalls
                  && (kind == CriticClaim ==> u.criticCallsUsed < m.maxCriticCalls) then 1 else 0
  {
    if key.Some? && key.value != "" && key.value !in Registry(state, kind) {
      NewClaimIsRefusedIff(state, kind, key.value);
    }
  }

  lemma ReplanAddsOne(l: LineageValue, before: int)
    requires l.usage.replansUsed == before && ChildLineage(l).usage.replansUsed == before + 1
    ensures ChildLineage(l).usage == l.usage.(replansUsed := before + 1)
  {
  }

  lemma GivenUsage(runs: Runs, versions: map<string, int>, runId: string, a: Answers)
    requires runId in runs && runId != "" && OthersAreDurable(a) && Continued(runs, versions, runId, a).0.StartedChild?
    ensures a.childRunId in Continued(runs, versions, runId, a).1
    ensures var start := WithInitializedLineage(runs, runId)[runId].state;
            var charged := GetLineage(AfterEvents(start, RequestEvents(start, a))).usage;
            GetLineage(Continued(runs, versions, runId, a).1[a.childRunId].state).usage
            == charged.(replansUsed := charged.replansUsed + 1)
  {
    var start := WithInitializedLineage(runs, runId)[runId].state;
    ReplanChargesExactly(runs, versions, runId, a);
    RequestEventsAreDurable(start, a);
    EventsKeepRoot(start, RequestEvents(start, a));
    ReplanAddsOne(GetLineage(AfterEvents(start, RequestEvents(start, a))), GetLineage(start).usage.replansUsed);
  }

  lemma UndisturbedGives(runs: Runs, versions: map<string, int>, runId: string, a: Answers)
    requires runId in runs && runId != "" && a.beforeCritic == a.beforeSemantic == a.beforeRevision == []
    requires Continued(runs, versions, runId, a).0.StartedChild?
    ensures a.childRunId in Continued(runs, versions, runId, a).1
    ensures var start := WithInitializedLineage(runs, runId)[runId].state;
            var after := AfterEvents(start, ClaimEvents(start, CriticClaim, a.criticKey, a.criticCompletes));
            var charged := GetLineage(AfterEvents(after, SemanticEvents(start, after, a))).usage;
            GetLineage(Continued(runs, versions, runId, a).1[a.childRunId].state).usage
            == charged.(replansUsed := charged.replansUsed + 1)
  {
    var start := WithInitializedLineage(runs, runId)[runId].state;
    var critic := ClaimEvents(start, CriticClaim, a.criticKey, a.criticCompletes);
    UndisturbedEvents(start, a);
    GivenUsage(runs, versions, runId, a);
    EventsAppend(start, critic, SemanticEvents(start, AfterEvents(start, critic), a));
  }

  /**
   A request that nobody disturbs charges its own claims and no more: the critic call if
   its key is new and affordable, then the semantic call if its key is new, a replan was
   left at the start, and the critic did not take the last call.
   */
  lemma UndisturbedRequestCharges(runs: Runs, versions: map<string, int>, runId: string, a: Answers)
    requires runId in runs && runId != "" && a.beforeCritic == a.beforeSemantic == a.beforeRevision == []
    requires Continued(runs, versions, runId, a).0.StartedChild?
    ensures a.childRunId in Continued(runs, versions, runId, a).1
    ensures var start := WithInitializedLineage(runs, runId)[runId].state;
            var u, m := GetLineage(start).usage, GetLineage(start).limits;
            var v := GetLineage(Continued(runs, versions, runId, a).1[a.childRunId].state).usage;
            var critic := if a.criticKey.Some? && a.criticKey.value != "" && a.criticKey.value !in start.criticInvocations
                             && u.llmCallsUsed < m.maxLlmCalls && u.criticCallsUsed < m.maxCriticCalls then 1 else 0;
            var semantic := if a.semanticKey.Some? && a.semanticKey.value != ""
                               && a.semanticKey.value !in start.semanticReplanInvocations
                               && u.replansUsed < m.maxReplans && u.llmCallsUsed + critic < m.maxLlmCalls then 1 else 0;
            v == u.(llmCallsUsed := u.llmCallsUsed + critic + semantic, criticCallsUsed := u.criticCallsUsed + critic,
                    replansUsed := u.replansUsed + 1)
  {
    UndisturbedGives(runs, versions, runId, a);
    UndisturbedCharges(WithInitializedLineage(runs, runId)[runId].state, a);
  }

  lemma UndisturbedCharges(start: RunState, a: Answers)
    ensures var critic := OneIfGranted(start, CriticClaim, a.criticKey);
            var after := AfterEvents(start, ClaimEvents(start, CriticClaim, a.criticKey, a.criticCompletes));
            var l := GetLineage(start);
            var semantic := if a.semanticKey.Some? && a.semanticKey.value != ""
                               && a.semanticKey.value !in start.semanticReplanInvocations
                               && l.usage.replansUsed < l.limits.maxReplans
                               && l.usage.llmCallsUsed + critic < l.limits.maxLlmCalls then 1 else 0;
            && GetLineage(AfterEvents(after, SemanticEvents(start, after, a)))
               == WithCalls(l, critic + semantic, critic)
            && critic == (if a.criticKey.Some? && a.criticKey.value != "" && a.criticKey.value !in start.criticInvocations
                             && l.usage.llmCallsUsed < l.limits.maxLlmCalls
                             && l.usage.criticCallsUsed < l.limits.maxCriticCalls then 1 else 0)
  {
    var after := AfterEvents(start, ClaimEvents(start, CriticClaim, a.criticKey, a.criticCompletes));
    TwoClaimsCharge(start, a);
    CriticKeepsSemanticKeys(start, a.criticKey, a.criticCompletes);
    GrantedIffNewAndAffordable(start, CriticClaim, a.criticKey);
    GrantedIffNewAndAffordable(after, SemanticClaim, a.semanticKey);
  }

  // ---- what others do while a cutover is under way ---------------------------------

  /** The run's states around a cutover: at its first read, at its second, at the commit, and after it. */
  datatype Stages = Stages(first: RunState, second: RunState, atCommit: RunState, later: RunState, child: RunState)

  ghost predicate CutsOver(runs: Runs, versions: map<string, int>, parentId: string, copy: LineageValue, a: Answers, c: Stages) {
    && parentId in runs
    && Performed(runs, versions, parentId, copy, a).0.StartedChild?
    && GetLineage(runs[parentId].state).rootRunId != ""
    && (forall e | e in a.duringRevision + a.duringCutover :: IsDurable(e))
    && c.first == runs[parentId].state
    && c.second == AfterEvents(c.first, a.duringRevision)
    && c.atCommit == AfterEvents(c.second, a.duringCutover)
    && parentId in Performed(runs, versions, parentId, copy, a).1
    && c.later == Performed(runs, versions, parentId, copy, a).1[parentId].state
    && a.childRunId in Performed(runs, versions, parentId, copy, a).1
    && c.child == Performed(runs, versions, parentId, copy, a).1[a.childRunId].state
  }

  /** What the rest of this section needs to know of a cutover. */
  lemma CutoverStates(runs: Runs, versions: map<string, int>, parentId: string, copy: LineageValue, a: Answers, c: Stages)
    requires CutsOver(runs, versions, parentId, copy, a, c)
    ensures GetLineage(c.child) == ChildLineage(GetLineage(c.first)) && GetLineage(c.later) == GetLineage(c.child)
    ensures Granted(GetLineage(c.first), ReplanStep)
    ensures forall kind :: Registry(c.later, kind) == Registry(c.second, kind)
    ensures c.atCommit == AfterEvents(c.first, a.duringRevision + a.duringCutover)
  {
    CutoverKeepsStoredState(runs, versions, parentId, copy, a);
    EventsAppend(c.first, a.duringRevision, a.duringCutover);
  }

  /** The usage handed on is that of the commit, one replan apart, exactly when nobody spent since the first read. */
  lemma NoClaimLostIffNoneInWindow(runs: Runs, versions: map<string, int>, parentId: string, copy: LineageValue, a: Answers, c: Stages)
    requires CutsOver(runs, versions, parentId, copy, a, c)
    ensures var atCommit := GetLineage(c.atCommit).usage;
            GetLineage(c.child).usage == atCommit.(replansUsed := atCommit.replansUsed + 1)
            <==> SpendCount(c.first, a.duringRevision + a.duringCutover) == 0
  {
    CutoverStates(runs, versions, parentId, copy, a, c);
    EventsSpend(c.first, a.duringRevision + a.duringCutover);
  }

  /**
   Of the claims granted while a cutover is under way, exactly those granted before
   its second read are still registered after it.
   */
  lemma RegistrationKeptIffBeforeSecondRead(
      runs: Runs, versions: map<string, int>, parentId: string, copy: LineageValue, a: Answers, c: Stages,
      n: nat, kind: ClaimKind, key: string)
    requires CutsOver(runs, versions, parentId, copy, a, c)
    requires GrantsAt(c.first, a.duringRevision + a.duringCutover, n, kind, key)
    ensures key in Registry(c.atCommit, kind)
    ensures key in Registry(c.later, kind) <==> n < |a.duringRevision|
  {
    CutoverStates(runs, versions, parentId, copy, a, c);
    GrantedClaimIsRegistered(c.first, a.duringRevision + a.duringCutover, n, kind, key);
    RegisteredIffEarly(c.first, a.duringRevision, a.duringCutover, n, kind, key);
  }

  /** Of the claims granted over two windows exactly those of the first are registered at its end. */
  lemma RegisteredIffEarly(state: RunState, early: seq<Event>, late: seq<Event>, n: nat, kind: ClaimKind, key: string)
    requires GrantsAt(state, early + late, n, kind, key)
    ensures key in Registry(AfterEvents(state, early), kind) <==> n < |early|
  {
    if n < |early| {
      assert (early + late)[..n] == early[..n];
      GrantedClaimIsRegistered(state, early, n, kind, key);
    } else {
      var m := n - |early|;
      assert (early + late)[..n] == early + late[..m];
      EventsAppend(state, early, late[..m]);
      GrantedClaimIsRegistered(AfterEvents(state, early), late, m, kind, key);
    }
  }

  /** A claim granted after the second read is charged to nobody and would be granted once more. */
  lemma LateClaimIsGrantedAgain(
      runs: Runs, versions: map<string, int>, parentId: string, copy: LineageValue, a: Answers, c: Stages,
      n: nat, kind: ClaimKind, key: string)
    requires CutsOver(runs, versions, parentId, copy, a, c)
    requires GrantsAt(c.first, a.duringRevision + a.duringCutover, n, kind, key) && |a.duringRevision| <= n
    ensures ClaimOutcome(c.atCommit, kind, key) != Claimed
    ensures ClaimOutcome(c.later, kind, key) == Claimed
  {
    CutoverStates(runs, versions, parentId, copy, a, c);
    RegistrationKeptIffBeforeSecondRead(runs, versions, parentId, copy, a, c, n, kind, key);
    GrantedClaimWasAffordable(c.first, a.duringRevision + a.duringCutover, n, kind, key);
  }

  /** A claim granted between the reads stays registered, yet neither budget accounts for its call. */
  lemma ClaimBetweenReadsIsLost(
      runs: Runs, versions: map<string, int>, parentId: string, copy: LineageValue, a: Answers, c: Stages,
      n: nat, kind: ClaimKind, key: string)
    requires CutsOver(runs, versions, parentId, copy, a, c)
    requires GrantsAt(c.first, a.duringRevision, n, kind, key)
    ensures key in Registry(c.later, kind) && ClaimOutcome(c.later, kind, key) != Claimed
    ensures GetLineage(c.later).usage.llmCallsUsed < GetLineage(c.atCommit).usage.llmCallsUsed
    ensures GetLineage(c.child).usage.llmCallsUsed < GetLineage(c.atCommit).usage.llmCallsUsed
  {
    CutoverStates(runs, versions, parentId, copy, a, c);
    GrantedClaimIsRegistered(c.first, a.duringRevision, n, kind, key);
    assert forall e | e in a.duringRevision :: e in a.duringRevision + a.duringCutover;
    assert forall e | e in a.duringCutover :: e in a.duringRevision + a.duringCutover;
    GrantedClaimRaisesCalls(c.first, a.duringRevision, n, kind, key);
    EventsAdvanceCalls(c.second, a.duringCutover);
  }

  lemma GrantedClaimRaisesCalls(state: RunState, es: seq<Event>, n: nat, kind: ClaimKind, key: string)
    requires (forall e | e in es :: IsDurable(e)) && GrantsAt(state, es, n, kind, key)
    ensures GetLineage(state).usage.llmCallsUsed < GetLineage(AfterEvents(state, es)).usage.llmCallsUsed
  {
    assert es == (es[..n] + [es[n]]) + es[n + 1..];
    EventsAppend(state, es[..n] + [es[n]], es[n + 1..]);
    assert Init(es[..n] + [es[n]]) == es[..n];
    assert forall e | e in es[..n] || e in es[n + 1..] :: e in es;
    EventsAdvanceCalls(state, es[..n]);
    ClaimCharges(AfterEvents(state, es[..n]), kind, key);
    EventsAdvanceCalls(AfterEvents(state, es[..n] + [es[n]]), es[n + 1..]);
  }

  // ---- a reservation that spans a cutover ----------------------------------------------

  /**
   A reservation that read the run before a cutover and saves it afterwards takes the
   cutover back, except for the child: the run is as it was read, free to be replanned,
   and whatever replan comes next starts a second child.
   */
  lemma LateSaveReopensRun(runs: Runs, versions: map<string, int>, parentId: string, copy: LineageValue, a: Answers, op: Op)
    requires parentId in runs && Performed(runs, versions, parentId, copy, a).0.StartedChild?
    requires GetLineage(runs[parentId].state).rootRunId != ""
    requires IsDurable(Reserve(op)) && Granted(GetLineage(runs[parentId].state), op)
    ensures var cut := Performed(runs, versions, parentId, copy, a).1;
            var (granted, saved) := DurableReservation(runs, parentId, op, false, cut);
            && granted && saved.Keys == runs.Keys + {a.childRunId} && saved[a.childRunId] == cut[a.childRunId]
            && saved[parentId].state.(executionLineage := None) == runs[parentId].state.(executionLineage := None)
            && GetLineage(saved[parentId].state).usage.replansUsed == GetLineage(runs[parentId].state).usage.replansUsed
            && (forall b: Answers, later: map<string, int> | b.revisionValid && b.carriedValid && b.childRunId !in saved ::
                  Performed(saved, later, parentId, copy, b).0.StartedChild?)
  {
    var cut := Performed(runs, versions, parentId, copy, a).1;
    CutoverKeepsStoredState(runs, versions, parentId, copy, a);
    GrantedReservationRow(runs, parentId, op, cut);
  }
}
