/**
 The memory write policy and gate: which candidate may be written, and what it
 does to the live item that already holds its slot.
 */
module WriteGate {
  import opened Common
  import opened Projections

  datatype MemoryType =
    | SessionGoal | StableFact | Constraint | ConfirmedDecision | UnresolvedIssue
    | UserCorrection | RunSummary | Proposal | TemporaryFact

  datatype Status = Candidate | Active | Confirmed | Rejected | Superseded | Expired

  datatype SourceType =
    | UserExplicit | FromUserCorrection | EventParser | AgentProposal | AgentFusion | HumanReview | SystemRule

  /** The dedup key as the tuple that is hashed. */
  datatype DedupKey = DedupKey(
    sessionId: string, memoryType: MemoryType, memoryKey: string, value: Fields, runId: string, messageId: string)

  datatype Item = Item(
    id: string,
    memoryType: MemoryType,
    sessionId: string,
    memoryKey: string,
    value: Fields,
    textContent: string,
    status: Status,
    confidence: real,
    authority: int,
    source: SourceType,
    runId: string,
    messageId: string,
    validUntil: Option<string>,
    supersedesId: string,
    dedupKey: Option<DedupKey>,
    eventThreadId: string,
    updatedAt: int
  )

  datatype WriteCandidate = WriteCandidate(
    memoryType: MemoryType,
    memoryKey: string,
    value: Fields,
    textContent: string,
    status: Status,
    confidence: real,
    authority: int,
    source: SourceType,
    runId: string,
    messageId: string,
    validUntil: Option<string>
  )

  predicate LiveStatus(s: Status) {
    s != Rejected && s != Superseded && s != Expired
  }

  // ---- policy --------------------------------------------------------------------

  const DYNAMIC_FIELDS: set<string> := {
    "avgSpeed", "queueLength", "duration", "weather", "signalState", "trafficFlow",
    "pedestrianCount", "laneAvailability", "accidentStatus"
  }

  const SAFE_KEY_PREFIXES: set<string> := {
    "road.", "route.", "school.", "hospital.", "intersection.", "rule.", "policy.", "decision.", "constraint.", "goal."
  }

  function LowerChar(c: char): char {
    if 'A' <= c <= 'Z' then (c as int + 32) as char else c
  }

  function Lower(s: string): string {
    seq(|s|, i requires 0 <= i < |s| => LowerChar(s[i]))
  }

  predicate Contains(s: string, part: string) {
    part <= s || (s != [] && Contains(s[1..], part))
  }

  predicate IsDynamicField(name: string) {
    exists f | f in DYNAMIC_FIELDS :: Lower(f) == Lower(name)
  }

  predicate SourceAllowed(t: MemoryType, s: SourceType) {
    match t
    case UserCorrection => s == FromUserCorrection
    case StableFact => s == UserExplicit || s == EventParser || s == AgentFusion || s == HumanReview || s == SystemRule
    case Constraint => s == UserExplicit || s == SystemRule || s == HumanReview
    case ConfirmedDecision => s == AgentFusion || s == HumanReview
    case UnresolvedIssue => s == AgentProposal || s == AgentFusion || s == UserExplicit
    case RunSummary => s == AgentFusion || s == AgentProposal
    case Proposal => s == AgentProposal
    case SessionGoal => s == UserExplicit || s == EventParser
    case TemporaryFact => s == EventParser || s == AgentProposal || s == UserExplicit
  }

  datatype Reason =
    | NoReason | SourceNotAllowed | DynamicValue | DynamicKey | UnsafeKey | NoExpiry | DynamicFieldBlocked
    | ProposalCannotBeConfirmed | FusionCannotCreate | ConfidenceTooLow
    | IdenticalContent | CorrectionSupersedes | HigherAuthority | LowerAuthorityConflict | SameAuthorityKeepExisting

  function ValidateWriteCandidate(c: WriteCandidate): Reason {
    if !SourceAllowed(c.memoryType, c.source) then SourceNotAllowed
    else if (c.memoryType == StableFact || c.memoryType == ConfirmedDecision) && exists k | k in c.value :: IsDynamicField(k) then
      DynamicValue
    else if (c.memoryType == StableFact || c.memoryType == ConfirmedDecision)
            && exists f | f in DYNAMIC_FIELDS :: Contains(Lower(c.memoryKey), Lower(f)) then
      DynamicKey
    else if (c.memoryType == StableFact || c.memoryType == ConfirmedDecision)
            && !exists p | p in SAFE_KEY_PREFIXES :: p <= c.memoryKey then
      UnsafeKey
    else if c.memoryType == TemporaryFact && (c.validUntil.None? || c.validUntil.value == "") then NoExpiry
    else NoReason
  }

  predicate ShouldSupersede(existingAuthority: int, newAuthority: int) {
    newAuthority > existingAuthority
  }

  // ---- gate -----------------------------------------------------------------------

  datatype Decision =
    | Create
    | Deduplicated(reason: Reason, existing: Item)
    | Supersede(reason: Reason, existing: Item)
    | Reject(reason: Reason)

  function SourceBasedRules(c: WriteCandidate): Reason {
    if c.source == AgentProposal && c.status == Confirmed then ProposalCannotBeConfirmed
    else if c.source == AgentFusion && c.memoryType != RunSummary && c.memoryType != Proposal && c.memoryType != UnresolvedIssue then
      FusionCannotCreate
    else if c.source == EventParser && c.confidence < 0.3 then ConfidenceTooLow
    else NoReason
  }

  predicate SameSlot(c: WriteCandidate, item: Item) {
    item.memoryKey == c.memoryKey && item.memoryType == c.memoryType
  }

  /** Scans the existing items; the first one in the candidate's slot decides. */
  function CheckConflicts(c: WriteCandidate, existing: seq<Item>): Decision {
    if existing == [] then Create
    else
      var e := existing[0];
      if !SameSlot(c, e) then CheckConflicts(c, existing[1..])
      else if e.value == c.value then Deduplicated(IdenticalContent, e)
      else if c.source == FromUserCorrection then Supersede(CorrectionSupersedes, e)
      else if c.authority > e.authority && ShouldSupersede(e.authority, c.authority) then Supersede(HigherAuthority, e)
      else if c.authority < e.authority then Reject(LowerAuthorityConflict)
      else Deduplicated(SameAuthorityKeepExisting, e)
  }

  function Decide(c: WriteCandidate, existing: seq<Item>): Decision {
    var policyReason := ValidateWriteCandidate(c);
    if policyReason != NoReason then Reject(policyReason)
    else if exists f | f in DYNAMIC_FIELDS :: f in c.value then Reject(DynamicFieldBlocked)
    else
      var sourceReason := SourceBasedRules(c);
      if sourceReason != NoReason then Reject(sourceReason) else CheckConflicts(c, existing)
  }

  /** The first item of a slot in a list: the one the scan compares a candidate with. */
  function FirstInSlot(c: WriteCandidate, existing: seq<Item>): Option<Item> {
    if existing == [] then None
    else if SameSlot(c, existing[0]) then Some(existing[0])
    else FirstInSlot(c, existing[1..])
  }

  lemma {:induction false} ScanStopsAtFirst(c: WriteCandidate, existing: seq<Item>)
    ensures CheckConflicts(c, existing).Create? <==> FirstInSlot(c, existing).None?
    ensures CheckConflicts(c, existing).Supersede? ==> FirstInSlot(c, existing) == Some(CheckConflicts(c, existing).existing)
  {
    if existing != [] {
      ScanStopsAtFirst(c, existing[1..]);
    }
  }

  /** Two candidates for one slot are compared with the same item. */
  lemma {:induction false} SameSlotSameFirst(c: WriteCandidate, d: WriteCandidate, existing: seq<Item>)
    requires c.memoryType == d.memoryType && c.memoryKey == d.memoryKey
    ensures FirstInSlot(c, existing) == FirstInSlot(d, existing)
  {
    if existing != [] {
      SameSlotSameFirst(c, d, existing[1..]);
    }
  }

  lemma {:induction false} ConflictDecision(c: WriteCandidate, existing: seq<Item>)
    ensures var d := CheckConflicts(c, existing);
            && (d.Create? <==> forall e | e in existing :: !SameSlot(c, e))
            && (d.Supersede? ==>
                  && d.existing in existing && SameSlot(c, d.existing) && d.existing.value != c.value
                  && (c.source == FromUserCorrection || c.authority > d.existing.authority))
  {
    if existing != [] {
      ConflictDecision(c, existing[1..]);
      assert existing == [existing[0]] + existing[1..];
    }
  }

  /**
   The gate creates only where the slot is free, and replaces a slot's item only
   by one of strictly higher authority; user corrections, which may replace
   anything, are admitted for user_correction records alone.
   */
  lemma GateReplacesUpwards(c: WriteCandidate, existing: seq<Item>)
    ensures var d := Decide(c, existing);
            && (d.Create? ==> forall e | e in existing :: !SameSlot(c, e))
            && (d.Supersede? ==>
                  && d.existing in existing && SameSlot(c, d.existing) && d.existing.value != c.value
                  && ((c.memoryType == UserCorrection && c.source == FromUserCorrection) || c.authority > d.existing.authority))
  {
    ConflictDecision(c, existing);
  }
}
