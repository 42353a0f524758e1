/**
 Building the case memory of a workflow run: look up, build, insert under the
 table's uniqueness constraints, and read again after losing a race. The same
 table operations serve the repository class and the model of concurrent calls.
 */
module CaseBuild {
  import opened Common

  /** A case; the built facts are kept as one opaque content. */
  datatype Case = Case(caseId: string, sourceRunId: string, content: string, createdAt: string, updatedAt: string)

  datatype BuildResult = BuildResult(row: Case, created: bool, rebuilt: bool)

  datatype Error = NotBuildable | IntegrityError

  /** The table, keyed by its primary key. */
  type Table = map<string, Case>

  ghost predicate Unique(rows: Table) {
    && (forall id | id in rows :: rows[id].caseId == id)
    && (forall a, b | a in rows && b in rows && rows[a].sourceRunId == rows[b].sourceRunId :: a == b)
  }

  function Lookup(rows: Table, runId: string): (r: Option<Case>)
    requires Unique(rows)
    ensures r.Some? ==> r.value.caseId in rows && rows[r.value.caseId] == r.value && r.value.sourceRunId == runId
    ensures r.None? ==> forall id | id in rows :: rows[id].sourceRunId != runId
  {
    if id :| id in rows && rows[id].sourceRunId == runId then Some(rows[id]) else None
  }

  /** Primary key and UNIQUE(source_workflow_run_id). */
  predicate Violates(rows: Table, c: Case) {
    c.caseId in rows || exists id | id in rows :: rows[id].sourceRunId == c.sourceRunId
  }

  /** What a rebuild writes: new facts under the old identity. */
  function Rebuilt(existing: Case, built: Case, now: string): Case {
    built.(caseId := existing.caseId, createdAt := existing.createdAt, updatedAt := now)
  }

  function AfterUpdate(rows: Table, c: Case): Table {
    if c.caseId in rows then rows[c.caseId := c] else rows
  }

  /** The table after an attempt to insert, which a constraint may refuse. */
  function WithInsert(rows: Table, c: Option<Case>): Table {
    if c.None? || Violates(rows, c.value) then rows else rows[c.value.caseId := c.value]
  }

  class CaseRepository {
    var rows: Table

    ghost predicate Valid()
      reads this
    {
      Unique(rows)
    }

    constructor ()
      ensures Valid() && rows == map[]
    {
      rows := map[];
    }

    method InsertCase(c: Case) returns (r: Result<Case, Error>)
      requires Valid()
      modifies this
      ensures Valid()
      ensures r == if Violates(old(rows), c) then Err(IntegrityError) else Ok(c)
      ensures rows == if Violates(old(rows), c) then old(rows) else old(rows)[c.caseId := c]
    {
      if c.caseId in rows || exists id | id in rows :: rows[id].sourceRunId == c.sourceRunId {
        return Err(IntegrityError);
      }
      rows := rows[c.caseId := c];
      r := Ok(c);
    }

    method UpdateCasePreservingIdentity(existing: Case, rebuilt: Case, now: string) returns (c: Case)
      requires Valid()
      requires rebuilt.sourceRunId == existing.sourceRunId
      requires existing.caseId in rows ==> rows[existing.caseId].sourceRunId == existing.sourceRunId
      modifies this
      ensures Valid()
      ensures c == Rebuilt(existing, rebuilt, now) && rows == AfterUpdate(old(rows), c)
    {
      c := rebuilt;
      c := c.(caseId := existing.caseId);
      c := c.(createdAt := existing.createdAt);
      c := c.(updatedAt := now);
      if c.caseId in rows {
        rows := rows[c.caseId := c];
      }
    }
  }

  class TrafficCaseMemoryService {
    const repository: CaseRepository

    constructor (repo: CaseRepository)
      ensures repository == repo
    {
      repository := repo;
    }

    /**
     One call. The builder's case is given, None being a builder that refuses; so
     is the case another caller may insert while this call is building.
     */
    method BuildFromWorkflowRun(runId: string, rebuild: bool, built: Option<Case>, meanwhile: Option<Case>, now: string)
      returns (r: Result<BuildResult, Error>)
      requires repository.Valid()
      requires built.Some? ==> built.value.sourceRunId == runId
      modifies repository
      ensures repository.Valid()
      ensures var before := old(repository.rows);
              var existing := Lookup(before, runId);
              var during := WithInsert(before, meanwhile);
              if existing.Some? && !rebuild then
                r == Ok(BuildResult(existing.value, false, false)) && repository.rows == before
              else if built.None? then
                r == Err(NotBuildable) && repository.rows == during
              else if existing.Some? then
                var c := Rebuilt(existing.value, built.value, now);
                r == Ok(BuildResult(c, false, true)) && repository.rows == during[c.caseId := c]
              else if !Violates(during, built.value) then
                r == Ok(BuildResult(built.value, true, false)) && repository.rows == during[built.value.caseId := built.value]
              else
                && repository.rows == during
                && if meanwhile.Some? && meanwhile.value.sourceRunId == runId && meanwhile.value.caseId !in before
                   then r == Ok(BuildResult(meanwhile.value, false, false))
                   else r == Err(IntegrityError)
    {
      var existing := Lookup(repository.rows, runId);
      if existing.Some? && !rebuild {
        return Ok(BuildResult(existing.value, false, false));
      }
      if meanwhile.Some? {
        var _ := repository.InsertCase(meanwhile.value);
      }
      if built.None? {
        return Err(NotBuildable);
      }
      if existing.Some? {
        var c := repository.UpdateCasePreservingIdentity(existing.value, built.value, now);
        return Ok(BuildResult(c, false, true));
      }
      var inserted := repository.InsertCase(built.value);
      if inserted.Ok? {
        return Ok(BuildResult(inserted.value, true, false));
      }
      var afterRace := Lookup(repository.rows, runId);
      if afterRace.Some? {
        assert repository.rows[meanwhile.value.caseId].sourceRunId == runId;
        return Ok(BuildResult(afterRace.value, false, false));
      }
      r := Err(IntegrityError);
    }
  }

  // ---- concurrent calls ------------------------------------------------------------

  /** Where a call stands between two table operations. */
  datatype Pc =
    | Start
    | LookedUp(existing: Option<Case>)
    | Built(existing: Option<Case>, built: Case)
    | Conflicted
    | Done(result: BuildResult)
    | Failed(error: Error)

  datatype Client = Client(runId: string, rebuild: bool, pc: Pc)

  datatype System = System(rows: Table, clients: seq<Client>)

  /** One call makes one move; the builder's content, and the clock, come from outside. */
  datatype Move = Move(client: nat, content: Option<string>, now: string)

  function Build(caseIdOf: string -> string, runId: string, content: string, now: string): Case {
    Case(caseIdOf(runId), runId, content, now, now)
  }

  function NextPc(caseIdOf: string -> string, rows: Table, c: Client, m: Move): Pc
    requires Unique(rows)
  {
    match c.pc
    case Start =>
      var existing := Lookup(rows, c.runId);
      if existing.Some? && !c.rebuild then Done(BuildResult(existing.value, false, false)) else LookedUp(existing)
    case LookedUp(existing) =>
      if m.content.None? then Failed(NotBuildable) else Built(existing, Build(caseIdOf, c.runId, m.content.value, m.now))
    case Built(existing, built) =>
      if existing.Some? then Done(BuildResult(Rebuilt(existing.value, built, m.now), false, true))
      else if Violates(rows, built) then Conflicted
      else Done(BuildResult(built, true, false))
    case Conflicted =>
      var existing := Lookup(rows, c.runId);
      if existing.Some? then Done(BuildResult(existing.value, false, false)) else Failed(IntegrityError)
    case _ => c.pc
  }

  function NextRows(rows: Table, c: Client, m: Move): Table {
    if !c.pc.Built? then rows
    else if c.pc.existing.Some? then AfterUpdate(rows, Rebuilt(c.pc.existing.value, c.pc.built, m.now))
    else if Violates(rows, c.pc.built) then rows
    else rows[c.pc.built.caseId := c.pc.built]
  }

  function Next(caseIdOf: string -> string, s: System, m: Move): System
    requires Unique(s.rows) && m.client < |s.clients|
  {
    var c := s.clients[m.client];
    System(NextRows(s.rows, c, m), s.clients[m.client := c.(pc := NextPc(caseIdOf, s.rows, c, m))])
  }

  /** Every stored case has the id derived from its run. */
  ghost predicate WellNamed(caseIdOf: string -> string, rows: Table) {
    forall id | id in rows :: id == caseIdOf(rows[id].sourceRunId)
  }

  /** The row of c's run is stored under c's identity. */
  ghost predicate Stored(rows: Table, runId: string, c: Case) {
    c.caseId in rows && rows[c.caseId].sourceRunId == runId == c.sourceRunId && rows[c.caseId].createdAt == c.createdAt
  }

  ghost predicate ClientOk(caseIdOf: string -> string, rows: Table, c: Client) {
    match c.pc
    case LookedUp(existing) => existing.Some? ==> Stored(rows, c.runId, existing.value)
    case Built(existing, built) =>
      && built.sourceRunId == c.runId && built.caseId == caseIdOf(c.runId)
      && (existing.Some? ==> Stored(rows, c.runId, existing.value))
    case Conflicted => caseIdOf(c.runId) in rows
    case Done(result) => Stored(rows, c.runId, result.row)
    case Failed(IntegrityError) =>
      caseIdOf(c.runId) in rows && rows[caseIdOf(c.runId)].sourceRunId != c.runId
    case _ => true
  }

  predicate Creator(c: Client) {
    c.pc.Done? && c.pc.result.created
  }

  ghost predicate Inv(caseIdOf: string -> string, s: System) {
    && Unique(s.rows) && WellNamed(caseIdOf, s.rows)
    && (forall i | 0 <= i < |s.clients| :: ClientOk(caseIdOf, s.rows, s.clients[i]))
    && (forall i, j | 0 <= i < j < |s.clients| && Creator(s.clients[i]) && Creator(s.clients[j]) ::
          s.clients[i].runId != s.clients[j].runId)
  }

  /** Rows are never removed and never change run or creation time. */
  ghost predicate IdentityKept(before: Table, after: Table) {
    forall id | id in before ::
      id in after && after[id].sourceRunId == before[id].sourceRunId && after[id].createdAt == before[id].createdAt
  }

  lemma RowsStep(caseIdOf: string -> string, rows: Table, c: Client, m: Move)
    requires Unique(rows) && WellNamed(caseIdOf, rows) && ClientOk(caseIdOf, rows, c)
    ensures var after := NextRows(rows, c, m);
            Unique(after) && WellNamed(caseIdOf, after) && IdentityKept(rows, after)
  {
  }

  lemma OwnStep(caseIdOf: string -> string, rows: Table, c: Client, m: Move)
    requires Unique(rows) && WellNamed(caseIdOf, rows) && ClientOk(caseIdOf, rows, c)
    ensures ClientOk(caseIdOf, NextRows(rows, c, m), c.(pc := NextPc(caseIdOf, rows, c, m)))
    ensures Creator(c.(pc := NextPc(caseIdOf, rows, c, m))) && !Creator(c) ==> Lookup(rows, c.runId).None?
  {
  }

  lemma OthersKept(caseIdOf: string -> string, before: Table, after: Table, c: Client)
    requires ClientOk(caseIdOf, before, c) && IdentityKept(before, after)
    ensures ClientOk(caseIdOf, after, c)
  {
  }

  lemma StepKeepsInv(caseIdOf: string -> string, s: System, m: Move)
    requires Inv(caseIdOf, s) && m.client < |s.clients|
    ensures Inv(caseIdOf, Next(caseIdOf, s, m)) && IdentityKept(s.rows, Next(caseIdOf, s, m).rows)
  {
    var c := s.clients[m.client];
    var t := Next(caseIdOf, s, m);
    RowsStep(caseIdOf, s.rows, c, m);
    OwnStep(caseIdOf, s.rows, c, m);
    forall i | 0 <= i < |t.clients|
      ensures ClientOk(caseIdOf, t.rows, t.clients[i])
    {
      if i != m.client {
        OthersKept(caseIdOf, s.rows, t.rows, s.clients[i]);
      }
    }
    forall i, j | 0 <= i < j < |t.clients| && Creator(t.clients[i]) && Creator(t.clients[j])
      ensures t.clients[i].runId != t.clients[j].runId
    {
      if i == m.client || j == m.client {
        var other := if i == m.client then j else i;
        assert ClientOk(caseIdOf, s.rows, s.clients[other]);
      }
    }
  }

  /** All calls are about to start on a table in which every case has its derived id. */
  ghost predicate Initial(caseIdOf: string -> string, s: System) {
    Unique(s.rows) && WellNamed(caseIdOf, s.rows) && forall c | c in s.clients :: c.pc == Start
  }

  ghost predicate IsRun(caseIdOf: string -> string, states: seq<System>, moves: seq<Move>) {
    && |states| == |moves| + 1 && Initial(caseIdOf, states[0])
    && forall i | 0 <= i < |moves| ::
         Unique(states[i].rows) && moves[i].client < |states[i].clients| && states[i + 1] == Next(caseIdOf, states[i], moves[i])
  }

  lemma {:induction false} RunKeepsInv(caseIdOf: string -> string, states: seq<System>, moves: seq<Move>, n: nat)
    requires IsRun(caseIdOf, states, moves) && n < |states|
    ensures Inv(caseIdOf, states[n])
  {
    if n > 0 {
      RunKeepsInv(caseIdOf, states, moves, n - 1);
      StepKeepsInv(caseIdOf, states[n - 1], moves[n - 1]);
    } else {
      forall i | 0 <= i < |states[0].clients|
        ensures states[0].clients[i].pc == Start
      {
        assert states[0].clients[i] in states[0].clients;
      }
    }
  }

  /**
   Exactly once: in every interleaving of any calls, a run has at most one row, at
   most one of its calls reports that it created it, and all successful calls
   report one case id and one creation time, those of the stored row.
   */
  lemma BuiltExactlyOnce(caseIdOf: string -> string, states: seq<System>, moves: seq<Move>, n: nat, i: nat, j: nat)
    requires IsRun(caseIdOf, states, moves) && n < |states| && i < j < |states[n].clients|
    requires states[n].clients[i].runId == states[n].clients[j].runId
    ensures Unique(states[n].rows)
    ensures var a, b := states[n].clients[i], states[n].clients[j];
            && !(Creator(a) && Creator(b))
            && (a.pc.Done? && b.pc.Done? ==>
                  && a.pc.result.row.caseId == b.pc.result.row.caseId
                  && a.pc.result.row.createdAt == b.pc.result.row.createdAt)
            && (a.pc.Done? ==> Stored(states[n].rows, a.runId, a.pc.result.row))
  {
    RunKeepsInv(caseIdOf, states, moves, n);
    assert ClientOk(caseIdOf, states[n].rows, states[n].clients[i]);
    assert ClientOk(caseIdOf, states[n].rows, states[n].clients[j]);
  }

  /** After a conflict the second look finds a row exactly when the case id is not held by another run. */
  lemma RereadFindsIffOwnId(caseIdOf: string -> string, states: seq<System>, moves: seq<Move>, n: nat, i: nat)
    requires IsRun(caseIdOf, states, moves) && n < |states| && i < |states[n].clients|
    requires states[n].clients[i].pc == Conflicted
    ensures Unique(states[n].rows)
    ensures var c, rows := states[n].clients[i], states[n].rows;
            && caseIdOf(c.runId) in rows
            && (Lookup(rows, c.runId).Some? <==> rows[caseIdOf(c.runId)].sourceRunId == c.runId)
  {
    RunKeepsInv(caseIdOf, states, moves, n);
    assert ClientOk(caseIdOf, states[n].rows, states[n].clients[i]);
  }

  /** With one case id per run, the second look always finds a row: no call ends in an integrity error. */
  lemma NoIntegrityErrorWithDistinctIds(caseIdOf: string -> string, states: seq<System>, moves: seq<Move>, n: nat, i: nat)
    requires IsRun(caseIdOf, states, moves) && n < |states| && i < |states[n].clients|
    requires Injective(caseIdOf)
    ensures states[n].clients[i].pc != Failed(IntegrityError)
  {
    RunKeepsInv(caseIdOf, states, moves, n);
    assert ClientOk(caseIdOf, states[n].rows, states[n].clients[i]);
  }

  /** Two runs with one truncated id: the second run can never be stored. */
  lemma CollidingIdsFail(caseIdOf: string -> string, runA: string, runB: string)
    requires runA != runB && caseIdOf(runA) == caseIdOf(runB)
    ensures var stored := Build(caseIdOf, runA, "", "");
            var rows := map[stored.caseId := stored];
            var start := Client(runB, false, Start);
            var m := Move(0, Some(""), "");
            Unique(rows) &&
            var looked := start.(pc := NextPc(caseIdOf, rows, start, m));
            var built := looked.(pc := NextPc(caseIdOf, rows, looked, m));
            var clashed := built.(pc := NextPc(caseIdOf, rows, built, m));
            NextPc(caseIdOf, rows, clashed, m) == Failed(IntegrityError)
  {
    var stored := Build(caseIdOf, runA, "", "");
    var rows := map[stored.caseId := stored];
    assert Lookup(rows, runB).None?;
  }

  // ---- a call that nobody disturbs ----------------------------------------------------

  /** Four moves of the only client; a call that is done stays done. */
  function Alone(caseIdOf: string -> string, s: System, m: Move): System
    requires |s.clients| == 1 && m.client == 0 && Unique(s.rows) && WellNamed(caseIdOf, s.rows) && s.clients[0].pc == Start
  {
    AloneKeepsUnique(caseIdOf, s, m);
    var s1 := Next(caseIdOf, s, m);
    var s2 := Next(caseIdOf, s1, m);
    var s3 := Next(caseIdOf, s2, m);
    Next(caseIdOf, s3, m)
  }

  lemma AloneKeepsUnique(caseIdOf: string -> string, s: System, m: Move)
    requires |s.clients| == 1 && m.client == 0 && Unique(s.rows) && WellNamed(caseIdOf, s.rows) && s.clients[0].pc == Start
    ensures var s1 := Next(caseIdOf, s, m);
            Unique(s1.rows) && |s1.clients| == 1 &&
            var s2 := Next(caseIdOf, s1, m);
            Unique(s2.rows) && |s2.clients| == 1 &&
            var s3 := Next(caseIdOf, s2, m);
            Unique(s3.rows) && |s3.clients| == 1
  {
    var s1 := Next(caseIdOf, s, m);
    StepKeepsInv(caseIdOf, s, m);
    StepKeepsInv(caseIdOf, s1, m);
    StepKeepsInv(caseIdOf, Next(caseIdOf, s1, m), m);
  }

  /** For a run that has a case: without rebuild the case is returned as it is. */
  lemma ExistingCaseIsReturned(caseIdOf: string -> string, s: System, m: Move, id: string)
    requires |s.clients| == 1 && m.client == 0 && Unique(s.rows) && WellNamed(caseIdOf, s.rows) && s.clients[0].pc == Start
    requires id in s.rows && s.rows[id].sourceRunId == s.clients[0].runId && !s.clients[0].rebuild
    ensures var after := Alone(caseIdOf, s, m);
            after.rows == s.rows && after.clients[0].pc == Done(BuildResult(s.rows[id], false, false))
  {
    assert Lookup(s.rows, s.clients[0].runId) == Some(s.rows[id]);
  }

  /**
   With rebuild its row is replaced: new content and time of update, the old id, run and time
   of creation; no other row changes.
   */
  lemma RebuildReplacesContent(caseIdOf: string -> string, s: System, m: Move, id: string)
    requires |s.clients| == 1 && m.client == 0 && Unique(s.rows) && WellNamed(caseIdOf, s.rows) && s.clients[0].pc == Start
    requires id in s.rows && s.rows[id].sourceRunId == s.clients[0].runId && s.clients[0].rebuild
    ensures var after, was := Alone(caseIdOf, s, m), s.rows[id];
            if m.content.None? then after.rows == s.rows && after.clients[0].pc == Failed(NotBuildable)
            else
              && id in after.rows && after.rows == s.rows[id := after.rows[id]]
              && var row := after.rows[id];
              && row.caseId == was.caseId && row.sourceRunId == was.sourceRunId && row.createdAt == was.createdAt
              && row.content == m.content.value && row.updatedAt == m.now
              && after.clients[0].pc == Done(BuildResult(row, false, true))
  {
    var existing := Lookup(s.rows, s.clients[0].runId);
    assert existing == Some(s.rows[id]);
    var s1 := Next(caseIdOf, s, m);
    assert s1 == System(s.rows, [s.clients[0].(pc := LookedUp(existing))]);
  }

  /** For a run without a case one is stored, unless its id is taken: that is an integrity error. */
  lemma NewCaseIsStored(caseIdOf: string -> string, s: System, m: Move)
    requires |s.clients| == 1 && m.client == 0 && Unique(s.rows) && WellNamed(caseIdOf, s.rows) && s.clients[0].pc == Start
    requires forall id | id in s.rows :: s.rows[id].sourceRunId != s.clients[0].runId
    ensures var after, runId := Alone(caseIdOf, s, m), s.clients[0].runId;
            var id := caseIdOf(runId);
            if m.content.None? then after.rows == s.rows && after.clients[0].pc == Failed(NotBuildable)
            else if id in s.rows then after.rows == s.rows && after.clients[0].pc == Failed(IntegrityError)
            else
              && id in after.rows && after.rows == s.rows[id := after.rows[id]]
              && var row := after.rows[id];
              && row.caseId == id && row.sourceRunId == runId && row.content == m.content.value
              && row.createdAt == m.now && row.updatedAt == m.now
              && after.clients[0].pc == Done(BuildResult(row, true, false))
  {
    assert Lookup(s.rows, s.clients[0].runId) == None;
    var s1 := Next(caseIdOf, s, m);
    assert s1 == System(s.rows, [s.clients[0].(pc := LookedUp(None))]);
  }

  /**
   A call that lost a race reports the winner's case, neither created nor rebuilt, and stores
   nothing; without one it fails.
   */
  lemma LoserReturnsWinner(caseIdOf: string -> string, s: System, m: Move)
    requires m.client < |s.clients| && Unique(s.rows) && s.clients[m.client].pc == Conflicted
    ensures var after, runId := Next(caseIdOf, s, m), s.clients[m.client].runId;
            && after.rows == s.rows
            && (forall id | id in s.rows && s.rows[id].sourceRunId == runId ::
                  after.clients[m.client].pc == Done(BuildResult(s.rows[id], false, false)))
            && ((forall id | id in s.rows :: s.rows[id].sourceRunId != runId) ==>
                  after.clients[m.client].pc == Failed(IntegrityError))
  {
  }
}
