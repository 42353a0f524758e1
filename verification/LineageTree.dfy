/**
 The tree of runs that grows from one root by continuations. Any number of
 workers read runs, and then cut them over or save them, in any interleaving with
 other work on the runs; nodes are numbered in the order they were created.
 */
module LineageTree {
  import opened Common
  import opened Budget
  import opened RunStore
  import opened Continuation

  datatype Node = Node(parent: Option<nat>, birthReplans: int, lineage: LineageValue)

  /** A run as a worker read it. */
  datatype Read = Read(run: nat, copy: LineageValue)

  datatype State = State(runs: seq<Node>, copies: map<nat, Read>)

  /**
   A cutover and a save both write what their worker read earlier: a cutover with one
   more replan, a save (that of a durable reservation, say) with other counters
   changed. `Work` reads and writes in one transaction, as a claim does.
   */
  datatype Step =
    | ReadRun(worker: nat, run: nat)
    | Cutover(worker: nat)
    | Save(worker: nat, usage: Usage)
    | Work(run: nat, usage: Usage)

  predicate Writes(step: Step) {
    step.Cutover? || step.Save?
  }

  /** Only a cutover changes the replans. */
  predicate Enabled(s: State, step: Step) {
    match step
    case ReadRun(_, run) => run < |s.runs|
    case Cutover(w) => w in s.copies && s.copies[w].run < |s.runs| && Granted(s.copies[w].copy, ReplanStep)
    case Save(w, usage) => w in s.copies && s.copies[w].run < |s.runs| && usage.replansUsed == s.copies[w].copy.usage.replansUsed
    case Work(run, usage) => run < |s.runs| && usage.replansUsed == s.runs[run].lineage.usage.replansUsed
  }

  function WithLineage(runs: seq<Node>, run: nat, l: LineageValue): seq<Node>
    requires run < |runs|
  {
    runs[run := runs[run].(lineage := l)]
  }

  function Next(s: State, step: Step): State
    requires Enabled(s, step)
  {
    match step
    case ReadRun(w, run) => s.(copies := s.copies[w := Read(run, s.runs[run].lineage)])
    case Cutover(w) =>
      var run, l := s.copies[w].run, ChildLineage(s.copies[w].copy);
      State(WithLineage(s.runs, run, l) + [Node(Some(run), l.usage.replansUsed, l)], s.copies - {w})
    case Save(w, usage) =>
      State(WithLineage(s.runs, s.copies[w].run, s.copies[w].copy.(usage := usage)), s.copies - {w})
    case Work(run, usage) => s.(runs := WithLineage(s.runs, run, s.runs[run].lineage.(usage := usage)))
  }

  /** A durable reservation is a read followed by such a save: it stores the copy with the reservation charged. */
  lemma ReservationIsASave(s: State, w: nat, op: Op)
    requires w in s.copies && s.copies[w].run < |s.runs| && IsDurable(Reserve(op))
    ensures var save := Save(w, After(s.copies[w].copy, op).usage);
            Enabled(s, save) && Next(s, save).runs[s.copies[w].run].lineage == After(s.copies[w].copy, op)
  {
  }

  /** A cutover of the tree is what a started replan does: parent and child end with the lineage its first read allows. */
  lemma ReplanIsACutover(s: State, w: nat, runs: Runs, versions: map<string, int>, parentId: string, copy: LineageValue, a: Answers)
    requires w in s.copies && s.copies[w].run < |s.runs|
    requires parentId in runs && GetLineage(runs[parentId].state) == s.copies[w].copy && s.copies[w].copy.rootRunId != ""
    requires Performed(runs, versions, parentId, copy, a).0.StartedChild?
    ensures Enabled(s, Cutover(w)) && |Next(s, Cutover(w)).runs| == |s.runs| + 1
    ensures a.childRunId in Performed(runs, versions, parentId, copy, a).1 && parentId in Performed(runs, versions, parentId, copy, a).1
    ensures var t, later := Next(s, Cutover(w)), Performed(runs, versions, parentId, copy, a).1;
            && t.runs[|s.runs|].parent == Some(s.copies[w].run)
            && t.runs[|s.runs|].lineage == GetLineage(later[a.childRunId].state)
            && t.runs[s.copies[w].run].lineage == GetLineage(later[parentId].state)
  {
    ReplanIsAnsweredIff(runs, versions, parentId, copy, a);
    CutoverKeepsStoredState(runs, versions, parentId, copy, a);
  }

  function Start(root: LineageValue): State {
    State([Node(None, root.usage.replansUsed, root)], map[])
  }

  /** The states of an execution from one root. */
  ghost predicate IsRun(root: LineageValue, states: seq<State>, steps: seq<Step>) {
    && |states| == |steps| + 1
    && states[0] == Start(root)
    && forall i | 0 <= i < |steps| :: Enabled(states[i], steps[i]) && states[i + 1] == Next(states[i], steps[i])
  }

  // ---- every chain is short, whatever the interleaving -------------------------

  ghost predicate Inv(s: State, root: LineageValue) {
    && (forall i | 0 <= i < |s.runs| :: InvNode(s.runs, i, root))
    && (forall w | w in s.copies :: s.copies[w].run < |s.runs| && InvCopy(s.runs, s.copies[w], root))
  }

  /** What a worker read may be old, but not older than the run. */
  ghost predicate InvCopy(runs: seq<Node>, r: Read, root: LineageValue)
    requires r.run < |runs|
  {
    && r.copy.limits == root.limits
    && runs[r.run].birthReplans <= r.copy.usage.replansUsed
    && WithinLimit(r.copy, root)
  }

  /** Replans never pass the limit, unless the root had passed it from the start. */
  predicate WithinLimit(l: LineageValue, root: LineageValue) {
    l.usage.replansUsed <= root.limits.maxReplans || l.usage.replansUsed == root.usage.replansUsed
  }

  ghost predicate InvNode(runs: seq<Node>, i: nat, root: LineageValue)
    requires i < |runs|
  {
    var node := runs[i];
    && node.lineage.limits == root.limits
    && root.usage.replansUsed <= node.birthReplans <= node.lineage.usage.replansUsed
    && WithinLimit(node.lineage, root)
    && (node.parent.Some? ==> node.parent.value < i && runs[node.parent.value].birthReplans < node.birthReplans)
  }

  lemma StepKeepsNode(s: State, step: Step, root: LineageValue, i: nat)
    requires Inv(s, root) && Enabled(s, step) && i < |Next(s, step).runs|
    ensures InvNode(Next(s, step).runs, i, root)
  {
    if i < |s.runs| {
      assert InvNode(s.runs, i, root);
    }
    if Writes(step) {
      var r := s.copies[step.worker];
      assert InvCopy(s.runs, r, root) && InvNode(s.runs, r.run, root);
    }
  }

  lemma StepKeepsCopies(s: State, step: Step, root: LineageValue, w: nat)
    requires Inv(s, root) && Enabled(s, step) && w in Next(s, step).copies
    ensures var t := Next(s, step); t.copies[w].run < |t.runs| && InvCopy(t.runs, t.copies[w], root)
  {
    if step.ReadRun? && step.worker == w {
      assert InvNode(s.runs, step.run, root);
    } else {
      assert InvCopy(s.runs, s.copies[w], root);
    }
  }

  lemma StepKeepsInv(s: State, step: Step, root: LineageValue)
    requires Inv(s, root) && Enabled(s, step)
    ensures Inv(Next(s, step), root)
  {
    var t := Next(s, step);
    forall i | 0 <= i < |t.runs|
      ensures InvNode(t.runs, i, root)
    {
      StepKeepsNode(s, step, root, i);
    }
    forall w | w in t.copies
      ensures t.copies[w].run < |t.runs| && InvCopy(t.runs, t.copies[w], root)
    {
      StepKeepsCopies(s, step, root, w);
    }
  }

  lemma {:induction false} RunKeepsInv(root: LineageValue, states: seq<State>, steps: seq<Step>, n: nat)
    requires IsRun(root, states, steps) && n < |states|
    ensures Inv(states[n], root)
  {
    if n > 0 {
      RunKeepsInv(root, states, steps, n - 1);
      StepKeepsInv(states[n - 1], steps[n - 1], root);
    }
  }

  /** How many continuations lie between a run and the root. */
  ghost function Depth(runs: seq<Node>, i: nat): nat
    requires i < |runs|
  {
    var p := runs[i].parent;
    if p.Some? && p.value < i then 1 + Depth(runs, p.value) else 0
  }

  lemma {:induction false} DepthWithinBirth(s: State, root: LineageValue, i: nat)
    requires Inv(s, root) && i < |s.runs|
    ensures Depth(s.runs, i) <= s.runs[i].birthReplans - root.usage.replansUsed
  {
    assert InvNode(s.runs, i, root);
    var p := s.runs[i].parent;
    if p.Some? {
      assert InvNode(s.runs, p.value, root);
      DepthWithinBirth(s, root, p.value);
    }
  }

  /** In every interleaving, no chain from the root has more continuations than the root had replans left. */
  lemma ChainsAreShort(root: LineageValue, states: seq<State>, steps: seq<Step>, n: nat, i: nat)
    requires IsRun(root, states, steps) && n < |states| && i < |states[n].runs|
    ensures Depth(states[n].runs, i) <= Max(0, root.limits.maxReplans - root.usage.replansUsed)
  {
    RunKeepsInv(root, states, steps, n);
    assert InvNode(states[n].runs, i, root);
    DepthWithinBirth(states[n], root, i);
  }

  // ---- the potential of a tree ----------------------------------------------------

  ghost function Pow2(n: int): nat
    ensures Pow2(n) >= 1
  {
    if n <= 0 then 1 else 2 * Pow2(n - 1)
  }

  lemma {:induction false} Pow2Monotone(a: int, b: int)
    requires a <= b
    ensures Pow2(a) <= Pow2(b)
    ensures 0 <= a < b ==> Pow2(a) < Pow2(b)
    decreases b - a
  {
    if a < b {
      Pow2Monotone(a, b - 1);
    }
  }

  /** What a run may still grow into. */
  ghost function Weight(node: Node, maxReplans: int): nat {
    Pow2(maxReplans - node.lineage.usage.replansUsed)
  }

  ghost function Potential(runs: seq<Node>, maxReplans: int): nat {
    if runs == [] then 0 else Potential(Init(runs), maxReplans) + Weight(Last(runs), maxReplans)
  }

  lemma {:induction false} PotentialUpdate(runs: seq<Node>, i: nat, node: Node, maxReplans: int)
    requires i < |runs|
    ensures Potential(runs[i := node], maxReplans) == Potential(runs, maxReplans) - Weight(runs[i], maxReplans) + Weight(node, maxReplans)
  {
    if i == |runs| - 1 {
      assert Init(runs[i := node]) == Init(runs);
    } else {
      assert Init(runs[i := node]) == Init(runs)[i := node];
      PotentialUpdate(Init(runs), i, node, maxReplans);
    }
  }

  lemma {:induction false} PotentialCountsRuns(runs: seq<Node>, maxReplans: int)
    ensures |runs| <= Potential(runs, maxReplans)
  {
    if runs != [] {
      PotentialCountsRuns(Init(runs), maxReplans);
    }
  }

  /** The replans of the copy a step writes, and of the run it overwrites. */
  function Copied(s: State, step: Step): int
    requires Enabled(s, step) && Writes(step)
  {
    s.copies[step.worker].copy.usage.replansUsed
  }

  function Overwritten(s: State, step: Step): int
    requires Enabled(s, step) && Writes(step)
  {
    s.runs[s.copies[step.worker].run].lineage.usage.replansUsed
  }

  /** What the step writes is behind the run it overwrites. */
  ghost predicate Stale(s: State, step: Step)
    requires Enabled(s, step)
  {
    Writes(step) && Copied(s, step) < Overwritten(s, step)
  }

  /** A step raises the potential exactly when it writes a stale copy. */
  lemma PotentialRisesIffStale(s: State, step: Step, root: LineageValue)
    requires Inv(s, root) && Enabled(s, step)
    ensures Potential(Next(s, step).runs, root.limits.maxReplans) <= Potential(s.runs, root.limits.maxReplans) <==> !Stale(s, step)
  {
    if step.Work? {
      PotentialUpdate(s.runs, step.run, Next(s, step).runs[step.run], root.limits.maxReplans);
    } else if step.Save? {
      SavePotential(s, step, root);
    } else if step.Cutover? {
      CutoverPotential(s, step, root);
    }
  }

  lemma SavePotential(s: State, step: Step, root: LineageValue)
    requires Inv(s, root) && Enabled(s, step) && step.Save?
    ensures var m := root.limits.maxReplans;
            && Potential(Next(s, step).runs, m) == Potential(s.runs, m) - Pow2(m - Overwritten(s, step)) + Pow2(m - Copied(s, step))
            && (Potential(Next(s, step).runs, m) <= Potential(s.runs, m) <==> !Stale(s, step))
  {
    var m, r := root.limits.maxReplans, s.copies[step.worker];
    PotentialUpdate(s.runs, r.run, Next(s, step).runs[r.run], m);
    SavedWithinLimit(s, step, root);
    FitsIffNoMore(m - Copied(s, step), m - Overwritten(s, step));
  }

  lemma SavedWithinLimit(s: State, step: Step, root: LineageValue)
    requires Inv(s, root) && Enabled(s, step) && step.Save?
    ensures Overwritten(s, step) <= root.limits.maxReplans || Overwritten(s, step) <= Copied(s, step)
  {
    var r := s.copies[step.worker];
    assert InvCopy(s.runs, r, root) && InvNode(s.runs, r.run, root);
  }

  /** A cutover trades one weight for two of the new lineage's. */
  lemma PotentialOfCutover(runs: seq<Node>, run: nat, l: LineageValue, maxReplans: int)
    requires run < |runs|
    ensures Potential(WithLineage(runs, run, l) + [Node(Some(run), l.usage.replansUsed, l)], maxReplans)
         == Potential(runs, maxReplans) - Weight(runs[run], maxReplans) + 2 * Pow2(maxReplans - l.usage.replansUsed)
  {
    var updated := WithLineage(runs, run, l);
    PotentialUpdate(runs, run, runs[run].(lineage := l), maxReplans);
    assert Init(updated + [Node(Some(run), l.usage.replansUsed, l)]) == updated;
  }

  lemma CutoverPotential(s: State, step: Step, root: LineageValue)
    requires Inv(s, root) && Enabled(s, step) && step.Cutover?
    ensures var m := root.limits.maxReplans;
            && Potential(Next(s, step).runs, m) == Potential(s.runs, m) - Pow2(m - Overwritten(s, step)) + Pow2(m - Copied(s, step))
            && (Potential(Next(s, step).runs, m) <= Potential(s.runs, m) <==> !Stale(s, step))
  {
    var m, r := root.limits.maxReplans, s.copies[step.worker];
    PotentialOfCutover(s.runs, r.run, ChildLineage(r.copy), m);
    assert InvCopy(s.runs, r, root) && InvNode(s.runs, r.run, root);
    FitsIffNoMore(m - Copied(s, step), m - Overwritten(s, step));
  }

  /** What the copy allowed fits into what the run had exactly when the copy allowed no more. */
  lemma FitsIffNoMore(copied: int, before: int)
    requires before >= 0 || copied <= before
    ensures Pow2(copied) <= Pow2(before) <==> copied <= before
  {
    if copied <= before {
      Pow2Monotone(copied, before);
    } else {
      Pow2Monotone(before, copied);
    }
  }

  // ---- the whole tree is bounded while nothing stale is written ----------------------

  /** No copy is ahead of its run. */
  ghost predicate NotAhead(s: State) {
    forall w | w in s.copies :: s.copies[w].run < |s.runs|
      && s.copies[w].copy.usage.replansUsed <= s.runs[s.copies[w].run].lineage.usage.replansUsed
  }

  lemma FreshStepKeepsNotAhead(s: State, step: Step)
    requires NotAhead(s) && Enabled(s, step) && !Stale(s, step)
    ensures NotAhead(Next(s, step))
  {
  }

  lemma FreshStepKeepsPotential(s: State, step: Step, root: LineageValue)
    requires NotAhead(s) && Inv(s, root) && Enabled(s, step) && !Stale(s, step)
    ensures Potential(Next(s, step).runs, root.limits.maxReplans) == Potential(s.runs, root.limits.maxReplans)
  {
    FreshIsLevel(s, step);
    if step.Work? {
      PotentialUpdate(s.runs, step.run, Next(s, step).runs[step.run], root.limits.maxReplans);
    } else if step.Save? {
      SavePotential(s, step, root);
    } else if step.Cutover? {
      CutoverPotential(s, step, root);
    }
  }

  lemma FreshIsLevel(s: State, step: Step)
    requires NotAhead(s) && Enabled(s, step) && !Stale(s, step)
    ensures Writes(step) ==> Copied(s, step) == Overwritten(s, step)
  {
  }

  /** None of the first n steps writes a stale copy. */
  ghost predicate FreshUntil(states: seq<State>, steps: seq<Step>, n: nat)
    requires n <= |steps| < |states| && forall i | 0 <= i < |steps| :: Enabled(states[i], steps[i])
  {
    forall i | 0 <= i < n :: !Stale(states[i], steps[i])
  }

  lemma {:induction false} PotentialStays(root: LineageValue, states: seq<State>, steps: seq<Step>, n: nat)
    requires IsRun(root, states, steps) && n <= |steps| && FreshUntil(states, steps, n)
    ensures NotAhead(states[n])
    ensures Potential(states[n].runs, root.limits.maxReplans) == Pow2(root.limits.maxReplans - root.usage.replansUsed)
  {
    if n == 0 {
      assert Init(states[0].runs) == [];
    } else {
      PotentialStays(root, states, steps, n - 1);
      RunKeepsInv(root, states, steps, n - 1);
      assert !Stale(states[n - 1], steps[n - 1]);
      FreshStepKeepsNotAhead(states[n - 1], steps[n - 1]);
      FreshStepKeepsPotential(states[n - 1], steps[n - 1], root);
    }
  }

  /** As long as nothing stale was written, a root has no more runs than two to the power of its remaining replans. */
  lemma LineageIsBounded(root: LineageValue, states: seq<State>, steps: seq<Step>, n: nat)
    requires IsRun(root, states, steps) && n <= |steps| && FreshUntil(states, steps, n)
    ensures |states[n].runs| <= Pow2(root.limits.maxReplans - root.usage.replansUsed)
  {
    PotentialStays(root, states, steps, n);
    PotentialCountsRuns(states[n].runs, root.limits.maxReplans);
  }

  // ---- and no longer -------------------------------------------------------------------

  /** A longer execution whose new steps write nothing stale. */
  ghost predicate GrowsFreshly(
      root: LineageValue, states: seq<State>, steps: seq<Step>, states': seq<State>, steps': seq<Step>)
  {
    && IsRun(root, states, steps) && IsRun(root, states', steps')
    && states <= states' && steps <= steps'
    && forall i | |steps| <= i < |steps'| :: !Stale(states'[i], steps'[i])
  }

  lemma GrowsByOne(root: LineageValue, states: seq<State>, steps: seq<Step>, step: Step)
    requires IsRun(root, states, steps) && Enabled(Last(states), step) && !Stale(Last(states), step)
    ensures GrowsFreshly(root, states, steps, states + [Next(Last(states), step)], steps + [step])
  {
    var states', steps' := states + [Next(Last(states), step)], steps + [step];
    forall i | 0 <= i < |steps'|
      ensures Enabled(states'[i], steps'[i]) && states'[i + 1] == Next(states'[i], steps'[i])
    {
      assert i < |steps| ==> steps'[i] == steps[i] && states'[i] == states[i];
    }
  }

  lemma GrowthsChain(
      root: LineageValue, a: seq<State>, ps: seq<Step>, b: seq<State>, qs: seq<Step>, c: seq<State>, rs: seq<Step>)
    requires GrowsFreshly(root, a, ps, b, qs) && GrowsFreshly(root, b, qs, c, rs)
    ensures GrowsFreshly(root, a, ps, c, rs)
  {
    forall i | |ps| <= i < |rs|
      ensures !Stale(c[i], rs[i])
    {
      if i < |qs| {
        assert c[i] == b[i] && rs[i] == qs[i];
      }
    }
  }

  /** Reading a run that has replans left and cutting it over at once adds a run and keeps the potential. */
  lemma OneMoreRun(root: LineageValue, states: seq<State>, steps: seq<Step>, i: nat)
    returns (states': seq<State>, steps': seq<Step>)
    requires IsRun(root, states, steps) && i < |Last(states).runs|
    requires Last(states).runs[i].lineage.usage.replansUsed < root.limits.maxReplans
    ensures GrowsFreshly(root, states, steps, states', steps')
    ensures |Last(states').runs| == |Last(states).runs| + 1
    ensures Potential(Last(states').runs, root.limits.maxReplans) == Potential(Last(states).runs, root.limits.maxReplans)
  {
    var s := Last(states);
    RunKeepsInv(root, states, steps, |steps|);
    assert InvNode(s.runs, i, root);
    var t := Next(s, ReadRun(0, i));
    StepKeepsInv(s, ReadRun(0, i), root);
    CutoverPotential(t, Cutover(0), root);
    GrowsByOne(root, states, steps, ReadRun(0, i));
    GrowsByOne(root, states + [t], steps + [ReadRun(0, i)], Cutover(0));
    states', steps' := states + [t] + [Next(t, Cutover(0))], steps + [ReadRun(0, i)] + [Cutover(0)];
    GrowthsChain(root, states, steps, states + [t], steps + [ReadRun(0, i)], states', steps');
  }

  lemma {:induction false} SpentRunsWeighOne(runs: seq<Node>, maxReplans: int)
    requires forall i | 0 <= i < |runs| :: runs[i].lineage.usage.replansUsed >= maxReplans
    ensures Potential(runs, maxReplans) == |runs|
  {
    if runs != [] {
      SpentRunsWeighOne(Init(runs), maxReplans);
    }
  }

  /** Every tree can grow to as many runs as its potential says. */
  lemma {:induction false} TreeGrowsToPotential(root: LineageValue, states: seq<State>, steps: seq<Step>)
    returns (states': seq<State>, steps': seq<Step>)
    requires IsRun(root, states, steps)
    ensures GrowsFreshly(root, states, steps, states', steps')
    ensures |Last(states').runs| == Potential(Last(states).runs, root.limits.maxReplans)
    decreases Potential(Last(states).runs, root.limits.maxReplans) - |Last(states).runs|
  {
    var m, s := root.limits.maxReplans, Last(states);
    PotentialCountsRuns(s.runs, m);
    if i: nat :| i < |s.runs| && s.runs[i].lineage.usage.replansUsed < m {
      var states1, steps1 := OneMoreRun(root, states, steps, i);
      PotentialCountsRuns(Last(states1).runs, m);
      states', steps' := TreeGrowsToPotential(root, states1, steps1);
      GrowthsChain(root, states, steps, states1, steps1, states', steps');
    } else {
      SpentRunsWeighOne(s.runs, m);
      states', steps' := states, steps;
    }
  }

  /**
   The first stale write is exactly where the bound is lost: after it, and only after
   it, the tree can outgrow the bound without anything stale being written again.
   */
  lemma BoundIsLostIffStale(root: LineageValue, states: seq<State>, steps: seq<Step>)
    requires IsRun(root, states, steps) && steps != [] && FreshUntil(states, steps, |steps| - 1)
    ensures (exists states', steps' ::
               GrowsFreshly(root, states, steps, states', steps')
               && |Last(states').runs| > Pow2(root.limits.maxReplans - root.usage.replansUsed))
            <==> Stale(states[|steps| - 1], Last(steps))
  {
    var n := |steps| - 1;
    if Stale(states[n], steps[n]) {
      PotentialStays(root, states, steps, n);
      RunKeepsInv(root, states, steps, n);
      PotentialRisesIffStale(states[n], steps[n], root);
      var states', steps' := TreeGrowsToPotential(root, states, steps);
    } else {
      forall states', steps' | GrowsFreshly(root, states, steps, states', steps')
        ensures |Last(states').runs| <= Pow2(root.limits.maxReplans - root.usage.replansUsed)
      {
        GrowthStaysFresh(root, states, steps, states', steps');
        LineageIsBounded(root, states', steps', |steps'|);
      }
    }
  }

  lemma GrowthStaysFresh(root: LineageValue, states: seq<State>, steps: seq<Step>, states': seq<State>, steps': seq<Step>)
    requires GrowsFreshly(root, states, steps, states', steps') && FreshUntil(states, steps, |steps|)
    ensures FreshUntil(states', steps', |steps'|)
  {
    forall i | 0 <= i < |steps'|
      ensures !Stale(states'[i], steps'[i])
    {
      if i < |steps| {
        assert states'[i] == states[i] && steps'[i] == steps[i];
      }
    }
  }

  // ---- when a write is stale -----------------------------------------------------------

  /** Step m is the worker's last read before its step n. */
  predicate ReadsLast(steps: seq<Step>, w: nat, m: nat, n: nat) {
    && m < n <= |steps|
    && steps[m].ReadRun? && steps[m].worker == w
    && forall i | m < i < n :: !(steps[i].ReadRun? && steps[i].worker == w)
  }

  predicate CutsOverRun(s: State, step: Step, run: nat) {
    step.Cutover? && step.worker in s.copies && s.copies[step.worker].run == run
  }

  /** No cutover of the run commits between the read at step m and step n. */
  ghost predicate AloneBetween(states: seq<State>, steps: seq<Step>, m: nat, n: nat)
    requires m < n <= |steps| && |states| == |steps| + 1 && steps[m].ReadRun?
  {
    forall i | m < i < n :: !CutsOverRun(states[i], steps[i], steps[m].run)
  }

  lemma {:induction false} LastReadOf(root: LineageValue, states: seq<State>, steps: seq<Step>, w: nat, n: nat) returns (m: nat)
    requires IsRun(root, states, steps) && n <= |steps| && w in states[n].copies
    ensures ReadsLast(steps, w, m, n)
  {
    if steps[n - 1].ReadRun? && steps[n - 1].worker == w {
      m := n - 1;
    } else {
      m := LastReadOf(root, states, steps, w, n - 1);
    }
  }

  /** The worker holds a copy of the run; it has the run's replans exactly if the worker is still alone with it. */
  ghost predicate KeptUp(s: State, w: nat, run: nat, alone: bool) {
    && w in s.copies && s.copies[w].run == run < |s.runs|
    && var copied, stored := s.copies[w].copy.usage.replansUsed, s.runs[run].lineage.usage.replansUsed;
       copied <= stored && (copied == stored <==> alone)
  }

  lemma ReadKeepsUp(s: State, step: Step)
    requires Enabled(s, step) && step.ReadRun?
    ensures KeptUp(Next(s, step), step.worker, step.run, true)
  {
  }

  lemma CopyStays(s: State, step: Step, w: nat)
    requires Enabled(s, step) && !(step.ReadRun? && step.worker == w) && w in Next(s, step).copies
    ensures w in s.copies && Next(s, step).copies[w] == s.copies[w]
  {
  }

  /** A step that is not stale, on copies that are not ahead, moves a run's replans only by a cutover of it. */
  lemma FreshStepAdvances(s: State, step: Step, run: nat)
    requires NotAhead(s) && Enabled(s, step) && !Stale(s, step) && run < |s.runs|
    ensures run < |Next(s, step).runs|
    ensures Next(s, step).runs[run].lineage.usage.replansUsed
         == s.runs[run].lineage.usage.replansUsed + (if CutsOverRun(s, step, run) then 1 else 0)
  {
  }

  lemma FreshStepKeepsUp(s: State, step: Step, w: nat, run: nat, alone: bool)
    requires NotAhead(s) && Enabled(s, step) && !Stale(s, step) && KeptUp(s, w, run, alone)
    requires !(step.ReadRun? && step.worker == w) && w in Next(s, step).copies
    ensures KeptUp(Next(s, step), w, run, alone && !CutsOverRun(s, step, run))
  {
    CopyStays(s, step, w);
    FreshStepAdvances(s, step, run);
  }

  lemma StepOf(root: LineageValue, states: seq<State>, steps: seq<Step>, i: nat)
    requires IsRun(root, states, steps) && i < |steps|
    ensures Enabled(states[i], steps[i]) && states[i + 1] == Next(states[i], steps[i])
  {
  }

  lemma KeepsUpOneMoreStep(root: LineageValue, states: seq<State>, steps: seq<Step>, w: nat, run: nat, n: nat, alone: bool)
    requires IsRun(root, states, steps) && 0 < n <= |steps| && FreshUntil(states, steps, n)
    requires !(steps[n - 1].ReadRun? && steps[n - 1].worker == w) && w in states[n].copies
    requires KeptUp(states[n - 1], w, run, alone)
    ensures KeptUp(states[n], w, run, alone && !CutsOverRun(states[n - 1], steps[n - 1], run))
  {
    StepOf(root, states, steps, n - 1);
    PotentialStays(root, states, steps, n - 1);
    FreshStepKeepsUp(states[n - 1], steps[n - 1], w, run, alone);
  }

  /** Since a worker's last read its run has moved on exactly if a cutover of it committed. */
  lemma {:induction false} RunMovesOnIffCutOver(root: LineageValue, states: seq<State>, steps: seq<Step>, w: nat, m: nat, n: nat)
    requires IsRun(root, states, steps) && ReadsLast(steps, w, m, n) && FreshUntil(states, steps, n) && w in states[n].copies
    ensures KeptUp(states[n], w, steps[m].run, AloneBetween(states, steps, m, n))
    decreases n
  {
    StepOf(root, states, steps, n - 1);
    if n == m + 1 {
      ReadKeepsUp(states[m], steps[m]);
    } else {
      CopyStays(states[n - 1], steps[n - 1], w);
      RunMovesOnIffCutOver(root, states, steps, w, m, n - 1);
      KeepsUpOneMoreStep(root, states, steps, w, steps[m].run, n, AloneBetween(states, steps, m, n - 1));
      AloneOneMore(states, steps, m, n);
    }
  }

  lemma AloneOneMore(states: seq<State>, steps: seq<Step>, m: nat, n: nat)
    requires m + 1 < n <= |steps| && |states| == |steps| + 1 && steps[m].ReadRun?
    ensures AloneBetween(states, steps, m, n)
       <==> AloneBetween(states, steps, m, n - 1) && !CutsOverRun(states[n - 1], steps[n - 1], steps[m].run)
  {
  }

  /** A first stale write is one whose run was cut over since its worker read it. */
  lemma StaleIffSpansCutover(root: LineageValue, states: seq<State>, steps: seq<Step>, m: nat, n: nat)
    requires IsRun(root, states, steps) && n < |steps| && FreshUntil(states, steps, n)
    requires Writes(steps[n]) && ReadsLast(steps, steps[n].worker, m, n)
    ensures Stale(states[n], steps[n]) <==> !AloneBetween(states, steps, m, n)
  {
    RunMovesOnIffCutOver(root, states, steps, steps[n].worker, m, n);
  }

  /** No cutover of a run commits between another worker's last read of it and that worker's cutover of it. */
  ghost predicate CutoversDoNotOverlap(states: seq<State>, steps: seq<Step>)
    requires |states| == |steps| + 1
  {
    forall m, n | 0 <= m < n < |steps| && steps[n].Cutover? && ReadsLast(steps, steps[n].worker, m, n) ::
      AloneBetween(states, steps, m, n)
  }

  /** No cutover of a run commits between a reservation's read of it and its save. */
  ghost predicate SavesSpanNoCutover(states: seq<State>, steps: seq<Step>)
    requires |states| == |steps| + 1
  {
    forall m, n | 0 <= m < n < |steps| && steps[n].Save? && ReadsLast(steps, steps[n].worker, m, n) ::
      AloneBetween(states, steps, m, n)
  }

  lemma {:induction false} SeparateWritesAreFresh(root: LineageValue, states: seq<State>, steps: seq<Step>, n: nat)
    requires IsRun(root, states, steps) && n <= |steps|
    requires CutoversDoNotOverlap(states, steps) && SavesSpanNoCutover(states, steps)
    ensures FreshUntil(states, steps, n)
  {
    if n > 0 {
      SeparateWritesAreFresh(root, states, steps, n - 1);
      if Writes(steps[n - 1]) {
        var m := LastReadOf(root, states, steps, steps[n - 1].worker, n - 1);
        StaleIffSpansCutover(root, states, steps, m, n - 1);
      }
    }
  }

  /**
   As long as no two cutovers of one run overlap and no reservation spans a cutover
   of its run, a root never has more runs than two to the power of its remaining
   replans.
   */
  lemma SeparateCutoversAreBounded(root: LineageValue, states: seq<State>, steps: seq<Step>, n: nat)
    requires IsRun(root, states, steps) && n < |states|
    requires CutoversDoNotOverlap(states, steps) && SavesSpanNoCutover(states, steps)
    ensures |states[n].runs| <= Pow2(root.limits.maxReplans - root.usage.replansUsed)
  {
    SeparateWritesAreFresh(root, states, steps, n);
    LineageIsBounded(root, states, steps, n);
  }

  // ---- both conditions are needed --------------------------------------------------------

  function OneReplan(): LineageValue {
    NewLineage("r").(limits := DEFAULT_LIMITS.(maxReplans := 1))
  }

  /** Two coordinators that read one run before either commits overrun the bound. */
  lemma ConcurrentCutoversOverrunBound()
    ensures var steps := [ReadRun(0, 0), ReadRun(1, 0), Cutover(0), Cutover(1)];
            exists states: seq<State> :: IsRun(OneReplan(), states, steps)
              && |states[4].runs| > Pow2(OneReplan().limits.maxReplans - OneReplan().usage.replansUsed)
  {
    var root := OneReplan();
    var steps := [ReadRun(0, 0), ReadRun(1, 0), Cutover(0), Cutover(1)];
    var s0 := Start(root);
    var s1 := Next(s0, steps[0]);
    var s2 := Next(s1, steps[1]);
    var s3 := Next(s2, steps[2]);
    var s4 := Next(s3, steps[3]);
    var states := [s0, s1, s2, s3, s4];
    assert IsRun(root, states, steps);
    assert Pow2(1) == 2 * Pow2(0);
  }

  /** Worker 0 reserves a tool call: it reads before the first cutover commits and saves after it. */
  function LateSave(): seq<Step> {
    [ReadRun(0, 0), ReadRun(1, 0), Cutover(1), Save(0, After(OneReplan(), ReserveToolCall).usage), ReadRun(2, 0), Cutover(2)]
  }

  lemma LateSaveReads(w: nat, m: nat, n: nat)
    requires ReadsLast(LateSave(), w, m, n) && n < 6 && LateSave()[n].Cutover? && LateSave()[n].worker == w
    ensures n == m + 1
  {
    assert LateSave()[1] == ReadRun(1, 0) && LateSave()[4] == ReadRun(2, 0);
  }

  /** A reservation whose save comes late takes a cutover back: no two cutovers overlap, and still the bound is overrun. */
  lemma LateSaveOverrunsBound()
    ensures exists states: seq<State> ::
              && IsRun(OneReplan(), states, LateSave()) && CutoversDoNotOverlap(states, LateSave())
              && |states[6].runs| > Pow2(OneReplan().limits.maxReplans - OneReplan().usage.replansUsed)
  {
    var root, steps := OneReplan(), LateSave();
    var s0 := Start(root);
    var s1 := Next(s0, steps[0]);
    var s2 := Next(s1, steps[1]);
    var s3 := Next(s2, steps[2]);
    var s4 := Next(s3, steps[3]);
    var s5 := Next(s4, steps[4]);
    var s6 := Next(s5, steps[5]);
    var states := [s0, s1, s2, s3, s4, s5, s6];
    assert IsRun(root, states, steps);
    forall m, n | 0 <= m < n < |steps| && steps[n].Cutover? && ReadsLast(steps, steps[n].worker, m, n)
      ensures AloneBetween(states, steps, m, n)
    {
      LateSaveReads(steps[n].worker, m, n);
    }
    assert Pow2(1) == 2 * Pow2(0);
  }
}
