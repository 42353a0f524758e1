/**
 Event threads: every session has at most one active thread, and how the
 session's pointer follows it while recalls interleave, stop halfway or run alone.
 */
module Threads {
  import opened Common

  datatype Thread = Thread(id: string, sessionId: string, active: bool, title: string, startedRunId: string, lastRunId: string)

  // ---- store operations ---------------------------------------------------------------------

  function CloseIf(t: Thread, close: bool): Thread {
    if close then t.(active := false) else t
  }

  function CloseSession(threads: seq<Thread>, session: string): seq<Thread> {
    seq(|threads|, i requires 0 <= i < |threads| => CloseIf(threads[i], threads[i].sessionId == session))
  }

  function CloseThread(threads: seq<Thread>, id: string): seq<Thread> {
    seq(|threads|, i requires 0 <= i < |threads| => CloseIf(threads[i], threads[i].id == id))
  }

  function TouchThread(threads: seq<Thread>, id: string, run: string): seq<Thread> {
    seq(|threads|, i requires 0 <= i < |threads| =>
      if threads[i].id == id then threads[i].(lastRunId := run) else threads[i])
  }

  /** Closes whatever is active in the session and appends the new active thread. */
  function CreateThread(threads: seq<Thread>, session: string, id: string, title: string, run: string): seq<Thread> {
    CloseSession(threads, session) + [Thread(id, session, true, title, run, run)]
  }

  predicate HasThread(threads: seq<Thread>, id: string) {
    exists t | t in threads :: t.id == id
  }

  function PointerOf(pointers: map<string, string>, session: string): string {
    if session in pointers then pointers[session] else ""
  }

  // ---- recalls as clients of the store ---------------------------------------------------------

  /** Where a recall stands; a recall that crashes simply stays where it is. */
  datatype Pc =
    | Start
    | ReadPointer(pointer: string)
    | ReadThread(pointer: string, found: bool)
    | Closed(pointer: string)
    | Finished(threadId: string)

  datatype Client = Client(sessionId: string, runId: string, title: string, startsNew: bool, newId: string, pc: Pc)

  datatype System = System(threads: seq<Thread>, pointers: map<string, string>, clients: seq<Client>)

  function Creates(s: System, c: Client): (seq<Thread>, map<string, string>, Pc) {
    (CreateThread(s.threads, c.sessionId, c.newId, c.title, c.runId), s.pointers[c.sessionId := c.newId], Finished(c.newId))
  }

  /** One store operation of one recall. */
  function Move(s: System, c: Client): (seq<Thread>, map<string, string>, Pc) {
    match c.pc
    case Start => (s.threads, s.pointers, ReadPointer(PointerOf(s.pointers, c.sessionId)))
    case ReadPointer(p) => (s.threads, s.pointers, ReadThread(p, p != "" && HasThread(s.threads, p)))
    case ReadThread(p, found) =>
      if c.startsNew && found then (CloseThread(s.threads, p), s.pointers, Closed(p))
      else if c.startsNew || p == "" then Creates(s, c)
      else (TouchThread(s.threads, p, c.runId), s.pointers, Finished(p))
    case Closed(_) => Creates(s, c)
    case Finished(_) => (s.threads, s.pointers, c.pc)
  }

  function Next(s: System, n: nat): System {
    if n >= |s.clients| then s
    else
      var (threads, pointers, pc) := Move(s, s.clients[n]);
      System(threads, pointers, s.clients[n := s.clients[n].(pc := pc)])
  }

  /** The schedule says which recall moves next; leaving a recall out of the rest of it is a crash. */
  function Runs(s: System, schedule: seq<nat>): System {
    if schedule == [] then s else Next(Runs(s, Init(schedule)), Last(schedule))
  }

  // ---- the invariant -------------------------------------------------------------------------------

  ghost predicate ThreadsIdentified(threads: seq<Thread>) {
    && (forall i, j | 0 <= i < j < |threads| :: threads[i].id != threads[j].id)
    && (forall t | t in threads :: t.id != "")
  }

  ghost predicate ActiveIsPointed(threads: seq<Thread>, pointers: map<string, string>) {
    forall t | t in threads && t.active :: PointerOf(pointers, t.sessionId) == t.id
  }

  /** The thread with this id exists and belongs to the session. */
  predicate Owns(threads: seq<Thread>, session: string, id: string) {
    exists t | t in threads :: t.id == id && t.sessionId == session
  }

  ghost predicate PointersResolve(threads: seq<Thread>, pointers: map<string, string>) {
    forall s | s in pointers :: Owns(threads, s, pointers[s])
  }

  function KnownPointer(pc: Pc): string {
    match pc
    case ReadPointer(p) => p
    case ReadThread(p, _) => p
    case Closed(p) => p
    case Start => ""
    case Finished(_) => ""
  }

  ghost predicate ClientsKnowOwnThreads(threads: seq<Thread>, clients: seq<Client>) {
    forall c | c in clients && KnownPointer(c.pc) != "" :: Owns(threads, c.sessionId, KnownPointer(c.pc))
  }

  ghost predicate FreshIds(threads: seq<Thread>, clients: seq<Client>) {
    && (forall i, j | 0 <= i < j < |clients| :: clients[i].newId != clients[j].newId)
    && (forall c | c in clients :: c.newId != "" && (!c.pc.Finished? ==> !HasThread(threads, c.newId)))
  }

  predicate IsActive(threads: seq<Thread>, id: string) {
    exists t | t in threads :: t.id == id && t.active
  }

  /** A recall of the session stands between closing this thread and creating the next. */
  predicate HalfwayOn(clients: seq<Client>, session: string, thread: string) {
    exists c | c in clients :: c.sessionId == session && c.pc == Closed(thread)
  }

  /** A pointer names an active thread exactly unless a recall of its session stands halfway on just that thread. */
  ghost predicate InactiveIffHalfway(s: System) {
    forall session | session in s.pointers ::
      IsActive(s.threads, s.pointers[session]) <==> !HalfwayOn(s.clients, session, s.pointers[session])
  }

  ghost predicate StoreInv(threads: seq<Thread>, pointers: map<string, string>) {
    ThreadsIdentified(threads) && ActiveIsPointed(threads, pointers) && PointersResolve(threads, pointers)
  }

  ghost predicate Inv(s: System) {
    && StoreInv(s.threads, s.pointers)
    && ClientsKnowOwnThreads(s.threads, s.clients)
    && FreshIds(s.threads, s.clients)
    && InactiveIffHalfway(s)
  }

  /** Nothing stored yet, and every recall has drawn its own thread id. */
  ghost predicate Initial(s: System) {
    && s.threads == [] && s.pointers == map[]
    && (forall c | c in s.clients :: c.pc == Start)
    && FreshIds(s.threads, s.clients)
  }

  // ---- each store operation keeps the store sound ---------------------------------------------------

  lemma CreateKeepsStore(threads: seq<Thread>, pointers: map<string, string>, session: string, id: string, title: string, run: string)
    requires StoreInv(threads, pointers) && id != "" && !HasThread(threads, id)
    ensures StoreInv(CreateThread(threads, session, id, title, run), pointers[session := id])
  {
    var after, pointed := CreateThread(threads, session, id, title, run), pointers[session := id];
    var closed := CloseSession(threads, session);
    forall t | t in after && t.active
      ensures PointerOf(pointed, t.sessionId) == t.id
    {
      var i :| 0 <= i < |after| && after[i] == t;
      if i < |threads| {
        assert closed[i] == t && threads[i] in threads;
      }
    }
    forall i, j | 0 <= i < j < |after|
      ensures after[i].id != after[j].id
    {
      assert threads[i] in threads;
    }
    forall t | t in after
      ensures t.id != ""
    {
      var i :| 0 <= i < |after| && after[i] == t;
      assert i < |threads| ==> threads[i] in threads;
    }
    forall s | s in pointed
      ensures Owns(after, s, pointed[s])
    {
      CreateKeepsOwns(threads, session, id, title, run, s, if s == session then id else pointers[s]);
    }
  }

  lemma CreateKeepsOwns(
      threads: seq<Thread>, session: string, id: string, title: string, run: string, owner: string, owned: string)
    requires Owns(threads, owner, owned) || (owner == session && owned == id)
    ensures Owns(CreateThread(threads, session, id, title, run), owner, owned)
  {
    var after := CreateThread(threads, session, id, title, run);
    if owner == session && owned == id {
      assert after[|threads|] in after;
    } else {
      var i :| 0 <= i < |threads| && threads[i].id == owned && threads[i].sessionId == owner;
      assert after[i] in after;
    }
  }

  /** A rewrite of the threads that neither opens nor moves any. */
  ghost predicate OnlyCloses(before: seq<Thread>, after: seq<Thread>) {
    && |after| == |before|
    && forall i | 0 <= i < |before| ::
         after[i].id == before[i].id && after[i].sessionId == before[i].sessionId && (after[i].active ==> before[i].active)
  }

  lemma ClosingKeepsOwns(before: seq<Thread>, after: seq<Thread>, owner: string, owned: string)
    requires OnlyCloses(before, after)
    ensures Owns(before, owner, owned) ==> Owns(after, owner, owned)
    ensures HasThread(after, owned) ==> HasThread(before, owned)
  {
    if Owns(before, owner, owned) {
      var i :| 0 <= i < |before| && before[i].id == owned && before[i].sessionId == owner;
      assert after[i] in after;
    }
    if HasThread(after, owned) {
      var i :| 0 <= i < |after| && after[i].id == owned;
      assert before[i] in before;
    }
  }

  lemma ClosingKeepsStore(before: seq<Thread>, after: seq<Thread>, pointers: map<string, string>)
    requires StoreInv(before, pointers) && OnlyCloses(before, after)
    ensures StoreInv(after, pointers)
  {
    forall t | t in after
      ensures t.id != "" && (t.active ==> PointerOf(pointers, t.sessionId) == t.id)
    {
      var i :| 0 <= i < |after| && after[i] == t;
      assert before[i] in before;
    }
    forall s | s in pointers
      ensures Owns(after, s, pointers[s])
    {
      ClosingKeepsOwns(before, after, s, pointers[s]);
    }
  }

  // ---- each move keeps the invariant ------------------------------------------------------------------

  ghost predicate StoreEffect(s: System, c: Client) {
    var (threads, pointers, pc) := Move(s, c);
    || (OnlyCloses(s.threads, threads) && pointers == s.pointers)
    || (!c.pc.Finished? && (threads, pointers, pc) == Creates(s, c))
  }

  lemma MoveClosesOrCreates(s: System, c: Client)
    ensures StoreEffect(s, c)
  {
  }

  lemma MoveKeepsStore(s: System, n: nat)
    requires Inv(s) && n < |s.clients|
    ensures StoreInv(Next(s, n).threads, Next(s, n).pointers)
  {
    var c := s.clients[n];
    assert c in s.clients;
    MoveClosesOrCreates(s, c);
    var (threads, pointers, pc) := Move(s, c);
    if OnlyCloses(s.threads, threads) && pointers == s.pointers {
      ClosingKeepsStore(s.threads, threads, pointers);
    } else {
      CreateKeepsStore(s.threads, s.pointers, c.sessionId, c.newId, c.title, c.runId);
    }
  }

  lemma MoveKeepsOwns(s: System, n: nat, owner: string, owned: string)
    requires Inv(s) && n < |s.clients| && Owns(s.threads, owner, owned)
    ensures Owns(Next(s, n).threads, owner, owned)
  {
    var c := s.clients[n];
    MoveClosesOrCreates(s, c);
    var (threads, pointers, pc) := Move(s, c);
    if OnlyCloses(s.threads, threads) && pointers == s.pointers {
      ClosingKeepsOwns(s.threads, threads, owner, owned);
    } else {
      CreateKeepsOwns(s.threads, c.sessionId, c.newId, c.title, c.runId, owner, owned);
    }
  }

  /** What a recall learns about threads is either known already or the session's own pointer. */
  lemma MoveLearnsOwnPointer(s: System, c: Client)
    ensures var pc := Move(s, c).2;
            KnownPointer(pc) != "" ==>
              KnownPointer(pc) == KnownPointer(c.pc) || (c.sessionId in s.pointers && KnownPointer(pc) == s.pointers[c.sessionId])
  {
  }

  lemma MoveKeepsKnowledge(s: System, n: nat)
    requires Inv(s) && n < |s.clients|
    ensures ClientsKnowOwnThreads(Next(s, n).threads, Next(s, n).clients)
  {
    var after := Next(s, n);
    forall c | c in after.clients && KnownPointer(c.pc) != ""
      ensures Owns(after.threads, c.sessionId, KnownPointer(c.pc))
    {
      var i :| 0 <= i < |after.clients| && after.clients[i] == c;
      assert s.clients[i] in s.clients;
      if i == n {
        MoveLearnsOwnPointer(s, s.clients[n]);
      }
      MoveKeepsOwns(s, n, c.sessionId, KnownPointer(c.pc));
    }
  }

  lemma MoveAddsOwnIdOnly(s: System, n: nat, id: string)
    requires n < |s.clients| && HasThread(Next(s, n).threads, id)
    ensures HasThread(s.threads, id) || (id == s.clients[n].newId && Next(s, n).clients[n].pc.Finished?)
  {
    var c := s.clients[n];
    MoveClosesOrCreates(s, c);
    var (threads, pointers, pc) := Move(s, c);
    if OnlyCloses(s.threads, threads) && pointers == s.pointers {
      ClosingKeepsOwns(s.threads, threads, "", id);
    } else {
      var i :| 0 <= i < |threads| && threads[i].id == id;
      assert i < |s.threads| ==> s.threads[i] in s.threads;
    }
  }

  lemma MoveKeepsFreshIds(s: System, n: nat)
    requires Inv(s) && n < |s.clients|
    ensures FreshIds(Next(s, n).threads, Next(s, n).clients)
  {
    var after := Next(s, n);
    forall c | c in after.clients
      ensures c.newId != "" && (!c.pc.Finished? ==> !HasThread(after.threads, c.newId))
    {
      var i :| 0 <= i < |after.clients| && after.clients[i] == c;
      assert s.clients[i] in s.clients;
      if HasThread(after.threads, c.newId) {
        MoveAddsOwnIdOnly(s, n, c.newId);
      }
    }
  }

  // ---- the pointer and the recalls that stand halfway ---------------------------------------------------

  /** A rewrite that leaves the thread with this id as active as it was, and adds none under the id. */
  ghost predicate KeepsActivity(before: seq<Thread>, after: seq<Thread>, id: string) {
    && |before| <= |after|
    && (forall i | 0 <= i < |before| :: after[i].id == before[i].id && (before[i].id == id ==> after[i].active == before[i].active))
    && (forall i | |before| <= i < |after| :: after[i].id != id)
  }

  lemma ActivityKept(before: seq<Thread>, after: seq<Thread>, id: string)
    requires KeepsActivity(before, after, id)
    ensures IsActive(after, id) <==> IsActive(before, id)
  {
    if IsActive(before, id) {
      var i :| 0 <= i < |before| && before[i].id == id && before[i].active;
      assert after[i] in after;
    }
    if IsActive(after, id) {
      var i :| 0 <= i < |after| && after[i].id == id && after[i].active;
      assert before[i] in before;
    }
  }

  lemma HalfwayKept(s: System, n: nat, session: string, thread: string)
    requires n < |s.clients|
    requires s.clients[n].sessionId == session ==>
               s.clients[n].pc != Closed(thread) && Move(s, s.clients[n]).2 != Closed(thread)
    ensures HalfwayOn(Next(s, n).clients, session, thread) <==> HalfwayOn(s.clients, session, thread)
  {
    var before, after := s.clients, Next(s, n).clients;
    if HalfwayOn(before, session, thread) {
      var i :| 0 <= i < |before| && before[i].sessionId == session && before[i].pc == Closed(thread);
      assert after[i] in after && after[i] == before[i];
    }
    if HalfwayOn(after, session, thread) {
      var i :| 0 <= i < |after| && after[i].sessionId == session && after[i].pc == Closed(thread);
      assert before[i] in before && after[i] == before[i];
    }
  }

  /** The thread a pointer names belongs to the pointer's session. */
  lemma PointedThreadIsOwn(s: System, session: string, i: nat)
    requires StoreInv(s.threads, s.pointers) && session in s.pointers && i < |s.threads| && s.threads[i].id == s.pointers[session]
    ensures s.threads[i].sessionId == session
  {
    var j :| 0 <= j < |s.threads| && s.threads[j].id == s.pointers[session] && s.threads[j].sessionId == session;
    assert i == j;
  }

  lemma PointedIsNotFresh(s: System, session: string, c: Client)
    requires Inv(s) && c in s.clients && !c.pc.Finished? && session in s.pointers
    ensures s.pointers[session] != c.newId
  {
    assert Owns(s.threads, session, s.pointers[session]);
    var t :| t in s.threads && t.id == s.pointers[session];
    assert HasThread(s.threads, s.pointers[session]);
  }

  /** Nobody stands halfway on a thread that was not there before. */
  lemma NobodyHalfwayOnFresh(s: System, n: nat, session: string)
    requires Inv(s) && n < |s.clients| && !s.clients[n].pc.Finished?
    ensures !HalfwayOn(s.clients, session, s.clients[n].newId)
  {
    assert s.clients[n] in s.clients;
  }

  lemma CreateKeepsExact(s: System, n: nat, session: string)
    requires Inv(s) && n < |s.clients| && session in Next(s, n).pointers
    requires !s.clients[n].pc.Finished? && Move(s, s.clients[n]) == Creates(s, s.clients[n])
    ensures var after := Next(s, n);
            IsActive(after.threads, after.pointers[session]) <==> !HalfwayOn(after.clients, session, after.pointers[session])
  {
    var after, c := Next(s, n), s.clients[n];
    assert c in s.clients;
    if session == c.sessionId {
      assert after.threads[|s.threads|] in after.threads;
      NobodyHalfwayOnFresh(s, n, session);
      FreshIsNotClosed(s, n);
      HalfwayKept(s, n, session, c.newId);
    } else {
      PointedIsNotFresh(s, session, c);
      CreateKeepsOtherActivity(s, n, session);
      ActivityKept(s.threads, after.threads, s.pointers[session]);
      HalfwayKept(s, n, session, s.pointers[session]);
    }
  }

  lemma FreshIsNotClosed(s: System, n: nat)
    requires Inv(s) && n < |s.clients| && !s.clients[n].pc.Finished?
    ensures s.clients[n].pc != Closed(s.clients[n].newId)
  {
    NobodyHalfwayOnFresh(s, n, s.clients[n].sessionId);
    assert s.clients[n] in s.clients;
  }

  lemma CreateKeepsOtherActivity(s: System, n: nat, session: string)
    requires Inv(s) && n < |s.clients| && session in s.pointers && session != s.clients[n].sessionId
    requires Move(s, s.clients[n]) == Creates(s, s.clients[n]) && s.pointers[session] != s.clients[n].newId
    ensures KeepsActivity(s.threads, Next(s, n).threads, s.pointers[session])
  {
    forall i | 0 <= i < |s.threads| && s.threads[i].id == s.pointers[session]
      ensures s.threads[i].sessionId == session
    {
      PointedThreadIsOwn(s, session, i);
    }
  }

  lemma CloseKeepsExact(s: System, n: nat, session: string)
    requires Inv(s) && n < |s.clients| && session in s.pointers
    requires Move(s, s.clients[n]).2.Closed? && !s.clients[n].pc.Closed?
    ensures var after := Next(s, n);
            IsActive(after.threads, s.pointers[session]) <==> !HalfwayOn(after.clients, session, s.pointers[session])
  {
    var after, c, p := Next(s, n), s.clients[n], s.pointers[session];
    assert c in s.clients;
    if p == c.pc.pointer {
      assert Owns(s.threads, c.sessionId, p);
      var i :| 0 <= i < |s.threads| && s.threads[i].id == p && s.threads[i].sessionId == c.sessionId;
      PointedThreadIsOwn(s, session, i);
      assert after.clients[n] in after.clients;
      ClosedIsInactive(s.threads, p);
    } else {
      ActivityKept(s.threads, after.threads, p);
      HalfwayKept(s, n, session, p);
    }
  }

  lemma ClosedIsInactive(threads: seq<Thread>, id: string)
    ensures !IsActive(CloseThread(threads, id), id)
  {
  }

  lemma QuietMoveKeepsExact(s: System, n: nat, session: string)
    requires Inv(s) && n < |s.clients| && session in s.pointers
    requires !(Move(s, s.clients[n]).2.Closed? && !s.clients[n].pc.Closed?)
    requires !(!s.clients[n].pc.Finished? && Move(s, s.clients[n]) == Creates(s, s.clients[n]))
    ensures var after := Next(s, n);
            IsActive(after.threads, s.pointers[session]) <==> !HalfwayOn(after.clients, session, s.pointers[session])
  {
    ActivityKept(s.threads, Next(s, n).threads, s.pointers[session]);
    HalfwayKept(s, n, session, s.pointers[session]);
  }

  lemma MoveKeepsExact(s: System, n: nat)
    requires Inv(s) && n < |s.clients|
    ensures InactiveIffHalfway(Next(s, n))
  {
    var after, c := Next(s, n), s.clients[n];
    forall session | session in after.pointers
      ensures IsActive(after.threads, after.pointers[session]) <==> !HalfwayOn(after.clients, session, after.pointers[session])
    {
      var (threads, pointers, pc) := Move(s, c);
      if !c.pc.Finished? && (threads, pointers, pc) == Creates(s, c) {
        CreateKeepsExact(s, n, session);
      } else if pc.Closed? && !c.pc.Closed? {
        CloseKeepsExact(s, n, session);
      } else {
        QuietMoveKeepsExact(s, n, session);
      }
    }
  }

  lemma MoveKeepsInv(s: System, n: nat)
    requires Inv(s) && n < |s.clients|
    ensures Inv(Next(s, n))
  {
    MoveKeepsStore(s, n);
    MoveKeepsKnowledge(s, n);
    MoveKeepsFreshIds(s, n);
    MoveKeepsExact(s, n);
  }

  lemma {:induction false} RunsKeepInv(s: System, schedule: seq<nat>)
    requires Initial(s)
    ensures Inv(Runs(s, schedule))
  {
    if schedule != [] {
      RunsKeepInv(s, Init(schedule));
      if Last(schedule) < |Runs(s, Init(schedule)).clients| {
        MoveKeepsInv(Runs(s, Init(schedule)), Last(schedule));
      }
    }
  }

  // ---- what every run guarantees -------------------------------------------------------------------------

  /** However the recalls interleave or stop, no session ever has two active threads. */
  lemma {:induction false} AtMostOneActiveThread(s: System, schedule: seq<nat>, i: nat, j: nat)
    requires Initial(s)
    requires var threads := Runs(s, schedule).threads;
             i < |threads| && j < |threads| && threads[i].active && threads[j].active && threads[i].sessionId == threads[j].sessionId
    ensures i == j
  {
    RunsKeepInv(s, schedule);
    var threads := Runs(s, schedule).threads;
    assert threads[i] in threads && threads[j] in threads;
  }

  /**
   However recalls interleave or stop, a session's pointer names an active thread
   exactly unless some recall of the session stands between closing that very thread
   and creating the next. A recall that stopped halfway does no harm once another one
   has created a thread.
   */
  lemma PointerNamesActiveThread(s: System, schedule: seq<nat>, session: string)
    requires Initial(s) && session in Runs(s, schedule).pointers
    ensures var r := Runs(s, schedule);
            IsActive(r.threads, r.pointers[session]) <==> !HalfwayOn(r.clients, session, r.pointers[session])
  {
    RunsKeepInv(s, schedule);
  }

  /** So it names the session's one active thread, if there is any. */
  lemma ActiveThreadIsPointed(s: System, schedule: seq<nat>, i: nat)
    requires Initial(s) && i < |Runs(s, schedule).threads| && Runs(s, schedule).threads[i].active
    ensures var r := Runs(s, schedule);
            var t := r.threads[i];
            t.sessionId in r.pointers && r.pointers[t.sessionId] == t.id && !HalfwayOn(r.clients, t.sessionId, t.id)
  {
    var r := Runs(s, schedule);
    RunsKeepInv(s, schedule);
    assert r.threads[i] in r.threads;
    assert IsActive(r.threads, r.threads[i].id);
  }

  // ---- the store operations, thread by thread ------------------------------------------------------

  /** Creating a thread closes the session's threads, leaves all others as they are, and appends an active one. */
  lemma CreateOpensOneThread(threads: seq<Thread>, session: string, id: string, title: string, run: string)
    ensures var after := CreateThread(threads, session, id, title, run);
            && |after| == |threads| + 1
            && (forall i | 0 <= i < |threads| ::
                  after[i] == threads[i].(active := threads[i].active && threads[i].sessionId != session))
            && var newest := after[|threads|];
            && newest.id == id && newest.sessionId == session && newest.active && newest.title == title
            && newest.startedRunId == newest.lastRunId == run
  {
  }

  /** Closing and touching a thread changes one field of that thread, and no other thread. */
  lemma CloseAndTouchChangeOneField(threads: seq<Thread>, id: string, run: string)
    ensures var closed, touched := CloseThread(threads, id), TouchThread(threads, id, run);
            && |closed| == |touched| == |threads|
            && forall i | 0 <= i < |threads| ::
                 && closed[i] == threads[i].(active := threads[i].active && threads[i].id != id)
                 && touched[i] == threads[i].(lastRunId := if threads[i].id == id then run else threads[i].lastRunId)
  {
  }

  // ---- closing a thread ---------------------------------------------------------------------------

  /** Closing a thread ends that thread alone, and closing it again changes nothing. */
  lemma CloseEndsOneThread(threads: seq<Thread>, id: string)
    requires ThreadsIdentified(threads)
    ensures var closed := CloseThread(threads, id);
            && ThreadsIdentified(closed) && OnlyCloses(threads, closed)
            && !IsActive(closed, id)
            && (forall other | other != id :: IsActive(closed, other) <==> IsActive(threads, other))
            && CloseThread(closed, id) == closed
  {
    var closed := CloseThread(threads, id);
    ClosedIsInactive(threads, id);
    forall other | other != id
      ensures IsActive(closed, other) <==> IsActive(threads, other)
    {
      ActivityKept(threads, closed, other);
    }
    forall t | t in closed
      ensures t.id != ""
    {
      var i :| 0 <= i < |closed| && closed[i] == t;
      assert threads[i] in threads;
    }
  }

  // ---- a recall that runs alone -----------------------------------------------------------------------------

  datatype Resolved = Resolved(threads: seq<Thread>, pointers: map<string, string>, threadId: string)

  /** The thread resolution of one undisturbed recall. */
  function Resolve(threads: seq<Thread>, pointers: map<string, string>, c: Client): Resolved {
    var p := PointerOf(pointers, c.sessionId);
    var found := p != "" && HasThread(threads, p);
    if c.startsNew then
      Resolved(
        CreateThread(if found then CloseThread(threads, p) else threads, c.sessionId, c.newId, c.title, c.runId),
        pointers[c.sessionId := c.newId], c.newId)
    else if p == "" then
      Resolved(CreateThread(threads, c.sessionId, c.newId, c.title, c.runId), pointers[c.sessionId := c.newId], c.newId)
    else Resolved(TouchThread(threads, p, c.runId), pointers, p)
  }

  /** Left alone, a recall at its start does exactly this in at most four store operations. */
  lemma UndisturbedRecallResolves(s: System, n: nat)
    requires n < |s.clients| && s.clients[n].pc == Start
    ensures var after, r := Next(Next(Next(Next(s, n), n), n), n), Resolve(s.threads, s.pointers, s.clients[n]);
            && after.threads == r.threads && after.pointers == r.pointers
            && after.clients == s.clients[n := s.clients[n].(pc := Finished(r.threadId))]
  {
    var c := s.clients[n];
    var p := PointerOf(s.pointers, c.sessionId);
    var found := p != "" && HasThread(s.threads, p);
    var s1, s2 := Next(s, n), Next(Next(s, n), n);
    assert s1 == s.(clients := s.clients[n := c.(pc := ReadPointer(p))]);
    assert s2 == s.(clients := s.clients[n := c.(pc := ReadThread(p, found))]);
    ResolvesFromRead(s, n, p, found);
  }

  lemma ResolvesFromRead(s: System, n: nat, p: string, found: bool)
    requires n < |s.clients| && p == PointerOf(s.pointers, s.clients[n].sessionId)
    requires found <==> p != "" && HasThread(s.threads, p)
    ensures var read := s.(clients := s.clients[n := s.clients[n].(pc := ReadThread(p, found))]);
            var after, r := Next(Next(read, n), n), Resolve(s.threads, s.pointers, s.clients[n]);
            && after.threads == r.threads && after.pointers == r.pointers
            && after.clients == s.clients[n := s.clients[n].(pc := Finished(r.threadId))]
  {
  }

  /**
   After an undisturbed recall the session's pointer names an active thread exactly
   when the recall opened one or the pointer named an active thread before.
   */
  lemma RecallLeavesActivePointerIff(threads: seq<Thread>, pointers: map<string, string>, c: Client)
    requires StoreInv(threads, pointers) && c.newId != "" && !HasThread(threads, c.newId)
    ensures var r := Resolve(threads, pointers, c);
            var before := PointerOf(pointers, c.sessionId);
            && PointerOf(r.pointers, c.sessionId) == r.threadId
            && (IsActive(r.threads, r.threadId) <==> c.startsNew || before == "" || IsActive(threads, before))
  {
    var r := Resolve(threads, pointers, c);
    var before := PointerOf(pointers, c.sessionId);
    if c.startsNew || before == "" {
      assert r.threads[|threads|] in r.threads;
    } else {
      TouchKeepsActive(threads, before, c.runId);
    }
  }

  /**
   An undisturbed recall works in a thread of its own if it starts something new or the
   session has no thread yet, and in the thread of the session otherwise.
   */
  lemma RecallOpensOrContinues(threads: seq<Thread>, pointers: map<string, string>, c: Client)
    ensures var r, p := Resolve(threads, pointers, c), if c.sessionId in pointers then pointers[c.sessionId] else "";
            var opens := c.startsNew || p == "";
            && r.threadId == (if opens then c.newId else p)
            && r.pointers == (if opens then pointers[c.sessionId := c.newId] else pointers)
            && |r.threads| == |threads| + (if opens then 1 else 0)
            && (opens ==> r.threads[|threads|] == Thread(c.newId, c.sessionId, true, c.title, c.runId, c.runId))
            && (opens ==> forall i | 0 <= i < |threads| ::
                  r.threads[i] == threads[i].(active := threads[i].active && threads[i].sessionId != c.sessionId
                                                        && !(c.startsNew && p != "" && threads[i].id == p)))
            && (!opens ==> forall i | 0 <= i < |threads| ::
                  r.threads[i] == threads[i].(lastRunId := if threads[i].id == p then c.runId else threads[i].lastRunId))
  {
    var p := PointerOf(pointers, c.sessionId);
    if c.startsNew || p == "" {
      var before := if c.startsNew && p != "" && HasThread(threads, p) then CloseThread(threads, p) else threads;
      CreateOpensOneThread(before, c.sessionId, c.newId, c.title, c.runId);
      CloseAndTouchChangeOneField(threads, p, c.runId);
      assert forall i | 0 <= i < |threads| :: threads[i] in threads;
    } else {
      CloseAndTouchChangeOneField(threads, p, c.runId);
    }
  }

  lemma TouchKeepsActive(threads: seq<Thread>, id: string, run: string)
    ensures IsActive(TouchThread(threads, id, run), id) <==> IsActive(threads, id)
  {
    var touched := TouchThread(threads, id, run);
    if IsActive(threads, id) {
      var i :| 0 <= i < |threads| && threads[i].id == id && threads[i].active;
      assert touched[i] in touched;
    }
    if IsActive(touched, id) {
      var i :| 0 <= i < |touched| && touched[i].id == id && touched[i].active;
      assert threads[i] in threads;
    }
  }

  // ---- a recall that stops halfway -----------------------------------------------------------------------------

  /** Three recalls of one session: the first opens thread a, the second is about a new event. */
  function Three(first: Pc, second: Pc, third: Pc): seq<Client> {
    [Client("s", "r1", "", false, "a", first), Client("s", "r2", "", true, "b", second), Client("s", "r3", "", false, "c", third)]
  }

  function OneThread(active: bool, lastRun: string): seq<Thread> {
    [Thread("a", "s", active, "", "r1", lastRun)]
  }

  function Thrice(s: System, n: nat): System {
    Next(Next(Next(s, n), n), n)
  }

  function Untouched(): System {
    System([], map[], Three(Start, Start, Start))
  }

  function Opened(): System {
    System(OneThread(true, "r1"), map["s" := "a"], Three(Finished("a"), Start, Start))
  }

  function Halted(): System {
    System(OneThread(false, "r1"), map["s" := "a"], Three(Finished("a"), Closed("a"), Start))
  }

  function Continued(): System {
    System(OneThread(false, "r3"), map["s" := "a"], Three(Finished("a"), Closed("a"), Finished("a")))
  }

  lemma FirstRecallOpens()
    ensures Thrice(Untouched(), 0) == Opened()
  {
    var s := Untouched();
    assert Next(s, 0) == s.(clients := Three(ReadPointer(""), Start, Start));
    assert Next(Next(s, 0), 0) == s.(clients := Three(ReadThread("", false), Start, Start));
  }

  lemma SecondRecallCloses()
    ensures Thrice(Opened(), 1) == Halted()
  {
    var s := Opened();
    assert s.threads[0] in s.threads;
    assert Next(s, 1) == s.(clients := Three(Finished("a"), ReadPointer("a"), Start));
    assert Next(Next(s, 1), 1) == s.(clients := Three(Finished("a"), ReadThread("a", true), Start));
  }

  lemma ThirdRecallContinues()
    ensures Thrice(Halted(), 2) == Continued()
  {
    var s := Halted();
    assert s.threads[0] in s.threads;
    assert Next(s, 2) == s.(clients := Three(Finished("a"), Closed("a"), ReadPointer("a")));
    assert Next(Next(s, 2), 2) == s.(clients := Three(Finished("a"), Closed("a"), ReadThread("a", true)));
  }

  lemma RunsSnoc(s: System, schedule: seq<nat>, n: nat)
    ensures Runs(s, schedule + [n]) == Next(Runs(s, schedule), n)
  {
    assert Init(schedule + [n]) == schedule;
  }

  lemma RunsThrice(s: System, schedule: seq<nat>, n: nat, from: System, to: System)
    requires Runs(s, schedule) == from && Thrice(from, n) == to
    ensures Runs(s, schedule + [n] + [n] + [n]) == to
  {
    RunsSnoc(s, schedule, n);
    RunsSnoc(s, schedule + [n], n);
    RunsSnoc(s, schedule + [n] + [n], n);
  }

  lemma HaltedRun() returns (schedule: seq<nat>)
    ensures Runs(Untouched(), schedule) == Continued()
  {
    var s0, s1, s2, s3 := Untouched(), Opened(), Halted(), Continued();
    FirstRecallOpens();
    SecondRecallCloses();
    ThirdRecallContinues();
    schedule := ChainRuns(s0, s1, s2, s3);
  }

  lemma ChainRuns(s0: System, s1: System, s2: System, s3: System) returns (schedule: seq<nat>)
    requires Thrice(s0, 0) == s1 && Thrice(s1, 1) == s2 && Thrice(s2, 2) == s3
    ensures Runs(s0, schedule) == s3
  {
    var none: seq<nat> := [];
    var first := none + [0] + [0] + [0];
    var second := first + [1] + [1] + [1];
    RunsThrice(s0, none, 0, s0, s1);
    RunsThrice(s0, first, 1, s1, s2);
    RunsThrice(s0, second, 2, s2, s3);
    schedule := second + [2] + [2] + [2];
  }

  /**
   A first recall creates a thread, a second one closes it and stops, a third one
   continues: it finishes on a closed thread, and the session has no active one.
   */
  lemma HalfwayRecallLeavesClosedPointer() returns (s: System, schedule: seq<nat>)
    ensures Initial(s)
    ensures var r := Runs(s, schedule);
            r.clients == Three(Finished("a"), Closed("a"), Finished("a")) && !IsActive(r.threads, "a")
  {
    s := Untouched();
    schedule := HaltedRun();
  }
}
