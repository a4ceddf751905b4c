/**
 Price-guide sync: in each process a flag admits one sync at a time, and across
 processes a Postgres session advisory lock does. A step is the code between two
 awaits, or the end of a database session. The lock belongs to the session that
 took it, counts how often that session took it, and goes when the session ends,
 whatever the sync that asked for it is doing by then.
 */
module GuideSync {
  import opened Wrappers

  const GUIDES := 5

  datatype Job = IdleJob | RunningJob | SuccessJob | ErrorJob

  /** What one service instance keeps in memory. */
  datatype Proc = Proc(inFlight: bool, jobs: map<nat, Job>)

  const FRESH := Proc(false, map[])

  datatype Kind = One(guide: nat) | AllGuides | AllSources(count: nat)

  /** Where a sync stands: asking for the lock, importing item `i`, pausing before it, unlocking, returning. */
  datatype Pc = TryLock | Importing(i: nat) | Gap(i: nat) | Unlocking(ok: bool) | Returning(ok: bool)

  /** `conn` is the pooled connection that asked for the lock; `lost` once its session has ended mid-sync. */
  datatype Task = Task(proc: nat, kind: Kind, pc: Pc, conn: nat, lost: bool)

  // ---- One process -----------------------------------------------------------------------

  function Admit(p: Proc, kind: Kind): Option<Proc> {
    if p.inFlight || (kind.One? && kind.guide >= GUIDES) then None
    else Some(Proc(true, if kind.One? then p.jobs[kind.guide := RunningJob] else p.jobs))
  }

  function Finished(ok: bool): Job { if ok then SuccessJob else ErrorJob }

  /** The last stretch of a sync: record a single guide's result, clear the flag. */
  function Return(p: Proc, kind: Kind, ok: bool): Proc {
    Proc(false, if kind.One? then p.jobs[kind.guide := Finished(ok)] else p.jobs)
  }

  datatype Refusal = UnknownGuide | AlreadyRunning

  class PricechartingSync {
    var inFlight: bool
    var guideJobs: map<nat, Job>

    constructor ()
      ensures View() == FRESH
    {
      inFlight, guideJobs := false, map[];
    }

    ghost function View(): Proc
      reads this
    {
      Proc(inFlight, guideJobs)
    }

    method EnqueueOne(guide: nat) returns (r: Result<nat, Refusal>)
      modifies this
      ensures r.Ok? <==> Admit(old(View()), One(guide)).Some?
      ensures View() == if r.Ok? then Admit(old(View()), One(guide)).value else old(View())
      ensures r.Err? ==> (r.error == UnknownGuide <==> guide >= GUIDES)
    {
      if guide >= GUIDES {
        return Err(UnknownGuide);
      }
      if inFlight {
        return Err(AlreadyRunning);
      }
      inFlight := true;
      guideJobs := guideJobs[guide := RunningJob];
      r := Ok(guide);
    }

    /** `runAllGuides` and `runAll` up to the lock: false when a sync is already in flight here. */
    method BeginAll(kind: Kind) returns (begun: bool)
      requires !kind.One?
      modifies this
      ensures begun <==> Admit(old(View()), kind).Some?
      ensures View() == if begun then Admit(old(View()), kind).value else old(View())
    {
      if inFlight {
        return false;
      }
      inFlight := true;
      begun := true;
    }

    method SyncReturns(kind: Kind, ok: bool)
      modifies this
      ensures View() == Return(old(View()), kind, ok)
    {
      if kind.One? {
        guideJobs := guideJobs[kind.guide := if ok then SuccessJob else ErrorJob];
      }
      inFlight := false;
    }
  }

  // ---- The advisory lock ------------------------------------------------------------------------

  /** A database session: a connection of one process's pool. */
  datatype Session = Session(proc: nat, conn: nat)

  datatype Held = Held(session: Session, count: nat)

  /** `pg_try_advisory_lock`: the lock afterwards, or None when another session has it. */
  function TryTake(lock: Option<Held>, x: Session): Option<Option<Held>> {
    if lock.None? then Some(Some(Held(x, 1)))
    else if lock.value.session == x then Some(Some(Held(x, lock.value.count + 1)))
    else None
  }

  /** `pg_advisory_unlock`: undoes one taking by the same session. */
  function Released(lock: Option<Held>, x: Session): Option<Held> {
    if lock.None? || lock.value.session != x then lock
    else if lock.value.count <= 1 then None
    else Some(Held(x, lock.value.count - 1))
  }

  /** What is left of the lock when a session ends. */
  function WithoutSession(lock: Option<Held>, x: Session): Option<Held> {
    if lock.Some? && lock.value.session == x then None else lock
  }

  datatype LockRun = NotAcquired | Acquired | Threw

  class AdvisoryLock {
    var held: Option<Held>

    /**
     `runWithPgSessionAdvisoryLock`. `drops`: the session ends while `fn` runs, which
     `fn` does not notice; `unlockThrows`: the unlock query fails, which the code
     ignores, on a session that stays open. Without either the lock is afterwards
     what it was before; a dropped session frees it early; a failed unlock keeps it.
     */
    method RunWithPgSessionAdvisoryLock(x: Session, connects: bool, fnThrows: bool, drops: bool, unlockThrows: bool)
      returns (r: LockRun, ran: bool, ghost during: Option<Held>)
      requires held.Some? ==> held.value.count > 0
      modifies this
      ensures ran <==> connects && TryTake(old(held), x).Some?
      ensures ran ==> during.Some? && during.value.session == x && TryTake(old(held), x) == Some(during)
      ensures held == if !ran then old(held)
                      else if drops then None
                      else if unlockThrows then during
                      else old(held)
      ensures r == if !connects then Threw else if !ran then NotAcquired else if fnThrows then Threw else Acquired
    {
      if !connects {
        return Threw, false, held;
      }
      if held.Some? && held.value.session != x {
        return NotAcquired, false, held;
      }
      held := Some(Held(x, if held.Some? then held.value.count + 1 else 1));
      during := held;
      if drops {
        held := WithoutSession(held, x);
      }
      r := if fnThrows then Threw else Acquired;
      ran := true;
      if !unlockThrows {
        held := Released(held, x);
      }
    }
  }

  // ---- Many processes, interleaved --------------------------------------------------------------

  /** `unreleased` counts the failed unlocks of each session that is still open. */
  datatype State = State(
    lock: Option<Held>, unreleased: map<Session, nat>, procs: map<nat, Proc>, tasks: map<nat, Task>)

  datatype Action =
    | Request(proc: nat, kind: Kind, id: nat)
    | AskLock(id: nat, connects: bool, conn: nat)
    | ImportEnds(id: nat, ok: bool, stop: bool)
    | Resume(id: nat)
    | Unlock(id: nat)
    | UnlockFails(id: nat)
    | SessionLost(id: nat)
    | IdleSessionEnds(session: Session)
    | Finish(id: nat)
    | Kill(proc: nat)

  /** An import may stop the whole run only when a guide's failed for want of configuration. */
  predicate Enabled(s: State, a: Action) {
    match a
    case Request(p, _, id) => p in s.procs && id !in s.tasks
    case AskLock(id, _, _) => id in s.tasks && s.tasks[id].pc == TryLock
    case ImportEnds(id, ok, stop) =>
      id in s.tasks && s.tasks[id].pc.Importing? && (stop ==> !ok && s.tasks[id].kind == AllGuides)
    case Resume(id) => id in s.tasks && s.tasks[id].pc.Gap?
    case Unlock(id) => id in s.tasks && s.tasks[id].pc.Unlocking?
    case UnlockFails(id) => id in s.tasks && s.tasks[id].pc.Unlocking?
    case SessionLost(id) => id in s.tasks && Holds(s.tasks[id])
    case IdleSessionEnds(x) => forall id :: id in s.tasks && Holds(s.tasks[id]) ==> SessionOf(s.tasks[id]) != x
    case Finish(id) => id in s.tasks && s.tasks[id].pc.Returning?
    case Kill(p) => p in s.procs
  }

  predicate Working(pc: Pc) { pc.Importing? || pc.Gap? || pc.Unlocking? }

  /** The sync was given the lock, and the session that holds it for the sync is still open. */
  predicate Holds(t: Task) { Working(t.pc) && !t.lost }

  function SessionOf(t: Task): Session { Session(t.proc, t.conn) }

  function Steps(kind: Kind): nat {
    match kind case One(_) => 1 case AllGuides => GUIDES case AllSources(n) => n
  }

  /** The item imported at position `i`; AllGuides shows its guide as running while it imports. */
  function Show(p: Proc, kind: Kind, i: nat, job: Job): Proc {
    if kind == AllGuides then p.(jobs := p.jobs[i := job]) else p
  }

  function At(s: State, id: nat, pc: Pc): State {
    if id in s.tasks then s.(tasks := s.tasks[id := s.tasks[id].(pc := pc)]) else s
  }

  function WithProc(s: State, p: nat, proc: Proc): State { s.(procs := s.procs[p := proc]) }

  function ProcOf(s: State, p: nat): Proc { if p in s.procs then s.procs[p] else FRESH }

  function Leaks(s: State, x: Session): nat { if x in s.unreleased then s.unreleased[x] else 0 }

  /** A session's end gives back whatever it still held. */
  function Closed(s: State, x: Session): State {
    s.(lock := WithoutSession(s.lock, x), unreleased := s.unreleased - {x})
  }

  function Next(s: State, a: Action): State {
    match a
    case Request(p, kind, id) =>
      (match Admit(ProcOf(s, p), kind)
       case None => s
       case Some(proc) => WithProc(s, p, proc).(tasks := s.tasks[id := Task(p, kind, TryLock, 0, false)]))
    case AskLock(id, connects, conn) =>
      if id !in s.tasks then s
      else
        var t := s.tasks[id];
        var taken := TryTake(s.lock, Session(t.proc, conn));
        if !connects || taken.None? then At(s, id, Returning(false))
        else
          var held := s.(lock := taken.value, tasks := s.tasks[id := t.(conn := conn, lost := false)]);
          if Steps(t.kind) == 0 then At(held, id, Unlocking(true))
          else At(WithProc(held, t.proc, Show(ProcOf(s, t.proc), t.kind, 0, RunningJob)), id, Importing(0))
    case ImportEnds(id, ok, stop) =>
      if id !in s.tasks || !s.tasks[id].pc.Importing? then s
      else
        var t := s.tasks[id];
        var shown := WithProc(s, t.proc, Show(ProcOf(s, t.proc), t.kind, t.pc.i, Finished(ok)));
        At(shown, id, if stop || t.pc.i + 1 >= Steps(t.kind) then Unlocking(ok) else Gap(t.pc.i + 1))
    case Resume(id) =>
      if id !in s.tasks || !s.tasks[id].pc.Gap? then s
      else
        var t := s.tasks[id];
        At(WithProc(s, t.proc, Show(ProcOf(s, t.proc), t.kind, t.pc.i, RunningJob)), id, Importing(t.pc.i))
    case Unlock(id) =>
      if id !in s.tasks || !s.tasks[id].pc.Unlocking? then s
      else
        var t := s.tasks[id];
        At(if t.lost then s else s.(lock := Released(s.lock, SessionOf(t))), id, Returning(t.pc.ok))
    case UnlockFails(id) =>
      if id !in s.tasks || !s.tasks[id].pc.Unlocking? then s
      else
        var t := s.tasks[id];
        At(if t.lost then s else s.(unreleased := s.unreleased[SessionOf(t) := Leaks(s, SessionOf(t)) + 1]),
           id, Returning(t.pc.ok))
    case SessionLost(id) =>
      if id !in s.tasks then s
      else Closed(s, SessionOf(s.tasks[id])).(tasks := s.tasks[id := s.tasks[id].(lost := true)])
    case IdleSessionEnds(x) => Closed(s, x)
    case Finish(id) =>
      if id !in s.tasks || !s.tasks[id].pc.Returning? then s
      else
        var t := s.tasks[id];
        WithProc(s, t.proc, Return(ProcOf(s, t.proc), t.kind, t.pc.ok)).(tasks := s.tasks - {id})
    case Kill(p) =>
      var alive := map id | id in s.tasks && s.tasks[id].proc != p :: s.tasks[id];
      State(if s.lock.Some? && s.lock.value.session.proc == p then None else s.lock,
            map x | x in s.unreleased && x.proc != p :: s.unreleased[x], s.procs[p := FRESH], alive)
  }

  /** Task `t` accounts for guide `g` showing as running. */
  predicate Shows(t: Task, g: nat) {
    t.kind == One(g) || (t.kind == AllGuides && t.pc == Importing(g))
  }

  ghost predicate OneTaskPerProc(s: State) {
    (forall id :: id in s.tasks ==> s.tasks[id].proc in s.procs && s.procs[s.tasks[id].proc].inFlight) &&
    (forall a, b :: a in s.tasks && b in s.tasks && s.tasks[a].proc == s.tasks[b].proc ==> a == b) &&
    (forall p :: p in s.procs && s.procs[p].inFlight ==> exists id :: id in s.tasks && s.tasks[id].proc == p)
  }

  predicate InUse(s: State) { exists id :: id in s.tasks && Holds(s.tasks[id]) }

  /** The lock is held once for the sync using it and once for each failed unlock, by one session. */
  ghost predicate CountOk(lock: Option<Held>, unreleased: map<Session, nat>, used: bool) {
    (used ==> lock.Some?) &&
    (forall x :: x in unreleased ==> lock.Some? && lock.value.session == x && unreleased[x] > 0) &&
    (lock.Some? ==>
       var x := lock.value.session;
       lock.value.count == (if x in unreleased then unreleased[x] else 0) + (if used then 1 else 0) &&
       lock.value.count > 0)
  }

  /** Whoever holds for a sync has the lock. */
  ghost predicate HoldersHaveIt(s: State) {
    forall id :: id in s.tasks && Holds(s.tasks[id]) ==> s.lock.Some? && s.lock.value.session == SessionOf(s.tasks[id])
  }

  ghost predicate LockOk(s: State) { HoldersHaveIt(s) && CountOk(s.lock, s.unreleased, InUse(s)) }

  lemma TakeCounts(lock: Option<Held>, unreleased: map<Session, nat>, x: Session)
    requires CountOk(lock, unreleased, false) && TryTake(lock, x).Some?
    ensures CountOk(TryTake(lock, x).value, unreleased, true)
  {
  }

  lemma GiveCounts(lock: Option<Held>, unreleased: map<Session, nat>)
    requires CountOk(lock, unreleased, true)
    ensures var x := lock.value.session;
            CountOk(Released(lock, x), unreleased, false) &&
            CountOk(lock, unreleased[x := (if x in unreleased then unreleased[x] else 0) + 1], false) &&
            CountOk(WithoutSession(lock, x), unreleased - {x}, false)
  {
  }

  ghost predicate RunningIsShown(s: State) {
    forall p, g :: p in s.procs && g in s.procs[p].jobs && s.procs[p].jobs[g] == RunningJob ==>
      exists id :: id in s.tasks && s.tasks[id].proc == p && Shows(s.tasks[id], g)
  }

  ghost predicate Inv(s: State) { OneTaskPerProc(s) && LockOk(s) && RunningIsShown(s) }

  predicate Initial(s: State) {
    s.lock == None && s.unreleased == map[] && s.tasks == map[] && forall p :: p in s.procs ==> s.procs[p] == FRESH
  }

  /** A step of one task that keeps it alive: other tasks and processes are untouched, and so are the flags. */
  ghost predicate OwnStep(s: State, s': State, id: nat) {
    id in s.tasks && s'.tasks.Keys == s.tasks.Keys && s'.procs.Keys == s.procs.Keys &&
    s'.tasks[id].proc == s.tasks[id].proc && s'.tasks[id].kind == s.tasks[id].kind && s.tasks[id].proc in s.procs &&
    (forall o :: o in s.tasks && o != id ==> s'.tasks[o] == s.tasks[o]) &&
    (forall p :: p in s.procs ==> s'.procs[p].inFlight == s.procs[p].inFlight) &&
    (forall p :: p in s.procs && p != s.tasks[id].proc ==> s'.procs[p] == s.procs[p])
  }

  lemma OwnStepKeepsTasks(s: State, s': State, id: nat)
    requires OneTaskPerProc(s) && OwnStep(s, s', id)
    ensures OneTaskPerProc(s')
  {
    forall o | o in s.tasks ensures s'.tasks[o].proc == s.tasks[o].proc {}
    forall p | p in s'.procs && s'.procs[p].inFlight ensures exists o :: o in s'.tasks && s'.tasks[o].proc == p {
      var o :| o in s.tasks && s.tasks[o].proc == p;
      assert s'.tasks[o].proc == p;
    }
  }

  /** The guides shown as running in a task's process are the task's own. */
  ghost predicate ShowsOnlyOwn(s: State, id: nat) {
    id in s.tasks && s.tasks[id].proc in s.procs &&
    forall g :: g in s.procs[s.tasks[id].proc].jobs && s.procs[s.tasks[id].proc].jobs[g] == RunningJob ==>
      Shows(s.tasks[id], g)
  }

  lemma OwnStepKeepsShown(s: State, s': State, id: nat)
    requires RunningIsShown(s) && OwnStep(s, s', id)
    requires ShowsOnlyOwn(s', id)
    ensures RunningIsShown(s')
  {
    forall p, g | p in s'.procs && g in s'.procs[p].jobs && s'.procs[p].jobs[g] == RunningJob
      ensures exists o :: o in s'.tasks && s'.tasks[o].proc == p && Shows(s'.tasks[o], g)
    {
      if p == s.tasks[id].proc {
        assert s'.tasks[id].proc == p && Shows(s'.tasks[id], g);
      } else {
        var o :| o in s.tasks && s.tasks[o].proc == p && Shows(s.tasks[o], g);
        assert s'.tasks[o] == s.tasks[o];
      }
    }
  }

  /** No other task lives in its process, so nothing else can be shown as running there. */
  lemma OwnGuides(s: State, id: nat)
    requires Inv(s) && id in s.tasks
    ensures ShowsOnlyOwn(s, id)
  {
  }

  /** The steps of a sync between admission and return. */
  predicate StepsTask(a: Action, id: nat) {
    (a.AskLock? && a.id == id) || (a.ImportEnds? && a.id == id) || a == Resume(id) || a == Unlock(id) ||
    a == UnlockFails(id) || a == SessionLost(id)
  }

  lemma TaskStepIsOwn(s: State, a: Action, id: nat)
    requires Enabled(s, a) && StepsTask(a, id) && s.tasks[id].proc in s.procs
    ensures OwnStep(s, Next(s, a), id)
  {
  }

  /** If a sync holds the lock, it is the only one that does. */
  lemma HolderIsAlone(s: State, id: nat)
    requires LockOk(s) && OneTaskPerProc(s) && id in s.tasks
    requires s.lock.Some? && s.lock.value.session.proc == s.tasks[id].proc
    ensures InUse(s) <==> Holds(s.tasks[id])
    ensures forall o :: o in s.tasks && o != id ==> !Holds(s.tasks[o])
  {
  }

  /** The tasks but `id` are as they were. */
  ghost predicate OthersStay(s: State, s': State, id: nat) {
    id in s.tasks && s'.tasks.Keys == s.tasks.Keys && forall o :: o in s.tasks && o != id ==> s'.tasks[o] == s.tasks[o]
  }

  /** A step after which nobody but `id` can be holding. */
  lemma InUseAfter(s: State, s': State, id: nat)
    requires OthersStay(s, s', id) && forall o :: o in s.tasks && o != id ==> !Holds(s.tasks[o])
    ensures InUse(s') <==> Holds(s'.tasks[id])
  {
  }

  lemma TakeKeepsLock(s: State, id: nat, connects: bool, conn: nat)
    requires LockOk(s) && OneTaskPerProc(s) && Enabled(s, AskLock(id, connects, conn))
    ensures LockOk(Next(s, AskLock(id, connects, conn)))
  {
    var s' := Next(s, AskLock(id, connects, conn));
    var x := Session(s.tasks[id].proc, conn);
    if connects && TryTake(s.lock, x).Some? {
      NobodyHolds(s, id, x);
      TakenState(s, id, conn);
      InUseAfter(s, s', id);
      TakeCounts(s.lock, s.unreleased, x);
      assert HoldersHaveIt(s');
    } else {
      assert s' == At(s, id, Returning(false));
      HoldsAlike(s, s', id);
    }
  }

  lemma TakenState(s: State, id: nat, conn: nat)
    requires Enabled(s, AskLock(id, true, conn)) && TryTake(s.lock, Session(s.tasks[id].proc, conn)).Some?
    ensures var s' := Next(s, AskLock(id, true, conn));
            OthersStay(s, s', id) && Holds(s'.tasks[id]) &&
            SessionOf(s'.tasks[id]) == Session(s.tasks[id].proc, conn) &&
            Some(s'.lock) == TryTake(s.lock, SessionOf(s'.tasks[id])) && s'.unreleased == s.unreleased
  {
  }

  /** A sync still asking can only be given a lock nobody holds for another sync. */
  lemma NobodyHolds(s: State, id: nat, x: Session)
    requires LockOk(s) && OneTaskPerProc(s) && id in s.tasks && s.tasks[id].pc == TryLock
    requires x.proc == s.tasks[id].proc && TryTake(s.lock, x).Some?
    ensures !InUse(s) && forall o :: o in s.tasks ==> !Holds(s.tasks[o])
  {
    if s.lock.Some? {
      HolderIsAlone(s, id);
    }
  }

  lemma HoldsAlike(s: State, s': State, id: nat)
    requires OthersStay(s, s', id) && (Holds(s'.tasks[id]) <==> Holds(s.tasks[id]))
    ensures InUse(s') <==> InUse(s)
  {
    if o :| o in s.tasks && Holds(s.tasks[o]) {
      assert Holds(s'.tasks[o]);
    }
    if o :| o in s'.tasks && Holds(s'.tasks[o]) {
      assert Holds(s.tasks[o]);
    }
  }

  lemma WorkKeepsLock(s: State, a: Action, id: nat)
    requires LockOk(s) && Enabled(s, a) && (a == Resume(id) || (a.ImportEnds? && a.id == id))
    ensures LockOk(Next(s, a))
  {
    HoldsAlike(s, Next(s, a), id);
  }

  lemma GiveKeepsLock(s: State, a: Action, id: nat)
    requires LockOk(s) && OneTaskPerProc(s) && Enabled(s, a)
    requires a == Unlock(id) || a == UnlockFails(id) || a == SessionLost(id)
    ensures LockOk(Next(s, a))
  {
    var s' := Next(s, a);
    if Holds(s.tasks[id]) {
      HolderIsAlone(s, id);
      GivenState(s, a, id);
      GivenKeepsLock(s, s', id);
    } else {
      assert s'.lock == s.lock && s'.unreleased == s.unreleased;
      HoldsAlike(s, s', id);
    }
  }

  /** The lock was released, kept by a failed unlock, or lost with its session. */
  predicate GivenBack(s: State, s': State, x: Session) {
    (s'.lock == Released(s.lock, x) && s'.unreleased == s.unreleased) ||
    (s'.lock == s.lock && s'.unreleased == s.unreleased[x := Leaks(s, x) + 1]) ||
    (s'.lock == WithoutSession(s.lock, x) && s'.unreleased == s.unreleased - {x})
  }

  /** The only holder stops holding: the lock is released, kept by a failed unlock, or gone with its session. */
  lemma GivenKeepsLock(s: State, s': State, id: nat)
    requires LockOk(s) && OthersStay(s, s', id) && Holds(s.tasks[id]) && !Holds(s'.tasks[id])
    requires forall o :: o in s.tasks && o != id ==> !Holds(s.tasks[o])
    requires GivenBack(s, s', SessionOf(s.tasks[id]))
    ensures LockOk(s')
  {
    InUseAfter(s, s', id);
    GiveCounts(s.lock, s.unreleased);
  }

  lemma GivenState(s: State, a: Action, id: nat)
    requires (a == Unlock(id) || a == UnlockFails(id) || a == SessionLost(id)) && Enabled(s, a)
    requires Holds(s.tasks[id]) && s.lock.Some? && s.lock.value.session == SessionOf(s.tasks[id])
    ensures var s', x := Next(s, a), SessionOf(s.tasks[id]);
            OthersStay(s, s', id) && !Holds(s'.tasks[id]) &&
            s'.lock == (if a.Unlock? then Released(s.lock, x) else if a.UnlockFails? then s.lock
                        else WithoutSession(s.lock, x)) &&
            s'.unreleased == if a.Unlock? then s.unreleased
                             else if a.UnlockFails? then s.unreleased[x := Leaks(s, x) + 1]
                             else s.unreleased - {x}
  {
  }

  lemma TaskStepKeepsLock(s: State, a: Action, id: nat)
    requires LockOk(s) && OneTaskPerProc(s) && Enabled(s, a) && StepsTask(a, id)
    ensures LockOk(Next(s, a))
  {
    match a
    case AskLock(_, connects, conn) => TakeKeepsLock(s, id, connects, conn);
    case ImportEnds(_, _, _) => WorkKeepsLock(s, a, id);
    case Resume(_) => WorkKeepsLock(s, a, id);
    case _ => GiveKeepsLock(s, a, id);
  }

  lemma IdleEndKeeps(s: State, x: Session)
    requires Inv(s) && Enabled(s, IdleSessionEnds(x))
    ensures Inv(Next(s, IdleSessionEnds(x)))
  {
    var s' := Next(s, IdleSessionEnds(x));
    assert s'.tasks == s.tasks && s'.procs == s.procs;
    assert InUse(s') <==> InUse(s);
  }

  lemma TaskStepShows(s: State, a: Action, id: nat)
    requires Enabled(s, a) && ShowsOnlyOwn(s, id)
    requires StepsTask(a, id)
    ensures ShowsOnlyOwn(Next(s, a), id)
  {
  }

  lemma TaskStepKeeps(s: State, a: Action, id: nat)
    requires Inv(s) && Enabled(s, a)
    requires StepsTask(a, id)
    ensures Inv(Next(s, a))
  {
    OwnGuides(s, id);
    TaskStepIsOwn(s, a, id);
    TaskStepKeepsLock(s, a, id);
    TaskStepShows(s, a, id);
    OwnStepKeepsTasks(s, Next(s, a), id);
    OwnStepKeepsShown(s, Next(s, a), id);
  }

  lemma RequestKeepsLock(s: State, p: nat, kind: Kind, id: nat)
    requires LockOk(s) && Enabled(s, Request(p, kind, id))
    ensures LockOk(Next(s, Request(p, kind, id)))
  {
    var s' := Next(s, Request(p, kind, id));
    if Admit(s.procs[p], kind).Some? {
      forall o ensures o in s'.tasks && Holds(s'.tasks[o]) <==> o in s.tasks && Holds(s.tasks[o]) {}
      SameHolders(s, s');
    }
  }

  lemma SameHolders(s: State, s': State)
    requires forall o :: o in s'.tasks && Holds(s'.tasks[o]) <==> o in s.tasks && Holds(s.tasks[o])
    ensures InUse(s') <==> InUse(s)
  {
  }

  lemma FinishKeepsLock(s: State, id: nat)
    requires LockOk(s) && Enabled(s, Finish(id))
    ensures LockOk(Next(s, Finish(id)))
  {
    SameHolders(s, Next(s, Finish(id)));
  }

  lemma KillKeepsLock(s: State, p: nat)
    requires LockOk(s) && Enabled(s, Kill(p))
    ensures LockOk(Next(s, Kill(p)))
  {
    var s' := Next(s, Kill(p));
    if s.lock.Some? && s.lock.value.session.proc != p {
      forall o ensures o in s'.tasks && Holds(s'.tasks[o]) <==> o in s.tasks && Holds(s.tasks[o]) {}
      SameHolders(s, s');
    }
  }

  lemma RequestKeeps(s: State, p: nat, kind: Kind, id: nat)
    requires Inv(s) && Enabled(s, Request(p, kind, id))
    ensures Inv(Next(s, Request(p, kind, id)))
  {
    var s' := Next(s, Request(p, kind, id));
    RequestKeepsLock(s, p, kind, id);
    if Admit(s.procs[p], kind).Some? {
      assert s'.tasks[id].proc == p;
      forall q, g | q in s'.procs && g in s'.procs[q].jobs && s'.procs[q].jobs[g] == RunningJob
        ensures exists o :: o in s'.tasks && s'.tasks[o].proc == q && Shows(s'.tasks[o], g)
      {
        if q == p && kind == One(g) {
          assert Shows(s'.tasks[id], g);
        } else {
          var o :| o in s.tasks && s.tasks[o].proc == q && Shows(s.tasks[o], g);
          assert s'.tasks[o] == s.tasks[o];
        }
      }
      forall q | q in s'.procs && s'.procs[q].inFlight ensures exists o :: o in s'.tasks && s'.tasks[o].proc == q {
        if q != p {
          var o :| o in s.tasks && s.tasks[o].proc == q;
          assert s'.tasks[o].proc == q;
        }
      }
    }
  }

  lemma FinishKeeps(s: State, id: nat)
    requires Inv(s) && Enabled(s, Finish(id))
    ensures Inv(Next(s, Finish(id)))
  {
    var s' := Next(s, Finish(id));
    FinishKeepsLock(s, id);
    var p := s.tasks[id].proc;
    forall q, g | q in s'.procs && g in s'.procs[q].jobs && s'.procs[q].jobs[g] == RunningJob
      ensures exists o :: o in s'.tasks && s'.tasks[o].proc == q && Shows(s'.tasks[o], g)
    {
      assert g in s.procs[q].jobs && s.procs[q].jobs[g] == RunningJob;
      var o :| o in s.tasks && s.tasks[o].proc == q && Shows(s.tasks[o], g);
      assert o in s'.tasks;
    }
    forall q | q in s'.procs && s'.procs[q].inFlight ensures exists o :: o in s'.tasks && s'.tasks[o].proc == q {
      var o :| o in s.tasks && s.tasks[o].proc == q;
      assert o in s'.tasks;
    }
  }

  lemma KillKeeps(s: State, p: nat)
    requires Inv(s) && Enabled(s, Kill(p))
    ensures Inv(Next(s, Kill(p)))
  {
    var s' := Next(s, Kill(p));
    KillKeepsLock(s, p);
    forall q, g | q in s'.procs && g in s'.procs[q].jobs && s'.procs[q].jobs[g] == RunningJob
      ensures exists o :: o in s'.tasks && s'.tasks[o].proc == q && Shows(s'.tasks[o], g)
    {
      var o :| o in s.tasks && s.tasks[o].proc == q && Shows(s.tasks[o], g);
      assert o in s'.tasks;
    }
    forall q | q in s'.procs && s'.procs[q].inFlight ensures exists o :: o in s'.tasks && s'.tasks[o].proc == q {
      var o :| o in s.tasks && s.tasks[o].proc == q;
      assert o in s'.tasks;
    }
  }

  lemma StepKeeps(s: State, a: Action)
    requires Inv(s) && Enabled(s, a)
    ensures Inv(Next(s, a))
  {
    match a
    case Request(p, kind, id) => RequestKeeps(s, p, kind, id);
    case Finish(id) => FinishKeeps(s, id);
    case Kill(p) => KillKeeps(s, p);
    case IdleSessionEnds(x) => IdleEndKeeps(s, x);
    case _ => TaskStepKeeps(s, a, a.id);
  }

  ghost predicate IsRun(s: State, run: seq<Action>)
    decreases |run|
  {
    run != [] ==> Enabled(s, run[0]) && IsRun(Next(s, run[0]), run[1..])
  }

  function After(s: State, run: seq<Action>): State
    decreases |run|
  {
    if run == [] then s else After(Next(s, run[0]), run[1..])
  }

  lemma {:induction false} RunKeeps(s: State, run: seq<Action>)
    requires Inv(s) && IsRun(s, run)
    ensures Inv(After(s, run))
    decreases |run|
  {
    if run == [] {
    } else {
      StepKeeps(s, run[0]);
      RunKeeps(Next(s, run[0]), run[1..]);
    }
  }

  /**
   With any number of processes sharing the lock, two imports execute at once only
   if one of them has lost the session that held the lock for it.
   */
  lemma OneImportAtATime(s: State, run: seq<Action>, a: nat, b: nat)
    requires Initial(s) && IsRun(s, run) && a in After(s, run).tasks && b in After(s, run).tasks && a != b
    ensures var end := After(s, run);
            end.tasks[a].pc.Importing? && end.tasks[b].pc.Importing? ==> end.tasks[a].lost || end.tasks[b].lost
    ensures !(Holds(After(s, run).tasks[a]) && Holds(After(s, run).tasks[b]))
  {
    RunKeeps(s, run);
    var end := After(s, run);
    if Holds(end.tasks[a]) {
      HolderIsAlone(end, a);
    }
  }

  /**
   And that is enough: whenever an importing sync has lost its session and nobody
   has taken the lock since, any idle process can start a second import beside it.
   */
  lemma LostSessionAdmitsAnother(s: State, a: nat, p: nat, id: nat, conn: nat)
    requires a in s.tasks && s.tasks[a].pc.Importing? && s.tasks[a].lost && s.lock.None?
    requires p in s.procs && !s.procs[p].inFlight && id !in s.tasks
    ensures var run := [Request(p, AllGuides, id), AskLock(id, true, conn)];
            var end := After(s, run);
            IsRun(s, run) && a != id && a in end.tasks && id in end.tasks &&
            end.tasks[a].pc.Importing? && end.tasks[id].pc.Importing?
  {
    var run := [Request(p, AllGuides, id), AskLock(id, true, conn)];
    var asking := Next(s, run[0]);
    assert run[1..] == [AskLock(id, true, conn)] && run[1..][1..] == [];
    assert asking.tasks[id].pc == TryLock && asking.lock.None?;
    assert After(s, run) == After(asking, run[1..]) == Next(asking, run[1]);
  }

  /** A failed unlock is the only thing that leaves something unreleased. */
  lemma {:induction false} OnlyFailedUnlocksLeak(s: State, run: seq<Action>)
    requires s.unreleased == map[] && forall a :: a in run ==> !a.UnlockFails?
    ensures After(s, run).unreleased == map[]
    decreases |run|
  {
    if run == [] {
    } else {
      assert run[0] in run;
      OnlyFailedUnlocksLeak(Next(s, run[0]), run[1..]);
    }
  }

  /**
   The lock is free exactly when no sync is at work on an open session and every
   failed unlock's session has ended; so without failed unlocks, exactly when no
   sync is at work on an open session.
   */
  lemma LockIsReleased(s: State, run: seq<Action>)
    requires Initial(s) && IsRun(s, run)
    ensures var end := After(s, run);
            end.lock.None? <==> !InUse(end) && end.unreleased == map[]
    ensures (forall a :: a in run ==> !a.UnlockFails?) ==> After(s, run).unreleased == map[]
  {
    RunKeeps(s, run);
    var end := After(s, run);
    if end.lock.Some? && end.unreleased == map[] {
      assert InUse(end);
    }
    if forall a :: a in run ==> !a.UnlockFails? {
      OnlyFailedUnlocksLeak(s, run);
    }
  }

  /** A guide shown as running is backed by a sync in flight in that process; an idle process shows none. */
  lemma RunningImpliesInFlight(s: State, run: seq<Action>, p: nat, g: nat)
    requires Initial(s) && IsRun(s, run) && p in After(s, run).procs && g in After(s, run).procs[p].jobs
    ensures var end := After(s, run);
            end.procs[p].jobs[g] == RunningJob ==>
              end.procs[p].inFlight &&
              exists id :: id in end.tasks && end.tasks[id].proc == p && Shows(end.tasks[id], g)
  {
    RunKeeps(s, run);
  }
}
