/** Which guides a sync imports over a run, and what their jobs show afterwards. */
module GuideRuns {
  import opened Wrappers
  import opened GuideSync

  /** One finished import of a sync: the item, how it went, and whether it stopped the run. */
  datatype Import = Import(item: nat, ok: bool, stop: bool)

  /** The imports of sync `id` after one more step; a new request under that name starts anew. */
  function Logged(s: State, a: Action, id: nat, done: seq<Import>): seq<Import> {
    if a.ImportEnds? && a.id == id && id in s.tasks && s.tasks[id].pc.Importing? then
      done + [Import(s.tasks[id].pc.i, a.ok, a.stop)]
    else if a.Request? && a.id == id then []
    else done
  }

  function ImportsOf(s: State, run: seq<Action>, id: nat, done: seq<Import>): seq<Import>
    decreases |run|
  {
    if run == [] then done else ImportsOf(Next(s, run[0]), run[1..], id, Logged(s, run[0], id, done))
  }

  /** Items from the first on, one import each, and none after one that stopped the run. */
  predicate InOrder(done: seq<Import>) {
    (forall k :: 0 <= k < |done| ==> done[k].item == k) && (forall k :: 0 <= k < |done| - 1 ==> !done[k].stop)
  }

  predicate Stopped(done: seq<Import>) { done != [] && done[|done| - 1].stop }

  /** What a sync is asked to import: one guide, the five guides, or that many sources. */
  predicate Whole(kind: Kind, done: seq<Import>) {
    InOrder(done) &&
    match kind
    case One(_) => |done| == 1 && !Stopped(done)
    case AllGuides => if Stopped(done) then 1 <= |done| <= 5 && !done[|done| - 1].ok else |done| == 5
    case AllSources(n) => |done| == n && !Stopped(done)
  }

  predicate Begun(kind: Kind, i: nat, done: seq<Import>) {
    InOrder(done) && !Stopped(done) && |done| == i &&
    match kind
    case One(_) => i == 0
    case AllGuides => i < 5
    case AllSources(n) => i < n
  }

  /** The outcome a sync returns: of its last import; a sync without one was given nothing to do, or no lock. */
  predicate Outcome(done: seq<Import>, ok: bool) { done != [] ==> (ok <==> done[|done| - 1].ok) }

  predicate LogOk(t: Task, done: seq<Import>) {
    match t.pc
    case TryLock => done == []
    case Importing(i) => Begun(t.kind, i, done)
    case Gap(i) => Begun(t.kind, i, done) && i > 0
    case Unlocking(ok) => Whole(t.kind, done) && Outcome(done, ok)
    case Returning(ok) => (done == [] && !ok) || (Whole(t.kind, done) && Outcome(done, ok))
  }

  /** The guides of a whole run: each shows how its import went, and the one in progress shows as running. */
  predicate JobsOk(t: Task, jobs: map<nat, Job>, done: seq<Import>) {
    t.kind == AllGuides ==>
      (forall k :: 0 <= k < |done| ==> k in jobs && jobs[k] == if done[k].ok then SuccessJob else ErrorJob) &&
      (t.pc.Importing? ==> t.pc.i in jobs && jobs[t.pc.i] == RunningJob)
  }

  predicate Told(s: State, id: nat, done: seq<Import>) {
    id in s.tasks ==>
      s.tasks[id].proc in s.procs && LogOk(s.tasks[id], done) &&
      JobsOk(s.tasks[id], s.procs[s.tasks[id].proc].jobs, done)
  }

  /** Sync `id` and its process's jobs are as they were. */
  predicate Untouched(s: State, s': State, id: nat) {
    id in s'.tasks ==>
      id in s.tasks && s'.tasks[id].kind == s.tasks[id].kind && s'.tasks[id].pc == s.tasks[id].pc &&
      s'.tasks[id].proc == s.tasks[id].proc && s.tasks[id].proc in s.procs && s.tasks[id].proc in s'.procs &&
      s'.procs[s.tasks[id].proc].jobs == s.procs[s.tasks[id].proc].jobs
  }

  predicate Own(a: Action, id: nat) {
    StepsTask(a, id) || a == Finish(id) || (a.Request? && a.id == id)
  }

  /** No other sync, process or session touches it. */
  lemma OthersLeaveIt(s: State, a: Action, id: nat)
    requires Inv(s) && Enabled(s, a) && !Own(a, id)
    ensures Untouched(s, Next(s, a), id)
  {
    match a
    case Request(p, kind, o) =>
    case Finish(o) =>
    case Kill(p) =>
    case IdleSessionEnds(x) =>
    case _ => TaskStepIsOwn(s, a, a.id);
  }

  lemma ImportedOneMore(kind: Kind, done: seq<Import>, ok: bool, stop: bool)
    requires Begun(kind, |done|, done) && (stop ==> !ok && kind == AllGuides)
    ensures var more := done + [Import(|done|, ok, stop)];
            if stop || |done| + 1 >= Steps(kind) then Whole(kind, more) && Outcome(more, ok)
            else Begun(kind, |done| + 1, more)
  {
  }

  /** What the end of an import does to its own sync and process. */
  lemma ImportedState(s: State, a: Action, id: nat)
    requires Enabled(s, a) && a.ImportEnds? && a.id == id && s.tasks[id].proc in s.procs
    ensures var t, s' := s.tasks[id], Next(s, a);
            id in s'.tasks && t.proc in s'.procs &&
            s'.tasks[id] ==
              t.(pc := if a.stop || t.pc.i + 1 >= Steps(t.kind) then Unlocking(a.ok) else Gap(t.pc.i + 1)) &&
            (t.kind == AllGuides ==> s'.procs[t.proc].jobs == s.procs[t.proc].jobs[t.pc.i := Finished(a.ok)])
  {
  }

  lemma ImportTells(s: State, a: Action, id: nat, done: seq<Import>)
    requires Enabled(s, a) && a.ImportEnds? && a.id == id && Told(s, id, done)
    ensures Told(Next(s, a), id, Logged(s, a, id, done))
  {
    ImportedState(s, a, id);
    ImportedOneMore(s.tasks[id].kind, done, a.ok, a.stop);
  }

  lemma AskTells(s: State, a: Action, id: nat, done: seq<Import>)
    requires Inv(s) && Enabled(s, a) && a.AskLock? && a.id == id && Told(s, id, done)
    ensures Told(Next(s, a), id, done)
  {
  }

  lemma RequestTells(s: State, a: Action, id: nat)
    requires Inv(s) && Enabled(s, a) && a.Request? && a.id == id
    ensures Told(Next(s, a), id, [])
  {
  }

  lemma OwnStepTells(s: State, a: Action, id: nat, done: seq<Import>)
    requires Enabled(s, a) && Told(s, id, done)
    requires a == Resume(id) || a == Unlock(id) || a == UnlockFails(id) || a == SessionLost(id) || a == Finish(id)
    ensures Told(Next(s, a), id, done)
  {
  }

  lemma StepTells(s: State, a: Action, id: nat, done: seq<Import>)
    requires Inv(s) && Enabled(s, a) && Told(s, id, done)
    ensures Told(Next(s, a), id, Logged(s, a, id, done))
  {
    if !Own(a, id) {
      OthersLeaveIt(s, a, id);
    } else if a.ImportEnds? {
      ImportTells(s, a, id, done);
    } else if a.AskLock? {
      AskTells(s, a, id, done);
    } else if a.Request? {
      RequestTells(s, a, id);
    } else {
      OwnStepTells(s, a, id, done);
    }
  }

  lemma {:induction false} RunTells(s: State, run: seq<Action>, id: nat, done: seq<Import>)
    requires Inv(s) && IsRun(s, run) && Told(s, id, done)
    ensures Inv(After(s, run)) && Told(After(s, run), id, ImportsOf(s, run, id, done))
    decreases |run|
  {
    if run == [] {
    } else {
      StepKeeps(s, run[0]);
      StepTells(s, run[0], id, done);
      RunTells(Next(s, run[0]), run[1..], id, Logged(s, run[0], id, done));
    }
  }

  /**
   In every run, whatever other syncs, processes and sessions do: once a sync has
   come to the unlock it has imported all its items, each once and in order; only a
   whole guide run ends early, right after a guide whose failure stopped it.
   */
  lemma EverythingIsImported(s: State, run: seq<Action>, id: nat)
    requires Initial(s) && IsRun(s, run) && id in After(s, run).tasks && After(s, run).tasks[id].pc.Unlocking?
    ensures Whole(After(s, run).tasks[id].kind, ImportsOf(s, run, id, []))
  {
    RunTells(s, run, id, []);
  }

  /** And its process then shows each imported guide as succeeded exactly when its import did. */
  lemma GuidesShowTheirImports(s: State, run: seq<Action>, id: nat, k: nat)
    requires Initial(s) && IsRun(s, run) && id in After(s, run).tasks && After(s, run).tasks[id].kind == AllGuides
    requires k < |ImportsOf(s, run, id, [])|
    ensures var end, done := After(s, run), ImportsOf(s, run, id, []);
            var p := end.tasks[id].proc;
            p in end.procs && k in end.procs[p].jobs &&
            (end.procs[p].jobs[k] == SuccessJob <==> done[k].ok) && (end.procs[p].jobs[k] == ErrorJob <==> !done[k].ok)
  {
    RunTells(s, run, id, []);
  }

  /** A single guide's sync leaves it shown as succeeded exactly when it was imported and the import succeeded. */
  lemma SingleGuideShowsItsImport(s: State, run: seq<Action>, id: nat, g: nat)
    requires Initial(s) && IsRun(s, run) && Enabled(After(s, run), Finish(id))
    requires After(s, run).tasks[id].kind == One(g)
    ensures var end, done := After(s, run), ImportsOf(s, run, id, []);
            var p := end.tasks[id].proc;
            var next := Next(end, Finish(id));
            p in next.procs && !next.procs[p].inFlight && g in next.procs[p].jobs && |done| <= 1 &&
            next.procs[p].jobs[g] == if done != [] && done[0].ok then SuccessJob else ErrorJob
  {
    RunTells(s, run, id, []);
  }
}
