/**
 The Transfer-index listener: when backfill passes and idle polls run. A step is
 one stretch of code between two awaits, a timer firing, or `onModuleDestroy`.
 */
module IndexScheduler {
  import opened Powers
  import opened Wrappers

  /** An armed timer is the delay it was armed with. */
  datatype Flags = Flags(backfillTimer: Option<nat>, pollTimer: Option<nat>, backfillRunning: bool, pollRunning: bool,
                         stopped: bool, failStreak: nat)

  /** Delays in milliseconds, and the number of chains with a deploy block. */
  datatype Settings = Settings(passDelay: nat, pollDelay: nat, chains: nat)

  datatype Phase = AskReady | Filling | AskAgain

  /** An async function suspended at an await; `chain` is the chain it waits on. */
  datatype Task =
    | Boot(chain: nat)
    | Backfill(chain: nat, phase: Phase, needsAnother: bool, failed: bool)
    | PollCheck(chain: nat)
    | Poll(chain: nat)

  const FAILURE_CAP_MS := 15 * 60_000

  function FailureDelay(base: nat, streak: nat): nat {
    var delay := base * Pow2(if streak < 4 then streak else 4);
    if delay < FAILURE_CAP_MS then delay else FAILURE_CAP_MS
  }

  function ArmBackfill(f: Flags, delay: nat): Flags {
    if f.stopped || f.backfillTimer.Some? then f else f.(backfillTimer := Some(delay))
  }

  function ArmPoll(f: Flags, cfg: Settings): Flags {
    if f.stopped || f.pollTimer.Some? || cfg.chains == 0 then f else f.(pollTimer := Some(cfg.pollDelay))
  }

  /** `runBackfillPass` up to its first await: the flags, and the task if the pass runs. */
  function BeginPass(f: Flags): (Flags, seq<Task>) {
    if f.stopped || f.backfillRunning then (f, [])
    else (f.(backfillRunning := true), [Backfill(0, AskReady, false, false)])
  }

  /** After the last chain: clear the flag, then back off, go again, or go idle. */
  function EndPass(f: Flags, cfg: Settings, needsAnother: bool, failed: bool): Flags {
    var f := f.(backfillRunning := false);
    if f.stopped then f
    else if failed then
      ArmBackfill(f.(failStreak := f.failStreak + 1), FailureDelay(cfg.passDelay, f.failStreak + 1))
    else if needsAnother then ArmBackfill(f.(failStreak := 0), cfg.passDelay)
    else ArmPoll(f.(failStreak := 0), cfg)
  }

  /** `pollAllChains` up to its first await. */
  function BeginPoll(f: Flags, cfg: Settings): (Flags, seq<Task>) {
    if f.stopped || f.pollRunning then (ArmPoll(f, cfg), []) else (f, [PollCheck(0)])
  }

  function SkipPoll(f: Flags, cfg: Settings): Flags {
    if f.backfillTimer.None? && !f.backfillRunning then ArmBackfill(f, cfg.passDelay) else f
  }

  function EndPoll(f: Flags, cfg: Settings): Flags {
    ArmPoll(f.(pollRunning := false), cfg)
  }

  function Stopped(f: Flags): Flags {
    f.(stopped := true, backfillTimer := None, pollTimer := None)
  }

  // ---- The service's fields ---------------------------------------------------

  class TransferIndexListener {
    const cfg: Settings
    var backfillTimer: Option<nat>
    var pollTimer: Option<nat>
    var backfillRunning: bool
    var pollRunning: bool
    var stopped: bool
    var failStreak: nat

    constructor (cfg: Settings)
      ensures this.cfg == cfg && View() == Flags(None, None, false, false, false, 0)
    {
      this.cfg := cfg;
      backfillTimer, pollTimer, backfillRunning, pollRunning, stopped, failStreak := None, None, false, false, false, 0;
    }

    ghost function View(): Flags
      reads this
    {
      Flags(backfillTimer, pollTimer, backfillRunning, pollRunning, stopped, failStreak)
    }

    method ScheduleBackfillPass(delay: nat)
      modifies this`backfillTimer
      ensures View() == ArmBackfill(old(View()), delay)
    {
      if stopped || backfillTimer.Some? {
        return;
      }
      backfillTimer := Some(delay);
    }

    method ScheduleNextIdlePoll()
      modifies this`pollTimer
      ensures View() == ArmPoll(old(View()), cfg)
    {
      if stopped || pollTimer.Some? {
        return;
      }
      if cfg.chains == 0 {
        return;
      }
      pollTimer := Some(cfg.pollDelay);
    }

    method BackfillTimerFires() returns (runs: bool)
      modifies this
      ensures var (flags, tasks) := BeginPass(old(View()).(backfillTimer := None));
              View() == flags && (runs <==> tasks != [])
    {
      backfillTimer := None;
      runs := !stopped && !backfillRunning;
      if runs {
        backfillRunning := true;
      }
    }

    method BackfillPassEnds(needsAnother: bool, failed: bool)
      modifies this
      ensures View() == EndPass(old(View()), cfg, needsAnother, failed)
    {
      backfillRunning := false;
      if stopped {
        return;
      }
      if failed {
        failStreak := failStreak + 1;
        ScheduleBackfillPass(FailureDelay(cfg.passDelay, failStreak));
        return;
      }
      failStreak := 0;
      if needsAnother {
        ScheduleBackfillPass(cfg.passDelay);
        return;
      }
      ScheduleNextIdlePoll();
    }

    method PollTimerFires() returns (checks: bool)
      modifies this
      ensures var (flags, tasks) := BeginPoll(old(View()).(pollTimer := None), cfg);
              View() == flags && (checks <==> tasks != [])
    {
      pollTimer := None;
      if stopped || pollRunning {
        ScheduleNextIdlePoll();
        return false;
      }
      return true;
    }

    method PollChecked(allIndexed: bool)
      modifies this
      ensures View() == if allIndexed then old(View()).(pollRunning := true) else SkipPoll(old(View()), cfg)
    {
      if !allIndexed {
        if backfillTimer.None? && !backfillRunning {
          ScheduleBackfillPass(cfg.passDelay);
        }
        return;
      }
      pollRunning := true;
    }

    method PollEnds()
      modifies this
      ensures View() == EndPoll(old(View()), cfg)
    {
      pollRunning := false;
      ScheduleNextIdlePoll();
    }

    method OnModuleDestroy()
      modifies this
      ensures View() == Stopped(old(View()))
    {
      stopped := true;
      if backfillTimer.Some? {
        backfillTimer := None;
      }
      if pollTimer.Some? {
        pollTimer := None;
      }
    }
  }

  // ---- Steps ------------------------------------------------------------------

  /** `ready[i]` is chain i's stored ready flag; `rejected` once a flag read has thrown. */
  datatype State = State(flags: Flags, tasks: seq<Task>, ready: seq<bool>, rejected: bool)

  datatype Action =
    | Resume(task: nat, threw: bool)
    | ReadRejects(task: nat)
    | FireBackfill
    | FirePoll
    | Stop
    | SetReady(chain: nat, value: bool)

  function Drop(tasks: seq<Task>, k: nat): seq<Task>
    requires k < |tasks|
  {
    tasks[..k] + tasks[k + 1..]
  }

  /** The code from task `t`'s await to its next await or its end: new flags, and what is left of it. */
  function Continue(f: Flags, cfg: Settings, t: Task, isReady: bool, threw: bool): (Flags, seq<Task>) {
    match t
    case Boot(i) =>
      if !isReady then BeginPass(f)
      else if i + 1 < cfg.chains then (f, [Boot(i + 1)])
      else (ArmPoll(f, cfg), [])
    case Backfill(i, AskReady, needs, failed) =>
      if isReady then AfterChain(f, cfg, i, needs, failed) else (f, [Backfill(i, Filling, needs, failed)])
    case Backfill(i, Filling, needs, failed) => (f, [Backfill(i, AskAgain, needs, failed || threw)])
    case Backfill(i, AskAgain, needs, failed) => AfterChain(f, cfg, i, needs || !isReady, failed)
    case PollCheck(i) =>
      if !isReady then (SkipPoll(f, cfg), [])
      else if i + 1 < cfg.chains then (f, [PollCheck(i + 1)])
      else (f.(pollRunning := true), [Poll(0)])
    case Poll(i) =>
      if i + 1 < cfg.chains then (f, [Poll(i + 1)]) else (EndPoll(f, cfg), [])
  }

  function AfterChain(f: Flags, cfg: Settings, i: nat, needs: bool, failed: bool): (Flags, seq<Task>) {
    if i + 1 < cfg.chains then (f, [Backfill(i + 1, AskReady, needs, failed)])
    else (EndPass(f, cfg, needs, failed), [])
  }

  predicate ReadsFlag(t: Task) {
    t.Boot? || t.PollCheck? || (t.Backfill? && t.phase != Filling)
  }

  /** A chain's flag may fall only while a backfill is writing that chain's cursor. */
  predicate Enabled(cfg: Settings, s: State, a: Action) {
    match a
    case Resume(k, _) => k < |s.tasks| && s.tasks[k].chain < |s.ready|
    case ReadRejects(k) => k < |s.tasks| && ReadsFlag(s.tasks[k])
    case FireBackfill => s.flags.backfillTimer.Some?
    case FirePoll => s.flags.pollTimer.Some?
    case Stop => true
    case SetReady(i, value) =>
      i < |s.ready| &&
      (value ||
       exists k :: 0 <= k < |s.tasks| && s.tasks[k].Backfill? && s.tasks[k].phase == Filling && s.tasks[k].chain == i)
  }

  function Next(cfg: Settings, s: State, a: Action): State
    requires Enabled(cfg, s, a)
  {
    match a
    case Resume(k, threw) =>
      var (flags, rest) := Continue(s.flags, cfg, s.tasks[k], s.ready[s.tasks[k].chain], threw);
      s.(flags := flags, tasks := Drop(s.tasks, k) + rest)
    case ReadRejects(k) =>
      s.(flags := if s.tasks[k].Backfill? then s.flags.(backfillRunning := false) else s.flags,
         tasks := Drop(s.tasks, k), rejected := true)
    case FireBackfill =>
      var (flags, rest) := BeginPass(s.flags.(backfillTimer := None));
      s.(flags := flags, tasks := s.tasks + rest)
    case FirePoll =>
      var (flags, rest) := BeginPoll(s.flags.(pollTimer := None), cfg);
      s.(flags := flags, tasks := s.tasks + rest)
    case Stop => s.(flags := Stopped(s.flags))
    case SetReady(i, value) => s.(ready := s.ready[i := value])
  }

  /** The boot task has just asked for the first chain's flag. */
  predicate Initial(cfg: Settings, s: State) {
    cfg.chains > 0 && |s.ready| == cfg.chains && s.tasks == [Boot(0)] && !s.rejected &&
    s.flags == Flags(None, None, false, false, s.flags.stopped, 0)
  }

  // ---- Exactly one live activity --------------------------------------------------

  /** Armed timers plus running activities. */
  function Live(s: State): nat {
    |s.tasks| + (if s.flags.backfillTimer.Some? then 1 else 0) + (if s.flags.pollTimer.Some? then 1 else 0)
  }

  predicate AllReadyBelow(ready: seq<bool>, n: nat) {
    n <= |ready| && forall i :: 0 <= i < n ==> ready[i]
  }

  predicate TaskOk(cfg: Settings, s: State, t: Task) {
    t.chain < cfg.chains &&
    (t.PollCheck? ==> AllReadyBelow(s.ready, t.chain)) &&
    (t.Poll? ==> AllReadyBelow(s.ready, cfg.chains))
  }

  predicate Inv(cfg: Settings, s: State) {
    cfg.chains > 0 && |s.ready| == cfg.chains &&
    (if s.flags.stopped then
       s.flags.backfillTimer.None? && s.flags.pollTimer.None? && |s.tasks| <= 1
     else Live(s) == if s.rejected then 0 else 1) &&
    (s.flags.backfillRunning <==> s.tasks != [] && s.tasks[0].Backfill?) &&
    (s.flags.pollRunning <==> s.tasks != [] && s.tasks[0].Poll?) &&
    (s.tasks != [] ==> TaskOk(cfg, s, s.tasks[0]))
  }

  lemma StepKeeps(cfg: Settings, s: State, a: Action)
    requires Inv(cfg, s) && Enabled(cfg, s, a)
    ensures Inv(cfg, Next(cfg, s, a))
  {
    match a
    case Resume(k, threw) => ResumeKeeps(cfg, s, k, threw);
    case SetReady(i, value) =>
      if s.tasks != [] {
        assert TaskOk(cfg, s, s.tasks[0]);
      }
    case _ =>
  }

  lemma ResumeKeeps(cfg: Settings, s: State, k: nat, threw: bool)
    requires Inv(cfg, s) && Enabled(cfg, s, Resume(k, threw))
    ensures Inv(cfg, Next(cfg, s, Resume(k, threw)))
  {
    var t := s.tasks[0];
    var rest := Continued(cfg, s, threw).tasks;
    assert k == 0 && s.tasks[..0] == [] && s.tasks[1..] == [] && Drop(s.tasks, 0) + rest == rest;
    assert Next(cfg, s, Resume(k, threw)) == Continued(cfg, s, threw);
    match t
    case Boot(i) => BootKeeps(cfg, s, threw);
    case PollCheck(i) => PollCheckKeeps(cfg, s, threw);
    case Poll(i) => PollKeeps(cfg, s, threw);
    case Backfill(i, phase, needs, failed) =>
      if phase == Filling {
      } else {
        AfterChainKeeps(cfg, s, i, needs || (phase == AskAgain && !s.ready[i]), failed);
      }
  }

  /** The state once the only task has run to its next await. */
  function Continued(cfg: Settings, s: State, threw: bool): State
    requires s.tasks != [] && s.tasks[0].chain < |s.ready|
  {
    var (flags, rest) := Continue(s.flags, cfg, s.tasks[0], s.ready[s.tasks[0].chain], threw);
    s.(flags := flags, tasks := rest)
  }

  lemma BootKeeps(cfg: Settings, s: State, threw: bool)
    requires Inv(cfg, s) && s.tasks != [] && s.tasks[0].Boot?
    ensures Inv(cfg, Continued(cfg, s, threw))
  {
  }

  lemma PollCheckKeeps(cfg: Settings, s: State, threw: bool)
    requires Inv(cfg, s) && s.tasks != [] && s.tasks[0].PollCheck?
    ensures Inv(cfg, Continued(cfg, s, threw))
  {
  }

  lemma PollKeeps(cfg: Settings, s: State, threw: bool)
    requires Inv(cfg, s) && s.tasks != [] && s.tasks[0].Poll?
    ensures Inv(cfg, Continued(cfg, s, threw))
  {
  }

  lemma AfterChainKeeps(cfg: Settings, s: State, i: nat, needs: bool, failed: bool)
    requires Inv(cfg, s) && s.tasks != [] && s.tasks[0].Backfill? && i < cfg.chains
    ensures var (flags, rest) := AfterChain(s.flags, cfg, i, needs, failed);
            Inv(cfg, s.(flags := flags, tasks := rest))
  {
  }

  ghost predicate IsRun(cfg: Settings, s: State, run: seq<Action>)
    decreases |run|
  {
    run != [] ==> Enabled(cfg, s, run[0]) && IsRun(cfg, Next(cfg, s, run[0]), run[1..])
  }

  function After(cfg: Settings, s: State, run: seq<Action>): State
    requires IsRun(cfg, s, run)
    decreases |run|
  {
    if run == [] then s else After(cfg, Next(cfg, s, run[0]), run[1..])
  }

  lemma {:induction false} RunKeeps(cfg: Settings, s: State, run: seq<Action>)
    requires Inv(cfg, s) && IsRun(cfg, s, run)
    ensures Inv(cfg, After(cfg, s, run))
    decreases |run|
  {
    if run == [] {
    } else {
      StepKeeps(cfg, s, run[0]);
      RunKeeps(cfg, Next(cfg, s, run[0]), run[1..]);
    }
  }

  /** No step forgets that a flag read has thrown, and only a throwing read records it. */
  predicate Rejects(run: seq<Action>) {
    exists i :: 0 <= i < |run| && run[i].ReadRejects?
  }

  lemma {:induction false} RejectedIff(cfg: Settings, s: State, run: seq<Action>)
    requires IsRun(cfg, s, run)
    ensures After(cfg, s, run).rejected <==> s.rejected || Rejects(run)
    decreases |run|
  {
    if run == [] {
    } else {
      RejectedIff(cfg, Next(cfg, s, run[0]), run[1..]);
      assert Rejects(run) <==> run[0].ReadRejects? || Rejects(run[1..]) by {
        if i :| 0 <= i < |run| && run[i].ReadRejects? {
          if i > 0 { assert run[1..][i - 1].ReadRejects?; }
        }
        if i :| 0 <= i < |run[1..]| && run[1..][i].ReadRejects? {
          assert run[i + 1].ReadRejects?;
        }
      }
    }
  }

  /**
   From bootstrap until stop there is exactly one live activity, or none from the
   moment a ready-flag read throws: that is the only way a wakeup is ever lost.
   */
  lemma OneLiveActivity(cfg: Settings, s: State, run: seq<Action>)
    requires Initial(cfg, s) && IsRun(cfg, s, run) && !After(cfg, s, run).flags.stopped
    ensures Live(After(cfg, s, run)) == if Rejects(run) then 0 else 1
  {
    RunKeeps(cfg, s, run);
    RejectedIff(cfg, s, run);
  }

  /** A pass and a poll never overlap, and a poll reads logs only while every chain is indexed. */
  lemma PollOnlyWhenIndexed(cfg: Settings, s: State, run: seq<Action>, k: nat)
    requires Initial(cfg, s) && IsRun(cfg, s, run)
    ensures var end := After(cfg, s, run);
            !(end.flags.backfillRunning && end.flags.pollRunning) &&
            (k < |end.tasks| && end.tasks[k].Poll? ==>
               |end.ready| == cfg.chains && forall i :: 0 <= i < cfg.chains ==> end.ready[i])
  {
    RunKeeps(cfg, s, run);
    var end := After(cfg, s, run);
    if k < |end.tasks| {
      assert k == 0 && TaskOk(cfg, end, end.tasks[0]);
    }
  }

  /** Nothing is armed after stop, in any continuation. */
  lemma NothingArmedAfterStop(cfg: Settings, s: State, run: seq<Action>, more: seq<Action>)
    requires Initial(cfg, s) && IsRun(cfg, s, run) && IsRun(cfg, Next(cfg, After(cfg, s, run), Stop), more)
    ensures var end := After(cfg, Next(cfg, After(cfg, s, run), Stop), more);
            end.flags.stopped && end.flags.backfillTimer.None? && end.flags.pollTimer.None?
  {
    RunKeeps(cfg, s, run);
    var stopped := Next(cfg, After(cfg, s, run), Stop);
    StepKeeps(cfg, After(cfg, s, run), Stop);
    RunKeeps(cfg, stopped, more);
    StaysStopped(cfg, stopped, more);
  }

  lemma {:induction false} StaysStopped(cfg: Settings, s: State, run: seq<Action>)
    requires s.flags.stopped && IsRun(cfg, s, run)
    ensures After(cfg, s, run).flags.stopped
    decreases |run|
  {
    if run == [] {
    } else {
      StaysStopped(cfg, Next(cfg, s, run[0]), run[1..]);
    }
  }

  // ---- Back-off ------------------------------------------------------------------

  /** Back-off grows with the streak and is capped; it undercuts the normal delay exactly when that exceeds the cap. */
  lemma {:induction false} BackoffGrows(base: nat, streak: nat)
    ensures FailureDelay(base, streak) <= FailureDelay(base, streak + 1) <= FAILURE_CAP_MS
    ensures FailureDelay(base, streak) >= base <==> base <= FAILURE_CAP_MS
  {
    var k := if streak < 4 then streak else 4;
    Pow2Positive(k);
    assert base * Pow2(k) >= base by {
      assert base * (Pow2(k) - 1) >= 0;
    }
    assert base * Pow2(k + 1) == 2 * (base * Pow2(k));
  }

  /** The step resumes a pass on its last chain and the pass ends there. */
  predicate EndsPass(cfg: Settings, s: State, a: Action) {
    a.Resume? && a.task < |s.tasks| && s.tasks[a.task].Backfill? && s.tasks[a.task].chain < |s.ready| &&
    s.tasks[a.task].chain + 1 >= cfg.chains &&
    (s.tasks[a.task].phase == AskAgain || (s.tasks[a.task].phase == AskReady && s.ready[s.tasks[a.task].chain]))
  }

  /** Failed passes since the last one that did not fail, counted on the run itself from `n`. */
  function FailedInARow(cfg: Settings, s: State, run: seq<Action>, n: nat): nat
    requires IsRun(cfg, s, run)
    decreases |run|
  {
    if run == [] then n
    else
      FailedInARow(cfg, Next(cfg, s, run[0]), run[1..],
                   if !EndsPass(cfg, s, run[0]) || s.flags.stopped then n
                   else if s.tasks[run[0].task].failed then n + 1
                   else 0)
  }

  lemma StreakStep(cfg: Settings, s: State, a: Action)
    requires Inv(cfg, s) && Enabled(cfg, s, a)
    ensures Next(cfg, s, a).flags.failStreak ==
            if !EndsPass(cfg, s, a) || s.flags.stopped then s.flags.failStreak
            else if s.tasks[a.task].failed then s.flags.failStreak + 1
            else 0
  {
  }

  lemma {:induction false} StreakIsCount(cfg: Settings, s: State, run: seq<Action>)
    requires Inv(cfg, s) && IsRun(cfg, s, run)
    ensures After(cfg, s, run).flags.failStreak == FailedInARow(cfg, s, run, s.flags.failStreak)
    decreases |run|
  {
    if run == [] {
    } else {
      StreakStep(cfg, s, run[0]);
      StepKeeps(cfg, s, run[0]);
      StreakIsCount(cfg, Next(cfg, s, run[0]), run[1..]);
    }
  }

  /** When a pass fails, the next one is armed with the delay for the failed passes in a row, this one included. */
  lemma FailedPassDelay(cfg: Settings, s: State, run: seq<Action>, a: Action)
    requires Initial(cfg, s) && IsRun(cfg, s, run) && Enabled(cfg, After(cfg, s, run), a)
    requires var last := After(cfg, s, run);
             EndsPass(cfg, last, a) && last.tasks[a.task].failed && !last.flags.stopped
    ensures Next(cfg, After(cfg, s, run), a).flags.backfillTimer ==
            Some(FailureDelay(cfg.passDelay, FailedInARow(cfg, s, run, 0) + 1))
  {
    RunKeeps(cfg, s, run);
    StreakIsCount(cfg, s, run);
    NoTimerDuringPass(cfg, After(cfg, s, run), a.task);
  }

  lemma NoTimerDuringPass(cfg: Settings, s: State, k: nat)
    requires Inv(cfg, s) && k < |s.tasks| && !s.flags.stopped
    ensures s.flags.backfillTimer.None? && |s.tasks| == 1
  {
  }

  /** The delay the source's comment describes: the base after one failure, doubling up to the cap. */
  function CommentedDelay(base: nat, streak: nat): nat
    requires streak >= 1
  {
    var delay := base * Pow2(streak - 1);
    if delay < FAILURE_CAP_MS then delay else FAILURE_CAP_MS
  }

  /**
   The code raises the streak before it computes the delay and stops doubling at
   four, so it waits as the comment says exactly after the fifth failure in a row,
   or once the smaller of the two delays has reached the cap.
   */
  lemma CommentedDelayIff(base: nat, streak: nat)
    requires streak >= 1 && base > 0
    ensures FailureDelay(base, streak) == CommentedDelay(base, streak) <==>
            streak == 5 || base * Pow2(if streak <= 4 then streak - 1 else 4) >= FAILURE_CAP_MS
  {
    if streak <= 4 {
      assert Pow2(streak) == 2 * Pow2(streak - 1);
      Pow2Positive(streak - 1);
      DoubleIsMore(base, Pow2(streak - 1));
    } else if streak > 5 {
      Pow2Grows(4, streak - 1);
      Pow2Positive(4);
      assert base * Pow2(streak - 1) >= base * (2 * Pow2(4)) == 2 * (base * Pow2(4));
      DoubleIsMore(base, Pow2(4));
    }
  }

  lemma DoubleIsMore(base: nat, p: nat)
    requires base > 0 && p > 0
    ensures base * (2 * p) == 2 * (base * p) && base * p > 0
  {
    assert base * p >= 1;
  }

  lemma {:induction false} Pow2Grows(m: nat, n: nat)
    requires m < n
    ensures Pow2(n) >= 2 * Pow2(m)
  {
    if m + 1 < n {
      Pow2Grows(m, n - 1);
    }
  }

  /** At the default of two minutes: 4, 8, then 15 minutes, where the comment has 2, 4, 8, 15. */
  lemma DefaultDelays()
    ensures FailureDelay(120_000, 1) == 240_000 && FailureDelay(120_000, 2) == 480_000
    ensures forall n: nat :: n >= 3 ==> FailureDelay(120_000, n) == FAILURE_CAP_MS
    ensures forall n: nat :: n >= 1 ==> (FailureDelay(120_000, n) == CommentedDelay(120_000, n) <==> n >= 4)
  {
    assert Pow2(1) == 2 && Pow2(2) == 4 && Pow2(3) == 8 && Pow2(4) == 16;
    forall n: nat | n >= 1 ensures FailureDelay(120_000, n) == CommentedDelay(120_000, n) <==> n >= 4 {
      CommentedDelayIff(120_000, n);
    }
  }
}
