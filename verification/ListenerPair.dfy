/**
 Several listener processes on one chain. Nothing in the source keeps their passes
 apart: each has its own position in its own pass, over the same rows and cursor.
 What one process does is a step of the one-pass machine, seen with its own pass.
 */
module ListenerPair {
  import opened Wrappers
  import opened Erc721
  import opened OwnerRows
  import opened EventOrder
  import opened OwnerReplay
  import opened OwnerTheorems

  /** `shared` is the chain, rows and cursor, with no pass of its own. */
  datatype System = System(shared: State, passes: map<nat, Pass>)

  datatype Step = Step(proc: nat, action: Action)

  function PassOf(sys: System, p: nat): Pass { if p in sys.passes then sys.passes[p] else Idle }

  /** The one-pass machine as process `p` sees it. */
  function SeenBy(sys: System, p: nat): State { sys.shared.(pass := PassOf(sys, p)) }

  function NextOf(cfg: Config, sys: System, step: Step): System {
    var s := Next(cfg, SeenBy(sys, step.proc), step.action);
    System(s.(pass := Idle), sys.passes[step.proc := s.pass])
  }

  ghost predicate EnabledOf(cfg: Config, sys: System, step: Step) {
    Enabled(cfg, SeenBy(sys, step.proc), step.action)
  }

  ghost predicate IsRunOf(cfg: Config, sys: System, run: seq<Step>)
    decreases |run|
  {
    run != [] ==> EnabledOf(cfg, sys, run[0]) && IsRunOf(cfg, NextOf(cfg, sys, run[0]), run[1..])
  }

  function AfterAll(cfg: Config, sys: System, run: seq<Step>): System
    decreases |run|
  {
    if run == [] then sys else AfterAll(cfg, NextOf(cfg, sys, run[0]), run[1..])
  }

  ghost predicate InitialOf(cfg: Config, sys: System) { Initial(cfg, sys.shared) && sys.passes == map[] }

  // ---- Passes kept apart ----------------------------------------------------------------------------

  /** Whenever a process takes a step, no other process is inside a pass. */
  ghost predicate Apart(cfg: Config, sys: System, run: seq<Step>)
    decreases |run|
  {
    run != [] ==>
      (forall q :: q in sys.passes && q != run[0].proc ==> sys.passes[q].Idle?) &&
      Apart(cfg, NextOf(cfg, sys, run[0]), run[1..])
  }

  function Actions(run: seq<Step>): seq<Action> {
    if run == [] then [] else [run[0].action] + Actions(run[1..])
  }

  predicate AllIdle(sys: System) { forall q :: q in sys.passes ==> sys.passes[q].Idle? }

  /** The one-pass state with the only pass there is. */
  ghost predicate Alike(sys: System, s: State) {
    sys.shared == s.(pass := Idle) &&
    (forall q :: q in sys.passes ==> sys.passes[q].Idle? || sys.passes[q] == s.pass) &&
    (!s.pass.Idle? ==> exists q :: q in sys.passes && sys.passes[q] == s.pass)
  }

  /** Processes whose passes never overlap are one process. */
  lemma {:induction false} ApartIsOneListener(cfg: Config, sys: System, s: State, run: seq<Step>)
    requires Alike(sys, s) && IsRunOf(cfg, sys, run) && Apart(cfg, sys, run)
    ensures IsRun(cfg, s, Actions(run)) && Alike(AfterAll(cfg, sys, run), After(cfg, s, Actions(run)))
    decreases |run|
  {
    if run == [] {
    } else {
      assert SeenBy(sys, run[0].proc) == s;
      assert Actions(run)[0] == run[0].action && Actions(run)[1..] == Actions(run[1..]);
      OneStepAlike(cfg, sys, s, run[0]);
      ApartIsOneListener(cfg, NextOf(cfg, sys, run[0]), Next(cfg, s, run[0].action), run[1..]);
    }
  }

  lemma OneStepAlike(cfg: Config, sys: System, s: State, step: Step)
    requires Alike(sys, s) && SeenBy(sys, step.proc) == s
    requires forall q :: q in sys.passes && q != step.proc ==> sys.passes[q].Idle?
    ensures Alike(NextOf(cfg, sys, step), Next(cfg, s, step.action))
  {
    var sys' := NextOf(cfg, sys, step);
    assert step.proc in sys'.passes && sys'.passes[step.proc] == Next(cfg, s, step.action).pass;
  }

  /**
   Any number of listeners converge as one does as long as their passes never
   overlap: with the cursor at the head and nobody in a pass, the index equals the chain.
   */
  lemma ApartConverges(cfg: Config, sys: System, run: seq<Step>)
    requires InitialOf(cfg, sys) && IsRunOf(cfg, sys, run) && Apart(cfg, sys, run)
    ensures var end := AfterAll(cfg, sys, run);
            AllIdle(end) && Resume(cfg, end.shared.cursor) > end.shared.head ==> IndexIs(end.shared, end.shared.head)
  {
    ApartIsOneListener(cfg, sys, sys.shared, run);
    ConvergesAtHead(cfg, sys.shared, Actions(run));
  }

  // ---- Passes that overlap ----------------------------------------------------------------------------

  const SOLD := Transfer(12, 0, 7, 8, 1)
  const BOTH := [MINT, SOLD]

  /** Both fetch the chunk; the second writes it all; the first writes one event and dies; the second saves. */
  const FETCHED := [Step(0, StartPass(20)), Step(0, Fetch(BOTH)), Step(1, StartPass(20)), Step(1, Fetch(BOTH))]
  const WRITTEN := [Step(1, Write(0)), Step(1, Write(0)), Step(0, Write(0))]
  const SAVED := [Step(0, Crash), Step(1, Save), Step(1, Finish)]

  lemma {:induction false} RunOfTwo(cfg: Config, sys: System, a: seq<Step>, b: seq<Step>)
    requires IsRunOf(cfg, sys, a) && IsRunOf(cfg, AfterAll(cfg, sys, a), b)
    ensures IsRunOf(cfg, sys, a + b) && AfterAll(cfg, sys, a + b) == AfterAll(cfg, AfterAll(cfg, sys, a), b)
    decreases |a|
  {
    if a == [] {
      assert a + b == b;
    } else {
      assert (a + b)[1..] == a[1..] + b;
      RunOfTwo(cfg, NextOf(cfg, sys, a[0]), a[1..], b);
    }
  }

  lemma ThreeSteps(cfg: Config, s0: System, s1: System, s2: System, s3: System, a: Step, b: Step, c: Step)
    requires EnabledOf(cfg, s0, a) && s1 == NextOf(cfg, s0, a) && EnabledOf(cfg, s1, b) && s2 == NextOf(cfg, s1, b)
    requires EnabledOf(cfg, s2, c) && s3 == NextOf(cfg, s2, c)
    ensures IsRunOf(cfg, s0, [a, b, c]) && AfterAll(cfg, s0, [a, b, c]) == s3
  {
    var none: seq<Step> := [];
    StepBefore(cfg, s2, c, none);
    StepBefore(cfg, s1, b, [c]);
    StepBefore(cfg, s0, a, [b, c]);
    assert [c] + none == [c] && [b] + [c] == [b, c] && [a] + [b, c] == [a, b, c];
  }

  lemma StepBefore(cfg: Config, sys: System, a: Step, rest: seq<Step>)
    requires EnabledOf(cfg, sys, a) && IsRunOf(cfg, NextOf(cfg, sys, a), rest)
    ensures IsRunOf(cfg, sys, [a] + rest) && AfterAll(cfg, sys, [a] + rest) == AfterAll(cfg, NextOf(cfg, sys, a), rest)
  {
    assert ([a] + rest)[1..] == rest;
  }

  /** A pass with the chunk fetched and `done` of its two events written. */
  function Halfway(done: nat): Pass { Writing(29, 10, 29, BOTH, done, 0, 20, false) }

  const BEGUN := Between(29, 10, 0, 20, false)
  const UNSAVED := Scan(10, 29, false)

  /** The chunk fetched twice, token 1 owned by `owner`. */
  function Fetched(log: seq<Transfer>, owner: Option<Address>, first: Pass, second: Pass): System {
    var rows := if owner.Some? then map[1 := Row(owner, None)] else map[];
    System(State(log, 29, rows, None, Idle, 29, [UNSAVED, UNSAVED]),
           map[0 := first, 1 := second])
  }

  lemma BothTransfers(log: seq<Transfer>)
    requires log == BOTH
    ensures WellFormed(log) && Answers(log, 10, 29, BOTH) && Sort(Positive(BOTH)) == BOTH
    ensures OwnerAt(log, 29, 1) == Some(8) && forall e :: e in log ==> 10 <= e.block <= 29
  {
    assert log[0] == MINT && log[1] == SOLD;
    var none: seq<Transfer> := [];
    assert BOTH[1..] == [SOLD] && [SOLD][1..] == none;
    assert Positive(none) == none && Sort(none) == none;
    assert Positive([SOLD]) == [SOLD] + Positive([SOLD][1..]) == [SOLD];
    assert Positive(BOTH) == [MINT] + Positive(BOTH[1..]) == BOTH;
    assert Sort([SOLD]) == [SOLD];
  }

  lemma BothFetch(log: seq<Transfer>, sys: System)
    requires log == BOTH && sys == System(State(log, 29, map[], None, Idle, 9, []), map[])
    ensures IsRunOf(Config(10, 20), sys, FETCHED)
    ensures AfterAll(Config(10, 20), sys, FETCHED) == Fetched(log, None, Halfway(0), Halfway(0))
  {
    var cfg := Config(10, 20);
    BothTransfers(log);
    var begun := System(sys.shared, map[0 := BEGUN]);
    var one := System(sys.shared.(horizon := 29, scans := [UNSAVED]), map[0 := Halfway(0)]);
    var two := System(one.shared, map[0 := Halfway(0), 1 := BEGUN]);
    assert NextOf(cfg, sys, FETCHED[0]) == begun;
    assert NextOf(cfg, begun, FETCHED[1]) == one;
    assert NextOf(cfg, one, FETCHED[2]) == two;
    ThreeSteps(cfg, sys, begun, one, two, FETCHED[0], FETCHED[1], FETCHED[2]);
    LastFetch(cfg, log, two);
    RunOfTwo(cfg, sys, [FETCHED[0], FETCHED[1], FETCHED[2]], [FETCHED[3]]);
    assert [FETCHED[0], FETCHED[1], FETCHED[2]] + [FETCHED[3]] == FETCHED;
  }

  lemma LastFetch(cfg: Config, log: seq<Transfer>, two: System)
    requires cfg == Config(10, 20) && log == BOTH
    requires two == System(State(log, 29, map[], None, Idle, 29, [UNSAVED]), map[0 := Halfway(0), 1 := BEGUN])
    ensures IsRunOf(cfg, two, [FETCHED[3]])
    ensures AfterAll(cfg, two, [FETCHED[3]]) == Fetched(log, None, Halfway(0), Halfway(0))
  {
    BothTransfers(log);
    assert [FETCHED[3]][1..] == [];
    assert [UNSAVED] + [UNSAVED] == [UNSAVED, UNSAVED];
  }

  lemma BothWrite(log: seq<Transfer>)
    ensures IsRunOf(Config(10, 20), Fetched(log, None, Halfway(0), Halfway(0)), WRITTEN)
    ensures AfterAll(Config(10, 20), Fetched(log, None, Halfway(0), Halfway(0)), WRITTEN) ==
            Fetched(log, Some(7), Halfway(1), Halfway(2))
  {
    ThreeSteps(Config(10, 20),
               Fetched(log, None, Halfway(0), Halfway(0)), Fetched(log, Some(7), Halfway(0), Halfway(1)),
               Fetched(log, Some(8), Halfway(0), Halfway(2)), Fetched(log, Some(7), Halfway(1), Halfway(2)),
               WRITTEN[0], WRITTEN[1], WRITTEN[2]);
  }

  /** The cursor at the head, everybody idle, token 1 owned by its first owner. */
  function Stale(log: seq<Transfer>): System {
    System(State(log, 29, map[1 := Row(Some(7), None)], Some(Cursor(29, false)), Idle, 29,
                 [UNSAVED, Scan(10, 29, true)]),
           map[0 := Idle, 1 := Idle])
  }

  lemma SecondSaves(log: seq<Transfer>)
    ensures IsRunOf(Config(10, 20), Fetched(log, Some(7), Halfway(1), Halfway(2)), SAVED)
    ensures AfterAll(Config(10, 20), Fetched(log, Some(7), Halfway(1), Halfway(2)), SAVED) == Stale(log)
  {
    var left := Fetched(log, Some(7), Idle, Halfway(2));
    var saved := Stale(log).(passes := map[0 := Idle, 1 := Between(29, 30, 20, 20, false)]);
    assert [UNSAVED, UNSAVED][1 := Scan(10, 29, true)] == [UNSAVED, Scan(10, 29, true)];
    ThreeSteps(Config(10, 20), Fetched(log, Some(7), Halfway(1), Halfway(2)), left, saved, Stale(log),
               SAVED[0], SAVED[1], SAVED[2]);
  }

  /**
   Overlapping passes can leave the index wrong for good: a run of two listeners after
   which the cursor is at the head and everybody is idle, and a sold token still
   shows its first owner.
   */
  lemma OverlapLosesATransfer(log: seq<Transfer>, sys: System)
    requires log == BOTH && sys == System(State(log, 29, map[], None, Idle, 9, []), map[])
    ensures var cfg, run := Config(10, 20), FETCHED + WRITTEN + SAVED;
            var end := AfterAll(cfg, sys, run);
            InitialOf(cfg, sys) && IsRunOf(cfg, sys, run) && AllIdle(end) &&
            Resume(cfg, end.shared.cursor) > end.shared.head && !IndexIs(end.shared, end.shared.head)
  {
    var cfg := Config(10, 20);
    BothTransfers(log);
    BothFetch(log, sys);
    BothWrite(log);
    SecondSaves(log);
    RunOfTwo(cfg, sys, FETCHED, WRITTEN);
    RunOfTwo(cfg, sys, FETCHED + WRITTEN, SAVED);
    StaleIsWrong(log);
  }

  lemma StaleIsWrong(log: seq<Transfer>)
    requires OwnerAt(log, 29, 1) == Some(8)
    ensures var end := Stale(log);
            AllIdle(end) && Resume(Config(10, 20), end.shared.cursor) > end.shared.head &&
            !IndexIs(end.shared, end.shared.head)
  {
    assert Visible(Stale(log).shared.rows, 1) == Some(7);
  }
}
