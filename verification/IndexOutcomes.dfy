/**
 What each activity of the listener leads to, told from the run itself: which
 chains' flags it read, whether a backfill threw, and which chains it polled.
 */
module IndexOutcomes {
  import opened Wrappers
  import opened IndexScheduler

  /** What the activity in progress has done so far; `answers` has the last flag read of each chain. */
  datatype Record = Record(answers: map<nat, bool>, threw: bool, polled: set<nat>)

  const NOTHING := Record(map[], false, {})

  /** The record after one more step from `s`; every activity starts a new one. */
  function Recorded(s: State, a: Action, r: Record): Record {
    if s.tasks == [] then NOTHING
    else if !a.Resume? || s.tasks[0].chain >= |s.ready| then r
    else
      var flag := s.ready[s.tasks[0].chain];
      match s.tasks[0]
      case Boot(i) => if flag then r.(answers := r.answers[i := true]) else NOTHING
      case Backfill(i, phase, _, _) =>
        if phase == Filling then r.(threw := r.threw || a.threw) else r.(answers := r.answers[i := flag])
      case PollCheck(i) => r.(answers := r.answers[i := flag])
      case Poll(i) => r.(polled := r.polled + {i})
  }

  function RecordOf(cfg: Settings, s: State, run: seq<Action>, r: Record): Record
    requires IsRun(cfg, s, run)
    decreases |run|
  {
    if run == [] then r else RecordOf(cfg, Next(cfg, s, run[0]), run[1..], Recorded(s, run[0], r))
  }

  ghost predicate UpTo(chains: set<nat>, n: nat) { forall i: nat :: i in chains <==> i < n }

  predicate AllTrue(answers: map<nat, bool>, n: nat) { forall i :: 0 <= i < n ==> i in answers && answers[i] }

  ghost predicate RecordOk(cfg: Settings, s: State, r: Record) {
    s.tasks != [] ==>
      match s.tasks[0]
      case Boot(i) => r == Record(r.answers, false, {}) && UpTo(r.answers.Keys, i) && AllTrue(r.answers, i)
      case Backfill(i, phase, needs, failed) =>
        r.polled == {} && (failed <==> r.threw) && (needs <==> !AllTrue(r.answers, i)) &&
        UpTo(r.answers.Keys, if phase == AskReady then i else i + 1) && (phase != AskReady ==> !r.answers[i])
      case PollCheck(i) => r == Record(r.answers, false, {}) && UpTo(r.answers.Keys, i) && AllTrue(r.answers, i)
      case Poll(i) =>
        !r.threw && UpTo(r.polled, i) && UpTo(r.answers.Keys, cfg.chains) && AllTrue(r.answers, cfg.chains)
  }

  lemma OneMore(answers: map<nat, bool>, i: nat, flag: bool)
    requires forall k: nat :: k < i ==> k in answers
    ensures AllTrue(answers[i := flag], i + 1) <==> AllTrue(answers, i) && flag
    ensures AllTrue(answers[i := flag], i) <==> AllTrue(answers, i)
  {
    var more := answers[i := flag];
    assert more[i] == flag;
    assert forall k: nat :: k < i ==> more[k] == answers[k];
  }

  lemma BackfillRecord(cfg: Settings, s: State, threw: bool, r: Record)
    requires Inv(cfg, s) && s.tasks != [] && s.tasks[0].Backfill? && RecordOk(cfg, s, r)
    ensures RecordOk(cfg, Continued(cfg, s, threw), Recorded(s, Resume(0, threw), r))
  {
    var t := s.tasks[0];
    if t.phase != Filling {
      OneMore(r.answers, t.chain, s.ready[t.chain]);
    }
  }

  lemma OtherRecord(cfg: Settings, s: State, threw: bool, r: Record)
    requires Inv(cfg, s) && s.tasks != [] && !s.tasks[0].Backfill? && RecordOk(cfg, s, r)
    ensures RecordOk(cfg, Continued(cfg, s, threw), Recorded(s, Resume(0, threw), r))
  {
  }

  lemma RecordStep(cfg: Settings, s: State, a: Action, r: Record)
    requires Inv(cfg, s) && Enabled(cfg, s, a) && RecordOk(cfg, s, r)
    ensures RecordOk(cfg, Next(cfg, s, a), Recorded(s, a, r))
  {
    if a.Resume? {
      OnlyTask(cfg, s, a);
      if s.tasks[0].Backfill? {
        BackfillRecord(cfg, s, a.threw, r);
      } else {
        OtherRecord(cfg, s, a.threw, r);
      }
    }
  }

  /** A resumed task is the only one there is. */
  lemma OnlyTask(cfg: Settings, s: State, a: Action)
    requires Inv(cfg, s) && Enabled(cfg, s, a) && a.Resume?
    ensures a == Resume(0, a.threw) && |s.tasks| == 1 && Next(cfg, s, a) == Continued(cfg, s, a.threw)
  {
    var rest := Continued(cfg, s, a.threw).tasks;
    assert s.tasks[..0] == [] && s.tasks[1..] == [] && Drop(s.tasks, 0) + rest == rest;
  }

  lemma {:induction false} RecordHolds(cfg: Settings, s: State, run: seq<Action>, r: Record)
    requires Inv(cfg, s) && IsRun(cfg, s, run) && RecordOk(cfg, s, r)
    ensures Inv(cfg, After(cfg, s, run)) && RecordOk(cfg, After(cfg, s, run), RecordOf(cfg, s, run, r))
    decreases |run|
  {
    if run == [] {
    } else {
      StepKeeps(cfg, s, run[0]);
      RecordStep(cfg, s, run[0], r);
      RecordHolds(cfg, Next(cfg, s, run[0]), run[1..], Recorded(s, run[0], r));
    }
  }

  // ---- What comes next ---------------------------------------------------------------

  predicate PollArmed(cfg: Settings, f: Flags) { f.pollTimer == Some(cfg.pollDelay) && f.backfillTimer.None? }

  predicate PassArmed(f: Flags, delay: nat) { f.backfillTimer == Some(delay) && f.pollTimer.None? }

  /** Every chain was asked, and its last answer was that it is indexed. */
  ghost predicate AllIndexed(cfg: Settings, r: Record) {
    UpTo(r.answers.Keys, cfg.chains) && AllTrue(r.answers, cfg.chains)
  }

  /**
   What the end of an activity arms. Boot: a poll, every chain being indexed. A pass:
   it has asked every chain; the next pass after a failure, with the back-off delay,
   or when some chain's last answer was no; else a poll. A check that finds a chain
   unindexed: a pass. A poll: it has polled every chain; the next poll.
   */
  ghost predicate Follows(cfg: Settings, t: Task, r: Record, failures: nat, f: Flags) {
    match t
    case Boot(_) => AllIndexed(cfg, r) && PollArmed(cfg, f)
    case Backfill(_, _, _, _) =>
      UpTo(r.answers.Keys, cfg.chains) &&
      if r.threw then PassArmed(f, FailureDelay(cfg.passDelay, failures + 1))
      else if AllIndexed(cfg, r) then PollArmed(cfg, f)
      else PassArmed(f, cfg.passDelay)
    case PollCheck(i) => i in r.answers && !r.answers[i] && PassArmed(f, cfg.passDelay)
    case Poll(_) => UpTo(r.polled, cfg.chains) && AllIndexed(cfg, r) && PollArmed(cfg, f)
  }

  lemma EndFollows(cfg: Settings, s: State, threw: bool, r: Record)
    requires Inv(cfg, s) && s.tasks != [] && RecordOk(cfg, s, r) && !s.flags.stopped
    requires Continued(cfg, s, threw).tasks == []
    ensures Follows(cfg, s.tasks[0], Recorded(s, Resume(0, threw), r), s.flags.failStreak,
                    Continued(cfg, s, threw).flags)
  {
    var i := s.tasks[0].chain;
    if s.tasks[0].Backfill? {
      OneMore(r.answers, i, s.ready[i]);
    }
  }

  /** In every run, until stop, each activity that ends arms exactly the timer its own record calls for. */
  lemma NextActivity(cfg: Settings, s: State, run: seq<Action>, a: Action)
    requires Initial(cfg, s) && IsRun(cfg, s, run) && Enabled(cfg, After(cfg, s, run), a) && a.Resume?
    requires !After(cfg, s, run).flags.stopped && Next(cfg, After(cfg, s, run), a).tasks == []
    ensures var last := After(cfg, s, run);
            Follows(cfg, last.tasks[a.task], Recorded(last, a, RecordOf(cfg, s, run, NOTHING)),
                    FailedInARow(cfg, s, run, 0), Next(cfg, last, a).flags)
  {
    RecordHolds(cfg, s, run, NOTHING);
    StreakIsCount(cfg, s, run);
    var last := After(cfg, s, run);
    OnlyTask(cfg, last, a);
    EndFollows(cfg, last, a.threw, RecordOf(cfg, s, run, NOTHING));
  }

  /** A pass begins with the first chain, when its timer fires or when boot finds a chain that is not indexed. */
  lemma PassBegins(cfg: Settings, s: State, run: seq<Action>, a: Action)
    requires Initial(cfg, s) && IsRun(cfg, s, run) && Enabled(cfg, After(cfg, s, run), a)
    requires !After(cfg, s, run).flags.stopped
    requires var last := After(cfg, s, run);
             a == FireBackfill || (a.Resume? && last.tasks[a.task].Boot? && !last.ready[last.tasks[a.task].chain])
    ensures var next := Next(cfg, After(cfg, s, run), a);
            next.tasks == [Backfill(0, AskReady, false, false)] && next.flags.backfillRunning &&
            Recorded(After(cfg, s, run), a, RecordOf(cfg, s, run, NOTHING)) == NOTHING
  {
    RunKeeps(cfg, s, run);
    if a.Resume? {
      OnlyTask(cfg, After(cfg, s, run), a);
    }
  }

  /** When the poll timer fires, the flags are checked from the first chain on. */
  lemma PollBegins(cfg: Settings, s: State, run: seq<Action>)
    requires Initial(cfg, s) && IsRun(cfg, s, run) && Enabled(cfg, After(cfg, s, run), FirePoll)
    ensures var next := Next(cfg, After(cfg, s, run), FirePoll);
            next.tasks == [PollCheck(0)] && next.flags.pollTimer.None? && next.flags.backfillTimer.None?
  {
    RunKeeps(cfg, s, run);
  }

  // ---- After stop ----------------------------------------------------------------------

  predicate InPass(s: State) { s.tasks != [] && s.tasks[0].Backfill? }

  /** Stopped, with no pass in progress, or with nothing at all. */
  predicate NoPass(s: State) { s.flags.stopped && !InPass(s) }

  lemma NoPassStep(cfg: Settings, s: State, a: Action)
    requires Inv(cfg, s) && Enabled(cfg, s, a) && NoPass(s)
    ensures NoPass(Next(cfg, s, a)) && (s.tasks == [] ==> Next(cfg, s, a).tasks == [])
  {
    if a.Resume? {
      OnlyTask(cfg, s, a);
    }
  }

  lemma {:induction false} NoPassRun(cfg: Settings, s: State, run: seq<Action>)
    requires Inv(cfg, s) && IsRun(cfg, s, run) && NoPass(s)
    ensures NoPass(After(cfg, s, run)) && (s.tasks == [] ==> After(cfg, s, run).tasks == [])
    decreases |run|
  {
    if run == [] {
    } else {
      StepKeeps(cfg, s, run[0]);
      NoPassStep(cfg, s, run[0]);
      NoPassRun(cfg, Next(cfg, s, run[0]), run[1..]);
    }
  }

  /** After stop no pass begins, not even the boot check's; and once the activity in progress is over, nothing does. */
  lemma NothingBeginsAfterStop(cfg: Settings, s: State, run: seq<Action>, more: seq<Action>, rest: seq<Action>)
    requires Initial(cfg, s) && IsRun(cfg, s, run)
    requires var stopped := Next(cfg, After(cfg, s, run), Stop);
             IsRun(cfg, stopped, more) && IsRun(cfg, After(cfg, stopped, more), rest)
    ensures var stopped := Next(cfg, After(cfg, s, run), Stop);
            var later := After(cfg, stopped, more);
            (!InPass(stopped) ==> !InPass(later)) &&
            (later.tasks == [] ==> After(cfg, later, rest).tasks == [])
  {
    RunKeeps(cfg, s, run);
    var stopped := Next(cfg, After(cfg, s, run), Stop);
    StepKeeps(cfg, After(cfg, s, run), Stop);
    RunKeeps(cfg, stopped, more);
    StaysStopped(cfg, stopped, more);
    if !InPass(stopped) {
      NoPassRun(cfg, stopped, more);
    }
    if After(cfg, stopped, more).tasks == [] {
      NoPassRun(cfg, After(cfg, stopped, more), rest);
    }
  }
}
