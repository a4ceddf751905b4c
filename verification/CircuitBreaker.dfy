/**
 The Card Hedge circuit breaker, checked against a specification over the whole
 history of completed calls and admission checks, in any concurrent order.
 */
module CircuitBreaker {
  import opened Wrappers

  datatype Mode = CLOSED | OPEN | HALF_OPEN

  datatype Settings = Settings(threshold: nat, resetMs: nat) {
    predicate Valid() { threshold >= 1 && resetMs >= 5_000 }
  }

  datatype Breaker = Breaker(mode: Mode, failures: nat, openedAt: int)

  const CLOSED_BREAKER := Breaker(CLOSED, 0, 0)

  /** The admission check: true means reject. It may move OPEN to HALF_OPEN. */
  function Check(cfg: Settings, b: Breaker, now: int): (bool, Breaker) {
    match b.mode
    case CLOSED => (false, b)
    case OPEN => if now - b.openedAt >= cfg.resetMs then (false, b.(mode := HALF_OPEN)) else (true, b)
    case HALF_OPEN => (false, b)
  }

  function Success(b: Breaker): Breaker { Breaker(CLOSED, 0, b.openedAt) }

  function Failure(cfg: Settings, b: Breaker, now: int): Breaker {
    var b := b.(failures := b.failures + 1);
    if b.mode == HALF_OPEN || (b.mode == CLOSED && b.failures >= cfg.threshold)
    then b.(mode := OPEN, openedAt := now) else b
  }

  /** How a finished upstream call ended. */
  datatype Outcome = NetworkError | BodyError | Http(status: nat)

  /** Which outcomes the breaker hears of, and as what. */
  function Verdict(o: Outcome): Option<bool> {
    match o
    case NetworkError => Some(false)
    case BodyError => None
    case Http(status) => Some(!(status == 429 || status >= 500))
  }

  class CardhedgerService {
    const cfg: Settings
    var cbState: Mode
    var cbConsecutiveFailures: nat
    var cbOpenedAt: int

    constructor (cfg: Settings)
      ensures this.cfg == cfg && View() == CLOSED_BREAKER
    {
      this.cfg := cfg;
      cbState, cbConsecutiveFailures, cbOpenedAt := CLOSED, 0, 0;
    }

    ghost function View(): Breaker
      reads this
    {
      Breaker(cbState, cbConsecutiveFailures, cbOpenedAt)
    }

    method IsCircuitOpen(now: int) returns (reject: bool)
      modifies this`cbState
      ensures (reject, View()) == Check(cfg, old(View()), now)
    {
      if cbState == CLOSED {
        return false;
      }
      if cbState == OPEN {
        if now - cbOpenedAt >= cfg.resetMs {
          cbState := HALF_OPEN;
          return false;
        }
        return true;
      }
      return false;
    }

    method RecordCircuitSuccess()
      modifies this
      ensures View() == Success(old(View()))
    {
      cbState := CLOSED;
      cbConsecutiveFailures := 0;
    }

    method RecordCircuitFailure(now: int)
      modifies this
      ensures View() == Failure(cfg, old(View()), now)
    {
      cbConsecutiveFailures := cbConsecutiveFailures + 1;
      if cbState == HALF_OPEN {
        cbState := OPEN;
        cbOpenedAt := now;
        return;
      }
      if cbState == CLOSED && cbConsecutiveFailures >= cfg.threshold {
        cbState := OPEN;
        cbOpenedAt := now;
      }
    }

    /** The part of `forwardJson` that runs when an upstream call has finished. */
    method Finish(o: Outcome, now: int)
      modifies this
      ensures View() == match Verdict(o)
                        case None => old(View())
                        case Some(ok) => if ok then Success(old(View())) else Failure(cfg, old(View()), now)
    {
      match o
      case NetworkError => RecordCircuitFailure(now);
      case BodyError =>
      case Http(status) =>
        if 200 <= status < 300 {
          RecordCircuitSuccess();
        } else if status == 429 || status >= 500 {
          RecordCircuitFailure(now);
        } else {
          RecordCircuitSuccess();
        }
    }
  }

  // ---- The history specification ---------------------------------------------------------

  datatype Event = Checked(at: int) | Succeeded(at: int) | FailedAt(at: int)

  ghost predicate Monotone(h: seq<Event>) {
    forall i, j :: 0 <= i < j < |h| ==> h[i].at <= h[j].at
  }

  function Apply(cfg: Settings, b: Breaker, e: Event): Breaker {
    match e
    case Checked(at) => Check(cfg, b, at).1
    case Succeeded(_) => Success(b)
    case FailedAt(at) => Failure(cfg, b, at)
  }

  function Run(cfg: Settings, h: seq<Event>): Breaker {
    if h == [] then CLOSED_BREAKER else Apply(cfg, Run(cfg, h[..|h| - 1]), h[|h| - 1])
  }

  /** Failures completed since the last success. */
  function FailuresSinceSuccess(h: seq<Event>): nat {
    if h == [] || h[|h| - 1].Succeeded? then 0
    else FailuresSinceSuccess(h[..|h| - 1]) + if h[|h| - 1].FailedAt? then 1 else 0
  }

  /** A call was let through as a probe after an opening at time `since`. */
  ghost predicate Probed(cfg: Settings, h: seq<Event>, since: int) {
    exists i :: 0 <= i < |h| && h[i].Checked? && h[i].at >= since + cfg.resetMs
  }

  /**
   Time of the last opening failure with no success completed since: the failure
   that reaches the threshold, or one that completes after a probe was let through.
   */
  ghost function LastOpening(cfg: Settings, h: seq<Event>): Option<int> {
    if h == [] || h[|h| - 1].Succeeded? then None
    else
      var front, e := h[..|h| - 1], h[|h| - 1];
      var before := LastOpening(cfg, front);
      if e.FailedAt? && FailuresSinceSuccess(h) >= cfg.threshold &&
         (before.None? || Probed(cfg, front, before.value))
      then Some(e.at) else before
  }

  lemma ProbedStep(cfg: Settings, h: seq<Event>, since: int)
    requires h != []
    ensures Probed(cfg, h, since) <==>
            Probed(cfg, h[..|h| - 1], since) || (h[|h| - 1].Checked? && h[|h| - 1].at >= since + cfg.resetMs)
  {
    var front := h[..|h| - 1];
    if i :| 0 <= i < |h| && h[i].Checked? && h[i].at >= since + cfg.resetMs {
      if i < |front| { assert front[i] == h[i]; }
    }
    if i :| 0 <= i < |front| && front[i].Checked? && front[i].at >= since + cfg.resetMs {
      assert h[i] == front[i];
    }
  }

  /** A fresh opening has not been probed: every earlier check happened before its reset. */
  lemma NotYetProbed(cfg: Settings, h: seq<Event>)
    requires cfg.Valid() && Monotone(h) && h != []
    ensures !Probed(cfg, h[..|h| - 1], h[|h| - 1].at)
  {
  }

  /** The breaker's three fields are a function of the history. */
  lemma {:induction false} RefinesHistory(cfg: Settings, h: seq<Event>)
    requires cfg.Valid() && Monotone(h)
    ensures var b := Run(cfg, h);
            b.failures == FailuresSinceSuccess(h) &&
            (b.mode == CLOSED <==> FailuresSinceSuccess(h) < cfg.threshold) &&
            (b.mode == CLOSED <==> LastOpening(cfg, h).None?) &&
            (b.mode != CLOSED ==>
               b.openedAt == LastOpening(cfg, h).value && (b.mode == HALF_OPEN <==> Probed(cfg, h, b.openedAt)))
  {
    if h == [] {
    } else {
      var front, e := h[..|h| - 1], h[|h| - 1];
      RefinesHistory(cfg, front);
      NotYetProbed(cfg, h);
      ProbedStep(cfg, h, e.at);
      if LastOpening(cfg, front).Some? {
        ProbedStep(cfg, h, LastOpening(cfg, front).value);
      }
    }
  }

  ghost predicate LaterThan(h: seq<Event>, now: int) {
    forall i :: 0 <= i < |h| ==> h[i].at <= now
  }

  /** A call is rejected exactly within the reset window of the last opening failure not followed by a success. */
  lemma RejectedExactlyInWindow(cfg: Settings, h: seq<Event>, now: int)
    requires cfg.Valid() && Monotone(h) && LaterThan(h, now)
    ensures Check(cfg, Run(cfg, h), now).0 <==>
            LastOpening(cfg, h).Some? && now < LastOpening(cfg, h).value + cfg.resetMs
  {
    RefinesHistory(cfg, h);
  }

  /** The opening failure is in the history, with no success after it. */
  lemma {:induction false} OpeningIsAFailure(cfg: Settings, h: seq<Event>) returns (i: nat)
    requires LastOpening(cfg, h).Some?
    ensures i < |h| && h[i] == FailedAt(LastOpening(cfg, h).value)
    ensures forall j :: i < j < |h| ==> !h[j].Succeeded?
  {
    var front := h[..|h| - 1];
    if LastOpening(cfg, front).Some? && LastOpening(cfg, h) == LastOpening(cfg, front) {
      i := OpeningIsAFailure(cfg, front);
    } else {
      i := |h| - 1;
    }
  }

  /**
   HALF_OPEN is not a single probe: once one call is let through, every call is,
   until a failure completes, however many have already been admitted.
   */
  lemma {:induction false} HalfOpenAdmitsEveryone(cfg: Settings, h: seq<Event>, more: seq<Event>, now: int)
    requires Run(cfg, h).mode == HALF_OPEN && forall e :: e in more ==> !e.FailedAt?
    ensures !Check(cfg, Run(cfg, h + more), now).0
    ensures (forall e :: e in more ==> e.Checked?) ==> Run(cfg, h + more).mode == HALF_OPEN
    ensures Run(cfg, h + more).mode != OPEN
  {
    if more == [] {
      assert h + more == h;
    } else {
      var front := more[..|more| - 1];
      assert (h + more)[..|h + more| - 1] == h + front;
      assert more[|more| - 1] in more;
      HalfOpenAdmitsEveryone(cfg, h, front, now);
    }
  }

  // ---- In terms of upstream answers ----------------------------------------------------------

  /** An admission check, or the end of an upstream call. */
  datatype Step = Ask(at: int) | End(outcome: Outcome, at: int)

  predicate Outage(o: Outcome) { o.NetworkError? || (o.Http? && (o.status == 429 || o.status >= 500)) }

  /** Any other answer, a client error included. */
  predicate Answered(o: Outcome) { o.Http? && o.status != 429 && o.status < 500 }

  /** What the service does at a step: `IsCircuitOpen`, or `Finish`. */
  function Take(cfg: Settings, b: Breaker, s: Step): Breaker {
    match s
    case Ask(at) => Check(cfg, b, at).1
    case End(o, at) =>
      match Verdict(o)
      case None => b
      case Some(ok) => if ok then Success(b) else Failure(cfg, b, at)
  }

  function TakeAll(cfg: Settings, steps: seq<Step>): Breaker {
    if steps == [] then CLOSED_BREAKER else Take(cfg, TakeAll(cfg, steps[..|steps| - 1]), steps[|steps| - 1])
  }

  function EventOf(s: Step): seq<Event> {
    match s
    case Ask(at) => [Checked(at)]
    case End(o, at) => if Outage(o) then [FailedAt(at)] else if Answered(o) then [Succeeded(at)] else []
  }

  function EventsOf(steps: seq<Step>): seq<Event> {
    if steps == [] then [] else EventsOf(steps[..|steps| - 1]) + EventOf(steps[|steps| - 1])
  }

  lemma RunOneMore(cfg: Settings, h: seq<Event>, e: Event)
    ensures Run(cfg, h + [e]) == Apply(cfg, Run(cfg, h), e)
  {
    assert (h + [e])[..|h|] == h;
  }

  lemma TakeIsEvent(cfg: Settings, h: seq<Event>, s: Step)
    ensures Take(cfg, Run(cfg, h), s) == Run(cfg, h + EventOf(s))
  {
    if EventOf(s) == [] {
      assert h + EventOf(s) == h;
    } else {
      RunOneMore(cfg, h, EventOf(s)[0]);
      assert EventOf(s) == [EventOf(s)[0]];
    }
  }

  /** The history the breaker goes by is that of outages and answers; a broken body says nothing. */
  lemma {:induction false} AnswersAreHistory(cfg: Settings, steps: seq<Step>)
    ensures TakeAll(cfg, steps) == Run(cfg, EventsOf(steps))
  {
    if steps == [] {
    } else {
      AnswersAreHistory(cfg, steps[..|steps| - 1]);
      TakeIsEvent(cfg, EventsOf(steps[..|steps| - 1]), steps[|steps| - 1]);
    }
  }

  function OutagesInARow(steps: seq<Step>): nat {
    if steps == [] then 0
    else
      var n := OutagesInARow(steps[..|steps| - 1]);
      match steps[|steps| - 1]
      case Ask(_) => n
      case End(o, _) => if Answered(o) then 0 else if Outage(o) then n + 1 else n
  }

  lemma {:induction false} OutagesAreFailures(steps: seq<Step>)
    ensures FailuresSinceSuccess(EventsOf(steps)) == OutagesInARow(steps)
  {
    if steps == [] {
    } else {
      var front, event := EventsOf(steps[..|steps| - 1]), EventOf(steps[|steps| - 1]);
      OutagesAreFailures(steps[..|steps| - 1]);
      if event == [] {
        assert front + event == front;
      } else {
        assert (front + event)[..|front + event| - 1] == front;
      }
    }
  }

  ghost predicate InTime(steps: seq<Step>) {
    forall i, j :: 0 <= i < j < |steps| ==> steps[i].at <= steps[j].at
  }

  lemma {:induction false} EventsInTime(steps: seq<Step>)
    requires InTime(steps)
    ensures Monotone(EventsOf(steps))
    ensures steps != [] ==> LaterThan(EventsOf(steps), steps[|steps| - 1].at)
  {
    if steps == [] {
    } else {
      EventsInTime(steps[..|steps| - 1]);
      var front, last := EventsOf(steps[..|steps| - 1]), steps[|steps| - 1];
      assert LaterThan(front, last.at);
      OneMoreInTime(front, EventOf(last), last.at);
    }
  }

  lemma OneMoreInTime(h: seq<Event>, more: seq<Event>, at: int)
    requires Monotone(h) && LaterThan(h, at) && |more| <= 1 && forall e :: e in more ==> e.at == at
    ensures Monotone(h + more) && LaterThan(h + more, at)
  {
  }

  /**
   The service lets every call through exactly while fewer outages than the threshold
   have ended in a row: network errors, 429s and server errors, with no other answer
   between them, however the calls overlap.
   */
  lemma {:induction false} ClosedIff(cfg: Settings, steps: seq<Step>)
    requires cfg.Valid() && InTime(steps)
    ensures TakeAll(cfg, steps).mode == CLOSED <==> OutagesInARow(steps) < cfg.threshold
    ensures TakeAll(cfg, steps).failures == OutagesInARow(steps)
  {
    AnswersAreHistory(cfg, steps);
    OutagesAreFailures(steps);
    EventsInTime(steps);
    RefinesHistory(cfg, EventsOf(steps));
  }

  /** Any answer but a 429 or a server error closes the breaker at once, and the next call is let through. */
  lemma AnswerCloses(cfg: Settings, steps: seq<Step>, o: Outcome, at: int, now: int)
    requires Answered(o)
    ensures TakeAll(cfg, steps + [End(o, at)]).mode == CLOSED && TakeAll(cfg, steps + [End(o, at)]).failures == 0
    ensures !Check(cfg, TakeAll(cfg, steps + [End(o, at)]), now).0
  {
    assert (steps + [End(o, at)])[..|steps|] == steps;
  }
}
