/**
 Pacing of price-list downloads: one request at a time behind a FIFO gate, ten
 minutes between starts, more when the upstream asks for it. Times are
 milliseconds on a monotone clock; a sleep never ends early.
 */
module CsvPacing {
  import opened Wrappers

  const COOLDOWN_MS := 10 * 60 * 1_000

  datatype Mode = WAIT | THROW

  /** A Retry-After header: none, seconds, an HTTP date, or anything else. */
  datatype RetryAfter = Absent | Seconds(n: nat) | HttpDate(at: int) | Unreadable

  function Max(a: int, b: int): int { if a >= b then a else b }

  function RetryAfterMs(header: RetryAfter, now: int): int {
    match header
    case Seconds(n) => n * 1000
    case HttpDate(at) => Max(0, at - now)
    case _ => 0
  }

  /** The earliest time at which a header read at `now` allows another request: so many seconds on, or the date. */
  function Asked(header: RetryAfter, now: int): int {
    match header
    case Seconds(n) => now + 1_000 * n
    case HttpDate(at) => if at > now then at else now
    case _ => now
  }

  lemma AskedIsItsDelay(header: RetryAfter, now: int)
    ensures Asked(header, now) == now + RetryAfterMs(header, now)
  {
  }

  /**
   Earliest next start the code reserves for a response; None when it says nothing
   about pace. The gap counts from the request's start, not from the response.
   */
  function NotedUntil(startedAt: int, status: nat, header: RetryAfter, now: int): Option<int> {
    if status != 429 && header == Absent then None
    else Some(startedAt + Max(COOLDOWN_MS, RetryAfterMs(header, now)))
  }

  datatype Pace = Pace(nextAt: int, lastAt: int)

  datatype Admission = Refuse(seconds: int) | Sleep(ms: int) | Go

  function Admit(p: Pace, mode: Mode, now: int): Admission {
    var wait := Max(0, p.nextAt - now);
    if wait == 0 then Go
    else if mode == THROW then Refuse((wait + 999) / 1000)
    else Sleep(wait)
  }

  function Begin(p: Pace, now: int): Pace { Pace(Max(p.nextAt, now + COOLDOWN_MS), now) }

  function Noted(p: Pace, startedAt: int, status: nat, header: RetryAfter, now: int): Pace {
    match NotedUntil(startedAt, status, header, now)
    case None => p
    case Some(until) => p.(nextAt := Max(p.nextAt, until))
  }

  class PricechartingService {
    var lastCsvAt: int
    var nextCsvAt: int

    constructor ()
      ensures View() == Pace(0, 0)
    {
      lastCsvAt, nextCsvAt := 0, 0;
    }

    ghost function View(): Pace
      reads this
    {
      Pace(nextCsvAt, lastCsvAt)
    }

    /** The gate holder's first stretch: refuse, sleep, or start at once. */
    method WithCsvDownload(mode: Mode, now: int) returns (a: Admission)
      modifies this
      ensures a == Admit(old(View()), mode, now)
      ensures View() == if a == Go then Begin(old(View()), now) else old(View())
    {
      var wait := if nextCsvAt - now > 0 then nextCsvAt - now else 0;
      if wait > 0 {
        if mode == THROW {
          return Refuse((wait + 999) / 1000);
        }
        return Sleep(wait);
      }
      a := Go;
      StartDownload(now);
    }

    /** After the sleep: the slot is reserved before the request is sent. */
    method StartDownload(now: int)
      modifies this
      ensures View() == Begin(old(View()), now)
    {
      lastCsvAt := now;
      if nextCsvAt < now + COOLDOWN_MS {
        nextCsvAt := now + COOLDOWN_MS;
      }
    }

    method NoteCsvPace(startedAt: int, status: nat, header: RetryAfter, now: int)
      modifies this
      ensures View() == Noted(old(View()), startedAt, status, header, now)
    {
      if status != 429 && header == Absent {
        return;
      }
      var gap := Max(COOLDOWN_MS, RetryAfterMs(header, now));
      nextCsvAt := Max(nextCsvAt, startedAt + gap);
    }
  }

  // ---- Whole runs ------------------------------------------------------------------------

  /** What the caller at the head of the gate's queue is doing. */
  datatype Phase = Entering | Sleeping(until: int) | Requesting(startedAt: int, answered: bool)

  /** A pace note: taken at `readAt` during start number `during` from this header, it forbids starts before `until`. */
  datatype Note = Note(during: nat, header: RetryAfter, readAt: int, until: int)

  datatype State = State(now: int, pace: Pace, queue: seq<Mode>, phase: Phase, starts: seq<int>, notes: seq<Note>)

  datatype Action =
    | Tick(ms: nat)
    | Arrive(mode: Mode)
    | Enter
    | Wake
    | Respond(status: nat, header: RetryAfter)
    | Finish(ok: bool)

  predicate Enabled(s: State, a: Action) {
    match a
    case Tick(_) => true
    case Arrive(_) => true
    case Enter => s.queue != [] && s.phase == Entering
    case Wake => s.queue != [] && s.phase.Sleeping? && s.now >= s.phase.until
    case Respond(_, _) => s.queue != [] && s.phase.Requesting? && !s.phase.answered
    case Finish(_) => s.queue != [] && s.phase.Requesting?
  }

  function Started(s: State): State {
    s.(pace := Begin(s.pace, s.now), phase := Requesting(s.now, false), starts := s.starts + [s.now])
  }

  function Released(s: State): State {
    s.(queue := if s.queue == [] then [] else s.queue[1..], phase := Entering)
  }

  function Next(s: State, a: Action): State {
    match a
    case Tick(ms) => s.(now := s.now + ms)
    case Arrive(mode) => s.(queue := s.queue + [mode])
    case Enter =>
      if s.queue == [] then s
      else
        (match Admit(s.pace, s.queue[0], s.now)
         case Refuse(_) => Released(s)
         case Sleep(ms) => s.(phase := Sleeping(s.now + ms))
         case Go => Started(s))
    case Wake => Started(s)
    case Respond(status, header) =>
      if !s.phase.Requesting? || s.starts == [] then s
      else
        var read := s.(phase := s.phase.(answered := true));
        (match NotedUntil(s.phase.startedAt, status, header, s.now)
         case None => read
         case Some(until) =>
           read.(pace := Noted(s.pace, s.phase.startedAt, status, header, s.now),
                 notes := s.notes + [Note(|s.starts| - 1, header, s.now, until)]))
    case Finish(_) => Released(s)
  }

  predicate Initial(s: State) {
    s.pace == Pace(0, 0) && s.queue == [] && s.phase == Entering && s.starts == [] && s.notes == []
  }

  ghost predicate Spaced(s: State) {
    forall k :: 0 < k < |s.starts| ==> s.starts[k] - s.starts[k - 1] >= COOLDOWN_MS
  }

  ghost predicate Respected(s: State) {
    forall n, k :: n in s.notes && n.during < k < |s.starts| ==> s.starts[k] >= n.until
  }

  /** A note is taken after its request started, and reserves what the code makes of its header. */
  predicate Honest(s: State, n: Note) {
    n.during < |s.starts| && s.starts[n.during] <= n.readAt &&
    n.until == s.starts[n.during] + Max(COOLDOWN_MS, RetryAfterMs(n.header, n.readAt))
  }

  ghost predicate Inv(s: State) {
    Spaced(s) && Respected(s) &&
    (s.starts != [] ==> s.pace.nextAt >= s.starts[|s.starts| - 1] + COOLDOWN_MS && s.starts[|s.starts| - 1] <= s.now) &&
    (forall n :: n in s.notes ==> n.until <= s.pace.nextAt && Honest(s, n)) &&
    (s.phase.Sleeping? ==> s.phase.until >= s.pace.nextAt) &&
    (s.phase.Requesting? ==> s.starts != [] && s.starts[|s.starts| - 1] == s.phase.startedAt) &&
    (s.phase.Requesting? && !s.phase.answered ==> s.pace.nextAt == s.phase.startedAt + COOLDOWN_MS) &&
    (s.phase != Entering ==> s.queue != [])
  }

  /** A start never comes before the reserved time, so it is spaced and respects every note. */
  lemma StartKeeps(s: State)
    requires Inv(s) && s.now >= s.pace.nextAt && s.queue != []
    ensures Inv(Started(s))
  {
  }

  lemma RespondKeeps(s: State, status: nat, header: RetryAfter)
    requires Inv(s) && Enabled(s, Respond(status, header))
    ensures Inv(Next(s, Respond(status, header)))
  {
    var s' := Next(s, Respond(status, header));
    forall n | n in s'.notes ensures n.until <= s'.pace.nextAt && Honest(s', n) {
      assert n in s.notes || n == s'.notes[|s.notes|];
    }
  }

  lemma EnterKeeps(s: State)
    requires Inv(s) && Enabled(s, Enter)
    ensures Inv(Next(s, Enter))
  {
    if Admit(s.pace, s.queue[0], s.now) == Go {
      StartKeeps(s);
    }
  }

  lemma StepKeeps(s: State, a: Action)
    requires Inv(s) && Enabled(s, a)
    ensures Inv(Next(s, a))
  {
    match a
    case Enter => EnterKeeps(s);
    case Wake => StartKeeps(s);
    case Respond(status, header) => RespondKeeps(s, status, header);
    case _ =>
  }

  ghost predicate IsRun(s: State, run: seq<Action>)
    decreases |run|
  {
    run != [] ==> Enabled(s, run[0]) && IsRun(Next(s, run[0]), run[1..])
  }

  function After(s: State, run: seq<Action>): State
    decreases |run|
  {
    if run == [] then s else After(Next(s, run[0]), run[1..])
  }

  lemma {:induction false} RunKeeps(s: State, run: seq<Action>)
    requires Inv(s) && IsRun(s, run)
    ensures Inv(After(s, run))
    decreases |run|
  {
    if run == [] {
    } else {
      StepKeeps(s, run[0]);
      RunKeeps(Next(s, run[0]), run[1..]);
    }
  }

  lemma {:induction false} SpacedApart(s: State, i: nat, j: nat)
    requires Spaced(s) && i <= j < |s.starts|
    ensures s.starts[j] - s.starts[i] >= (j - i) * COOLDOWN_MS
    decreases j - i
  {
    if i < j {
      SpacedApart(s, i, j - 1);
    }
  }

  /** For any mix of waiting, throwing, failing and retried downloads, starts i and j are j-i times 10 minutes apart. */
  lemma StartsAreSpaced(s: State, run: seq<Action>, i: nat, j: nat)
    requires Initial(s) && IsRun(s, run) && i <= j < |After(s, run).starts|
    ensures After(s, run).starts[j] - After(s, run).starts[i] >= (j - i) * 600_000
  {
    RunKeeps(s, run);
    SpacedApart(After(s, run), i, j);
  }

  /** How long the response of a note took. */
  function Latency(s: State, n: Note): int
    requires n.during < |s.starts|
  {
    n.readAt - s.starts[n.during]
  }

  /** The longest a response may take for the code to wait as long as its header asks. */
  function Slack(header: RetryAfter, readAt: int): int { Max(0, COOLDOWN_MS - RetryAfterMs(header, readAt)) }

  /** What the code reserves covers what the header asks exactly when the response was quick enough. */
  lemma ReservedIff(startedAt: int, status: nat, header: RetryAfter, now: int)
    requires NotedUntil(startedAt, status, header, now).Some?
    ensures NotedUntil(startedAt, status, header, now).value >= Asked(header, now) <==>
            now - startedAt <= Slack(header, now)
  {
  }

  /**
   Every start respects every note taken before it. Measured by what the header
   asked, it may come early, by no more than the response's latency, and not at all
   after a response within the slack.
   */
  lemma NotesAreRespected(s: State, run: seq<Action>, n: Note, k: nat)
    requires Initial(s) && IsRun(s, run) && n in After(s, run).notes && n.during < k < |After(s, run).starts|
    ensures var end := After(s, run);
            n.during < |end.starts| && end.starts[k] >= n.until &&
            end.starts[k] >= Asked(n.header, n.readAt) - Latency(end, n) &&
            (Latency(end, n) <= Slack(n.header, n.readAt) ==> end.starts[k] >= Asked(n.header, n.readAt))
  {
    RunKeeps(s, run);
    assert Honest(After(s, run), n);
  }

  lemma {:induction false} StartsGrow(s: State, run: seq<Action>)
    ensures s.starts <= After(s, run).starts
    decreases |run|
  {
    if run == [] {
    } else {
      StartsGrow(Next(s, run[0]), run[1..]);
    }
  }

  /** No request starts before `time`: it is past already, or reserved. */
  predicate Closed(s: State, time: int) { s.now >= time || s.pace.nextAt >= time }

  lemma {:induction false} ClosedHolds(s: State, run: seq<Action>, time: int)
    requires Inv(s) && Closed(s, time) && IsRun(s, run) && |After(s, run).starts| > |s.starts|
    ensures After(s, run).starts[|s.starts|] >= time
    decreases |run|
  {
    if run == [] {
    } else {
      var s1 := Next(s, run[0]);
      StepKeeps(s, run[0]);
      if |s1.starts| > |s.starts| {
        StartsGrow(s1, run[1..]);
        assert After(s1, run[1..]).starts[|s.starts|] == s1.starts[|s.starts|];
      } else {
        ClosedHolds(s1, run[1..], time);
      }
    }
  }

  /** Once this request is over, somebody can start at the reserved time, or now if that has passed. */
  lemma EarliestStart(s: State)
    requires s.queue != [] && s.phase.Requesting?
    ensures var run := [Finish(true), Arrive(WAIT), Tick(Max(0, s.pace.nextAt - s.now)), Enter];
            IsRun(s, run) && After(s, run).starts == s.starts + [Max(s.now, s.pace.nextAt)]
  {
    var wait := Max(0, s.pace.nextAt - s.now);
    var over := Next(s, Finish(true));
    var joined := Next(over, Arrive(WAIT));
    var waited := Next(joined, Tick(wait));
    assert [Finish(true), Arrive(WAIT), Tick(wait), Enter][1..] == [Arrive(WAIT), Tick(wait), Enter];
    assert [Arrive(WAIT), Tick(wait), Enter][1..] == [Tick(wait), Enter];
    assert [Tick(wait), Enter][1..] == [Enter] && [Enter][1..] == [];
    assert IsRun(waited, [Enter]) && After(waited, [Enter]) == Started(waited);
    assert IsRun(joined, [Tick(wait), Enter]) && After(joined, [Tick(wait), Enter]) == Started(waited);
    assert IsRun(over, [Arrive(WAIT), Tick(wait), Enter]);
    assert After(over, [Arrive(WAIT), Tick(wait), Enter]) == Started(waited);
  }

  /** Whatever happens next, the next request does not start before `time`. */
  ghost predicate Honoured(s: State, time: int) {
    forall more :: IsRun(s, more) && |After(s, more).starts| > |s.starts| ==> After(s, more).starts[|s.starts|] >= time
  }

  lemma HonouredIffClosed(s: State, time: int)
    requires Inv(s) && s.phase.Requesting?
    ensures Honoured(s, time) <==> Closed(s, time)
  {
    EarliestStart(s);
    if Closed(s, time) {
      forall more | IsRun(s, more) && |After(s, more).starts| > |s.starts|
        ensures After(s, more).starts[|s.starts|] >= time
      {
        ClosedHolds(s, more, time);
      }
    } else {
      var more := [Finish(true), Arrive(WAIT), Tick(Max(0, s.pace.nextAt - s.now)), Enter];
      assert After(s, more).starts[|s.starts|] < time;
    }
  }

  /**
   When a Retry-After is honoured: after a response read at any point of any run, no
   later request can come before the time its header asks for, exactly when it asks
   for no wait or was read within the slack. The source counts the wait from the
   request's start, so a slow response that asks for more than the cooldown is undercut.
   */
  lemma RetryAfterIff(s: State, run: seq<Action>, status: nat, header: RetryAfter)
    requires Initial(s) && IsRun(s, run) && Enabled(After(s, run), Respond(status, header))
    ensures var end := After(s, run);
            Honoured(Next(end, Respond(status, header)), Asked(header, end.now)) <==>
            RetryAfterMs(header, end.now) == 0 || end.now - end.phase.startedAt <= Slack(header, end.now)
  {
    RunKeeps(s, run);
    var end := After(s, run);
    StepKeeps(end, Respond(status, header));
    HonouredIffClosed(Next(end, Respond(status, header)), Asked(header, end.now));
  }

  /**
   An undercut one: a 429 read a minute after its request started asks for twenty
   minutes, until 1261 seconds; the next request may start at 1201 seconds.
   */
  lemma AskedTooLate(s: State)
    requires Initial(s) && s.now == 1_000
    ensures var run := [Arrive(WAIT), Enter, Tick(60_000)];
            var read := Next(After(s, run), Respond(429, Seconds(1_200)));
            IsRun(s, run) && Enabled(After(s, run), Respond(429, Seconds(1_200))) &&
            Asked(Seconds(1_200), read.now) == 1_261_000 && !Honoured(read, 1_261_000) &&
            After(read, [Finish(true), Arrive(WAIT), Tick(1_140_000), Enter]).starts == [1_000, 1_201_000]
  {
    var run := [Arrive(WAIT), Enter, Tick(60_000)];
    assert run[1..] == [Enter, Tick(60_000)] && run[1..][1..] == [Tick(60_000)] && run[1..][1..][1..] == [];
    var end := Next(Next(Next(s, run[0]), run[1]), run[2]);
    assert After(s, run) == end;
    RetryAfterIff(s, run, 429, Seconds(1_200));
    EarliestStart(Next(end, Respond(429, Seconds(1_200))));
  }

  // ---- A throwing caller's wait --------------------------------------------------------------

  /** The step takes the head of the queue away: its request is over, or it was refused. */
  predicate Departs(s: State, a: Action) {
    a.Finish? || (a.Enter? && s.queue != [] && Admit(s.pace, s.queue[0], s.now).Refuse?)
  }

  function Departures(s: State, run: seq<Action>): nat
    decreases |run|
  {
    if run == [] then 0 else (if Departs(s, run[0]) then 1 else 0) + Departures(Next(s, run[0]), run[1..])
  }

  /** The caller at position `p` keeps its turn: each departure moves it up by one. */
  lemma {:induction false} KeepsItsTurn(s: State, run: seq<Action>, p: nat)
    requires IsRun(s, run) && p < |s.queue| && Departures(s, run) <= p
    ensures var end := After(s, run);
            p - Departures(s, run) < |end.queue| && end.queue[p - Departures(s, run)] == s.queue[p]
    decreases |run|
  {
    if run == [] {
    } else {
      var d := if Departs(s, run[0]) then 1 else 0;
      KeepsItsTurn(Next(s, run[0]), run[1..], p - d);
    }
  }

  /**
   `throw` does not wait for a slot, but it does wait for the gate. A throwing
   caller is answered, refused or started but never put to sleep, by the first step
   it takes at the free head of the queue; it gets there after exactly as many
   departures as there were callers ahead of it, so behind a waiting caller it waits
   out that caller's sleep and request. It can be answered next exactly when nobody
   is ahead of it.
   */
  lemma ThrowWaitsForTheGate(s: State, before: seq<Action>, run: seq<Action>)
    requires Initial(s) && IsRun(s, before) && IsRun(Next(After(s, before), Arrive(THROW)), run)
    ensures var arrived := Next(After(s, before), Arrive(THROW));
            var p := |After(s, before).queue|;
            var end := After(arrived, run);
            Departures(arrived, run) <= p ==>
              p - Departures(arrived, run) < |end.queue| && end.queue[p - Departures(arrived, run)] == THROW &&
              (Departures(arrived, run) == p && end.phase == Entering ==>
                 Enabled(end, Enter) && !Next(end, Enter).phase.Sleeping?)
    ensures var arrived := Next(After(s, before), Arrive(THROW));
            After(s, before).queue == [] <==> arrived.queue == [THROW] && Enabled(arrived, Enter)
  {
    RunKeeps(s, before);
    var arrived := Next(After(s, before), Arrive(THROW));
    if Departures(arrived, run) <= |After(s, before).queue| {
      KeepsItsTurn(arrived, run, |After(s, before).queue|);
    }
  }

  /** Something on record forbids a start at this time: the last start's cooldown, or a note. */
  ghost predicate Early(s: State) {
    s.now < 0 || (s.starts != [] && s.now < s.starts[|s.starts| - 1] + COOLDOWN_MS) ||
    exists n :: n in s.notes && s.now < n.until
  }

  /** The reserved time is never later than what is on record asks for. */
  ghost predicate Justified(s: State) {
    s.pace.nextAt >= 0 &&
    (s.pace.nextAt == 0 || (s.starts != [] && s.pace.nextAt == s.starts[|s.starts| - 1] + COOLDOWN_MS) ||
     exists n :: n in s.notes && s.pace.nextAt == n.until)
  }

  lemma JustifiedStep(s: State, a: Action)
    requires Inv(s) && Justified(s) && Enabled(s, a)
    ensures Justified(Next(s, a))
  {
    var s' := Next(s, a);
    if a.Respond? && s'.notes != s.notes {
      assert s'.notes[|s.notes|] in s'.notes;
      if n :| n in s.notes && s.pace.nextAt == n.until {
        assert n in s'.notes;
      }
    }
  }

  lemma {:induction false} JustifiedRun(s: State, run: seq<Action>)
    requires Inv(s) && Justified(s) && IsRun(s, run)
    ensures Justified(After(s, run))
    decreases |run|
  {
    if run == [] {
    } else {
      StepKeeps(s, run[0]);
      JustifiedStep(s, run[0]);
      JustifiedRun(Next(s, run[0]), run[1..]);
    }
  }

  /** A throwing caller is at the head of the free gate. */
  predicate ThrowsNext(s: State) { s.queue != [] && s.phase == Entering && s.queue[0] == THROW }

  /**
   In every run a throwing caller is refused exactly when the last start's cooldown
   or a note still forbids a start, and all a refusal changes is the queue.
   */
  lemma RefusedExactlyWhenEarly(s: State, run: seq<Action>)
    requires Initial(s) && IsRun(s, run)
    requires ThrowsNext(After(s, run))
    ensures var end := After(s, run);
            Next(end, Enter) == if Early(end) then end.(queue := end.queue[1..]) else Started(end)
  {
    RunKeeps(s, run);
    JustifiedRun(s, run);
  }

  /** What a caller is told is exact: a sleeper wakes at the first moment a start is allowed, */
  lemma SleepIsExact(p: Pace, now: int, ms: int, t: int)
    requires Admit(p, WAIT, now) == Sleep(ms) && now <= t
    ensures ms > 0 && (Admit(p, WAIT, t) == Go <==> t >= now + ms)
  {
  }

  /** and a refused caller hears the least number of whole seconds after which it would not be refused. */
  lemma RefusalIsExact(p: Pace, now: int, seconds: int, k: int)
    requires Admit(p, THROW, now) == Refuse(seconds) && k >= 0
    ensures seconds > 0 && (Admit(p, THROW, now + 1_000 * k) == Go <==> k >= seconds)
  {
  }

  /** Left alone, the next start is allowed ten minutes after this one, not before and not later. */
  lemma NextStartIsTenMinutesOn(p: Pace, now: int, mode: Mode, t: int)
    requires p.nextAt <= now <= t
    ensures Admit(Begin(p, now), mode, t) == Go <==> t >= now + 600_000
  {
  }

  /** Only a Retry-After moves the pace, whatever the status: without one even a 429 leaves it as its start did. */
  lemma OnlyHeadersMoveThePace(s: State, run: seq<Action>, status: nat, header: RetryAfter)
    requires Initial(s) && IsRun(s, run) && Enabled(After(s, run), Respond(status, header))
    ensures var last := After(s, run);
            var next := Next(last, Respond(status, header));
            last.starts != [] &&
            if header == Absent then next.pace == last.pace
            else next.notes != [] && next.notes[|last.notes|..] == [next.notes[|next.notes| - 1]] &&
                 next.notes[|next.notes| - 1].header == header && next.notes[|next.notes| - 1].readAt == last.now &&
                 next.notes[|next.notes| - 1].during == |last.starts| - 1
  {
    RunKeeps(s, run);
  }

  // ---- The download's two attempts -----------------------------------------------------------

  datatype Attempt = Downloaded | Retryable | Fatal

  const DOWNLOAD_ATTEMPTS := 2

  /** `outcomes[k]` is what attempt k+1 would do; only a retryable failure leads to another attempt. */
  method DownloadPriceList(outcomes: nat -> Attempt) returns (attempts: nat, ok: bool)
    ensures 1 <= attempts <= DOWNLOAD_ATTEMPTS
    ensures ok <==> outcomes(attempts - 1) == Downloaded
    ensures forall k: nat :: k + 1 < attempts ==> outcomes(k) == Retryable
    ensures outcomes(attempts - 1) == Retryable ==> attempts == DOWNLOAD_ATTEMPTS
  {
    var attempt := 1;
    while attempt < DOWNLOAD_ATTEMPTS && outcomes(attempt - 1) == Retryable
      invariant 1 <= attempt <= DOWNLOAD_ATTEMPTS
      invariant forall k: nat :: k + 1 < attempt ==> outcomes(k) == Retryable
    {
      attempt := attempt + 1;
    }
    return attempt, outcomes(attempt - 1) == Downloaded;
  }
}
