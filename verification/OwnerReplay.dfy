/**
 The owner index as a step machine. One action is what happens between two
 awaits: mining a block, starting a capped pass, fetching a chunk of logs,
 writing one event, saving the cursor, crashing anywhere, or a write by other
 code (mint, delivery, burn, full scan) in between.
 */
module OwnerReplay {
  import opened Wrappers
  import opened Erc721
  import opened OwnerRows
  import opened EventOrder

  datatype Cursor = Cursor(lastScanned: nat, complete: bool)

  datatype Config = Config(deployBlock: nat, chunk: nat) {
    ghost predicate Valid() { deployBlock > 0 && chunk > 0 }
  }

  /** One fetched block range; `saved` once the cursor has moved past it. */
  datatype Scan = Scan(start: nat, end: nat, saved: bool)

  /** Where a pass stands. `snapshot` is the ready flag read when the pass began. */
  datatype Pass =
    | Idle
    | Between(latest: nat, next: nat, blocks: nat, maxBlocks: nat, snapshot: bool)
    | Writing(latest: nat, start: nat, end: nat, batch: seq<Transfer>, done: nat,
              blocks: nat, maxBlocks: nat, snapshot: bool)

  /** `horizon` is the newest block any row write so far has reflected. */
  datatype State = State(log: seq<Transfer>, head: nat, rows: Rows, cursor: Option<Cursor>,
                         pass: Pass, horizon: nat, scans: seq<Scan>)

  /** What a writer outside the replay claims: an owner, and the block it read it at. */
  datatype Claim = Claim(owner: Address, asOf: nat)

  datatype Action =
    | Mine(events: seq<Transfer>, head: nat)
    | StartPass(maxBlocks: nat)
    | Fetch(reply: seq<Transfer>)
    | Write(now: int)
    | Save
    | Finish
    | Crash
    | MarkComplete
    | OutsideOwners(claims: map<nat, Claim>, newest: nat)
    | OutsideBurn(tokenId: nat, asOf: nat, now: int)

  function Min(a: int, b: int): int { if a <= b then a else b }

  function Max(a: int, b: int): int { if a >= b then a else b }

  /** First block of the next chunk, as the cursor row dictates. */
  function Resume(cfg: Config, cursor: Option<Cursor>): nat {
    if cursor.Some? && cursor.value.lastScanned >= cfg.deployBlock then cursor.value.lastScanned + 1
    else cfg.deployBlock
  }

  function ChunkEnd(cfg: Config, start: int, latest: int): int {
    Min(start + cfg.chunk - 1, latest)
  }

  /** Setting the ready flag on a cursor row; a new row starts at block 0. */
  function Completed(cursor: Option<Cursor>): Option<Cursor> {
    Some(Cursor(if cursor.Some? then cursor.value.lastScanned else 0, true))
  }

  function Owners(claims: map<nat, Claim>): map<nat, Address> {
    map t | t in claims :: claims[t].owner
  }

  /** The effect of one action; an action out of place changes nothing. */
  function Next(cfg: Config, s: State, a: Action): State {
    match a
    case Mine(events, head) => s.(log := s.log + events, head := head)
    case StartPass(maxBlocks) =>
      s.(pass := Between(s.head, Resume(cfg, s.cursor), 0, maxBlocks, s.cursor.Some? && s.cursor.value.complete))
    case Fetch(reply) =>
      if s.pass.Between? && s.pass.next <= s.pass.latest && cfg.chunk > 0 then
        var end := ChunkEnd(cfg, s.pass.next, s.pass.latest);
        s.(pass := Writing(s.pass.latest, s.pass.next, end, Sort(Positive(reply)), 0,
                           s.pass.blocks, s.pass.maxBlocks, s.pass.snapshot),
           horizon := Max(s.horizon, end),
           scans := s.scans + [Scan(s.pass.next, end, false)])
      else s
    case Write(now) =>
      if s.pass.Writing? && s.pass.done < |s.pass.batch| then
        s.(rows := ApplyTransfer(s.rows, s.pass.batch[s.pass.done], now),
           pass := s.pass.(done := s.pass.done + 1))
      else s
    case Save =>
      if s.pass.Writing? && s.scans != [] && s.pass.start <= s.pass.end + 1 then
        s.(cursor := Some(Cursor(s.pass.end, s.pass.snapshot)),
           pass := Between(s.pass.latest, s.pass.end + 1, s.pass.blocks + (s.pass.end + 1 - s.pass.start),
                           s.pass.maxBlocks, s.pass.snapshot),
           scans := s.scans[|s.scans| - 1 := s.scans[|s.scans| - 1].(saved := true)])
      else s
    case Finish => s.(pass := Idle)
    case Crash => s.(pass := Idle)
    case MarkComplete => s.(cursor := Completed(s.cursor))
    case OutsideOwners(claims, newest) =>
      s.(rows := UpsertAll(s.rows, Owners(claims)), horizon := Max(s.horizon, newest))
    case OutsideBurn(t, asOf, now) =>
      s.(rows := Burn(s.rows, t, now), horizon := Max(s.horizon, asOf))
  }

  // ---- When an action may happen ------------------------------------------

  /** Last block whose logs the replay has fetched, and will save or lose together. */
  function Covered(cfg: Config, s: State): int {
    match s.pass
    case Idle => Resume(cfg, s.cursor) - 1
    case Between(_, next, _, _, _) => next - 1
    case Writing(_, _, end, _, _, _, _, _) => end
  }

  /** Block of the newest log replayed so far. */
  function Replayed(cfg: Config, s: State): int {
    if s.pass.Writing? then
      if 0 < s.pass.done <= |s.pass.batch| then s.pass.batch[s.pass.done - 1].block else s.pass.start - 1
    else Covered(cfg, s)
  }

  /** The claimed owner is the owner at a block no earlier than any log already replayed. */
  ghost predicate Fresh(cfg: Config, s: State, t: nat, c: Claim) {
    Replayed(cfg, s) <= c.asOf <= s.head && OwnerAt(s.log, c.asOf, t) == Some(c.owner)
  }

  ghost predicate BurnedBy(log: seq<Transfer>, b: int, t: nat) {
    exists i :: 0 <= i < |log| && Concerns(log[i], b, t) && log[i].to == ZERO
  }

  ghost predicate Enabled(cfg: Config, s: State, a: Action) {
    match a
    case Mine(events, head) =>
      s.head <= head && WellFormed(s.log + events) && forall e :: e in events ==> s.head < e.block <= head
    case StartPass(maxBlocks) => s.pass.Idle?
    case Fetch(reply) =>
      s.pass.Between? && s.pass.next <= s.pass.latest && s.pass.blocks < s.pass.maxBlocks &&
      cfg.chunk > 0 && Answers(s.log, s.pass.next, ChunkEnd(cfg, s.pass.next, s.pass.latest), reply)
    case Write(_) => s.pass.Writing? && s.pass.done < |s.pass.batch|
    case Save => s.pass.Writing? && s.pass.done == |s.pass.batch|
    case Finish => s.pass.Between? && (s.pass.next > s.pass.latest || s.pass.blocks >= s.pass.maxBlocks)
    case Crash => !s.pass.Idle?
    case MarkComplete => true
    case OutsideOwners(claims, newest) =>
      newest <= s.head && forall t :: t in claims ==> Fresh(cfg, s, t, claims[t]) && claims[t].asOf <= newest
    case OutsideBurn(t, asOf, _) => asOf <= s.head && BurnedBy(s.log, asOf, t)
  }

  ghost predicate IsRun(cfg: Config, s: State, run: seq<Action>)
    decreases |run|
  {
    run != [] ==> Enabled(cfg, s, run[0]) && IsRun(cfg, Next(cfg, s, run[0]), run[1..])
  }

  function After(cfg: Config, s: State, run: seq<Action>): State
    decreases |run|
  {
    if run == [] then s else After(cfg, Next(cfg, s, run[0]), run[1..])
  }

  /** Before the first pass: no visible owner, nothing scanned, no log before the deploy block. */
  ghost predicate Initial(cfg: Config, s: State) {
    cfg.Valid() && s.pass.Idle? && s.scans == [] && s.horizon == cfg.deployBlock - 1 <= s.head &&
    Resume(cfg, s.cursor) == cfg.deployBlock && WellFormed(s.log) &&
    (forall e :: e in s.log ==> cfg.deployBlock <= e.block <= s.head) &&
    (forall t :: t in s.rows ==> s.rows[t] == Row(None, None))
  }

  // ---- The invariant ------------------------------------------------------

  /** An event of `t` inside the horizon that the current position has still to replay. */
  ghost predicate Pending(cfg: Config, s: State, t: nat) {
    (s.pass.Writing? && exists m :: s.pass.done <= m < |s.pass.batch| && s.pass.batch[m].tokenId == t) ||
    !Quiet(s.log, Covered(cfg, s), s.horizon, t)
  }

  ghost predicate ChainOk(cfg: Config, s: State) {
    cfg.Valid() && WellFormed(s.log) && cfg.deployBlock - 1 <= s.horizon <= s.head &&
    forall e :: e in s.log ==> cfg.deployBlock <= e.block <= s.head
  }

  ghost predicate PassOk(cfg: Config, s: State) {
    Covered(cfg, s) <= s.horizon &&
    match s.pass
    case Idle => true
    case Between(latest, next, _, _, _) => next == Resume(cfg, s.cursor) && latest <= s.head
    case Writing(latest, start, end, batch, done, _, _, _) =>
      start == Resume(cfg, s.cursor) && start <= latest <= s.head && end == ChunkEnd(cfg, start, latest) &&
      done <= |batch| && BatchOf(s.log, start, end, batch)
  }

  /** A stamped row belongs to a token the chain has burned. */
  ghost predicate StampsTrue(s: State) {
    forall t :: Stamp(s.rows, t).Some? ==> BurnedBy(s.log, s.horizon, t)
  }

  /** Every token without pending events shows its owner as of the horizon. */
  ghost predicate SettledTrue(cfg: Config, s: State) {
    forall t :: t > 0 && !Pending(cfg, s, t) ==> Visible(s.rows, t) == OwnerAt(s.log, s.horizon, t)
  }

  ghost predicate Inv(cfg: Config, s: State) {
    ChainOk(cfg, s) && PassOk(cfg, s) && StampsTrue(s) && SettledTrue(cfg, s)
  }

  lemma InitialInv(cfg: Config, s: State)
    requires Initial(cfg, s)
    ensures Inv(cfg, s)
  {
    forall t ensures OwnerAt(s.log, s.horizon, t) == None {
      forall k | 0 <= k < |s.log| ensures !Concerns(s.log[k], s.horizon, t) {
        assert s.log[k] in s.log;
      }
      NoEventNoOwner(s.log, s.horizon, t);
    }
  }

  lemma StampedUnowned(cfg: Config, s: State, b: int, t: nat)
    requires WellFormed(s.log) && BurnedBy(s.log, b, t)
    ensures OwnerAt(s.log, b, t) == None
  {
    var i :| 0 <= i < |s.log| && Concerns(s.log[i], b, t) && s.log[i].to == ZERO;
    BurnedHasNoOwner(s.log, b, t, i);
  }

  lemma MineKeeps(cfg: Config, s: State, events: seq<Transfer>, head: nat)
    requires Inv(cfg, s) && Enabled(cfg, s, Mine(events, head))
    ensures Inv(cfg, Next(cfg, s, Mine(events, head)))
  {
    var s' := Next(cfg, s, Mine(events, head));
    forall t | t > 0 && !Pending(cfg, s', t)
      ensures Visible(s'.rows, t) == OwnerAt(s'.log, s'.horizon, t)
    {
      forall i | 0 <= i < |s.log| && s.log[i].tokenId == t && Covered(cfg, s) < s.log[i].block
        ensures s.horizon < s.log[i].block
      {
        assert s'.log[i] == s.log[i];
      }
      GrowthKeepsOwner(s.log, events, s.horizon, t);
    }
    forall t | Stamp(s'.rows, t).Some? ensures BurnedBy(s'.log, s'.horizon, t) {
      assert BurnedBy(s.log, s.horizon, t);
      var i :| 0 <= i < |s.log| && Concerns(s.log[i], s.horizon, t) && s.log[i].to == ZERO;
      assert s'.log[i] == s.log[i];
    }
    if s.pass.Writing? {
      forall e ensures e in s.pass.batch <==> e in s'.log && s.pass.start <= e.block <= s.pass.end && e.tokenId > 0 {
        assert e in s'.log <==> e in s.log || e in events;
      }
    }
  }

  /** Raising the horizon over blocks still to be covered keeps every settled token true. */
  lemma HorizonRises(cfg: Config, s: State, horizon: nat)
    requires Inv(cfg, s) && s.horizon <= horizon <= s.head
    ensures Inv(cfg, s.(horizon := horizon))
  {
    var s' := s.(horizon := horizon);
    forall t | t > 0 && !Pending(cfg, s', t) ensures Visible(s'.rows, t) == OwnerAt(s'.log, s'.horizon, t) {
      assert Quiet(s.log, Covered(cfg, s), horizon, t);
      assert Quiet(s.log, Covered(cfg, s), s.horizon, t);
      assert Quiet(s.log, s.horizon, horizon, t);
      QuietKeepsOwner(s.log, s.horizon, horizon, t);
    }
    forall t | Stamp(s'.rows, t).Some? ensures BurnedBy(s'.log, s'.horizon, t) {
      assert BurnedBy(s.log, s.horizon, t);
    }
  }

  lemma FetchKeeps(cfg: Config, s: State, reply: seq<Transfer>)
    requires Inv(cfg, s) && Enabled(cfg, s, Fetch(reply))
    ensures Inv(cfg, Next(cfg, s, Fetch(reply)))
  {
    var s' := Next(cfg, s, Fetch(reply));
    var start, end := s.pass.next, ChunkEnd(cfg, s.pass.next, s.pass.latest);
    SortRestoresChainOrder(s.log, start, end, reply);
    var s1 := s.(horizon := Max(s.horizon, end));
    HorizonRises(cfg, s, s1.horizon);
    forall t | t > 0 && !Pending(cfg, s', t) ensures !Pending(cfg, s1, t) {
      forall i | 0 <= i < |s.log| && s.log[i].tokenId == t && start - 1 < s.log[i].block
        ensures s1.horizon < s.log[i].block
      {
        assert s.log[i] in s.log;
      }
    }
  }

  lemma BatchBurnsAreFinal(log: seq<Transfer>, start: nat, end: nat, batch: seq<Transfer>)
    requires WellFormed(log) && BatchOf(log, start, end, batch)
    ensures BurnsAreFinal(batch)
  {
    forall i, j | 0 <= i < j < |batch| && batch[i].tokenId == batch[j].tokenId ensures batch[i].to != ZERO {
      assert batch[i] in batch && batch[j] in batch && Before(batch[i], batch[j]);
      var p :| 0 <= p < |log| && log[p] == batch[i];
      var q :| 0 <= q < |log| && log[q] == batch[j];
      assert p < q;
    }
  }

  /**
   Whatever a node answers for a chunk, and whatever the rows hold by then: the
   fetched batch written in part, lost to a crash and written again in full
   leaves the rows of one clean write.
   */
  lemma FetchedChunkRefolds(cfg: Config, s: State, reply: seq<Transfer>, rows: Rows, k: nat, crashed: int, retried: int)
    requires WellFormed(s.log) && Enabled(cfg, s, Fetch(reply))
    ensures var batch := Next(cfg, s, Fetch(reply)).pass.batch;
            k <= |batch| ==>
              SameRows(Fold(Fold(rows, batch[..k], crashed), batch, retried), Fold(rows, batch, retried))
  {
    var start, end := s.pass.next, ChunkEnd(cfg, s.pass.next, s.pass.latest);
    var batch := Sort(Positive(reply));
    SortRestoresChainOrder(s.log, start, end, reply);
    BatchBurnsAreFinal(s.log, start, end, batch);
    if k <= |batch| {
      RefoldAfterCrash(rows, batch, k, crashed, retried);
    }
  }

  /** The last batch event of a token with nothing pending is its last event inside the horizon. */
  lemma BatchTail(cfg: Config, s: State, t: nat) returns (i: nat)
    requires Inv(cfg, s) && Enabled(cfg, s, Write(0)) && s.pass.batch[s.pass.done].tokenId == t
    requires !Pending(cfg, s.(pass := s.pass.(done := s.pass.done + 1)), t)
    ensures IsLast(s.log, s.horizon, t, i) && s.log[i] == s.pass.batch[s.pass.done]
  {
    var batch, d := s.pass.batch, s.pass.done;
    assert batch[d] in batch && batch[d] in s.log;
    i :| 0 <= i < |s.log| && s.log[i] == batch[d];
    forall k | i < k < |s.log| ensures !Concerns(s.log[k], s.horizon, t) {
      NothingLater(cfg, s, t, i, k);
    }
  }

  lemma NothingLater(cfg: Config, s: State, t: nat, i: nat, k: nat)
    requires Inv(cfg, s) && Enabled(cfg, s, Write(0)) && s.pass.batch[s.pass.done].tokenId == t
    requires !Pending(cfg, s.(pass := s.pass.(done := s.pass.done + 1)), t)
    requires i < k < |s.log| && s.log[i] == s.pass.batch[s.pass.done]
    ensures !Concerns(s.log[k], s.horizon, t)
  {
    var batch := s.pass.batch;
    if Concerns(s.log[k], s.horizon, t) {
      assert Before(s.log[i], s.log[k]);
      assert Quiet(s.log, s.pass.end, s.horizon, t);
      assert s.log[k] in s.log && s.log[k] in batch;
      var m :| 0 <= m < |batch| && batch[m] == s.log[k];
      assert false;
    }
  }

  lemma WriteKeeps(cfg: Config, s: State, now: int)
    requires Inv(cfg, s) && Enabled(cfg, s, Write(now))
    ensures Inv(cfg, Next(cfg, s, Write(now)))
  {
    var s' := Next(cfg, s, Write(now));
    var e := s.pass.batch[s.pass.done];
    assert e in s.pass.batch && e in s.log;
    forall t | t > 0 && !Pending(cfg, s', t) ensures Visible(s'.rows, t) == OwnerAt(s'.log, s'.horizon, t) {
      var moved := s.(pass := s.pass.(done := s.pass.done + 1));
      assert !Pending(cfg, moved, t);
      if e.tokenId == t {
        var i := BatchTail(cfg, s, t);
        OwnerIsLastEffect(s.log, s.horizon, t, i);
        if e.to != ZERO && Stamp(s.rows, t).Some? {
          StampedUnowned(cfg, s, s.horizon, t);
          assert false;
        }
      } else {
        assert !Pending(cfg, s, t);
      }
    }
    forall t | Stamp(s'.rows, t).Some? ensures BurnedBy(s'.log, s'.horizon, t) {
      if Stamp(s.rows, t).None? {
        assert e.tokenId == t && e.to == ZERO;
        var i :| 0 <= i < |s.log| && s.log[i] == e;
        assert Concerns(s.log[i], s.horizon, t);
      }
    }
  }

  /** Losing the pass re-opens the chunk: what was settled stays settled or becomes pending again. */
  lemma IdleKeeps(cfg: Config, s: State)
    requires Inv(cfg, s)
    ensures Inv(cfg, s.(pass := Idle))
  {
    var s' := s.(pass := Idle);
    forall t | t > 0 && !Pending(cfg, s', t) ensures !Pending(cfg, s, t) {
      if s.pass.Writing? {
        assert Quiet(s.log, Resume(cfg, s.cursor) - 1, s.horizon, t);
        forall m | s.pass.done <= m < |s.pass.batch| ensures s.pass.batch[m].tokenId != t {
          assert s.pass.batch[m] in s.pass.batch;
        }
      }
    }
  }

  lemma OutsideOwnersKeeps(cfg: Config, s: State, claims: map<nat, Claim>, newest: nat)
    requires Inv(cfg, s) && Enabled(cfg, s, OutsideOwners(claims, newest))
    ensures Inv(cfg, Next(cfg, s, OutsideOwners(claims, newest)))
  {
    var s' := Next(cfg, s, OutsideOwners(claims, newest));
    var s1 := s.(horizon := s'.horizon);
    HorizonRises(cfg, s, s'.horizon);
    forall t | t > 0 && !Pending(cfg, s', t) ensures Visible(s'.rows, t) == OwnerAt(s'.log, s'.horizon, t) {
      assert !Pending(cfg, s1, t);
      if t in claims {
        assert Fresh(cfg, s, t, claims[t]);
        if Stamp(s.rows, t).Some? {
          StampedUnowned(cfg, s, s'.horizon, t);
        } else {
          ClaimHolds(cfg, s1, t, claims[t]);
        }
      }
    }
    forall t ensures Stamp(s'.rows, t) == Stamp(s.rows, t) {}
  }

  /** A fresh claim about a token with nothing pending is its owner as of the horizon. */
  lemma ClaimHolds(cfg: Config, s: State, t: nat, c: Claim)
    requires Inv(cfg, s) && t > 0 && Fresh(cfg, s, t, c) && c.asOf <= s.horizon && !Pending(cfg, s, t)
    ensures OwnerAt(s.log, s.horizon, t) == Some(c.owner)
  {
    forall i | 0 <= i < |s.log| && s.log[i].tokenId == t && c.asOf < s.log[i].block
      ensures s.horizon < s.log[i].block
    {
      assert s.log[i] in s.log && Quiet(s.log, Covered(cfg, s), s.horizon, t);
    }
    QuietKeepsOwner(s.log, c.asOf, s.horizon, t);
  }

  lemma OutsideBurnKeeps(cfg: Config, s: State, t: nat, asOf: nat, now: int)
    requires Inv(cfg, s) && Enabled(cfg, s, OutsideBurn(t, asOf, now))
    ensures Inv(cfg, Next(cfg, s, OutsideBurn(t, asOf, now)))
  {
    var s' := Next(cfg, s, OutsideBurn(t, asOf, now));
    HorizonRises(cfg, s, s'.horizon);
    var s1 := s.(horizon := s'.horizon);
    assert BurnedBy(s.log, s'.horizon, t) by {
      var i :| 0 <= i < |s.log| && Concerns(s.log[i], asOf, t) && s.log[i].to == ZERO;
      assert Concerns(s.log[i], s'.horizon, t);
    }
    StampedUnowned(cfg, s, s'.horizon, t);
    forall u | u > 0 && !Pending(cfg, s', u) ensures Visible(s'.rows, u) == OwnerAt(s'.log, s'.horizon, u) {
      assert !Pending(cfg, s1, u);
    }
    forall u | Stamp(s'.rows, u).Some? ensures BurnedBy(s'.log, s'.horizon, u) {
      if u != t {
        assert Stamp(s.rows, u).Some?;
      }
    }
  }

  lemma SaveKeeps(cfg: Config, s: State)
    requires Inv(cfg, s) && Enabled(cfg, s, Save)
    ensures Inv(cfg, Next(cfg, s, Save))
  {
    var s' := Next(cfg, s, Save);
    if s' != s {
      forall t | t > 0 && !Pending(cfg, s', t) ensures !Pending(cfg, s, t) {}
    }
  }

  /** Every step keeps the invariant, whichever process takes it. */
  lemma StepKeeps(cfg: Config, s: State, a: Action)
    requires Inv(cfg, s) && Enabled(cfg, s, a)
    ensures Inv(cfg, Next(cfg, s, a))
  {
    match a
    case Mine(events, head) => MineKeeps(cfg, s, events, head);
    case Fetch(reply) => FetchKeeps(cfg, s, reply);
    case Write(now) => WriteKeeps(cfg, s, now);
    case Save => SaveKeeps(cfg, s);
    case Finish => IdleKeeps(cfg, s);
    case Crash => IdleKeeps(cfg, s);
    case OutsideOwners(claims, newest) => OutsideOwnersKeeps(cfg, s, claims, newest);
    case OutsideBurn(t, asOf, now) => OutsideBurnKeeps(cfg, s, t, asOf, now);
    case StartPass(maxBlocks) =>
      forall t | t > 0 && !Pending(cfg, Next(cfg, s, a), t) ensures !Pending(cfg, s, t) {}
    case MarkComplete =>
      forall t | t > 0 && !Pending(cfg, Next(cfg, s, a), t) ensures !Pending(cfg, s, t) {}
  }
}
