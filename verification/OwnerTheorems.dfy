/** What every run of the owner-index machine guarantees, and what none does. */
module OwnerTheorems {
  import opened Wrappers
  import opened Erc721
  import opened OwnerRows
  import opened EventOrder
  import opened OwnerReplay

  lemma {:induction false} RunKeeps(cfg: Config, s: State, run: seq<Action>)
    requires Inv(cfg, s) && IsRun(cfg, s, run)
    ensures Inv(cfg, After(cfg, s, run))
    decreases |run|
  {
    if run == [] {
    } else {
      StepKeeps(cfg, s, run[0]);
      RunKeeps(cfg, Next(cfg, s, run[0]), run[1..]);
    }
  }

  // ---- Convergence ----------------------------------------------------------

  /** Visible rows are exactly ERC-721 ownership at block `b`. */
  ghost predicate IndexIs(s: State, b: int) {
    forall t :: t > 0 ==> Visible(s.rows, t) == OwnerAt(s.log, b, t)
  }

  /**
   After any interleaving of mining, capped passes, crashes and fresh outside
   writes, an index whose cursor has reached the head equals the chain.
   */
  lemma ConvergesAtHead(cfg: Config, s: State, run: seq<Action>)
    requires Initial(cfg, s) && IsRun(cfg, s, run)
    ensures var end := After(cfg, s, run);
            !end.pass.Writing? && Covered(cfg, end) >= end.head ==> IndexIs(end, end.head)
  {
    InitialInv(cfg, s);
    RunKeeps(cfg, s, run);
  }

  ghost predicate ReplayOnly(run: seq<Action>) {
    forall a :: a in run ==> !a.OutsideOwners? && !a.OutsideBurn?
  }

  /** With no outside writer, rows never run ahead of the chunk that would be read next. */
  ghost predicate Ahead(cfg: Config, s: State) {
    s.horizon <= Resume(cfg, s.cursor) - 1 + cfg.chunk &&
    (s.pass.Between? ==> s.horizon <= s.pass.latest) &&
    (s.pass.Writing? ==> s.horizon == s.pass.end)
  }

  lemma AheadStep(cfg: Config, s: State, a: Action)
    requires Inv(cfg, s) && Ahead(cfg, s) && Enabled(cfg, s, a) && !a.OutsideOwners? && !a.OutsideBurn?
    ensures Ahead(cfg, Next(cfg, s, a))
  {
  }

  lemma {:induction false} AheadRun(cfg: Config, s: State, run: seq<Action>)
    requires Inv(cfg, s) && Ahead(cfg, s) && IsRun(cfg, s, run) && ReplayOnly(run)
    ensures Inv(cfg, After(cfg, s, run)) && Ahead(cfg, After(cfg, s, run))
    decreases |run|
  {
    if run == [] {
    } else {
      assert run[0] in run && forall a :: a in run[1..] ==> a in run;
      StepKeeps(cfg, s, run[0]);
      AheadStep(cfg, s, run[0]);
      AheadRun(cfg, Next(cfg, s, run[0]), run[1..]);
    }
  }

  lemma {:induction false} RunSnoc(cfg: Config, s: State, run: seq<Action>, a: Action)
    requires IsRun(cfg, s, run)
    ensures After(cfg, s, run + [a]) == Next(cfg, After(cfg, s, run), a)
    ensures IsRun(cfg, s, run + [a]) <==> Enabled(cfg, After(cfg, s, run), a)
    decreases |run|
  {
    if run != [] {
      assert (run + [a])[1..] == run[1..] + [a];
      RunSnoc(cfg, Next(cfg, s, run[0]), run[1..], a);
    } else {
      assert run + [a] == [a] && [a][1..] == [];
    }
  }

  /**
   Replay equals the chain: for any passes, pauses and crashes inside chunks,
   the moment the cursor is saved at block `b` the visible rows are ownership at `b`.
   */
  lemma ReplayEqualsChain(cfg: Config, s: State, run: seq<Action>)
    requires Initial(cfg, s) && ReplayOnly(run) && IsRun(cfg, s, run + [Save])
    ensures var end := After(cfg, s, run + [Save]);
            end.cursor.Some? && IndexIs(end, end.cursor.value.lastScanned)
  {
    InitialInv(cfg, s);
    RunPrefix(cfg, s, run, Save);
    AheadRun(cfg, s, run);
    RunSnoc(cfg, s, run, Save);
    var last := After(cfg, s, run);
    TilesRun(cfg, s, run);
    StepKeeps(cfg, last, Save);
  }

  lemma {:induction false} RunPrefix(cfg: Config, s: State, run: seq<Action>, a: Action)
    requires IsRun(cfg, s, run + [a])
    ensures IsRun(cfg, s, run)
    decreases |run|
  {
    if run == [] {
    } else {
      assert (run + [a])[1..] == run[1..] + [a] && (run + [a])[0] == run[0];
      RunPrefix(cfg, Next(cfg, s, run[0]), run[1..], a);
    }
  }

  // ---- Burned rows ------------------------------------------------------------

  /** A burn stamp survives every sequence of actions, in or out of turn, fresh or stale. */
  lemma {:induction false} BurnedForever(cfg: Config, s: State, run: seq<Action>, t: nat)
    requires Stamp(s.rows, t).Some?
    ensures Stamp(After(cfg, s, run).rows, t) == Stamp(s.rows, t)
    ensures Visible(After(cfg, s, run).rows, t) == None
    decreases |run|
  {
    if run == [] {
    } else {
      assert Stamp(Next(cfg, s, run[0]).rows, t) == Stamp(s.rows, t);
      BurnedForever(cfg, Next(cfg, s, run[0]), run[1..], t);
    }
  }

  // ---- Stale outside writes ----------------------------------------------------

  lemma {:induction false} FoldVisible(rows: Rows, events: seq<Transfer>, now: int, b: int, t: nat)
    requires t > 0 && t in rows && rows[t].burnedAt.None? && BurnsAreFinal(events)
    requires forall e :: e in events ==> e.block <= b
    ensures t in Fold(rows, events, now)
    ensures Stamp(Fold(rows, events, now), t).Some? <==> BurnedIn(events, t)
    ensures Visible(Fold(rows, events, now), t) ==
            if Touched(events, t) then OwnerAt(events, b, t) else Visible(rows, t)
  {
    if events == [] {
    } else {
      var front, e := events[..|events| - 1], events[|events| - 1];
      assert e in events && forall x :: x in front ==> x in events;
      TouchedStep(events, t);
      FoldVisible(rows, front, now, b, t);
      if e.tokenId == t {
        assert !BurnedIn(front, t) by {
          forall i | 0 <= i < |front| && front[i].tokenId == t ensures front[i].to != ZERO {
            assert events[i] == front[i];
          }
        }
      }
    }
  }

  lemma {:induction false} OwnerOfTail(done: seq<Transfer>, rest: seq<Transfer>, b: int, t: nat)
    requires forall e :: e in rest ==> e.block <= b
    ensures OwnerAt(done + rest, b, t) == if Touched(rest, t) then OwnerAt(rest, b, t) else OwnerAt(done, b, t)
  {
    if rest == [] {
      assert done + rest == done;
    } else {
      var front := rest[..|rest| - 1];
      assert (done + rest)[..|done + rest| - 1] == done + front;
      assert rest[|rest| - 1] in rest;
      TouchedStep(rest, t);
      OwnerOfTail(done, front, b, t);
    }
  }

  /**
   An outside owner write needs freshness: with `rest` still to replay, writing
   any owner `w` leaves the caught-up index right for the token exactly when a
   later log corrects it, the row is already stamped burned, or `w` is the owner
   at the head. A scan result persisted late fails all three.
   */
  lemma LateWriteIff(cfg: Config, s: State, done: seq<Transfer>, rest: seq<Transfer>, t: nat, w: Address, now: int)
    requires Inv(cfg, s) && t > 0 && s.log == done + rest
    ensures var final := Fold(Upsert(s.rows, t, w), rest, now);
            Visible(final, t) == OwnerAt(s.log, s.head, t) <==>
            Touched(rest, t) || Stamp(s.rows, t).Some? || OwnerAt(s.log, s.head, t) == Some(w)
  {
    var rows := Upsert(s.rows, t, w);
    assert forall e :: e in rest ==> e in s.log;
    OwnerOfTail(done, rest, s.head, t);
    assert BurnsAreFinal(rest) by {
      forall i, j | 0 <= i < j < |rest| && rest[i].tokenId == rest[j].tokenId ensures rest[i].to != ZERO {
        assert s.log[|done| + i] == rest[i] && s.log[|done| + j] == rest[j];
      }
    }
    if Stamp(s.rows, t).Some? {
      FoldStamped(rows, rest, now, t);
      assert BurnedBy(s.log, s.horizon, t);
      assert BurnedBy(s.log, s.head, t);
      StampedUnowned(cfg, s, s.head, t);
    } else {
      FoldVisible(rows, rest, now, s.head, t);
    }
  }

  lemma {:induction false} FoldStamped(rows: Rows, events: seq<Transfer>, now: int, t: nat)
    requires Stamp(rows, t).Some?
    ensures Stamp(Fold(rows, events, now), t) == Stamp(rows, t)
  {
    if events == [] {
    } else {
      FoldStamped(rows, events[..|events| - 1], now, t);
    }
  }

  // ---- Block tiling --------------------------------------------------------------

  function AfterScan(c: Scan): nat { if c.saved then c.end + 1 else c.start }

  /** Each range starts where the last saved one ended; an unsaved one is read again. */
  ghost predicate Tiles(cfg: Config, s: State) {
    (forall i :: 0 <= i < |s.scans| ==> s.scans[i].start <= s.scans[i].end) &&
    (s.scans != [] ==> s.scans[0].start == cfg.deployBlock) &&
    (forall i :: 0 < i < |s.scans| ==> s.scans[i].start == AfterScan(s.scans[i - 1])) &&
    Resume(cfg, s.cursor) == (if s.scans == [] then cfg.deployBlock else AfterScan(s.scans[|s.scans| - 1])) &&
    (s.pass.Writing? ==> s.scans != [] && s.scans[|s.scans| - 1] == Scan(s.pass.start, s.pass.end, false))
  }

  lemma {:induction false} TilesRun(cfg: Config, s: State, run: seq<Action>)
    requires (Initial(cfg, s) || (Inv(cfg, s) && Tiles(cfg, s))) && IsRun(cfg, s, run)
    ensures Tiles(cfg, After(cfg, s, run))
    decreases |run|
  {
    if Initial(cfg, s) {
      InitialInv(cfg, s);
    }
    if run == [] {
    } else {
      StepKeeps(cfg, s, run[0]);
      TilesStep(cfg, s, run[0]);
      TilesRun(cfg, Next(cfg, s, run[0]), run[1..]);
    }
  }

  lemma TilesStep(cfg: Config, s: State, a: Action)
    requires Inv(cfg, s) && Tiles(cfg, s) && Enabled(cfg, s, a)
    ensures Tiles(cfg, Next(cfg, s, a))
  {
    if a.Save? {
      SaveTiles(cfg, s);
    }
  }

  lemma SaveTiles(cfg: Config, s: State)
    requires Inv(cfg, s) && Tiles(cfg, s) && Enabled(cfg, s, Save)
    ensures Tiles(cfg, Next(cfg, s, Save))
  {
    var s' := Next(cfg, s, Save);
    if s'.scans != s.scans {
      forall i | 0 < i < |s'.scans| ensures s'.scans[i].start == AfterScan(s'.scans[i - 1]) {
        assert s'.scans[i - 1] == s.scans[i - 1];
      }
    }
  }

  ghost predicate ReadOnce(scans: seq<Scan>, b: nat, i: nat) {
    i < |scans| && scans[i].saved && scans[i].start <= b <= scans[i].end &&
    forall j :: 0 <= j < |scans| && scans[j].saved && scans[j].start <= b <= scans[j].end ==> j == i
  }

  /** The saved ranges tile the blocks up to the cursor: each block lies in exactly one of them. */
  lemma SavedScansTile(cfg: Config, s: State, run: seq<Action>, b: nat)
    requires Initial(cfg, s) && IsRun(cfg, s, run)
    ensures var end := After(cfg, s, run);
            cfg.deployBlock <= b < Resume(cfg, end.cursor) <==> exists i :: ReadOnce(end.scans, b, i)
  {
    TilesRun(cfg, s, run);
    var end := After(cfg, s, run);
    if cfg.deployBlock <= b < Resume(cfg, end.cursor) {
      var i := TileOf(cfg.deployBlock, end.scans, b);
    }
    if i: nat :| ReadOnce(end.scans, b, i) {
      ScanBounds(cfg.deployBlock, end.scans, i);
    }
  }

  ghost predicate Chained(deploy: nat, scans: seq<Scan>) {
    (forall i :: 0 <= i < |scans| ==> scans[i].start <= scans[i].end) &&
    (scans != [] ==> scans[0].start == deploy) &&
    (forall i :: 0 < i < |scans| ==> scans[i].start == AfterScan(scans[i - 1]))
  }

  lemma {:induction false} ScanBounds(deploy: nat, scans: seq<Scan>, i: nat)
    requires Chained(deploy, scans) && i < |scans|
    ensures deploy <= scans[i].start && AfterScan(scans[i]) <= AfterScan(scans[|scans| - 1])
    decreases |scans|
  {
    var front := scans[..|scans| - 1];
    if i < |scans| - 1 {
      ScanBounds(deploy, front, i);
      assert scans[|scans| - 1].start == AfterScan(scans[|scans| - 2]);
    } else if |scans| > 1 {
      ScanBounds(deploy, front, i - 1);
    }
  }

  lemma {:induction false} TileOf(deploy: nat, scans: seq<Scan>, b: nat) returns (i: nat)
    requires Chained(deploy, scans) && scans != [] && deploy <= b < AfterScan(scans[|scans| - 1])
    ensures ReadOnce(scans, b, i)
    decreases |scans|
  {
    var n := |scans| - 1;
    var front := scans[..n];
    if scans[n].saved && scans[n].start <= b {
      i := n;
      forall j | 0 <= j < n ensures !(scans[j].saved && scans[j].start <= b <= scans[j].end) {
        ScanBounds(deploy, front, j);
        assert scans[n].start == AfterScan(scans[n - 1]) && front[j] == scans[j];
      }
    } else {
      assert scans[n].start == AfterScan(scans[n - 1]);
      i := TileOf(deploy, front, b);
    }
  }

  // ---- Progress ----------------------------------------------------------------

  /** What a completed pass does to the resume point: reach the head, or gain at least the pass cap. */
  ghost predicate Advances(maxBlocks: nat, head: nat, from: nat, upTo: nat) {
    if from > head then upTo == from else upTo == head + 1 || upTo >= from + maxBlocks
  }

  /** Passes that reached their end; a crashed pass is not one of them. */
  function Finishes(run: seq<Action>): nat {
    if run == [] then 0 else (if run[0].Finish? then 1 else 0) + Finishes(run[1..])
  }

  /** The head stays put, and every pass may scan at least `cap` blocks. */
  ghost predicate FixedHead(run: seq<Action>, cap: nat) {
    forall a :: a in run ==> !a.Mine? && (a.StartPass? ==> a.maxBlocks >= cap)
  }

  function BlocksSoFar(pass: Pass): nat { if pass.Idle? then 0 else pass.blocks }

  /** `n` passes have finished since the resume point was `base`. */
  ghost predicate Progressed(cfg: Config, s: State, cap: nat, base: nat, n: nat) {
    (!s.pass.Idle? ==> s.pass.latest == s.head && s.pass.maxBlocks >= cap) &&
    (Resume(cfg, s.cursor) > s.head || Resume(cfg, s.cursor) >= base + n * cap + BlocksSoFar(s.pass))
  }

  lemma ProgressStep(cfg: Config, s: State, a: Action, cap: nat, base: nat, n: nat)
    requires Inv(cfg, s) && Progressed(cfg, s, cap, base, n) && Enabled(cfg, s, a) && FixedHead([a], cap)
    ensures Progressed(cfg, Next(cfg, s, a), cap, base, if a.Finish? then n + 1 else n)
    ensures Next(cfg, s, a).head == s.head
  {
    assert a in [a];
    assert (n + 1) * cap == n * cap + cap;
  }

  lemma {:induction false} ProgressRun(cfg: Config, s: State, run: seq<Action>, cap: nat, base: nat, n: nat)
    requires Inv(cfg, s) && Progressed(cfg, s, cap, base, n) && IsRun(cfg, s, run) && FixedHead(run, cap)
    ensures Progressed(cfg, After(cfg, s, run), cap, base, n + Finishes(run))
    ensures After(cfg, s, run).head == s.head
    decreases |run|
  {
    if run == [] {
    } else {
      assert FixedHead([run[0]], cap) && FixedHead(run[1..], cap);
      ProgressStep(cfg, s, run[0], cap, base, n);
      StepKeeps(cfg, s, run[0]);
      ProgressRun(cfg, Next(cfg, s, run[0]), run[1..], cap, base, if run[0].Finish? then n + 1 else n);
    }
  }

  /**
   A fixed head is reached in a bounded number of passes: from any reachable idle
   state, with any crashes and outside writes in between, once the finished passes
   times their cap cover the blocks behind, nothing is left to scan, and between
   chunks the index equals the chain.
   */
  lemma BoundedPasses(cfg: Config, s: State, before: seq<Action>, run: seq<Action>, cap: nat)
    requires Initial(cfg, s) && IsRun(cfg, s, before) && After(cfg, s, before).pass.Idle?
    requires IsRun(cfg, After(cfg, s, before), run) && FixedHead(run, cap)
    requires var mid := After(cfg, s, before);
             mid.head + 1 - Resume(cfg, mid.cursor) <= Finishes(run) * cap
    ensures var end := After(cfg, After(cfg, s, before), run);
            Resume(cfg, end.cursor) > end.head && (!end.pass.Writing? ==> IndexIs(end, end.head))
  {
    var mid := After(cfg, s, before);
    InitialInv(cfg, s);
    RunKeeps(cfg, s, before);
    RunKeeps(cfg, mid, run);
    var base := Resume(cfg, mid.cursor);
    assert 0 * cap == 0;
    assert Progressed(cfg, mid, cap, base, 0);
    ProgressRun(cfg, mid, run, cap, base, 0);
    CaughtUp(cfg, After(cfg, mid, run), cap, base, 0 + Finishes(run));
  }

  lemma CaughtUp(cfg: Config, s: State, cap: nat, base: nat, n: nat)
    requires Inv(cfg, s) && Progressed(cfg, s, cap, base, n) && s.head + 1 - base <= n * cap
    ensures Resume(cfg, s.cursor) > s.head && (!s.pass.Writing? ==> IndexIs(s, s.head))
  {
  }

  // ---- The ready flag ------------------------------------------------------------

  function LiveTokens(rows: Rows): set<nat> {
    set t | t in rows && rows[t].owner.Some? && rows[t].burnedAt.None?
  }

  function LiveOwners(rows: Rows): nat { |LiveTokens(rows)| }

  /** No pass begins. */
  ghost predicate OnePass(run: seq<Action>) { forall a :: a in run ==> !a.StartPass? }

  lemma {:induction false} SnapshotStays(cfg: Config, s: State, run: seq<Action>, flag: bool)
    requires s.pass.Idle? || s.pass.snapshot == flag
    requires IsRun(cfg, s, run) && OnePass(run)
    ensures After(cfg, s, run).pass.Idle? || After(cfg, s, run).pass.snapshot == flag
    decreases |run|
  {
    if run == [] {
    } else {
      assert run[0] in run && OnePass(run[1..]);
      SnapshotStays(cfg, Next(cfg, s, run[0]), run[1..], flag);
    }
  }

  /**
   Every save writes back the ready flag read when its pass began: whatever marked
   the index ready or wrote rows in `mid`, a pass begun unready leaves it unready.
   */
  lemma SaveRestoresFlag(cfg: Config, s: State, before: seq<Action>, maxBlocks: nat, mid: seq<Action>)
    requires Initial(cfg, s) && IsRun(cfg, s, before) && OnePass(mid)
    requires IsRun(cfg, After(cfg, s, before), [StartPass(maxBlocks)] + mid + [Save])
    ensures var began := After(cfg, s, before);
            var end := After(cfg, began, [StartPass(maxBlocks)] + mid + [Save]);
            end.cursor.Some? && end.cursor.value.complete == (began.cursor.Some? && began.cursor.value.complete)
  {
    var began := After(cfg, s, before);
    var flag := began.cursor.Some? && began.cursor.value.complete;
    var run := [StartPass(maxBlocks)] + mid;
    InitialInv(cfg, s);
    RunKeeps(cfg, s, before);
    TilesRun(cfg, s, before);
    RunPrefix(cfg, began, run, Save);
    assert run[0] == StartPass(maxBlocks) && run[1..] == mid;
    SnapshotStays(cfg, Next(cfg, began, run[0]), mid, flag);
    RunSnoc(cfg, began, run, Save);
    RunKeeps(cfg, began, run);
    TilesRun(cfg, began, run);
  }

  /** Steps that write no row and move no cursor: mining, starting, finishing, marking, losing a pass. */
  ghost predicate Resting(run: seq<Action>) {
    forall a :: a in run ==> a.Mine? || a.StartPass? || a.Finish? || a.Crash? || a.MarkComplete?
  }

  /** No token changes owner, on net, over the blocks above `lo` up to `hi`. */
  ghost predicate NetStill(log: seq<Transfer>, lo: int, hi: int) {
    forall t :: t > 0 ==> OwnerAt(log, lo, t) == OwnerAt(log, hi, t)
  }

  lemma {:induction false} RestKeeps(cfg: Config, s: State, run: seq<Action>, b: nat)
    requires s.cursor.Some? && s.cursor.value.lastScanned == b <= s.head && IndexIs(s, b)
    requires Resting(run) && IsRun(cfg, s, run)
    ensures var end := After(cfg, s, run);
            end.cursor.Some? && end.cursor.value.lastScanned == b <= end.head && IndexIs(end, b)
    ensures (exists a :: a in run && a.MarkComplete?) ==> After(cfg, s, run).cursor.value.complete
    ensures s.cursor.value.complete ==> After(cfg, s, run).cursor.value.complete
    decreases |run|
  {
    if run == [] {
    } else {
      var a, s1 := run[0], Next(cfg, s, run[0]);
      assert a in run && Resting(run[1..]) && run == [a] + run[1..];
      if a.Mine? {
        forall t | t > 0 ensures OwnerAt(s1.log, b, t) == OwnerAt(s.log, b, t) {
          GrowthKeepsOwner(s.log, a.events, b, t);
        }
      }
      RestKeeps(cfg, s1, run[1..], b);
    }
  }

  /**
   How current a ready index is. Between a chunk's save and the next chunk, through
   any mining, finishing, starting, crashing and marking ready, the rows are
   ownership at the cursor; so they are ownership at the head exactly when no token
   changes owner, on net, in the blocks above the cursor. Being marked ready does
   not enter the condition.
   */
  lemma ReadyIsCurrentIff(cfg: Config, s: State, run: seq<Action>, rest: seq<Action>)
    requires Initial(cfg, s) && ReplayOnly(run) && IsRun(cfg, s, run + [Save])
    requires Resting(rest) && IsRun(cfg, After(cfg, s, run + [Save]), rest)
    ensures var end := After(cfg, After(cfg, s, run + [Save]), rest);
            end.cursor.Some? && IndexIs(end, end.cursor.value.lastScanned) &&
            (IndexIs(end, end.head) <==> NetStill(end.log, end.cursor.value.lastScanned, end.head)) &&
            ((exists a :: a in rest && a.MarkComplete?) ==> end.cursor.value.complete)
  {
    var saved := After(cfg, s, run + [Save]);
    ReplayEqualsChain(cfg, s, run);
    InitialInv(cfg, s);
    RunKeeps(cfg, s, run + [Save]);
    SavedIsBelowHead(cfg, s, run);
    RestKeeps(cfg, saved, rest, saved.cursor.value.lastScanned);
    AtCursorIff(After(cfg, saved, rest));
  }

  lemma AtCursorIff(s: State)
    requires s.cursor.Some? && IndexIs(s, s.cursor.value.lastScanned)
    ensures IndexIs(s, s.head) <==> NetStill(s.log, s.cursor.value.lastScanned, s.head)
  {
  }

  lemma SavedIsBelowHead(cfg: Config, s: State, run: seq<Action>)
    requires Initial(cfg, s) && IsRun(cfg, s, run + [Save])
    ensures var end := After(cfg, s, run + [Save]);
            end.cursor.Some? && end.cursor.value.lastScanned <= end.head
  {
    InitialInv(cfg, s);
    RunPrefix(cfg, s, run, Save);
    RunKeeps(cfg, s, run);
    TilesRun(cfg, s, run);
    RunSnoc(cfg, s, run, Save);
  }

  lemma OneEventBatch(e: Transfer)
    requires e.tokenId > 0
    ensures Sort(Positive([e])) == [e]
  {
    assert [e][1..] == [] && Positive([e]) == [e] && Sort([e]) == Insert(e, []);
  }

  const MINT := Transfer(10, 0, ZERO, 7, 1)
  const MOVE := Transfer(30, 0, 7, 8, 1)

  lemma MintThenMove(log: seq<Transfer>)
    requires log == [MINT, MOVE]
    ensures WellFormed(log) && Answers(log, 10, 19, [MINT]) && OwnerAt(log, 30, 1) == Some(8)
    ensures forall e :: e in log ==> 10 <= e.block <= 30
  {
    assert log[0] == MINT && log[1] == MOVE;
  }

  const CHUNK := [StartPass(10), Fetch([MINT]), Write(0)]

  /**
   A run the condition excludes: one token, minted inside the only chunk the first
   pass may scan and moved later. The pass counts one owned row for one token and
   marks the index ready; `ReadyIsCurrentIff` says it is not current.
   */
  lemma ReadyIsNotCurrent(log: seq<Transfer>, s: State)
    requires log == [MINT, MOVE] && s == State(log, 30, map[], None, Idle, 9, [])
    ensures var cfg := Config(10, 10);
            Initial(cfg, s) && ReplayOnly(CHUNK) && IsRun(cfg, s, CHUNK + [Save]) &&
            IsRun(cfg, After(cfg, s, CHUNK + [Save]), [Finish, MarkComplete])
    ensures var cfg := Config(10, 10);
            var end := After(cfg, After(cfg, s, CHUNK + [Save]), [Finish, MarkComplete]);
            end.cursor == Some(Cursor(19, true)) && LiveOwners(end.rows) == 1 && !IndexIs(end, end.head)
  {
    var cfg := Config(10, 10);
    MintThenMove(log);
    OneEventBatch(MINT);
    var saved := OneChunk(cfg, log, s);
    RestingPair(cfg, saved);
    ReadyIsCurrentIff(cfg, s, CHUNK, [Finish, MarkComplete]);
    var end := After(cfg, saved, [Finish, MarkComplete]);
    assert LiveTokens(end.rows) == {1};
    assert OwnerAt(log, 19, 1) == Some(7);
  }

  lemma RestingPair(cfg: Config, s: State)
    requires Enabled(cfg, s, Finish)
    ensures Resting([Finish, MarkComplete]) && IsRun(cfg, s, [Finish, MarkComplete])
    ensures After(cfg, s, [Finish, MarkComplete]) == s.(pass := Idle, cursor := Completed(s.cursor))
  {
    assert [Finish, MarkComplete][1..] == [MarkComplete] && [MarkComplete][1..] == [];
  }

  lemma OneChunk(cfg: Config, log: seq<Transfer>, s: State) returns (saved: State)
    requires cfg == Config(10, 10) && s == State(log, 30, map[], None, Idle, 9, [])
    requires Answers(log, 10, 19, [MINT]) && Sort(Positive([MINT])) == [MINT]
    ensures ReplayOnly(CHUNK) && IsRun(cfg, s, CHUNK + [Save]) && saved == After(cfg, s, CHUNK + [Save])
    ensures saved == State(log, 30, map[1 := Row(Some(7), None)], Some(Cursor(19, false)),
                           Between(30, 20, 10, 10, false), 19, [Scan(10, 19, true)])
  {
    var s1 := s.(pass := Between(30, 10, 0, 10, false));
    var s2 := s.(pass := Writing(30, 10, 19, [MINT], 0, 0, 10, false), horizon := 19, scans := [Scan(10, 19, false)]);
    assert Next(cfg, s1, Fetch([MINT])) == s2;
    RunSnoc(cfg, s, [], StartPass(10));
    assert [] + [StartPass(10)] == [StartPass(10)];
    RunSnoc(cfg, s, [StartPass(10)], Fetch([MINT]));
    assert [StartPass(10)] + [Fetch([MINT])] == [StartPass(10), Fetch([MINT])];
    RunSnoc(cfg, s, [StartPass(10), Fetch([MINT])], Write(0));
    assert [StartPass(10), Fetch([MINT])] + [Write(0)] == CHUNK;
    RunSnoc(cfg, s, CHUNK, Save);
    saved := After(cfg, s, CHUNK + [Save]);
  }
}
