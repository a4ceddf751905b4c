/**
 What the counts of a finished pass mean on the chain: the owned rows it compares
 with `totalSupply`, and the logs it says it has replayed.
 */
module OwnerReady {
  import opened Wrappers
  import opened Erc721
  import opened OwnerRows
  import opened EventOrder
  import opened OwnerReplay
  import opened OwnerTheorems

  /** The tokens that have an owner at block `b`. */
  function OwnedAt(log: seq<Transfer>, b: int): set<nat> {
    set e | e in log && e.tokenId > 0 && OwnerAt(log, b, e.tokenId).Some? :: e.tokenId
  }

  lemma OwnedIff(log: seq<Transfer>, b: int, t: nat)
    ensures t in OwnedAt(log, b) <==> t > 0 && OwnerAt(log, b, t).Some?
  {
    if t > 0 && OwnerAt(log, b, t).Some? && forall e :: e in log ==> e.tokenId != t {
      NoEventNoOwner(log, b, t);
    }
  }

  /** The logs of blocks `a` to `b` for ids above zero. */
  function EventsIn(log: seq<Transfer>, a: int, b: int): set<Transfer> {
    set e | e in log && a <= e.block <= b && e.tokenId > 0
  }

  lemma {:induction false} OrderedCount(batch: seq<Transfer>)
    requires Ordered(batch)
    ensures |set e | e in batch| == |batch|
  {
    if batch == [] {
    } else {
      var front, last := batch[..|batch| - 1], batch[|batch| - 1];
      OrderedCount(front);
      assert (set e | e in batch) == (set e | e in front) + {last};
    }
  }

  /** A range's batch has as many entries as the range has logs. */
  lemma BatchCount(log: seq<Transfer>, start: nat, end: nat, batch: seq<Transfer>)
    requires BatchOf(log, start, end, batch)
    ensures |batch| == |EventsIn(log, start, end)|
  {
    OrderedCount(batch);
    assert (set e | e in batch) == EventsIn(log, start, end);
  }

  lemma AnswerCount(log: seq<Transfer>, start: nat, end: nat, reply: seq<Transfer>)
    requires Answers(log, start, end, reply)
    ensures WellFormed(log) ==> |Sort(Positive(reply))| == |EventsIn(log, start, end)|
  {
    if WellFormed(log) {
      SortRestoresChainOrder(log, start, end, reply);
      BatchCount(log, start, end, Sort(Positive(reply)));
    }
  }

  lemma EventsJoin(log: seq<Transfer>, a: int, m: int, b: int)
    requires a <= m + 1 && m <= b
    ensures |EventsIn(log, a, b)| == |EventsIn(log, a, m)| + |EventsIn(log, m + 1, b)|
  {
    assert EventsIn(log, a, b) == EventsIn(log, a, m) + EventsIn(log, m + 1, b);
  }

  /** Reached from the start with no writer but the replay. */
  ghost predicate FromStart(cfg: Config, s: State) {
    exists first, past :: Replayable(cfg, first, past) && After(cfg, first, past) == s
  }

  ghost predicate Replayable(cfg: Config, first: State, past: seq<Action>) {
    Initial(cfg, first) && ReplayOnly(past) && IsRun(cfg, first, past)
  }

  /** After a chunk is saved no row is ahead of the cursor, and no row is kept for id zero. */
  ghost predicate UpToDate(s: State) {
    (s.pass.Between? && s.pass.blocks > 0 ==> s.horizon == s.pass.next - 1) &&
    (0 in s.rows ==> s.rows[0].owner.None?)
  }

  lemma UpToDateStep(cfg: Config, s: State, a: Action)
    requires Inv(cfg, s) && Ahead(cfg, s) && UpToDate(s) && Enabled(cfg, s, a)
    requires !a.OutsideOwners? && !a.OutsideBurn?
    ensures UpToDate(Next(cfg, s, a))
  {
    if a.Write? {
      assert s.pass.batch[s.pass.done] in s.pass.batch;
    }
  }

  lemma {:induction false} UpToDateRun(cfg: Config, s: State, run: seq<Action>)
    requires Inv(cfg, s) && Ahead(cfg, s) && UpToDate(s) && IsRun(cfg, s, run) && ReplayOnly(run)
    ensures var end := After(cfg, s, run); Inv(cfg, end) && Ahead(cfg, end) && UpToDate(end)
    decreases |run|
  {
    if run == [] {
    } else {
      assert run[0] in run && forall a :: a in run[1..] ==> a in run;
      StepKeeps(cfg, s, run[0]);
      AheadStep(cfg, s, run[0]);
      UpToDateStep(cfg, s, run[0]);
      UpToDateRun(cfg, Next(cfg, s, run[0]), run[1..]);
    }
  }

  lemma LiveAreOwned(s: State, b: int)
    requires IndexIs(s, b) && (0 in s.rows ==> s.rows[0].owner.None?)
    ensures LiveTokens(s.rows) == OwnedAt(s.log, b)
  {
    forall t ensures t in LiveTokens(s.rows) <==> t in OwnedAt(s.log, b) {
      OwnedIff(s.log, b, t);
      assert t > 0 ==> Visible(s.rows, t) == OwnerAt(s.log, b, t);
    }
  }

  lemma StartIsUpToDate(cfg: Config, s: State)
    requires FromStart(cfg, s)
    ensures Inv(cfg, s) && Ahead(cfg, s) && UpToDate(s)
  {
    var first, past :| Replayable(cfg, first, past) && After(cfg, first, past) == s;
    InitialInv(cfg, first);
    UpToDateRun(cfg, first, past);
  }

  lemma SavedIsOnChain(cfg: Config, s: State)
    requires Inv(cfg, s) && UpToDate(s) && s.pass.Between? && s.pass.blocks > 0
    ensures WellFormed(s.log) && IndexIs(s, s.pass.next - 1) && LiveTokens(s.rows) == OwnedAt(s.log, s.pass.next - 1)
  {
    LiveAreOwned(s, s.pass.next - 1);
  }

  /** Between the chunks of a pass that has saved one, the owned rows are exactly the tokens owned at the cursor. */
  lemma CountedOnChain(cfg: Config, s: State, run: seq<Action>)
    requires FromStart(cfg, s) && IsRun(cfg, s, run) && ReplayOnly(run)
    requires After(cfg, s, run).pass.Between? && After(cfg, s, run).pass.blocks > 0
    ensures var end := After(cfg, s, run);
            WellFormed(end.log) && IndexIs(end, end.pass.next - 1) &&
            LiveTokens(end.rows) == OwnedAt(end.log, end.pass.next - 1)
  {
    StartIsUpToDate(cfg, s);
    UpToDateRun(cfg, s, run);
    SavedIsOnChain(cfg, After(cfg, s, run));
  }
}
