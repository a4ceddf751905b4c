/**
 The per-signer write lock: a map from key to the tail of a promise chain. A
 submitted write runs when the previous write with its key has settled, however
 that ended. (The CSV and JSON gates chain promises the same way, under one key.)
 */
module SignerLock {
  import opened Wrappers

  /** Chain id and signer address. */
  type Key = (nat, nat)

  datatype Promise = Pending | Fulfilled | Rejected

  /** `p.then(onOk, onError)` with handlers that return normally, once `p` has settled. */
  function Settle(p: Promise, onOk: Promise, onError: Promise): Promise {
    match p case Pending => Pending case Fulfilled => onOk case Rejected => onError
  }

  datatype Status = Waiting | Running | Done(ok: bool)

  /** One submitted write; `prev` is the write whose tail it was chained to. */
  datatype Task = Task(key: Key, prev: Option<nat>, status: Status)

  /** The promise returned to the caller. */
  function RunOf(t: Task): Promise {
    match t.status case Done(ok) => (if ok then Fulfilled else Rejected) case _ => Pending
  }

  /** The promise stored in the map: `run.then(() => undefined, () => undefined)`. */
  function TailOf(t: Task): Promise { Settle(RunOf(t), Fulfilled, Fulfilled) }

  /** `locks` maps a key to the write whose tail is stored. */
  datatype State = State(locks: map<Key, nat>, tasks: seq<Task>)

  const EMPTY := State(map[], [])

  datatype Action = Submit(key: Key) | Start(task: nat) | Finish(task: nat, ok: bool)

  /** The promise a write waits for: the stored tail, or one already resolved. */
  function Awaited(s: State, k: nat): Promise
    requires k < |s.tasks|
  {
    match s.tasks[k].prev
    case None => Fulfilled
    case Some(p) => if p < |s.tasks| then TailOf(s.tasks[p]) else Fulfilled
  }

  /** `prev.then(fn, fn)`: `fn` may start once `prev` is settled either way. */
  predicate Enabled(s: State, a: Action) {
    match a
    case Submit(_) => true
    case Start(k) => k < |s.tasks| && s.tasks[k].status == Waiting && Awaited(s, k) != Pending
    case Finish(k, _) => k < |s.tasks| && s.tasks[k].status == Running
  }

  function Next(s: State, a: Action): State {
    match a
    case Submit(key) =>
      State(s.locks[key := |s.tasks|],
            s.tasks + [Task(key, if key in s.locks then Some(s.locks[key]) else None, Waiting)])
    case Start(k) => if k < |s.tasks| then s.(tasks := s.tasks[k := s.tasks[k].(status := Running)]) else s
    case Finish(k, ok) => if k < |s.tasks| then s.(tasks := s.tasks[k := s.tasks[k].(status := Done(ok))]) else s
  }

  class RwaChainWriter {
    var writeLocks: map<Key, nat>
    ghost var tasks: seq<Task>

    ghost function View(): State
      reads this
    {
      State(writeLocks, tasks)
    }

    /** The synchronous part of `withSignerLock`; `ticket` names the promise it returns. */
    method WithSignerLock(key: Key, ticket: nat) returns (prev: Option<nat>)
      requires ticket == |tasks|
      modifies this
      ensures View() == Next(old(View()), Submit(key))
      ensures prev == tasks[ticket].prev
    {
      prev := if key in writeLocks then Some(writeLocks[key]) else None;
      writeLocks := writeLocks[key := ticket];
      tasks := tasks + [Task(key, prev, Waiting)];
    }
  }

  ghost predicate SameKey(s: State, i: nat, j: nat) {
    i < |s.tasks| && j < |s.tasks| && s.tasks[i].key == s.tasks[j].key
  }

  /** `p` is the newest write with the key among the first `n`. */
  ghost predicate Newest(s: State, key: Key, n: nat, p: nat) {
    p < n <= |s.tasks| && s.tasks[p].key == key && forall i :: p < i < n ==> s.tasks[i].key != key
  }

  /** Each write is chained to the previous one with its key; the map holds the newest. */
  ghost predicate Chained(s: State) {
    (forall key :: key in s.locks ==> Newest(s, key, |s.tasks|, s.locks[key])) &&
    (forall i :: 0 <= i < |s.tasks| ==> s.tasks[i].key in s.locks) &&
    (forall k :: 0 <= k < |s.tasks| ==> ChainedTask(s, k))
  }

  ghost predicate ChainedTask(s: State, k: nat)
    requires k < |s.tasks|
  {
    match s.tasks[k].prev
    case None => forall i :: 0 <= i < k ==> s.tasks[i].key != s.tasks[k].key
    case Some(p) => Newest(s, s.tasks[k].key, k, p)
  }

  /** A write that has left Waiting has seen every earlier write of its key settle. */
  ghost predicate InOrder(s: State) {
    forall i: nat, j: nat :: i < j && SameKey(s, i, j) && s.tasks[j].status != Waiting ==> s.tasks[i].status.Done?
  }

  ghost predicate Inv(s: State) { Chained(s) && InOrder(s) }

  lemma StepKeeps(s: State, a: Action)
    requires Inv(s) && Enabled(s, a)
    ensures Inv(Next(s, a))
  {
    match a
    case Submit(key) => SubmitKeeps(s, key);
    case Start(k) => StartKeeps(s, k);
    case Finish(k, ok) => StatusKeeps(s, k, Done(ok));
  }

  lemma SubmitKeeps(s: State, key: Key)
    requires Inv(s)
    ensures Inv(Next(s, Submit(key)))
  {
    SubmitChains(s, key);
    assert InOrder(Next(s, Submit(key)));
  }

  lemma SubmitChains(s: State, key: Key)
    requires Chained(s)
    ensures Chained(Next(s, Submit(key)))
  {
    var s' := Next(s, Submit(key));
    var n := |s.tasks|;
    forall k | 0 <= k < |s'.tasks|
      ensures ChainedTask(s', k)
    {
      if k < n {
        assert s'.tasks[k] == s.tasks[k] && ChainedTask(s, k);
        if s.tasks[k].prev.Some? {
          assert Newest(s, s.tasks[k].key, k, s.tasks[k].prev.value);
        }
      } else if key in s.locks {
        assert Newest(s, key, n, s.locks[key]);
      }
    }
    forall other | other in s'.locks ensures Newest(s', other, n + 1, s'.locks[other]) {
      if other != key { assert Newest(s, other, n, s.locks[other]); }
    }
  }

  /** Changing a status leaves the chaining alone. */
  lemma ChainKeeps(s: State, k: nat, status: Status)
    requires Chained(s) && k < |s.tasks|
    ensures Chained(s.(tasks := s.tasks[k := s.tasks[k].(status := status)]))
  {
    var s' := s.(tasks := s.tasks[k := s.tasks[k].(status := status)]);
    forall key, n, p | Newest(s, key, n, p) ensures Newest(s', key, n, p) {}
    forall m | 0 <= m < |s'.tasks| ensures ChainedTask(s', m) {
      assert ChainedTask(s, m) && s'.tasks[m].prev == s.tasks[m].prev && s'.tasks[m].key == s.tasks[m].key;
    }
    forall key | key in s'.locks ensures Newest(s', key, |s'.tasks|, s'.locks[key]) {
      assert Newest(s, key, |s.tasks|, s.locks[key]);
    }
    forall i | 0 <= i < |s'.tasks| ensures s'.tasks[i].key in s'.locks {
      assert s'.tasks[i].key == s.tasks[i].key;
    }
  }

  lemma StatusKeeps(s: State, k: nat, status: Status)
    requires Inv(s) && k < |s.tasks| && status != Waiting && (s.tasks[k].status.Done? ==> status.Done?)
    requires s.tasks[k].status == Waiting ==> forall i :: 0 <= i < k && SameKey(s, i, k) ==> s.tasks[i].status.Done?
    requires status == Running ==> forall j :: k < j < |s.tasks| && SameKey(s, k, j) ==> s.tasks[j].status == Waiting
    ensures Inv(s.(tasks := s.tasks[k := s.tasks[k].(status := status)]))
  {
    var s' := s.(tasks := s.tasks[k := s.tasks[k].(status := status)]);
    ChainKeeps(s, k, status);
    forall i: nat, j: nat | i < j && SameKey(s', i, j) && s'.tasks[j].status != Waiting
      ensures s'.tasks[i].status.Done?
    {
      assert SameKey(s, i, j);
    }
  }

  /** A write is free to start exactly when every earlier write with its key has settled. */
  lemma FreeExactlyWhenTurn(s: State, k: nat)
    requires Inv(s) && k < |s.tasks|
    ensures Awaited(s, k) != Pending <==> forall i :: 0 <= i < k && SameKey(s, i, k) ==> s.tasks[i].status.Done?
  {
    assert ChainedTask(s, k);
    match s.tasks[k].prev
    case None =>
    case Some(p) =>
      assert Newest(s, s.tasks[k].key, k, p) && SameKey(s, p, k);
      if s.tasks[p].status.Done? {
        forall i | 0 <= i < k && SameKey(s, i, k) ensures s.tasks[i].status.Done? {
          if i < p { assert SameKey(s, i, p); }
        }
      }
  }

  lemma StartKeeps(s: State, k: nat)
    requires Inv(s) && Enabled(s, Start(k))
    ensures Inv(Next(s, Start(k)))
  {
    FreeExactlyWhenTurn(s, k);
    StatusKeeps(s, k, Running);
  }

  ghost predicate IsRun(s: State, run: seq<Action>)
    decreases |run|
  {
    run != [] ==> Enabled(s, run[0]) && IsRun(Next(s, run[0]), run[1..])
  }

  function After(s: State, run: seq<Action>): State
    decreases |run|
  {
    if run == [] then s else After(Next(s, run[0]), run[1..])
  }

  lemma {:induction false} RunKeeps(s: State, run: seq<Action>)
    requires Inv(s) && IsRun(s, run)
    ensures Inv(After(s, run))
    decreases |run|
  {
    if run == [] {
    } else {
      StepKeeps(s, run[0]);
      RunKeeps(Next(s, run[0]), run[1..]);
    }
  }

  /** Writes of one key never overlap, and one that has started means all earlier ones have settled. */
  lemma OneAtATimeInOrder(run: seq<Action>, i: nat, j: nat)
    requires IsRun(EMPTY, run) && i < j && SameKey(After(EMPTY, run), i, j)
    ensures var s := After(EMPTY, run);
            (s.tasks[j].status != Waiting ==> s.tasks[i].status.Done?) &&
            !(s.tasks[i].status == Running && s.tasks[j].status == Running)
  {
    RunKeeps(EMPTY, run);
  }

  /**
   Keys do not block each other, failures do not block anyone: a waiting write can
   start exactly when the earlier writes of its own key have settled, in any way.
   */
  lemma OnlyOwnKeyBlocks(run: seq<Action>, k: nat)
    requires IsRun(EMPTY, run) && k < |After(EMPTY, run).tasks| && After(EMPTY, run).tasks[k].status == Waiting
    ensures var s := After(EMPTY, run);
            Enabled(s, Start(k)) <==> forall i :: 0 <= i < k && SameKey(s, i, k) ==> s.tasks[i].status.Done?
  {
    RunKeeps(EMPTY, run);
    FreeExactlyWhenTurn(After(EMPTY, run), k);
  }

  /**
   Whatever the writes of a key did, the tail stored for it is never rejected, and
   it is fulfilled exactly when every write of the key has settled.
   */
  lemma StoredTailSettlesLast(run: seq<Action>, key: Key)
    requires IsRun(EMPTY, run) && key in After(EMPTY, run).locks
    ensures var s := After(EMPTY, run);
            s.locks[key] < |s.tasks| && TailOf(s.tasks[s.locks[key]]) != Rejected &&
            (TailOf(s.tasks[s.locks[key]]) == Fulfilled <==>
               forall i :: 0 <= i < |s.tasks| && s.tasks[i].key == key ==> s.tasks[i].status.Done?)
  {
    RunKeeps(EMPTY, run);
    var s := After(EMPTY, run);
    var p := s.locks[key];
    assert Newest(s, key, |s.tasks|, p);
    if s.tasks[p].status.Done? {
      forall i | 0 <= i < |s.tasks| && s.tasks[i].key == key ensures s.tasks[i].status.Done? {
        if i < p {
          assert SameKey(s, i, p);
        }
      }
    }
  }

  // ---- Statuses are the run's own history --------------------------------------------------------

  /** The keys submitted, in order: write `k` is the k-th submission. */
  function Submits(run: seq<Action>): seq<Key> {
    if run == [] then []
    else Submits(run[..|run| - 1]) + match run[|run| - 1] case Submit(key) => [key] case _ => []
  }

  /** What the run did to write `k`. */
  function StatusFrom(run: seq<Action>, k: nat): Status {
    if run == [] then Waiting
    else
      match run[|run| - 1]
      case Start(j) => if j == k then Running else StatusFrom(run[..|run| - 1], k)
      case Finish(j, ok) => if j == k then Done(ok) else StatusFrom(run[..|run| - 1], k)
      case Submit(_) => StatusFrom(run[..|run| - 1], k)
  }

  lemma {:induction false} AfterSnoc(s: State, run: seq<Action>, a: Action)
    ensures After(s, run + [a]) == Next(After(s, run), a)
    ensures IsRun(s, run + [a]) <==> IsRun(s, run) && Enabled(After(s, run), a)
    decreases |run|
  {
    if run == [] {
      assert run + [a] == [a] && [a][1..] == [];
    } else {
      assert (run + [a])[1..] == run[1..] + [a];
      AfterSnoc(Next(s, run[0]), run[1..], a);
    }
  }

  lemma {:induction false} NotYetTouched(run: seq<Action>, k: nat)
    requires IsRun(EMPTY, run) && k >= |After(EMPTY, run).tasks|
    ensures StatusFrom(run, k) == Waiting
  {
    if run == [] {
    } else {
      var front, a := run[..|run| - 1], run[|run| - 1];
      assert run == front + [a];
      AfterSnoc(EMPTY, front, a);
      NotYetTouched(front, k);
    }
  }

  /** Every submitted write is there with its key, and stands where its own starts and ends in the run put it. */
  lemma {:induction false} WritesAreTheRuns(run: seq<Action>)
    requires IsRun(EMPTY, run)
    ensures var s := After(EMPTY, run);
            |s.tasks| == |Submits(run)| &&
            forall k :: 0 <= k < |s.tasks| ==>
              s.tasks[k].key == Submits(run)[k] && s.tasks[k].status == StatusFrom(run, k)
  {
    if run == [] {
    } else {
      var front, a := run[..|run| - 1], run[|run| - 1];
      assert run == front + [a];
      AfterSnoc(EMPTY, front, a);
      WritesAreTheRuns(front);
      if a.Submit? {
        NotYetTouched(front, |After(EMPTY, front).tasks|);
      }
    }
  }

  /** How write `k` ended in the run, if it did. */
  ghost predicate Ended(run: seq<Action>, k: nat, ok: bool) { exists i :: 0 <= i < |run| && run[i] == Finish(k, ok) }

  lemma {:induction false} DoneMeansEnded(run: seq<Action>, k: nat)
    requires IsRun(EMPTY, run)
    ensures forall ok :: Ended(run, k, ok) <==> StatusFrom(run, k) == Done(ok)
  {
    if run == [] {
    } else {
      var front, a := run[..|run| - 1], run[|run| - 1];
      assert run == front + [a];
      AfterSnoc(EMPTY, front, a);
      DoneMeansEnded(front, k);
      WritesAreTheRuns(front);
      if k >= |After(EMPTY, front).tasks| {
        NotYetTouched(front, k);
      }
      forall ok ensures Ended(run, k, ok) <==> Ended(front, k, ok) || a == Finish(k, ok) {
        if Ended(front, k, ok) {
          var i :| 0 <= i < |front| && front[i] == Finish(k, ok);
          assert run[i] == Finish(k, ok);
        }
      }
    }
  }

  /** A caller's promise is fulfilled exactly when its own write ended well, and rejected exactly when it failed. */
  lemma CallerLearnsItsOutcome(run: seq<Action>, k: nat)
    requires IsRun(EMPTY, run) && k < |After(EMPTY, run).tasks|
    ensures RunOf(After(EMPTY, run).tasks[k]) == Fulfilled <==> Ended(run, k, true)
    ensures RunOf(After(EMPTY, run).tasks[k]) == Rejected <==> Ended(run, k, false)
  {
    WritesAreTheRuns(run);
    DoneMeansEnded(run, k);
  }
}
