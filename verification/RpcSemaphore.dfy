/**
 The RPC semaphore: a counter and a FIFO queue of suspended callers. Callers are
 numbered; `arrivals`, `grants` and `releases` record a run's history.
 */
module RpcSemaphore {
  import opened Powers
  import opened Wrappers

  type Caller = nat

  class RpcSemaphore {
    const max: nat
    var inflight: int
    var queue: seq<Caller>

    constructor (max: nat)
      ensures this.max == max && inflight == 0 && queue == []
    {
      this.max := max;
      inflight, queue := 0, [];
    }

    ghost function View(): (int, seq<Caller>)
      reads this
    {
      (inflight, queue)
    }

    /** True when the caller goes on at once; otherwise it is suspended at the back of the queue. */
    method Acquire(c: Caller) returns (granted: bool)
      modifies this
      ensures granted <==> old(inflight) < max
      ensures View() == if granted then (old(inflight) + 1, old(queue)) else (old(inflight), old(queue) + [c])
    {
      if inflight < max {
        inflight := inflight + 1;
        return true;
      }
      queue := queue + [c];
      return false;
    }

    /** Wakes the oldest suspended caller, if any, handing it the slot. */
    method Release() returns (woken: Option<Caller>)
      modifies this
      ensures woken == if old(queue) == [] then None else Some(old(queue)[0])
      ensures View() == if old(queue) == [] then (old(inflight) - 1, []) else (old(inflight), old(queue)[1..])
    {
      inflight := inflight - 1;
      if queue == [] {
        return None;
      }
      woken := Some(queue[0]);
      queue := queue[1..];
      inflight := inflight + 1;
    }
  }

  // ---- Runs -------------------------------------------------------------------------

  datatype State = State(
    inflight: int, queue: seq<Caller>, holders: set<Caller>, arrivals: seq<Caller>, grants: seq<Caller>)

  datatype Action = Arrive(c: Caller) | Leave(c: Caller)

  const EMPTY := State(0, [], {}, [], [])

  /** Each call is a new caller; a holder leaves once. */
  predicate Enabled(s: State, a: Action) {
    match a case Arrive(c) => c !in s.arrivals case Leave(c) => c in s.holders
  }

  function Next(max: nat, s: State, a: Action): State {
    match a
    case Arrive(c) =>
      var s := s.(arrivals := s.arrivals + [c]);
      if s.inflight < max then s.(inflight := s.inflight + 1, holders := s.holders + {c}, grants := s.grants + [c])
      else s.(queue := s.queue + [c])
    case Leave(c) =>
      var s := s.(holders := s.holders - {c});
      if s.queue == [] then s.(inflight := s.inflight - 1)
      else s.(queue := s.queue[1..], holders := s.holders + {s.queue[0]}, grants := s.grants + [s.queue[0]])
  }

  /** The object, driven by the same calls, follows the machine. */
  method Drive(sem: RpcSemaphore, ghost s: State, a: Action) returns (granted: Option<Caller>)
    requires sem.View() == (s.inflight, s.queue) && sem.max > 0
    modifies sem
    ensures var s' := Next(sem.max, s, a);
            sem.View() == (s'.inflight, s'.queue) &&
            s'.grants == s.grants + (if granted.Some? then [granted.value] else [])
  {
    match a
    case Arrive(c) =>
      var now := sem.Acquire(c);
      granted := if now then Some(c) else None;
    case Leave(_) =>
      granted := sem.Release();
  }

  /** Nobody waits while a slot is free, the count is the holders, and callers are served in arrival order. */
  ghost predicate Inv(max: nat, s: State) {
    s.inflight == |s.holders| <= max && (s.queue != [] ==> s.inflight == max) &&
    s.arrivals == s.grants + s.queue &&
    (forall i, j :: 0 <= i < j < |s.arrivals| ==> s.arrivals[i] != s.arrivals[j]) &&
    (forall c :: c in s.holders ==> c in s.grants)
  }

  lemma StepKeeps(max: nat, s: State, a: Action)
    requires Inv(max, s) && Enabled(s, a)
    ensures Inv(max, Next(max, s, a))
  {
    var s' := Next(max, s, a);
    match a
    case Arrive(c) =>
      assert s.arrivals + [c] == s.grants + (s.queue + [c]) == (s.grants + s.queue) + [c];
      if s.inflight < max {
        assert s.queue == [] && s.grants + [c] == s'.grants + s'.queue;
        assert c !in s.holders by {
          assert forall x :: x in s.grants ==> x in s.arrivals;
        }
      }
    case Leave(c) =>
      if s.queue != [] {
        var first := s.queue[0];
        assert s.arrivals == (s.grants + [first]) + s.queue[1..];
        assert s.arrivals[|s.grants|] == first;
        assert first !in s.holders by {
          forall k | 0 <= k < |s.grants| ensures s.grants[k] != first {
            assert s.arrivals[k] == s.grants[k];
          }
        }
      }
  }

  ghost predicate IsRun(max: nat, s: State, run: seq<Action>)
    decreases |run|
  {
    run != [] ==> Enabled(s, run[0]) && IsRun(max, Next(max, s, run[0]), run[1..])
  }

  function After(max: nat, s: State, run: seq<Action>): State
    decreases |run|
  {
    if run == [] then s else After(max, Next(max, s, run[0]), run[1..])
  }

  lemma {:induction false} RunKeeps(max: nat, s: State, run: seq<Action>)
    requires Inv(max, s) && IsRun(max, s, run)
    ensures Inv(max, After(max, s, run))
    decreases |run|
  {
    if run == [] {
    } else {
      StepKeeps(max, s, run[0]);
      RunKeeps(max, Next(max, s, run[0]), run[1..]);
    }
  }

  /**
   In every interleaving: the cap holds, a waiting queue means every slot is taken
   (no barging, no lost wakeup), and grants are a prefix of the arrivals.
   */
  lemma CapAndArrivalOrder(max: nat, run: seq<Action>)
    requires IsRun(max, EMPTY, run)
    ensures var s := After(max, EMPTY, run);
            s.inflight == |s.holders| <= max && (s.queue != [] ==> s.inflight == max) &&
            s.grants <= s.arrivals && s.arrivals == s.grants + s.queue
  {
    RunKeeps(max, EMPTY, run);
  }

  function Leaves(run: seq<Action>): nat
    decreases |run|
  {
    if run == [] then 0 else (if run[0].Leave? then 1 else 0) + Leaves(run[1..])
  }

  /**
   However many callers arrive meanwhile, the caller at position `p` of the queue
   is still waiting after up to `p` releases and is granted by release `p + 1`.
   (With `CapAndArrivalOrder`, granted and waiting exclude each other.)
   */
  lemma {:induction false} GrantedByItsRelease(max: nat, s: State, run: seq<Action>, p: nat)
    requires p < |s.queue| && s.inflight >= max
    ensures var end := After(max, s, run);
            if Leaves(run) <= p then p - Leaves(run) < |end.queue| && end.queue[p - Leaves(run)] == s.queue[p]
            else |s.grants| + p < |end.grants| && end.grants[|s.grants| + p] == s.queue[p]
    decreases |run|
  {
    if run == [] {
    } else {
      var next := Next(max, s, run[0]);
      if run[0].Arrive? {
        GrantedByItsRelease(max, next, run[1..], p);
      } else if p > 0 {
        GrantedByItsRelease(max, next, run[1..], p - 1);
      } else {
        GrantsGrow(max, next, run[1..]);
      }
    }
  }

  lemma GrantedAreNotQueued(max: nat, s: State, at: nat)
    requires Inv(max, s) && at < |s.grants|
    ensures s.grants[at] !in s.queue
  {
    forall k | 0 <= k < |s.queue| ensures s.queue[k] != s.grants[at] {
      assert s.arrivals[at] == s.grants[at] && s.arrivals[|s.grants| + k] == s.queue[k];
    }
  }

  /** A grant is never taken back, and a granted caller never queues again. */
  lemma GrantStays(max: nat, s: State, run: seq<Action>, at: nat)
    requires Inv(max, s) && IsRun(max, s, run) && at < |s.grants|
    ensures var end := After(max, s, run);
            at < |end.grants| && end.grants[at] == s.grants[at] && s.grants[at] !in end.queue
  {
    RunKeeps(max, s, run);
    GrantsGrow(max, s, run);
    GrantedAreNotQueued(max, After(max, s, run), at);
  }

  lemma {:induction false} GrantsGrow(max: nat, s: State, run: seq<Action>)
    ensures s.grants <= After(max, s, run).grants
    decreases |run|
  {
    if run == [] {
    } else {
      GrantsGrow(max, Next(max, s, run[0]), run[1..]);
    }
  }

  // ---- Retrying a throttled call ---------------------------------------------------------

  datatype Outcome = Value | RateLimited | Failed

  function WaitMs(attempt: nat): nat
    requires attempt > 0
  {
    var delay := 400 * Pow2(attempt - 1);
    if delay < 30_000 then delay else 30_000
  }

  function Waits(n: nat): nat { if n == 0 then 0 else Waits(n - 1) + WaitMs(n) }

  /**
   Calls until something other than a rate limit, or the last allowed attempt.
   `outcomes[k]` is what call k+1 would do; the result is the last call made.
   */
  method WithRpcRateLimitRetry(outcomes: nat -> Outcome, maxRetries: nat) returns (calls: nat, slept: nat)
    ensures calls <= maxRetries && (maxRetries > 0 ==> calls > 0)
    ensures forall k: nat :: k + 1 < calls ==> outcomes(k) == RateLimited
    ensures calls > 0 ==> outcomes(calls - 1) != RateLimited || calls == maxRetries
    ensures slept == if calls == 0 then 0 else Waits(calls - 1)
  {
    calls, slept := 0, 0;
    while calls < maxRetries
      invariant calls <= maxRetries && slept == Waits(calls)
      invariant forall k: nat :: k < calls ==> outcomes(k) == RateLimited
      invariant maxRetries > 0 ==> calls < maxRetries
    {
      var attempt := calls + 1;
      if outcomes(calls) != RateLimited || attempt >= maxRetries {
        return attempt, slept;
      }
      slept := slept + WaitMs(attempt);
      calls := attempt;
    }
  }

  /** The waits in closed form: doubling from 400 ms for seven retries, half a minute each from then on. */
  lemma {:induction false} WaitsDouble(n: nat)
    ensures Waits(n) == if n <= 7 then 400 * (Pow2(n) - 1) else 50_800 + 30_000 * (n - 7)
  {
    if n == 0 {
    } else {
      WaitsDouble(n - 1);
      assert Pow2(7) == 128 by {
        assert Pow2(3) == 8 && Pow2(5) == 4 * Pow2(3) && Pow2(7) == 4 * Pow2(5);
      }
      if n > 8 {
        PowerPasses(n - 1);
      }
    }
  }

  lemma {:induction false} PowerPasses(n: nat)
    requires n >= 7
    ensures Pow2(n) >= 128
  {
    if n == 7 {
      assert Pow2(3) == 8 && Pow2(5) == 4 * Pow2(3) && Pow2(7) == 4 * Pow2(5);
    } else {
      PowerPasses(n - 1);
    }
  }
}
