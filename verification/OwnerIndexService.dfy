/**
 The owner index service: its two tables as fields, each method proved against
 the row statements and the step machine. `awaits` is how many awaited calls
 succeed before one throws, so every crash point is covered.
 */
module OwnerIndexService {
  import opened Wrappers
  import opened Erc721
  import opened OwnerRows
  import opened EventOrder
  import opened OwnerReplay
  import opened OwnerTheorems
  import opened OwnerReady

  datatype PassResult = PassResult(transfers: nat, lastBlock: nat)

  datatype Thrown = Thrown

  function Writes(run: seq<Action>): nat {
    if run == [] then 0 else Writes(run[..|run| - 1]) + if run[|run| - 1].Write? then 1 else 0
  }

  /** The awaited calls of a run: fetching logs, writing a row, saving the cursor. */
  function Awaits(run: seq<Action>): nat {
    if run == [] then 0
    else
      Awaits(run[..|run| - 1]) +
      if run[|run| - 1].Fetch? || run[|run| - 1].Write? || run[|run| - 1].Save? then 1 else 0
  }

  /** Entries of a scan result that are kept: a positive id and a well-formed address. */
  function KeptOwners(entries: seq<(int, Option<Address>)>): map<nat, Address> {
    if entries == [] then map[]
    else
      var (id, owner) := entries[|entries| - 1];
      var before := KeptOwners(entries[..|entries| - 1]);
      if id > 0 && owner.Some? then before[id := owner.value] else before
  }

  /** Entry `i` is one that is kept: a positive id with a well-formed address. */
  predicate KeptAt(entries: seq<(int, Option<Address>)>, i: int) {
    0 <= i < |entries| && entries[i].0 > 0 && entries[i].1.Some?
  }

  predicate LastKept(entries: seq<(int, Option<Address>)>, i: int) {
    KeptAt(entries, i) && forall k :: i < k < |entries| && KeptAt(entries, k) ==> entries[k].0 != entries[i].0
  }

  /** Of each id, the last well-formed entry is kept. */
  lemma {:induction false} LastEntryIsKept(entries: seq<(int, Option<Address>)>, i: nat)
    requires LastKept(entries, i)
    ensures entries[i].0 in KeptOwners(entries) && KeptOwners(entries)[entries[i].0] == entries[i].1.value
  {
    var n := |entries| - 1;
    if i < n {
      assert KeptAt(entries[..n], i);
      forall k | i < k < n && KeptAt(entries[..n], k) ensures entries[k].0 != entries[i].0 {
        assert KeptAt(entries, k);
      }
      LastEntryIsKept(entries[..n], i);
      assert KeptAt(entries, n) ==> entries[n].0 != entries[i].0;
    }
  }

  /** And nothing else is. */
  lemma {:induction false} OnlyEntriesAreKept(entries: seq<(int, Option<Address>)>, t: nat) returns (i: int)
    requires t in KeptOwners(entries)
    ensures KeptAt(entries, i) && entries[i].0 == t
  {
    var n := |entries| - 1;
    if KeptAt(entries, n) && entries[n].0 == t {
      i := n;
    } else {
      i := OnlyEntriesAreKept(entries[..n], t);
      assert KeptAt(entries, i);
    }
  }

  lemma {:induction false} KeptCountIs(entries: seq<(int, Option<Address>)>)
    ensures KeptCount(entries) == |set i | 0 <= i < |entries| && KeptAt(entries, i)|
  {
    if entries == [] {
    } else {
      var n := |entries| - 1;
      KeptCountIs(entries[..n]);
      var before := set i | 0 <= i < n && KeptAt(entries[..n], i);
      assert forall i :: 0 <= i < n ==> (KeptAt(entries, i) <==> KeptAt(entries[..n], i));
      assert (set i | 0 <= i < |entries| && KeptAt(entries, i)) == if KeptAt(entries, n) then before + {n} else before;
    }
  }

  function InsertId(id: nat, ids: seq<nat>): seq<nat> {
    if ids == [] || id <= ids[0] then [id] + ids else [ids[0]] + InsertId(id, ids[1..])
  }

  ghost predicate Ascending(ids: seq<nat>) {
    forall i, j :: 0 <= i < j < |ids| ==> ids[i] < ids[j]
  }

  lemma {:induction false} InsertIdAscends(id: nat, ids: seq<nat>)
    requires Ascending(ids) && id !in ids
    ensures Ascending(InsertId(id, ids))
    ensures forall x :: x in InsertId(id, ids) <==> x == id || x in ids
  {
    if !(ids == [] || id <= ids[0]) {
      assert forall x :: x in ids[1..] ==> x in ids;
      InsertIdAscends(id, ids[1..]);
      var rest := InsertId(id, ids[1..]);
      forall i | 0 <= i < |rest| ensures ids[0] < rest[i] {
        assert rest[i] in rest;
      }
    }
  }

  function KeptCount(entries: seq<(int, Option<Address>)>): nat {
    if entries == [] then 0
    else KeptCount(entries[..|entries| - 1]) +
         if entries[|entries| - 1].0 > 0 && entries[|entries| - 1].1.Some? then 1 else 0
  }

  function AsMap(kept: seq<(nat, Address)>): map<nat, Address> {
    if kept == [] then map[]
    else AsMap(kept[..|kept| - 1])[kept[|kept| - 1].0 := kept[|kept| - 1].1]
  }

  lemma {:induction false} AsMapJoins(kept: seq<(nat, Address)>, i: nat, next: nat)
    requires i <= next <= |kept|
    ensures AsMap(kept[..next]) == AsMap(kept[..i]) + AsMap(kept[i..next])
  {
    if i < next {
      assert kept[..next][..next - 1] == kept[..next - 1];
      assert kept[i..next][..next - 1 - i] == kept[i..next - 1];
      AsMapJoins(kept, i, next - 1);
    }
  }

  lemma UpsertTwice(rows: Rows, a: map<nat, Address>, b: map<nat, Address>)
    ensures UpsertAll(UpsertAll(rows, a), b) == UpsertAll(rows, a + b)
  {
    var once, both := UpsertAll(UpsertAll(rows, a), b), UpsertAll(rows, a + b);
    forall t | t in once || t in both ensures t in once && t in both && once[t] == both[t] {
      assert Stamp(UpsertAll(rows, a), t) == Stamp(rows, t);
    }
  }

  /** The scan's filter: positive ids with a well-formed address, in scan order. */
  method Keep(entries: seq<(int, Option<Address>)>) returns (kept: seq<(nat, Address)>)
    ensures |kept| == KeptCount(entries) && AsMap(kept) == KeptOwners(entries)
  {
    kept := [];
    for i := 0 to |entries|
      invariant |kept| == KeptCount(entries[..i]) && AsMap(kept) == KeptOwners(entries[..i])
    {
      assert entries[..i + 1][..i] == entries[..i];
      if entries[i].0 > 0 && entries[i].1.Some? {
        var more := kept + [(entries[i].0 as nat, entries[i].1.value)];
        assert more[..|more| - 1] == kept;
        kept := more;
      }
    }
    assert entries[..|entries|] == entries;
  }

  /** One more machine step on a run. */
  lemma Extend(cfg: Config, s: State, cur: State, run: seq<Action>, a: Action)
    returns (next: State, more: seq<Action>)
    requires IsRun(cfg, s, run) && ReplayOnly(run) && cur == After(cfg, s, run) && Enabled(cfg, cur, a)
    requires !a.OutsideOwners? && !a.OutsideBurn?
    ensures next == Next(cfg, cur, a) == After(cfg, s, more) && more == run + [a]
    ensures IsRun(cfg, s, more) && ReplayOnly(more) && Writes(more) == Writes(run) + if a.Write? then 1 else 0
    ensures Awaits(more) == Awaits(run) + if a.Fetch? || a.Write? || a.Save? then 1 else 0
  {
    next, more := Next(cfg, cur, a), run + [a];
    RunSnoc(cfg, s, run, a);
    assert more[..|more| - 1] == run;
  }

  predicate EachOnce(list: seq<nat>) { multiset(list) == multiset(set t | t in list) }

  lemma AppendOnce(list: seq<nat>, t: nat)
    requires EachOnce(list) && t !in list
    ensures EachOnce(list + [t])
  {
    assert (set x | x in list + [t]) == (set x | x in list) + {t};
  }

  /** The counts a pass compares, when the replay is the only writer. */
  lemma CountsOnChain(cfg: Config, s: State, run: seq<Action>, cur: State, last: nat)
    requires IsRun(cfg, s, run) && ReplayOnly(run) && cur == After(cfg, s, run) && cur.log == s.log
    requires cur.pass.Between? && cur.pass.blocks > 0 && cur.pass.next == last + 1
    ensures FromStart(cfg, s) ==> WellFormed(s.log) && LiveOwners(cur.rows) == |OwnedAt(s.log, last)|
  {
    if FromStart(cfg, s) {
      CountedOnChain(cfg, s, run);
    }
  }

  class OwnerIndex {
    const cfg: Config
    var rows: Rows
    var cursor: Option<Cursor>

    constructor (cfg: Config)
      ensures this.cfg == cfg && rows == map[] && cursor == None
    {
      this.cfg := cfg;
      rows := map[];
      cursor := None;
    }

    /** `owner` is None when the text is not a 20-byte hex address. */
    method RecordOwner(t: nat, owner: Option<Address>)
      modifies this`rows
      ensures rows == if owner.Some? then Upsert(old(rows), t, owner.value) else old(rows)
    {
      if owner.None? {
        return;
      }
      var kept := if t in rows then rows[t].burnedAt else None;
      rows := rows[t := Row(owner, kept)];
    }

    method RecordBurn(t: nat, now: int)
      modifies this`rows
      ensures rows == Burn(old(rows), t, now)
    {
      if t in rows {
        var stamp := if rows[t].burnedAt.Some? then rows[t].burnedAt else Some(now);
        rows := rows[t := Row(None, stamp)];
      }
    }

    method RecordTransfer(e: Transfer, now: int)
      modifies this`rows
      ensures rows == ApplyTransfer(old(rows), e, now)
    {
      if e.to == ZERO {
        RecordBurn(e.tokenId, now);
        return;
      }
      RecordOwner(e.tokenId, Some(e.to));
    }

    method MarkBackfillComplete()
      modifies this`cursor
      ensures cursor == Completed(old(cursor))
    {
      cursor := Some(Cursor(if cursor.Some? then cursor.value.lastScanned else 0, true));
    }

    /** Writes in statements of 100 rows; `minted` is None when totalSupply could not be read. */
    method PersistOwnerMap(entries: seq<(int, Option<Address>)>, minted: Option<nat>)
      modifies this
      ensures rows == UpsertAll(old(rows), KeptOwners(entries))
      ensures cursor == (if minted.Some? && 0 < minted.value <= KeptCount(entries) && entries != []
                         then Completed(old(cursor)) else old(cursor))
    {
      if |entries| == 0 {
        assert rows == UpsertAll(old(rows), map[]);
        return;
      }
      var kept := Keep(entries);
      if |kept| == 0 {
        assert rows == UpsertAll(old(rows), map[]);
        return;
      }
      var i := 0;
      assert rows == UpsertAll(rows, map[]);
      while i < |kept|
        invariant 0 <= i <= |kept| && cursor == old(cursor)
        invariant rows == UpsertAll(old(rows), AsMap(kept[..i]))
      {
        var next := if i + 100 <= |kept| then i + 100 else |kept|;
        AsMapJoins(kept, i, next);
        UpsertTwice(old(rows), AsMap(kept[..i]), AsMap(kept[i..next]));
        rows := UpsertAll(rows, AsMap(kept[i..next]));
        i := next;
      }
      assert kept[..i] == kept;
      if minted.Some? && minted.value > 0 && |kept| >= minted.value {
        MarkBackfillComplete();
      }
    }

    /** Ids the wallet holds, ascending. */
    method GetTokenIdsByOwner(owner: Address) returns (ids: seq<nat>)
      ensures Ascending(ids)
      ensures forall t :: t in ids <==> Visible(rows, t) == Some(owner)
    {
      ids := [];
      var left := rows.Keys;
      while left != {}
        invariant left <= rows.Keys && Ascending(ids)
        invariant forall t :: t in ids <==> t !in left && Visible(rows, t) == Some(owner)
        decreases |left|
      {
        var t :| t in left;
        left := left - {t};
        if rows[t].owner == Some(owner) && rows[t].burnedAt.None? && t > 0 {
          InsertIdAscends(t, ids);
          ids := InsertId(t, ids);
        }
      }
    }

    /** Wallet to token ids; each visible row appears once, under its owner. */
    method BuildHolderIndex() returns (holders: map<Address, seq<nat>>)
      ensures forall o, t :: (o in holders && t in holders[o]) <==> Visible(rows, t) == Some(o)
      ensures forall o :: o in holders ==> holders[o] != [] && EachOnce(holders[o])
    {
      holders := map[];
      var left := rows.Keys;
      while left != {}
        invariant left <= rows.Keys
        invariant forall o, t :: (o in holders && t in holders[o]) <==> t !in left && Visible(rows, t) == Some(o)
        invariant forall o :: o in holders ==> holders[o] != [] && EachOnce(holders[o])
        decreases |left|
      {
        var t :| t in left;
        left := left - {t};
        if rows[t].owner.Some? && rows[t].burnedAt.None? && t > 0 {
          var o := rows[t].owner.value;
          var list := if o in holders then holders[o] else [];
          AppendOnce(list, t);
          holders := holders[o := list + [t]];
        }
      }
    }

    ghost predicate At(s: State, run: seq<Action>, cur: State)
      reads this
    {
      IsRun(cfg, s, run) && ReplayOnly(run) && cur == After(cfg, s, run) &&
      cur.rows == rows && cur.cursor == cursor && cur.log == s.log && cur.head == s.head
    }

    /** Per-event writes of one chunk, then the cursor save; `ok` is false when one of them threw. */
    method WriteBatch(ghost s: State, ghost cur0: State, ghost run0: seq<Action>, batch: seq<Transfer>,
                      before: nat, clock: nat -> int, awaits: nat)
      returns (ok: bool, done: nat, left: nat, ghost cur: State, ghost run: seq<Action>)
      requires At(s, run0, cur0) && Writes(run0) == before
      requires cur0.pass.Writing? && cur0.pass.batch == batch && cur0.pass.done == 0
      modifies this`rows
      ensures At(s, run, cur) && cur.scans == cur0.scans
      ensures cur.pass == cur0.pass.(done := done) && done <= |batch| && (ok ==> done == |batch|)
      ensures Writes(run) == before + done
      ensures Awaits(run) + left + (if ok then 1 else 0) == Awaits(run0) + awaits && (!ok ==> left == 0)
    {
      cur, run, left, done := cur0, run0, awaits, 0;
      while done < |batch|
        invariant 0 <= done <= |batch| && At(s, run, cur) && Writes(run) == before + done
        invariant cur.pass == cur0.pass.(done := done) && cur.scans == cur0.scans
        invariant Awaits(run) + left == Awaits(run0) + awaits
      {
        if left == 0 {
          return false, done, left, cur, run;
        }
        left := left - 1;
        var now := clock(before + done);
        RecordTransfer(batch[done], now);
        cur, run := Extend(cfg, s, cur, run, Write(now));
        done := done + 1;
      }
      if left == 0 {
        return false, done, left, cur, run;
      }
      left, ok := left - 1, true;
    }

    /** The next chunk of the pass is `start`..`end`, and the node answers for it. */
    ghost predicate NextChunk(cur: State, provider: (nat, nat) -> seq<Transfer>, start: nat, end: nat)
      reads this
    {
      cur.pass.Between? && start == cur.pass.next && end == ChunkEnd(cfg, start, cur.pass.latest) &&
      Enabled(cfg, cur, Fetch(provider(start, end)))
    }

    /** Read a chunk's logs and write them in chain order; `ok` is false when an await threw. */
    method WriteChunk(ghost s: State, ghost cur0: State, ghost run0: seq<Action>,
                      provider: (nat, nat) -> seq<Transfer>, start: nat, end: nat,
                      before: nat, clock: nat -> int, awaits: nat)
      returns (ok: bool, written: nat, left: nat, ghost cur: State, ghost run: seq<Action>)
      requires At(s, run0, cur0) && Writes(run0) == before && NextChunk(cur0, provider, start, end)
      modifies this`rows
      ensures At(s, run, cur) && Writes(run) == before + written && !cur.pass.Idle?
      ensures ok ==> var fetched := Next(cfg, cur0, Fetch(provider(start, end))).pass;
                     fetched.Writing? && cur.pass == fetched.(done := |fetched.batch|) && cur.scans != [] &&
                     written == |fetched.batch|
      ensures Awaits(run) + left + (if ok then 1 else 0) == Awaits(run0) + awaits && (!ok ==> left == 0)
    {
      cur, run, left, written, ok := cur0, run0, awaits, 0, false;
      if left > 0 {
        var logs := provider(start, end);
        cur, run := Extend(cfg, s, cur, run, Fetch(logs));
        var batch := Sort(Positive(logs));
        ok, written, left, cur, run := WriteBatch(s, cur, run, batch, before, clock, left - 1);
      }
    }

    /** One chunk: read its logs, write them in chain order, save the cursor. A throw drops the pass. */
    method ReplayChunk(ghost s: State, ghost cur0: State, ghost run0: seq<Action>,
                       provider: (nat, nat) -> seq<Transfer>, start: nat, end: nat, snapshot: bool,
                       before: nat, clock: nat -> int, awaits: nat)
      returns (ok: bool, written: nat, left: nat, ghost cur: State, ghost run: seq<Action>)
      requires At(s, run0, cur0) && Writes(run0) == before && NextChunk(cur0, provider, start, end)
      requires snapshot == cur0.pass.snapshot
      modifies this
      ensures At(s, run, cur) && Writes(run) == before + written
      ensures if ok then
                cur.pass == Between(cur0.pass.latest, end + 1, cur0.pass.blocks + (end + 1 - cur0.pass.next),
                                    cur0.pass.maxBlocks, cur0.pass.snapshot) &&
                cursor == Some(Cursor(end, cur0.pass.snapshot))
              else cur.pass.Idle? && cursor == old(cursor)
      ensures ok && WellFormed(s.log) ==> written == |EventsIn(s.log, start, end)|
      ensures Awaits(run) + left == Awaits(run0) + awaits && (!ok ==> left == 0)
    {
      ok, written, left, cur, run := WriteChunk(s, cur0, run0, provider, start, end, before, clock, awaits);
      if !ok {
        cur, run := Extend(cfg, s, cur, run, Crash);
        return;
      }
      AnswerCount(s.log, start, end, provider(start, end));
      cursor := Some(Cursor(end, snapshot));
      cur, run := Extend(cfg, s, cur, run, Save);
    }

    /** After the last chunk: compare owned rows with totalSupply and mark the index ready. */
    method FinishPass(ghost s: State, ghost cur0: State, ghost run0: seq<Action>,
                      minted: nat, caughtUp: bool, transfers: nat, left: nat)
      returns (ok: bool, ghost cur: State, ghost run: seq<Action>)
      requires At(s, run0, cur0) && Enabled(cfg, cur0, Finish)
      modifies this`cursor
      ensures At(s, run, cur) && cur.pass.Idle? && Writes(run) == Writes(run0) && Awaits(run) == Awaits(run0)
      ensures ok <==> left > 0
      ensures cursor == old(cursor) || cursor == Completed(old(cursor))
      ensures ok && old(cursor).Some? ==>
                (cursor.value.complete <==>
                 old(cursor).value.complete || 0 < minted <= LiveOwners(rows) ||
                 (caughtUp && transfers == 0 == LiveOwners(rows) == minted))
    {
      cur, run := Extend(cfg, s, cur0, run0, Finish);
      ok := left > 0;
      if ok {
        var live := LiveOwners(rows);
        if minted > 0 && live >= minted {
          MarkBackfillComplete();
          cur, run := Extend(cfg, s, cur, run, MarkComplete);
        } else if caughtUp && transfers == 0 && live == 0 && minted == 0 {
          MarkBackfillComplete();
          cur, run := Extend(cfg, s, cur, run, MarkComplete);
        }
      }
    }

    /** The chunk loop: up to `maxBlocks` blocks, a whole chunk at a time, saving the cursor after each. */
    method ReplayBlocks(ghost s: State, ghost cur0: State, ghost run0: seq<Action>,
                        provider: (nat, nat) -> seq<Transfer>, from: nat, latest: nat,
                        maxBlocks: nat, snapshot: bool, clock: nat -> int, awaits: nat)
      returns (ok: bool, transfers: nat, blocks: nat, left: nat, ghost cur: State, ghost run: seq<Action>)
      requires cfg.Valid() && At(s, run0, cur0) && 0 < from <= latest && maxBlocks > 0
      requires Writes(run0) == 0 == Awaits(run0)
      requires cur0.pass == Between(latest, from, 0, maxBlocks, snapshot)
      requires forall a: nat, b: nat :: a <= b <= latest ==> Answers(s.log, a, b, provider(a, b))
      modifies this
      ensures At(s, run, cur) && Writes(run) >= transfers
      ensures blocks <= maxBlocks + cfg.chunk - 1 && from + blocks <= latest + 1
      ensures cursor == if blocks == 0 then old(cursor) else Some(Cursor(from + blocks - 1, snapshot))
      ensures if ok then
                cur.pass == Between(latest, from + blocks, blocks, maxBlocks, snapshot) && Writes(run) == transfers &&
                (from + blocks == latest + 1 || blocks >= maxBlocks)
              else cur.pass.Idle?
      ensures ok && WellFormed(s.log) ==> transfers == |EventsIn(s.log, from, from + blocks - 1)|
      ensures Awaits(run) + left == awaits && (!ok ==> left == 0)
    {
      cur, run, left, transfers, blocks, ok := cur0, run0, awaits, 0, 0, true;
      var start := from;
      while start <= latest && blocks < maxBlocks
        invariant At(s, run, cur) && Writes(run) == transfers
        invariant cur.pass == Between(latest, from + blocks, blocks, maxBlocks, snapshot)
        invariant from + blocks <= latest + 1
        invariant start == from + blocks || (from + blocks == latest + 1 && start > latest)
        invariant blocks <= maxBlocks + cfg.chunk - 1
        invariant cursor == if blocks == 0 then old(cursor) else Some(Cursor(from + blocks - 1, snapshot))
        invariant WellFormed(s.log) ==> transfers == |EventsIn(s.log, from, from + blocks - 1)|
        invariant Awaits(run) + left == awaits
        decreases latest + 1 - start
      {
        var end := if start + cfg.chunk - 1 <= latest then start + cfg.chunk - 1 else latest;
        var written;
        ok, written, left, cur, run := ReplayChunk(s, cur, run, provider, start, end, snapshot, transfers, clock, left);
        if !ok {
          return;
        }
        EventsJoin(s.log, from, start - 1, end);
        transfers, blocks := transfers + written, blocks + (end - start + 1);
        start := start + cfg.chunk;
      }
    }

    /** The chunks of the pass from block `from` on; with no other writer the rows then are ownership at `last`. */
    method ReplayFrom(ghost s: State, provider: (nat, nat) -> seq<Transfer>, from: nat, latest: nat, maxBlocks: nat,
                      snapshot: bool, clock: nat -> int, awaits: nat)
      returns (ok: bool, transfers: nat, last: nat, left: nat, ghost cur: State, ghost run: seq<Action>)
      requires cfg.Valid() && s.pass.Idle? && s.rows == rows && s.cursor == cursor && s.head == latest && maxBlocks > 0
      requires from == Resume(cfg, cursor) <= latest && snapshot == (cursor.Some? && cursor.value.complete)
      requires forall a: nat, b: nat :: a <= b <= latest ==> Answers(s.log, a, b, provider(a, b))
      modifies this
      ensures At(s, run, cur) && Resume(cfg, cursor) == last + 1 && from <= last + 1 <= latest + 1
      ensures last + 1 - from <= maxBlocks + cfg.chunk - 1 && Awaits(run) + left == awaits
      ensures if ok then
                Enabled(cfg, cur, Finish) && from <= last && (last == latest || last + 1 - from >= maxBlocks) &&
                Writes(run) == transfers && cursor == Some(Cursor(last, snapshot))
              else cur.pass.Idle? && left == 0
      ensures ok && FromStart(cfg, s) ==>
                LiveOwners(rows) == |OwnedAt(s.log, last)| && transfers == |EventsIn(s.log, from, last)|
    {
      cur, run := Extend(cfg, s, s, [], StartPass(maxBlocks));
      var blocks;
      ok, transfers, blocks, left, cur, run :=
        ReplayBlocks(s, cur, run, provider, from, latest, maxBlocks, snapshot, clock, awaits);
      last := from + blocks - 1;
      if ok {
        CountsOnChain(cfg, s, run, cur, last);
      }
    }

    /**
     One capped pass over Transfer logs. Every path, including a throw at any
     await, is a run of the step machine, and a pass fails exactly when it has used
     up the awaits that succeed; a completed pass reaches the head or
     scans at least `maxBlocks` blocks, and never `chunk` or more beyond that. With no
     other writer it marks the index ready by the tokens owned at its last block.
     */
    method BackfillFromTransferLogs(ghost s: State, provider: (nat, nat) -> seq<Transfer>, latest: nat,
                                    maxBlocks: nat, minted: nat, clock: nat -> int, awaits: nat)
      returns (outcome: Result<PassResult, Thrown>, ghost run: seq<Action>)
      requires cfg.Valid() && s.pass.Idle? && s.rows == rows && s.cursor == cursor && s.head == latest && maxBlocks > 0
      requires forall a: nat, b: nat :: a <= b <= latest ==> Answers(s.log, a, b, provider(a, b))
      modifies this
      ensures IsRun(cfg, s, run) && ReplayOnly(run)
      ensures var end := After(cfg, s, run);
              end.pass.Idle? && end.rows == rows && end.cursor == cursor && end.log == s.log && end.head == latest
      ensures var from, upTo := Resume(cfg, old(cursor)), Resume(cfg, cursor);
              from <= upTo && (from <= latest ==> upTo <= latest + 1 && upTo - from <= maxBlocks + cfg.chunk - 1)
      ensures outcome.Ok? <==> Resume(cfg, old(cursor)) > latest || Awaits(run) < awaits
      ensures Awaits(run) <= awaits
      ensures outcome.Ok? ==> Advances(maxBlocks, latest, Resume(cfg, old(cursor)), Resume(cfg, cursor))
      ensures outcome.Ok? ==>
                var from, upTo := Resume(cfg, old(cursor)), Resume(cfg, cursor);
                if from > latest then
                  run == [] && outcome.value == PassResult(0, latest)
                else
                  outcome.value == PassResult(Writes(run), upTo - 1) && cursor.Some? &&
                  (cursor.value.complete <==>
                   (old(cursor).Some? && old(cursor).value.complete) || 0 < minted <= LiveOwners(rows) ||
                   (upTo == latest + 1 && Writes(run) == 0 == LiveOwners(rows) == minted))
      ensures outcome.Ok? && FromStart(cfg, s) && Resume(cfg, old(cursor)) <= latest ==>
                var from, last := Resume(cfg, old(cursor)), outcome.value.lastBlock;
                var owned, ready := |OwnedAt(s.log, last)|, old(cursor).Some? && old(cursor).value.complete;
                outcome.value.transfers == |EventsIn(s.log, from, last)| && cursor.Some? &&
                (0 < minted <= owned ==> cursor.value.complete) &&
                (owned < minted ==> cursor.value.complete == ready) &&
                (minted == 0 ==> (cursor.value.complete <==>
                                  ready || (last == latest && owned == 0 == outcome.value.transfers)))
    {
      run := [];
      var from := if cursor.Some? && cursor.value.lastScanned >= cfg.deployBlock
        then cursor.value.lastScanned + 1 else cfg.deployBlock;
      if from > latest {
        return Ok(PassResult(0, latest)), run;
      }
      var snapshot := cursor.Some? && cursor.value.complete;
      var ok, transfers, last, left;
      ghost var cur;
      ok, transfers, last, left, cur, run :=
        ReplayFrom(s, provider, from, latest, maxBlocks, snapshot, clock, awaits);
      if ok {
        ok, cur, run := FinishPass(s, cur, run, minted, last >= latest, transfers, left);
      }
      outcome := if ok then Ok(PassResult(transfers, last)) else Err(Thrown);
    }
  }
}
