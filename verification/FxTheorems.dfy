/** What the published exchange rates guarantee over any run of any number of processes. */
module FxTheorems {
  import opened Wrappers
  import opened FxSnapshot
  import opened FxService

  /** `log` remembers every committed payload; nothing in the system reads it. */
  datatype State = State(table: seq<StoredRow>, memories: map<nat, Memory>, log: seq<Entry>)

  datatype Action =
    | Load(proc: nat, found: Option<Snapshot>)
    | Refresh(proc: nat, parsed: Parsed, vnd: Option<Vnd>, now: int, survives: bool)
    | Restart(proc: nat)

  ghost predicate Enabled(codes: seq<string>, s: State, a: Action) {
    a.proc in s.memories &&
    match a
    case Load(_, found) => IsPublishable(codes, s.table, found)
    case Refresh(_, parsed, _, _, _) => Covers(codes, parsed)
    case Restart(_) => true
  }

  ghost function Next(codes: seq<string>, s: State, a: Action): State
    requires Enabled(codes, s, a)
  {
    var mem := s.memories[a.proc];
    match a
    case Load(p, found) => s.(memories := s.memories[p := Loaded(mem, found, s.table)])
    case Refresh(p, parsed, vnd, now, survives) =>
      if Unchanged(codes, mem, parsed, vnd) || !AllFit(codes, parsed, vnd) then s
      else State(Commit(s.table, codes, parsed, vnd, now),
                 s.memories[p := if survives then Published(mem, parsed, vnd, now) else Empty],
                 s.log + [Entry(parsed, now)])
    case Restart(p) => s.(memories := s.memories[p := Empty])
  }

  /** Every listed quote in memory comes from this one payload, all as quoted or all as stored. */
  ghost predicate IsFrom(codes: seq<string>, mem: Memory, e: Entry) {
    mem.Live? && mem.date == e.parsed.date && mem.fetchedAt == e.now && Covers(codes, e.parsed) &&
    (forall c :: c in codes ==> c in mem.rates && Fits(e.parsed.rates[c])) &&
    ((forall c :: c in codes ==> mem.rates[c] == e.parsed.rates[c]) ||
     (forall c :: c in codes ==> mem.rates[c] == Stored(e.parsed.rates[c])))
  }

  ghost predicate Sourced(codes: seq<string>, mem: Memory, log: seq<Entry>) {
    mem.Empty? || exists e :: e in log && IsFrom(codes, mem, e)
  }

  ghost predicate Inv(codes: seq<string>, s: State) {
    (if s.log == [] then forall row :: row in s.table ==> row.currency !in codes
     else Holds(codes, s.table, s.log[|s.log| - 1])) &&
    forall p :: p in s.memories ==> Sourced(codes, s.memories[p], s.log)
  }

  lemma LoadGivesLast(codes: seq<string>, s: State, p: nat, found: Option<Snapshot>)
    requires Listed(codes) && Inv(codes, s) && Enabled(codes, s, Load(p, found))
    ensures s.log == [] ==> found.None?
    ensures s.log != [] ==> found.Some? && IsFrom(codes, Loaded(s.memories[p], found, s.table), s.log[|s.log| - 1])
  {
    if s.log == [] {
      assert forall d: nat :: !Complete(codes, s.table, d);
    } else {
      HeldTableIsPublishable(codes, s.table, s.log[|s.log| - 1], found);
    }
  }

  lemma RefreshGivesItsPayload(codes: seq<string>, mem: Memory, parsed: Parsed, vnd: Option<Vnd>, now: int)
    requires Listed(codes) && Covers(codes, parsed) && AllFit(codes, parsed, vnd)
    ensures IsFrom(codes, Published(mem, parsed, vnd, now), Entry(parsed, now))
  {
  }

  lemma StepKeeps(codes: seq<string>, s: State, a: Action)
    requires Listed(codes) && Inv(codes, s) && Enabled(codes, s, a)
    ensures Inv(codes, Next(codes, s, a))
  {
    var s' := Next(codes, s, a);
    if a.Load? {
      LoadGivesLast(codes, s, a.proc, a.found);
    } else if a.Refresh? && s'.log != s.log {
      var e := Entry(a.parsed, a.now);
      CommitHolds(s.table, codes, a.parsed, a.vnd, a.now);
      RefreshGivesItsPayload(codes, s.memories[a.proc], a.parsed, a.vnd, a.now);
      assert e in s'.log;
      forall p | p in s'.memories ensures Sourced(codes, s'.memories[p], s'.log) {
        if p != a.proc && s.memories[p].Live? {
          var o :| o in s.log && IsFrom(codes, s.memories[p], o);
          assert o in s'.log;
        }
      }
    }
  }

  ghost predicate IsRun(codes: seq<string>, s: State, run: seq<Action>)
    decreases |run|
  {
    run != [] ==> Enabled(codes, s, run[0]) && IsRun(codes, Next(codes, s, run[0]), run[1..])
  }

  ghost function After(codes: seq<string>, s: State, run: seq<Action>): State
    requires IsRun(codes, s, run)
    decreases |run|
  {
    if run == [] then s else After(codes, Next(codes, s, run[0]), run[1..])
  }

  lemma {:induction false} RunKeeps(codes: seq<string>, s: State, run: seq<Action>)
    requires Listed(codes) && Inv(codes, s) && IsRun(codes, s, run)
    ensures Inv(codes, After(codes, s, run))
    decreases |run|
  {
    if run == [] {
    } else {
      StepKeeps(codes, s, run[0]);
      RunKeeps(codes, Next(codes, s, run[0]), run[1..]);
    }
  }

  predicate Initial(s: State) {
    s.table == [] && s.log == [] && forall p :: p in s.memories ==> s.memories[p] == Empty
  }

  /**
   No process ever shows a partial or mixed snapshot: its memory is empty, or holds
   every listed currency at a positive rate, all from one payload of one date.
   */
  lemma MemoryIsNeverPartial(codes: seq<string>, s: State, run: seq<Action>, p: nat)
    requires Listed(codes) && Initial(s) && IsRun(codes, s, run) && p in After(codes, s, run).memories
    ensures var end := After(codes, s, run);
            var mem := end.memories[p];
            mem == Empty ||
            ((exists e :: e in end.log && IsFrom(codes, mem, e)) &&
             forall c :: c in codes ==> c in mem.rates && mem.rates[c] > 0.0)
  {
    RunKeeps(codes, s, run);
    var end := After(codes, s, run);
    if end.memories[p].Live? {
      var e :| e in end.log && IsFrom(codes, end.memories[p], e);
      forall c | c in codes ensures end.memories[p].rates[c] > 0.0 {
        FitsIff(e.parsed.rates[c]);
        assert Fits(e.parsed.rates[c]);
      }
    }
  }

  lemma LoadedIsLast(codes: seq<string>, s: State, p: nat, found: Option<Snapshot>)
    requires Listed(codes) && Inv(codes, s) && Enabled(codes, s, Load(p, found)) && s.log != []
    ensures var mem, last := Next(codes, s, Load(p, found)).memories[p], s.log[|s.log| - 1];
            IsFrom(codes, mem, last) && CloseTo(codes, mem, last.parsed)
  {
    LoadGivesLast(codes, s, p, found);
    FromIsClose(codes, Loaded(s.memories[p], found, s.table), s.log[|s.log| - 1]);
  }

  /** A process that loads after any peer's refresh always gets the last committed payload, never its own old copy. */
  lemma LoadFollowsThePeer(codes: seq<string>, s: State, run: seq<Action>, p: nat, found: Option<Snapshot>)
    requires Listed(codes) && Initial(s) && IsRun(codes, s, run)
    requires Enabled(codes, After(codes, s, run), Load(p, found))
    ensures var end := After(codes, s, run);
            end.log != [] ==>
              IsFrom(codes, Next(codes, end, Load(p, found)).memories[p], end.log[|end.log| - 1]) &&
              CloseTo(codes, Next(codes, end, Load(p, found)).memories[p], end.log[|end.log| - 1].parsed)
  {
    RunKeeps(codes, s, run);
    if After(codes, s, run).log != [] {
      LoadedIsLast(codes, After(codes, s, run), p, found);
    }
  }

  lemma FromIsClose(codes: seq<string>, mem: Memory, e: Entry)
    requires IsFrom(codes, mem, e)
    ensures CloseTo(codes, mem, e.parsed)
  {
    forall c | c in codes ensures -0.000000005 <= mem.rates[c] - e.parsed.rates[c] <= 0.000000005 {
      StoredIsNear(e.parsed.rates[c]);
    }
  }

  /** Every listed rate in memory is the quoted one to half a unit of the eighth decimal. */
  ghost predicate CloseTo(codes: seq<string>, mem: Memory, parsed: Parsed) {
    mem.Live? && forall c :: c in codes ==>
      c in mem.rates && c in parsed.rates && -0.000000005 <= mem.rates[c] - parsed.rates[c] <= 0.000000005
  }

  /** The same payload again changes nothing in the process that stored it. */
  lemma RepeatIsUnchanged(codes: seq<string>, mem: Memory, parsed: Parsed, vnd: Option<Vnd>, now: int)
    requires Listed(codes) && Covers(codes, parsed)
    ensures Unchanged(codes, Published(mem, parsed, vnd, now), parsed, vnd)
  {
  }

  lemma {:induction false} VndRowIsFound(table: seq<StoredRow>, row: StoredRow)
    requires forall r :: r in table ==> r.currency != "VND"
    requires row.currency == "VND" && row.rate.Some? && row.rate.value > 0.0
    ensures SupplementaryVndRate(table + [row]) == row.rate
  {
    if table == [] {
    } else {
      assert table[0] in table && (table + [row])[1..] == table[1..] + [row];
      VndRowIsFound(table[1..], row);
    }
  }

  lemma CommittedDong(table: seq<StoredRow>, codes: seq<string>, parsed: Parsed, vnd: Vnd, now: int)
    requires Covers(codes, parsed) && AllFit(codes, parsed, Some(vnd))
    ensures SupplementaryVndRate(Commit(table, codes, parsed, Some(vnd), now)) == Some(Stored(vnd.rate))
  {
    var saved := SaveCodes(table, codes, parsed, now);
    WithoutKeepsOthers(saved, "VND");
    VndRowIsFound(Without(saved, "VND"), StoredRow("VND", Some(Stored(vnd.rate)), Some(vnd.date), now));
  }

  /**
   In a process that read the committed table back, the same refresh counts as
   unchanged exactly when no listed rate, and no dong rate it brought, has more than
   eight decimals.
   */
  lemma RepeatAfterReloadIff(codes: seq<string>, before: seq<StoredRow>, parsed: Parsed, vnd: Option<Vnd>, now: int,
                             mem: Memory, found: Option<Snapshot>)
    requires Listed(codes) && Covers(codes, parsed) && AllFit(codes, parsed, vnd)
    requires IsPublishable(codes, Commit(before, codes, parsed, vnd, now), found)
    ensures Unchanged(codes, Loaded(mem, found, Commit(before, codes, parsed, vnd, now)), parsed, vnd) <==>
            (forall c :: c in codes ==> Stored(parsed.rates[c]) == parsed.rates[c]) &&
            (vnd.Some? ==> Stored(vnd.value.rate) == vnd.value.rate)
  {
    var table := Commit(before, codes, parsed, vnd, now);
    ReloadedRates(codes, before, parsed, vnd, now, mem, found);
    UnchangedIff(codes, Loaded(mem, found, table), parsed, vnd);
  }

  /** Memory holds the payload's rates as stored. */
  ghost predicate AsStored(codes: seq<string>, mem: Memory, parsed: Parsed, vnd: Option<Vnd>) {
    mem.Live? && mem.date == parsed.date && Covers(codes, parsed) &&
    (forall c :: c in codes ==> c in mem.rates && mem.rates[c] == Stored(parsed.rates[c])) &&
    (vnd.Some? ==> "VND" in mem.rates && mem.rates["VND"] == Stored(vnd.value.rate))
  }

  lemma UnchangedIff(codes: seq<string>, mem: Memory, parsed: Parsed, vnd: Option<Vnd>)
    requires AsStored(codes, mem, parsed, vnd)
    ensures Unchanged(codes, mem, parsed, vnd) <==>
            (forall c :: c in codes ==> Stored(parsed.rates[c]) == parsed.rates[c]) &&
            (vnd.Some? ==> Stored(vnd.value.rate) == vnd.value.rate)
  {
  }

  lemma ReloadedRates(codes: seq<string>, before: seq<StoredRow>, parsed: Parsed, vnd: Option<Vnd>, now: int,
                      mem: Memory, found: Option<Snapshot>)
    requires Listed(codes) && Covers(codes, parsed) && AllFit(codes, parsed, vnd)
    requires IsPublishable(codes, Commit(before, codes, parsed, vnd, now), found)
    ensures AsStored(codes, Loaded(mem, found, Commit(before, codes, parsed, vnd, now)), parsed, vnd)
  {
    var table := Commit(before, codes, parsed, vnd, now);
    CommitHolds(before, codes, parsed, vnd, now);
    HeldTableIsPublishable(codes, table, Entry(parsed, now), found);
    if vnd.Some? {
      CommittedDong(before, codes, parsed, vnd.value, now);
    }
    LoadedRates(codes, mem, found, table);
  }

  /** Adding the dollar and the dong leaves the listed rates alone. */
  lemma LoadedRates(codes: seq<string>, mem: Memory, found: Option<Snapshot>, table: seq<StoredRow>)
    requires Listed(codes) && found.Some?
    ensures var loaded, dong := Loaded(mem, found, table), SupplementaryVndRate(table);
            loaded.Live? && loaded.date == found.value.date &&
            (forall c :: c in codes && c in found.value.rates ==>
               c in loaded.rates && loaded.rates[c] == found.value.rates[c]) &&
            (dong.Some? ==> "VND" in loaded.rates && loaded.rates["VND"] == dong.value)
  {
  }

  /** The dollar is published at one exactly when the payload does not quote it otherwise. */
  lemma DollarIsOneIff(mem: Memory, parsed: Parsed, vnd: Option<Vnd>, now: int)
    ensures Published(mem, parsed, vnd, now).rates["USD"] == 1.0 <==>
            "USD" in parsed.rates ==> parsed.rates["USD"] == 1.0
  {
    assert "USD"[0] != "VND"[0];
  }
}
