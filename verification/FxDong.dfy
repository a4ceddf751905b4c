/**
 The dong, whose rate is fetched apart and may fail: what memory and table hold of
 it over any run, and when a refresh is skipped.
 */
module FxDong {
  import opened Wrappers
  import opened FxSnapshot
  import opened FxService
  import opened FxTheorems

  function DongIn(mem: Memory): Option<real> {
    if mem.Live? && "VND" in mem.rates then Some(mem.rates["VND"]) else None
  }

  /** A fetched dong is published; without one the last known stays; with neither there is what the payload quotes. */
  lemma PublishedDong(mem: Memory, parsed: Parsed, vnd: Option<Vnd>, now: int)
    ensures DongIn(Published(mem, parsed, vnd, now)) ==
            if vnd.Some? then Some(vnd.value.rate)
            else if DongIn(mem).Some? then DongIn(mem)
            else if "VND" in parsed.rates then Some(parsed.rates["VND"])
            else None
  {
    assert "USD"[0] != "VND"[0];
  }

  /** A refresh is skipped exactly when publishing it would move neither date, nor a listed rate, nor a fetched dong. */
  lemma SkippedIff(codes: seq<string>, mem: Memory, parsed: Parsed, vnd: Option<Vnd>, now: int)
    requires Listed(codes) && Covers(codes, parsed)
    ensures var next := Published(mem, parsed, vnd, now);
            Unchanged(codes, mem, parsed, vnd) <==>
            mem.Live? && mem.date == next.date &&
            (forall c :: c in codes ==> c in mem.rates && mem.rates[c] == next.rates[c]) &&
            (vnd.Some? ==> DongIn(mem) == DongIn(next))
  {
    PublishedDong(mem, parsed, vnd, now);
    PublishedListed(codes, mem, parsed, vnd, now);
  }

  lemma PublishedListed(codes: seq<string>, mem: Memory, parsed: Parsed, vnd: Option<Vnd>, now: int)
    requires Listed(codes) && Covers(codes, parsed)
    ensures forall c :: c in codes ==>
              c in Published(mem, parsed, vnd, now).rates &&
              Published(mem, parsed, vnd, now).rates[c] == parsed.rates[c]
  {
  }

  // ---- In memory, over a run -----------------------------------------------------------------------------

  /** Process `p` neither reads the table nor restarts, and its own dong fetches all fail. */
  ghost predicate NoDongFor(run: seq<Action>, p: nat) {
    forall a :: a in run && a.proc == p ==> a.Refresh? && a.vnd.None? && a.survives
  }

  /** A dong rate once in memory is carried through every later refresh whose dong fetch failed. */
  lemma {:induction false} DongIsCarried(codes: seq<string>, s: State, run: seq<Action>, p: nat)
    requires IsRun(codes, s, run) && NoDongFor(run, p) && p in s.memories && DongIn(s.memories[p]).Some?
    ensures p in After(codes, s, run).memories && DongIn(After(codes, s, run).memories[p]) == DongIn(s.memories[p])
    decreases |run|
  {
    if run == [] {
    } else {
      var a := run[0];
      assert a in run && forall b :: b in run[1..] ==> b in run;
      if a.Refresh? {
        PublishedDong(s.memories[a.proc], a.parsed, a.vnd, a.now);
      }
      DongIsCarried(codes, Next(codes, s, a), run[1..], p);
    }
  }

  // ---- In the table, over a run ----------------------------------------------------------------------------

  predicate HasDong(table: seq<StoredRow>) { exists i :: 0 <= i < |table| && table[i].currency == "VND" }

  lemma {:induction false} DongOfSum(a: seq<StoredRow>, b: seq<StoredRow>)
    ensures SupplementaryVndRate(a + b) == if HasDong(a) then SupplementaryVndRate(a) else SupplementaryVndRate(b)
  {
    if a == [] {
      assert a + b == b;
    } else {
      assert (a + b)[1..] == a[1..] + b;
      DongOfSum(a[1..], b);
      assert HasDong(a) <==> a[0].currency == "VND" || HasDong(a[1..]) by {
        if i :| 0 <= i < |a[1..]| && a[1..][i].currency == "VND" { assert a[i + 1].currency == "VND"; }
        if i :| 0 <= i < |a| && a[i].currency == "VND" {
          if i > 0 { assert a[1..][i - 1].currency == "VND"; }
        }
      }
    }
  }

  lemma {:induction false} WithoutKeepsDong(table: seq<StoredRow>, c: string)
    requires c != "VND"
    ensures HasDong(Without(table, c)) <==> HasDong(table)
    ensures SupplementaryVndRate(Without(table, c)) == SupplementaryVndRate(table)
  {
    if table == [] {
    } else {
      var front, last := table[..|table| - 1], table[|table| - 1];
      assert table == front + [last];
      WithoutKeepsDong(front, c);
      DongOfSum(front, [last]);
      DongOfSum(Without(front, c), [last]);
      if !HasDong(front) {
        NoDongNoRate(front);
        OneRowRate(last);
      }
      assert forall x: seq<StoredRow> :: HasDong(x + [last]) <==> HasDong(x) || last.currency == "VND" by {
        forall x: seq<StoredRow> ensures HasDong(x + [last]) <==> HasDong(x) || last.currency == "VND" {
          if i :| 0 <= i < |x| && x[i].currency == "VND" { assert (x + [last])[i].currency == "VND"; }
          if last.currency == "VND" { assert (x + [last])[|x|].currency == "VND"; }
        }
      }
    }
  }

  lemma OneRowRate(row: StoredRow)
    ensures row.currency != "VND" ==> SupplementaryVndRate([row]) == None
  {
    var none: seq<StoredRow> := [];
    assert [row][1..] == none && SupplementaryVndRate(none) == None;
  }

  lemma SaveKeepsDong(table: seq<StoredRow>, row: StoredRow)
    requires row.currency != "VND"
    ensures SupplementaryVndRate(Save(table, row)) == SupplementaryVndRate(table)
  {
    WithoutKeepsDong(table, row.currency);
    DongOfSum(Without(table, row.currency), [row]);
    OneRowRate(row);
    if !HasDong(table) {
      NoDongNoRate(table);
    }
  }

  lemma {:induction false} NoDongNoRate(table: seq<StoredRow>)
    requires !HasDong(table)
    ensures SupplementaryVndRate(table) == None
  {
    if table == [] {
    } else {
      assert table[0].currency != "VND";
      assert forall i :: 0 <= i < |table[1..]| ==> table[1..][i] == table[i + 1];
      NoDongNoRate(table[1..]);
    }
  }

  lemma {:induction false} SaveCodesKeepsDong(table: seq<StoredRow>, codes: seq<string>, parsed: Parsed, now: int)
    requires Covers(codes, parsed) && "VND" !in codes
    ensures SupplementaryVndRate(SaveCodes(table, codes, parsed, now)) == SupplementaryVndRate(table)
  {
    if codes == [] {
    } else {
      var front, c := codes[..|codes| - 1], codes[|codes| - 1];
      assert c in codes && forall x :: x in front ==> x in codes;
      SaveCodesKeepsDong(table, front, parsed, now);
      SaveKeepsDong(SaveCodes(table, front, parsed, now), RowFor(parsed, c, now));
    }
  }

  ghost predicate Commits(codes: seq<string>, s: State, a: Action)
    requires Enabled(codes, s, a)
  {
    a.Refresh? && !Unchanged(codes, s.memories[a.proc], a.parsed, a.vnd) && AllFit(codes, a.parsed, a.vnd)
  }

  /** The last dong any process committed, as stored; `d` when none has. */
  ghost function LastDong(codes: seq<string>, s: State, run: seq<Action>, d: Option<real>): Option<real>
    requires IsRun(codes, s, run)
    decreases |run|
  {
    if run == [] then d
    else
      var a := run[0];
      LastDong(codes, Next(codes, s, a), run[1..],
               if Commits(codes, s, a) && a.vnd.Some? then Some(Stored(a.vnd.value.rate)) else d)
  }

  lemma {:induction false} TableHoldsLastDong(codes: seq<string>, s: State, run: seq<Action>, d: Option<real>)
    requires Listed(codes) && IsRun(codes, s, run) && SupplementaryVndRate(s.table) == d
    ensures SupplementaryVndRate(After(codes, s, run).table) == LastDong(codes, s, run, d)
    decreases |run|
  {
    if run == [] {
    } else {
      var a := run[0];
      if Commits(codes, s, a) {
        if a.vnd.Some? {
          CommittedDong(s.table, codes, a.parsed, a.vnd.value, a.now);
        } else {
          SaveCodesKeepsDong(s.table, codes, a.parsed, a.now);
        }
      }
      TableHoldsLastDong(codes, Next(codes, s, a), run[1..],
                         if Commits(codes, s, a) && a.vnd.Some? then Some(Stored(a.vnd.value.rate)) else d);
    }
  }

  /** A load after any run shows the dong of the last commit that brought one, whoever made it. */
  lemma LoadedDongIsLast(codes: seq<string>, s: State, run: seq<Action>, p: nat, found: Option<Snapshot>)
    requires Listed(codes) && Initial(s) && IsRun(codes, s, run)
    requires Enabled(codes, After(codes, s, run), Load(p, found)) && found.Some?
    requires LastDong(codes, s, run, None).Some?
    ensures DongIn(Next(codes, After(codes, s, run), Load(p, found)).memories[p]) == LastDong(codes, s, run, None)
  {
    TableHoldsLastDong(codes, s, run, None);
    assert "USD"[0] != "VND"[0];
  }
}
