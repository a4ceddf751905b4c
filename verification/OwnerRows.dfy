/**
 The `rwa_tokens` columns the owner index writes, and its three row statements.
 An upsert moves `owner_wallet` only; a burn is an UPDATE, so it needs the row,
 and keeps the first `burned_at` stamp.
 */
module OwnerRows {
  import opened Wrappers
  import opened Erc721

  datatype Row = Row(owner: Option<Address>, burnedAt: Option<int>)

  type Rows = map<nat, Row>

  function Stamp(rows: Rows, t: nat): Option<int> {
    if t in rows then rows[t].burnedAt else None
  }

  function Upsert(rows: Rows, t: nat, owner: Address): Rows {
    rows[t := Row(Some(owner), Stamp(rows, t))]
  }

  function UpsertAll(rows: Rows, owners: map<nat, Address>): Rows {
    rows + map t | t in owners :: Row(Some(owners[t]), Stamp(rows, t))
  }

  function Burn(rows: Rows, t: nat, now: int): Rows {
    if t !in rows then rows
    else rows[t := Row(None, if rows[t].burnedAt.Some? then rows[t].burnedAt else Some(now))]
  }

  function ApplyTransfer(rows: Rows, e: Transfer, now: int): Rows {
    if e.to == ZERO then Burn(rows, e.tokenId, now) else Upsert(rows, e.tokenId, e.to)
  }

  /** What readers of the index see: ids above zero with an owner and no burn stamp. */
  function Visible(rows: Rows, t: nat): Option<Address> {
    if t > 0 && t in rows && rows[t].burnedAt.None? then rows[t].owner else None
  }

  function Fold(rows: Rows, events: seq<Transfer>, now: int): Rows {
    if events == [] then rows
    else ApplyTransfer(Fold(rows, events[..|events| - 1], now), events[|events| - 1], now)
  }

  // ---- Re-reading a chunk after a crash -----------------------------------

  ghost predicate Touched(events: seq<Transfer>, t: nat) {
    exists i :: 0 <= i < |events| && events[i].tokenId == t
  }

  ghost predicate MovedIn(events: seq<Transfer>, t: nat) {
    exists i :: 0 <= i < |events| && events[i].tokenId == t && events[i].to != ZERO
  }

  ghost predicate BurnedIn(events: seq<Transfer>, t: nat) {
    exists i :: 0 <= i < |events| && events[i].tokenId == t && events[i].to == ZERO
  }

  /** Some burn of `t` comes after an owner write of `t`, so it finds the row whatever was there before. */
  ghost predicate BurnedAfterMove(events: seq<Transfer>, t: nat) {
    exists j :: 0 <= j < |events| && events[j].tokenId == t && events[j].to == ZERO && MovedIn(events[..j], t)
  }

  /** Equal rows up to the time written in a burn stamp, which is NOW() at each write. */
  ghost predicate SameRows(a: Rows, b: Rows) {
    a.Keys == b.Keys &&
    forall t :: t in a ==> a[t].owner == b[t].owner && (a[t].burnedAt.Some? <==> b[t].burnedAt.Some?)
  }

  lemma TouchedStep(events: seq<Transfer>, t: nat)
    requires events != []
    ensures Touched(events, t) <==> Touched(events[..|events| - 1], t) || events[|events| - 1].tokenId == t
    ensures BurnedIn(events, t) <==>
            BurnedIn(events[..|events| - 1], t) ||
            (events[|events| - 1].tokenId == t && events[|events| - 1].to == ZERO)
  {
    var front, last := events[..|events| - 1], events[|events| - 1];
    assert events == front + [last];
    SumHas(front, [last], t);
    assert [last][0] == last;
  }

  /** What a concatenation holds, one of its parts holds. */
  lemma SumHas(a: seq<Transfer>, b: seq<Transfer>, t: nat)
    ensures Touched(a + b, t) <==> Touched(a, t) || Touched(b, t)
    ensures MovedIn(a + b, t) <==> MovedIn(a, t) || MovedIn(b, t)
    ensures BurnedIn(a + b, t) <==> BurnedIn(a, t) || BurnedIn(b, t)
  {
    var ab := a + b;
    forall i | 0 <= i < |a| ensures ab[i] == a[i] {}
    forall i | 0 <= i < |b| ensures ab[|a| + i] == b[i] {}
    forall i | 0 <= i < |ab| ensures if i < |a| then ab[i] == a[i] else ab[i] == b[i - |a|] {}
  }

  lemma MovedStep(front: seq<Transfer>, last: Transfer, t: nat)
    ensures MovedIn(front + [last], t) <==> MovedIn(front, t) || (last.tokenId == t && last.to != ZERO)
    ensures BurnedAfterMove(front + [last], t) <==>
            BurnedAfterMove(front, t) || (last.tokenId == t && last.to == ZERO && MovedIn(front, t))
  {
    var events := front + [last];
    SumHas(front, [last], t);
    assert [last][0] == last;
    forall j | 0 <= j < |front| ensures events[j] == front[j] && events[..j] == front[..j] {}
    assert events[|front|] == last && events[..|front|] == front;
  }

  /** Which rows a fold leaves, and which of them carry a stamp. */
  lemma {:induction false} FoldShape(rows: Rows, events: seq<Transfer>, now: int, t: nat)
    ensures t in Fold(rows, events, now) <==> t in rows || MovedIn(events, t)
    ensures Stamp(Fold(rows, events, now), t).Some? <==>
            Stamp(rows, t).Some? || (t in rows && BurnedIn(events, t)) || BurnedAfterMove(events, t)
  {
    if events == [] {
    } else {
      var front, last := events[..|events| - 1], events[|events| - 1];
      assert events == front + [last];
      FoldShape(rows, front, now, t);
      MovedStep(front, last, t);
      TouchedStep(events, t);
    }
  }

  /** Two folds of the same events leave the same owner in every row they touch. */
  lemma {:induction false} FoldOwner(a: Rows, b: Rows, events: seq<Transfer>, n1: int, n2: int, t: nat)
    requires Touched(events, t) && t in Fold(a, events, n1) && t in Fold(b, events, n2)
    ensures Fold(a, events, n1)[t].owner == Fold(b, events, n2)[t].owner
  {
    TouchedStep(events, t);
    if events[|events| - 1].tokenId != t {
      FoldOwner(a, b, events[..|events| - 1], n1, n2, t);
    }
  }

  lemma {:induction false} FoldUntouched(rows: Rows, events: seq<Transfer>, now: int, t: nat)
    requires !Touched(events, t)
    ensures t in Fold(rows, events, now) <==> t in rows
    ensures t in rows ==> Fold(rows, events, now)[t] == rows[t]
  {
    if events == [] {
    } else {
      TouchedStep(events, t);
      FoldUntouched(rows, events[..|events| - 1], now, t);
    }
  }

  /**
   The first fold loses a burn the second one finds: the token has no row, its
   burns in the chunk all come before its owner writes, and one of those was reached.
   */
  ghost predicate LostBurn(rows: Rows, chunk: seq<Transfer>, k: nat, t: nat)
    requires k <= |chunk|
  {
    t !in rows && MovedIn(chunk[..k], t) && BurnedIn(chunk, t) && !BurnedAfterMove(chunk, t)
  }

  lemma PrefixHas(chunk: seq<Transfer>, k: nat, t: nat)
    requires k <= |chunk|
    ensures MovedIn(chunk[..k], t) ==> MovedIn(chunk, t)
    ensures BurnedIn(chunk[..k], t) ==> BurnedIn(chunk, t)
    ensures Touched(chunk[..k], t) ==> Touched(chunk, t)
    ensures BurnedAfterMove(chunk[..k], t) ==> BurnedAfterMove(chunk, t)
    ensures MovedIn(chunk, t) ==> Touched(chunk, t)
  {
    assert chunk == chunk[..k] + chunk[k..];
    SumHas(chunk[..k], chunk[k..], t);
    if j :| 0 <= j < k && chunk[..k][j].tokenId == t && chunk[..k][j].to == ZERO && MovedIn(chunk[..k][..j], t) {
      assert chunk[..k][..j] == chunk[..j] && chunk[j] == chunk[..k][j];
    }
  }

  /** Re-reading leaves the same row for a token, unless it lost a burn; then only the stamp differs. */
  lemma RefoldOne(rows: Rows, chunk: seq<Transfer>, k: nat, crashed: int, retried: int, t: nat)
    requires k <= |chunk|
    ensures var again, clean := Fold(Fold(rows, chunk[..k], crashed), chunk, retried), Fold(rows, chunk, retried);
            (t in again <==> t in clean) && (t in clean ==> again[t].owner == clean[t].owner) &&
            ((Stamp(again, t).Some? <==> Stamp(clean, t).Some?) <==> !LostBurn(rows, chunk, k, t))
  {
    var part := Fold(rows, chunk[..k], crashed);
    PrefixHas(chunk, k, t);
    FoldShape(rows, chunk[..k], crashed, t);
    FoldShape(part, chunk, retried, t);
    FoldShape(rows, chunk, retried, t);
    if t in Fold(rows, chunk, retried) {
      if Touched(chunk, t) {
        FoldOwner(part, rows, chunk, retried, retried, t);
      } else {
        FoldUntouched(rows, chunk[..k], crashed, t);
        FoldUntouched(part, chunk, retried, t);
        FoldUntouched(rows, chunk, retried, t);
      }
    }
  }

  /**
   For any events at all, in or out of chain order: folding the whole chunk again
   over its first `k` writes gives the rows of one clean fold exactly when no
   token lost a burn.
   */
  lemma RefoldIff(rows: Rows, chunk: seq<Transfer>, k: nat, crashed: int, retried: int)
    requires k <= |chunk|
    ensures SameRows(Fold(Fold(rows, chunk[..k], crashed), chunk, retried), Fold(rows, chunk, retried)) <==>
            forall t :: !LostBurn(rows, chunk, k, t)
  {
    var again, clean := Fold(Fold(rows, chunk[..k], crashed), chunk, retried), Fold(rows, chunk, retried);
    forall t
      ensures t in again <==> t in clean
      ensures t in clean ==> again[t].owner == clean[t].owner
      ensures t in clean && LostBurn(rows, chunk, k, t) ==> !(again[t].burnedAt.Some? <==> clean[t].burnedAt.Some?)
      ensures t in clean && !LostBurn(rows, chunk, k, t) ==> (again[t].burnedAt.Some? <==> clean[t].burnedAt.Some?)
      ensures LostBurn(rows, chunk, k, t) ==> t in clean
    {
      RefoldOne(rows, chunk, k, crashed, retried, t);
      FoldShape(rows, chunk, retried, t);
      PrefixHas(chunk, k, t);
    }
  }

  /**
   A crash after any `k` writes of a chunk is harmless when nothing follows a burn,
   as in every final log: the second fold gives the rows of one clean fold.
   */
  lemma RefoldAfterCrash(rows: Rows, chunk: seq<Transfer>, k: nat, crashed: int, retried: int)
    requires k <= |chunk| && BurnsAreFinal(chunk)
    ensures SameRows(Fold(Fold(rows, chunk[..k], crashed), chunk, retried), Fold(rows, chunk, retried))
  {
    forall t | MovedIn(chunk[..k], t) && BurnedIn(chunk, t) ensures BurnedAfterMove(chunk, t) {
      var i :| 0 <= i < k && chunk[..k][i].tokenId == t && chunk[..k][i].to != ZERO;
      var j :| 0 <= j < |chunk| && chunk[j].tokenId == t && chunk[j].to == ZERO;
      assert chunk[i].tokenId == t && chunk[i].to != ZERO;
      assert i < j;
      assert chunk[..j][i] == chunk[i];
    }
    RefoldIff(rows, chunk, k, crashed, retried);
  }
}
