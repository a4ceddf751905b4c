/**
 The specification the owner index is checked against: who owns a token at a
 block, as the `Transfer` event of ERC-721 (Specification section) defines it.
 An address is the number its hexadecimal text denotes.
 */
module Erc721 {
  import opened Wrappers

  type Address = nat

  const ZERO: Address := 0

  datatype Transfer = Transfer(block: nat, index: nat, from: Address, to: Address, tokenId: nat)

  /** Chain order: block number, then log index within the block. */
  predicate Before(a: Transfer, b: Transfer) {
    a.block < b.block || (a.block == b.block && a.index < b.index)
  }

  ghost predicate Ordered(log: seq<Transfer>) {
    forall i, j :: 0 <= i < j < |log| ==> Before(log[i], log[j])
  }

  ghost predicate BurnsAreFinal(log: seq<Transfer>) {
    forall i, j :: 0 <= i < j < |log| && log[i].tokenId == log[j].tokenId ==> log[i].to != ZERO
  }

  /** A final log: in chain order, and nothing follows a token's burn. */
  ghost predicate WellFormed(log: seq<Transfer>) {
    Ordered(log) && BurnsAreFinal(log)
  }

  function Effect(e: Transfer): Option<Address> {
    if e.to == ZERO then None else Some(e.to)
  }

  predicate Concerns(e: Transfer, b: int, t: nat) {
    e.tokenId == t && e.block <= b
  }

  /** Owner of token `t` once every event up to and including block `b` has happened. */
  function OwnerAt(log: seq<Transfer>, b: int, t: nat): Option<Address> {
    if log == [] then None
    else if Concerns(log[|log| - 1], b, t) then Effect(log[|log| - 1])
    else OwnerAt(log[..|log| - 1], b, t)
  }

  /** No event of `t` lies in the blocks above `lo` up to `hi`. */
  ghost predicate Quiet(log: seq<Transfer>, lo: int, hi: int, t: nat) {
    forall i :: 0 <= i < |log| && log[i].tokenId == t && lo < log[i].block ==> hi < log[i].block
  }

  ghost predicate IsLast(log: seq<Transfer>, b: int, t: nat, i: nat) {
    i < |log| && Concerns(log[i], b, t) && forall k :: i < k < |log| ==> !Concerns(log[k], b, t)
  }

  /** The owner is decided by the last event of the token up to the block. */
  lemma {:induction false} OwnerIsLastEffect(log: seq<Transfer>, b: int, t: nat, i: nat)
    requires IsLast(log, b, t, i)
    ensures OwnerAt(log, b, t) == Effect(log[i])
  {
    if i < |log| - 1 {
      OwnerIsLastEffect(log[..|log| - 1], b, t, i);
    }
  }

  lemma {:induction false} NoEventNoOwner(log: seq<Transfer>, b: int, t: nat)
    requires forall k :: 0 <= k < |log| ==> !Concerns(log[k], b, t)
    ensures OwnerAt(log, b, t) == None
  {
    if log == [] {
    } else {
      NoEventNoOwner(log[..|log| - 1], b, t);
    }
  }

  lemma {:induction false} LastEventExists(log: seq<Transfer>, b: int, t: nat, i: nat) returns (last: nat)
    requires i < |log| && Concerns(log[i], b, t)
    ensures i <= last && IsLast(log, b, t, last)
  {
    last := i;
    var k := i;
    while k < |log|
      invariant i <= last < |log| && last <= k <= |log| && Concerns(log[last], b, t)
      invariant forall m :: last < m < k ==> !Concerns(log[m], b, t)
    {
      if Concerns(log[k], b, t) {
        last := k;
      }
      k := k + 1;
    }
  }

  /** Ownership does not move over blocks in which the token is quiet. */
  lemma {:induction false} QuietKeepsOwner(log: seq<Transfer>, lo: int, hi: int, t: nat)
    requires lo <= hi && Quiet(log, lo, hi, t)
    ensures OwnerAt(log, lo, t) == OwnerAt(log, hi, t)
  {
    if log == [] {
    } else {
      var front := log[..|log| - 1];
      assert Quiet(front, lo, hi, t) by {
        forall i | 0 <= i < |front| && front[i].tokenId == t && lo < front[i].block
          ensures hi < front[i].block
        {
          assert front[i] == log[i];
        }
      }
      QuietKeepsOwner(front, lo, hi, t);
      assert log[|log| - 1].tokenId == t && lo < log[|log| - 1].block ==> hi < log[|log| - 1].block;
    }
  }

  /** Blocks mined later do not rewrite ownership at an earlier block. */
  lemma {:induction false} GrowthKeepsOwner(log: seq<Transfer>, more: seq<Transfer>, b: int, t: nat)
    requires forall e :: e in more ==> b < e.block
    ensures OwnerAt(log + more, b, t) == OwnerAt(log, b, t)
  {
    if more == [] {
      assert log + more == log;
    } else {
      var shorter := more[..|more| - 1];
      assert (log + more)[..|log + more| - 1] == log + shorter;
      assert more[|more| - 1] in more;
      GrowthKeepsOwner(log, shorter, b, t);
    }
  }

  /** A burn inside the window is the last word on the token: nobody owns it. */
  lemma BurnedHasNoOwner(log: seq<Transfer>, b: int, t: nat, i: nat)
    requires BurnsAreFinal(log) && i < |log| && Concerns(log[i], b, t) && log[i].to == ZERO
    ensures OwnerAt(log, b, t) == None
  {
    var last := LastEventExists(log, b, t, i);
    assert last == i;
    OwnerIsLastEffect(log, b, t, i);
  }
}
