/**
 The per-chunk batch sort: log rows arrive from the RPC node in any order and
 are put back into chain order by block number and log index.
 */
module EventOrder {
  import opened Erc721

  function Insert(e: Transfer, sorted: seq<Transfer>): seq<Transfer> {
    if sorted == [] || !Before(sorted[0], e) then [e] + sorted
    else [sorted[0]] + Insert(e, sorted[1..])
  }

  function Sort(batch: seq<Transfer>): seq<Transfer> {
    if batch == [] then [] else Insert(batch[0], Sort(batch[1..]))
  }

  /** Token ids the index keeps: `tokenId <= 0` rows are skipped. */
  function Positive(reply: seq<Transfer>): seq<Transfer> {
    if reply == [] then []
    else (if reply[0].tokenId > 0 then [reply[0]] else []) + Positive(reply[1..])
  }

  ghost predicate Distinct(batch: seq<Transfer>) {
    forall i, j :: 0 <= i < j < |batch| ==> batch[i] != batch[j]
  }

  /** A node's answer for a block range: exactly the range's logs, each once, in any order. */
  ghost predicate Answers(log: seq<Transfer>, start: nat, end: nat, reply: seq<Transfer>) {
    Distinct(reply) && forall e :: e in reply <==> e in log && start <= e.block <= end
  }

  /** What the replay writes for a range: its logs for ids above zero, in chain order. */
  ghost predicate BatchOf(log: seq<Transfer>, start: nat, end: nat, batch: seq<Transfer>) {
    Ordered(batch) && forall e :: e in batch <==> e in log && start <= e.block <= end && e.tokenId > 0
  }

  /** No two different events share a block and a log index. */
  ghost predicate Comparable(es: seq<Transfer>) {
    forall a, b :: a in es && b in es && a != b ==> Before(a, b) || Before(b, a)
  }

  lemma {:induction false} InsertOrdered(e: Transfer, sorted: seq<Transfer>)
    requires Ordered(sorted) && e !in sorted && Comparable([e] + sorted)
    ensures Ordered(Insert(e, sorted))
    ensures forall x :: x in Insert(e, sorted) <==> x == e || x in sorted
  {
    if sorted == [] || !Before(sorted[0], e) {
      if sorted != [] {
        assert sorted[0] in [e] + sorted && e in [e] + sorted;
        assert Before(e, sorted[0]);
      }
    } else {
      forall a, b | a in [e] + sorted[1..] && b in [e] + sorted[1..] && a != b
        ensures Before(a, b) || Before(b, a)
      {
        assert a in [e] + sorted && b in [e] + sorted;
      }
      InsertOrdered(e, sorted[1..]);
      var rest := Insert(e, sorted[1..]);
      forall i | 0 <= i < |rest| ensures Before(sorted[0], rest[i]) {
        assert rest[i] in rest;
        if rest[i] != e {
          var k :| 0 <= k < |sorted[1..]| && sorted[1..][k] == rest[i];
          assert sorted[k + 1] == rest[i];
        }
      }
    }
  }

  lemma {:induction false} SortOrders(batch: seq<Transfer>)
    requires Distinct(batch) && Comparable(batch)
    ensures Ordered(Sort(batch)) && forall x :: x in Sort(batch) <==> x in batch
  {
    if batch == [] {
    } else {
      var tail := batch[1..];
      assert forall a :: a in tail ==> a in batch;
      assert Distinct(tail) by {
        forall i, j | 0 <= i < j < |tail| ensures tail[i] != tail[j] {
          assert batch[i + 1] != batch[j + 1];
        }
      }
      SortOrders(tail);
      assert forall k :: 0 <= k < |tail| ==> tail[k] == batch[k + 1];
      forall a, b | a in [batch[0]] + Sort(tail) && b in [batch[0]] + Sort(tail) && a != b
        ensures Before(a, b) || Before(b, a)
      {
        assert a in batch && b in batch;
      }
      InsertOrdered(batch[0], Sort(tail));
    }
  }

  lemma {:induction false} PositiveKeeps(reply: seq<Transfer>)
    ensures forall e :: e in Positive(reply) <==> e in reply && e.tokenId > 0
    ensures Distinct(reply) ==> Distinct(Positive(reply))
  {
    if reply == [] {
    } else {
      var tail := reply[1..];
      PositiveKeeps(tail);
      assert forall e :: e in reply <==> e == reply[0] || e in tail;
      if Distinct(reply) {
        assert Distinct(tail) by {
          forall i, j | 0 <= i < j < |tail| ensures tail[i] != tail[j] {
            assert reply[i + 1] != reply[j + 1];
          }
        }
        var kept := Positive(tail);
        forall i, j | 0 <= i < j < |Positive(reply)| ensures Positive(reply)[i] != Positive(reply)[j] {
          if reply[0].tokenId > 0 && i == 0 {
            assert Positive(reply)[j] == kept[j - 1] && kept[j - 1] in tail;
            var k :| 0 <= k < |tail| && tail[k] == kept[j - 1];
            assert reply[0] != reply[k + 1];
          } else if reply[0].tokenId > 0 {
            assert kept[i - 1] != kept[j - 1];
          }
        }
      }
    }
  }

  /** Whatever order the node answers in, sorting restores the chain's own order. */
  lemma SortRestoresChainOrder(log: seq<Transfer>, start: nat, end: nat, reply: seq<Transfer>)
    requires Ordered(log) && Answers(log, start, end, reply)
    ensures BatchOf(log, start, end, Sort(Positive(reply)))
  {
    PositiveKeeps(reply);
    forall a, b | a in Positive(reply) && b in Positive(reply) && a != b
      ensures Before(a, b) || Before(b, a)
    {
      var i :| 0 <= i < |log| && log[i] == a;
      var j :| 0 <= j < |log| && log[j] == b;
    }
    SortOrders(Positive(reply));
  }
}
