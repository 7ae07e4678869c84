/** The batched retention delete. */
module Retention {
  type Id = string

  datatype Summary = Summary(rowsDeleted: nat, batches: nat)

  /** ceil(n / d). */
  function CeilDiv(n: nat, d: nat): nat
    requires d > 0
  {
    if n == 0 then 0 else if n <= d then 1 else 1 + CeilDiv(n - d, d)
  }

  lemma CeilDivIsCeiling(n: nat, d: nat)
    requires d > 0
    ensures n <= CeilDiv(n, d) * d < n + d
  {
  }

  function Min(a: nat, b: nat): nat {
    if a <= b then a else b
  }

  /** A table under retention: every row with its timestamp and whether the extra filter admits it. */
  class Table {
    var rows: map<Id, (int, bool)>

    constructor (rows: map<Id, (int, bool)>)
      ensures this.rows == rows
    {
      this.rows := rows;
    }

    function Due(cutoff: int): set<Id>
      reads this
    {
      set id | id in rows && rows[id].0 < cutoff && rows[id].1
    }

    /** SELECT pk ... WHERE col < cutoff LIMIT n: any n of the due rows, or all of them. */
    method SelectDue(cutoff: int, limit: nat) returns (ids: set<Id>)
      ensures ids <= Due(cutoff) && |ids| == Min(limit, |Due(cutoff)|)
    {
      ids := {};
      var rest := Due(cutoff);
      while |ids| < limit && rest != {}
        invariant ids + rest == Due(cutoff) && ids !! rest && |ids| <= limit
        invariant |ids| + |rest| == |Due(cutoff)|
        decreases rest
      {
        var id :| id in rest;
        ids, rest := ids + {id}, rest - {id};
      }
    }

    method Delete(cutoff: int, ids: set<Id>) returns (affected: nat)
      requires ids <= Due(cutoff)
      modifies this
      ensures rows == old(rows) - ids && affected == |ids|
      ensures Due(cutoff) == old(Due(cutoff)) - ids && |Due(cutoff)| == |old(Due(cutoff))| - |ids|
    {
      LeftOver(Due(cutoff), ids);
      rows := rows - ids;
      affected := |ids|;
      assert Due(cutoff) == old(Due(cutoff)) - ids;
    }

    /** Delete every due row in batches. With a positive batch size and nobody else writing, exactly
        the due rows go, all of them are counted, and ceil(n / batch) batches are used; a dry run
        counts at most one batch and deletes nothing; a zero batch size does nothing. */
    method DeleteInBatches(cutoff: int, batchSize: nat, dryRun: bool) returns (r: Summary)
      modifies this
      ensures dryRun ==> rows == old(rows) && r.rowsDeleted == Min(batchSize, |old(Due(cutoff))|)
                         && r.batches == if r.rowsDeleted > 0 then 1 else 0
      ensures !dryRun && batchSize > 0 ==>
                && rows == old(rows) - old(Due(cutoff))
                && (forall id :: id in rows <==> id in old(rows) && !(old(rows)[id].0 < cutoff && old(rows)[id].1))
                && r == Summary(|old(Due(cutoff))|, CeilDiv(|old(Due(cutoff))|, batchSize))
      ensures batchSize == 0 ==> rows == old(rows) && r == Summary(0, 0)
    {
      var total, batches := 0, 0;
      ghost var due := Due(cutoff);
      while true
        invariant Due(cutoff) <= due && rows == old(rows) - (due - Due(cutoff))
        invariant total + |Due(cutoff)| == |due|
        invariant batchSize > 0 ==> CeilDiv(|due|, batchSize) == batches + CeilDiv(|Due(cutoff)|, batchSize)
        invariant dryRun || batchSize == 0 ==> rows == old(rows) && total == batches == 0
        decreases |Due(cutoff)|
      {
        var ids := SelectDue(cutoff, batchSize);
        if ids == {} {
          break;
        }
        if dryRun {
          total, batches := total + |ids|, batches + 1;
          break;
        }
        var affected := Delete(cutoff, ids);
        total, batches := total + affected, batches + 1;
        if |ids| < batchSize {
          break;
        }
      }
      assert !dryRun && batchSize > 0 ==> Due(cutoff) == {};
      r := Summary(total, batches);
    }
  }

  lemma LeftOver(due: set<Id>, gone: set<Id>)
    requires gone <= due
    ensures |due - gone| == |due| - |gone|
  {
    assert due == gone + (due - gone);
  }
}
