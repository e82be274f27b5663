/**
 * The checkpoint kept per creator across runs (`CachedCreators` in src/context.rs):
 * `updated` is the newest post update time already processed and `fee` the highest fee
 * tier seen. A checkpoint only answers for a fee tier it has already covered, and an
 * update only ever moves both fields up.
 */
module Context {
  import opened Wrappers

  /** Rust `i64` (the `updated` timestamp) and `u32` (the fee tier). */
  type I64 = x: int | -0x8000_0000_0000_0000 <= x < 0x8000_0000_0000_0000
  type U32 = x: int | 0 <= x < 0x1_0000_0000

  /** The value held by one cache entry. */
  datatype Checkpoint = Checkpoint(updated: I64, fee: U32)

  /** `CachedCreators::default()`: both fields zero. */
  const Default: Checkpoint := Checkpoint(0, 0)

  /** What `last_updated(fee)` answers for the entry `c`. */
  function LastUpdatedOf(c: Checkpoint, fee: U32): (r: Option<I64>)
    ensures r.Some? <==> fee <= c.fee
    ensures r.Some? ==> r.value == c.updated
  {
    if fee <= c.fee then Some(c.updated) else None
  }

  /** The entry after `update(updated, fee)`: each field becomes the larger of old and new. */
  function Advanced(c: Checkpoint, updated: I64, fee: U32): (r: Checkpoint)
    ensures r.updated >= c.updated && r.updated >= updated
    ensures r.updated == c.updated || r.updated == updated
    ensures r.fee >= c.fee && r.fee >= fee
    ensures r.fee == c.fee || r.fee == fee
  {
    Checkpoint(if updated > c.updated then updated else c.updated,
               if fee > c.fee then fee else c.fee)
  }

  /** The entry as the source holds it: a struct whose two fields `update` changes in place. */
  class CachedCreators {
    var updated: I64
    var fee: U32

    /** `Default::default()` */
    constructor ()
      ensures State() == Default
    {
      updated, fee := 0, 0;
    }

    function State(): Checkpoint
      reads this
    {
      Checkpoint(updated, fee)
    }

    /** `last_updated(fee)`: the stored timestamp, only if the stored fee covers `fee`. */
    function LastUpdated(fee: U32): (r: Option<I64>)
      reads this
      ensures r == LastUpdatedOf(State(), fee)
      ensures r.Some? <==> fee <= this.fee
    {
      if fee <= this.fee then Some(updated) else None
    }

    /** `update(updated, fee)`: raises each field to the new value when that is larger. */
    method Update(updated: I64, fee: U32)
      modifies this
      ensures State() == Advanced(old(State()), updated, fee)
    {
      if updated > this.updated {
        this.updated := updated;
      }
      if fee > this.fee {
        this.fee := fee;
      }
    }
  }

  /** Applying the same update twice is the same as applying it once. */
  lemma AdvanceIdempotent(c: Checkpoint, updated: I64, fee: U32)
    ensures Advanced(Advanced(c, updated, fee), updated, fee) == Advanced(c, updated, fee)
  {
  }

  /** Two updates give the same entry in either order. */
  lemma AdvanceCommutes(c: Checkpoint, u1: I64, f1: U32, u2: I64, f2: U32)
    ensures Advanced(Advanced(c, u1, f1), u2, f2) == Advanced(Advanced(c, u2, f2), u1, f1)
  {
  }

  /**
   * Right after `update(u, f)`, asking with fee `f` gets the (advanced) timestamp; asking
   * with a fee above everything seen gets nothing, whatever timestamp is stored.
   */
  lemma LastUpdatedAfterAdvance(c: Checkpoint, u: I64, f: U32, later: U32)
    ensures LastUpdatedOf(Advanced(c, u, f), f) == Some(Advanced(c, u, f).updated)
    ensures later > c.fee && later > f ==> LastUpdatedOf(Advanced(c, u, f), later) == None
  {
  }

  /** A fresh entry answers `Some(0)` for the free tier. */
  lemma DefaultAnswersFreeTier()
    ensures LastUpdatedOf(Default, 0) == Some(0)
  {
  }

  /** A run of `update` calls, in order. */
  function AdvancedAll(c: Checkpoint, updates: seq<(I64, U32)>): Checkpoint
    decreases |updates|
  {
    if updates == [] then c
    else AdvancedAll(Advanced(c, updates[0].0, updates[0].1), updates[1..])
  }

  /**
   * After any run of updates, `updated` is the maximum of the old value and every update's
   * timestamp, and `fee` likewise: hence neither field ever decreases.
   */
  lemma {:induction false} AdvancedAllIsMaximum(c: Checkpoint, updates: seq<(I64, U32)>)
    ensures var r := AdvancedAll(c, updates);
      && r.updated >= c.updated && r.fee >= c.fee
      && (forall k :: 0 <= k < |updates| ==> r.updated >= updates[k].0 && r.fee >= updates[k].1)
      && (r.updated == c.updated || exists k :: 0 <= k < |updates| && r.updated == updates[k].0)
      && (r.fee == c.fee || exists k :: 0 <= k < |updates| && r.fee == updates[k].1)
    decreases |updates|
  {
    if updates != [] {
      var c' := Advanced(c, updates[0].0, updates[0].1);
      var tail := updates[1..];
      AdvancedAllIsMaximum(c', tail);
      var r := AdvancedAll(c, updates);
      assert r == AdvancedAll(c', tail);
      forall k | 0 < k < |updates|
        ensures r.updated >= updates[k].0 && r.fee >= updates[k].1
      {
        assert updates[k] == tail[k - 1];
      }
      if r.updated != c.updated && r.updated != updates[0].0 && r.updated != c'.updated {
        var j :| 0 <= j < |tail| && r.updated == tail[j].0;
        assert r.updated == updates[j + 1].0;
      }
      if r.fee != c.fee && r.fee != updates[0].1 && r.fee != c'.fee {
        var j :| 0 <= j < |tail| && r.fee == tail[j].1;
        assert r.fee == updates[j + 1].1;
      }
    }
  }

  /** The order in which updates arrive does not matter: any permutation ends in the same entry. */
  lemma AdvancedAllOrderIndependent(c: Checkpoint, a: seq<(I64, U32)>, b: seq<(I64, U32)>)
    requires multiset(a) == multiset(b)
    ensures AdvancedAll(c, a) == AdvancedAll(c, b)
  {
    AdvancedAllIsMaximum(c, a);
    AdvancedAllIsMaximum(c, b);
    var ra, rb := AdvancedAll(c, a), AdvancedAll(c, b);
    forall k | 0 <= k < |a| ensures a[k] in multiset(b) {
      assert a[k] in multiset(a);
    }
    forall k | 0 <= k < |b| ensures b[k] in multiset(a) {
      assert b[k] in multiset(b);
    }
    assert ra.updated == rb.updated by {
      if ra.updated != c.updated {
        var k :| 0 <= k < |a| && ra.updated == a[k].0;
        assert a[k] in b;
      }
      if rb.updated != c.updated {
        var k :| 0 <= k < |b| && rb.updated == b[k].0;
        assert b[k] in a;
      }
    }
    assert ra.fee == rb.fee by {
      if ra.fee != c.fee {
        var k :| 0 <= k < |a| && ra.fee == a[k].1;
        assert a[k] in b;
      }
      if rb.fee != c.fee {
        var k :| 0 <= k < |b| && rb.fee == b[k].1;
        assert b[k] in a;
      }
    }
  }
}
