/** When DefaultSnapshotStrategy asks for a snapshot. */
module SnapshotStrategy {
  import opened Arithmetic
  import opened Outcomes

  function Abs(k: int): nat {
    if k < 0 then -k else k
  }

  /** A save of `n` events on top of version `v` crosses a multiple of the interval, or is the first to
      reach the interval with no snapshot stored. */
  predicate Due(v: nat, n: nat, k: int, stored: bool)
    requires k != 0
  {
    n > 0 && ((v + n) / Abs(k) > v / Abs(k) || (v + n >= k && !stored))
  }

  /** The version of the `j`-th event after version `v`. */
  function Nth(v: nat, j: nat): nat {
    v + j
  }

  /** So the question is whether one of the events is a multiple of the interval, or reaches it unstored. */
  lemma {:induction false} DueIff(v: nat, n: nat, k: int, stored: bool)
    requires k != 0
    ensures Due(v, n, k, stored)
            <==> exists j: nat :: 1 <= j <= n && (Nth(v, j) % k == 0 || (Nth(v, j) >= k && !stored))
  {
    if n > 0 {
      DueIff(v, n - 1, k, stored);
      QuotientSteps(v + n - 1, k);
      QuotientGrows(v, v + n - 1, k);
      assert Nth(v, n) == v + n;
    }
  }

  /** The pending events the loop gets to see: all, unless the concurrent flush lands in one of its awaits. */
  function Examined(v: nat, n: nat, k: int, flushAt: Option<nat>): nat {
    if flushAt.Some? && flushAt.value < n && v + 1 + flushAt.value >= k then flushAt.value + 1 else n
  }

  /** Version v + 1 is a multiple of the interval exactly when the quotient steps there. */
  lemma QuotientStepsAbs(v: nat, d: nat)
    requires d != 0
    ensures (v + 1) % d == 0 <==> (v + 1) / d > v / d
    ensures (v + 1) / d >= v / d
  {
    var q, r := v / d, v % d;
    assert v == q * d + r;
    if r + 1 == d {
      assert (q + 1) * d == q * d + d;
      Quotient(v + 1, q + 1, 0, d);
    } else {
      Quotient(v + 1, q, r + 1, d);
    }
  }

  /** A negative interval divides like its absolute value. */
  lemma QuotientSteps(v: nat, k: int)
    requires k != 0
    ensures (v + 1) % k == 0 <==> (v + 1) / Abs(k) > v / Abs(k)
    ensures (v + 1) / Abs(k) >= v / Abs(k)
  {
    QuotientStepsAbs(v, Abs(k));
    if k < 0 {
      var q, r := (v + 1) / k, (v + 1) % k;
      assert v + 1 == (-q) * Abs(k) + r;
      Quotient(v + 1, -q, r, Abs(k));
    }
  }

  class DefaultSnapshotStrategy {
    const snapshotInterval: int

    constructor (snapshotInterval: int)
      ensures this.snapshotInterval == snapshotInterval
    {
      this.snapshotInterval := snapshotInterval;
    }

    /** `stored` is what every lookup of the snapshot answers. `flushAt` names the turn of the loop whose
        lookup, if it makes one, the flush overtakes: the pending events are gone when the loop looks again. */
    method ShouldMakeSnapShot(snapshotable: bool, version: nat, pending: nat, stored: bool, flushAt: Option<nat>)
      returns (r: Result<bool, StoreError>)
      ensures !snapshotable || pending == 0 ==> r == Success(false)
      ensures snapshotable && pending > 0 && snapshotInterval == 0 ==> r == Failure(DivideByZero)
      ensures snapshotable && snapshotInterval != 0 ==>
                r == Success(Due(version, Examined(version, pending, snapshotInterval, flushAt), snapshotInterval,
                    stored))
      ensures snapshotable && snapshotInterval != 0 ==>
                var cut := flushAt.Some? && flushAt.value < pending && version + flushAt.value + 1 >= snapshotInterval;
                var seen := if cut then flushAt.value + 1 else pending;
                && r.Success?
                && (r.value <==>
                    exists j: nat ::
                      && 1 <= j <= seen
                      && (Nth(version, j) % snapshotInterval == 0 || (Nth(version, j) >= snapshotInterval && !stored)))
    {
      if snapshotInterval != 0 {
        DueIff(version, Examined(version, pending, snapshotInterval, flushAt), snapshotInterval, stored);
      }
      if !snapshotable {
        return Success(false);
      }
      var k := snapshotInterval;
      var i, j, flushed := version, 0, false;
      while !flushed && j < pending
        invariant 0 <= j <= pending && i == version + j
        invariant flushed ==> j == Examined(version, pending, k, flushAt)
        invariant !flushed && flushAt.Some? && flushAt.value < j ==> version + 1 + flushAt.value < k
        invariant j > 0 ==> k != 0
        invariant k != 0 ==> i / Abs(k) == version / Abs(k) && (j > 0 && i >= k ==> stored)
      {
        ghost var before := i;
        i := i + 1;
        if k == 0 {
          return Failure(DivideByZero);
        }
        QuotientSteps(before, k);
        if i % k == 0 && i != 0 {
          QuotientGrows(i, version + Examined(version, pending, k, flushAt), k);
          return Success(true);
        }
        if i >= k {
          flushed := flushAt == Some(j);
          if !stored {
            return Success(true);
          }
        }
        j := j + 1;
      }
      r := Success(false);
    }
  }

  lemma {:induction false} QuotientGrows(a: nat, b: nat, k: int)
    requires k != 0 && a <= b
    ensures a / Abs(k) <= b / Abs(k)
    decreases b - a
  {
    if a < b {
      QuotientGrows(a, b - 1, k);
      QuotientSteps(b - 1, k);
    }
  }

  /** A flush in the middle of the decision changes the answer exactly when every boundary the save
      crosses lies beyond the event at which the loop was cut short. */
  lemma {:induction false} EarlyFlushHidesBoundary(v: nat, n: nat, k: nat, f: nat)
    requires k > 0 && f < n && v + 1 + f >= k
    ensures Due(v, Examined(v, n, k, Some(f)), k, true) != Due(v, n, k, true)
            <==> (v + f + 1) / k == v / k && (v + n) / k > v / k
  {
    QuotientGrows(v, v + f + 1, k);
    QuotientGrows(v + f + 1, v + n, k);
  }
}
