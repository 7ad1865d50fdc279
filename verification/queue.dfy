/**
 The record queue both scripts keep in two page-level variables: the loaded
 records and the position of the one on display (`labels`, `currentIndex`).
 */
module RecordQueue {

  datatype Queue<T> = Queue(records: seq<T>, index: nat)

  /** The position names a record whenever there is one to name. */
  predicate InBounds<T>(q: Queue<T>) {
    |q.records| > 0 ==> q.index < |q.records|
  }

  /**
   `handleNext`'s step `currentIndex = (currentIndex + 1) % labels.length`.
   On an empty list JavaScript yields NaN; the step is not taken there.
   */
  function Advance<T>(q: Queue<T>): (r: Queue<T>)
    requires |q.records| > 0
    ensures r.records == q.records
    ensures r.index < |r.records|
    ensures q.index + 1 < |q.records| ==> r.index == q.index + 1
    ensures q.index + 1 == |q.records| ==> r.index == 0
  {
    StepMod(q.index, |q.records|);
    q.(index := (q.index + 1) % |q.records|)
  }

  /** One step round a ring of `n`: the next position, or back to the start. */
  lemma StepMod(i: nat, n: nat)
    requires n > 0
    ensures i + 1 < n ==> (i + 1) % n == i + 1
    ensures i + 1 == n ==> (i + 1) % n == 0
  {
    if i + 1 < n {
      ModOfMultiple(i + 1, n, 0, i + 1);
    } else if i + 1 == n {
      ModOfMultiple(i + 1, n, 1, 0);
    }
  }

  /** `k` presses of "Next" in a row. */
  function AdvanceBy<T>(q: Queue<T>, k: nat): (r: Queue<T>)
    requires |q.records| > 0
    ensures r.records == q.records
    ensures k > 0 ==> InBounds(r)
    decreases k
  {
    if k == 0 then q else Advance(AdvanceBy(q, k - 1))
  }

  /** After `k` steps the position has moved `k` places round the ring. */
  lemma {:induction false} AdvanceByIndex<T>(q: Queue<T>, k: nat)
    requires |q.records| > 0 && InBounds(q)
    ensures AdvanceBy(q, k).index == (q.index + k) % |q.records|
    decreases k
  {
    if k > 0 {
      AdvanceByIndex(q, k - 1);
      var n := |q.records|;
      ModSucc(q.index + k - 1, n);
    }
  }

  lemma ModSucc(a: nat, n: nat)
    requires n > 0
    ensures (a % n + 1) % n == (a + 1) % n
  {
    var q, r := a / n, a % n;
    if r + 1 == n {
      ModOfMultiple(a + 1, n, q + 1, 0);
      ModOfMultiple(r + 1, n, 1, 0);
    } else {
      ModOfMultiple(a + 1, n, q, r + 1);
      ModOfMultiple(r + 1, n, 0, r + 1);
    }
  }

  /** Euclidean division leaves one remainder: `q * n + r` with `r < n` has remainder `r`. */
  lemma ModOfMultiple(a: int, n: int, q: int, r: int)
    requires n > 0 && 0 <= r < n && a == q * n + r
    ensures a % n == r
  {
    var q', r' := a / n, a % n;
    assert a == q' * n + r';
    if q > q' {
      assert (q - q') * n == q * n - q' * n;
      MulAtLeast(q - q', n);
    } else if q < q' {
      assert (q' - q) * n == q' * n - q * n;
      MulAtLeast(q' - q, n);
    }
  }

  lemma MulAtLeast(k: int, n: int)
    requires k >= 1 && n > 0
    ensures k * n >= n
  {
    assert k * n == (k - 1) * n + n;
  }

  /** `|records|` steps bring the queue back to where it started. */
  lemma FullCycle<T>(q: Queue<T>)
    requires |q.records| > 0 && InBounds(q)
    ensures AdvanceBy(q, |q.records|) == q
  {
    var r := AdvanceBy(q, |q.records|);
    FullCycleIndex(q);
    assert r == Queue(q.records, q.index);
  }

  /** The index part of a full cycle: up to the last record, round to the
      first, and on to where it started. */
  lemma FullCycleIndex<T>(q: Queue<T>)
    requires |q.records| > 0 && InBounds(q)
    ensures AdvanceBy(q, |q.records|).index == q.index
  {
    var k := |q.records| - q.index - 1;
    WrapToFirst(q, k);
    var first := AdvanceBy(q, k + 1);
    AdvanceByBelow(first, q.index);
    AdvanceByAdd(q, k + 1, q.index);
  }

  /** From the last record one more step lands on the first. */
  lemma WrapToFirst<T>(q: Queue<T>, k: nat)
    requires |q.records| > 0 && q.index + k + 1 == |q.records|
    ensures AdvanceBy(q, k + 1).index == 0
  {
    AdvanceByBelow(q, k);
    assert AdvanceBy(q, k + 1) == Advance(AdvanceBy(q, k));
  }

  /** Steps compose: `a` steps and then `b` more are `a + b` steps. */
  lemma {:induction false} AdvanceByAdd<T>(q: Queue<T>, a: nat, b: nat)
    requires |q.records| > 0
    ensures AdvanceBy(q, a + b) == AdvanceBy(AdvanceBy(q, a), b)
    decreases b
  {
    if b > 0 {
      AdvanceByAdd(q, a, b - 1);
    }
  }

  /** Before the end of the list each step moves one place on. */
  lemma {:induction false} AdvanceByBelow<T>(q: Queue<T>, k: nat)
    requires |q.records| > 0 && q.index + k < |q.records|
    ensures AdvanceBy(q, k).index == q.index + k
    decreases k
  {
    if k > 0 {
      AdvanceByBelow(q, k - 1);
    }
  }

  /** Every record is visited: from any start, each position is reached within `|records|` steps. */
  lemma EveryRecordReached<T>(q: Queue<T>, j: nat)
    requires |q.records| > 0 && InBounds(q) && j < |q.records|
    ensures var k := (j + |q.records| - q.index) % |q.records|;
            k < |q.records| && AdvanceBy(q, k).index == j
  {
    var n := |q.records|;
    var k := (j + n - q.index) % n;
    AdvanceByIndex(q, k);
    if j >= q.index {
      ModOfMultiple(j + n - q.index, n, 1, j - q.index);
      ModOfMultiple(q.index + k, n, 0, j);
    } else {
      ModOfMultiple(j + n - q.index, n, 0, j + n - q.index);
      ModOfMultiple(q.index + k, n, 1, j);
    }
  }
}
