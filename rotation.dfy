/**
 * The quote carousel: the index of the quote on show, moved forward or back
 * by the navigation buttons and wrapping around at both ends.
 */
module Rotation {

  /** The number of quotes the carousel cycles through. */
  const QuoteCount: nat := 16

  /** `handleNext`: one step forward, from the last quote back to the first. */
  function Next(i: nat, n: nat): (j: nat)
    requires n > 0
    ensures j < n
    ensures i < n - 1 ==> j == i + 1
    ensures i == n - 1 ==> j == 0
  {
    (i + 1) % n
  }

  /** `handlePrevious`: one step back, from the first quote to the last. */
  function Previous(i: nat, n: nat): (j: int)
    ensures 0 < i ==> j == i - 1
    ensures i == 0 ==> j == n - 1
    ensures 0 < n && i < n ==> 0 <= j < n
  {
    if i == 0 then n - 1 else i - 1
  }

  /** Forward and back undo each other on every valid index. */
  lemma NextPreviousInverse(i: nat, n: nat)
    requires i < n
    ensures Previous(Next(i, n), n) == i
    ensures Previous(i, n) >= 0 && Next(Previous(i, n), n) == i
  {
  }

  /** `k` presses of the forward button. */
  function Forward(i: nat, n: nat, k: nat): (j: nat)
    requires n > 0
    ensures j < n || (k == 0 && j == i)
  {
    if k == 0 then i else Next(Forward(i, n, k - 1), n)
  }

  /** `k` presses forward move the index by `k` places around the circle. */
  lemma {:induction false} ForwardIsShift(i: nat, n: nat, k: nat)
    requires n > 0 && i < n
    ensures Forward(i, n, k) == (i + k) % n
  {
    if k > 0 {
      ForwardIsShift(i, n, k - 1);
      var j := Forward(i, n, k - 1);
      assert j == (i + k - 1) % n;
      ShiftStep(i + k - 1, n);
    }
  }

  lemma ShiftStep(m: nat, n: nat)
    requires n > 0
    ensures (m % n + 1) % n == (m + 1) % n
  {
    var q, r := m / n, m % n;
    assert m == q * n + r;
    if r + 1 < n {
      ModUnique(m + 1, n, q, r + 1);
      ModUnique(r + 1, n, 0, r + 1);
    } else {
      ModUnique(m + 1, n, q + 1, 0);
      ModUnique(r + 1, n, 1, 0);
    }
  }

  lemma MulAtLeast(d: int, n: int)
    requires d >= 1 && n > 0
    ensures d * n >= n
  {
    if d > 1 {
      MulAtLeast(d - 1, n);
      assert d * n == (d - 1) * n + n;
    }
  }
  /** Euclidean division has one quotient and one remainder. */
  lemma ModUnique(a: int, n: int, q: int, r: int)
    requires n > 0 && a == q * n + r && 0 <= r < n
    ensures a % n == r
  {
    var q', r' := a / n, a % n;
    assert a == q' * n + r';
    assert (q - q') * n == r' - r by {
      assert (q - q') * n == q * n - q' * n;
    }
    if q > q' {
      MulAtLeast(q - q', n);
    } else if q < q' {
      MulAtLeast(q' - q, n);
    }
  }

  /** Pressing forward once per quote brings the carousel back to where it
      started. */
  lemma FullCycle(i: nat)
    requires i < QuoteCount
    ensures Forward(i, QuoteCount, QuoteCount) == i
  {
    ForwardIsShift(i, QuoteCount, QuoteCount);
    assert (i + QuoteCount) % QuoteCount == i;
  }
}
