/**
 Retryable errors and the capped exponential backoff. A delay is an int64 of
 nanoseconds: doubling it wraps around.
 */
module Services {

  /** A Go error: nil, a sentinel compared by identity, any other error, or a
      wrapper that marks its inner error as retryable. */
  datatype Error = Nil | Sentinel(name: string) | Text(text: string) | Retryable(inner: Error)

  const RETRYABLE_PREFIX := "retryable error: "

  const OUT_OF_ATTEMPTS := Retryable(Text("reached maximum number of retry attempts"))

  predicate IsRetryable(e: Error) {
    e.Retryable?
  }

  function NewRetryableError(e: Error): Error {
    if e.Nil? then Nil else Retryable(e)
  }

  /** The error below a retryable one, otherwise the error itself. */
  function ErrorRetryable(e: Error): Error {
    if e.Retryable? then e.inner else e
  }

  function Message(e: Error): string {
    match e
    case Nil => ""
    case Sentinel(name) => name
    case Text(text) => text
    case Retryable(inner) => RETRYABLE_PREFIX + Message(inner)
  }

  // ------------------------------------------------------------ int64

  const HALF: int := 0x8000_0000_0000_0000
  const FULL: int := 0x1_0000_0000_0000_0000

  predicate IsInt64(x: int) {
    -HALF <= x < HALF
  }

  /** Two's complement: one turn of the circle brings any doubled int64 into range. */
  function Wrap(x: int): (r: int)
    requires -FULL <= x < FULL
    ensures IsInt64(r) && (r == x || r == x - FULL || r == x + FULL)
    ensures IsInt64(x) ==> r == x
  {
    if x < -HALF then x + FULL else if x >= HALF then x - FULL else x
  }

  // ---------------------------------------------------------- backoff

  datatype Backoff = Backoff(base: int, cap: int, max: int)

  predicate Fits(b: Backoff) {
    IsInt64(b.base) && IsInt64(b.cap) && IsInt64(b.max)
  }

  function Capped(b: Backoff, x: int): int {
    if b.cap > 0 && b.cap < x then b.cap else x
  }

  /** The loop's base before retry i + 1. */
  function BaseAt(b: Backoff, i: nat): (r: int)
    requires Fits(b)
    ensures IsInt64(r)
  {
    if i == 0 then b.base
    else
      var base := BaseAt(b, i - 1);
      if Capped(b, base) == base then Wrap(2 * base) else base
  }

  function DelayAt(b: Backoff, i: nat): int
    requires Fits(b)
  {
    Capped(b, BaseAt(b, i))
  }

  /** The call after which the loop ends, if it reaches that call. */
  predicate Ends(op: nat -> Error, cancelled: nat -> bool, n: nat) {
    n >= 1 && (!IsRetryable(op(n)) || cancelled(n))
  }

  /** op gives the outcome of the n-th call, cancelled(n) whether the context ends the
      wait after it, and cause is the context's error. Runs that never end are those
      with no limit on retries and no ending call. */
  method RetryWithBackoff(b: Backoff, op: nat -> Error, cancelled: nat -> bool, cause: Error)
    returns (err: Error, calls: seq<nat>, delays: seq<int>)
    requires Fits(b)
    requires b.max > 0 || exists n :: Ends(op, cancelled, n)
    ensures |calls| >= 1 && forall i :: 0 <= i < |calls| ==> calls[i] == i + 1
    ensures forall n :: 1 <= n < |calls| ==> op(n).Retryable? && !cancelled(n)
    ensures b.max > 0 ==> |calls| <= b.max + 1 && |delays| <= b.max
    ensures !op(|calls|).Retryable? ==> err == op(|calls|) && |delays| == |calls| - 1
    ensures op(|calls|).Retryable? && b.max > 0 && |calls| > b.max ==>
              && err == Retryable(Text("reached maximum number of retry attempts"))
              && |delays| == |calls| - 1
    ensures op(|calls|).Retryable? && !(b.max > 0 && |calls| > b.max) ==>
              cancelled(|calls|) && err == cause && |delays| == |calls|
    ensures forall i :: 0 <= i < |delays| ==> delays[i] == DelayAt(b, i)
    ensures delays != [] ==> delays[0] == if 0 < b.cap < b.base then b.cap else b.base
    ensures b.cap > 0 ==> forall i :: 0 <= i < |delays| ==> delays[i] <= b.cap
  {
    ghost var last: nat;
    if b.max > 0 {
      last := b.max + 1;
    } else {
      last :| Ends(op, cancelled, last);
    }
    var retry, base := 0, b.base;
    calls, delays := [], [];
    while true
      invariant 0 <= retry == |calls| == |delays|
      invariant retry < last
      invariant b.max > 0 ==> retry <= b.max
      invariant base == BaseAt(b, retry)
      invariant forall i :: 0 <= i < |calls| ==> calls[i] == i + 1
      invariant forall n :: 1 <= n <= retry ==> op(n).Retryable? && !cancelled(n)
      invariant forall i :: 0 <= i < |delays| ==> delays[i] == DelayAt(b, i)
      decreases last - retry
    {
      calls := calls + [retry + 1];
      if !IsRetryable(op(retry + 1)) {
        err := op(retry + 1);
        return;
      }
      retry := retry + 1;
      if b.max > 0 && retry > b.max {
        err := OUT_OF_ATTEMPTS;
        return;
      }
      var d := base;
      if b.cap > 0 {
        d := if b.cap < base then b.cap else base;
      }
      delays := delays + [d];
      if cancelled(retry) {
        err := cause;
        return;
      }
      if d == base {
        base := Wrap(2 * base);
      }
    }
  }

  // ------------------------------------------------- the delays' closed form

  /** base * 2^i. */
  function Doubled(base: int, i: nat): int {
    if i == 0 then base else 2 * Doubled(base, i - 1)
  }

  /** What the documentation of Backoff describes. */
  function Exponential(b: Backoff, i: nat): int {
    if 0 < b.cap < Doubled(b.base, i) then b.cap else Doubled(b.base, i)
  }

  /** How often base can be doubled without leaving int64. */
  function Doublings(base: int): nat
    requires base != 0 && IsInt64(base)
    decreases if base > 0 then HALF - base else HALF + base
  {
    if IsInt64(2 * base) then 1 + Doublings(2 * base) else 0
  }

  /** The last int64 reached from base by doubling. */
  function LastDoubling(base: int): int
    requires base != 0 && IsInt64(base)
  {
    Doubled(base, Doublings(base))
  }

  /** Something a caller can check: no base up to the cap leaves int64 when doubled, or
      the retries end before one does. */
  predicate StaysInRange(b: Backoff)
    requires Fits(b)
  {
    || b.base == 0
    || (b.base > 0 && 0 < b.cap < LastDoubling(b.base))
    || (0 < b.max <= Doublings(b.base) + 1)
  }

  /** Whether the loop can make the i-th delay, counted from 0. */
  predicate MayDelay(b: Backoff, i: nat) {
    b.max > 0 ==> i < b.max
  }

  lemma {:induction false} DoubledShift(base: int, i: nat)
    ensures Doubled(base, i + 1) == Doubled(2 * base, i)
  {
    if i > 0 {
      DoubledShift(base, i - 1);
    }
  }

  lemma {:induction false} DoubledGrows(base: int, i: nat)
    ensures base > 0 ==> Doubled(base, i) >= base + i
    ensures base < 0 ==> Doubled(base, i) <= base - i
    ensures base == 0 ==> Doubled(base, i) == 0
  {
    if i > 0 {
      DoubledGrows(base, i - 1);
    }
  }

  lemma {:induction false} DoublingsStayInRange(base: int, i: nat)
    requires base != 0 && IsInt64(base) && i <= Doublings(base) + 1
    ensures IsInt64(Doubled(base, i)) <==> i <= Doublings(base)
    decreases i
  {
    if i > 0 {
      DoubledShift(base, i - 1);
      if IsInt64(2 * base) {
        DoublingsStayInRange(2 * base, i - 1);
      }
    }
  }

  lemma BelowLastDoubling(base: int, i: nat)
    requires base > 0 && IsInt64(base) && Doubled(base, i) < LastDoubling(base)
    ensures IsInt64(Doubled(base, i + 1))
  {
    if i >= Doublings(base) {
      DoublingsAscend(base, Doublings(base), i);
    }
    DoublingsStayInRange(base, i + 1);
  }

  /** One turn of the loop keeps the base on the plain doubling until that passes
      the cap; then the base stays above the cap. */
  lemma BaseStep(b: Backoff, i: nat)
    requires Fits(b) && b.base > 0 && 0 < b.cap < LastDoubling(b.base)
    requires BaseAt(b, i) == Doubled(b.base, i) || b.cap < Doubled(b.base, i)
    requires b.cap < Doubled(b.base, i) ==> b.cap < BaseAt(b, i)
    requires 0 <= BaseAt(b, i)
    ensures BaseAt(b, i + 1) == Doubled(b.base, i + 1) || b.cap < Doubled(b.base, i + 1)
    ensures b.cap < Doubled(b.base, i + 1) ==> b.cap < BaseAt(b, i + 1)
    ensures BaseAt(b, i + 1) == BaseAt(b, i) || 0 <= BaseAt(b, i + 1) <= 2 * b.cap
  {
    DoubledGrows(b.base, i);
    if Doubled(b.base, i) <= b.cap {
      BelowLastDoubling(b.base, i);
    }
  }

  /** While the doubled base has not passed the cap, the loop's base is it. */
  lemma {:induction false} BaseTracksExponential(b: Backoff, i: nat)
    requires Fits(b) && b.base > 0 && 0 < b.cap < LastDoubling(b.base)
    ensures BaseAt(b, i) == Doubled(b.base, i) || b.cap < Doubled(b.base, i)
    ensures b.cap < Doubled(b.base, i) ==> b.cap < BaseAt(b, i)
    ensures 0 <= BaseAt(b, i) && (BaseAt(b, i) <= b.base || BaseAt(b, i) <= 2 * b.cap)
  {
    if i > 0 {
      BaseTracksExponential(b, i - 1);
      BaseStep(b, i - 1);
    }
  }

  lemma {:induction false} ZeroStaysZero(b: Backoff, i: nat)
    requires Fits(b) && b.base == 0
    ensures BaseAt(b, i) == 0 == Doubled(b.base, i)
  {
    if i > 0 {
      ZeroStaysZero(b, i - 1);
    }
  }

  /** No cap stops the doubling before it leaves int64. */
  predicate Uncapped(b: Backoff)
    requires Fits(b) && b.base != 0
  {
    b.base < 0 || b.cap <= 0 || LastDoubling(b.base) <= b.cap
  }

  /** Then the base is the plain doubling up to the last one in int64. */
  lemma {:induction false} UncappedBase(b: Backoff, i: nat)
    requires Fits(b) && b.base != 0 && Uncapped(b) && i <= Doublings(b.base)
    ensures BaseAt(b, i) == Doubled(b.base, i) == DelayAt(b, i)
  {
    DoublingsStayInRange(b.base, i);
    DoubledGrows(b.base, i);
    if b.base > 0 {
      DoublingsAscend(b.base, i, Doublings(b.base));
    }
    if i > 0 {
      UncappedBase(b, i - 1);
    }
  }

  lemma {:induction false} DoublingsAscend(base: int, i: nat, j: nat)
    requires base > 0 && i <= j
    ensures base <= Doubled(base, i) <= Doubled(base, j)
  {
    DoubledGrows(base, i);
    if i < j {
      DoublingsAscend(base, i, j - 1);
    }
  }

  /** The next delay is the wrong one. */
  lemma FirstWrongDelay(b: Backoff)
    requires Fits(b) && b.base != 0 && Uncapped(b)
    ensures DelayAt(b, Doublings(b.base) + 1) != Exponential(b, Doublings(b.base) + 1)
  {
    var d := Doublings(b.base);
    UncappedBase(b, d);
    DoublingsStayInRange(b.base, d + 1);
    DoubledGrows(b.base, d);
    assert BaseAt(b, d + 1) == Wrap(Doubled(b.base, d + 1));
  }

  lemma RightDelay(b: Backoff, i: nat)
    requires Fits(b) && StaysInRange(b) && MayDelay(b, i)
    ensures DelayAt(b, i) == Exponential(b, i)
  {
    if b.base == 0 {
      ZeroStaysZero(b, i);
    } else if b.base > 0 && 0 < b.cap < LastDoubling(b.base) {
      BaseTracksExponential(b, i);
    } else {
      UncappedBase(b, i);
    }
  }

  /** Every delay that the loop can make is min(cap, base * 2^i) exactly when the base
      is zero, or a positive cap stops the doubling of a positive base in the range of
      int64, or the limit on retries does. */
  lemma DelaysAreExponentialExactly(b: Backoff)
    requires Fits(b)
    ensures (forall i: nat :: MayDelay(b, i) ==> DelayAt(b, i) == Exponential(b, i)) <==> StaysInRange(b)
  {
    if StaysInRange(b) {
      forall i: nat | MayDelay(b, i)
        ensures DelayAt(b, i) == Exponential(b, i)
      {
        RightDelay(b, i);
      }
    } else {
      FirstWrongDelay(b);
      assert MayDelay(b, Doublings(b.base) + 1);
    }
  }

  /** A cap whose double is an int64 is enough; then delays never shrink. */
  lemma DelaysNeverShrink(b: Backoff, i: nat, j: nat)
    requires Fits(b) && b.base >= 0 && b.cap > 0 && IsInt64(2 * b.cap) && i <= j
    ensures 0 <= DelayAt(b, i) <= DelayAt(b, j) <= b.cap
    ensures BaseAt(b, j) <= b.base || BaseAt(b, j) <= 2 * b.cap
  {
    if b.base == 0 {
      ZeroStaysZero(b, i);
      ZeroStaysZero(b, j);
    } else {
      DoublingsStayInRange(b.base, Doublings(b.base) + 1);
      DoublingsAscend(b.base, Doublings(b.base), Doublings(b.base) + 1);
      assert Doubled(b.base, Doublings(b.base) + 1) == 2 * LastDoubling(b.base);
      BaseTracksExponential(b, i);
      BaseTracksExponential(b, j);
      DoublingsAscend(b.base, i, j);
    }
  }
}
