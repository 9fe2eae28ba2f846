/** Counting in base b, digit by digit, as clustering's `digit` does (jubatus/core/clustering/util.cpp),
    and what adding one does to the digits. */
module CarryCounter {

  /** n without its last r digits. */
  function Shift(n: nat, r: nat, b: nat): nat
    requires 2 <= b
    decreases r
  {
    if r == 0 then n else Shift(n, r - 1, b) / b
  }

  function Digit(n: nat, r: nat, b: nat): (d: nat)
    requires 2 <= b
    ensures d < b
  {
    Shift(n, r, b) % b
  }

  /** The number of base-b digits of n; none for zero. */
  function Digits(n: nat, b: nat): nat
    requires 2 <= b
  {
    if n == 0 then 0
    else
      Smaller(n, b);
      1 + Digits(n / b, b)
  }

  lemma TimesMonotone(b: nat, x: int, y: int)
    requires x <= y
    ensures b * x <= b * y
  {
  }

  lemma Smaller(n: nat, b: nat)
    requires 2 <= b && 0 < n
    ensures n / b < n
  {
    TimesMonotone(n / b, 2, b);
    assert n == b * (n / b) + n % b;
  }

  function Pow(b: nat, r: nat): nat {
    if r == 0 then 1 else b * Pow(b, r - 1)
  }

  lemma Unique(n: nat, b: nat, q: nat, m: nat)
    requires 0 < b && n == b * q + m && m < b
    ensures n / b == q && n % b == m
  {
    var d := n / b - q;
    assert b * d == m - n % b;
    if d != 0 {
      TimesMonotone(b, if d > 0 then 1 else d, if d > 0 then d else -1);
    }
  }

  /** Adding one either raises the last digit or carries. */
  lemma PlusOne(n: nat, b: nat)
    requires 2 <= b
    ensures n % b != b - 1 ==> (n + 1) / b == n / b && (n + 1) % b == n % b + 1
    ensures n % b == b - 1 ==> (n + 1) / b == n / b + 1 && (n + 1) % b == 0
  {
    assert n == b * (n / b) + n % b;
    if n % b != b - 1 {
      Unique(n + 1, b, n / b, n % b + 1);
    } else {
      assert b * (n / b + 1) == b * (n / b) + b;
      Unique(n + 1, b, n / b + 1, 0);
    }
  }

  /** A carry has reached digit r when n + 1 counts one more there. */
  ghost predicate Carries(n: nat, r: nat, b: nat)
    requires 2 <= b
  {
    Shift(n + 1, r, b) == Shift(n, r, b) + 1
  }

  lemma CarryOn(n: nat, r: nat, b: nat)
    requires 2 <= b && Carries(n, r, b)
    ensures Digit(n, r, b) == b - 1 ==> Carries(n, r + 1, b) && Digit(n + 1, r, b) == 0
    ensures Digit(n, r, b) == b - 1 ==> Shift(n, r + 1, b) < Shift(n, r, b)
    ensures Digit(n, r, b) != b - 1 ==>
      Shift(n + 1, r + 1, b) == Shift(n, r + 1, b) && Digit(n + 1, r, b) == Digit(n, r, b) + 1
  {
    PlusOne(Shift(n, r, b), b);
    if Digit(n, r, b) == b - 1 {
      Smaller(Shift(n, r, b), b);
    }
  }

  lemma FullDecreases(n: nat, r: nat, b: nat)
    requires 2 <= b && Digit(n, r, b) == b - 1
    ensures Shift(n, r + 1, b) < Shift(n, r, b)
  {
    if Shift(n, r, b) == 0 {
      Unique(0, b, 0, 0);
    }
    Smaller(Shift(n, r, b), b);
  }

  /** Where a carry into digit r stops: the first digit from r on that is not full. */
  function Stop(n: nat, r: nat, b: nat): nat
    requires 2 <= b
    decreases Shift(n, r, b)
  {
    if Digit(n, r, b) != b - 1 then r
    else
      FullDecreases(n, r, b);
      Stop(n, r + 1, b)
  }

  lemma {:induction false} StopIsFirst(n: nat, r: nat, b: nat, j: nat)
    requires 2 <= b
    ensures r <= Stop(n, r, b) && Digit(n, Stop(n, r, b), b) != b - 1
    ensures r <= j < Stop(n, r, b) ==> Digit(n, j, b) == b - 1
    decreases Shift(n, r, b)
  {
    if Digit(n, r, b) == b - 1 {
      FullDecreases(n, r, b);
      StopIsFirst(n, r + 1, b, j);
    }
  }

  lemma {:induction false} SameAbove(n: nat, m: nat, r: nat, j: nat, b: nat)
    requires 2 <= b && r <= j && Shift(n, r, b) == Shift(m, r, b)
    ensures Shift(n, j, b) == Shift(m, j, b) && Digit(n, j, b) == Digit(m, j, b)
  {
    if r < j {
      SameAbove(n, m, r, j - 1, b);
    }
  }

  lemma {:induction false} ShiftFirst(n: nat, r: nat, b: nat)
    requires 2 <= b && 0 < r
    ensures Shift(n, r, b) == Shift(n / b, r - 1, b)
  {
    if r > 1 {
      ShiftFirst(n, r - 1, b);
    }
  }

  lemma OneDigitMore(n: nat, b: nat, q: nat)
    requires 2 <= b && 0 < n && q == n / b
    ensures q < n && Digits(n, b) == 1 + Digits(q, b)
  {
    Smaller(n, b);
  }

  /** The digit count is where shifting first gives zero. */
  lemma {:induction false} DigitsAreShifts(n: nat, r: nat, b: nat)
    requires 2 <= b
    ensures r < Digits(n, b) <==> Shift(n, r, b) > 0
    decreases n
  {
    if n == 0 {
      ZeroShift(r, b);
    } else if r > 0 {
      var q := n / b;
      OneDigitMore(n, b, q);
      ShiftFirst(n, r, b);
      DigitsAreShifts(q, r - 1, b);
    }
  }

  lemma {:induction false} ZeroShift(r: nat, b: nat)
    requires 2 <= b
    ensures Shift(0, r, b) == 0
  {
    if r > 0 {
      ZeroShift(r - 1, b);
    }
  }

  /** When the carry stops at digit h, the digit count grows exactly if h is a new digit. */
  lemma DigitsAfterCarry(n: nat, h: nat, b: nat)
    requires 2 <= b && Carries(n, h, b) && Digit(n, h, b) != b - 1
    requires h <= Digits(n, b)
    ensures Digits(n + 1, b) == if h == Digits(n, b) then h + 1 else Digits(n, b)
  {
    CarryOn(n, h, b);
    var d := Digits(n + 1, b);
    DigitsAreShifts(n + 1, h, b);
    DigitsAreShifts(n, h, b);
    var k := if h == Digits(n, b) then h + 1 else Digits(n, b);
    DigitsAreShifts(n, k, b);
    SameAbove(n, n + 1, h + 1, k, b);
    DigitsAreShifts(n + 1, k, b);
    if k > h + 1 {
      DigitsAreShifts(n, k - 1, b);
      SameAbove(n, n + 1, h + 1, k - 1, b);
      DigitsAreShifts(n + 1, k - 1, b);
    }
  }

  /** n lies between the powers of b that its digit count d names. */
  ghost predicate Between(n: nat, b: nat, d: nat) {
    n < Pow(b, d) && (d > 0 ==> Pow(b, d - 1) <= n) && (d == 0 <==> n == 0)
  }

  lemma BetweenUp(n: nat, b: nat, q: nat, d: nat)
    requires 2 <= b && 0 < n && q == n / b && Between(q, b, d)
    ensures Between(n, b, d + 1)
  {
    PowerStep(n, b, q, if d > 0 then Pow(b, d - 1) else 0, Pow(b, d));
  }

  /** The digit count is the logarithm: n lies between two neighbouring powers. */
  lemma DigitsAreLogarithm(n: nat, b: nat)
    requires 2 <= b
    ensures n < Pow(b, Digits(n, b)) && (n > 0 ==> Pow(b, Digits(n, b) - 1) <= n)
  {
    LogarithmBetween(n, b);
  }

  lemma {:induction false} LogarithmBetween(n: nat, b: nat)
    requires 2 <= b
    ensures Between(n, b, Digits(n, b))
    decreases n
  {
    if n > 0 {
      var q := n / b;
      OneDigitMore(n, b, q);
      LogarithmBetween(q, b);
      BetweenUp(n, b, q, Digits(q, b));
    }
  }

  lemma PowerStep(n: nat, b: nat, q: nat, low: nat, high: nat)
    requires 2 <= b && q == n / b && low <= q < high
    ensures n < b * high && b * low <= n
  {
    TimesMonotone(b, q + 1, high);
    TimesMonotone(b, low, q);
    assert b * (q + 1) == b * q + b;
    assert n == b * (n / b) + n % b;
  }

  /** The dividing loop. */
  method DigitOf(num: nat, r: nat, b: nat) returns (d: nat)
    requires 2 <= b
    ensures d == Digit(num, r, b)
  {
    var n := num;
    for i := 0 to r
      invariant n == Shift(num, i, b)
    {
      n := n / b;
    }
    d := n % b;
  }
}
