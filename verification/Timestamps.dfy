/**
 Timestamps: 64 bits of seconds and 32 bits of nanoseconds that wrap around.
 */
module Timestamps {
  const NSEC := 1_000_000_000
  const TWO64 := 0x1_0000_0000_0000_0000
  const TWO32 := 0x1_0000_0000
  const TWO63 := 0x8000_0000_0000_0000

  datatype Time = Time(seconds: int, nanoseconds: int)

  /** What the members can hold. */
  predicate Typed(t: Time) { 0 <= t.seconds < TWO64 && 0 <= t.nanoseconds < TWO32 }

  predicate Normal(t: Time) { 0 <= t.seconds < TWO64 && 0 <= t.nanoseconds < NSEC }

  /** `normNano`. */
  function Carried(t: Time): Time {
    Time((t.seconds + t.nanoseconds / NSEC) % TWO64, t.nanoseconds % NSEC)
  }

  function Sum(a: Time, b: Time): Time {
    Carried(Time((a.seconds + b.seconds) % TWO64, (a.nanoseconds + b.nanoseconds) % TWO32))
  }

  /** `subt`; the division rounds down, whole seconds are borrowed or carried. */
  function Difference(a: Time, b: Time): Time {
    var n := a.nanoseconds - b.nanoseconds;
    Time((a.seconds - b.seconds + n / NSEC) % TWO64, n % NSEC)
  }

  function Nanoseconds(t: Time): int { (t.nanoseconds + t.seconds * NSEC) % TWO64 }

  /** A 64 bits number read as signed. */
  function Signed(n: int): int { if n < TWO63 then n else n - TWO64 }

  /** Euclidean division, whose remainder is not negative. */
  function FromNanos(n: int): Time { Time(Signed(n) / NSEC % TWO64, Signed(n) % NSEC) }

  lemma SumNormal(a: Time, b: Time)
    requires Normal(a) && Normal(b)
    ensures Normal(Sum(a, b)) && Normal(Difference(a, b))
  {
  }

  function Carry(a: Time, b: Time): int { if a.nanoseconds + b.nanoseconds >= NSEC then 1 else 0 }

  function Borrow(a: Time, b: Time): int { if a.nanoseconds < b.nanoseconds then 1 else 0 }

  lemma SumIs(a: Time, b: Time)
    requires Normal(a) && Normal(b)
    ensures var c := Carry(a, b);
      Sum(a, b) == Time((a.seconds + b.seconds + c) % TWO64, a.nanoseconds + b.nanoseconds - c * NSEC)
  {
    var n := a.nanoseconds + b.nanoseconds;
    assert n / NSEC == Carry(a, b);
    WrapPlus(a.seconds + b.seconds, Carry(a, b));
  }

  lemma WrapPlus(x: int, c: int)
    ensures (x % TWO64 + c) % TWO64 == (x + c) % TWO64
  {
    assert x == x / TWO64 * TWO64 + x % TWO64;
    ModAdd(x % TWO64 + c, x / TWO64);
  }

  /** Addition and subtraction undo each other, also where the seconds wrap around. */
  lemma AddThenSubtract(a: Time, b: Time)
    requires Normal(a) && Normal(b)
    ensures Difference(Sum(a, b), b) == a
    ensures Sum(Difference(a, b), b) == a
  {
    AddThen(a, b);
    SubtractThen(a, b);
  }

  lemma DifferenceIs(a: Time, b: Time)
    requires Normal(a) && Normal(b)
    ensures var c := Borrow(a, b);
      Difference(a, b) == Time((a.seconds - b.seconds - c) % TWO64, a.nanoseconds - b.nanoseconds + c * NSEC)
  {
    assert (a.nanoseconds - b.nanoseconds) / NSEC == 0 - Borrow(a, b);
  }

  lemma AddThen(a: Time, b: Time)
    requires Normal(a) && Normal(b)
    ensures Difference(Sum(a, b), b) == a
  {
    SumNormal(a, b);
    DifferenceIs(Sum(a, b), b);
    hide Sum, Difference;
    SumIs(a, b);
    ThereAndBack(a.seconds, b.seconds + Carry(a, b));
  }

  lemma SubtractThen(a: Time, b: Time)
    requires Normal(a) && Normal(b)
    ensures Sum(Difference(a, b), b) == a
  {
    SumNormal(a, b);
    DifferenceIs(a, b);
    hide Sum, Difference;
    SumIs(Difference(a, b), b);
    ThereAndBack(a.seconds, 0 - b.seconds - Borrow(a, b));
  }

  lemma ThereAndBack(x: int, c: int)
    requires 0 <= x < TWO64
    ensures ((x + c) % TWO64 - c) % TWO64 == x
  {
    WrapPlus(x + c, 0 - c);
  }

  lemma ModAdd(x: int, q: int)
    ensures (x + q * TWO64) % TWO64 == x % TWO64
  {
  }

  /** In nanoseconds, addition is addition modulo two to the 64. */
  lemma SumInNanoseconds(a: Time, b: Time)
    requires Normal(a) && Normal(b)
    ensures Nanoseconds(Sum(a, b)) == (Nanoseconds(a) + Nanoseconds(b)) % TWO64
  {
    hide Sum;
    SumIs(a, b);
    var c := Carry(a, b);
    var total, n := a.seconds + b.seconds + c, a.nanoseconds + b.nanoseconds - c * NSEC;
    WrapTimes(total, n);
    WrapSum(a.nanoseconds + a.seconds * NSEC, b.nanoseconds + b.seconds * NSEC);
    Reordered(a, b, c);
  }

  lemma Reordered(a: Time, b: Time, c: int)
    ensures a.nanoseconds + b.nanoseconds - c * NSEC + (a.seconds + b.seconds + c) * NSEC
         == a.nanoseconds + a.seconds * NSEC + (b.nanoseconds + b.seconds * NSEC)
  {
  }

  /** Seconds may wrap around before they are turned into nanoseconds. */
  lemma WrapTimes(s: int, n: int)
    ensures (n + s % TWO64 * NSEC) % TWO64 == (n + s * NSEC) % TWO64
  {
    var q, r := s / TWO64, s % TWO64;
    assert s == q * TWO64 + r;
    assert s * NSEC == r * NSEC + (q * NSEC) * TWO64;
    ModAdd(n + r * NSEC, q * NSEC);
  }

  lemma WrapSum(x: int, y: int)
    ensures (x % TWO64 + y % TWO64) % TWO64 == (x + y) % TWO64
  {
    var p, q := x / TWO64, y / TWO64;
    assert x == p * TWO64 + x % TWO64 && y == q * TWO64 + y % TWO64;
    ModAdd(x % TWO64 + y % TWO64, p + q);
  }

  /** Every 64 bits number of nanoseconds comes back, also one that is read as negative. */
  lemma NanosecondsBack(n: int)
    requires 0 <= n < TWO64
    ensures Normal(FromNanos(n)) && Nanoseconds(FromNanos(n)) == n
  {
    var v := Signed(n);
    WrapTimes(v / NSEC, v % NSEC);
    assert v % NSEC + v / NSEC * NSEC == v;
    ModAdd(n, if n < TWO63 then 0 else -1);
  }

  /** The order of timestamps is the order of their nanoseconds while those do not wrap. */
  predicate Less(a: Time, b: Time) {
    a.seconds < b.seconds || (a.seconds == b.seconds && a.nanoseconds < b.nanoseconds)
  }

  lemma LessIsOrder(a: Time, b: Time)
    requires Normal(a) && Normal(b)
    ensures Less(a, b) <==> a.seconds * NSEC + a.nanoseconds < b.seconds * NSEC + b.nanoseconds
  {
  }

  class Timestamp {
    var seconds: int
    var nanoseconds: int

    function Value(): Time
      reads this
    {
      Time(seconds, nanoseconds)
    }

    constructor (t: Time)
      ensures Value() == t
    {
      seconds, nanoseconds := t.seconds, t.nanoseconds;
    }

    method NormNano()
      requires Typed(Value())
      modifies this
      ensures Value() == Carried(old(Value())) && Normal(Value())
    {
      while nanoseconds >= NSEC
        invariant Typed(Value()) && Carried(Value()) == Carried(old(Value()))
      {
        CarryOne(Value());
        nanoseconds := nanoseconds - NSEC;
        seconds := (seconds + 1) % TWO64;
      }
    }

    method Add(t: Time)
      requires Typed(Value()) && Typed(t)
      modifies this
      ensures Value() == Sum(old(Value()), t) && Normal(Value())
    {
      seconds := (seconds + t.seconds) % TWO64;
      nanoseconds := (nanoseconds + t.nanoseconds) % TWO32;
      NormNano();
    }

    /** The members need not be normalised. Nanoseconds that are close to what 32 bits can
        hold are only allowed where nothing is borrowed. */
    method Subtract(t: Time)
      requires Typed(Value()) && Typed(t) && (nanoseconds >= t.nanoseconds || t.nanoseconds <= TWO32 - NSEC)
      modifies this
      ensures Value() == Difference(old(Value()), t) && Normal(Value())
    {
      seconds := (seconds - t.seconds) % TWO64;
      ghost var k := 0;
      while nanoseconds < t.nanoseconds
        invariant Typed(Value()) && k >= 0 && nanoseconds == old(nanoseconds) + k * NSEC
        invariant seconds == (old(seconds) - t.seconds - k) % TWO64
        decreases t.nanoseconds - nanoseconds
      {
        BorrowOne(old(seconds) - t.seconds - k);
        nanoseconds := nanoseconds + NSEC;
        seconds := (seconds - 1) % TWO64;
        k := k + 1;
      }
      nanoseconds := nanoseconds - t.nanoseconds;
      LentIs(old(Value()), t, k);
      NormNano();
    }

    /** `fromNanoseconds`: the division truncates, and the loop makes the remainder positive. */
    method FromNanoseconds(n: int)
      requires 0 <= n < TWO64
      modifies this
      ensures Value() == FromNanos(n) && Normal(Value())
    {
      var v := Signed(n);
      var quot := if v < 0 then 0 - (0 - v) / NSEC else v / NSEC;
      var rem := v - quot * NSEC;
      while rem < 0
        invariant v == quot * NSEC + rem && -NSEC < rem < NSEC
        decreases -rem
      {
        quot := quot - 1;
        rem := rem + NSEC;
      }
      seconds := quot % TWO64;
      nanoseconds := rem;
    }
  }

  lemma CarryOne(t: Time)
    requires Typed(t) && t.nanoseconds >= NSEC
    ensures Carried(Time((t.seconds + 1) % TWO64, t.nanoseconds - NSEC)) == Carried(t)
  {
    var q := t.nanoseconds / NSEC;
    assert (t.nanoseconds - NSEC) / NSEC == q - 1 && (t.nanoseconds - NSEC) % NSEC == t.nanoseconds % NSEC;
    WrapPlus(t.seconds + 1, q - 1);
  }

  /** Seconds that have been turned into nanoseconds are carried back as far as they are not used. */
  lemma LentIs(a: Time, b: Time, k: int)
    ensures Carried(Time((a.seconds - b.seconds - k) % TWO64, a.nanoseconds + k * NSEC - b.nanoseconds)) == Difference(a, b)
  {
    var n := a.nanoseconds - b.nanoseconds;
    assert n + k * NSEC == (n / NSEC + k) * NSEC + n % NSEC;
    assert (n + k * NSEC) / NSEC == n / NSEC + k;
    WrapPlus(a.seconds - b.seconds - k, n / NSEC + k);
  }

  lemma BorrowOne(x: int)
    ensures (x % TWO64 - 1) % TWO64 == (x - 1) % TWO64
  {
    WrapPlus(x, 0 - 1);
  }

  /** The nanoseconds after `k` rounds of the loop that borrows seconds. */
  function Borrowed(n: nat, k: nat): int { (n + k * NSEC) % TWO32 }

  /** Otherwise the loop may go on for ever: it ends if and only if a number with the same nine
      lowest bits is large enough, because those never change. */
  lemma LoopEnds(n: nat, t: nat)
    requires n < TWO32
    ensures (exists k :: Borrowed(n, k) >= t) <==> t <= TWO32 - 512 + n % 512
  {
    forall k ensures Borrowed(n, k) <= TWO32 - 512 + n % 512 { LowBitsStay(n, k); }
    Reaches(n);
  }

  lemma LowBitsStay(n: nat, k: nat)
    ensures Borrowed(n, k) <= TWO32 - 512 + n % 512
  {
    var x := n + k * NSEC;
    assert x == 512 * (n / 512 + 1953125 * k) + n % 512;
    assert x == x / TWO32 * TWO32 + x % TWO32;
    Below(x % TWO32, n / 512 + 1953125 * k - x / TWO32 * 8388608, n % 512);
  }

  lemma Below(y: int, b: int, c: int)
    requires y == 512 * b + c && y < TWO32 && 0 <= c < 512
    ensures y <= TWO32 - 512 + c
  {
  }

  /** 3054701 is the inverse of 1953125 modulo two to the 23, so every number with those bits
      is reached. */
  lemma Reaches(n: nat)
    requires n < TWO32
    ensures Borrowed(n, (8388607 - n / 512) * 3054701) == TWO32 - 512 + n % 512
  {
    var d := 8388607 - n / 512;
    var r := TWO32 - 512 + n % 512;
    assert n == 512 * (n / 512) + n % 512;
    assert n + 512 * d == r;
    ManyRounds(n, d, r);
    WrapMany(r, 711228 * d);
  }

  /** 3054701 times 1953125 is 1 and 711228 times two to the 23. */
  lemma ManyRounds(n: int, d: int, r: int)
    requires n + 512 * d == r
    ensures n + d * 3054701 * NSEC == r + 711228 * d * TWO32
  {
  }

  lemma WrapMany(r: int, q: int)
    requires 0 <= r < TWO32
    ensures (r + q * TWO32) % TWO32 == r
  {
  }
}
