/** A deadline crossing the wire: nanoseconds on the host, whole seconds in the
    request, nanoseconds again in the guest. Durations are int64; the host converts
    to seconds in binary floating point, which is modelled bit for bit. */
module Deadline {
  import opened Options

  const SECOND := 1_000_000_000

  const MAX_DURATION := 0x7fff_ffff_ffff_ffff

  const DEFAULT_BUDGET := 60 * SECOND

  /** int64 arithmetic wraps around. */
  function Wrap(x: int): int {
    (x + 0x8000_0000_0000_0000) % 0x1_0000_0000_0000_0000 - 0x8000_0000_0000_0000
  }

  /* ---------- float64 ---------- */

  /** A double has this many significant units: 2^53. */
  const PRECISION := 0x20_0000_0000_0000

  /** Doubles are written as multiples of 2^-82, the last place of one nanosecond. */
  const ONE := 0x40000_0000_0000_0000_0000

  /** The nearest integer to num / den, the even one of two. */
  function NearestEven(num: nat, den: nat): nat
    requires den > 0
  {
    var q, r := num / den, num % den;
    if 2 * r < den || (2 * r == den && q % 2 == 0) then q else q + 1
  }

  lemma Nearest(num: nat, den: nat)
    requires den > 0
    ensures var q := NearestEven(num, den) * den;
      2 * q <= 2 * num + den && 2 * num <= 2 * q + den
  {
    var q, r := num / den, num % den;
    assert num == q * den + r;
    assert (q + 1) * den == q * den + den;
  }

  /** The last place of num / den: the smallest power of two, from `unit` on, of which
      num / den has fewer than 2^53. */
  function LastPlace(num: nat, den: nat, unit: nat): (u: nat)
    requires den > 0 && unit > 0
    ensures u >= unit && num < PRECISION * den * u
    ensures u == unit || PRECISION * den * u <= 2 * num
    decreases num - den * unit
  {
    if num < PRECISION * den * unit then unit
    else
      Doubling(num, den, unit);
      LastPlace(num, den, 2 * unit)
  }

  lemma Doubling(num: nat, den: nat, unit: nat)
    requires den > 0 && unit > 0 && PRECISION * den * unit <= num
    ensures PRECISION * den * (2 * unit) == 2 * (PRECISION * den * unit)
    ensures den * (2 * unit) == 2 * (den * unit) && den * unit > 0
    ensures num - den * (2 * unit) < num - den * unit && num - den * unit >= 0
  {
    var x := den * unit;
    assert x > 0;
    assert PRECISION * den * unit == PRECISION * x;
    assert PRECISION * den * (2 * unit) == PRECISION * (2 * x);
  }

  /** The double nearest to num / den, which is zero or at least 2^-30. */
  function ToDouble(num: nat, den: nat): nat
    requires den > 0
  {
    var u := LastPlace(num, den, 1);
    NearestEven(num, den * u) * u
  }

  /** Duration.Seconds for a non-negative duration: whole seconds and nanoseconds are
      exact doubles, the quotient and the sum are rounded. */
  function Seconds(whole: nat, nsec: nat): nat {
    ToDouble(whole * ONE + ToDouble(nsec * ONE, SECOND), 1)
  }

  /** The timeout_seconds field that the host sends; 0 means that it is left out.
      Conversion to int drops the fraction. */
  function HostSeconds(timeout: int): int {
    if timeout > 0 then Seconds(timeout / SECOND, timeout % SECOND) / ONE else 0
  }

  /* ---------- powers of two ---------- */

  function Pow2(k: nat): (p: nat)
    ensures p > 0
  {
    if k == 0 then 1 else 2 * Pow2(k - 1)
  }

  lemma {:induction false} Pow2Add(a: nat, b: nat)
    ensures Pow2(a) * Pow2(b) == Pow2(a + b)
  {
    if a > 0 {
      Pow2Add(a - 1, b);
      DoubleFirst(Pow2(a - 1), Pow2(b));
    }
  }

  lemma DoubleFirst(x: nat, y: nat)
    ensures (2 * x) * y == 2 * (x * y)
  {
  }

  lemma {:induction false} Pow2Grows(a: nat, b: nat)
    requires a <= b
    ensures Pow2(a) <= Pow2(b)
  {
    if a < b {
      Pow2Grows(a, b - 1);
    }
  }

  lemma Pow2Values()
    ensures Pow2(19) == 0x8_0000 && Pow2(23) == 0x80_0000 && Pow2(30) == 0x4000_0000 && Pow2(52) == 0x10_0000_0000_0000
  {
    assert Pow2(11) == 2048;
    assert Pow2(8) == 256;
    Pow2Add(11, 8);
    Pow2Add(11, 19);
    Pow2Add(11, 11);
    Pow2Add(22, 30);
  }

  /** The leading bit: the largest power of two up to n. */
  function Leading(n: nat): nat {
    if n <= 1 then 1 else 2 * Leading(n / 2)
  }

  lemma {:induction false} LeadingIsPower(n: nat) returns (k: nat)
    requires n > 0
    ensures Leading(n) == Pow2(k) && Pow2(k) <= n < 2 * Pow2(k)
  {
    if n == 1 {
      k := 0;
    } else {
      k := LeadingIsPower(n / 2);
      k := k + 1;
    }
  }

  lemma {:induction false} LastPlaceIs(num: nat, unit: nat, k: nat)
    requires unit > 0 && num < PRECISION * (unit * Pow2(k)) && PRECISION * (unit * Pow2(k)) <= 2 * num
    ensures LastPlace(num, 1, unit) == unit * Pow2(k)
    decreases k
  {
    if k > 0 {
      ShiftUnit(unit, Pow2(k - 1));
      LastPlaceIs(num, 2 * unit, k - 1);
    }
  }

  lemma ShiftUnit(unit: nat, p: nat)
    requires p > 0
    ensures unit * (2 * p) == (2 * unit) * p == 2 * (unit * p) && unit * p >= unit
  {
  }

  /* ---------- when the seconds round up ---------- */

  /** The quotient of nanoseconds by 10^9, as a double, is within 2^-53 of it. */
  lemma FractionError(nsec: nat)
    requires nsec < SECOND
    ensures var f := ToDouble(nsec * ONE, SECOND);
      && SECOND * f <= nsec * ONE + SECOND * 0x2000_0000
      && nsec * ONE <= SECOND * f + SECOND * 0x2000_0000
  {
    var num := nsec * ONE;
    var u := LastPlace(num, SECOND, 1);
    var n := NearestEven(num, SECOND * u);
    Nearest(num, SECOND * u);
    assert n * (SECOND * u) == SECOND * (n * u);
  }

  /** Adding the fraction f to the whole seconds s carries into the next second exactly
      when f is within half a last place of the sum. */
  lemma SumCarries(s: nat, f: nat, k: nat)
    requires f < ONE && k < 52 && Pow2(k) <= s < 2 * Pow2(k)
    ensures ToDouble(s * ONE + f, 1) / ONE == if 2 * (ONE - f) <= Pow2(k + 30) then s + 1 else s
  {
    PlacesOf(k);
    SumLastPlace(s, f, k);
    assert 1 * Pow2(k + 30) == Pow2(k + 30);
    CarriesAt(s, f, Pow2(k + 30), Pow2(52 - k));
  }

  lemma PlacesOf(k: nat)
    requires k < 52
    ensures Pow2(k + 30) * Pow2(52 - k) == ONE && Pow2(52 - k) % 2 == 0
  {
    Pow2Add(k + 30, 52 - k);
    Pow2Add(30, 52);
    Pow2Values();
    assert Pow2(52 - k) == 2 * Pow2(51 - k);
  }

  lemma SumLastPlace(s: nat, f: nat, k: nat)
    requires f < ONE && k < 52 && Pow2(k) <= s < 2 * Pow2(k)
    ensures LastPlace(s * ONE + f, 1, 1) == Pow2(k + 30)
  {
    Pow2Add(k, 30);
    Pow2Values();
    PlaceBounds(s, f, Pow2(k));
    assert 1 * Pow2(k + 30) == Pow2(k) * 0x4000_0000;
    LastPlaceIs(s * ONE + f, 1, k + 30);
  }

  lemma PlaceBounds(s: nat, f: nat, v: nat)
    requires f < ONE && v <= s < 2 * v
    ensures s * ONE + f < PRECISION * (v * 0x4000_0000) <= 2 * (s * ONE + f)
  {
  }

  lemma CarriesAt(s: nat, f: nat, u: nat, w: nat)
    requires u > 0 && w > 0 && w % 2 == 0 && u * w == ONE && f < ONE
    ensures var n := NearestEven(s * ONE + f, u);
      (n * u) / ONE == if 2 * (ONE - f) <= u then s + 1 else s
  {
    SumQuotient(s, f, u, w);
    LastStep(f, u, w);
    Odd(s, w);
    SecondsOf(NearestEven(s * ONE + f, u), s, u, w);
  }

  lemma SumQuotient(s: nat, f: nat, u: nat, w: nat)
    requires u > 0 && u * w == ONE
    ensures (s * ONE + f) / u == s * w + f / u && (s * ONE + f) % u == f % u
  {
    var a, r := f / u, f % u;
    assert f == a * u + r;
    calc { s * ONE; s * (w * u); (s * w) * u; }
    assert (s * w + a) * u == (s * w) * u + a * u;
    QuotientIs(s * ONE + f, u, s * w + a, r);
  }

  /** The fraction is in the last of the w places, and in its upper half. */
  lemma LastStep(f: nat, u: nat, w: nat)
    requires u > 0 && w > 0 && u * w == ONE && f < ONE
    ensures f / u < w
    ensures f / u == w - 1 && 2 * (f % u) >= u <==> 2 * (ONE - f) <= u
  {
    var a, r := f / u, f % u;
    assert f == a * u + r;
    Monotone(a, w, u);
    Monotone(w, a, u);
    Monotone(a + 2, w, u);
    assert (w - 1) * u == ONE - u;
    assert (a + 2) * u == a * u + 2 * u;
  }

  lemma Monotone(a: nat, b: nat, u: nat)
    ensures a <= b ==> a * u <= b * u
  {
  }

  lemma QuotientIs(num: nat, den: nat, q: nat, r: nat)
    requires den > 0 && num == q * den + r && r < den
    ensures num / den == q && num % den == r
  {
    var p := num / den;
    assert num == p * den + num % den;
    assert (p + 1) * den == p * den + den && (q + 1) * den == q * den + den;
    Monotone(p + 1, q, den);
    Monotone(q + 1, p, den);
  }

  lemma Odd(s: nat, w: nat)
    requires w % 2 == 0
    ensures w > 0 ==> (s * w + w - 1) % 2 == 1
  {
    var h := w / 2;
    assert s * w == 2 * (s * h);
  }

  /** n of the last places u make s whole seconds, or s + 1. */
  lemma SecondsOf(n: nat, s: nat, u: nat, w: nat)
    requires u > 0 && w > 0 && u * w == ONE && s * w <= n <= s * w + w
    ensures (n * u) / ONE == if n == s * w + w then s + 1 else s
  {
    calc { (s * w) * u; s * (u * w); s * ONE; }
    if n == s * w + w {
      assert n * u == (s + 1) * ONE by { assert (s * w + w) * u == (s * w) * u + w * u; }
      QuotientIs(n * u, ONE, s + 1, 0);
    } else {
      var r := n - s * w;
      assert n * u == s * ONE + r * u by { assert (s * w + r) * u == (s * w) * u + r * u; }
      assert r * u < w * u;
      QuotientIs(n * u, ONE, s, r * u);
    }
  }

  /** What is missing to the next second is at most half a last place of the sum. */
  predicate Carries(whole: nat, nsec: nat) {
    whole > 0 && (SECOND - nsec) * PRECISION <= SECOND * Leading(whole)
  }

  /** The conversion yields one second too many. */
  predicate RoundsUp(timeout: int) {
    timeout >= 0 && Carries(timeout / SECOND, timeout % SECOND)
  }

  /** Half a last place, in the arithmetic of the quotient, which is off by a little. */
  lemma FractionReaches(nsec: nat, k: nat)
    requires nsec < SECOND && k < 34
    ensures var f := ToDouble(nsec * ONE, SECOND);
      2 * (ONE - f) <= Pow2(k + 30) <==> (SECOND - nsec) * PRECISION <= SECOND * Pow2(k)
  {
    var f, d := ToDouble(nsec * ONE, SECOND), SECOND - nsec;
    var v, w := Pow2(k), Pow2(52 - k);
    FractionError(nsec);
    Pow2Add(k, 30);
    Pow2Add(k, 52 - k);
    Pow2Add(19, 33 - k);
    Pow2Values();
    Gap(d, v, w, Pow2(33 - k));
  }

  /** d * 2^82 and the threshold SECOND * v * 2^29 are further apart than the error of
      the quotient. */
  lemma Gap(d: nat, v: nat, w: nat, y: nat)
    requires d > 0 && v > 0 && v * w == 0x10_0000_0000_0000 && w == 0x8_0000 * y
    ensures var gap := d * ONE - SECOND * v * 0x2000_0000;
      gap > SECOND * 0x2000_0000 || gap < -SECOND * 0x2000_0000
    ensures d * ONE - SECOND * v * 0x2000_0000 > 0 <==> d * PRECISION > SECOND * v
  {
    var x := d * y;
    var m := 0x8_0000 * x - 500_000_000;
    assert d * w == 0x8_0000 * x;
    calc {
      d * ONE;
      d * (v * w) * 0x4000_0000;
      (d * w) * v * 0x4000_0000;
      (m + 500_000_000) * v * 0x4000_0000;
      m * v * 0x4000_0000 + 500_000_000 * v * 0x4000_0000;
    }
    assert d * ONE - SECOND * v * 0x2000_0000 == m * v * 0x4000_0000;
    if w >= 0x8000_0000 {
      Monotone(1, d, w);
      Far(m, 1_600_000_000, v, 1);
    } else {
      if v <= 0x20_0000 { Monotone(v, 0x20_0000, w); }
      assert m == 256 * (2048 * x - 1_953_125);
      Far(m, 256, v, 0x20_0000);
    }
  }

  lemma Far(m: int, a: int, v: nat, b: nat)
    requires a >= 0 && v >= b && (m >= a || m <= -a)
    ensures m * v >= a * b || m * v <= -(a * b)
  {
    var n := if m >= 0 then m else -m;
    assert n * v >= a * v >= a * b;
    assert m * v == n * v || m * v == -(n * v);
  }

  /** A fraction of a second stays one. */
  lemma FractionIsNoSecond(nsec: nat)
    requires nsec < SECOND
    ensures var f := ToDouble(nsec * ONE, SECOND); f < ONE && ToDouble(f, 1) / ONE == 0
  {
    var f := ToDouble(nsec * ONE, SECOND);
    FractionError(nsec);
    var u := LastPlace(f, 1, 1);
    Nearest(f, u);
  }

  /** The seconds that are sent, exactly: the remaining time cut to whole seconds, or one
      more when the conversion rounds up. */
  lemma SecondsExact(timeout: int)
    requires 0 < timeout <= MAX_DURATION
    ensures HostSeconds(timeout) == timeout / SECOND + if RoundsUp(timeout) then 1 else 0
  {
    WholeAndFraction(timeout / SECOND, timeout % SECOND);
  }

  lemma WholeAndFraction(whole: nat, nsec: nat)
    requires whole <= MAX_DURATION / SECOND && nsec < SECOND
    ensures Seconds(whole, nsec) / ONE == whole + if Carries(whole, nsec) then 1 else 0
  {
    FractionIsNoSecond(nsec);
    if whole > 0 {
      var k := LeadingIsPower(whole);
      if k >= 34 { PowerTooBig(whole, k); }
      SumCarries(whole, ToDouble(nsec * ONE, SECOND), k);
      FractionReaches(nsec, k);
    }
  }

  lemma PowerTooBig(s: nat, k: nat)
    requires k >= 34 && Pow2(k) <= s
    ensures s > MAX_DURATION / SECOND
  {
    Pow2Grows(34, k);
    Pow2Values();
    assert Pow2(34) == 16 * Pow2(30);
  }

  /* ---------- the request, and the guest ---------- */

  /** The budget that the guest gives a request. */
  function GuestBudget(seconds: int): int {
    if seconds > 0 then Wrap(seconds * SECOND) else DEFAULT_BUDGET
  }

  /** Of two remaining times, where None is "no deadline", the smaller. */
  function Earlier(a: Option<int>, b: Option<int>): Option<int> {
    match (a, b)
    case (None, _) => b
    case (_, None) => a
    case (Some(x), Some(y)) => Some(if x <= y then x else y)
  }

  /** Execute's context: the caller's, cut to the allocation's timeout if that is positive. */
  function ExecuteRemaining(caller: Option<int>, allocTimeout: int): Option<int> {
    if allocTimeout > 0 then Earlier(caller, Some(allocTimeout)) else caller
  }

  /** What remains `elapsed` later. */
  function Later(remaining: Option<int>, elapsed: nat): Option<int> {
    match remaining
    case None => None
    case Some(r) => Some(r - elapsed)
  }

  /** The seconds that Exec sends: without a deadline its timeout stays 0. */
  function SecondsSent(remaining: Option<int>): int {
    match remaining
    case None => HostSeconds(0)
    case Some(r) => HostSeconds(r)
  }

  /** What the tool in the guest gets, given the guest's own remaining time. */
  function ToolBudget(guest: Option<int>, seconds: int): int {
    Earlier(guest, Some(GuestBudget(seconds))).value
  }

  predicate Within(budget: int, remaining: Option<int>) {
    remaining.None? || budget <= remaining.value
  }

  /** By how much a budget can exceed the time that is left: less than a microsecond. */
  const MAX_EXCESS := 953

  /** A second or more is left, and its conversion does not round up. */
  predicate KeepsTime(remaining: int) {
    remaining >= SECOND && !RoundsUp(remaining)
  }

  /** With a second or more left the budget is that time rounded down to a second, and so
      within it, exactly when the conversion does not round up; when it does, the excess
      is less than a microsecond. No product overflows. */
  lemma BudgetRounds(timeout: int)
    requires SECOND <= timeout <= MAX_DURATION
    ensures var g := GuestBudget(HostSeconds(timeout));
      && timeout - SECOND < g <= timeout + MAX_EXCESS
      && (g <= timeout <==> !RoundsUp(timeout))
      && 0 < g <= MAX_DURATION
  {
    SecondsExact(timeout);
    if RoundsUp(timeout) {
      ExcessIsSmall(timeout);
    }
    RoundedBudget(timeout, HostSeconds(timeout), RoundsUp(timeout));
  }

  lemma RoundedBudget(timeout: int, n: int, up: bool)
    requires SECOND <= timeout <= MAX_DURATION && n == timeout / SECOND + if up then 1 else 0
    requires up ==> SECOND - timeout % SECOND <= MAX_EXCESS
    ensures var g := GuestBudget(n);
      && timeout - SECOND < g <= timeout + MAX_EXCESS
      && (g <= timeout <==> !up)
      && 0 < g <= MAX_DURATION
  {
    var s, nsec := timeout / SECOND, timeout % SECOND;
    assert timeout == s * SECOND + nsec;
    WrapFits(n * SECOND);
  }

  lemma WrapFits(x: int)
    requires 0 <= x <= MAX_DURATION
    ensures Wrap(x) == x
  {
  }

  lemma ExcessIsSmall(timeout: int)
    requires timeout <= MAX_DURATION && RoundsUp(timeout)
    ensures SECOND - timeout % SECOND <= MAX_EXCESS
  {
    var k := LeadingIsPower(timeout / SECOND);
    if k >= 34 { PowerTooBig(timeout / SECOND, k); }
    Pow2Grows(k, 33);
    Pow2Values();
    assert Pow2(33) == 8 * Pow2(30);
  }

  /** The first time that rounds up is one nanosecond short of 2^24 + 1 seconds. */
  lemma FirstRoundUp()
    ensures RoundsUp(0x100_0000 * SECOND + 999_999_999)
    ensures forall t :: t < 0x100_0000 * SECOND + 999_999_999 ==> !RoundsUp(t)
  {
    LeadingUpTo24(0x100_0000);
    forall t | 0 <= t < 0x100_0000 * SECOND + 999_999_999 ensures !RoundsUp(t) {
      CarriesLate(t / SECOND, t % SECOND);
    }
  }

  lemma CarriesLate(whole: nat, nsec: nat)
    requires nsec < SECOND && (whole < 0x100_0000 || (whole == 0x100_0000 && nsec < 999_999_999))
    ensures !Carries(whole, nsec)
  {
    if whole > 0 {
      LeadingUpTo24(whole);
    }
  }

  lemma LeadingUpTo24(s: nat)
    requires 0 < s <= 0x100_0000
    ensures if s == 0x100_0000 then Leading(s) == s else Leading(s) <= 0x80_0000
  {
    var k := LeadingIsPower(s);
    Pow2Values();
    if k > 24 { Pow2Grows(25, k); }
    if k < 24 { Pow2Grows(k, 23); }
  }

  /** The guest never gets more time than the host has left, exactly when the host has
      no deadline, or has a second or more left that is not rounded up: with less than
      a second, or a deadline that has passed, the guest falls back to 60 seconds. */
  lemma BudgetWithinRemainingIff(remaining: Option<int>)
    requires remaining.Some? ==> remaining.value <= MAX_DURATION
    ensures var g := GuestBudget(SecondsSent(remaining));
      && (Within(g, remaining) <==> remaining.None? || KeepsTime(remaining.value))
      && (remaining.None? || remaining.value < SECOND ==> g == DEFAULT_BUDGET)
  {
    if remaining.Some? && remaining.value >= SECOND {
      BudgetRounds(remaining.value);
    } else if remaining.Some? && remaining.value > 0 {
      SecondsExact(remaining.value);
    }
  }

  /** A request that no host produces can make the product wrap to a negative budget. */
  lemma ForeignSecondsCanWrap()
    ensures GuestBudget(9_223_372_037) == -9_223_372_036_709_551_616
    ensures forall timeout :: timeout <= MAX_DURATION ==> HostSeconds(timeout) <= 9_223_372_036
  {
    forall timeout | 0 < timeout <= MAX_DURATION ensures HostSeconds(timeout) <= 9_223_372_036 {
      SecondsExact(timeout);
      if RoundsUp(timeout) {
        ExcessIsSmall(timeout);
      }
    }
  }

  /** Of two limits, the lower; an absent one does not limit. */
  predicate IsLower(x: int, a: int, b: Option<int>) {
    match b
    case None => x == a
    case Some(y) => x <= a && x <= y && (x == a || x == y)
  }

  /** From Execute to the tool. Something is left to wait for exactly when the caller has
      a deadline or the allocation a positive timeout, and then it is the lowest of these,
      less the time that has passed. With less than a second left, or no deadline, the
      tool gets 60 seconds; with more, the whole seconds that are left, and one more when
      they round up; each cut to what the guest has. So the budget is within what is left
      exactly when the request keeps time or the guest has no more than that. */
  lemma EndToEndBudget(caller: Option<int>, allocTimeout: int, elapsed: nat, guest: Option<int>)
    requires allocTimeout <= 0x7fff_ffff_ffff_ffff && (caller.Some? ==> caller.value <= 0x7fff_ffff_ffff_ffff)
    ensures var left := Later(ExecuteRemaining(caller, allocTimeout), elapsed);
      var g := ToolBudget(guest, SecondsSent(left));
      && (left.None? <==> allocTimeout <= 0 && caller.None?)
      && (left.Some? && allocTimeout > 0 ==> IsLower(left.value + elapsed, allocTimeout, caller))
      && (left.Some? && allocTimeout <= 0 ==> caller == Some(left.value + elapsed))
      && (left.None? || left.value < 1_000_000_000 ==> IsLower(g, 60_000_000_000, guest))
      && (left.Some? && left.value >= 1_000_000_000 ==>
            var n := left.value / 1_000_000_000 + if RoundsUp(left.value) then 1 else 0;
            && IsLower(g, n * 1_000_000_000, guest)
            && left.value - 1_000_000_000 < n * 1_000_000_000 <= left.value + 953)
      && (left.None? || g <= left.value <==>
            left.None? || KeepsTime(left.value) || (guest.Some? && guest.value <= left.value))
  {
    var left := Later(ExecuteRemaining(caller, allocTimeout), elapsed);
    BudgetWithinRemainingIff(left);
    if left.Some? && left.value >= SECOND {
      WholeSecondsSent(left.value);
    }
  }

  /** The budget that arrives, in whole seconds. */
  lemma WholeSecondsSent(timeout: int)
    requires SECOND <= timeout <= MAX_DURATION
    ensures var n := timeout / SECOND + if RoundsUp(timeout) then 1 else 0;
      GuestBudget(HostSeconds(timeout)) == n * SECOND && timeout - SECOND < n * SECOND <= timeout + MAX_EXCESS
  {
    SecondsExact(timeout);
    BudgetRounds(timeout);
    WholeSecondsFit(timeout, HostSeconds(timeout), RoundsUp(timeout));
  }

  lemma WholeSecondsFit(timeout: int, n: int, up: bool)
    requires SECOND <= timeout <= MAX_DURATION && n == timeout / SECOND + if up then 1 else 0
    requires up ==> 0 < GuestBudget(n) <= timeout + MAX_EXCESS
    ensures GuestBudget(n) == n * SECOND && timeout - SECOND < n * SECOND
  {
    assert 0 < n * SECOND <= timeout + SECOND;
  }
}
