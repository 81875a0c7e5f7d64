/** Retry delays. The sync engine and the outbox publisher compute the same
    function: two to the number of attempts, in seconds, as a signed 64-bit count
    of nanoseconds, cut off at a ceiling. The product wraps around. */
module Backoff {

  const SECOND: int := 1_000_000_000
  const MILLISECOND: int := 1_000_000
  const FIVE_MINUTES: int := 300 * SECOND

  const TWO_TO_63: int := 0x8000_0000_0000_0000
  const TWO_TO_64: int := 0x1_0000_0000_0000_0000

  // 5^9, the odd part of a second: SECOND == 2^9 * 5^9.
  const ODD_PART: int := 1_953_125

  function Pow2(n: nat): (r: nat)
    ensures r > 0
  {
    if n == 0 then 1 else 2 * Pow2(n - 1)
  }

  // Two's complement value of the low 64 bits of x.
  function Wrap64(x: int): int {
    (x + TWO_TO_63) % TWO_TO_64 - TWO_TO_63
  }

  // The float 2^attempts converted to int64. Up to 2^62 the conversion is exact;
  // beyond, the result is whatever the platform's conversion instruction leaves.
  function PowerAsInt64(attempts: nat, outOfRange: int): int {
    if attempts <= 62 then Pow2(attempts) else outOfRange
  }

  function Clamp(attempts: int): nat {
    if attempts < 1 then 1 else attempts
  }

  function Delay(attempts: int, maxDelay: int, outOfRange: int): int {
    var d := Wrap64(PowerAsInt64(Clamp(attempts), outOfRange) * SECOND);
    if d > maxDelay then maxDelay else d
  }

  // A delay reaches Postgres as a whole number of milliseconds, truncated toward zero.
  function Interval(delay: int): int {
    if delay >= 0 then delay / MILLISECOND * MILLISECOND
    else -((-delay) / MILLISECOND * MILLISECOND)
  }

  lemma {:induction false} Pow2Add(m: nat, n: nat)
    ensures Pow2(m + n) == Pow2(m) * Pow2(n)
  {
    if m == 0 {
    } else {
      Pow2Add(m - 1, n);
      assert Pow2(m + n) == 2 * Pow2(m - 1 + n);
      assert 2 * (Pow2(m - 1) * Pow2(n)) == (2 * Pow2(m - 1)) * Pow2(n);
    }
  }

  lemma {:induction false} Pow2Mono(m: nat, n: nat)
    requires m <= n
    ensures Pow2(m) <= Pow2(n)
  {
    Pow2Add(m, n - m);
    assert Pow2(m) * 1 <= Pow2(m) * Pow2(n - m);
  }

  /** Up to 33 attempts nothing wraps: the delay is 2^attempts seconds or the ceiling. */
  lemma DelayExact(attempts: int, maxDelay: int, outOfRange: int)
    requires attempts <= 33
    ensures var exact := Pow2(Clamp(attempts)) * SECOND;
            Delay(attempts, maxDelay, outOfRange) == if exact <= maxDelay then exact else maxDelay
    ensures maxDelay > 0 ==> Delay(attempts, maxDelay, outOfRange) > 0
  {
    Pow2Mono(Clamp(attempts), 33);
    PowersOfTwo();
  }

  /** Spelled out: the first delay is two seconds, each further one the double, and the ceiling cuts them off. */
  lemma DelayDoubles(attempts: int, maxDelay: int, outOfRange: int)
    requires attempts <= 32 && maxDelay > 0
    ensures attempts <= 1 ==>
      Delay(attempts, maxDelay, outOfRange) == if 2_000_000_000 <= maxDelay then 2_000_000_000 else maxDelay
    ensures attempts >= 1 ==>
      var twice := 2 * Delay(attempts, maxDelay, outOfRange);
      Delay(attempts + 1, maxDelay, outOfRange) == if twice <= maxDelay then twice else maxDelay
  {
    DelayExact(attempts, maxDelay, outOfRange);
    DelayExact(attempts + 1, maxDelay, outOfRange);
  }

  lemma DelayMonotone(fewer: int, more: int, maxDelay: int, outOfRange: int)
    requires fewer <= more <= 33
    ensures Delay(fewer, maxDelay, outOfRange) <= Delay(more, maxDelay, outOfRange)
  {
    DelayExact(fewer, maxDelay, outOfRange);
    DelayExact(more, maxDelay, outOfRange);
    Pow2Mono(Clamp(fewer), Clamp(more));
  }

  // The product 2^a seconds is 5^9 shifted left by a + 9 bits.
  lemma ShiftedSecond(a: nat)
    ensures Pow2(a) * SECOND == Pow2(a + 9) * ODD_PART
  {
    Pow2Add(a, 9);
    PowersOfTwo();
    assert Pow2(a) * (512 * ODD_PART) == (Pow2(a) * 512) * ODD_PART;
  }

  // Shifting left by p bits and keeping 64 keeps exactly the low 64 - p bits.
  lemma ShiftModulo(x: nat, p: nat, q: nat)
    requires p > 0 && q > 0
    ensures (p * x) % (p * q) == p * (x % q)
  {
    var d, r := x / q, x % q;
    assert x == q * d + r;
    assert p * x == (p * q) * d + p * r by {
      assert p * (q * d) == (p * q) * d;
    }
    assert 0 <= p * r < p * q by {
      assert p * (q - r) > 0;
    }
    ModuloUnique(p * x, p * q, d, p * r);
  }

  lemma ModuloUnique(n: int, m: int, k: int, r: int)
    requires 0 <= r < m && n == m * k + r
    ensures n % m == r
  {
    QuotientUnique(m, k, r, n / m, n % m);
  }

  lemma QuotientUnique(m: int, k: int, r: int, k': int, r': int)
    requires 0 <= r < m && 0 <= r' < m && m * k + r == m * k' + r'
    ensures r == r'
  {
    var t := k - k';
    assert m * t == r' - r by {
      assert m * (k - k') == m * k - m * k';
    }
    MultipleIsFar(m, t);
  }

  lemma MultipleIsFar(m: int, t: int)
    requires m > 0
    ensures t >= 1 ==> m * t >= m
    ensures t <= -1 ==> m * t <= -m
  {
    assert t >= 1 ==> m * (t - 1) >= 0;
    assert t <= -1 ==> m * (-1 - t) >= 0;
  }

  // Bit 54 - attempts of 5^9 is the sign bit of the wrapped product.
  predicate SignBit(attempts: nat)
    requires attempts <= 54
  {
    ODD_PART / Pow2(54 - attempts) % 2 == 1
  }

  lemma SignFromLowBits(x: nat, h: nat)
    requires h > 0
    ensures x % (2 * h) >= h <==> x / h % 2 == 1
    ensures h > x % h
    ensures x % (2 * h) == h * (x / h % 2) + x % h
  {
    var d, r := x / h, x % h;
    var e, b := d / 2, d % 2;
    assert x == h * d + r;
    assert d == 2 * e + b;
    assert h * d == (2 * h) * e + h * b by {
      assert h * (2 * e) == (2 * h) * e;
      assert h * (2 * e + b) == h * (2 * e) + h * b;
    }
    assert b == 0 || b == 1;
    ModuloUnique(x, 2 * h, e, h * b + r);
  }

  lemma WrapOfLow(x: nat, low: nat)
    requires x % TWO_TO_64 == low
    ensures Wrap64(x) == if low >= TWO_TO_63 then low - TWO_TO_64 else low
  {
  }

  // Every attempt count from 34 to 62, before the ceiling is applied.
  lemma WrappedProduct(attempts: nat)
    requires 34 <= attempts <= 62
    ensures attempts >= 55 ==> Wrap64(Pow2(attempts) * SECOND) == 0
    ensures attempts <= 54 && SignBit(attempts) ==> Wrap64(Pow2(attempts) * SECOND) + Pow2(43) <= 0
    ensures attempts <= 54 && !SignBit(attempts) ==> Wrap64(Pow2(attempts) * SECOND) >= Pow2(43)
  {
    if attempts >= 55 {
      VanishingProduct(attempts);
    } else {
      LowBitsOfProduct(attempts);
      Pow2Mono(43, attempts + 9);
      WrapOfScaled(Pow2(attempts) * SECOND, Pow2(attempts + 9), Pow2(54 - attempts));
    }
  }

  lemma WrapOfScaled(product: nat, p: nat, h: nat)
    requires p > 0 && h > 0 && p * h == TWO_TO_63 && p * (2 * h) == TWO_TO_64
    requires product % TWO_TO_64 == p * (ODD_PART % (2 * h))
    ensures ODD_PART / h % 2 == 1 ==> Wrap64(product) + p <= 0
    ensures ODD_PART / h % 2 != 1 ==> Wrap64(product) >= p
  {
    var kept := ODD_PART % (2 * h);
    LowBitsAreOdd(ODD_PART, 2 * h);
    SignFromLowBits(ODD_PART, h);
    ScaledComparison(p, kept, h);
    WrapOfLow(product, p * kept);
  }

  lemma ScaledComparison(p: int, kept: int, h: int)
    requires p > 0 && 0 < kept < 2 * h
    ensures p <= p * kept <= p * (2 * h) - p
    ensures kept >= h ==> p * kept >= p * h
    ensures kept < h ==> p * kept < p * h
  {
    MultipleIsFar(p, kept);
    MultipleIsFar(p, 2 * h - kept);
    MultipleIsFar(p, h - kept);
    assert p * (2 * h - kept) == p * (2 * h) - p * kept;
    assert p * (h - kept) == p * h - p * kept;
  }

  lemma VanishingProduct(attempts: nat)
    requires 55 <= attempts
    ensures Wrap64(Pow2(attempts) * SECOND) == 0
  {
    ShiftedSecond(attempts);
    Pow2Add(64, attempts - 55);
    PowersOfTwo();
    MultipleVanishes(Pow2(attempts) * SECOND, Pow2(attempts - 55));
  }

  lemma MultipleVanishes(product: nat, k: nat)
    requires product == (TWO_TO_64 * k) * ODD_PART
    ensures Wrap64(product) == 0
  {
    ModuloUnique(product, TWO_TO_64, k * ODD_PART, 0);
    WrapOfLow(product, 0);
  }

  lemma LowBitsOfProduct(attempts: nat)
    requires attempts <= 54
    ensures var p, h := Pow2(attempts + 9), Pow2(54 - attempts);
            p * h == TWO_TO_63
            && p * (2 * h) == TWO_TO_64
            && Pow2(attempts) * SECOND % TWO_TO_64 == p * (ODD_PART % (2 * h))
  {
    ShiftedSecond(attempts);
    Pow2Add(attempts + 9, 54 - attempts);
    PowersOfTwo();
    LowBitsOfShift(Pow2(attempts) * SECOND, Pow2(attempts + 9), Pow2(54 - attempts));
  }

  lemma LowBitsOfShift(product: nat, p: nat, h: nat)
    requires p > 0 && h > 0 && p * h == TWO_TO_63 && product == p * ODD_PART
    ensures p * (2 * h) == TWO_TO_64
    ensures product % TWO_TO_64 == p * (ODD_PART % (2 * h))
  {
    assert p * (2 * h) == 2 * (p * h);
    ShiftModulo(ODD_PART, p, 2 * h);
  }

  lemma LowBitsAreOdd(x: nat, even: nat)
    requires x % 2 == 1 && even > 0 && even % 2 == 0
    ensures x % even > 0
  {
    var k, half, r := x / even, even / 2, x % even;
    assert x == (2 * half) * k + r;
    assert (2 * half) * k == 2 * (half * k);
    assert r % 2 == 1;
  }

  lemma PowersOfTwo()
    ensures Pow2(9) == 512 && Pow2(20) == 1_048_576 && Pow2(33) == 0x2_0000_0000
    ensures Pow2(43) == 0x800_0000_0000 && Pow2(63) == TWO_TO_63 && Pow2(64) == TWO_TO_64
  {
    assert Pow2(10) == 1024;
    Pow2Add(10, 10);
    Pow2Add(20, 10);
    assert Pow2(3) == 8;
    Pow2Add(30, 3);
    Pow2Add(33, 10);
    Pow2Add(43, 20);
    Pow2Add(63, 1);
  }

  /** The sign of the delay, for every attempt count whose power fits an int64. */
  lemma DelaySign(attempts: int, maxDelay: int, outOfRange: int)
    requires attempts <= 62 && maxDelay > 0
    ensures Delay(attempts, maxDelay, outOfRange) < 0
       <==> 34 <= attempts <= 54 && SignBit(attempts)
    ensures Delay(attempts, maxDelay, outOfRange) < 0 ==> Delay(attempts, maxDelay, outOfRange) <= -MILLISECOND
    ensures Delay(attempts, maxDelay, outOfRange) == 0 <==> attempts >= 55
  {
    if attempts <= 33 {
      DelayExact(attempts, maxDelay, outOfRange);
    } else {
      WrappedProduct(attempts);
      PowersOfTwo();
    }
  }

  /** Past 33 attempts, under the five-minute ceiling, the delay is the ceiling,
      negative, or zero; nothing in between. */
  lemma DelayPastRange(attempts: int, outOfRange: int)
    requires 34 <= attempts <= 62
    ensures var d := Delay(attempts, FIVE_MINUTES, outOfRange);
            d == if attempts >= 55 then 0
                 else if SignBit(attempts) then Wrap64(Pow2(attempts) * SECOND)
                 else FIVE_MINUTES
    ensures attempts <= 54 && SignBit(attempts) ==> Delay(attempts, FIVE_MINUTES, outOfRange) < 0
  {
    WrappedProduct(attempts);
    PowersOfTwo();
  }

  // The 34th failure is the first whose retry is scheduled in the past.
  lemma FirstNegativeDelay(maxDelay: int, outOfRange: int)
    requires maxDelay > 0
    ensures Delay(34, maxDelay, outOfRange) < 0
    ensures forall a :: a <= 33 ==> Delay(a, maxDelay, outOfRange) > 0
  {
    PowersOfTwo();
    assert SignBit(34);
    DelaySign(34, maxDelay, outOfRange);
    forall a | a <= 33
      ensures Delay(a, maxDelay, outOfRange) > 0
    {
      DelayExact(a, maxDelay, outOfRange);
    }
  }

  lemma DelayAtMostCeiling(attempts: int, maxDelay: int, outOfRange: int)
    ensures Delay(attempts, maxDelay, outOfRange) <= maxDelay
  {
  }

  // Postgres stores the delay unchanged exactly when it is a whole number of milliseconds.
  lemma IntervalExact(delay: int)
    ensures Interval(delay) == delay <==> delay % MILLISECOND == 0
    ensures delay >= 0 ==> 0 <= Interval(delay) <= delay
    ensures Interval(delay) <= 0 || Interval(delay) <= delay
    ensures Interval(delay) < 0 <==> delay <= -MILLISECOND
  {
    if delay < 0 {
      var n := -delay;
      assert n == n / MILLISECOND * MILLISECOND + n % MILLISECOND;
    }
  }

  /** What is stored is whole milliseconds, toward zero, and less than one away from the delay. */
  lemma IntervalTruncates(delay: int)
    ensures Interval(delay) % 1_000_000 == 0
    ensures delay >= 0 ==> 0 <= Interval(delay) <= delay < Interval(delay) + 1_000_000
    ensures delay <= 0 ==> Interval(delay) - 1_000_000 < delay <= Interval(delay) <= 0
  {
    var n := if delay >= 0 then delay else -delay;
    var q := n / 1_000_000;
    assert n == q * 1_000_000 + n % 1_000_000;
    ModuloUnique(q * 1_000_000, 1_000_000, q, 0);
    ModuloUnique(-(q * 1_000_000), 1_000_000, -q, 0);
  }

  lemma DelayIsWholeMilliseconds(attempts: int, maxDelay: int, outOfRange: int)
    requires attempts <= 33 && maxDelay % MILLISECOND == 0
    ensures Delay(attempts, maxDelay, outOfRange) % MILLISECOND == 0
  {
    DelayExact(attempts, maxDelay, outOfRange);
    var p := Pow2(Clamp(attempts));
    assert p * SECOND == (p * 1000) * MILLISECOND;
    ModuloUnique(p * SECOND, MILLISECOND, p * 1000, 0);
  }

  // The attempt counts after which a retry is stored for an instant already past.
  predicate InPast(attempts: nat, outOfRange: int) {
    if attempts <= 62 then 34 <= attempts <= 54 && SignBit(attempts)
    else Wrap64(outOfRange * SECOND) <= -MILLISECOND
  }

  /** A retry is stored in the past exactly for those counts, whatever the ceiling. */
  lemma RetryInPastIff(attempts: nat, maxDelay: int, outOfRange: int)
    requires maxDelay > 0
    ensures Interval(Delay(attempts, maxDelay, outOfRange)) < 0 <==> InPast(attempts, outOfRange)
  {
    IntervalExact(Delay(attempts, maxDelay, outOfRange));
    if attempts <= 62 {
      DelaySign(attempts, maxDelay, outOfRange);
    }
  }

  lemma HighPowers()
    ensures Pow2(34) == 0x400000000 && Pow2(35) == 0x800000000 && Pow2(36) == 0x1000000000
    ensures Pow2(37) == 0x2000000000 && Pow2(38) == 0x4000000000 && Pow2(39) == 0x8000000000
    ensures Pow2(40) == 0x10000000000 && Pow2(41) == 0x20000000000 && Pow2(42) == 0x40000000000
    ensures Pow2(43) == 0x80000000000 && Pow2(44) == 0x100000000000 && Pow2(45) == 0x200000000000
    ensures Pow2(46) == 0x400000000000 && Pow2(47) == 0x800000000000 && Pow2(48) == 0x1000000000000
    ensures Pow2(49) == 0x2000000000000 && Pow2(50) == 0x4000000000000 && Pow2(51) == 0x8000000000000
    ensures Pow2(52) == 0x10000000000000 && Pow2(53) == 0x20000000000000 && Pow2(54) == 0x40000000000000
  {
    PowersOfTwo();
    assert Pow2(34) == 0x400000000;
    assert Pow2(35) == 0x800000000;
    assert Pow2(36) == 0x1000000000;
    assert Pow2(37) == 0x2000000000;
    assert Pow2(38) == 0x4000000000;
    assert Pow2(39) == 0x8000000000;
    assert Pow2(40) == 0x10000000000;
    assert Pow2(41) == 0x20000000000;
    assert Pow2(42) == 0x40000000000;
    assert Pow2(43) == 0x80000000000;
    assert Pow2(44) == 0x100000000000;
    assert Pow2(45) == 0x200000000000;
    assert Pow2(46) == 0x400000000000;
    assert Pow2(47) == 0x800000000000;
    assert Pow2(48) == 0x1000000000000;
    assert Pow2(49) == 0x2000000000000;
    assert Pow2(50) == 0x4000000000000;
    assert Pow2(51) == 0x8000000000000;
    assert Pow2(52) == 0x10000000000000;
    assert Pow2(53) == 0x20000000000000;
    assert Pow2(54) == 0x40000000000000;
  }

  lemma WrapsTo(power: int, turns: int, rest: int)
    requires power * 1_000_000_000 == 0x1_0000_0000_0000_0000 * turns + rest
    requires -0x8000_0000_0000_0000 <= rest < 0x8000_0000_0000_0000
    ensures Wrap64(power * SECOND) == rest
  {
    ModuloUnique(power * SECOND + TWO_TO_63, TWO_TO_64, turns, rest + TWO_TO_63);
  }

  // From 34 attempts on, until it vanishes, the wrapped product is no whole number of milliseconds.
  lemma WrappedIsBroken(attempts: nat)
    requires 34 <= attempts <= 54
    ensures Wrap64(Pow2(attempts) * SECOND) % MILLISECOND != 0
  {
    HighPowers();
    match attempts
    case 34 => WrapsTo(0x400000000, 1, -1266874889709551616);
    case 35 => WrapsTo(0x800000000, 2, -2533749779419103232);
    case 36 => WrapsTo(0x1000000000, 4, -5067499558838206464);
    case 37 => WrapsTo(0x2000000000, 7, 8311744956033138688);
    case 38 => WrapsTo(0x4000000000, 15, -1823254161643274240);
    case 39 => WrapsTo(0x8000000000, 30, -3646508323286548480);
    case 40 => WrapsTo(0x10000000000, 60, -7293016646573096960);
    case 41 => WrapsTo(0x20000000000, 119, 3860710780563357696);
    case 42 => WrapsTo(0x40000000000, 238, 7721421561126715392);
    case 43 => WrapsTo(0x80000000000, 477, -3003900951456120832);
    case 44 => WrapsTo(0x100000000000, 954, -6007801902912241664);
    case 45 => WrapsTo(0x200000000000, 1907, 6431140267885068288);
    case 46 => WrapsTo(0x400000000000, 3815, -5584463537939415040);
    case 47 => WrapsTo(0x800000000000, 7629, 7277816997830721536);
    case 48 => WrapsTo(0x1000000000000, 15259, -3891110078048108544);
    case 49 => WrapsTo(0x2000000000000, 30518, -7782220156096217088);
    case 50 => WrapsTo(0x4000000000000, 61035, 2882303761517117440);
    case 51 => WrapsTo(0x8000000000000, 122070, 5764607523034234880);
    case 52 => WrapsTo(0x10000000000000, 244141, -6917529027641081856);
    case 53 => WrapsTo(0x20000000000000, 488281, 4611686018427387904);
    case 54 => WrapsTo(0x40000000000000, 976563, -9223372036854775808);
  }

  // The attempt counts after which the delay is a whole number of milliseconds: the product does not
  // wrap, vanishes, or is cut off at the ceiling.
  predicate IsWhole(attempts: int, maxDelay: int) {
    attempts <= 33 || attempts >= 55 || Wrap64(Pow2(attempts) * SECOND) > maxDelay
  }

  /** Under any whole-millisecond ceiling, those are exactly the counts whose delay is stored unchanged. */
  lemma WholeMillisecondsIff(attempts: int, maxDelay: int, outOfRange: int)
    requires attempts <= 62 && maxDelay > 0 && maxDelay % MILLISECOND == 0
    ensures Interval(Delay(attempts, maxDelay, outOfRange)) == Delay(attempts, maxDelay, outOfRange)
       <==> IsWhole(attempts, maxDelay)
  {
    IntervalExact(Delay(attempts, maxDelay, outOfRange));
    if attempts <= 33 {
      DelayIsWholeMilliseconds(attempts, maxDelay, outOfRange);
    } else if attempts >= 55 {
      WrappedProduct(attempts);
    } else {
      WrappedIsBroken(attempts);
    }
  }
}
