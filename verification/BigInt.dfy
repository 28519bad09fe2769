/** The 2048-bit arithmetic of the signature check: sixty-four 32-bit limbs, least
    significant first, added with carry, subtracted with borrow, and multiplied modulo N
    by doubling and adding. Every loop is proved against plain integer arithmetic. */
module BigInt {
  import opened Arithmetic

  const LIMBS := 64
  const LIMB: nat := 0x1_0000_0000

  type Limb = x: int | 0 <= x < 0x1_0000_0000
  type Limbs = s: seq<Limb> | |s| == 64 witness seq(64, _ => 0)

  /** The number a little-endian limb sequence stands for. */
  function Value(s: seq<Limb>): nat {
    if |s| == 0 then 0 else Value(s[..|s| - 1]) + s[|s| - 1] * Power(LIMB, |s| - 1)
  }

  lemma ValueSnoc(s: seq<Limb>, i: nat)
    requires i < |s|
    ensures Value(s[..i + 1]) == Value(s[..i]) + s[i] * Power(LIMB, i)
  {
    assert s[..i + 1][..i] == s[..i];
  }

  lemma {:induction false} ValueBound(s: seq<Limb>)
    ensures Value(s) < Power(LIMB, |s|)
  {
    if |s| > 0 {
      var n := |s| - 1;
      ValueBound(s[..n]);
      var d, p := s[n], Power(LIMB, n);
      assert d * p <= (LIMB - 1) * p by {
        MulMonotone(d, LIMB - 1, p);
      }
    }
  }

  lemma MulMonotone(a: nat, b: nat, p: nat)
    requires a <= b
    ensures a * p <= b * p
  {
    assert b * p == a * p + (b - a) * p;
  }

  // ---------- Comparison ----------

  datatype Ordering = Less | Equal | Greater

  lemma {:induction false} ValueSuffix(a: seq<Limb>, b: seq<Limb>, i: nat)
    requires i <= |a| == |b| && a[i..] == b[i..]
    ensures Value(a) - Value(a[..i]) == Value(b) - Value(b[..i])
    decreases |a| - i
  {
    if i == |a| {
      assert a[..i] == a && b[..i] == b;
    } else {
      assert a[i] == a[i..][0] == b[i..][0] == b[i];
      assert a[i + 1..] == a[i..][1..] == b[i..][1..] == b[i + 1..];
      ValueSuffix(a, b, i + 1);
      ValueSnoc(a, i);
      ValueSnoc(b, i);
    }
  }

  lemma TopLimbDecides(a: seq<Limb>, b: seq<Limb>, i: nat)
    requires i < |a| == |b| && a[i + 1..] == b[i + 1..] && a[i] < b[i]
    ensures Value(a) < Value(b)
  {
    hide Value, Power;
    ValueSuffix(a, b, i + 1);
    ValueSnoc(a, i);
    ValueSnoc(b, i);
    ValueBound(a[..i]);
    HigherLimbWins(Value(a[..i]), a[i], Value(b[..i]), b[i], Power(LIMB, i));
  }

  lemma HigherLimbWins(a: nat, x: nat, b: nat, y: nat, p: nat)
    requires a < p && x < y
    ensures a + x * p < b + y * p
  {
    MulMonotone(x + 1, y, p);
    assert (x + 1) * p == x * p + p;
  }

  method Compare(a: Limbs, b: Limbs) returns (r: Ordering)
    ensures r == if Value(a) < Value(b) then Less else if Value(a) == Value(b) then Equal else Greater
  {
    var i := LIMBS;
    while i > 0
      invariant 0 <= i <= LIMBS && a[i..] == b[i..]
    {
      i := i - 1;
      if a[i] < b[i] {
        TopLimbDecides(a, b, i);
        return Less;
      } else if a[i] > b[i] {
        TopLimbDecides(b, a, i);
        return Greater;
      }
      assert a[i..] == [a[i]] + a[i + 1..] && b[i..] == [b[i]] + b[i + 1..];
    }
    assert a == a[0..] && b == b[0..];
    return Equal;
  }

  // ---------- Addition and subtraction ----------

  lemma CarryStep(a: nat, b: nat, s: nat, carry: nat, x: nat, y: nat, d: nat, carry': nat, p: nat)
    requires s + carry * p == a + b && x + y + carry == d + carry' * LIMB
    ensures (s + d * p) + carry' * (LIMB * p) == (a + x * p) + (b + y * p)
  {
    assert (x + y + carry) * p == (d + carry' * LIMB) * p;
    assert (carry' * LIMB) * p == carry' * (LIMB * p);
  }

  method AddLimbs(a: Limbs, b: Limbs) returns (r: Limbs, carry: nat)
    ensures carry <= 1 && Value(r) + carry * Power(LIMB, LIMBS) == Value(a) + Value(b)
  {
    hide Value;
    EmptyValue();
    var sum := new Limb[LIMBS](_ => 0);
    carry := 0;
    for i := 0 to LIMBS
      invariant carry <= 1
      invariant Value(sum[..i]) + carry * Power(LIMB, i) == Value(a[..i]) + Value(b[..i])
    {
      var next := a[i] + b[i] + carry;
      ghost var before := sum[..i];
      CarryStep(Value(a[..i]), Value(b[..i]), Value(before), carry, a[i], b[i], next % LIMB, next / LIMB,
                Power(LIMB, i));
      sum[i], carry := next % LIMB, next / LIMB;
      assert sum[..i] == before;
      assert sum[..][..i + 1] == sum[..i + 1] && sum[..][..i] == sum[..i];
      ValueSnoc(sum[..], i);
      ValueSnoc(a, i);
      ValueSnoc(b, i);
    }
    r := sum[..];
    assert sum[..LIMBS] == r && a[..LIMBS] == a && b[..LIMBS] == b;
  }

  lemma BorrowStep(a: nat, b: nat, s: nat, borrow: nat, x: nat, y: nat, d: nat, borrow': nat, p: nat)
    requires s + b == a + borrow * p && d + y + borrow == x + borrow' * LIMB
    ensures (s + d * p) + (b + y * p) == (a + x * p) + borrow' * (LIMB * p)
  {
    assert (d + y + borrow) * p == (x + borrow' * LIMB) * p;
    assert (borrow' * LIMB) * p == borrow' * (LIMB * p);
  }

  /** Subtraction wraps around exactly when it goes below zero. */
  method Subtract(a: Limbs, b: Limbs) returns (r: Limbs)
    ensures Value(r) == Value(a) - Value(b) + if Value(a) < Value(b) then Power(LIMB, LIMBS) else 0
  {
    hide Value;
    EmptyValue();
    var result := new Limb[LIMBS](_ => 0);
    var borrow := 0;
    for i := 0 to LIMBS
      invariant 0 <= borrow <= 1
      invariant Value(result[..i]) + Value(b[..i]) == Value(a[..i]) + borrow * Power(LIMB, i)
    {
      var subtrahend := b[i] + borrow;
      var borrow' := if a[i] < subtrahend then 1 else 0;
      ghost var before := result[..i];
      BorrowStep(Value(a[..i]), Value(b[..i]), Value(before), borrow, a[i], b[i], a[i] - subtrahend + borrow' * LIMB,
                 borrow', Power(LIMB, i));
      result[i], borrow := a[i] - subtrahend + borrow' * LIMB, borrow';
      assert result[..i] == before;
      assert result[..][..i + 1] == result[..i + 1] && result[..][..i] == result[..i];
      ValueSnoc(result[..], i);
      ValueSnoc(a, i);
      ValueSnoc(b, i);
    }
    r := result[..];
    assert result[..LIMBS] == r && a[..LIMBS] == a && b[..LIMBS] == b;
    ValueBound(r);
    ValueBound(a);
    Wrapped(Value(r), Value(a), Value(b), borrow, Power(LIMB, LIMBS));
  }

  lemma Wrapped(r: nat, a: nat, b: nat, borrow: nat, p: nat)
    requires borrow <= 1 && r + b == a + borrow * p && r < p && a < p
    ensures r == a - b + if a < b then p else 0
  {
  }

  lemma EmptyValue()
    ensures Value([]) == 0 && Power(LIMB, 0) == 1
  {
  }

  /** Modular addition, including the case where the sum no longer fits in 64 limbs. */
  method AddMod(a: Limbs, b: Limbs, n: Limbs) returns (r: Limbs)
    ensures Value(a) < Value(n) && Value(b) < Value(n) ==> Value(r) == (Value(a) + Value(b)) % Value(n)
  {
    hide Value, Power;
    var sum, carry := AddLimbs(a, b);
    var order := Compare(sum, n);
    if carry != 0 || order != Less {
      r := Subtract(sum, n);
    } else {
      r := sum;
    }
    ValueBound(n);
    if Value(a) < Value(n) && Value(b) < Value(n) {
      ReducedSum(Value(a), Value(b), Value(n), Value(sum), carry, Value(r), Power(LIMB, LIMBS));
    }
  }

  lemma ReducedSum(a: nat, b: nat, n: nat, sum: nat, carry: nat, r: nat, p: nat)
    requires a < n && b < n < p && carry <= 1 && sum + carry * p == a + b
    requires if carry != 0 || sum >= n then r == sum - n + (if sum < n then p else 0) else r == sum
    ensures r == (a + b) % n
  {
    DivModUnique(a + b, n, if r == a + b then 0 else 1, r);
  }

  // ---------- Multiplication ----------

  predicate BitSet(b: Limbs, k: nat)
    requires k < 2048
  {
    PowerPositive(2, k % 32);
    (b[k / 32] / Power(2, k % 32)) % 2 == 1
  }

  /** The number formed by the lowest k bits. */
  ghost function LowBits(b: Limbs, k: nat): nat
    requires k <= 2048
  {
    if k == 0 then 0 else LowBits(b, k - 1) + if BitSet(b, k - 1) then Power(2, k - 1) else 0
  }

  lemma Halved(p: nat, h: nat, t: nat, r: nat)
    requires r < p && t < 2
    ensures p * (2 * h + t) + r == (2 * p) * h + (t * p + r) && t * p + r < 2 * p
  {
    assert p * (2 * h + t) == p * (2 * h) + p * t;
  }

  lemma DivModIs(x: nat, p: nat)
    requires 0 < p
    ensures x == p * (x / p) + x % p && x % p < p
  {
  }

  /** The remainder by twice a divisor, from the remainder by the divisor and one more bit. */
  lemma ModTwice(x: nat, p: nat, q: nat, r: nat, h: nat, t: nat)
    requires r < p && t < 2 && x == p * q + r && q == 2 * h + t
    ensures x % (2 * p) == r + t * p
  {
    Halved(p, h, t, r);
    DivModUnique(x, 2 * p, h, t * p + r);
  }

  lemma LowBit(x: nat, i: nat)
    ensures 0 < Power(2, i) && x % Power(2, i + 1) == x % Power(2, i) + ((x / Power(2, i)) % 2) * Power(2, i)
  {
    hide Power;
    PowerPositive(2, i);
    var p := Power(2, i);
    DivModIs(x, p);
    ModTwice(x, p, x / p, x % p, x / p / 2, x / p % 2);
    PowerDoubles(i + 1);
  }

  lemma LimbPower(j: nat)
    ensures Power(LIMB, j) == Power(2, 32 * j)
  {
    TwoTo32();
    PowerProduct(2, 32, j);
  }

  lemma TwoTo32()
    ensures Power(2, 32) == LIMB
  {
    assert Power(2, 8) == 256;
    PowerSum(2, 8, 8);
    PowerSum(2, 16, 16);
  }

  /** The value of the limbs below bit k, and of that limb's own low bits. */
  ghost function Below(b: Limbs, k: nat): nat {
    if k < 2048 then
      PowerPositive(2, k % 32);
      Value(b[..k / 32]) + (b[k / 32] % Power(2, k % 32)) * Power(LIMB, k / 32)
    else Value(b)
  }

  lemma BelowStep(b: Limbs, k: nat)
    requires k < 2048
    ensures Below(b, k + 1) == Below(b, k) + if BitSet(b, k) then Power(2, k) else 0
  {
    hide Value, Power;
    var j, i := k / 32, k % 32;
    LowBit(b[j], i);
    var p, q := Power(2, i), Power(LIMB, j);
    assert Power(2, k) == p * q by {
      LimbPower(j);
      PowerSum(2, i, 32 * j);
    }
    PowerPositive(2, i + 1);
    ScaledBit(b[j] % Power(2, i + 1), b[j] % p, (b[j] / p) % 2, p, q);
    assert Below(b, k + 1) == Value(b[..j]) + (b[j] % Power(2, i + 1)) * q by {
      if i == 31 {
        BelowNextLimb(b, k);
      }
    }
  }

  lemma BelowNextLimb(b: Limbs, k: nat)
    requires k < 2048 && k % 32 == 31
    ensures Power(2, k % 32 + 1) == LIMB
    ensures Below(b, k + 1) == Value(b[..k / 32]) + (b[k / 32] % LIMB) * Power(LIMB, k / 32)
  {
    hide Value;
    var j := k / 32;
    TwoTo32();
    ModBounded(b[j], LIMB);
    ValueSnoc(b, j);
    if k + 1 < 2048 {
      assert (k + 1) / 32 == j + 1 && (k + 1) % 32 == 0;
      assert Power(2, 0) == 1 && b[j + 1] % 1 == 0;
      assert Below(b, k + 1) == Value(b[..j + 1]) + 0 * Power(LIMB, j + 1);
    } else {
      assert b[..64] == b;
    }
  }

  lemma ScaledBit(wide: nat, low: nat, t: nat, p: nat, q: nat)
    requires wide == low + t * p && t <= 1
    ensures wide * q == low * q + if t == 1 then p * q else 0
  {
    assert (t * p) * q == t * (p * q);
  }

  lemma {:induction false} LowBitsBelow(b: Limbs, k: nat)
    requires k <= 2048
    ensures LowBits(b, k) == Below(b, k)
  {
    if k == 0 {
      assert Power(2, 0) == 1 && b[0] % 1 == 0 && b[..0] == [];
    } else {
      LowBitsBelow(b, k - 1);
      BelowStep(b, k - 1);
    }
  }

  /** Doubling-and-adding multiplication modulo N, for any modulus and any multiplier. */
  method MultiplyMod(a: Limbs, b: Limbs, n: Limbs) returns (result: Limbs)
    ensures Value(a) < Value(n) ==> Value(result) == (Value(a) * Value(b)) % Value(n)
    ensures Value(b) == 0 ==> Value(result) == 0
  {
    hide Value, Power, BitSet;
    ghost var A, N := Value(a), Value(n);
    result := seq(LIMBS, _ => 0);
    ZeroValue(result);
    var addend := a;
    StartMod(A, N);
    for bit := 0 to 2048
      invariant A < N ==> Value(result) == (A * LowBits(b, bit)) % N && Value(addend) == (A * Power(2, bit)) % N
      invariant LowBits(b, bit) == 0 ==> Value(result) == 0
    {
      DoubleAndAdd(A, LowBits(b, bit), bit, N);
      PowerPositive(2, bit);
      if BitSet(b, bit) {
        result := AddMod(result, addend, n);
      }
      addend := AddMod(addend, addend, n);
    }
    LowBitsBelow(b, 2048);
  }

  lemma ZeroValue(s: seq<Limb>)
    requires forall i :: 0 <= i < |s| ==> s[i] == 0
    ensures Value(s) == 0
  {
    if |s| > 0 {
      ZeroValue(s[..|s| - 1]);
    }
  }

  lemma StartMod(a: nat, n: nat)
    ensures a < n ==> (a * 0) % n == 0 && (a * Power(2, 0)) % n == a
  {
    if a < n {
      ModBounded(a, n);
      ModBounded(0, n);
    }
  }

  lemma DoubleAndAdd(a: nat, low: nat, bit: nat, n: nat)
    ensures a < n ==>
      && ((a * low) % n + (a * Power(2, bit)) % n) % n == (a * (low + Power(2, bit))) % n
      && ((a * Power(2, bit)) % n + (a * Power(2, bit)) % n) % n == (a * Power(2, bit + 1)) % n
      && (a * low) % n < n && (a * Power(2, bit)) % n < n
  {
    if a < n {
      PowerDoubles(bit + 1);
      hide Power;
      var p := Power(2, bit);
      ModSum(a * low, a * p, n);
      ModSum(a * p, a * p, n);
      assert a * low + a * p == a * (low + p);
      assert a * p + a * p == a * (2 * p);
    }
  }
}
