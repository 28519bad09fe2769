/** Filling a range of frame bits a word at a time, through masks. */
module BitRange {
  import opened Arithmetic
  import opened Bits
  import opened FrameMap

  function And(a: nat, b: nat, n: nat): nat
    decreases a, b, n
  {
    if n == 0 then 0 else 2 * And(a / 2, b / 2, n - 1) + (if a % 2 == 1 && b % 2 == 1 then 1 else 0)
  }

  function Or(a: nat, b: nat, n: nat): nat
    decreases a, b, n
  {
    if n == 0 then 0 else 2 * Or(a / 2, b / 2, n - 1) + (if a % 2 == 1 || b % 2 == 1 then 1 else 0)
  }

  lemma Doubled(x: nat, bit: nat, j: nat)
    requires bit < 2
    ensures Bit(2 * x + bit, j) <==> if j == 0 then bit == 1 else Bit(x, j - 1)
  {
    assert (2 * x + bit) / 2 == x && (2 * x + bit) % 2 == bit;
  }

  lemma {:induction false} BitNext(word: nat, j: nat)
    ensures Bit(word, j) <==> if j == 0 then word % 2 == 1 else Bit(word / 2, j - 1)
  {
  }

  lemma {:induction false} AndBits(a: nat, b: nat, n: nat, j: nat)
    ensures And(a, b, n) < Power(2, n) && (Bit(And(a, b, n), j) <==> j < n && Bit(a, j) && Bit(b, j))
    decreases n
  {
    hide Bit;
    if n == 0 {
      ZeroHasNoBits(j);
    } else {
      AndBits(a / 2, b / 2, n - 1, if j == 0 then 0 else j - 1);
      Doubled(And(a / 2, b / 2, n - 1), if a % 2 == 1 && b % 2 == 1 then 1 else 0, j);
      BitNext(a, j);
      BitNext(b, j);
    }
  }

  lemma {:induction false} OrBits(a: nat, b: nat, n: nat, j: nat)
    ensures Or(a, b, n) < Power(2, n) && (Bit(Or(a, b, n), j) <==> j < n && (Bit(a, j) || Bit(b, j)))
    decreases n
  {
    hide Bit;
    if n == 0 {
      ZeroHasNoBits(j);
    } else {
      OrBits(a / 2, b / 2, n - 1, if j == 0 then 0 else j - 1);
      Doubled(Or(a / 2, b / 2, n - 1), if a % 2 == 1 || b % 2 == 1 then 1 else 0, j);
      BitNext(a, j);
      BitNext(b, j);
    }
  }

  /** All ones but those of `m`. */
  lemma {:induction false} NotBits(m: nat, n: nat, j: nat)
    requires m < Power(2, n)
    ensures Bit(Power(2, n) - 1 - m, j) <==> j < n && !Bit(m, j)
    decreases n
  {
    if n == 0 {
      ZeroHasNoBits(j);
    } else {
      var half := Power(2, n - 1);
      assert Power(2, n) == 2 * half;
      hide Power, Bit;
      var rest := half - 1 - m / 2;
      assert Power(2, n) - 1 - m == 2 * rest + (1 - m % 2) && m == 2 * (m / 2) + m % 2;
      Doubled(rest, 1 - m % 2, j);
      Doubled(m / 2, m % 2, j);
      NotBits(m / 2, n - 1, if j == 0 then 0 else j - 1);
    }
  }

  /** The low `k` bits. */
  lemma {:induction false} LowBits(k: nat, j: nat)
    ensures Power(2, k) > 0 && (Bit(Power(2, k) - 1, j) <==> j < k)
  {
    PowerPositive(2, k);
    ZeroHasNoBits(j);
    NotBits(0, k, j);
  }

  lemma {:induction false} PowerGrows(k: nat, n: nat)
    requires k <= n
    ensures 0 < Power(2, k) <= Power(2, n)
  {
    PowerPositive(2, k);
    if k < n {
      PowerGrows(k, n - 1);
    }
  }

  /** All ones of a word, shifted left: the bits from `k` on. */
  lemma HighBits(k: nat, j: nat)
    requires k <= 64
    ensures 0 < Power(2, k) <= WORD && (Bit(WORD - Power(2, k), j) <==> k <= j < 64)
  {
    PowersOfTwo();
    PowerGrows(k, 64);
    LowBits(k, j);
    NotBits(Power(2, k) - 1, 64, j);
  }

  /** The bits [low, high) of a word, as the conjunction of two masks. */
  function Mask(low: nat, high: nat): nat
    requires low <= 64
  {
    HighBits(low, 0);
    LowBits(high, 0);
    And(WORD - Power(2, low), Power(2, high) - 1, 64)
  }

  lemma MaskBits(low: nat, high: nat, j: nat)
    requires low <= 64 && high <= 64
    ensures Mask(low, high) < WORD && (Bit(Mask(low, high), j) <==> low <= j < high)
  {
    PowersOfTwo();
    HighBits(low, j);
    LowBits(high, j);
    AndBits(WORD - Power(2, low), Power(2, high) - 1, 64, j);
  }

  function Masked(word: nat, mask: nat, value: bool): nat
    requires mask < WORD
  {
    if value then Or(word, mask, 64) else And(word, WORD - 1 - mask, 64)
  }

  lemma MaskedBits(word: nat, low: nat, high: nat, value: bool, j: nat)
    requires low <= 64 && high <= 64 && Mask(low, high) < WORD
    ensures Masked(word, Mask(low, high), value) < WORD
    ensures j < 64 ==>
      (Bit(Masked(word, Mask(low, high), value), j) <==> if low <= j < high then value else Bit(word, j))
  {
    hide Bit, Mask;
    PowersOfTwo();
    var mask := Mask(low, high);
    MaskBits(low, high, j);
    NotBits(mask, 64, j);
    OrBits(word, mask, 64, j);
    AndBits(word, WORD - 1 - mask, 64, j);
  }

  // ---------- The range ----------

  predicate BitAt(words: seq<nat>, i: nat)
    requires i < WORD_BITS * |words|
  {
    Bit(words[i / WORD_BITS], i % WORD_BITS)
  }

  /** `after` differs from `before` at most in the bits [start, end), which all have that value. */
  ghost predicate RangeSet(before: seq<nat>, after: seq<nat>, start: nat, end: nat, value: bool) {
    && |after| == |before|
    && forall i: nat :: i < WORD_BITS * |before| ==>
         BitAt(after, i) == if start <= i < end then value else BitAt(before, i)
  }

  ghost predicate AllWords(words: seq<nat>) {
    forall i :: 0 <= i < |words| ==> words[i] < WORD
  }

  function Cut(x: int): (r: nat)
    ensures r <= WORD_BITS
  {
    if x < 0 then 0 else if x > WORD_BITS then WORD_BITS else x
  }

  /** One word more: the bits up to its end are as they should be. */
  lemma WordFilled(before: seq<nat>, words: seq<nat>, start: nat, end: nat, value: bool, w: nat)
    requires w < |words| && (w * WORD_BITS <= start || RangeSet(before, words, start, w * WORD_BITS, value))
    requires w * WORD_BITS <= start ==> words == before
    requires start < (w + 1) * WORD_BITS && w * WORD_BITS < end
    ensures var mask := Mask(Cut(start - w * WORD_BITS), Cut(end - w * WORD_BITS));
      && mask < WORD && Masked(words[w], mask, value) < WORD
      && var next := if end < (w + 1) * WORD_BITS then end else (w + 1) * WORD_BITS;
        RangeSet(before, words[w := Masked(words[w], mask, value)], start, next, value)
  {
    hide Bit, Mask, Masked;
    var base := w * WORD_BITS;
    var low, high := Cut(start - base), Cut(end - base);
    MaskBits(low, high, 0);
    MaskedBits(words[w], low, high, value, 0);
    var after := words[w := Masked(words[w], Mask(low, high), value)];
    var next := if end < base + WORD_BITS then end else base + WORD_BITS;
    forall i: nat | i < WORD_BITS * |before|
      ensures BitAt(after, i) == if start <= i < next then value else BitAt(before, i)
    {
      if i / WORD_BITS == w {
        MaskedBits(words[w], low, high, value, i % WORD_BITS);
        assert i == base + i % WORD_BITS;
      }
      if base > start {
        assert BitAt(words, i) == if start <= i < base then value else BitAt(before, i);
      }
    }
  }

  function Min(a: nat, b: nat): nat {
    if a < b then a else b
  }

  /** Bits past the last word do not count. */
  lemma RangeEnough(before: seq<nat>, after: seq<nat>, start: nat, end: nat, reached: nat, value: bool)
    requires reached < end ==> WORD_BITS * |before| <= reached
    requires RangeSet(before, after, start, Min(end, reached), value)
    ensures RangeSet(before, after, start, end, value)
  {
    hide BitAt;
  }

  lemma NothingSet(before: seq<nat>, start: nat, end: nat, value: bool)
    requires start >= end || WORD_BITS * |before| <= start
    ensures RangeSet(before, before, start, end, value)
  {
    hide BitAt;
  }

  /** Sets or clears the bits [start, end) that there are, and no others. */
  method SetBitRange(words: array<nat>, start: nat, end: nat, value: bool)
    requires AllWords(words[..])
    modifies words
    ensures AllWords(words[..]) && RangeSet(old(words[..]), words[..], start, end, value)
  {
    hide Bit, Mask, Masked, RangeSet;
    ghost var before := words[..];
    if start >= end {
      NothingSet(before, start, end, value);
      return;
    }
    var first, last := start / WORD_BITS, (end - 1) / WORD_BITS;
    var w := first;
    while w <= last && w < words.Length
      invariant first <= w <= last + 1 && (w <= words.Length || w == first) && AllWords(words[..])
      invariant w == first ==> words[..] == before
      invariant first < w ==> RangeSet(before, words[..], start, Min(end, w * WORD_BITS), value)
    {
      WordFilled(before, words[..], start, end, value, w);
      var mask := Mask(Cut(start - w * WORD_BITS), Cut(end - w * WORD_BITS));
      ghost var was := words[..];
      words[w] := Masked(words[w], mask, value);
      assert words[..] == was[w := Masked(was[w], mask, value)];
      w := w + 1;
    }
    if w == first {
      NothingSet(before, start, end, value);
    } else {
      RangeEnough(before, words[..], start, end, w * WORD_BITS, value);
    }
  }
}
