/** Layouts and where they land in a free extent: what a request needs, stated without the formula, and the
    formula that finds the lowest address and the shortest length. */
module Layouts {
  import opened Arithmetic
  import opened Bits
  import opened Octets
  import opened Memory
  import opened ExtentTree
  import opened ExtentSets

  datatype Layout = Layout(size: nat, align: nat)

  ghost predicate PowerOfTwo(n: nat) {
    n == 1 || (n > 1 && n % 2 == 0 && PowerOfTwo(n / 2))
  }

  predicate AlignedTo(user: nat, align: nat) {
    0 < align && user % align == 0
  }

  // ---------- What a request needs ----------

  /** An address that may be handed out: room for the header below it, and aligned. */
  ghost predicate Suits(user: nat, base: nat, layout: Layout) {
    base + 16 <= user && AlignedTo(user, Max(layout.align, 16))
  }

  /** Some address of the extent suits the layout and leaves room for it. */
  ghost predicate CanHold(e: Extent, layout: Layout) {
    exists user: nat :: Suits(user, e.base, layout) && user + Max(layout.size, 1) <= e.base + e.size
  }

  /** The lowest address above `base` that suits. */
  ghost predicate IsLowest(user: nat, base: nat, layout: Layout) {
    Suits(user, base, layout) && forall u: nat :: Suits(u, base, layout) ==> user <= u
  }

  /** A block of this length at `base` holds `size` bytes at `user` and can one day be a free extent. */
  ghost predicate Spans(length: nat, base: nat, user: nat, size: nat) {
    Granular(length) && MIN_EXTENT <= length && user + Max(size, 1) <= base + length
  }

  ghost predicate IsShortest(length: nat, base: nat, user: nat, size: nat) {
    Spans(length, base, user, size) && forall n: nat :: Spans(n, base, user, size) ==> length <= n
  }

  // ---------- The formula ----------

  /** The address rounded down to a multiple of the alignment. */
  function AlignDown(x: nat, align: nat): nat
    requires 0 < align
  {
    x - x % align
  }

  datatype Place = Place(user: nat, used: nat)

  /** Where a layout lands in an extent starting at `base`; none if the address space ends first. */
  function Placement(base: nat, layout: Layout): Option<Place>
    requires 0 < layout.align
  {
    var align := Max(layout.align, 16);
    if base + 16 + align - 1 >= WORD_LIMIT then None
    else
      var user := AlignDown(base + 16 + align - 1, align);
      if user + Max(layout.size, 1) + 15 >= WORD_LIMIT then None
      else
        var end := AlignDown(user + Max(layout.size, 1) + 15, 16);
        Some(Place(user, Max(end - base, MIN_EXTENT)))
  }

  predicate Fits(e: Extent, layout: Layout)
    requires 0 < layout.align
  {
    Placement(e.base, layout).Some? && Placement(e.base, layout).value.used <= e.size
  }

  /** The size below which no extent is worth looking at. */
  function Minimum(layout: Layout): nat {
    Max(Max(layout.size, 1) + 16, MIN_EXTENT)
  }

  lemma HoldNeedsMinimum(e: Extent, layout: Layout)
    requires CanHold(e, layout) && MIN_EXTENT <= e.size
    ensures Minimum(layout) <= e.size
  {
    var user: nat :| Suits(user, e.base, layout) && user + Max(layout.size, 1) <= e.base + e.size;
  }

  // ---------- Alignment ----------

  lemma {:induction false} PowerOfTwoSixteen(n: nat)
    requires PowerOfTwo(n)
    ensures n >= 16 ==> Granular(n)
    ensures n < 16 ==> n == 1 || n == 2 || n == 4 || n == 8
  {
    if n > 1 {
      PowerOfTwoSixteen(n / 2);
    }
  }

  /** Of two powers of two the smaller divides the larger. */
  lemma {:induction false} PowersDivide(a: nat, b: nat)
    requires PowerOfTwo(a) && PowerOfTwo(b) && a <= b
    ensures b % a == 0
    decreases a
  {
    if a > 1 {
      PowersDivide(a / 2, b / 2);
      var q := b / 2 / (a / 2);
      assert b / 2 == a / 2 * q;
      assert b == a * q;
      ModOfMultiple(a, q);
    }
  }

  lemma {:induction false} PowerIsPower(n: nat)
    ensures PowerOfTwo(Power(2, n))
  {
    if n > 0 {
      PowerIsPower(n - 1);
      PowerPositive(2, n - 1);
      assert Power(2, n) / 2 == Power(2, n - 1);
    }
  }

  lemma AlignedDown(x: nat, align: nat)
    requires 0 < align
    ensures AlignDown(x, align) % align == 0 && x - align < AlignDown(x, align) <= x
  {
    ModOfMultiple(align, x / align);
  }

  /** Two multiples that are less than the alignment apart are the same. */
  lemma MultiplesApart(a: nat, b: nat, align: nat)
    requires 0 < align && a % align == 0 && b % align == 0
    ensures a < b ==> a + align <= b
  {
    var p, q := a / align, b / align;
    assert a == align * p && b == align * q;
    if q <= p {
      MulGrows(align, q, p);
    } else {
      MulGrows(align, p + 1, q);
    }
  }

  lemma MulGrows(n: nat, a: nat, b: nat)
    requires a <= b
    ensures n * a <= n * b
  {
  }

  lemma UserAligned(x: nat, layout: Layout)
    requires PowerOfTwo(layout.align) && 0 < layout.align
    ensures var align := Max(layout.align, 16);
      Granular(AlignDown(x, align)) && AlignedTo(AlignDown(x, align), layout.align)
  {
    hide AlignDown;
    var align := Max(layout.align, 16);
    PowerOfTwoSixteen(layout.align);
    AlignedDown(x, align);
    var user := AlignDown(x, align);
    DividesThrough(user, align, 16);
    if layout.align < 16 {
      DividesThrough(user, 16, layout.align);
    }
  }

  lemma EndGranular(x: nat)
    ensures Granular(AlignDown(x, 16)) && x - 16 < AlignDown(x, 16) <= x && Granular(MIN_EXTENT)
  {
  }

  lemma PlacementOk(base: nat, layout: Layout)
    requires PowerOfTwo(layout.align) && 0 < layout.align && Granular(base) && Placement(base, layout).Some?
    ensures var p := Placement(base, layout).value;
      && base + 16 <= p.user && Granular(p.user) && AlignedTo(p.user, layout.align)
      && p.user + Max(layout.size, 1) <= base + p.used && Granular(p.used) && MIN_EXTENT <= p.used
  {
    hide AlignDown, PowerOfTwo, Granular, AlignedTo;
    var align := Max(layout.align, 16);
    var start := base + 16 + align - 1;
    UserAligned(start, layout);
    AlignedDown(start, align);
    var user := AlignDown(start, align);
    var end := AlignDown(user + Max(layout.size, 1) + 15, 16);
    EndGranular(user + Max(layout.size, 1) + 15);
    GranularSum(end, base);
  }

  // ---------- The formula finds the lowest and the shortest ----------

  /** Rounding up from the header's end gives the lowest address that suits. */
  lemma RoundedIsLowest(base: nat, layout: Layout)
    requires 0 < layout.align
    ensures var align := Max(layout.align, 16); IsLowest(AlignDown(base + 16 + align - 1, align), base, layout)
  {
    hide AlignDown;
    var align := Max(layout.align, 16);
    var user := AlignDown(base + 16 + align - 1, align);
    AlignedDown(base + 16 + align - 1, align);
    forall u: nat | Suits(u, base, layout) ensures user <= u {
      MultiplesApart(u, user, align);
    }
  }

  /** Rounding up the end gives the shortest length that spans. */
  lemma RoundedIsShortest(base: nat, user: nat, size: nat)
    requires Granular(base) && base <= user
    ensures IsShortest(Max(AlignDown(user + Max(size, 1) + 15, 16), base + MIN_EXTENT) - base, base, user, size)
  {
    hide AlignDown, Granular;
    var end := AlignDown(user + Max(size, 1) + 15, 16);
    EndGranular(user + Max(size, 1) + 15);
    GranularSum(end, base);
    var length := Max(end, base + MIN_EXTENT) - base;
    forall n: nat | Spans(n, base, user, size) ensures length <= n {
      GranularSum(base, n);
      GranulesApart(base + n, end);
    }
  }

  lemma GranulesApart(a: nat, b: nat)
    requires Granular(a) && Granular(b)
    ensures a < b ==> a + 16 <= b
  {
  }

  /** The placed address is the lowest that suits, and the length the shortest that spans it. */
  lemma PlacementLeast(base: nat, layout: Layout)
    requires 0 < layout.align && Granular(base) && Placement(base, layout).Some?
    ensures var p := Placement(base, layout).value;
      IsLowest(p.user, base, layout) && IsShortest(p.used, base, p.user, layout.size)
  {
    hide AlignDown, IsLowest, IsShortest, Granular;
    var align := Max(layout.align, 16);
    RoundedIsLowest(base, layout);
    LowestAbove(AlignDown(base + 16 + align - 1, align), base, layout);
    RoundedIsShortest(base, AlignDown(base + 16 + align - 1, align), layout.size);
  }

  lemma LowestAbove(user: nat, base: nat, layout: Layout)
    requires IsLowest(user, base, layout)
    ensures base + 16 <= user
  {
  }

  /** An address below the end of the address space leaves a whole alignment above it. */
  lemma RoomAbove(user: nat, layout: Layout)
    requires PowerOfTwo(layout.align) && AlignedTo(user, Max(layout.align, 16)) && 0 < user < WORD_LIMIT
    ensures user + Max(layout.align, 16) <= WORD_LIMIT
  {
    hide PowerOfTwo;
    var align := Max(layout.align, 16);
    assert PowerOfTwo(16) by { PowerIsPower(4); assert Power(2, 4) == 16; }
    assert PowerOfTwo(WORD_LIMIT) by { PowerIsPower(64); PowersOfTwo(); }
    MultipleAtLeast(user, align);
    PowersDivide(align, WORD_LIMIT);
    MultiplesApart(user, WORD_LIMIT, align);
  }

  lemma MultipleAtLeast(x: nat, n: nat)
    requires 0 < n && x % n == 0 && 0 < x
    ensures n <= x
  {
  }

  /** The formula fits exactly when some address would do. */
  lemma FitsExactly(e: Extent, layout: Layout)
    requires PowerOfTwo(layout.align) && 0 < layout.align && Granular(e.base) && Granular(e.size)
    requires MIN_EXTENT <= e.size && e.base + e.size < WORD_LIMIT
    ensures Fits(e, layout) <==> CanHold(e, layout)
  {
    hide Placement, IsShortest, Granular, PowerOfTwo, Suits;
    if Fits(e, layout) {
      var p := Placement(e.base, layout).value;
      PlacementLeast(e.base, layout);
      PlacementOk(e.base, layout);
      assert Suits(p.user, e.base, layout);
    }
    if CanHold(e, layout) {
      var user: nat :| Suits(user, e.base, layout) && user + Max(layout.size, 1) <= e.base + e.size;
      HoldFits(e, layout, user);
    }
  }

  lemma HoldFits(e: Extent, layout: Layout, user: nat)
    requires PowerOfTwo(layout.align) && 0 < layout.align && Granular(e.base) && Granular(e.size)
    requires MIN_EXTENT <= e.size && e.base + e.size < WORD_LIMIT
    requires Suits(user, e.base, layout) && user + Max(layout.size, 1) <= e.base + e.size
    ensures Fits(e, layout)
  {
    hide AlignDown, Granular, PowerOfTwo;
    var align := Max(layout.align, 16);
    var lowest := AlignDown(e.base + 16 + align - 1, align);
    RoundedIsLowest(e.base, layout);
    assert lowest <= user;
    RoomAbove(lowest, layout);
    LastGranule(e.base, e.size);
    RoundedIsShortest(e.base, lowest, layout.size);
    assert Spans(e.size, e.base, lowest, layout.size);
  }

  lemma LastGranule(base: nat, size: nat)
    requires Granular(base) && Granular(size) && base + size < WORD_LIMIT
    ensures base + size + 16 <= WORD_LIMIT
  {
  }
}
