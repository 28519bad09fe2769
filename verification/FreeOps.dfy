/** The operations the heap calls on its free index: coalescing insert, lookup, removal
    and pruned first fit. */
module FreeOps {
  import opened Memory
  import opened ExtentTree
  import opened ExtentSets
  import opened FreeIndex
  import opened Layouts

  /** The index kept by the heap: stored, ordered, balanced, maximally merged. */
  ghost predicate Index(m: Bytes, t: Tree, low: int, high: int) {
    && Sound(t, low, high) && Balanced(t) && Stored(m, t)
    && Apart(Extents(t)) && Aligned(Extents(t))
  }

  // ---------- Bridges between the tree and its set of extents ----------

  lemma {:induction false} StoredSize(m: Bytes, t: Tree, e: Extent)
    requires Stored(m, t) && e in Extents(t)
    ensures Word(m, e.base) == e.size
  {
    if e in Extents(t.left) {
      StoredSize(m, t.left, e);
    } else if e in Extents(t.right) {
      StoredSize(m, t.right, e);
    }
  }

  lemma {:induction false} GapFromExtents(t: Tree, base: nat, size: nat)
    requires forall e :: e in Extents(t) ==> e.base + e.size <= base || base + size <= e.base
    ensures Gap(t, base, size)
  {
    if t.Node? {
      assert Extent(t.base, t.size) in Extents(t);
      GapFromExtents(t.left, base, size);
      GapFromExtents(t.right, base, size);
    }
  }

  lemma SparesWithin(m: Bytes, m': Bytes, t: Tree)
    requires Spares(m, m', t)
    ensures forall x :: !Within(Extents(t), x) ==> At(m', x) == At(m, x)
  {
    forall x | !Within(Extents(t), x) ensures !Covers(t, x) {
      CoversExtents(t, x);
    }
  }

  // ---------- Lookup ----------

  /** Descends to the node at `base`, if the index has one. */
  method AtNode(arena: Arena, root: nat, base: nat, ghost t: Tree, ghost low: int, ghost high: int) returns (r: nat)
    requires Sound(t, low, high) && root == Root(t) && Stored(arena.mem, t)
    ensures r == 0 ==> forall e :: e in Extents(t) ==> e.base != base
    ensures r != 0 ==> r == base && Extent(base, Word(arena.mem, base)) in Extents(t)
  {
    r := root;
    ghost var s, lo, hi := t, low, high;
    while r != 0 && r != base
      invariant Sound(s, lo, hi) && r == Root(s) && Stored(arena.mem, s)
      invariant Extents(s) <= Extents(t)
      invariant forall e :: e in Extents(t) && e.base == base ==> e in Extents(s)
      decreases s
    {
      ExtentsWithin(s.left, lo, s.base);
      ExtentsWithin(s.right, s.base + s.size, hi);
      if base < r {
        r := Word(arena.mem, r + LEFT);
        s, hi := s.left, s.base;
      } else {
        r := Word(arena.mem, r + RIGHT);
        s, lo := s.right, s.base + s.size;
      }
    }
  }

  // ---------- First fit ----------

  lemma NothingFits(t: Tree, layout: Layout, low: int, high: int)
    requires Sound(t, low, high) && Maximum(t) < Minimum(layout)
    ensures forall e :: e in Extents(t) ==> !CanHold(e, layout)
  {
    hide CanHold;
    MaximumBounds(t);
    ExtentsWithin(t, low, high);
    forall e | e in Extents(t) ensures !CanHold(e, layout) {
      if CanHold(e, layout) {
        HoldNeedsMinimum(e, layout);
      }
    }
  }

  /** The lowest extent that can hold the layout, found without visiting subtrees that are too small. */
  method FindFit(arena: Arena, root: nat, layout: Layout, ghost t: Tree, ghost low: int,
                 ghost high: int) returns (r: nat)
    requires Sound(t, low, high) && root == Root(t) && Stored(arena.mem, t) && Aligned(Extents(t))
    requires 0 < layout.align && PowerOfTwo(layout.align)
    ensures r == 0 ==> forall e :: e in Extents(t) ==> !CanHold(e, layout)
    ensures r != 0 ==>
      && Extent(r, Word(arena.mem, r)) in Extents(t) && CanHold(Extent(r, Word(arena.mem, r)), layout)
      && forall e :: e in Extents(t) && e.base < r ==> !CanHold(e, layout)
    decreases t
  {
    hide Fits, CanHold, Placement, Word, PowerOfTwo, Granular;
    if Max(layout.size, 1) + 16 >= WORD_LIMIT {
      MaximumFits(t, low, high);
      NothingFits(t, layout, low, high);
      return 0;
    }
    if NodeMaximum(arena.mem, root, t) < Minimum(layout) {
      NothingFits(t, layout, low, high);
      return 0;
    }
    assert Ordered(t.left, low, t.base) && Ordered(t.right, t.base + t.size, high);
    ExtentsWithin(t.left, low, t.base);
    ExtentsWithin(t.right, t.base + t.size, high);
    r := FindFit(arena, Word(arena.mem, root + LEFT), layout, t.left, low, t.base);
    if r != 0 {
      return;
    }
    RootFits(arena.mem, t, layout, low, high);
    if Fits(Extent(root, Word(arena.mem, root)), layout) {
      return root;
    }
    r := FindFit(arena, Word(arena.mem, root + RIGHT), layout, t.right, t.base + t.size, high);
  }

  lemma RootFits(m: Bytes, t: Tree, layout: Layout, low: int, high: int)
    requires t.Node? && Sound(t, low, high) && Stored(m, t) && Aligned(Extents(t))
    requires 0 < layout.align && PowerOfTwo(layout.align)
    ensures var e := Extent(t.base, Word(m, t.base));
      e in Extents(t) && (Fits(e, layout) <==> CanHold(e, layout))
  {
    hide Fits, CanHold, Word, PowerOfTwo, Granular;
    var e := Extent(t.base, t.size);
    assert e in Extents(t);
    StoredSize(m, t, e);
    ExtentsWithin(t, low, high);
    FitsExactly(e, layout);
  }

  // ---------- Coalescing insert ----------

  /** The search has narrowed to the subtree `s` within [lo, hi); all else lies beyond a neighbour. */
  ghost predicate Narrowed(m: Bytes, t: Tree, s: Tree, previous: nat, next: nat, lo: int, hi: int) {
    && Extents(s) <= Extents(t)
    && (previous != 0 ==> Extent(previous, Word(m, previous)) in Extents(t) && previous + Word(m, previous) <= lo)
    && (next != 0 ==> Extent(next, Word(m, next)) in Extents(t) && hi <= next)
    && (forall e :: e in Extents(t) ==>
          e in Extents(s) || (previous != 0 && e.base <= previous) || (next != 0 && next <= e.base))
  }

  lemma NarrowRight(m: Bytes, t: Tree, s: Tree, previous: nat, next: nat, lo: int, hi: int)
    requires Narrowed(m, t, s, previous, next, lo, hi) && Linked(m, s) && Sound(s, lo, hi)
    ensures Narrowed(m, t, s.right, s.base, next, s.base + s.size, hi)
  {
    hide Word;
    assert Extent(s.base, s.size) in Extents(s) && Word(m, s.base) == s.size;
    ExtentsWithin(s.left, lo, s.base);
  }

  lemma NarrowLeft(m: Bytes, t: Tree, s: Tree, previous: nat, next: nat, lo: int, hi: int)
    requires Narrowed(m, t, s, previous, next, lo, hi) && Linked(m, s) && Sound(s, lo, hi)
    ensures Narrowed(m, t, s.left, previous, s.base, lo, s.base)
  {
    hide Word;
    assert Extent(s.base, s.size) in Extents(s) && Word(m, s.base) == s.size;
    ExtentsWithin(s.right, s.base + s.size, hi);
  }

  lemma GapSides(s: Tree, base: nat, size: nat)
    requires s.Node? && Gap(s, base, size) && 0 < size && 0 < s.size
    ensures s.base < base ==> s.base + s.size <= base && Gap(s.right, base, size)
    ensures s.base >= base ==> base + size <= s.base && Gap(s.left, base, size)
  {
  }

  /** The neighbours of a gap, zero standing for none. */
  method FindNeighbours(arena: Arena, root: nat, base: nat, ghost size: nat, ghost t: Tree, ghost low: int,
                        ghost high: int)
    returns (previous: nat, next: nat)
    requires Sound(t, low, high) && root == Root(t) && Stored(arena.mem, t)
    requires 0 < size && low <= base && base + size <= high && Gap(t, base, size)
    ensures Neighbours(Extents(t), base, size, Extent(previous, Word(arena.mem, previous)),
                       Extent(next, Word(arena.mem, next)))
  {
    hide Word, Ordered, Gap, Height, Maximum, Linked, Extents, Covers, Sound;
    previous, next := 0, 0;
    var node := root;
    ghost var s, lo, hi := t, low, high;
    while node != 0
      invariant Sound(s, lo, hi) && node == Root(s) && Stored(arena.mem, s) && Gap(s, base, size)
      invariant lo <= base && base + size <= hi && Narrowed(arena.mem, t, s, previous, next, lo, hi)
      decreases s
    {
      Parts(arena.mem, s, lo, hi);
      GapSides(s, base, size);
      if node < base {
        NarrowRight(arena.mem, t, s, previous, next, lo, hi);
        previous := node;
        node := Word(arena.mem, node + RIGHT);
        s, lo := s.right, s.base + s.size;
      } else {
        NarrowLeft(arena.mem, t, s, previous, next, lo, hi);
        next := node;
        node := Word(arena.mem, node + LEFT);
        s, hi := s.left, s.base;
      }
    }
    LeafWhenNull(s, lo, hi);
  }

  lemma LeafWhenNull(t: Tree, low: int, high: int)
    requires Sound(t, low, high) && Root(t) == 0
    ensures t == Leaf && Extents(t) == {}
  {
  }

  /** A leaf node's record, as written over the first bytes of a new extent. */
  method WriteNode(arena: Arena, base: nat, size: nat)
    requires size < WORD_LIMIT
    modifies arena
    ensures Stored(arena.mem, Node(Leaf, base, size, Leaf))
    ensures forall x :: x < base || base + MIN_EXTENT <= x ==> At(arena.mem, x) == At(old(arena.mem), x)
  {
    hide Word, PutWord;
    assert Height(Leaf) == 0 && Maximum(Leaf) == 0;
    assert Height(Node(Leaf, base, size, Leaf)) == 1 && Maximum(Node(Leaf, base, size, Leaf)) == size;
    PutField(arena, base, size);
    PutField(arena, base + MAXIMUM, size);
    PutField(arena, base + LEFT, 0);
    PutField(arena, base + RIGHT, 0);
    PutField(arena, base + HEIGHT, 1);
    assert Stored(arena.mem, Leaf) && Linked(arena.mem, Node(Leaf, base, size, Leaf));
  }

  /** Memory changed only in the extents of `s` and in [base, base + size). */
  ghost predicate Confined(m: Bytes, m': Bytes, s: set<Extent>, base: nat, size: nat) {
    forall x :: !Within(s, x) && !(base <= x < base + size) ==> At(m', x) == At(m, x)
  }

  lemma EraseWithin(t: Tree, e: Extent, low: int, high: int)
    requires Sound(t, low, high) && Balanced(t)
    ensures Sound(Erase(t, e.base), low, high) && Balanced(Erase(t, e.base))
    ensures forall f :: f in Extents(Erase(t, e.base)) <==> f in Extents(t) && f.base != e.base
  {
    EraseCorrect(t, e.base, low, high);
  }

  /** Removes one neighbour from the index. */
  method Absorb(arena: Arena, root: nat, base: nat, ghost t: Tree, ghost low: int, ghost high: int) returns (r: nat)
    requires Sound(t, low, high) && Balanced(t) && Stored(arena.mem, t) && root == Root(t)
    modifies arena
    ensures Sound(Erase(t, base), low, high) && Balanced(Erase(t, base)) && Stored(arena.mem, Erase(t, base))
    ensures r == Root(Erase(t, base))
    ensures forall f :: f in Extents(Erase(t, base)) <==> f in Extents(t) && f.base != base
    ensures forall x :: !Within(Extents(t), x) ==> At(arena.mem, x) == At(old(arena.mem), x)
  {
    hide Stored, Sound, Ordered, Balanced, Erase, Extents, Spares, At, Within;
    r := EraseNode(arena, root, base, t, low, high);
    EraseWithin(t, Extent(base, 0), low, high);
    SparesWithin(old(arena.mem), arena.mem, t);
  }

  /** Erases whichever neighbours touch the new extent; returns the grown extent. */
  method AbsorbNeighbours(arena: Arena, root: nat, base: nat, size: nat, previous: nat, next: nat, ghost t: Tree,
                          ghost low: int, ghost high: int)
    returns (r: nat, base': nat, size': nat, ghost t': Tree)
    requires Sound(t, low, high) && Balanced(t) && Stored(arena.mem, t) && root == Root(t)
    requires Neighbours(Extents(t), base, size, Extent(previous, Word(arena.mem, previous)),
                        Extent(next, Word(arena.mem, next)))
    requires 0 < base && 0 < size
    modifies arena
    ensures Sound(t', low, high) && Balanced(t') && Stored(arena.mem, t') && r == Root(t')
    ensures var p, n := Extent(previous, Word(old(arena.mem), previous)), Extent(next, Word(old(arena.mem), next));
      Extent(base', size') == Merged(base, size, p, n) && Extents(t') == Rest(Extents(t), base, size, p, n)
    ensures forall x :: !Within(Extents(t), x) ==> At(arena.mem, x) == At(old(arena.mem), x)
  {
    hide Word, Stored, Sound, Ordered, Balanced, Erase, Extents, Spares, At, Within;
    ghost var p := Extent(previous, Word(arena.mem, previous));
    r, base', size', t' := root, base, size, t;
    if next != 0 && base + size == next {
      size' := size' + Word(arena.mem, next);
      r := Absorb(arena, r, next, t', low, high);
      t' := Erase(t', next);
    }
    if previous != 0 {
      StoredSize(arena.mem, t', p);
    }
    ghost var m := arena.mem;
    if previous != 0 && previous + Word(arena.mem, previous) == base {
      base' := previous;
      size' := size' + Word(arena.mem, previous);
      r := Absorb(arena, r, previous, t', low, high);
      WithinSubset(Extents(t'), Extents(t));
      t' := Erase(t', previous);
    }
  }

  lemma WithinSubset(s: set<Extent>, t: set<Extent>)
    requires s <= t
    ensures forall x :: Within(s, x) ==> Within(t, x)
  {
  }

  lemma MergedParts(t: Tree, base: nat, size: nat, p: Extent, n: Extent, low: int, high: int)
    requires Sound(t, low, high) && Apart(Extents(t)) && Neighbours(Extents(t), base, size, p, n)
    requires MIN_EXTENT <= size && low <= base && base + size <= high
    ensures var e := Merged(base, size, p, n);
      && MIN_EXTENT <= e.size && low <= e.base && e.base + e.size <= high && 0 < e.base < WORD_LIMIT
      && e.size < WORD_LIMIT
      && (forall f :: f in Rest(Extents(t), base, size, p, n) ==>
            f.base + f.size <= e.base || e.base + e.size <= f.base)
      && (forall x :: e.base <= x < e.base + e.size ==> Within(Extents(t), x) || base <= x < base + size)
  {
    ExtentsWithin(t, low, high);
    MergeApart(Extents(t), base, size, p, n);
    var e, s := Merged(base, size, p, n), Extents(t);
    forall x | e.base <= x < e.base + e.size ensures Within(s, x) || base <= x < base + size {
      MergeHolds(s, base, size, p, n);
      assert Holds(e, x) && e in Rest(s, base, size, p, n) + {e};
    }
  }

  /** Coalescing insert: the index stays balanced and maximally merged, and holds exactly the
      old bytes and the new ones. */
  method Insert(arena: Arena, root: nat, base: nat, size: nat, ghost t: Tree, ghost low: int, ghost high: int)
    returns (r: nat, ghost t': Tree)
    requires Index(arena.mem, t, low, high) && root == Root(t)
    requires MIN_EXTENT <= size && low <= base && base + size <= high && Granular(base) && Granular(size)
    requires forall e :: e in Extents(t) ==> e.base + e.size <= base || base + size <= e.base
    modifies arena
    ensures Index(arena.mem, t', low, high) && r == Root(t')
    ensures forall x :: Within(Extents(t'), x) <==> Within(Extents(t), x) || base <= x < base + size
    ensures Confined(old(arena.mem), arena.mem, Extents(t), base, size)
  {
    hide Word, Stored, Ordered, Balanced, Extents, Gap, At, Within, Apart, Aligned, Neighbours, Merged, Rest, Add,
         Spares;
    GapFromExtents(t, base, size);
    var previous, next := FindNeighbours(arena, root, base, size, t, low, high);
    ghost var p, n := Extent(previous, Word(arena.mem, previous)), Extent(next, Word(arena.mem, next));
    MergedParts(t, base, size, p, n, low, high);
    MergeCorrect(Extents(t), base, size, p, n);
    var base', size';
    r, base', size', t' := AbsorbNeighbours(arena, root, base, size, previous, next, t, low, high);
    ghost var m, rest := arena.mem, t';
    GapFromExtents(rest, base', size');
    WriteNode(arena, base', size');
    ghost var m' := arena.mem;
    StoredElsewhere(m, m', rest, base', size', low, high);
    r := AddNode(arena, r, base', size', rest, low, high);
    t' := Add(rest, base', size');
    AddCorrect(rest, base', size', low, high);
    RestSubset(Extents(t), base, size, p, n);
    InsertConfined(old(arena.mem), m, m', arena.mem, rest, Extents(t), base, size, base', size');
  }

  lemma RestSubset(s: set<Extent>, base: nat, size: nat, p: Extent, n: Extent)
    ensures Rest(s, base, size, p, n) <= s
  {
  }

  lemma StoredElsewhere(m: Bytes, m': Bytes, t: Tree, base: nat, size: nat, low: int, high: int)
    requires Ordered(t, low, high) && Stored(m, t) && MIN_EXTENT <= size
    requires forall x :: x < base || base + MIN_EXTENT <= x ==> At(m', x) == At(m, x)
    requires forall f :: f in Extents(t) ==> f.base + f.size <= base || base + size <= f.base
    ensures Stored(m', t)
  {
    hide Stored, Ordered;
    forall x | Covers(t, x) ensures At(m', x) == At(m, x) {
      CoversExtents(t, x);
    }
    StoredFrame(m, m', t, low, high);
  }

  lemma InsertConfined(m0: Bytes, m1: Bytes, m2: Bytes, m3: Bytes, rest: Tree, s: set<Extent>, base: nat, size: nat,
                       base': nat, size': nat)
    requires forall x :: !Within(s, x) ==> At(m1, x) == At(m0, x)
    requires forall x :: x < base' || base' + MIN_EXTENT <= x ==> At(m2, x) == At(m1, x)
    requires SparesBoth(m2, m3, rest, base', size') && Extents(rest) <= s && MIN_EXTENT <= size'
    requires forall x :: base' <= x < base' + size' ==> Within(s, x) || base <= x < base + size
    ensures Confined(m0, m3, s, base, size)
  {
    forall x | !Within(s, x) && !(base <= x < base + size) ensures At(m3, x) == At(m0, x) {
      CoversExtents(rest, x);
    }
  }
}
