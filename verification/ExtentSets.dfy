/** Sets of extents up to coverage: which bytes they hold, and why keeping them apart
    makes the representation of free memory unique. */
module ExtentSets {
  import opened ExtentTree

  ghost predicate Holds(e: Extent, x: int) {
    e.base <= x < e.base + e.size
  }

  ghost predicate Within(s: set<Extent>, x: int) {
    exists e :: e in s && Holds(e, x)
  }

  /** Pairwise disjoint and never adjacent: the extents are maximally merged. */
  ghost predicate Apart(s: set<Extent>) {
    && (forall e :: e in s ==> 0 < e.size)
    && (forall e, f :: e in s && f in s && e != f ==> e.base + e.size < f.base || f.base + f.size < e.base)
  }

  /** A multiple of the 16-byte allocation granule. */
  predicate Granular(x: int) {
    x % 16 == 0
  }

  lemma GranularSum(x: int, y: int)
    requires Granular(x) && Granular(y)
    ensures Granular(x + y) && Granular(x - y)
  {
  }

  ghost predicate Aligned(s: set<Extent>) {
    forall e :: e in s ==> Granular(e.base) && Granular(e.size)
  }

  /** The extent of `t` that holds the first byte of `e` ends exactly where `e` ends. */
  lemma SameEnd(s: set<Extent>, t: set<Extent>, e: Extent) returns (f: Extent)
    requires Apart(s) && Apart(t) && e in s
    requires forall x :: Within(s, x) <==> Within(t, x)
    ensures f in t && Holds(f, e.base) && f.base + f.size == e.base + e.size
  {
    assert Holds(e, e.base);
    assert Within(t, e.base);
    f :| f in t && Holds(f, e.base);
    if e.base + e.size < f.base + f.size {
      assert Holds(f, e.base + e.size);
      NoNext(s, e);
    } else if f.base + f.size < e.base + e.size {
      assert Holds(e, f.base + f.size);
      NoNext(t, f);
    }
  }

  lemma NoNext(s: set<Extent>, e: Extent)
    requires Apart(s) && e in s
    ensures !Within(s, e.base + e.size)
  {
  }

  lemma CanonicalWithin(s: set<Extent>, t: set<Extent>)
    requires Apart(s) && Apart(t)
    requires forall x :: Within(s, x) <==> Within(t, x)
    ensures s <= t
  {
    forall e | e in s ensures e in t {
      var f := SameEnd(s, t, e);
      var g := SameEnd(t, s, f);
      assert e == g && f == e;
    }
  }

  /** Two maximally merged sets that hold the same bytes are the same set. */
  lemma CanonicalUnique(s: set<Extent>, t: set<Extent>)
    requires Apart(s) && Apart(t)
    requires forall x :: Within(s, x) <==> Within(t, x)
    ensures s == t
  {
    CanonicalWithin(s, t);
    CanonicalWithin(t, s);
  }

  // ---------- Merging a new extent with its neighbours ----------

  /** `previous` is the last extent before [base, base + size) and `next` the first after it;
      zero stands for none. */
  ghost predicate Neighbours(s: set<Extent>, base: nat, size: nat, previous: Extent, next: Extent) {
    && (previous.base != 0 ==> previous in s && previous.base + previous.size <= base)
    && (next.base != 0 ==> next in s && base + size <= next.base)
    && (forall e :: e in s ==>
          (previous.base != 0 && e.base <= previous.base) || (next.base != 0 && next.base <= e.base))
  }

  function Merged(base: nat, size: nat, previous: Extent, next: Extent): Extent {
    var end := if next.base != 0 && base + size == next.base then next.base + next.size else base + size;
    if previous.base != 0 && previous.base + previous.size == base && previous.base <= end
    then Extent(previous.base, end - previous.base)
    else Extent(base, if base <= end then end - base else 0)
  }

  function Rest(s: set<Extent>, base: nat, size: nat, previous: Extent, next: Extent): set<Extent> {
    set e | e in s && !(next.base != 0 && base + size == next.base && e.base == next.base)
                   && !(previous.base != 0 && previous.base + previous.size == base && e.base == previous.base)
  }

  /** Absorbing adjacent neighbours keeps the set maximally merged and adds exactly the new bytes. */
  lemma MergeCorrect(s: set<Extent>, base: nat, size: nat, previous: Extent, next: Extent)
    requires Apart(s) && 0 < size && Neighbours(s, base, size, previous, next)
    ensures var s' := Rest(s, base, size, previous, next) + {Merged(base, size, previous, next)};
      && Apart(s')
      && (Aligned(s) && Granular(base) && Granular(size) ==> Aligned(s'))
      && forall x :: Within(s', x) <==> Within(s, x) || base <= x < base + size
  {
    MergeApart(s, base, size, previous, next);
    if Aligned(s) && Granular(base) && Granular(size) {
      MergeAligned(s, base, size, previous, next);
    }
    MergeHolds(s, base, size, previous, next);
  }

  lemma MergeApart(s: set<Extent>, base: nat, size: nat, previous: Extent, next: Extent)
    requires Apart(s) && 0 < size && Neighbours(s, base, size, previous, next)
    ensures Apart(Rest(s, base, size, previous, next) + {Merged(base, size, previous, next)})
  {
  }

  lemma MergeAligned(s: set<Extent>, base: nat, size: nat, previous: Extent, next: Extent)
    requires Neighbours(s, base, size, previous, next)
    requires Aligned(s) && Granular(base) && Granular(size)
    ensures Aligned(Rest(s, base, size, previous, next) + {Merged(base, size, previous, next)})
  {
    hide Granular;
    GranularSum(base, size);
    if next.base != 0 && base + size == next.base {
      GranularSum(next.base, next.size);
    }
    var end := if next.base != 0 && base + size == next.base then next.base + next.size else base + size;
    GranularSum(end, base);
    if previous.base != 0 {
      GranularSum(end, previous.base);
    }
  }

  lemma MergeHolds(s: set<Extent>, base: nat, size: nat, previous: Extent, next: Extent)
    requires Apart(s) && 0 < size && Neighbours(s, base, size, previous, next)
    ensures forall x :: Within(Rest(s, base, size, previous, next) + {Merged(base, size, previous, next)}, x) <==>
                          Within(s, x) || base <= x < base + size
  {
    var s', merged := Rest(s, base, size, previous, next), Merged(base, size, previous, next);
    forall x ensures Within(s' + {merged}, x) <==> Within(s, x) || base <= x < base + size {
      if Within(s, x) {
        var e :| e in s && Holds(e, x);
        assert e in s' || Holds(merged, x);
        assert merged in s' + {merged};
      }
      if base <= x < base + size {
        assert Holds(merged, x) && merged in s' + {merged};
      }
      if Within(s' + {merged}, x) {
        var e :| e in s' + {merged} && Holds(e, x);
        if e == merged && !(base <= x < base + size) {
          assert (previous.base != 0 && Holds(previous, x)) || (next.base != 0 && Holds(next, x));
        }
      }
    }
  }
}
