/** The free index as a value: an AVL tree of extents ordered by address, and what
    each relinking step does to the set of extents it stands for. */
module ExtentTree {

  const MIN_EXTENT := 48

  datatype Extent = Extent(base: nat, size: nat)

  datatype Tree = Leaf | Node(left: Tree, base: nat, size: nat, right: Tree)

  function Max(x: nat, y: nat): nat {
    if x < y then y else x
  }

  function Height(t: Tree): nat {
    if t.Leaf? then 0 else 1 + Max(Height(t.left), Height(t.right))
  }

  function Maximum(t: Tree): nat {
    if t.Leaf? then 0 else Max(Max(t.size, Maximum(t.left)), Maximum(t.right))
  }

  /** The plain set of extents the tree indexes. */
  function Extents(t: Tree): set<Extent> {
    if t.Leaf? then {} else Extents(t.left) + {Extent(t.base, t.size)} + Extents(t.right)
  }

  /** A search tree of disjoint extents within [low, high), each big enough for its own node. */
  ghost predicate Ordered(t: Tree, low: int, high: int) {
    t.Node? ==>
      && low <= t.base && MIN_EXTENT <= t.size && t.base + t.size <= high
      && Ordered(t.left, low, t.base) && Ordered(t.right, t.base + t.size, high)
  }

  ghost predicate Balanced(t: Tree) {
    t.Node? ==>
      && -1 <= Height(t.left) - Height(t.right) <= 1
      && Balanced(t.left) && Balanced(t.right)
  }

  function RotateLeft(t: Tree): Tree
    requires t.Node? && t.right.Node?
  {
    Node(Node(t.left, t.base, t.size, t.right.left), t.right.base, t.right.size, t.right.right)
  }

  function RotateRight(t: Tree): Tree
    requires t.Node? && t.left.Node?
  {
    Node(t.left.left, t.left.base, t.left.size, Node(t.left.right, t.base, t.size, t.right))
  }

  function Balance(t: Tree): Tree
    requires t.Node?
  {
    if Height(t.left) > Height(t.right) + 1 then
      if Height(t.left.right) > Height(t.left.left)
      then RotateRight(t.(left := RotateLeft(t.left)))
      else RotateRight(t)
    else if Height(t.right) > Height(t.left) + 1 then
      if Height(t.right.left) > Height(t.right.right)
      then RotateLeft(t.(right := RotateRight(t.right)))
      else RotateLeft(t)
    else t
  }

  function Add(t: Tree, base: nat, size: nat): Tree {
    if t.Leaf? then Node(Leaf, base, size, Leaf)
    else if base < t.base then Balance(t.(left := Add(t.left, base, size)))
    else Balance(t.(right := Add(t.right, base, size)))
  }

  function Least(t: Tree): Extent
    requires t.Node?
  {
    if t.left.Leaf? then Extent(t.base, t.size) else Least(t.left)
  }

  function WithoutLeast(t: Tree): Tree
    requires t.Node?
  {
    if t.left.Leaf? then t.right else Balance(t.(left := WithoutLeast(t.left)))
  }

  function Erase(t: Tree, base: nat): Tree {
    if t.Leaf? then Leaf
    else if base < t.base then Balance(t.(left := Erase(t.left, base)))
    else if base > t.base then Balance(t.(right := Erase(t.right, base)))
    else if t.left.Leaf? then t.right
    else if t.right.Leaf? then t.left
    else
      var successor := Least(t.right);
      Balance(Node(t.left, successor.base, successor.size, WithoutLeast(t.right)))
  }

  // ---------- What the steps keep ----------

  /** Rebalancing never changes which extents are indexed. */
  lemma {:induction false} BalanceKeepsExtents(t: Tree)
    requires t.Node?
    ensures Extents(Balance(t)) == Extents(t)
  {
    if Height(t.left) > Height(t.right) + 1 {
      if Height(t.left.right) > Height(t.left.left) {
        assert Extents(RotateLeft(t.left)) == Extents(t.left);
      }
    } else if Height(t.right) > Height(t.left) + 1 {
      if Height(t.right.left) > Height(t.right.right) {
        assert Extents(RotateRight(t.right)) == Extents(t.right);
      }
    }
  }

  /** The five outcomes of `Balance`, by the heights that select them. */
  lemma BalanceCases(t: Tree)
    requires t.Node?
    ensures Height(t.left) > Height(t.right) + 1 ==> t.left.Node?
    ensures Height(t.right) > Height(t.left) + 1 ==> t.right.Node?
    ensures Height(t.left) > Height(t.right) + 1 && Height(t.left.right) > Height(t.left.left) ==>
      t.left.right.Node? && Balance(t) == RotateRight(t.(left := RotateLeft(t.left)))
    ensures Height(t.left) > Height(t.right) + 1 && Height(t.left.right) <= Height(t.left.left) ==>
      Balance(t) == RotateRight(t)
    ensures Height(t.right) > Height(t.left) + 1 && Height(t.right.left) > Height(t.right.right) ==>
      t.right.left.Node? && Balance(t) == RotateLeft(t.(right := RotateRight(t.right)))
    ensures Height(t.right) > Height(t.left) + 1 && Height(t.right.left) <= Height(t.right.right) ==>
      Balance(t) == RotateLeft(t)
    ensures -1 <= Height(t.left) - Height(t.right) <= 1 ==> Balance(t) == t
  {
  }

  lemma OrderedParts(t: Tree, low: int, high: int)
    requires t.Node? && Ordered(t, low, high)
    ensures Ordered(t.left, low, t.base) && Ordered(t.right, t.base + t.size, high)
    ensures forall l :: Ordered(l, low, t.base) ==> Ordered(t.(left := l), low, high)
    ensures forall r :: Ordered(r, t.base + t.size, high) ==> Ordered(t.(right := r), low, high)
    ensures t.right.Node? ==> Ordered(RotateLeft(t), low, high)
    ensures t.left.Node? ==> Ordered(RotateRight(t), low, high)
  {
  }

  /** Rebalancing keeps address order and disjointness. */
  lemma BalanceKeepsOrder(t: Tree, low: int, high: int)
    requires t.Node? && Ordered(t, low, high)
    ensures Ordered(Balance(t), low, high)
  {
    hide Height, Balance, Ordered;
    BalanceCases(t);
    OrderedParts(t, low, high);
    if Height(t.left) > Height(t.right) + 1 {
      if Height(t.left.right) > Height(t.left.left) {
        OrderedParts(t.left, low, t.base);
        OrderedParts(t.(left := RotateLeft(t.left)), low, high);
      }
    } else if Height(t.right) > Height(t.left) + 1 {
      if Height(t.right.left) > Height(t.right.right) {
        OrderedParts(t.right, t.base + t.size, high);
        OrderedParts(t.(right := RotateRight(t.right)), low, high);
      }
    }
  }

  ghost predicate NearlyBalanced(t: Tree) {
    && t.Node? && Balanced(t.left) && Balanced(t.right)
    && -2 <= Height(t.left) - Height(t.right) <= 2
  }

  lemma {:induction false} RepairLeft(t: Tree)
    requires NearlyBalanced(t) && Height(t.left) == Height(t.right) + 2
    ensures Balanced(Balance(t)) && Height(t) - 1 <= Height(Balance(t)) <= Height(t)
  {
    var l := t.left;
    if Height(l.right) > Height(l.left) {
      assert Balanced(l.right) && Height(RotateLeft(l)) == Height(l);
    }
  }

  lemma {:induction false} RepairRight(t: Tree)
    requires NearlyBalanced(t) && Height(t.right) == Height(t.left) + 2
    ensures Balanced(Balance(t)) && Height(t) - 1 <= Height(Balance(t)) <= Height(t)
  {
    var r := t.right;
    if Height(r.left) > Height(r.right) {
      assert Balanced(r.left) && Height(RotateRight(r)) == Height(r);
    }
  }

  /** One step off balance is what `Balance` repairs, losing at most one level. */
  lemma {:induction false} BalanceRepairs(t: Tree)
    requires NearlyBalanced(t)
    ensures Balanced(Balance(t))
    ensures Height(t) - 1 <= Height(Balance(t)) <= Height(t)
    ensures -1 <= Height(t.left) - Height(t.right) <= 1 ==> Balance(t) == t
  {
    if Height(t.left) == Height(t.right) + 2 {
      RepairLeft(t);
    } else if Height(t.right) == Height(t.left) + 2 {
      RepairRight(t);
    }
  }

  lemma {:induction false} AddBalanced(t: Tree, base: nat, size: nat)
    requires Balanced(t)
    ensures Balanced(Add(t, base, size))
    ensures Height(t) <= Height(Add(t, base, size)) <= Height(t) + 1
  {
    if t.Node? {
      hide Balance;
      if base < t.base {
        AddBalanced(t.left, base, size);
        BalanceRepairs(t.(left := Add(t.left, base, size)));
      } else {
        AddBalanced(t.right, base, size);
        BalanceRepairs(t.(right := Add(t.right, base, size)));
      }
    }
  }

  lemma {:induction false} AddExtents(t: Tree, base: nat, size: nat)
    ensures Extents(Add(t, base, size)) == Extents(t) + {Extent(base, size)}
  {
    if t.Node? {
      hide Balance;
      if base < t.base {
        AddExtents(t.left, base, size);
        BalanceKeepsExtents(t.(left := Add(t.left, base, size)));
      } else {
        AddExtents(t.right, base, size);
        BalanceKeepsExtents(t.(right := Add(t.right, base, size)));
      }
    }
  }

  /** No indexed extent overlaps [base, base + size). */
  ghost predicate Gap(t: Tree, base: nat, size: nat) {
    t.Leaf?
    || (base + size <= t.base && Gap(t.left, base, size))
    || (t.base + t.size <= base && Gap(t.right, base, size))
  }

  lemma {:induction false} AddOrdered(t: Tree, base: nat, size: nat, low: int, high: int)
    requires Ordered(t, low, high)
    requires MIN_EXTENT <= size && low <= base && base + size <= high && Gap(t, base, size)
    ensures Ordered(Add(t, base, size), low, high)
  {
    if t.Node? {
      hide Balance;
      if base < t.base {
        AddOrdered(t.left, base, size, low, t.base);
        BalanceKeepsOrder(t.(left := Add(t.left, base, size)), low, high);
      } else {
        AddOrdered(t.right, base, size, t.base + t.size, high);
        BalanceKeepsOrder(t.(right := Add(t.right, base, size)), low, high);
      }
    }
  }

  /** Adding a disjoint extent adds exactly that extent and keeps order and balance. */
  lemma AddCorrect(t: Tree, base: nat, size: nat, low: int, high: int)
    requires Ordered(t, low, high) && Balanced(t)
    requires MIN_EXTENT <= size && low <= base && base + size <= high && Gap(t, base, size)
    ensures Extents(Add(t, base, size)) == Extents(t) + {Extent(base, size)}
    ensures Ordered(Add(t, base, size), low, high) && Balanced(Add(t, base, size))
    ensures Height(t) <= Height(Add(t, base, size)) <= Height(t) + 1
  {
    hide *;
    AddBalanced(t, base, size);
    AddExtents(t, base, size);
    AddOrdered(t, base, size, low, high);
  }

  lemma {:induction false} LeastBalanced(t: Tree)
    requires t.Node? && Balanced(t)
    ensures Balanced(WithoutLeast(t))
    ensures Height(t) - 1 <= Height(WithoutLeast(t)) <= Height(t)
  {
    if t.left.Node? {
      hide Balance;
      LeastBalanced(t.left);
      BalanceRepairs(t.(left := WithoutLeast(t.left)));
    }
  }

  lemma {:induction false} LeastExtents(t: Tree)
    requires t.Node?
    ensures Extents(t) == Extents(WithoutLeast(t)) + {Least(t)}
  {
    if t.left.Node? {
      hide Balance;
      LeastExtents(t.left);
      BalanceKeepsExtents(t.(left := WithoutLeast(t.left)));
    }
  }

  lemma {:induction false} LeastOrdered(t: Tree, low: int, high: int)
    requires t.Node? && Ordered(t, low, high)
    ensures low <= Least(t).base && MIN_EXTENT <= Least(t).size && Least(t).base + Least(t).size <= high
    ensures Ordered(WithoutLeast(t), Least(t).base + Least(t).size, high)
  {
    if t.left.Node? {
      hide Balance;
      LeastOrdered(t.left, low, t.base);
      BalanceKeepsOrder(t.(left := WithoutLeast(t.left)), Least(t).base + Least(t).size, high);
    }
  }

  lemma {:induction false} EraseBalanced(t: Tree, base: nat)
    requires Balanced(t)
    ensures Balanced(Erase(t, base))
    ensures Height(t) - 1 <= Height(Erase(t, base)) <= Height(t)
  {
    if t.Node? {
      hide Balance;
      if base < t.base {
        EraseBalanced(t.left, base);
        BalanceRepairs(t.(left := Erase(t.left, base)));
      } else if base > t.base {
        EraseBalanced(t.right, base);
        BalanceRepairs(t.(right := Erase(t.right, base)));
      } else if t.left.Node? && t.right.Node? {
        LeastBalanced(t.right);
        BalanceRepairs(Node(t.left, Least(t.right).base, Least(t.right).size, WithoutLeast(t.right)));
      }
    }
  }

  /** Every extent of an ordered tree lies within its bounds. */
  lemma {:induction false} ExtentsWithin(t: Tree, low: int, high: int)
    requires Ordered(t, low, high)
    ensures forall e :: e in Extents(t) ==> low <= e.base && MIN_EXTENT <= e.size && e.base + e.size <= high
  {
    if t.Node? {
      ExtentsWithin(t.left, low, t.base);
      ExtentsWithin(t.right, t.base + t.size, high);
    }
  }

  ghost predicate WithoutBase(s': set<Extent>, s: set<Extent>, base: nat) {
    forall e :: e in s' <==> e in s && e.base != base
  }

  lemma {:induction false} EraseExtents(t: Tree, base: nat, low: int, high: int)
    requires Ordered(t, low, high)
    ensures WithoutBase(Extents(Erase(t, base)), Extents(t), base)
  {
    if t.Node? {
      hide Balance;
      ExtentsWithin(t.left, low, t.base);
      ExtentsWithin(t.right, t.base + t.size, high);
      if base < t.base {
        EraseExtents(t.left, base, low, t.base);
        BalanceKeepsExtents(t.(left := Erase(t.left, base)));
      } else if base > t.base {
        EraseExtents(t.right, base, t.base + t.size, high);
        BalanceKeepsExtents(t.(right := Erase(t.right, base)));
      } else if t.left.Node? && t.right.Node? {
        LeastExtents(t.right);
        BalanceKeepsExtents(Node(t.left, Least(t.right).base, Least(t.right).size, WithoutLeast(t.right)));
      }
    }
  }

  lemma {:induction false} EraseOrdered(t: Tree, base: nat, low: int, high: int)
    requires Ordered(t, low, high)
    ensures Ordered(Erase(t, base), low, high)
  {
    if t.Node? {
      hide Balance;
      if base < t.base {
        EraseOrdered(t.left, base, low, t.base);
        BalanceKeepsOrder(t.(left := Erase(t.left, base)), low, high);
      } else if base > t.base {
        EraseOrdered(t.right, base, t.base + t.size, high);
        BalanceKeepsOrder(t.(right := Erase(t.right, base)), low, high);
      } else if t.left.Node? && t.right.Node? {
        LeastOrdered(t.right, t.base + t.size, high);
        var least := Least(t.right);
        Widen(t.left, low, t.base, low, least.base);
        BalanceKeepsOrder(Node(t.left, least.base, least.size, WithoutLeast(t.right)), low, high);
      } else {
        Widen(t.left, low, t.base, low, high);
        Widen(t.right, t.base + t.size, high, low, high);
      }
    }
  }

  lemma {:induction false} Widen(t: Tree, low: int, high: int, low': int, high': int)
    requires Ordered(t, low, high) && low' <= low && high <= high'
    ensures Ordered(t, low', high')
  {
    if t.Node? {
      Widen(t.left, low, t.base, low', t.base);
      Widen(t.right, t.base + t.size, high, t.base + t.size, high');
    }
  }

  /** Detaching the minimum removes exactly the lowest extent and keeps order and balance. */
  lemma LeastCorrect(t: Tree, low: int, high: int)
    requires t.Node? && Ordered(t, low, high) && Balanced(t)
    ensures Least(t) in Extents(t) && Extents(WithoutLeast(t)) == Extents(t) - {Least(t)}
    ensures forall e :: e in Extents(t) && e != Least(t) ==> Least(t).base + Least(t).size <= e.base
    ensures Ordered(WithoutLeast(t), Least(t).base + Least(t).size, high) && Balanced(WithoutLeast(t))
  {
    hide Extents, Ordered, Balanced, Balance, Least, WithoutLeast;
    LeastExtents(t);
    LeastOrdered(t, low, high);
    LeastBalanced(t);
    ExtentsWithin(WithoutLeast(t), Least(t).base + Least(t).size, high);
  }

  /** Erasing removes exactly the extent at `base`, if any, and keeps order and balance. */
  lemma EraseCorrect(t: Tree, base: nat, low: int, high: int)
    requires Ordered(t, low, high) && Balanced(t)
    ensures forall e :: e in Extents(Erase(t, base)) <==> e in Extents(t) && e.base != base
    ensures Ordered(Erase(t, base), low, high) && Balanced(Erase(t, base))
  {
    EraseBalanced(t, base);
    EraseExtents(t, base, low, high);
    EraseOrdered(t, base, low, high);
  }

  // ---------- Consequences of the shape ----------

  /** The subtree maximum bounds every extent below it. */
  lemma {:induction false} MaximumBounds(t: Tree)
    ensures forall e :: e in Extents(t) ==> e.size <= Maximum(t)
  {
    if t.Node? {
      MaximumBounds(t.left);
      MaximumBounds(t.right);
    }
  }

  function Fibonacci(n: nat): nat {
    if n < 2 then n else Fibonacci(n - 1) + Fibonacci(n - 2)
  }

  lemma {:induction false} FibonacciMonotone(n: nat, k: nat)
    requires n <= k
    ensures Fibonacci(n) <= Fibonacci(k)
    decreases k
  {
    if n < k {
      FibonacciMonotone(n, k - 1);
    }
  }

  lemma FibonacciSteps(h: nat, left: nat, right: nat)
    requires h == 1 + Max(left, right) && -1 <= left - right <= 1
    ensures Fibonacci(left + 2) + Fibonacci(right + 2) >= Fibonacci(h + 2)
  {
    FibonacciMonotone(h, left + 2);
    FibonacciMonotone(h, right + 2);
    assert Fibonacci(h + 2) == Fibonacci(h + 1) + Fibonacci(h);
  }

  function Nodes(t: Tree): nat {
    if t.Leaf? then 0 else Nodes(t.left) + 1 + Nodes(t.right)
  }

  lemma UnionSize(l: set<Extent>, e: Extent, r: set<Extent>)
    requires e !in l && e !in r && l !! r
    ensures |l + {e} + r| == |l| + 1 + |r|
  {
    assert (l + {e}) !! r;
  }

  lemma {:induction false} NodesAreExtents(t: Tree, low: int, high: int)
    requires Ordered(t, low, high)
    ensures Nodes(t) == |Extents(t)|
  {
    if t.Node? {
      NodesAreExtents(t.left, low, t.base);
      NodesAreExtents(t.right, t.base + t.size, high);
      ExtentsWithin(t.left, low, t.base);
      ExtentsWithin(t.right, t.base + t.size, high);
      UnionSize(Extents(t.left), Extent(t.base, t.size), Extents(t.right));
    }
  }

  lemma {:induction false} NodesOfHeight(t: Tree, h: nat)
    requires Balanced(t) && h == Height(t)
    ensures Nodes(t) >= Fibonacci(h + 2) - 1
  {
    if t.Node? {
      var l, r := Height(t.left), Height(t.right);
      NodesOfHeight(t.left, l);
      NodesOfHeight(t.right, r);
      FibonacciSteps(h, l, r);
    }
  }

  /** The search depth is logarithmic: a tree of height h holds at least F(h + 2) - 1 extents. */
  lemma HeightIsLogarithmic(t: Tree, low: int, high: int)
    requires Ordered(t, low, high) && Balanced(t)
    ensures |Extents(t)| >= Fibonacci(Height(t) + 2) - 1
  {
    hide *;
    NodesAreExtents(t, low, high);
    NodesOfHeight(t, Height(t));
  }

  /** Disjoint extents of at least 48 bytes leave room for few levels. */
  lemma {:induction false} HeightFitsSpan(t: Tree, low: int, high: int)
    requires Ordered(t, low, high) && low <= high
    ensures MIN_EXTENT * Height(t) <= high - low
  {
    if t.Node? {
      HeightFitsSpan(t.left, low, t.base);
      HeightFitsSpan(t.right, t.base + t.size, high);
    }
  }
}
