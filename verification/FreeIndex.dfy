/** The free index where it really lives: AVL nodes written into the first bytes of the
    free extents themselves, linked by address. Every operation relinks the nodes in
    place and is proved to realise the corresponding step of `ExtentTree`. */
module FreeIndex {
  import opened Memory
  import opened ExtentTree

  // Field offsets of a node; a node occupies the first NODE_BYTES of its extent.
  const MAXIMUM := 8
  const LEFT := 16
  const RIGHT := 24
  const HEIGHT := 32

  /** Raw memory shared by the heap and its clients. */
  class Arena {
    var mem: Bytes

    constructor (initial: Bytes)
      ensures mem == initial
    {
      mem := initial;
    }
  }

  function Root(t: Tree): nat {
    if t.Leaf? then 0 else t.base
  }

  /** The links and sizes of `t` are in memory; the root's own height and maximum may be stale. */
  ghost predicate Linked(m: Bytes, t: Tree)
    decreases t, 0
  {
    && t.Node?
    && Word(m, t.base) == t.size
    && Word(m, t.base + LEFT) == Root(t.left)
    && Word(m, t.base + RIGHT) == Root(t.right)
    && Stored(m, t.left) && Stored(m, t.right)
  }

  /** Memory holds exactly the nodes of `t`, with exact height and maximum fields. */
  ghost predicate Stored(m: Bytes, t: Tree)
    decreases t, 1
  {
    t.Node? ==>
      && Linked(m, t)
      && Word(m, t.base + MAXIMUM) == Maximum(t)
      && Word(m, t.base + HEIGHT) == Height(t)
  }

  /** Ordered within an address range that a 64-bit word can name, zero excluded. */
  ghost predicate Sound(t: Tree, low: int, high: int) {
    0 < low <= high < WORD_LIMIT && Ordered(t, low, high)
  }

  /** Address x lies in an indexed extent. */
  ghost predicate Covers(t: Tree, x: int) {
    t.Node? && (t.base <= x < t.base + t.size || Covers(t.left, x) || Covers(t.right, x))
  }

  // ---------- Framing ----------

  lemma {:induction false} CoversWithin(t: Tree, low: int, high: int, x: int)
    requires Ordered(t, low, high) && Covers(t, x)
    ensures low <= x < high
  {
    if Covers(t.left, x) {
      CoversWithin(t.left, low, t.base, x);
    } else if Covers(t.right, x) {
      CoversWithin(t.right, t.base + t.size, high, x);
    }
  }

  lemma NotCovered(t: Tree, low: int, high: int)
    requires Ordered(t, low, high)
    ensures forall x :: x < low || high <= x ==> !Covers(t, x)
  {
    forall x | x < low || high <= x ensures !Covers(t, x) {
      if Covers(t, x) {
        CoversWithin(t, low, high, x);
      }
    }
  }

  lemma {:induction false} CoversExtents(t: Tree, x: int)
    ensures Covers(t, x) <==> exists e :: e in Extents(t) && e.base <= x < e.base + e.size
  {
    if t.Node? {
      CoversExtents(t.left, x);
      CoversExtents(t.right, x);
      if t.base <= x < t.base + t.size {
        assert Extent(t.base, t.size) in Extents(t);
      }
    }
  }

  /** A write outside the range of a tree leaves it stored. */
  lemma {:induction false} StoredPut(m: Bytes, a: int, v: nat, t: Tree, low: int, high: int)
    requires Ordered(t, low, high) && (a + 8 <= low || high <= a) && Stored(m, t)
    ensures Stored(PutWord(m, a, v), t)
  {
    hide Word, PutWord, Maximum, Height, Root;
    if t.Node? {
      StoredPut(m, a, v, t.left, low, t.base);
      StoredPut(m, a, v, t.right, t.base + t.size, high);
    }
  }

  /** A change that spares the tree's own extents leaves it stored. */
  lemma {:induction false} StoredFrame(m: Bytes, m': Bytes, t: Tree, low: int, high: int)
    requires Ordered(t, low, high) && Stored(m, t)
    requires forall x :: Covers(t, x) ==> At(m', x) == At(m, x)
    ensures Stored(m', t)
  {
    hide Word, At, Maximum, Height, Root;
    if t.Node? {
      StoredFrame(m, m', t.left, low, t.base);
      StoredFrame(m, m', t.right, t.base + t.size, high);
      assert forall x :: t.base <= x < t.base + MIN_EXTENT ==> Covers(t, x);
      NodeWords(m, m', t.base);
    }
  }

  lemma NodeWords(m: Bytes, m': Bytes, a: int)
    requires Same(m, m', a, a + MIN_EXTENT)
    ensures Word(m', a) == Word(m, a) && Word(m', a + MAXIMUM) == Word(m, a + MAXIMUM)
    ensures Word(m', a + LEFT) == Word(m, a + LEFT)
    ensures Word(m', a + RIGHT) == Word(m, a + RIGHT) && Word(m', a + HEIGHT) == Word(m, a + HEIGHT)
  {
    hide Word, At;
    WordFrame(m, m', a);
    WordFrame(m, m', a + MAXIMUM);
    WordFrame(m, m', a + LEFT);
    WordFrame(m, m', a + RIGHT);
    WordFrame(m, m', a + HEIGHT);
  }

  lemma {:induction false} MaximumFits(t: Tree, low: int, high: int)
    requires Ordered(t, low, high) && low <= high
    ensures Maximum(t) <= high - low
  {
    if t.Node? {
      MaximumFits(t.left, low, t.base);
      MaximumFits(t.right, t.base + t.size, high);
    }
  }

  // ---------- Relinking ----------

  method PutField(arena: Arena, a: int, v: nat)
    modifies arena
    ensures arena.mem == PutWord(old(arena.mem), a, v)
  {
    arena.mem := PutWord(arena.mem, a, v);
  }

  /** Rewriting a root's stale fields keeps its links. */
  lemma LinkedPut(m: Bytes, t: Tree, field: int, v: nat, low: int, high: int)
    requires Linked(m, t) && Sound(t, low, high)
    requires field == MAXIMUM || field == HEIGHT
    ensures Linked(PutWord(m, t.base + field, v), t)
  {
    hide PutWord, Word;
    StoredPut(m, t.base + field, v, t.left, low, t.base);
    StoredPut(m, t.base + field, v, t.right, t.base + t.size, high);
  }

  /** What a linked node gives its callers, so that they can treat the predicates as atoms. */
  lemma Parts(m: Bytes, t: Tree, low: int, high: int)
    requires Linked(m, t) && Sound(t, low, high)
    ensures t.Node? && 0 < t.base && MIN_EXTENT <= t.size && low <= t.base && t.base + t.size <= high
    ensures Sound(t.left, low, t.base) && Sound(t.right, t.base + t.size, high)
    ensures Ordered(t.left, low, t.base) && Ordered(t.right, t.base + t.size, high)
    ensures Stored(m, t.left) && Stored(m, t.right)
    ensures Word(m, t.base + LEFT) == Root(t.left) && Word(m, t.base + RIGHT) == Root(t.right)
    ensures t.left.Node? ==> Linked(m, t.left) && 0 < t.left.base == Root(t.left)
    ensures t.right.Node? ==> Linked(m, t.right) && 0 < t.right.base == Root(t.right)
    ensures t.left.Leaf? ==> Root(t.left) == 0
    ensures t.right.Leaf? ==> Root(t.right) == 0
    ensures forall x :: t.base <= x < t.base + t.size ==> Covers(t, x)
    ensures forall x :: Covers(t.left, x) || Covers(t.right, x) ==> Covers(t, x)
  {
  }

  /** What a node's fields must say, once its children are known. */
  lemma FieldValues(m: Bytes, t: Tree, low: int, high: int)
    requires Linked(m, t) && Sound(t, low, high)
    ensures Height(t) == 1 + Max(Height(t.left), Height(t.right)) < WORD_LIMIT
    ensures Maximum(t) == Max(Max(t.size, Maximum(t.left)), Maximum(t.right)) < WORD_LIMIT
    ensures Word(m, t.base) == t.size
    ensures Word(m, t.base + MAXIMUM) == Maximum(t) && Word(m, t.base + HEIGHT) == Height(t) ==> Stored(m, t)
  {
    HeightFitsSpan(t, low, high);
    MaximumFits(t, low, high);
  }

  /** Refreshes the node's height and maximum from its children. */
  method Update(arena: Arena, node: nat, ghost t: Tree, ghost low: int, ghost high: int)
    requires t.Node? && node == t.base && Sound(t, low, high) && Linked(arena.mem, t)
    modifies arena
    ensures Stored(arena.mem, t)
    ensures forall x :: x < node || node + MIN_EXTENT <= x ==> At(arena.mem, x) == At(old(arena.mem), x)
  {
    hide PutWord, Word, At, Linked, Stored, Sound, Ordered, Height, Maximum, Covers;
    Parts(arena.mem, t, low, high);
    FieldValues(arena.mem, t, low, high);
    var left, right := Word(arena.mem, node + LEFT), Word(arena.mem, node + RIGHT);
    var h := 1 + Max(NodeHeight(arena.mem, left, t.left), NodeHeight(arena.mem, right, t.right));
    LinkedPut(arena.mem, t, HEIGHT, h, low, high);
    PutField(arena, node + HEIGHT, h);
    Parts(arena.mem, t, low, high);
    FieldValues(arena.mem, t, low, high);
    var m := Max(Max(Word(arena.mem, node), NodeMaximum(arena.mem, left, t.left)),
                 NodeMaximum(arena.mem, right, t.right));
    LinkedPut(arena.mem, t, MAXIMUM, m, low, high);
    PutField(arena, node + MAXIMUM, m);
    FieldValues(arena.mem, t, low, high);
  }

  function NodeHeight(m: Bytes, node: nat, ghost t: Tree): (h: nat)
    requires Stored(m, t) && node == Root(t) && (t.Node? ==> t.base != 0)
    ensures h == Height(t)
  {
    if node == 0 then 0 else Word(m, node + HEIGHT)
  }

  function NodeMaximum(m: Bytes, node: nat, ghost t: Tree): (h: nat)
    requires Stored(m, t) && node == Root(t) && (t.Node? ==> t.base != 0)
    ensures h == Maximum(t)
  {
    if node == 0 then 0 else Word(m, node + MAXIMUM)
  }

  /** Memory outside the extents of `t` is untouched. */
  ghost predicate Spares(m: Bytes, m': Bytes, t: Tree) {
    forall x :: !Covers(t, x) ==> At(m', x) == At(m, x)
  }

  lemma StoredPutTwice(m: Bytes, a: int, v: nat, b: int, w: nat, t: Tree, low: int, high: int)
    requires Ordered(t, low, high) && Stored(m, t)
    requires (a + 8 <= low || high <= a) && (b + 8 <= low || high <= b)
    ensures Stored(PutWord(PutWord(m, a, v), b, w), t)
  {
    StoredPut(m, a, v, t, low, high);
    StoredPut(PutWord(m, a, v), b, w, t, low, high);
  }

  /** The two link writes of a left rotation. */
  lemma RelinkLeft(m: Bytes, t: Tree, low: int, high: int)
    requires Linked(m, t) && t.right.Node? && Sound(t, low, high)
    ensures var r := t.right;
      var m' := PutWord(PutWord(m, t.base + RIGHT, Root(r.left)), r.base + LEFT, t.base);
      && Linked(m', RotateLeft(t).left) && Stored(m', r.right)
      && Word(m', r.base) == r.size && Word(m', r.base + LEFT) == t.base
      && Word(m', r.base + RIGHT) == Root(r.right)
      && Word(m, t.base + RIGHT) == r.base && Word(m, r.base + LEFT) == Root(r.left)
  {
    hide PutWord, Word, Height, Maximum;
    var r := t.right;
    assert Ordered(r, t.base + t.size, high) && Linked(m, r);
    var a, v, b := t.base + RIGHT, Root(r.left), r.base + LEFT;
    var m' := PutWord(PutWord(m, a, v), b, t.base);
    assert v < WORD_LIMIT by { assert Ordered(r.left, t.base + t.size, r.base); }
    assert Stored(m', t.left) by { StoredPutTwice(m, a, v, b, t.base, t.left, low, t.base); }
    assert Stored(m', r.left) by { StoredPutTwice(m, a, v, b, t.base, r.left, t.base + t.size, r.base); }
    assert Stored(m', r.right) by { StoredPutTwice(m, a, v, b, t.base, r.right, r.base + r.size, high); }
  }

  /** The two link writes of a right rotation. */
  lemma RelinkRight(m: Bytes, t: Tree, low: int, high: int)
    requires Linked(m, t) && t.left.Node? && Sound(t, low, high)
    ensures var l := t.left;
      var m' := PutWord(PutWord(m, t.base + LEFT, Root(l.right)), l.base + RIGHT, t.base);
      && Linked(m', RotateRight(t).right) && Stored(m', l.left)
      && Word(m', l.base) == l.size && Word(m', l.base + RIGHT) == t.base
      && Word(m', l.base + LEFT) == Root(l.left)
      && Word(m, t.base + LEFT) == l.base && Word(m, l.base + RIGHT) == Root(l.right)
  {
    hide PutWord, Word, Height, Maximum;
    var l := t.left;
    assert Ordered(l, low, t.base) && Linked(m, l);
    var a, v, b := t.base + LEFT, Root(l.right), l.base + RIGHT;
    var m' := PutWord(PutWord(m, a, v), b, t.base);
    assert v < WORD_LIMIT by { assert Ordered(l.right, l.base + l.size, t.base); }
    assert Stored(m', l.left) by { StoredPutTwice(m, a, v, b, t.base, l.left, low, l.base); }
    assert Stored(m', l.right) by { StoredPutTwice(m, a, v, b, t.base, l.right, l.base + l.size, t.base); }
    assert Stored(m', t.right) by { StoredPutTwice(m, a, v, b, t.base, t.right, t.base + t.size, high); }
  }

  lemma RotationParts(t: Tree, low: int, high: int)
    requires t.Node? && Sound(t, low, high)
    ensures t.right.Node? ==>
      && Sound(RotateLeft(t), low, high) && Sound(RotateLeft(t).left, low, t.right.base)
      && Ordered(t.right.right, t.right.base + t.right.size, high) && t.base + t.size <= t.right.base
    ensures t.left.Node? ==>
      && Sound(RotateRight(t), low, high) && Sound(RotateRight(t).right, t.left.base + t.left.size, high)
      && Ordered(t.left.left, low, t.left.base) && t.left.base + t.left.size <= t.base
    ensures t.left.Node? ==> MIN_EXTENT <= t.left.size
    ensures t.right.Node? ==> MIN_EXTENT <= t.right.size
    ensures MIN_EXTENT <= t.size
    ensures forall x :: t.base <= x < t.base + t.size ==> Covers(t, x)
    ensures t.left.Node? ==> forall x :: t.left.base <= x < t.left.base + t.left.size ==> Covers(t, x)
    ensures t.right.Node? ==> forall x :: t.right.base <= x < t.right.base + t.right.size ==> Covers(t, x)
  {
    OrderedParts(t, low, high);
    if t.left.Node? {
      assert forall x :: t.left.base <= x < t.left.base + t.left.size ==> Covers(t.left, x);
    }
    if t.right.Node? {
      assert forall x :: t.right.base <= x < t.right.base + t.right.size ==> Covers(t.right, x);
    }
  }

  /** Updating the lowered node leaves the raised one linked. */
  lemma RaisedLeft(m: Bytes, m': Bytes, t: Tree, low: int, high: int)
    requires t.Node? && t.right.Node? && Sound(t, low, high) && Stored(m', RotateLeft(t).left)
    requires forall x :: x < t.base || t.base + MIN_EXTENT <= x ==> At(m', x) == At(m, x)
    requires var r := t.right;
      Stored(m, r.right) && Word(m, r.base) == r.size && Word(m, r.base + LEFT) == t.base &&
          Word(m, r.base + RIGHT) == Root(r.right)
    ensures Linked(m', RotateLeft(t))
  {
    hide Word, At, Covers, Sound, Ordered, Height, Maximum, Stored;
    var r := t.right;
    RotationParts(t, low, high);
    StoredSame(m, m', r.right, r.base + r.size, high);
    WordFrame(m, m', r.base);
    WordFrame(m, m', r.base + LEFT);
    WordFrame(m, m', r.base + RIGHT);
  }

  lemma RaisedRight(m: Bytes, m': Bytes, t: Tree, low: int, high: int)
    requires t.Node? && t.left.Node? && Sound(t, low, high) && Stored(m', RotateRight(t).right)
    requires forall x :: x < t.base || t.base + MIN_EXTENT <= x ==> At(m', x) == At(m, x)
    requires var l := t.left;
      Stored(m, l.left) && Word(m, l.base) == l.size && Word(m, l.base + RIGHT) == t.base &&
          Word(m, l.base + LEFT) == Root(l.left)
    ensures Linked(m', RotateRight(t))
  {
    hide Word, At, Covers, Sound, Ordered, Height, Maximum, Stored;
    var l := t.left;
    RotationParts(t, low, high);
    StoredSame(m, m', l.left, low, l.base);
    WordFrame(m, m', l.base);
    WordFrame(m, m', l.base + LEFT);
    WordFrame(m, m', l.base + RIGHT);
  }

  lemma RotationSpares(m0: Bytes, a: int, v: nat, b: int, w: nat, m1: Bytes, m2: Bytes, t: Tree, node: nat, next: nat)
    requires forall x :: node <= x < node + MIN_EXTENT || next <= x < next + MIN_EXTENT ==> Covers(t, x)
    requires node <= a && a + 8 <= node + MIN_EXTENT && next <= b && b + 8 <= next + MIN_EXTENT
    requires forall x :: x < node || node + MIN_EXTENT <= x ==> At(m1, x) == At(PutWord(PutWord(m0, a, v), b, w), x)
    requires forall x :: x < next || next + MIN_EXTENT <= x ==> At(m2, x) == At(m1, x)
    ensures Spares(m0, m2, t)
  {
    hide Word, PutWord, Covers, At;
  }

  method RotateNodeLeft(arena: Arena, node: nat, ghost t: Tree, ghost low: int, ghost high: int) returns (next: nat)
    requires t.Node? && t.right.Node? && node == t.base && Sound(t, low, high) && Linked(arena.mem, t)
    modifies arena
    ensures next == RotateLeft(t).base && Stored(arena.mem, RotateLeft(t))
    ensures Spares(old(arena.mem), arena.mem, t)
  {
    hide Word, PutWord, At, Covers, Linked, Stored, Sound, Ordered, Height, Maximum, Spares;
    ghost var t' := RotateLeft(t);
    RotationParts(t, low, high);
    RelinkLeft(arena.mem, t, low, high);
    next := Word(arena.mem, node + RIGHT);
    var inner := Word(arena.mem, next + LEFT);
    PutField(arena, node + RIGHT, inner);
    PutField(arena, next + LEFT, node);
    ghost var m := arena.mem;
    Update(arena, node, t'.left, low, t.right.base);
    ghost var m' := arena.mem;
    RaisedLeft(m, m', t, low, high);
    Update(arena, next, t', low, high);
    RotationSpares(old(arena.mem), node + RIGHT, inner, next + LEFT, node, m', arena.mem, t, node, next);
  }

  method RotateNodeRight(arena: Arena, node: nat, ghost t: Tree, ghost low: int, ghost high: int) returns (next: nat)
    requires t.Node? && t.left.Node? && node == t.base && Sound(t, low, high) && Linked(arena.mem, t)
    modifies arena
    ensures next == RotateRight(t).base && Stored(arena.mem, RotateRight(t))
    ensures Spares(old(arena.mem), arena.mem, t)
  {
    hide Word, PutWord, At, Covers, Linked, Stored, Sound, Ordered, Height, Maximum, Spares;
    ghost var t' := RotateRight(t);
    RotationParts(t, low, high);
    RelinkRight(arena.mem, t, low, high);
    next := Word(arena.mem, node + LEFT);
    var inner := Word(arena.mem, next + RIGHT);
    PutField(arena, node + LEFT, inner);
    PutField(arena, next + RIGHT, node);
    ghost var m := arena.mem;
    Update(arena, node, t'.right, t.left.base + t.left.size, high);
    ghost var m' := arena.mem;
    RaisedRight(m, m', t, low, high);
    Update(arena, next, t', low, high);
    RotationSpares(old(arena.mem), node + LEFT, inner, next + RIGHT, node, m', arena.mem, t, node, next);
  }

  /** Hanging a stored subtree on the left link completes the parent again. */
  lemma RelinkedLeft(m: Bytes, m': Bytes, t: Tree, l: Tree, low: int, high: int)
    requires Linked(m, t) && Sound(t, low, high) && Ordered(l, low, t.base) && Stored(m', l)
    requires Same(m, m', t.base, high)
    ensures Linked(PutWord(m', t.base + LEFT, Root(l)), t.(left := l))
  {
    hide PutWord, Word, Height, Maximum;
    assert Root(l) < WORD_LIMIT;
    WordFrame(m, m', t.base);
    WordFrame(m, m', t.base + RIGHT);
    assert Stored(m', t.right) by {
      NotCovered(t.right, t.base + t.size, high);
      StoredFrame(m, m', t.right, t.base + t.size, high);
    }
    StoredPut(m', t.base + LEFT, Root(l), t.right, t.base + t.size, high);
    StoredPut(m', t.base + LEFT, Root(l), l, low, t.base);
  }

  /** Hanging a stored subtree on the right link completes the parent again. */
  lemma RelinkedRight(m: Bytes, m': Bytes, t: Tree, r: Tree, low: int, high: int)
    requires Linked(m, t) && Sound(t, low, high) && Ordered(r, t.base + t.size, high) && Stored(m', r)
    requires Same(m, m', low, t.base + t.size)
    ensures Linked(PutWord(m', t.base + RIGHT, Root(r)), t.(right := r))
  {
    hide PutWord, Word, Height, Maximum;
    assert Root(r) < WORD_LIMIT;
    WordFrame(m, m', t.base);
    WordFrame(m, m', t.base + LEFT);
    assert Stored(m', t.left) by {
      NotCovered(t.left, low, t.base);
      StoredFrame(m, m', t.left, low, t.base);
    }
    StoredPut(m', t.base + RIGHT, Root(r), t.left, low, t.base);
    StoredPut(m', t.base + RIGHT, Root(r), r, t.base + t.size, high);
  }

  lemma CoversMonotone(t: Tree, t': Tree)
    requires Extents(t) <= Extents(t')
    ensures forall x :: Covers(t, x) ==> Covers(t', x)
  {
    forall x | Covers(t, x) ensures Covers(t', x) {
      CoversExtents(t, x);
      CoversExtents(t', x);
    }
  }

  lemma InnerLeft(t: Tree, low: int, high: int)
    requires t.Node? && t.left.Node? && t.left.right.Node? && Sound(t, low, high)
    ensures var t' := t.(left := RotateLeft(t.left));
      && Ordered(t'.left, low, t.base) && Sound(t', low, high) && t'.left.Node?
      && (forall x :: Covers(t', x) ==> Covers(t, x))
  {
    var l := t.left;
    assert Ordered(l, low, t.base);
    assert Ordered(l.right, l.base + l.size, t.base);
    assert forall x :: Covers(RotateLeft(l), x) ==> Covers(l, x);
  }

  lemma InnerRight(t: Tree, low: int, high: int)
    requires t.Node? && t.right.Node? && t.right.left.Node? && Sound(t, low, high)
    ensures var t' := t.(right := RotateRight(t.right));
      && Ordered(t'.right, t.base + t.size, high) && Sound(t', low, high) && t'.right.Node?
      && (forall x :: Covers(t', x) ==> Covers(t, x))
  {
    var r := t.right;
    assert Ordered(r, t.base + t.size, high);
    assert Ordered(r.left, t.base + t.size, r.base);
    assert forall x :: Covers(RotateRight(r), x) ==> Covers(r, x);
  }

  lemma SparesTrans(m: Bytes, m1: Bytes, m2: Bytes, t1: Tree, t2: Tree, t: Tree)
    requires Spares(m, m1, t1) && Spares(m1, m2, t2)
    requires forall x :: Covers(t1, x) || Covers(t2, x) ==> Covers(t, x)
    ensures Spares(m, m2, t)
  {
  }

  /** A change confined to an ordered tree's extents spares everything beyond its range. */
  lemma SparesBeyond(m: Bytes, m': Bytes, t: Tree, low: int, high: int, a: int, end: int)
    requires Ordered(t, low, high) && Spares(m, m', t) && (end <= low || high <= a)
    ensures Same(m, m', a, end)
  {
    NotCovered(t, low, high);
  }

  /** Such a change, followed by a write to the parent's node, is confined to the parent. */
  lemma SparesPut(m: Bytes, m': Bytes, child: Tree, t: Tree, a: int, v: nat)
    requires t.Node? && (child == t.left || child == t.right) && Spares(m, m', child)
    requires t.base <= a && a + 8 <= t.base + t.size
    ensures Spares(m, PutWord(m', a, v), t)
  {
  }

  /** The inner rotation of a left-right double rotation. */
  method LiftInnerLeft(arena: Arena, node: nat, left: nat, ghost t: Tree, ghost low: int, ghost high: int)
    requires t.Node? && node == t.base && Sound(t, low, high) && Linked(arena.mem, t)
    requires t.left.Node? && left == t.left.base && t.left.right.Node?
    modifies arena
    ensures Linked(arena.mem, t.(left := RotateLeft(t.left)))
    ensures Spares(old(arena.mem), arena.mem, t)
  {
    hide Word, PutWord, At, Same, Covers, Spares, Linked, Stored, Sound, Ordered, Height, Maximum, Balance;
    Parts(arena.mem, t, low, high);
    InnerLeft(t, low, high);
    var l' := RotateNodeLeft(arena, left, t.left, low, t.base);
    SparesBeyond(old(arena.mem), arena.mem, t.left, low, t.base, t.base, high);
    SparesPut(old(arena.mem), arena.mem, t.left, t, node + LEFT, l');
    RelinkedLeft(old(arena.mem), arena.mem, t, RotateLeft(t.left), low, high);
    PutField(arena, node + LEFT, l');
  }

  /** The inner rotation of a right-left double rotation. */
  method LiftInnerRight(arena: Arena, node: nat, right: nat, ghost t: Tree, ghost low: int, ghost high: int)
    requires t.Node? && node == t.base && Sound(t, low, high) && Linked(arena.mem, t)
    requires t.right.Node? && right == t.right.base && t.right.left.Node?
    modifies arena
    ensures Linked(arena.mem, t.(right := RotateRight(t.right)))
    ensures Spares(old(arena.mem), arena.mem, t)
  {
    hide Word, PutWord, At, Same, Covers, Spares, Linked, Stored, Sound, Ordered, Height, Maximum, Balance;
    Parts(arena.mem, t, low, high);
    InnerRight(t, low, high);
    var r' := RotateNodeRight(arena, right, t.right, t.base + t.size, high);
    SparesBeyond(old(arena.mem), arena.mem, t.right, t.base + t.size, high, low, t.base + t.size);
    SparesPut(old(arena.mem), arena.mem, t.right, t, node + RIGHT, r');
    RelinkedRight(old(arena.mem), arena.mem, t, RotateRight(t.right), low, high);
    PutField(arena, node + RIGHT, r');
  }

  method BalanceLeft(arena: Arena, node: nat, ghost t: Tree, ghost low: int, ghost high: int) returns (r: nat)
    requires t.Node? && node == t.base && Sound(t, low, high) && Linked(arena.mem, t)
    requires Height(t.left) > Height(t.right) + 1
    modifies arena
    ensures r == Root(Balance(t)) && Stored(arena.mem, Balance(t))
    ensures Spares(old(arena.mem), arena.mem, t)
  {
    hide Word, PutWord, At, Same, Covers, Spares, Linked, Stored, Sound, Ordered, Height, Maximum, Balance;
    Parts(arena.mem, t, low, high);
    ghost var l := t.left;
    BalanceCases(t);
    Parts(arena.mem, l, low, t.base);
    var left := Word(arena.mem, node + LEFT);
    var inner, outer := Word(arena.mem, left + RIGHT), Word(arena.mem, left + LEFT);
    if NodeHeight(arena.mem, inner, l.right) > NodeHeight(arena.mem, outer, l.left) {
      ghost var t' := t.(left := RotateLeft(l));
      InnerLeft(t, low, high);
      LiftInnerLeft(arena, node, left, t, low, high);
      ghost var m := arena.mem;
      r := RotateNodeRight(arena, node, t', low, high);
      SparesTrans(old(arena.mem), m, arena.mem, t, t', t);
    } else {
      r := RotateNodeRight(arena, node, t, low, high);
    }
  }

  method BalanceRight(arena: Arena, node: nat, ghost t: Tree, ghost low: int, ghost high: int) returns (r: nat)
    requires t.Node? && node == t.base && Sound(t, low, high) && Linked(arena.mem, t)
    requires Height(t.right) > Height(t.left) + 1
    modifies arena
    ensures r == Root(Balance(t)) && Stored(arena.mem, Balance(t))
    ensures Spares(old(arena.mem), arena.mem, t)
  {
    hide Word, PutWord, At, Same, Covers, Spares, Linked, Stored, Sound, Ordered, Height, Maximum, Balance;
    Parts(arena.mem, t, low, high);
    ghost var q := t.right;
    BalanceCases(t);
    Parts(arena.mem, q, t.base + t.size, high);
    var right := Word(arena.mem, node + RIGHT);
    var inner, outer := Word(arena.mem, right + LEFT), Word(arena.mem, right + RIGHT);
    if NodeHeight(arena.mem, inner, q.left) > NodeHeight(arena.mem, outer, q.right) {
      ghost var t' := t.(right := RotateRight(q));
      InnerRight(t, low, high);
      LiftInnerRight(arena, node, right, t, low, high);
      ghost var m := arena.mem;
      r := RotateNodeLeft(arena, node, t', low, high);
      SparesTrans(old(arena.mem), m, arena.mem, t, t', t);
    } else {
      r := RotateNodeLeft(arena, node, t, low, high);
    }
  }

  /** Restores the balance at one node, its subtrees being balanced already. */
  method BalanceNode(arena: Arena, node: nat, ghost t: Tree, ghost low: int, ghost high: int) returns (r: nat)
    requires t.Node? && node == t.base && Sound(t, low, high) && Linked(arena.mem, t)
    modifies arena
    ensures r == Root(Balance(t)) && Stored(arena.mem, Balance(t))
    ensures Spares(old(arena.mem), arena.mem, t)
  {
    Update(arena, node, t, low, high);
    Parts(arena.mem, t, low, high);
    ghost var m := arena.mem;
    hide PutWord, Word, Covers, Linked, Stored, Sound, Ordered, Height;
    var left, right := Word(arena.mem, node + LEFT), Word(arena.mem, node + RIGHT);
    var lh, rh := NodeHeight(arena.mem, left, t.left), NodeHeight(arena.mem, right, t.right);
    if lh > rh + 1 {
      r := BalanceLeft(arena, node, t, low, high);
    } else if rh > lh + 1 {
      r := BalanceRight(arena, node, t, low, high);
    } else {
      r := node;
    }
  }

  // ---------- Adding and erasing ----------

  /** Only the extents of `t` and the new node's own bytes may change. */
  ghost predicate SparesBoth(m: Bytes, m': Bytes, t: Tree, node: nat, size: nat) {
    forall x :: !Covers(t, x) && !(node <= x < node + size) ==> At(m', x) == At(m, x)
  }

  lemma SparesBothBeyond(m: Bytes, m': Bytes, t: Tree, low: int, high: int, node: nat, size: nat, a: int, end: int)
    requires Ordered(t, low, high) && SparesBoth(m, m', t, node, size) && (end <= low || high <= a)
    requires low <= node && node + size <= high
    ensures Same(m, m', a, end)
  {
    NotCovered(t, low, high);
  }

  lemma SparesBothUp(m: Bytes, m': Bytes, m'': Bytes, child: Tree, t: Tree, t': Tree, node: nat, size: nat, a: int,
                     v: nat)
    requires t.Node? && (child == t.left || child == t.right) && SparesBoth(m, m', child, node, size)
    requires t.base <= a && a + 8 <= t.base + t.size
    requires Extents(t') == Extents(t) + {Extent(node, size)} && Spares(PutWord(m', a, v), m'', t')
    ensures SparesBoth(m, m'', t, node, size)
  {
    forall x | !Covers(t, x) && !(node <= x < node + size) ensures !Covers(t', x) {
      CoversExtents(t, x);
      CoversExtents(t', x);
    }
  }

  lemma AddParts(t: Tree, node: nat, size: nat, low: int, high: int)
    requires t.Node? && Sound(t, low, high)
    requires MIN_EXTENT <= size && low <= node && node + size <= high && Gap(t, node, size)
    ensures node < t.base ==>
      && node + size <= t.base && Gap(t.left, node, size)
      && var t' := t.(left := Add(t.left, node, size));
      && Ordered(t'.left, low, t.base) && Sound(t', low, high) && Add(t, node, size) == Balance(t')
      && Extents(t') == Extents(t) + {Extent(node, size)}
    ensures node >= t.base ==>
      && t.base + t.size <= node && Gap(t.right, node, size)
      && var t' := t.(right := Add(t.right, node, size));
      && Ordered(t'.right, t.base + t.size, high) && Sound(t', low, high) && Add(t, node, size) == Balance(t')
      && Extents(t') == Extents(t) + {Extent(node, size)}
  {
    hide Balance;
    if node < t.base {
      AddOrdered(t.left, node, size, low, t.base);
      AddExtents(t.left, node, size);
    } else {
      AddOrdered(t.right, node, size, t.base + t.size, high);
      AddExtents(t.right, node, size);
    }
  }

  /** Links a freshly written node into the index. */
  method AddNode(arena: Arena, root: nat, node: nat, ghost size: nat, ghost t: Tree, ghost low: int,
                 ghost high: int) returns (r: nat)
    requires Sound(t, low, high) && root == Root(t) && Stored(arena.mem, t)
    requires Stored(arena.mem, Node(Leaf, node, size, Leaf))
    requires MIN_EXTENT <= size && low <= node && node + size <= high && Gap(t, node, size)
    modifies arena
    ensures r == Root(Add(t, node, size)) && Stored(arena.mem, Add(t, node, size))
    ensures SparesBoth(old(arena.mem), arena.mem, t, node, size)
    decreases t
  {
    if root == 0 {
      r := node;
    } else {
      r := AddBelow(arena, root, node, size, t, low, high);
    }
  }

  method AddBelow(arena: Arena, root: nat, node: nat, ghost size: nat, ghost t: Tree, ghost low: int,
                  ghost high: int) returns (r: nat)
    requires t.Node? && Sound(t, low, high) && root == t.base && Linked(arena.mem, t)
    requires Stored(arena.mem, Node(Leaf, node, size, Leaf))
    requires MIN_EXTENT <= size && low <= node && node + size <= high && Gap(t, node, size)
    modifies arena
    ensures r == Root(Add(t, node, size)) && Stored(arena.mem, Add(t, node, size))
    ensures SparesBoth(old(arena.mem), arena.mem, t, node, size)
    decreases t, 0
  {
    hide Word, PutWord, At, Same, Covers, Spares, SparesBoth, Linked, Stored, Sound, Ordered, Gap, Height, Maximum,
         Balance, Extents, Add;
    Parts(arena.mem, t, low, high);
    AddParts(t, node, size, low, high);
    if node < root {
      var l := AddNode(arena, Word(arena.mem, root + LEFT), node, size, t.left, low, t.base);
      ghost var m, t' := arena.mem, t.(left := Add(t.left, node, size));
      SparesBothBeyond(old(arena.mem), m, t.left, low, t.base, node, size, t.base, high);
      RelinkedLeft(old(arena.mem), m, t, t'.left, low, high);
      PutField(arena, root + LEFT, l);
      r := BalanceNode(arena, root, t', low, high);
      SparesBothUp(old(arena.mem), m, arena.mem, t.left, t, t', node, size, root + LEFT, l);
    } else {
      var q := AddNode(arena, Word(arena.mem, root + RIGHT), node, size, t.right, t.base + t.size, high);
      ghost var m, t' := arena.mem, t.(right := Add(t.right, node, size));
      SparesBothBeyond(old(arena.mem), m, t.right, t.base + t.size, high, node, size, low, t.base + t.size);
      RelinkedRight(old(arena.mem), m, t, t'.right, low, high);
      PutField(arena, root + RIGHT, q);
      r := BalanceNode(arena, root, t', low, high);
      SparesBothUp(old(arena.mem), m, arena.mem, t.right, t, t', node, size, root + RIGHT, q);
    }
  }

  lemma SparesUp(m: Bytes, m': Bytes, m'': Bytes, child: Tree, t: Tree, t': Tree, a: int, v: nat)
    requires t.Node? && (child == t.left || child == t.right) && Spares(m, m', child)
    requires t.base <= a && a + 8 <= t.base + t.size
    requires Extents(t') <= Extents(t) && Spares(PutWord(m', a, v), m'', t')
    ensures Spares(m, m'', t)
  {
    CoversMonotone(t', t);
  }

  lemma LeastParts(t: Tree, low: int, high: int)
    requires t.Node? && t.left.Node? && Sound(t, low, high)
    ensures var t' := t.(left := WithoutLeast(t.left));
      && Ordered(t'.left, low, t.base) && Sound(t', low, high) && Extents(t') <= Extents(t)
      && Least(t) == Least(t.left) && WithoutLeast(t) == Balance(t')
      && Ordered(t', Least(t).base + Least(t).size, high)
      && MIN_EXTENT <= Least(t).size && Least(t).base + Least(t).size <= t.base
  {
    hide Balance;
    LeastOrdered(t.left, low, t.base);
    LeastExtents(t.left);
    Widen(WithoutLeast(t.left), Least(t).base + Least(t).size, t.base, low, t.base);
  }

  /** A word lying below a range that is written and rebalanced keeps its value. */
  lemma WordBelow(m: Bytes, m': Bytes, t: Tree, low: int, high: int, a: int, v: nat, b: int)
    requires Ordered(t, low, high) && Spares(PutWord(m, a, v), m', t) && b + 8 <= low && b + 8 <= a
    ensures Word(m', b) == Word(m, b)
  {
    hide Word, Covers, Ordered;
    SparesBeyond(PutWord(m, a, v), m', t, low, high, b, b + 8);
    WordFrame(PutWord(m, a, v), m', b);
  }

  /** Unlinks the lowest node of a subtree. */
  method DetachMin(arena: Arena, root: nat, ghost t: Tree, ghost low: int,
                   ghost high: int) returns (rest: nat, minimum: nat)
    requires t.Node? && Sound(t, low, high) && root == t.base && Linked(arena.mem, t)
    modifies arena
    ensures rest == Root(WithoutLeast(t)) && Stored(arena.mem, WithoutLeast(t))
    ensures minimum == Least(t).base && Word(arena.mem, minimum) == Least(t).size
    ensures Spares(old(arena.mem), arena.mem, t)
    decreases t
  {
    hide Word, PutWord, At, Same, Covers, Spares, Stored, Sound, Ordered, Height, Maximum, Balance, Extents;
    Parts(arena.mem, t, low, high);
    var left := Word(arena.mem, root + LEFT);
    if left == 0 {
      SparesNothing(arena.mem, t);
      return Word(arena.mem, root + RIGHT), root;
    }
    LeastParts(t, low, high);
    var left';
    left', minimum := DetachMin(arena, left, t.left, low, t.base);
    ghost var m, t' := arena.mem, t.(left := WithoutLeast(t.left));
    SparesBeyond(old(arena.mem), m, t.left, low, t.base, t.base, high);
    RelinkedLeft(old(arena.mem), m, t, t'.left, low, high);
    PutField(arena, root + LEFT, left');
    rest := BalanceNode(arena, root, t', low, high);
    SparesUp(old(arena.mem), m, arena.mem, t.left, t, t', root + LEFT, left');
    WordBelow(m, arena.mem, t', Least(t).base + Least(t).size, high, root + LEFT, left', minimum);
  }

  lemma SparesNothing(m: Bytes, t: Tree)
    ensures Spares(m, m, t)
  {
  }

  /** The tree in which the successor has taken the erased root's place. */
  function Promoted(t: Tree): Tree
    requires t.Node? && t.right.Node?
  {
    Node(t.left, Least(t.right).base, Least(t.right).size, WithoutLeast(t.right))
  }

  lemma PromotedParts(t: Tree, low: int, high: int)
    requires t.Node? && t.left.Node? && t.right.Node? && Sound(t, low, high)
    ensures Sound(Promoted(t), low, high) && Extents(Promoted(t)) <= Extents(t)
    ensures Erase(t, t.base) == Balance(Promoted(t))
    ensures t.base + t.size <= Least(t.right).base && MIN_EXTENT <= Least(t.right).size
    ensures Ordered(WithoutLeast(t.right), Least(t.right).base + Least(t.right).size, high)
    ensures forall x :: Least(t.right).base <= x < Least(t.right).base + Least(t.right).size ==> Covers(t.right, x)
    ensures Least(t.right).base + Least(t.right).size <= high
  {
    hide Balance;
    LeastOrdered(t.right, t.base + t.size, high);
    LeastExtents(t.right);
    Widen(t.left, low, t.base, low, Least(t.right).base);
    forall x | Least(t.right).base <= x < Least(t.right).base + Least(t.right).size ensures Covers(t.right, x) {
      CoversExtents(t.right, x);
    }
  }

  lemma LeftKept(m: Bytes, m': Bytes, t: Tree, low: int, high: int)
    requires t.Node? && Sound(t, low, high) && Linked(m, t) && Spares(m, m', t.right)
    ensures Stored(m', t.left)
  {
    hide Word, At, Same, Covers, Spares, Stored, Height, Maximum, Extents;
    Parts(m, t, low, high);
    SparesBeyond(m, m', t.right, t.base + t.size, high, low, t.base);
    StoredSame(m, m', t.left, low, t.base);
  }

  lemma PromotedLinked(m: Bytes, m': Bytes, t: Tree, low: int, high: int)
    requires t.Node? && t.left.Node? && t.right.Node? && Sound(t, low, high) && Linked(m, t)
    requires Spares(m, m', t.right) && Stored(m', WithoutLeast(t.right))
    requires Word(m', Least(t.right).base) == Least(t.right).size
    ensures var p := Promoted(t);
      Linked(PutWord(PutWord(m', p.base + LEFT, Root(t.left)), p.base + RIGHT, Root(p.right)), p)
  {
    hide Word, PutWord, At, Same, Covers, Spares, Stored, Height, Maximum, Balance, Extents, Least, WithoutLeast;
    var p := Promoted(t);
    Parts(m, t, low, high);
    PromotedParts(t, low, high);
    assert Root(t.left) < WORD_LIMIT && Root(p.right) < WORD_LIMIT;
    LeftKept(m, m', t, low, high);
    StoredPutTwice(m', p.base + LEFT, Root(t.left), p.base + RIGHT, Root(p.right), t.left, low, t.base);
    StoredPutTwice(m', p.base + LEFT, Root(t.left), p.base + RIGHT, Root(p.right), p.right, p.base + p.size, high);
  }

  lemma StoredSame(m: Bytes, m': Bytes, t: Tree, low: int, high: int)
    requires Ordered(t, low, high) && Stored(m, t) && Same(m, m', low, high)
    ensures Stored(m', t)
  {
    NotCovered(t, low, high);
    StoredFrame(m, m', t, low, high);
  }

  lemma PromotedSpares(m: Bytes, m': Bytes, m'': Bytes, t: Tree, v: nat, w: nat)
    requires t.Node? && t.right.Node? && Spares(m, m', t.right) && MIN_EXTENT <= Least(t.right).size
    requires Extents(Promoted(t)) <= Extents(t)
    requires forall x :: Least(t.right).base <= x < Least(t.right).base + Least(t.right).size ==> Covers(t.right, x)
    requires Spares(PutWord(PutWord(m', Promoted(t).base + LEFT, v), Promoted(t).base + RIGHT, w), m'', Promoted(t))
    ensures Spares(m, m'', t)
  {
    hide Extents, Word, PutWord, At;
    CoversMonotone(Promoted(t), t);
  }

  method ReplaceRoot(arena: Arena, root: nat, ghost t: Tree, ghost low: int, ghost high: int) returns (r: nat)
    requires t.Node? && t.left.Node? && t.right.Node? && Sound(t, low, high) && root == t.base && Linked(arena.mem, t)
    modifies arena
    ensures r == Root(Erase(t, t.base)) && Stored(arena.mem, Erase(t, t.base))
    ensures Spares(old(arena.mem), arena.mem, t)
  {
    hide Word, PutWord, At, Same, Covers, Spares, Linked, Stored, Sound, Ordered, Height, Maximum, Balance, Extents,
         Erase, Least, WithoutLeast;
    Parts(arena.mem, t, low, high);
    PromotedParts(t, low, high);
    var left := Word(arena.mem, root + LEFT);
    var rest, successor := DetachMin(arena, Word(arena.mem, root + RIGHT), t.right, t.base + t.size, high);
    ghost var m := arena.mem;
    PromotedLinked(old(arena.mem), m, t, low, high);
    PutField(arena, successor + LEFT, left);
    PutField(arena, successor + RIGHT, rest);
    r := BalanceNode(arena, successor, Promoted(t), low, high);
    PromotedSpares(old(arena.mem), m, arena.mem, t, left, rest);
  }

  lemma EraseParts(t: Tree, base: nat, low: int, high: int)
    requires t.Node? && Sound(t, low, high)
    ensures base < t.base ==> var t' := t.(left := Erase(t.left, base));
      && Ordered(t'.left, low, t.base) && Sound(t', low, high) && Erase(t, base) == Balance(t')
      && Extents(t') <= Extents(t)
    ensures base > t.base ==> var t' := t.(right := Erase(t.right, base));
      && Ordered(t'.right, t.base + t.size, high) && Sound(t', low, high) && Erase(t, base) == Balance(t')
      && Extents(t') <= Extents(t)
    ensures base == t.base ==> (t.left.Leaf? ==> Erase(t, base) == t.right)
    ensures base == t.base && t.left.Node? && t.right.Leaf? ==> Erase(t, base) == t.left
  {
    hide Balance;
    if base < t.base {
      EraseOrdered(t.left, base, low, t.base);
      EraseExtents(t.left, base, low, t.base);
    } else if base > t.base {
      EraseOrdered(t.right, base, t.base + t.size, high);
      EraseExtents(t.right, base, t.base + t.size, high);
    }
  }

  /** Unlinks the node at `base`, if the index has one. */
  method EraseNode(arena: Arena, root: nat, base: nat, ghost t: Tree, ghost low: int, ghost high: int) returns (r: nat)
    requires Sound(t, low, high) && root == Root(t) && Stored(arena.mem, t)
    modifies arena
    ensures r == Root(Erase(t, base)) && Stored(arena.mem, Erase(t, base))
    ensures Spares(old(arena.mem), arena.mem, t)
    decreases t
  {
    if root == 0 {
      return root;
    }
    r := EraseBelow(arena, root, base, t, low, high);
  }

  method EraseBelow(arena: Arena, root: nat, base: nat, ghost t: Tree, ghost low: int, ghost high: int) returns (r: nat)
    requires t.Node? && Sound(t, low, high) && root == t.base && Linked(arena.mem, t)
    modifies arena
    ensures r == Root(Erase(t, base)) && Stored(arena.mem, Erase(t, base))
    ensures Spares(old(arena.mem), arena.mem, t)
    decreases t, 0
  {
    hide Word, PutWord, At, Same, Covers, Spares, Linked, Stored, Sound, Ordered, Height, Maximum, Balance, Extents,
         Erase;
    Parts(arena.mem, t, low, high);
    EraseParts(t, base, low, high);
    var left, right := Word(arena.mem, root + LEFT), Word(arena.mem, root + RIGHT);
    if base < root {
      var l := EraseNode(arena, left, base, t.left, low, t.base);
      ghost var m, t' := arena.mem, t.(left := Erase(t.left, base));
      SparesBeyond(old(arena.mem), m, t.left, low, t.base, t.base, high);
      RelinkedLeft(old(arena.mem), m, t, t'.left, low, high);
      PutField(arena, root + LEFT, l);
      r := BalanceNode(arena, root, t', low, high);
      SparesUp(old(arena.mem), m, arena.mem, t.left, t, t', root + LEFT, l);
    } else if base > root {
      var q := EraseNode(arena, right, base, t.right, t.base + t.size, high);
      ghost var m, t' := arena.mem, t.(right := Erase(t.right, base));
      SparesBeyond(old(arena.mem), m, t.right, t.base + t.size, high, low, t.base + t.size);
      RelinkedRight(old(arena.mem), m, t, t'.right, low, high);
      PutField(arena, root + RIGHT, q);
      r := BalanceNode(arena, root, t', low, high);
      SparesUp(old(arena.mem), m, arena.mem, t.right, t, t', root + RIGHT, q);
    } else if left == 0 {
      SparesNothing(arena.mem, t);
      r := right;
    } else if right == 0 {
      SparesNothing(arena.mem, t);
      r := left;
    } else {
      r := ReplaceRoot(arena, root, t, low, high);
    }
  }
}
