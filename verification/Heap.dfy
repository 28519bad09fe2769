/** The heap: live blocks tagged by a header, free extents held by the index, and the
    rule that together they always partition the granted bytes. */
module HeapAllocator {
  import opened Octets
  import opened Memory
  import opened ExtentTree
  import opened ExtentSets
  import opened FreeIndex
  import opened FreeOps
  import opened Layouts

  const LOW := 1
  const HIGH: int := WORD_LIMIT - 1
  const MAX_ISIZE: int := 0x7fff_ffff_ffff_ffff

  /** A live allocation: the extent it owns and the layout its owner asked for. */
  datatype Block = Block(base: nat, used: nat, layout: Layout)

  ghost predicate InBlock(b: Block, x: int) {
    b.base <= x < b.base + b.used
  }

  ghost predicate InLive(live: map<nat, Block>, x: int) {
    exists u :: u in live && InBlock(live[u], x)
  }

  /** The block's extent holds its header just below the user address, and all the user asked for. */
  ghost predicate BlockOk(m: Bytes, user: nat, b: Block) {
    && 0 < b.base && b.base + b.used <= HIGH && MIN_EXTENT <= b.used
    && Granular(b.base) && Granular(b.used)
    && AlignedTo(user, b.layout.align) && Granular(user)
    && b.base + 16 <= user && user + Max(b.layout.size, 1) <= b.base + b.used
    && Word(m, user - 16) == b.base && Word(m, user - 8) == b.used
  }

  ghost predicate Separate(live: map<nat, Block>) {
    forall u, v :: u in live && v in live && u != v ==>
      live[u].base + live[u].used <= live[v].base || live[v].base + live[v].used <= live[u].base
  }

  ghost predicate BlocksOk(m: Bytes, live: map<nat, Block>) {
    && (forall u :: u in live ==> BlockOk(m, u, live[u]))
    && Separate(live)
  }

  /** Free extents and live blocks exactly partition the granted bytes. */
  ghost predicate Partition(s: set<Extent>, live: map<nat, Block>, granted: set<Extent>) {
    && (forall x :: Within(granted, x) <==> Within(s, x) || InLive(live, x))
    && (forall x :: !(Within(s, x) && InLive(live, x)))
  }

  /** Every byte of a live block, header and payload, is as before. */
  ghost predicate LiveUntouched(m: Bytes, m': Bytes, live: map<nat, Block>) {
    forall x :: InLive(live, x) ==> At(m', x) == At(m, x)
  }

  // ---------- Ownership lemmas ----------

  /** Blocks depend on memory only through their headers. */
  lemma HeadersFrame(m: Bytes, m': Bytes, live: map<nat, Block>)
    requires BlocksOk(m, live)
    requires forall u :: u in live ==> Same(m, m', u - 16, u)
    ensures BlocksOk(m', live)
  {
    hide Word, At;
    forall u | u in live ensures BlockOk(m', u, live[u]) {
      assert Same(m, m', u - 16, u);
      WordFrame(m, m', u - 16);
      WordFrame(m, m', u - 8);
    }
  }

  lemma BlocksFrame(m: Bytes, m': Bytes, live: map<nat, Block>)
    requires BlocksOk(m, live) && LiveUntouched(m, m', live)
    ensures BlocksOk(m', live)
  {
    hide Word, At;
    forall u | u in live ensures Same(m, m', u - 16, u) {
      assert BlockOk(m, u, live[u]);
      assert forall x :: u - 16 <= x < u ==> InBlock(live[u], x);
    }
    HeadersFrame(m, m', live);
  }

  lemma DropBlock(m: Bytes, live: map<nat, Block>, user: nat)
    requires BlocksOk(m, live) && user in live
    ensures BlocksOk(m, live - {user})
    ensures forall x :: InLive(live - {user}, x) <==> InLive(live, x) && !InBlock(live[user], x)
  {
    hide BlockOk;
    var rest := live - {user};
    forall x ensures InLive(rest, x) <==> InLive(live, x) && !InBlock(live[user], x) {
      if InLive(live, x) && !InBlock(live[user], x) {
        var u :| u in live && InBlock(live[u], x);
        assert u in rest;
      }
      if InLive(rest, x) {
        var u :| u in rest && InBlock(rest[u], x);
        assert u in live && u != user;
      }
    }
  }

  lemma BlocksApart(b: Block, c: Block)
    requires forall x :: InBlock(b, x) ==> !InBlock(c, x)
    requires 0 < b.used && 0 < c.used
    ensures b.base + b.used <= c.base || c.base + c.used <= b.base
  {
    var x := if c.base <= b.base then b.base else c.base;
    assert InBlock(b, x) ==> !InBlock(c, x);
  }

  lemma AddBlock(m: Bytes, live: map<nat, Block>, user: nat, b: Block)
    requires BlocksOk(m, live) && user !in live && BlockOk(m, user, b)
    requires forall x :: InBlock(b, x) ==> !InLive(live, x)
    ensures BlocksOk(m, live[user := b])
    ensures forall x :: InLive(live[user := b], x) <==> InLive(live, x) || InBlock(b, x)
  {
    var live' := live[user := b];
    forall u | u in live ensures live[u].base + live[u].used <= b.base || b.base + b.used <= live[u].base {
      assert BlockOk(m, u, live[u]);
      BlocksApart(b, live[u]);
    }
    AddBlockHolds(live, user, b);
  }

  lemma AddBlockHolds(live: map<nat, Block>, user: nat, b: Block)
    requires user !in live
    ensures forall x :: InLive(live[user := b], x) <==> InLive(live, x) || InBlock(b, x)
  {
    var live' := live[user := b];
    forall x ensures InLive(live', x) <==> InLive(live, x) || InBlock(b, x) {
      if InLive(live, x) {
        var u :| u in live && InBlock(live[u], x);
        assert u in live' && live'[u] == live[u];
      }
      if InBlock(b, x) {
        assert user in live';
      }
    }
  }

  /** A user address inside a fresh block is no live block's address. */
  lemma FreshUser(m: Bytes, live: map<nat, Block>, user: nat)
    requires BlocksOk(m, live) && user in live
    ensures InLive(live, user)
  {
    hide Word;
    assert InBlock(live[user], user);
  }

  lemma ApartHolds(s: set<Extent>, e: Extent)
    requires Apart(s) && e in s
    ensures forall x :: Within(s - {e}, x) <==> Within(s, x) && !Holds(e, x)
  {
    forall x ensures Within(s - {e}, x) <==> Within(s, x) && !Holds(e, x) {
      if Within(s, x) && !Holds(e, x) {
        var f :| f in s && Holds(f, x);
        assert f in s - {e};
      }
    }
  }

  // ---------- The heap ----------

  class Heap {
    const arena: Arena
    var head: nat
    ghost var tree: Tree
    ghost var live: map<nat, Block>
    ghost var granted: set<Extent>

    /** The index is sound, every block is intact, and the granted bytes are partitioned. */
    ghost predicate Valid()
      reads this, arena
    {
      && Index(arena.mem, tree, LOW, HIGH) && head == Root(tree)
      && BlocksOk(arena.mem, live)
      && Partition(Extents(tree), live, granted)
    }

    constructor (arena: Arena)
      ensures this.arena == arena && Valid() && live == map[] && granted == {}
    {
      this.arena := arena;
      head, tree, live, granted := 0, Leaf, map[], {};
    }

    /** Starts the heap afresh on one granted region. */
    method Init(base: nat, size: nat)
      requires 0 < base && Granular(base) && MIN_EXTENT <= size && Granular(size) && base + size <= HIGH
      modifies this, arena
      ensures Valid() && live == map[] && granted == {Extent(base, size)}
    {
      head, tree, live, granted := 0, Leaf, map[], {Extent(base, size)};
      head, tree := Insert(arena, head, base, size, tree, LOW, HIGH);
    }

    /** Takes ownership of a further region that the heap does not own yet. */
    method AddRegion(base: nat, size: nat)
      requires Valid()
      requires 0 < base && Granular(base) && MIN_EXTENT <= size && Granular(size) && base + size <= HIGH
      requires forall x :: base <= x < base + size ==> !Within(granted, x)
      modifies this, arena
      ensures Valid() && live == old(live) && granted == old(granted) + {Extent(base, size)}
      ensures LiveUntouched(old(arena.mem), arena.mem, live)
    {
      hide Index, BlocksOk, At, Within, Extents, Partition, LiveUntouched, InLive;
      RegionIsGap(arena.mem, tree, live, granted, base, size);
      ghost var s := Extents(tree);
      head, tree := Insert(arena, head, base, size, tree, LOW, HIGH);
      ConfinedLive(old(arena.mem), arena.mem, s, live, base, size);
      BlocksFrame(old(arena.mem), arena.mem, live);
      PartitionGrows(s, Extents(tree), live, granted, base, size);
      granted := granted + {Extent(base, size)};
    }

    /** Takes the extent at `base` out of the index, giving back its tail when that can stand alone. */
    method Carve(base: nat, size: nat, kept: nat) returns (consumed: nat)
      requires Index(arena.mem, tree, LOW, HIGH) && head == Root(tree)
      requires Extent(base, size) in Extents(tree) && 0 < kept <= size && Granular(kept)
      modifies this`head, this`tree, arena
      ensures Index(arena.mem, tree, LOW, HIGH) && head == Root(tree)
      ensures consumed == Kept(size, kept)
      ensures forall x :: Within(Extents(tree), x) <==> Within(old(Extents(tree)), x) && !(base <= x < base + consumed)
      ensures forall x :: !Within(old(Extents(tree)), x) ==> At(arena.mem, x) == At(old(arena.mem), x)
    {
      hide Granular, AlignedTo, At, Within, Extents, Stored, Sound, Balanced, Apart, Aligned, Erase;
      ghost var s, e := Extents(tree), Extent(base, size);
      ExtentFacts(arena.mem, tree, e);
      head := Absorb(arena, head, base, tree, LOW, HIGH);
      tree := Erase(tree, base);
      ErasedIndex(s, Extents(tree), e);
      if size - kept >= MIN_EXTENT {
        ghost var m := arena.mem;
        TailIsGap(Extents(tree), s, e, kept);
        GranularSum(base, kept);
        GranularSum(size, kept);
        head, tree := Insert(arena, head, base + kept, size - kept, tree, LOW, HIGH);
        CarveConfined(old(arena.mem), m, arena.mem, s, e, kept);
        consumed := kept;
      } else {
        consumed := size;
      }
    }

    /** First-fit allocation: fails exactly when no free extent can hold the layout, otherwise
        takes the lowest one that can. Only bytes that were free change. */
    method Alloc(layout: Layout) returns (user: nat)
      requires Valid() && 0 < layout.align && PowerOfTwo(layout.align)
      modifies this, arena
      ensures Valid() && granted == old(granted)
      ensures user == 0 <==> forall e :: e in old(Extents(tree)) ==> !CanHold(e, layout)
      ensures user == 0 ==> live == old(live) && tree == old(tree) && arena.mem == old(arena.mem)
      ensures user != 0 ==>
        && user !in old(live) && user in live && live == old(live)[user := live[user]]
        && live[user].layout == layout
        && IsLowest(user, live[user].base, layout) && TakenFrom(old(Extents(tree)), live[user], user)
        && (forall e :: e in old(Extents(tree)) && e.base < live[user].base ==> !CanHold(e, layout))
      ensures LiveUntouched(old(arena.mem), arena.mem, old(live))
    {
      hide Granular, AlignedTo, At, Within, Extents, Stored, Sound, Balanced, Apart, Aligned, Index, BlocksOk,
           Partition, InLive, CanHold, IsLowest, IsShortest, Placement, Word, PutWord, PowerOfTwo, LiveUntouched;
      var node := FitNode(layout);
      if node == 0 {
        LiveSame(arena.mem, live);
        return 0;
      }
      ghost var s, e := Extents(tree), Extent(node, Word(arena.mem, node));
      FitFacts(arena.mem, tree, e, layout);
      var place := Placement(node, layout).value;
      var used := Carve(node, Word(arena.mem, node), place.used);
      user := place.user;
      ghost var m := arena.mem;
      PutField(arena, user - 16, node);
      PutField(arena, user - 8, used);
      ghost var b := Block(node, used, layout);
      HeaderInside(m, arena.mem, user, b, node);
      AllocOwned(old(arena.mem), m, arena.mem, s, tree, e, live, granted, user, b);
      live := live[user := b];
      TakenIs(s, e, b, user, place.used);
    }

    /** Returns a block to the index, where it coalesces with its neighbours. */
    method Dealloc(user: nat)
      requires Valid() && (user == 0 || user in live)
      modifies this, arena
      ensures Valid() && granted == old(granted) && live == old(live) - {user}
      ensures user == 0 ==> tree == old(tree) && arena.mem == old(arena.mem)
      ensures user != 0 ==>
        forall x :: Within(Extents(tree), x) <==> Within(old(Extents(tree)), x) || InBlock(old(live)[user], x)
      ensures LiveUntouched(old(arena.mem), arena.mem, live)
    {
      hide Granular, AlignedTo, At, Within, Extents, Stored, Sound, Balanced, Apart, Aligned, Index, BlocksOk,
           Partition, InLive, Word, LiveUntouched;
      if user == 0 {
        NullIsNotLive(arena.mem, live);
        LiveSame(arena.mem, live);
        return;
      }
      ghost var s, b := Extents(tree), live[user];
      LiveFacts(arena.mem, tree, live, granted, user);
      DropBlock(arena.mem, live, user);
      var base, size := Word(arena.mem, user - 16), Word(arena.mem, user - 8);
      head, tree := Insert(arena, head, base, size, tree, LOW, HIGH);
      live := live - {user};
      FreedOwned(old(arena.mem), arena.mem, s, Extents(tree), old(live), granted, user);
    }

    /** Resizes without moving. Succeeds exactly when the new end stays inside the block or the
        free extent that starts where the block ends is long enough; a refusal changes nothing. */
    method ResizeInPlace(user: nat, size: nat) returns (ok: bool)
      requires Valid() && user in live
      modifies this, arena
      ensures Valid() && granted == old(granted)
      ensures ok <==> StaysPut(old(Extents(tree)), old(live)[user], user, size)
      ensures !ok ==> live == old(live) && tree == old(tree) && arena.mem == old(arena.mem)
      ensures ok ==>
        && user in live && live == old(live)[user := live[user]]
        && live[user].base == old(live)[user].base && live[user].layout == Layout(size, old(live)[user].layout.align)
        && Resized(old(Extents(tree)), old(live)[user], user, size, live[user].used)
      ensures LiveUntouched(old(arena.mem), arena.mem, old(live) - {user})
      ensures ok ==> forall x :: user <= x && InBlock(old(live)[user], x) && InBlock(live[user], x) ==>
        At(arena.mem, x) == At(old(arena.mem), x)
    {
      hide Granular, AlignedTo, At, Within, Extents, Stored, Sound, Balanced, Apart, Aligned, Index, BlocksOk,
           Partition, InLive, Word, LiveUntouched, PutWord, StaysPut, IsShortest, NewEnd;
      LiveSame(arena.mem, live - {user});
      ghost var b := live[user];
      LiveFacts(arena.mem, tree, live, granted, user);
      ResizeFacts(arena.mem, tree, b, user, size);
      if user + Max(size, 1) + 15 >= WORD_LIMIT {
        return false;
      }
      var base, used := Word(arena.mem, user - 16), Word(arena.mem, user - 8);
      var end, newEnd := base + used, NewEnd(user, base, size);
      if newEnd <= end {
        if end - newEnd >= MIN_EXTENT {
          Shrink(user, base, end, newEnd, size);
        } else {
          live := live[user := b.(layout := Layout(size, b.layout.align))];
          RelabelOwned(arena.mem, tree, old(live), granted, user, live[user]);
        }
        return true;
      }
      ok := Grow(user, base, end, newEnd, size);
    }

    method Shrink(user: nat, base: nat, end: nat, newEnd: nat, ghost size: nat)
      requires Valid() && user in live && base == live[user].base && end == base + live[user].used
      requires base + MIN_EXTENT <= newEnd && newEnd + MIN_EXTENT <= end && user + Max(size, 1) <= newEnd
      requires Granular(newEnd)
      modifies this, arena
      ensures Valid() && granted == old(granted)
      ensures live == old(live)[user := Block(base, newEnd - base, Layout(size, old(live)[user].layout.align))]
      ensures LiveUntouched(old(arena.mem), arena.mem, old(live) - {user})
      ensures forall x :: user <= x < newEnd ==> At(arena.mem, x) == At(old(arena.mem), x)
    {
      hide Granular, AlignedTo, At, Within, Extents, Stored, Sound, Balanced, Apart, Aligned, Index, BlocksOk,
           Partition, InLive, Word, LiveUntouched, PutWord;
      ghost var s, b := Extents(tree), live[user];
      ghost var b' := Block(base, newEnd - base, Layout(size, b.layout.align));
      LiveFacts(arena.mem, tree, live, granted, user);
      GranularSum(newEnd, base);
      GranularSum(base, b.used);
      GranularSum(end, newEnd);
      PutField(arena, user - 8, newEnd - base);
      ghost var m := arena.mem;
      HeaderWritten(old(arena.mem), m, user, newEnd - base);
      IndexHeader(old(arena.mem), m, tree, b, user);
      head, tree := Insert(arena, head, newEnd, end - newEnd, tree, LOW, HIGH);
      ShrinkDone(old(arena.mem), m, arena.mem, s, Extents(tree), live, granted, user, b');
      live := live[user := b'];
    }

    method Grow(user: nat, base: nat, end: nat, newEnd: nat, ghost size: nat) returns (ok: bool)
      requires Valid() && user in live && base == live[user].base && end == base + live[user].used
      requires end < newEnd && user + Max(size, 1) <= newEnd && Granular(newEnd)
      modifies this, arena
      ensures Valid() && granted == old(granted)
      ensures ok <==> CanResize(old(Extents(tree)), old(live)[user], newEnd)
      ensures !ok ==> live == old(live) && tree == old(tree) && arena.mem == old(arena.mem)
      ensures ok ==>
        && user in live && live == old(live)[user := live[user]]
        && live[user].base == base && live[user].layout == Layout(size, old(live)[user].layout.align)
        && Regains(old(Extents(tree)), old(live)[user], newEnd - base, live[user].used)
      ensures LiveUntouched(old(arena.mem), arena.mem, old(live) - {user})
      ensures forall x :: user <= x < end ==> At(arena.mem, x) == At(old(arena.mem), x)
    {
      hide Granular, AlignedTo, At, Within, Extents, Stored, Sound, Balanced, Apart, Aligned, Index, BlocksOk,
           Partition, InLive, Word, LiveUntouched, PutWord, BlockOk;
      ghost var s, b := Extents(tree), live[user];
      LiveFacts(arena.mem, tree, live, granted, user);
      BlockBounds(arena.mem, user, b);
      LiveSame(arena.mem, live - {user});
      var node := NodeAt(end);
      if node == 0 || Word(arena.mem, node) < newEnd - end {
        NoTwin(arena.mem, tree, end);
        return false;
      }
      ghost var room := Word(arena.mem, node);
      GrowInto(user, base, end, newEnd, size, Word(arena.mem, node));
      assert Extent(end, room) in s;
      ok := true;
    }

    /** Extends a block over the free extent that follows it. */
    method GrowInto(user: nat, base: nat, end: nat, newEnd: nat, ghost size: nat, room: nat)
      requires Valid() && user in live && base == live[user].base && end == base + live[user].used
      requires end < newEnd && user + Max(size, 1) <= newEnd && Granular(newEnd)
      requires Extent(end, room) in Extents(tree) && newEnd - end <= room
      modifies this, arena
      ensures Valid() && granted == old(granted) && user in live && live == old(live)[user := live[user]]
      ensures live[user].base == base && live[user].layout == Layout(size, old(live)[user].layout.align)
      ensures live[user].used == old(live)[user].used + Kept(room, newEnd - end)
      ensures LiveUntouched(old(arena.mem), arena.mem, old(live) - {user})
      ensures forall x :: user <= x < end ==> At(arena.mem, x) == At(old(arena.mem), x)
    {
      hide Granular, AlignedTo, At, Within, Extents, Stored, Sound, Balanced, Apart, Aligned, Index, BlocksOk,
           Partition, InLive, Word, LiveUntouched, PutWord, BlockOk;
      ghost var s, b, e := Extents(tree), live[user], Extent(end, room);
      LiveFacts(arena.mem, tree, live, granted, user);
      BlockBounds(arena.mem, user, b);
      ExtentFacts(arena.mem, tree, e);
      GranularSum(newEnd, end);
      var consumed := Carve(end, room, newEnd - end);
      GranularSum(b.used, consumed);
      ghost var m := arena.mem;
      var used := Word(arena.mem, user - 8);
      HeaderKept(old(arena.mem), m, s, b, user);
      PutField(arena, user - 8, used + consumed);
      HeaderWritten(m, arena.mem, user, used + consumed);
      ghost var b' := Block(base, used + consumed, Layout(size, b.layout.align));
      GrowDone(old(arena.mem), m, arena.mem, s, tree, e, live, granted, user, b');
      live := live[user := b'];
    }

    /** Resizes, moving only if the block cannot stay. It fails exactly when the layout is too
        large, or the block cannot stay and nothing fits; a failure leaves the block, its bytes and
        the index alone, and a success keeps the alignment and the first min(old, new) bytes. */
    method Realloc(user: nat, layout: Layout, size: nat) returns (next: nat)
      requires Valid() && user in live && live[user].layout == layout && 0 < layout.align && PowerOfTwo(layout.align)
      modifies this, arena
      ensures Valid() && granted == old(granted)
      ensures next == user <==>
        size + (layout.align - 1) <= MAX_ISIZE && StaysPut(old(Extents(tree)), old(live)[user], user, size)
      ensures next == 0 <==>
        || size + (layout.align - 1) > MAX_ISIZE
        || (!StaysPut(old(Extents(tree)), old(live)[user], user, size) && forall e :: e in old(Extents(tree)) ==>
              !CanHold(e, Layout(size, layout.align)))
      ensures next == 0 ==> live == old(live) && tree == old(tree) && arena.mem == old(arena.mem)
      ensures next != 0 ==>
        && next in live && live == (old(live) - {user})[next := live[next]]
        && live[next].layout == Layout(size, layout.align)
        && Copied(old(arena.mem), user, arena.mem, next, Min(layout.size, size))
      ensures next == user ==>
        && live[user].base == old(live)[user].base
        && Resized(old(Extents(tree)), old(live)[user], user, size, live[user].used)
      ensures next != 0 && next != user ==>
        && IsLowest(next, live[next].base, live[next].layout) && TakenFrom(old(Extents(tree)), live[next], next)
        && (forall e :: e in old(Extents(tree)) && e.base < live[next].base ==> !CanHold(e, live[next].layout))
      ensures LiveUntouched(old(arena.mem), arena.mem, old(live) - {user})
    {
      hide Granular, AlignedTo, At, Within, Extents, Stored, Sound, Balanced, Apart, Aligned, Index, BlocksOk,
           Partition, InLive, Word, LiveUntouched, PutWord, PowerOfTwo, CanHold, IsLowest, StaysPut, Resized, TakenFrom;
      LiveSame(arena.mem, live - {user});
      LiveFacts(arena.mem, tree, live, granted, user);
      if size + (layout.align - 1) > MAX_ISIZE {
        return 0;
      }
      var ok := ResizeInPlace(user, size);
      if ok {
        PrefixKept(old(arena.mem), arena.mem, old(live), live, user, layout, size);
        return user;
      }
      next := Alloc(Layout(size, layout.align));
      if next != 0 {
        CopyThenFree(user, next, Min(layout.size, size), old(arena.mem), old(live));
      }
    }

    /** The tail of a moving resize: copy the payload, then free the source. */
    method CopyThenFree(user: nat, next: nat, count: nat, ghost before: Bytes, ghost was: map<nat, Block>)
      requires Valid() && user in live && next in live && user != next
      requires count <= live[user].layout.size && count <= live[next].layout.size
      requires live == was[next := live[next]] && next !in was && user in was && LiveUntouched(before, arena.mem, was)
      modifies this, arena
      ensures Valid() && granted == old(granted) && live == old(live) - {user}
      ensures Copied(before, user, arena.mem, next, count)
      ensures LiveUntouched(before, arena.mem, was - {user})
    {
      hide Granular, AlignedTo, At, Within, Extents, Stored, Sound, Balanced, Apart, Aligned, Index, BlocksOk,
           Partition, InLive, Word, LiveUntouched, BlockOk;
      LiveFacts(arena.mem, tree, live, granted, user);
      LiveFacts(arena.mem, tree, live, granted, next);
      BlockBounds(arena.mem, user, live[user]);
      BlockBounds(arena.mem, next, live[next]);
      PayloadsApart(arena.mem, live, user, next);
      CopyBytes(arena, user, next, count);
      ghost var m := arena.mem;
      CopyOwned(old(arena.mem), m, tree, live, next, count);
      CopyClear(old(arena.mem), live, was, user, next, count);
      Dealloc(user);
      MoveDone(before, old(arena.mem), m, arena.mem, was, live, user, next, count);
    }

    method NodeAt(base: nat) returns (r: nat)
      requires Index(arena.mem, tree, LOW, HIGH) && head == Root(tree)
      ensures r == 0 ==> forall e :: e in Extents(tree) ==> e.base != base
      ensures r != 0 ==> r == base && Extent(base, Word(arena.mem, base)) in Extents(tree)
    {
      r := AtNode(arena, head, base, tree, LOW, HIGH);
    }

    method FitNode(layout: Layout) returns (r: nat)
      requires Index(arena.mem, tree, LOW, HIGH) && head == Root(tree) && 0 < layout.align && PowerOfTwo(layout.align)
      ensures r == 0 <==> forall e :: e in Extents(tree) ==> !CanHold(e, layout)
      ensures r != 0 ==>
        && Extent(r, Word(arena.mem, r)) in Extents(tree) && CanHold(Extent(r, Word(arena.mem, r)), layout)
        && forall e :: e in Extents(tree) && e.base < r ==> !CanHold(e, layout)
    {
      r := FindFit(arena, head, layout, tree, LOW, HIGH);
    }
  }

  /** The end a block must reach to hold `size` bytes at `user`. */
  function NewEnd(user: nat, base: nat, size: nat): nat {
    Max(AlignDown(user + Max(size, 1) + 15, 16), base + MIN_EXTENT)
  }

  /** How much of an extent is used when `wanted` of it is: all of it, unless the rest can stand alone. */
  function Kept(size: nat, wanted: nat): nat {
    if size >= wanted + MIN_EXTENT then wanted else size
  }

  /** Of `size` bytes `wanted` are needed and `used` are taken: no more than needed, unless what is left
      could not be a free extent; then all. */
  predicate Consumes(size: nat, wanted: nat, used: nat) {
    wanted <= size && (wanted + MIN_EXTENT <= size ==> used == wanted) && (size < wanted + MIN_EXTENT ==> used == size)
  }

  /** The block lies at the start of a free extent that can hold it, and takes no more of it than it must. */
  ghost predicate TakenFrom(s: set<Extent>, b: Block, user: nat) {
    exists e, n: nat :: e in s && e.base == b.base && CanHold(e, b.layout)
                        && IsShortest(n, b.base, user, b.layout.size) && Consumes(e.size, n, b.used)
  }

  lemma TakenIs(s: set<Extent>, e: Extent, b: Block, user: nat, n: nat)
    requires e in s && e.base == b.base && CanHold(e, b.layout) && IsShortest(n, b.base, user, b.layout.size)
    requires n <= e.size && b.used == Kept(e.size, n)
    ensures TakenFrom(s, b, user)
  {
    hide CanHold, IsShortest;
    assert Consumes(e.size, n, b.used);
  }

  /** A block of that length, where the block is, fits into it or into the free extent that follows it. */
  ghost predicate Reaches(s: set<Extent>, b: Block, length: nat) {
    length <= b.used || exists e :: e in s && e.base == b.base + b.used && length <= b.used + e.size
  }

  /** The block can be resized without moving: the shortest block that will do can be had in place. */
  ghost predicate StaysPut(s: set<Extent>, b: Block, user: nat, size: nat) {
    exists n: nat :: IsShortest(n, b.base, user, size) && Reaches(s, b, n)
  }

  /** What a block uses once resized: the rest of its own extent, or of the one that follows, is given
      back if it can stand alone. */
  ghost predicate Resized(s: set<Extent>, b: Block, user: nat, size: nat, used: nat) {
    exists n: nat :: IsShortest(n, b.base, user, size) && Regains(s, b, n, used)
  }

  ghost predicate Regains(s: set<Extent>, b: Block, length: nat, used: nat) {
    if length <= b.used then Consumes(b.used, length, used)
    else b.used <= used && exists e :: e in s && e.base == b.base + b.used
                                       && Consumes(e.size, length - b.used, used - b.used)
  }

  lemma ShortestUnique(n: nat, m: nat, base: nat, user: nat, size: nat)
    requires IsShortest(n, base, user, size) && IsShortest(m, base, user, size)
    ensures n == m
  {
  }

  ghost predicate CanResize(s: set<Extent>, b: Block, newEnd: nat) {
    newEnd <= b.base + b.used || exists e :: e in s && e.base == b.base + b.used && newEnd - e.base <= e.size
  }

  /** The new end is that of the shortest block that will do. */
  lemma NewEndShortest(user: nat, base: nat, size: nat)
    requires Granular(base) && base <= user
    ensures base + MIN_EXTENT <= NewEnd(user, base, size)
    ensures IsShortest(NewEnd(user, base, size) - base, base, user, size)
  {
    hide AlignDown, IsShortest;
    RoundedIsShortest(base, user, size);
  }

  /** In terms of the new end: the block stays exactly when the address space and the extent allow it. */
  lemma StaysExactly(s: set<Extent>, b: Block, user: nat, size: nat)
    requires Granular(b.base) && Granular(b.used) && b.base <= user && b.base + b.used <= HIGH
    requires forall e :: e in s ==> Granular(e.size) && e.base + e.size <= HIGH
    ensures StaysPut(s, b, user, size) <==>
            user + Max(size, 1) + 15 < WORD_LIMIT && CanResize(s, b, NewEnd(user, b.base, size))
  {
    hide IsShortest, NewEnd, Granular;
    var n := NewEnd(user, b.base, size) - b.base;
    NewEndShortest(user, b.base, size);
    if StaysPut(s, b, user, size) {
      var m: nat :| IsShortest(m, b.base, user, size) && Reaches(s, b, m);
      ShortestUnique(n, m, b.base, user, size);
      ShortestSpans(n, b.base, user, size);
      if n <= b.used {
        LastGranule(b.base, b.used);
      } else {
        var e :| e in s && e.base == b.base + b.used && n <= b.used + e.size;
        GranularSum(b.base, b.used);
        LastGranule(e.base, e.size);
      }
    }
    if CanResize(s, b, NewEnd(user, b.base, size)) {
      assert Reaches(s, b, n);
    }
  }

  lemma ShortestSpans(n: nat, base: nat, user: nat, size: nat)
    requires IsShortest(n, base, user, size)
    ensures Spans(n, base, user, size)
  {
  }

  lemma ResizeFacts(m: Bytes, t: Tree, b: Block, user: nat, size: nat)
    requires Index(m, t, LOW, HIGH) && BlockOk(m, user, b)
    ensures StaysPut(Extents(t), b, user, size) <==>
            user + Max(size, 1) + 15 < WORD_LIMIT && CanResize(Extents(t), b, NewEnd(user, b.base, size))
    ensures var newEnd := NewEnd(user, b.base, size);
      && user + Max(size, 1) <= newEnd && b.base + MIN_EXTENT <= newEnd && Granular(newEnd)
      && IsShortest(newEnd - b.base, b.base, user, size)
  {
    hide StaysPut, NewEnd, IsShortest, CanResize, Index, Extents, Word;
    forall e | e in Extents(t) ensures Granular(e.size) && e.base + e.size <= HIGH {
      ExtentFacts(m, t, e);
    }
    StaysExactly(Extents(t), b, user, size);
    NewEndFacts(user, b.base, size);
    NewEndShortest(user, b.base, size);
  }

  lemma NewEndFacts(user: nat, base: nat, size: nat)
    requires Granular(base)
    ensures user + Max(size, 1) <= NewEnd(user, base, size) && base + MIN_EXTENT <= NewEnd(user, base, size)
    ensures Granular(NewEnd(user, base, size))
  {
    hide AlignDown, Granular;
    EndGranular(user + Max(size, 1) + 15);
    GranularSum(base, MIN_EXTENT);
  }

  lemma NullIsNotLive(m: Bytes, live: map<nat, Block>)
    requires BlocksOk(m, live)
    ensures 0 !in live && live - {0} == live
  {
    forall u | u in live ensures u != 0 {
      assert BlockOk(m, u, live[u]);
    }
  }

  lemma LiveFacts(m: Bytes, t: Tree, live: map<nat, Block>, granted: set<Extent>, user: nat)
    requires Index(m, t, LOW, HIGH) && BlocksOk(m, live) && Partition(Extents(t), live, granted) && user in live
    ensures BlockOk(m, user, live[user])
    ensures forall e :: e in Extents(t) ==>
      e.base + e.size <= live[user].base || live[user].base + live[user].used <= e.base
    ensures forall x :: InBlock(live[user], x) ==> !Within(Extents(t), x)
  {
    hide Word;
    assert BlockOk(m, user, live[user]);
    forall x | InBlock(live[user], x) ensures !Within(Extents(t), x) {
      assert InLive(live, x);
    }
    GapBetween(Extents(t), live[user].base, live[user].used);
  }

  lemma FreedOwned(m: Bytes, m': Bytes, s: set<Extent>, s': set<Extent>, live: map<nat, Block>, granted: set<Extent>,
                   user: nat)
    requires BlocksOk(m, live) && Partition(s, live, granted) && user in live
    requires BlocksOk(m, live - {user})
    requires forall x :: InLive(live - {user}, x) <==> InLive(live, x) && !InBlock(live[user], x)
    requires forall x :: Within(s', x) <==> Within(s, x) || InBlock(live[user], x)
    requires Confined(m, m', s, live[user].base, live[user].used)
    ensures LiveUntouched(m, m', live - {user}) && BlocksOk(m', live - {user}) && Partition(s', live - {user}, granted)
  {
    hide BlocksOk, Within, At;
    assert forall x :: InBlock(live[user], x) ==> InLive(live, x);
    assert LiveUntouched(m, m', live - {user});
    BlocksFrame(m, m', live - {user});
  }

  /** Replaces one live block by another over the same bytes, the difference going to or coming
      from the index. */
  lemma ReplaceBlock(m: Bytes, m': Bytes, s: set<Extent>, s': set<Extent>, live: map<nat, Block>, granted: set<Extent>,
                     user: nat, b': Block)
    requires BlocksOk(m, live) && Partition(s, live, granted) && user in live && BlockOk(m', user, b')
    requires LiveUntouched(m, m', live - {user})
    requires forall x :: Within(s', x) || InBlock(b', x) <==> Within(s, x) || InBlock(live[user], x)
    requires forall x :: !(Within(s', x) && InBlock(b', x))
    ensures BlocksOk(m', live[user := b']) && Partition(s', live[user := b'], granted)
  {
    hide BlockOk, BlocksOk, Within, At;
    var rest := live - {user};
    assert forall x :: InBlock(live[user], x) ==> InLive(live, x);
    DropBlock(m, live, user);
    BlocksFrame(m, m', rest);
    AddBlock(m', rest, user, b');
    assert live[user := b'] == rest[user := b'];
  }

  lemma RelabelOwned(m: Bytes, t: Tree, live: map<nat, Block>, granted: set<Extent>, user: nat, b': Block)
    requires BlocksOk(m, live) && Partition(Extents(t), live, granted) && user in live && BlockOk(m, user, b')
    requires b'.base == live[user].base && b'.used == live[user].used
    ensures BlocksOk(m, live[user := b']) && Partition(Extents(t), live[user := b'], granted)
  {
    hide BlockOk, BlocksOk, Within, At, Extents;
    assert forall x :: InBlock(live[user], x) ==> InLive(live, x);
    assert forall x :: InBlock(b', x) <==> InBlock(live[user], x);
    LiveSame(m, live - {user});
    ReplaceBlock(m, m, Extents(t), Extents(t), live, granted, user, b');
  }

  lemma HeaderWritten(m: Bytes, m': Bytes, user: nat, v: nat)
    requires m' == PutWord(m, user - 8, v) && v < WORD_LIMIT
    ensures Word(m', user - 8) == v && Word(m', user - 16) == Word(m, user - 16)
    ensures forall x :: !(user - 8 <= x < user) ==> At(m', x) == At(m, x)
  {
    hide Word, PutWord;
  }

  lemma HeaderKept(m: Bytes, m': Bytes, s: set<Extent>, b: Block, user: nat)
    requires BlockOk(m, user, b) && forall x :: InBlock(b, x) ==> !Within(s, x)
    requires forall x :: !Within(s, x) ==> At(m', x) == At(m, x)
    ensures Word(m', user - 16) == b.base && Word(m', user - 8) == b.used
  {
    hide Word, Within, At;
    assert forall x :: user - 16 <= x < user ==> InBlock(b, x);
    WordFrame(m, m', user - 16);
    WordFrame(m, m', user - 8);
  }

  /** Rewriting a header leaves the index alone. */
  lemma IndexHeader(m: Bytes, m': Bytes, t: Tree, b: Block, user: nat)
    requires Index(m, t, LOW, HIGH) && BlockOk(m, user, b)
    requires forall x :: InBlock(b, x) ==> !Within(Extents(t), x)
    requires forall x :: !(user - 8 <= x < user) ==> At(m', x) == At(m, x)
    ensures Index(m', t, LOW, HIGH)
  {
    hide Index, At, Word, Extents, Within;
    assert forall x :: user - 8 <= x < user ==> InBlock(b, x);
    IndexFrame(m, m', t, LOW, HIGH);
  }

  lemma ShrinkDone(m0: Bytes, m1: Bytes, m2: Bytes, s: set<Extent>, s': set<Extent>, live: map<nat, Block>,
                   granted: set<Extent>, user: nat, b': Block)
    requires BlocksOk(m0, live) && Partition(s, live, granted) && user in live && BlockOk(m1, user, b')
    requires b'.base == live[user].base && b'.used <= live[user].used
    requires forall x :: InBlock(live[user], x) ==> !Within(s, x)
    requires forall x :: !(user - 8 <= x < user) ==> At(m1, x) == At(m0, x)
    requires Confined(m1, m2, s, b'.base + b'.used, live[user].used - b'.used)
    requires forall x :: Within(s', x) <==> Within(s, x) || b'.base + b'.used <= x < live[user].base + live[user].used
    ensures BlocksOk(m2, live[user := b']) && Partition(s', live[user := b'], granted)
    ensures LiveUntouched(m0, m2, live - {user})
    ensures forall x :: user <= x < b'.base + b'.used ==> At(m2, x) == At(m0, x)
  {
    hide BlocksOk, Within, At, Word, Granular, AlignedTo;
    DropBlock(m0, live, user);
    assert forall x :: user - 8 <= x < user ==> InBlock(live[user], x);
    assert forall x :: InBlock(live[user], x) ==> InLive(live, x);
    assert forall x :: InBlock(b', x) ==> InBlock(live[user], x);
    assert LiveUntouched(m0, m2, live - {user});
    assert BlockOk(m2, user, b') by {
      WordFrame(m1, m2, user - 16);
      WordFrame(m1, m2, user - 8);
    }
    ReplaceBlock(m0, m2, s, s', live, granted, user, b');
  }

  lemma GrowDone(m0: Bytes, m1: Bytes, m2: Bytes, s: set<Extent>, t: Tree, e: Extent, live: map<nat, Block>,
                 granted: set<Extent>, user: nat, b': Block)
    requires BlocksOk(m0, live) && Partition(s, live, granted) && user in live
    requires Word(m2, user - 16) == b'.base && Word(m2, user - 8) == b'.used
    requires b'.layout.align == live[user].layout.align
    requires user + Max(b'.layout.size, 1) <= b'.base + b'.used && e.base + e.size <= HIGH && Granular(b'.used)
    requires e in s && e.base == live[user].base + live[user].used && BlockOk(m0, user, live[user])
    requires b'.base == live[user].base && live[user].used <= b'.used && b'.base + b'.used <= e.base + e.size
    requires Index(m1, t, LOW, HIGH)
    requires forall x :: InBlock(live[user], x) ==> !Within(s, x)
    requires forall x :: !Within(s, x) ==> At(m1, x) == At(m0, x)
    requires forall x :: !(user - 8 <= x < user) ==> At(m2, x) == At(m1, x)
    requires forall x :: Within(Extents(t), x) <==> Within(s, x) && !(e.base <= x < b'.base + b'.used)
    ensures Index(m2, t, LOW, HIGH) && BlocksOk(m2, live[user := b'])
    ensures Partition(Extents(t), live[user := b'], granted)
    ensures LiveUntouched(m0, m2, live - {user})
    ensures forall x :: user <= x < e.base ==> At(m2, x) == At(m0, x)
  {
    hide BlocksOk, At, Word, Index, Extents, Granular, AlignedTo;
    DropBlock(m0, live, user);
    assert forall x :: user - 8 <= x < user ==> InBlock(live[user], x);
    assert forall x :: InBlock(live[user], x) ==> InLive(live, x);
    assert forall x :: Holds(e, x) ==> Within(s, x);
    assert LiveUntouched(m0, m2, live - {user});
    IndexFrame(m1, m2, t, LOW, HIGH);
    assert BlockOk(m2, user, b');
    ReplaceBlock(m0, m2, s, Extents(t), live, granted, user, b');
  }

  lemma BlockBounds(m: Bytes, user: nat, b: Block)
    requires BlockOk(m, user, b)
    ensures Word(m, user - 16) == b.base && Word(m, user - 8) == b.used && b.base + 16 <= user
    ensures Granular(b.base) && Granular(b.used) && user + Max(b.layout.size, 1) <= b.base + b.used <= HIGH
  {
  }

  function Min(x: nat, y: nat): nat {
    if x < y then x else y
  }

  function Payload(m: Bytes, user: nat, i: nat): Byte {
    At(m, user + i)
  }

  /** The first `count` bytes at `target` now are those that were at `source` then. */
  ghost predicate Copied(m: Bytes, source: nat, m': Bytes, target: nat, count: nat) {
    forall i: nat :: i < count ==> Payload(m', target, i) == Payload(m, source, i)
  }

  method CopyBytes(arena: Arena, source: nat, target: nat, count: nat)
    requires source + count <= target || target + count <= source
    modifies arena
    ensures Copied(old(arena.mem), source, arena.mem, target, count)
    ensures forall x :: !(target <= x < target + count) ==> At(arena.mem, x) == At(old(arena.mem), x)
  {
    for i := 0 to count
      invariant Copied(old(arena.mem), source, arena.mem, target, i)
      invariant forall x :: !(target <= x < target + i) ==> At(arena.mem, x) == At(old(arena.mem), x)
    {
      var byte := Payload(arena.mem, source, i);
      arena.mem := arena.mem[target + i := byte];
      assert Payload(arena.mem, target, i) == byte;
    }
  }

  lemma PrefixKept(m: Bytes, m': Bytes, live: map<nat, Block>, live': map<nat, Block>, user: nat, layout: Layout,
                   size: nat)
    requires user in live && user in live' && live[user].layout == layout && live'[user].layout.size == size
    requires BlocksOk(m', live') && live[user].base == live'[user].base && live[user].base + 16 <= user
    requires user + Max(layout.size, 1) <= live[user].base + live[user].used
    requires forall x :: user <= x && InBlock(live[user], x) && InBlock(live'[user], x) ==> At(m', x) == At(m, x)
    ensures Copied(m, user, m', user, Min(layout.size, size))
  {
    hide At, Word;
    assert BlockOk(m', user, live'[user]);
    BlockBounds(m', user, live'[user]);
    forall i: nat | i < Min(layout.size, size) ensures Payload(m', user, i) == Payload(m, user, i) {
      assert InBlock(live[user], user + i) && InBlock(live'[user], user + i);
    }
  }

  lemma PayloadsApart(m: Bytes, live: map<nat, Block>, user: nat, next: nat)
    requires BlocksOk(m, live) && user in live && next in live && user != next
    ensures live[user].base + live[user].used <= live[next].base || live[next].base + live[next].used <= live[user].base
  {
  }

  /** Writing into a block's payload disturbs neither the index nor any header. */
  lemma CopyOwned(m: Bytes, m': Bytes, t: Tree, live: map<nat, Block>, next: nat, count: nat)
    requires Index(m, t, LOW, HIGH) && BlocksOk(m, live) && next in live && count <= live[next].layout.size
    requires forall x :: InBlock(live[next], x) ==> !Within(Extents(t), x)
    requires forall x :: !(next <= x < next + count) ==> At(m', x) == At(m, x)
    ensures Index(m', t, LOW, HIGH) && BlocksOk(m', live)
  {
    hide Index, At, Word, Extents, Within;
    assert BlockOk(m, next, live[next]);
    assert forall x :: next <= x < next + count ==> InBlock(live[next], x);
    IndexFrame(m, m', t, LOW, HIGH);
    forall u | u in live ensures Same(m, m', u - 16, u) {
      assert BlockOk(m, u, live[u]);
    }
    HeadersFrame(m, m', live);
  }

  /** The target of the copy lies in no earlier block; its source in one. */
  lemma CopyClear(m: Bytes, live: map<nat, Block>, was: map<nat, Block>, user: nat, next: nat, count: nat)
    requires BlocksOk(m, live) && next in live && next !in was && live == was[next := live[next]] && user in was
    requires count <= live[next].layout.size && count <= was[user].layout.size && user != next
    ensures forall x :: InLive(was, x) ==> !(next <= x < next + count)
    ensures forall x :: user <= x < user + count ==> InLive(was, x)
    ensures forall x :: next <= x < next + count ==> InLive(live - {user}, x)
  {
    hide Word;
    assert BlockOk(m, next, live[next]) && BlockOk(m, user, live[user]);
    forall x | InLive(was, x) ensures !(next <= x < next + count) {
      var u :| u in was && InBlock(was[u], x);
      assert u in live && live[u] == was[u] && u != next;
    }
    forall x | user <= x < user + count ensures InLive(was, x) {
      assert InBlock(was[user], x);
    }
    forall x | next <= x < next + count ensures InLive(live - {user}, x) {
      assert next in live - {user} && InBlock((live - {user})[next], x);
    }
  }

  lemma MoveDone(m0: Bytes, m1: Bytes, m2: Bytes, m3: Bytes, was: map<nat, Block>, live: map<nat, Block>, user: nat,
                 next: nat, count: nat)
    requires user in was && next !in was && next in live && live == was[next := live[next]] - {user}
    requires LiveUntouched(m0, m1, was) && LiveUntouched(m2, m3, live)
    requires forall x :: InLive(was, x) ==> !(next <= x < next + count)
    requires forall x :: user <= x < user + count ==> InLive(was, x)
    requires forall x :: next <= x < next + count ==> InLive(live, x)
    requires forall x :: !(next <= x < next + count) ==> At(m2, x) == At(m1, x)
    requires Copied(m1, user, m2, next, count)
    ensures Copied(m0, user, m3, next, count)
    ensures LiveUntouched(m0, m3, was - {user})
  {
    hide At, BlockOk;
    forall i: nat | i < count ensures Payload(m3, next, i) == Payload(m0, user, i) {
      assert Payload(m2, next, i) == Payload(m1, user, i);
      assert InLive(live, next + i) && InLive(was, user + i);
    }
    forall x | InLive(was - {user}, x) ensures At(m3, x) == At(m0, x) {
      var u :| u in was - {user} && InBlock((was - {user})[u], x);
      assert u in was && InBlock(was[u], x);
      assert u in live && InBlock(live[u], x);
      assert InLive(was, x) && InLive(live, x);
    }
  }

  lemma NoTwin(m: Bytes, t: Tree, base: nat)
    requires Index(m, t, LOW, HIGH)
    ensures forall e, f :: e in Extents(t) && f in Extents(t) && e.base == base == f.base ==> e == f
  {
  }

  lemma ExtentFacts(m: Bytes, t: Tree, e: Extent)
    requires Index(m, t, LOW, HIGH) && e in Extents(t)
    ensures 0 < e.base && MIN_EXTENT <= e.size && e.base + e.size <= HIGH && Granular(e.base) && Granular(e.size)
    ensures Word(m, e.base) == e.size && Apart(Extents(t)) && Aligned(Extents(t))
  {
    ExtentsWithin(t, LOW, HIGH);
    StoredSize(m, t, e);
  }

  lemma FitFacts(m: Bytes, t: Tree, e: Extent, layout: Layout)
    requires Index(m, t, LOW, HIGH) && e in Extents(t) && 0 < layout.align && PowerOfTwo(layout.align)
    requires CanHold(e, layout)
    ensures 0 < e.base && MIN_EXTENT <= e.size && e.base + e.size <= HIGH && Granular(e.base) && Granular(e.size)
    ensures Apart(Extents(t)) && Placement(e.base, layout).Some?
    ensures var p := Placement(e.base, layout).value;
      && e.base + 16 <= p.user && Granular(p.user) && AlignedTo(p.user, layout.align) && p.used <= e.size
      && p.user + Max(layout.size, 1) <= e.base + p.used && Granular(p.used) && MIN_EXTENT <= p.used
      && IsLowest(p.user, e.base, layout) && IsShortest(p.used, e.base, p.user, layout.size)
  {
    hide Index, PowerOfTwo, Placement, Apart, CanHold, IsLowest, IsShortest;
    ExtentFacts(m, t, e);
    FitsExactly(e, layout);
    PlacementOk(e.base, layout);
    PlacementLeast(e.base, layout);
  }

  lemma ErasedIndex(s: set<Extent>, s': set<Extent>, e: Extent)
    requires Apart(s) && Aligned(s) && e in s
    requires forall f :: f in s' <==> f in s && f.base != e.base
    ensures s' == s - {e} && Apart(s') && Aligned(s')
    ensures forall x :: Within(s', x) <==> Within(s, x) && !Holds(e, x)
    ensures forall x :: Holds(e, x) ==> Within(s, x)
  {
    assert s' == s - {e};
    ApartHolds(s, e);
  }

  lemma TailIsGap(s': set<Extent>, s: set<Extent>, e: Extent, kept: nat)
    requires Apart(s) && e in s && s' == s - {e} && kept <= e.size
    ensures forall f :: f in s' ==> f.base + f.size <= e.base + kept || e.base + e.size <= f.base
  {
  }

  lemma CarveConfined(m0: Bytes, m1: Bytes, m2: Bytes, s: set<Extent>, e: Extent, kept: nat)
    requires e in s && kept <= e.size
    requires forall x :: !Within(s, x) ==> At(m1, x) == At(m0, x)
    requires Confined(m1, m2, s - {e}, e.base + kept, e.size - kept)
    ensures forall x :: !Within(s, x) ==> At(m2, x) == At(m0, x)
  {
    forall x | !Within(s, x) ensures At(m2, x) == At(m0, x) {
      WithinSubset(s - {e}, s);
      assert !Holds(e, x);
    }
  }

  lemma LiveSame(m: Bytes, live: map<nat, Block>)
    ensures LiveUntouched(m, m, live)
  {
  }

  lemma HeaderInside(m: Bytes, m': Bytes, user: nat, b: Block, base: nat)
    requires b.base + 16 <= user && user + Max(b.layout.size, 1) <= b.base + b.used && base == b.base
    requires b.base < WORD_LIMIT && b.used < WORD_LIMIT
    requires m' == PutWord(PutWord(m, user - 16, base), user - 8, b.used)
    ensures Word(m', user - 16) == b.base && Word(m', user - 8) == b.used
    ensures forall x :: !InBlock(b, x) ==> At(m', x) == At(m, x)
  {
    hide Word, PutWord, At;
  }

  /** An index is unaffected by writes outside its extents. */
  lemma IndexFrame(m: Bytes, m': Bytes, t: Tree, low: int, high: int)
    requires Index(m, t, low, high)
    requires forall x :: Within(Extents(t), x) ==> At(m', x) == At(m, x)
    ensures Index(m', t, low, high)
  {
    forall x | Covers(t, x) ensures At(m', x) == At(m, x) {
      CoversExtents(t, x);
      var e :| e in Extents(t) && e.base <= x < e.base + e.size;
      assert Holds(e, x);
    }
    StoredFrame(m, m', t, low, high);
  }

  lemma AllocOwned(m0: Bytes, m1: Bytes, m2: Bytes, s: set<Extent>, t: Tree, e: Extent, live: map<nat, Block>,
                   granted: set<Extent>, user: nat, b: Block)
    requires BlocksOk(m0, live) && Partition(s, live, granted) && e in s
    requires Index(m1, t, LOW, HIGH) && BlockOk(m2, user, b) && b.base == e.base && b.used <= e.size
    requires forall x :: Within(Extents(t), x) <==> Within(s, x) && !InBlock(b, x)
    requires forall x :: !Within(s, x) ==> At(m1, x) == At(m0, x)
    requires forall x :: !InBlock(b, x) ==> At(m2, x) == At(m1, x)
    ensures user !in live && Index(m2, t, LOW, HIGH) && LiveUntouched(m0, m2, live)
    ensures BlocksOk(m2, live[user := b]) && Partition(Extents(t), live[user := b], granted)
  {
    hide At, Index, BlocksOk, Extents, Word;
    assert forall x :: InBlock(b, x) ==> Holds(e, x);
    IndexFrame(m1, m2, t, LOW, HIGH);
    assert LiveUntouched(m0, m2, live);
    BlocksFrame(m0, m2, live);
    if user in live {
      FreshUser(m0, live, user);
      assert false;
    }
    AddBlock(m2, live, user, b);
  }

  /** Bytes that are neither granted nor live lie between the free extents. */
  lemma RegionIsGap(m: Bytes, t: Tree, live: map<nat, Block>, granted: set<Extent>, base: nat, size: nat)
    requires Index(m, t, LOW, HIGH) && Partition(Extents(t), live, granted) && 0 < size
    requires forall x :: base <= x < base + size ==> !Within(granted, x)
    ensures forall e :: e in Extents(t) ==> e.base + e.size <= base || base + size <= e.base
    ensures forall x :: InLive(live, x) ==> !Within(Extents(t), x) && !(base <= x < base + size)
  {
    GapBetween(Extents(t), base, size);
  }

  lemma GapBetween(s: set<Extent>, base: nat, size: nat)
    requires Apart(s) && 0 < size && forall x :: base <= x < base + size ==> !Within(s, x)
    ensures forall e :: e in s ==> e.base + e.size <= base || base + size <= e.base
  {
    forall e | e in s ensures e.base + e.size <= base || base + size <= e.base {
      var x := if e.base <= base then base else e.base;
      assert Holds(e, x) ==> Within(s, x);
    }
  }

  lemma ConfinedLive(m: Bytes, m': Bytes, s: set<Extent>, live: map<nat, Block>, base: nat, size: nat)
    requires Confined(m, m', s, base, size)
    requires forall x :: InLive(live, x) ==> !Within(s, x) && !(base <= x < base + size)
    ensures LiveUntouched(m, m', live)
  {
  }

  lemma WithinAdd(s: set<Extent>, e: Extent)
    ensures forall x :: Within(s + {e}, x) <==> Within(s, x) || Holds(e, x)
  {
    forall x ensures Within(s + {e}, x) <==> Within(s, x) || Holds(e, x) {
      if Holds(e, x) {
        assert e in s + {e};
      }
      if Within(s, x) {
        var f :| f in s && Holds(f, x);
        assert f in s + {e};
      }
    }
  }

  lemma PartitionGrows(s: set<Extent>, s': set<Extent>, live: map<nat, Block>, granted: set<Extent>, base: nat,
                       size: nat)
    requires Partition(s, live, granted)
    requires forall x :: Within(s', x) <==> Within(s, x) || base <= x < base + size
    requires forall x :: InLive(live, x) ==> !Within(s, x) && !(base <= x < base + size)
    ensures Partition(s', live, granted + {Extent(base, size)})
  {
    hide Within, InLive;
    WithinAdd(granted, Extent(base, size));
  }

  /** Once every block is freed the index holds exactly the granted regions, fully merged:
      any maximally merged description of the granted bytes is the index itself. */
  lemma FreeingAllRestores(heap: Heap, merged: set<Extent>)
    requires heap.Valid() && heap.live == map[]
    requires Apart(merged) && forall x :: Within(merged, x) <==> Within(heap.granted, x)
    ensures Extents(heap.tree) == merged
  {
    hide Within, Extents, Stored, Sound, Balanced, Apart;
    assert forall x :: !InLive(heap.live, x);
    CanonicalUnique(Extents(heap.tree), merged);
  }
}
