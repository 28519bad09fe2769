/** The physical-frame bitmap: allocation of runs of frames, release, and the record of which
    words changed since they were last copied. Words are 64-bit numbers. */
module FrameMap {
  import opened Arithmetic
  import opened Octets
  import opened Bits

  const WORD := 0x1_0000_0000_0000_0000
  const WORD_BITS := 64

  // ---------- Dirty keys ----------

  /** A bounded set of keys; once it would overflow it has failed for good. */
  datatype Dirty = Dirty(keys: set<nat>, capacity: nat, failed: bool)

  function Marked(d: Dirty, key: nat): Dirty {
    var failed := d.failed || (|d.keys| >= d.capacity && key !in d.keys);
    if failed then d.(failed := true) else d.(keys := d.keys + {key})
  }

  function Copied(d: Dirty, key: nat): Dirty {
    d.(keys := d.keys - {key})
  }

  lemma {:induction false} LeastIn(s: set<nat>) returns (x: nat)
    requires s != {}
    ensures x in s && forall y :: y in s ==> x <= y
    decreases |s|
  {
    x :| x in s;
    var rest := s - {x};
    if rest != {} {
      var z := LeastIn(rest);
      assert forall y :: y in s ==> y == x || y in rest;
      if z < x {
        x := z;
      }
    } else {
      assert forall y :: y in s ==> y == x || y in rest;
    }
  }

  lemma LeastExists(s: set<nat>)
    requires s != {}
    ensures exists x :: x in s && forall y :: y in s ==> x <= y
  {
    var x := LeastIn(s);
  }

  function Least(s: set<nat>): (x: nat)
    requires s != {}
    ensures x in s && forall y :: y in s ==> x <= y
  {
    LeastExists(s);
    var x :| x in s && forall y :: y in s ==> x <= y;
    x
  }

  /** The least key, or none; a failed set has no answer. */
  function NextKey(d: Dirty): Option<Option<nat>> {
    if d.failed then None else if d.keys == {} then Some(None) else Some(Some(Least(d.keys)))
  }

  lemma {:induction false} BoundedSize(s: set<nat>, n: nat)
    requires forall k :: k in s ==> k < n
    ensures |s| <= n && (|s| == n ==> forall k: nat :: k < n ==> k in s)
    decreases n
  {
    if n == 0 {
      assert s == {};
    } else {
      BoundedSize(s - {n - 1}, n - 1);
      forall k: nat | |s| == n && k < n ensures k in s {
        assert n - 1 in s;
        if k < n - 1 {
          assert k in s - {n - 1};
        }
      }
    }
  }

  /** A set sized for all its possible keys never fails. */
  ghost predicate Roomy(d: Dirty, n: nat) {
    !d.failed && d.capacity == n && forall k :: k in d.keys ==> k < n
  }

  lemma MarkRoomy(d: Dirty, n: nat, key: nat)
    requires Roomy(d, n) && key < n
    ensures Roomy(Marked(d, key), n) && Marked(d, key).keys == d.keys + {key}
  {
    BoundedSize(d.keys, n);
  }

  // ---------- Frames ----------

  /** `used` and `boot` have one bit for each frame. */
  datatype Frames = Frames(used: seq<nat>, boot: seq<nat>, reused: nat, hint: nat, dirty: Option<Dirty>)

  /** Everything is used until frames are given or a snapshot is adopted. */
  function NewFrames(words: nat): Frames {
    Frames(seq(words, _ => WORD - 1), seq(words, _ => 0), 0, 0, None)
  }

  function FrameCount(f: Frames): nat {
    WORD_BITS * |f.used|
  }

  /** How many words a snapshot holds. */
  function SnapshotWords(f: Frames): nat {
    2 * |f.used| + 1
  }

  ghost predicate Shaped(f: Frames) {
    && |f.used| == |f.boot| && f.reused < WORD
    && (forall i :: 0 <= i < |f.used| ==> f.used[i] < WORD && f.boot[i] < WORD)
    && (f.dirty.Some? ==> Roomy(f.dirty.value, SnapshotWords(f)))
  }

  /** The snapshot: used words, boot words, and the reuse count. */
  function Words(f: Frames): (r: seq<nat>)
    ensures |r| == |f.used| + |f.boot| + 1
  {
    f.used + f.boot + [f.reused]
  }

  predicate Used(f: Frames, i: nat)
    requires i < FrameCount(f)
  {
    Bit(f.used[i / WORD_BITS], i % WORD_BITS)
  }

  predicate Boot(f: Frames, i: nat)
    requires i < WORD_BITS * |f.boot|
  {
    Bit(f.boot[i / WORD_BITS], i % WORD_BITS)
  }

  function WithBit(word: nat, i: nat, value: bool): nat {
    if value then OrBit(word, i) else ClearBit(word, i)
  }

  lemma WithBitSets(word: nat, i: nat, value: bool, j: nat)
    ensures Bit(WithBit(word, i, value), j) <==> if j == i then value else Bit(word, j)
  {
    OrBitSets(word, i, j);
    ClearBitClears(word, i, j);
  }

  lemma WithBitBound(word: nat, i: nat, value: bool)
    requires word < WORD && i < WORD_BITS
    ensures WithBit(word, i, value) < WORD
  {
    PowersOfTwo();
    OrBitBound(word, i, 64);
  }

  function MarkWord(f: Frames, key: nat): Frames {
    if f.dirty.Some? then f.(dirty := Some(Marked(f.dirty.value, key))) else f
  }

  function SetUsed(f: Frames, i: nat, value: bool): (r: Frames)
    requires i < FrameCount(f)
    ensures |r.used| == |f.used| && |r.boot| == |f.boot|
  {
    var w := i / WORD_BITS;
    MarkWord(f, w).(used := f.used[w := WithBit(f.used[w], i % WORD_BITS, value)])
  }

  function SetBoot(f: Frames, i: nat, value: bool): (r: Frames)
    requires i < WORD_BITS * |f.boot|
    ensures |r.used| == |f.used| && |r.boot| == |f.boot|
  {
    var w := i / WORD_BITS;
    MarkWord(f, |f.used| + w).(boot := f.boot[w := WithBit(f.boot[w], i % WORD_BITS, value)])
  }

  function Reuse(f: Frames): Frames {
    MarkWord(f.(reused := (f.reused + 1) % WORD), 2 * |f.used|)
  }

  /** One frame is handed out; a frame of the boot file system is counted once. */
  function TakeFrame(f: Frames, i: nat): (r: Frames)
    requires i < FrameCount(f) && |f.used| == |f.boot|
    ensures |r.used| == |f.used| && |r.boot| == |f.boot|
  {
    var taken := SetUsed(f, i, true);
    if Boot(taken, i) then SetBoot(Reuse(taken), i, false) else taken
  }

  function TakeFrames(f: Frames, first: nat, n: nat): (r: Frames)
    requires first + n <= FrameCount(f) && |f.used| == |f.boot|
    ensures |r.used| == |f.used| && |r.boot| == |f.boot|
  {
    if n == 0 then f else TakeFrame(TakeFrames(f, first, n - 1), first + n - 1)
  }

  function FreeFrames(f: Frames, first: nat, n: nat): (r: Frames)
    requires first + n <= FrameCount(f)
    ensures |r.used| == |f.used| && |r.boot| == |f.boot|
  {
    if n == 0 then f else SetUsed(FreeFrames(f, first, n - 1), first + n - 1, false)
  }

  // ---------- Changes are recorded ----------

  /** Every word that differs is dirty, dirty words stay dirty, and the shape is kept. */
  ghost predicate Recorded(f: Frames, g: Frames) {
    && Shaped(g) && |g.used| == |f.used| && |g.boot| == |f.boot| && g.dirty.Some? == f.dirty.Some?
    && (f.dirty.Some? ==>
          && f.dirty.value.keys <= g.dirty.value.keys
          && forall k :: 0 <= k < |Words(f)| && Words(g)[k] != Words(f)[k] ==> k in g.dirty.value.keys)
  }

  lemma RecordedTrans(f: Frames, g: Frames, h: Frames)
    requires Shaped(f) && Recorded(f, g) && Recorded(g, h)
    ensures Recorded(f, h)
  {
    hide Words, Roomy;
  }

  lemma SetUsedRecorded(f: Frames, i: nat, value: bool)
    requires Shaped(f) && i < FrameCount(f)
    ensures Recorded(f, SetUsed(f, i, value))
  {
    hide WithBit, Marked, Roomy;
    var w := i / WORD_BITS;
    WithBitBound(f.used[w], i % WORD_BITS, value);
    if f.dirty.Some? {
      MarkRoomy(f.dirty.value, SnapshotWords(f), w);
    }
  }

  lemma SetBootRecorded(f: Frames, i: nat, value: bool)
    requires Shaped(f) && i < FrameCount(f)
    ensures Recorded(f, SetBoot(f, i, value))
  {
    hide WithBit, Marked, Roomy;
    var w := i / WORD_BITS;
    WithBitBound(f.boot[w], i % WORD_BITS, value);
    if f.dirty.Some? {
      MarkRoomy(f.dirty.value, SnapshotWords(f), |f.used| + w);
    }
  }

  lemma ReuseRecorded(f: Frames)
    requires Shaped(f)
    ensures Recorded(f, Reuse(f))
  {
    hide Marked, Roomy;
    if f.dirty.Some? {
      MarkRoomy(f.dirty.value, SnapshotWords(f), 2 * |f.used|);
    }
  }

  lemma TakeFrameRecorded(f: Frames, i: nat)
    requires Shaped(f) && i < FrameCount(f)
    ensures Recorded(f, TakeFrame(f, i))
  {
    hide Recorded, SetUsed, SetBoot, Reuse, Shaped, Boot;
    ShapedSame(f);
    var taken := SetUsed(f, i, true);
    SetUsedRecorded(f, i, true);
    RecordedShaped(f, taken);
    if Boot(taken, i) {
      ReuseRecorded(taken);
      RecordedShaped(taken, Reuse(taken));
      SetBootRecorded(Reuse(taken), i, false);
      RecordedTrans(f, taken, Reuse(taken));
      RecordedTrans(f, Reuse(taken), SetBoot(Reuse(taken), i, false));
    }
  }

  lemma ShapedSame(f: Frames)
    requires Shaped(f)
    ensures |f.used| == |f.boot|
  {
  }

  lemma RecordedShaped(f: Frames, g: Frames)
    requires Recorded(f, g)
    ensures Shaped(g) && |g.used| == |f.used| && |g.boot| == |g.used|
  {
  }

  lemma {:induction false} TakeFramesRecorded(f: Frames, first: nat, n: nat)
    requires Shaped(f) && first + n <= FrameCount(f)
    ensures Recorded(f, TakeFrames(f, first, n))
  {
    hide Recorded, TakeFrame;
    if n == 0 {
      RecordedRefl(f);
    } else {
      TakeFramesRecorded(f, first, n - 1);
      var before := TakeFrames(f, first, n - 1);
      RecordedShaped(f, before);
      TakeFrameRecorded(before, first + n - 1);
      RecordedTrans(f, before, TakeFrames(f, first, n));
    }
  }

  lemma RecordedRefl(f: Frames)
    requires Shaped(f)
    ensures Recorded(f, f)
  {
  }

  lemma {:induction false} FreeFramesRecorded(f: Frames, first: nat, n: nat)
    requires Shaped(f) && first + n <= FrameCount(f)
    ensures Recorded(f, FreeFrames(f, first, n))
  {
    hide Recorded, SetUsed;
    if n == 0 {
      RecordedRefl(f);
    } else {
      FreeFramesRecorded(f, first, n - 1);
      var before := FreeFrames(f, first, n - 1);
      RecordedShaped(f, before);
      SetUsedRecorded(before, first + n - 1, false);
      RecordedTrans(f, before, FreeFrames(f, first, n));
    }
  }

  // ---------- What the bits mean ----------

  lemma SetUsedAt(f: Frames, i: nat, value: bool, j: nat)
    requires i < FrameCount(f) && j < FrameCount(f)
    ensures Used(SetUsed(f, i, value), j) == if j == i then value else Used(f, j)
  {
    hide Bit, WithBit;
    WithBitSets(f.used[i / WORD_BITS], i % WORD_BITS, value, j % WORD_BITS);
  }

  lemma SetBootAt(f: Frames, i: nat, value: bool, j: nat)
    requires i < WORD_BITS * |f.boot| && j < WORD_BITS * |f.boot|
    ensures Boot(SetBoot(f, i, value), j) == if j == i then value else Boot(f, j)
  {
    hide Bit, WithBit;
    WithBitSets(f.boot[i / WORD_BITS], i % WORD_BITS, value, j % WORD_BITS);
  }

  lemma TakeFrameAt(f: Frames, i: nat, j: nat)
    requires i < FrameCount(f) && j < FrameCount(f) && |f.used| == |f.boot|
    ensures var r := TakeFrame(f, i);
      Used(r, j) == (j == i || Used(f, j)) && Boot(r, j) == (j != i && Boot(f, j))
  {
    hide Bit, WithBit, Marked;
    SetUsedAt(f, i, true, j);
    var taken := SetUsed(f, i, true);
    SetBootAt(Reuse(taken), i, false, j);
  }

  /** Taking a run uses exactly its frames, and forgets that they belonged to the boot files. */
  lemma {:induction false} TakeFramesAt(f: Frames, first: nat, n: nat, j: nat)
    requires first + n <= FrameCount(f) && j < FrameCount(f) && |f.used| == |f.boot|
    ensures var r := TakeFrames(f, first, n);
      Used(r, j) == (first <= j < first + n || Used(f, j)) && Boot(r, j) == (!(first <= j < first + n) && Boot(f, j))
  {
    hide Used, Boot, TakeFrame;
    if n > 0 {
      TakeFramesAt(f, first, n - 1, j);
      TakeFrameAt(TakeFrames(f, first, n - 1), first + n - 1, j);
    }
  }

  /** Freeing a run frees exactly its frames. */
  lemma {:induction false} FreeFramesAt(f: Frames, first: nat, n: nat, j: nat)
    requires first + n <= FrameCount(f) && j < FrameCount(f)
    ensures Used(FreeFrames(f, first, n), j) == (!(first <= j < first + n) && Used(f, j))
  {
    hide Used, SetUsed;
    if n > 0 {
      FreeFramesAt(f, first, n - 1, j);
      SetUsedAt(FreeFrames(f, first, n - 1), first + n - 1, false, j);
    }
  }

  /** Releasing what was just allocated gives back the same free frames. */
  lemma AllocateThenRelease(f: Frames, first: nat, n: nat, j: nat)
    requires FreeRun(f, first, n) && j < FrameCount(f) && |f.used| == |f.boot|
    ensures Used(FreeFrames(TakeFrames(f, first, n), first, n), j) == Used(f, j)
  {
    hide Used, TakeFrames, FreeFrames;
    TakeFramesAt(f, first, n, j);
    FreeFramesAt(TakeFrames(f, first, n), first, n, j);
  }

  // ---------- Runs of free frames ----------

  predicate FreeRun(f: Frames, first: nat, pages: nat) {
    first + pages <= FrameCount(f) && forall j :: first <= j < first + pages ==> !Used(f, j)
  }

  /** No run of that many free frames lies between the bounds. */
  ghost predicate NoRun(f: Frames, start: nat, end: nat, pages: nat) {
    forall a: nat :: start <= a && a + pages <= end ==> !FreeRun(f, a, pages)
  }

  /** The lowest run between the bounds. */
  ghost predicate IsFirstRun(f: Frames, start: nat, end: nat, pages: nat, first: nat) {
    && start <= first && first + pages <= end && FreeRun(f, first, pages)
    && forall a: nat :: start <= a < first ==> !FreeRun(f, a, pages)
  }

  /** Where allocation looks first. */
  function HintOf(f: Frames): nat {
    if f.hint < FrameCount(f) then f.hint else FrameCount(f)
  }

  /** What allocation chooses: the lowest run at or above the hint, else the lowest one wholly below it. */
  ghost predicate Chosen(f: Frames, pages: nat, first: nat) {
    var hint := HintOf(f);
    || IsFirstRun(f, hint, FrameCount(f), pages, first)
    || (NoRun(f, hint, FrameCount(f), pages) && IsFirstRun(f, 0, hint, pages, first))
  }

  /** A run was taken, and the hint moved past it. */
  ghost predicate Granted(f: Frames, g: Frames, first: nat, pages: nat) {
    && |f.used| == |f.boot| && 0 < FrameCount(f) && first + pages <= FrameCount(f)
    && g == TakeFrames(f, first, pages).(hint := (first + pages) % FrameCount(f))
  }

  /** Nothing to choose: no run on either side of the hint. */
  ghost predicate Exhausted(f: Frames, pages: nat) {
    pages == 0 || pages > FrameCount(f) || (NoRun(f, HintOf(f), FrameCount(f), pages) && NoRun(f, 0, HintOf(f), pages))
  }

  lemma RunIsFree(f: Frames, first: nat, pages: nat, j: nat)
    requires FreeRun(f, first, pages) && first <= j < first + pages
    ensures !Used(f, j)
  {
  }

  /** A single frame is found whenever there is one. */
  lemma OnePageComplete(f: Frames)
    requires 0 < FrameCount(f)
    ensures Exhausted(f, 1) <==> forall i: nat :: i < FrameCount(f) ==> Used(f, i)
  {
    hide Used;
    if Exhausted(f, 1) {
      forall i: nat | i < FrameCount(f) ensures Used(f, i) {
        assert !FreeRun(f, i, 1);
      }
    } else {
      var a: nat :| a + 1 <= FrameCount(f) && FreeRun(f, a, 1);
      RunIsFree(f, a, 1, a);
    }
  }

  /** Longer runs can be missed: allocation fails exactly when every free run straddles the hint. */
  lemma MissedRunsStraddle(f: Frames, pages: nat)
    requires 0 < pages <= FrameCount(f)
    ensures Exhausted(f, pages) <==> forall first: nat :: FreeRun(f, first, pages) ==> first < HintOf(f) < first + pages
  {
    hide FreeRun;
    if Exhausted(f, pages) {
      forall first: nat | FreeRun(f, first, pages) ensures first < HintOf(f) < first + pages {
        RunFits(f, first, pages);
      }
    }
  }

  lemma RunFits(f: Frames, first: nat, pages: nat)
    requires FreeRun(f, first, pages)
    ensures first + pages <= FrameCount(f)
  {
  }

  // ---------- A run that leads there ----------

  /** Frames given back; the hint moves down to them. */
  function Released(f: Frames, first: nat, pages: nat): Frames
    requires first + pages <= FrameCount(f)
  {
    FreeFrames(f, first, pages).(hint := if first < f.hint then first else f.hint)
  }

  datatype Request = Take(first: nat, pages: nat) | Give(first: nat, pages: nat)

  /** One call to the allocator, and what it did. */
  ghost predicate Serves(f: Frames, g: Frames, r: Request) {
    match r
    case Take(first, pages) => Chosen(f, pages, first) && Granted(f, g, first, pages)
    case Give(first, pages) =>
      && first + pages <= FrameCount(f) && (forall j: nat :: first <= j < first + pages ==> Used(f, j))
      && g == Released(f, first, pages)
  }

  ghost predicate Served(run: seq<Frames>, requests: seq<Request>) {
    |run| == |requests| + 1 && forall k :: 0 <= k < |requests| ==> Serves(run[k], run[k + 1], requests[k])
  }

  /** Exactly the given frames are free. */
  ghost predicate FreeAre(f: Frames, free: set<nat>, hint: nat) {
    && |f.used| == |f.boot| > 0 && f.hint == hint
    && forall j: nat :: j < FrameCount(f) ==> (Used(f, j) <==> j !in free)
  }

  lemma Takes(f: Frames, free: set<nat>, hint: nat, first: nat, pages: nat, after: set<nat>) returns (g: Frames)
    requires FreeAre(f, free, hint) && hint <= first && 0 < pages && first + pages < 64
    requires forall j: nat :: first <= j < first + pages ==> j in free
    requires forall a: nat :: hint <= a < first ==> a !in free || (pages > 1 && a + 1 !in free)
    requires forall j: nat :: j in after <==> j in free && !(first <= j < first + pages)
    ensures Serves(f, g, Take(first, pages)) && FreeAre(g, after, first + pages)
  {
    hide Used, TakeFrames;
    g := TakeFrames(f, first, pages).(hint := (first + pages) % FrameCount(f));
    assert g.hint == first + pages by {
      DivModUnique(first + pages, FrameCount(f), 0, first + pages);
    }
    forall a: nat | hint <= a < first ensures !FreeRun(f, a, pages) {
      assert a !in free ==> Used(f, a);
      assert a + 1 !in free ==> Used(f, a + 1);
    }
    forall j: nat | j < FrameCount(f) ensures Used(g, j) <==> j !in after {
      TakeFramesAt(f, first, pages, j);
      HintUsed(TakeFrames(f, first, pages), g.hint, j);
    }
  }

  lemma Gives(f: Frames, free: set<nat>, hint: nat, first: nat, pages: nat, after: set<nat>, low: nat)
    returns (g: Frames)
    requires FreeAre(f, free, hint) && first + pages < 64 && low == if first < hint then first else hint
    requires forall j: nat :: first <= j < first + pages ==> j !in free
    requires forall j: nat :: j in after <==> j in free || first <= j < first + pages
    ensures Serves(f, g, Give(first, pages)) && FreeAre(g, after, low)
  {
    hide Used, FreeFrames;
    g := Released(f, first, pages);
    forall j: nat | j < FrameCount(f) ensures Used(g, j) <==> j !in after {
      FreeFramesAt(f, first, pages, j);
      HintUsed(FreeFrames(f, first, pages), g.hint, j);
    }
  }

  lemma HintUsed(f: Frames, hint: nat, j: nat)
    requires j < FrameCount(f)
    ensures Used(f.(hint := hint), j) == Used(f, j)
  {
  }

  /** Two free frames on either side of the hint, and nothing else: no pair is found. */
  lemma PairMissed(f: Frames)
    requires FreeAre(f, {0, 1}, 1)
    ensures FreeRun(f, 0, 2) && Exhausted(f, 2)
  {
    hide Used;
    forall a: nat | (1 <= a && a + 2 <= FrameCount(f)) || a + 2 <= 1 ensures !FreeRun(f, a, 2) {
      assert Used(f, a + 1);
    }
  }

  lemma {:induction false} AllOnes(n: nat, j: nat)
    requires j < n
    ensures Power(2, n) >= 1 && Bit(Power(2, n) - 1, j)
  {
    PowerPositive(2, n);
    PowerPositive(2, n - 1);
    assert (Power(2, n) - 1) / 2 == Power(2, n - 1) - 1;
    if j > 0 {
      AllOnes(n - 1, j - 1);
    }
  }

  lemma NewIsFull(words: nat)
    requires 0 < words
    ensures FreeAre(NewFrames(words), {}, 0)
  {
    hide Bit, Power;
    PowersOfTwo();
    var f := NewFrames(words);
    forall j: nat | j < FrameCount(f) ensures Used(f, j) {
      AllOnes(64, j % WORD_BITS);
    }
  }

  const STRADDLING: seq<Request> := [Give(0, 5), Take(0, 1), Take(1, 1), Take(2, 1), Give(0, 1), Take(3, 2), Give(1, 1)]

  /** From a new table, where everything is used, to one in which two free frames lie next to each other
      and a request for two is refused. */
  lemma StraddlingRunMissed(words: nat) returns (run: seq<Frames>)
    requires 0 < words
    ensures Served(run, STRADDLING) && run[0] == NewFrames(words) && FreeRun(run[7], 0, 2) && Exhausted(run[7], 2)
  {
    hide Serves, FreeAre, FreeRun, Exhausted, NewFrames;
    NewIsFull(words);
    var f := NewFrames(words);
    var given := Gives(f, {}, 0, 0, 5, {0, 1, 2, 3, 4}, 0);
    var one := Takes(given, {0, 1, 2, 3, 4}, 0, 0, 1, {1, 2, 3, 4});
    var two := Takes(one, {1, 2, 3, 4}, 1, 1, 1, {2, 3, 4});
    var three := Takes(two, {2, 3, 4}, 2, 2, 1, {3, 4});
    var low := Gives(three, {3, 4}, 3, 0, 1, {0, 3, 4}, 0);
    var pair := Takes(low, {0, 3, 4}, 0, 3, 2, {0});
    var last := Gives(pair, {0}, 5, 1, 1, {0, 1}, 1);
    PairMissed(last);
    run := [f, given, one, two, three, low, pair, last];
  }
}
