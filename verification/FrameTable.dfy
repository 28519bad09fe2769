/** The frame bitmap as the kernel keeps it: arrays of words changed in place, scanned by loops. */
module FrameTable {
  import opened Octets
  import opened Bits
  import opened FrameMap

  class FrameTable {
    const used: array<nat>
    const boot: array<nat>
    var reused: nat
    var hint: nat
    var dirty: Option<Dirty>

    ghost function View(): Frames
      reads this, used, boot
    {
      Frames(used[..], boot[..], reused, hint, dirty)
    }

    ghost predicate Valid()
      reads this, used, boot
    {
      used != boot && Shaped(View())
    }

    /** Everything is used until a snapshot is adopted. */
    constructor (words: nat)
      ensures Valid() && View() == NewFrames(words)
      ensures fresh(used) && fresh(boot)
    {
      used := new nat[words](_ => WORD - 1);
      boot := new nat[words](_ => 0);
      reused, hint, dirty := 0, 0, None;
      new;
      assert used[..] == seq(words, _ => WORD - 1) && boot[..] == seq(words, _ => 0);
    }

    method BeginLiveSnapshot()
      requires Valid()
      modifies this`dirty
      ensures Valid() && View() == old(View()).(dirty := Some(Dirty({}, SnapshotWords(old(View())), false)))
    {
      dirty := Some(Dirty({}, 2 * used.Length + 1, false));
    }

    method Mark(key: nat)
      modifies this`dirty
      ensures View() == MarkWord(old(View()), key)
    {
      if dirty.Some? {
        dirty := Some(Marked(dirty.value, key));
      }
    }

    method MarkUsed(i: nat, value: bool)
      requires Valid() && i < WORD_BITS * used.Length
      modifies this`dirty, used
      ensures Valid() && View() == SetUsed(old(View()), i, value)
    {
      hide WithBit, Marked, Shaped;
      ghost var before := View();
      SetUsedRecorded(before, i, value);
      RecordedShaped(before, SetUsed(before, i, value));
      Mark(i / WORD_BITS);
      used[i / WORD_BITS] := WithBit(used[i / WORD_BITS], i % WORD_BITS, value);
      assert used[..] == before.used[i / WORD_BITS := WithBit(before.used[i / WORD_BITS], i % WORD_BITS, value)];
    }

    method MarkBoot(i: nat, value: bool)
      requires Valid() && i < WORD_BITS * used.Length
      modifies this`dirty, boot
      ensures Valid() && View() == SetBoot(old(View()), i, value)
    {
      hide WithBit, Marked, Shaped;
      ghost var before := View();
      ShapedSame(before);
      SetBootRecorded(before, i, value);
      RecordedShaped(before, SetBoot(before, i, value));
      Mark(used.Length + i / WORD_BITS);
      boot[i / WORD_BITS] := WithBit(boot[i / WORD_BITS], i % WORD_BITS, value);
      assert boot[..] == before.boot[i / WORD_BITS := WithBit(before.boot[i / WORD_BITS], i % WORD_BITS, value)];
    }

    method TakeOne(i: nat)
      requires Valid() && i < WORD_BITS * used.Length
      modifies this, used, boot
      ensures Valid() && View() == TakeFrame(old(View()), i) && hint == old(hint)
    {
      hide SetUsed, SetBoot, Shaped, Bit, MarkWord;
      ghost var before := View();
      ShapedSame(before);
      MarkUsed(i, true);
      assert boot[..] == before.boot;
      if Bit(boot[i / WORD_BITS], i % WORD_BITS) {
        ghost var taken := View();
        ReuseRecorded(taken);
        RecordedShaped(taken, Reuse(taken));
        reused := (reused + 1) % WORD;
        Mark(2 * used.Length);
        MarkBoot(i, false);
      }
    }

    /** Scans for a run of free frames, keeping the length of the run in progress. */
    method FindFreeRun(start: nat, end: nat, pages: nat) returns (r: Option<nat>)
      requires Valid() && 0 < pages && end <= WORD_BITS * used.Length
      ensures r.Some? ==> IsFirstRun(View(), start, end, pages, r.value)
      ensures r.None? ==> NoRun(View(), start, end, pages)
    {
      hide Bit, Shaped;
      var run, i := 0, start;
      while i < end
        invariant start <= i && (i <= end || i == start) && run < pages && run <= i - start
        invariant forall j: nat :: i - run <= j < i ==> !Used(View(), j)
        invariant run < i - start ==> Used(View(), i - run - 1)
        invariant forall a: nat :: start <= a && a + pages <= i ==> !FreeRun(View(), a, pages)
      {
        if Bit(used[i / WORD_BITS], i % WORD_BITS) {
          assert Used(View(), i);
          run := 0;
        } else {
          run := run + 1;
          if run == pages {
            return Some(i + 1 - pages);
          }
        }
        forall a: nat | start <= a && a + pages == i + 1 ensures !FreeRun(View(), a, pages) {
          assert Used(View(), i - run);
        }
        i := i + 1;
      }
      return None;
    }

    /** Takes the lowest run at or above the hint, or else the lowest one below it. */
    method Allocate(pages: nat) returns (r: Option<nat>)
      requires Valid()
      modifies this, used, boot
      ensures Valid()
      ensures r.None? ==> View() == old(View()) && Exhausted(View(), pages)
      ensures r.Some? ==> Chosen(old(View()), pages, r.value) && Granted(old(View()), View(), r.value, pages)
    {
      hide Shaped, NoRun, IsFirstRun, TakeFrame, FreeRun;
      ghost var before := View();
      ShapedSame(before);
      var count := WORD_BITS * used.Length;
      if pages == 0 || pages > count {
        return None;
      }
      var from := if hint < count then hint else count;
      r := FindFreeRun(from, count, pages);
      if r.None? {
        r := FindFreeRun(0, from, pages);
        if r.None? {
          return;
        }
      }
      var first := r.value;
      RunBounds(before, pages, first);
      for n := 0 to pages
        invariant Valid() && used.Length == |before.used| && View() == TakeFrames(before, first, n)
      {
        TakeOne(first + n);
      }
      hint := (first + pages) % count;
      HintUnread(TakeFrames(before, first, pages), hint);
    }

    /** Gives a run back; releasing a frame twice is a caller's error. */
    method Release(first: nat, pages: nat)
      requires Valid() && first + pages <= FrameCount(View()) && forall j: nat :: first <= j < first + pages ==>
        Used(View(), j)
      modifies this, used
      ensures Valid()
      ensures View() == Released(old(View()), first, pages)
    {
      hide Shaped, SetUsed, Used;
      ghost var before := View();
      for n := 0 to pages
        invariant Valid() && used.Length == |before.used| && View() == FreeFrames(before, first, n)
      {
        MarkUsed(first + n, false);
      }
      FreeKeepsHint(before, first, pages);
      hint := if first < hint then first else hint;
      HintUnread(FreeFrames(before, first, pages), hint);
    }
  }

  lemma RunBounds(f: Frames, pages: nat, first: nat)
    requires Chosen(f, pages, first)
    ensures first + pages <= FrameCount(f)
  {
    hide FreeRun;
  }

  lemma HintUnread(f: Frames, hint: nat)
    requires Shaped(f)
    ensures Shaped(f.(hint := hint))
  {
  }

  lemma {:induction false} FreeKeepsHint(f: Frames, first: nat, n: nat)
    requires first + n <= FrameCount(f)
    ensures FreeFrames(f, first, n).hint == f.hint
  {
    if n > 0 {
      FreeKeepsHint(f, first, n - 1);
    }
  }
}
