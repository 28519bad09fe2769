/** How the next task for a CPU is chosen: the earliest deadline with budget, else the fair
    group that ran least, its highest ready priority, and round robin within that. */
module SchedSelect {
  import opened Arithmetic
  import opened Bits
  import opened Octets
  import opened SchedModel
  import opened SchedGroups

  // ---------- Priority bitmaps ----------

  /** One bit for each of 256 priorities, in four words. */
  type Bitmap = s: seq<nat> | |s| == 4 witness [0, 0, 0, 0]

  predicate Marked(bitmap: Bitmap, priority: Byte) {
    Bit(bitmap[priority / 64], priority % 64)
  }

  /** Every word fits in 64 bits. */
  ghost predicate Narrow(bitmap: Bitmap) {
    forall w, j :: 0 <= w < 4 && Bit(bitmap[w], j) ==> j < 64
  }

  function Mark(bitmap: Bitmap, priority: Byte): Bitmap {
    bitmap[priority / 64 := OrBit(bitmap[priority / 64], priority % 64)]
  }

  lemma MarkSets(bitmap: Bitmap, p: Byte, q: Byte)
    requires Narrow(bitmap)
    ensures Narrow(Mark(bitmap, p)) && (Marked(Mark(bitmap, p), q) <==> q == p || Marked(bitmap, q))
  {
    hide Bit, OrBit;
    forall w, j | 0 <= w < 4 && Bit(Mark(bitmap, p)[w], j) ensures j < 64 {
      OrBitSets(bitmap[p / 64], p % 64, j);
    }
    OrBitSets(bitmap[p / 64], p % 64, q % 64);
  }

  /** The scan from the top word finds the highest marked priority. */
  method HighestReady(bitmap: Bitmap) returns (r: Option<Byte>)
    requires Narrow(bitmap)
    ensures r.None? ==> forall p: Byte :: !Marked(bitmap, p)
    ensures r.Some? ==> Marked(bitmap, r.value) && forall p: Byte :: Marked(bitmap, p) ==> p <= r.value
  {
    hide Bit, TopBit;
    var word := 4;
    while word > 0
      invariant 0 <= word <= 4
      invariant forall k :: word <= k < 4 ==> bitmap[k] == 0
    {
      word := word - 1;
      if bitmap[word] != 0 {
        var bit := TopBit(bitmap[word]);
        TopBitIs(bitmap[word], 0);
        assert bit < 64;
        forall p: Byte | Marked(bitmap, p) ensures p <= word * 64 + bit {
          TopBitIs(bitmap[word], p % 64);
          if bitmap[p / 64] == 0 {
            ZeroHasNoBits(p % 64);
          }
        }
        return Some(word * 64 + bit);
      }
    }
    forall p: Byte ensures !Marked(bitmap, p) {
      ZeroHasNoBits(p % 64);
    }
    return None;
  }

  // ---------- First least ----------

  /** The first position, among the first `n` that are ready, whose key is least. */
  function FirstLeast(ready: seq<bool>, key: seq<nat>, n: nat): (r: Option<nat>)
    requires |ready| == |key| && n <= |ready|
    ensures r.None? <==> forall i :: 0 <= i < n ==> !ready[i]
    ensures r.Some? ==> r.value < n && ready[r.value]
    ensures r.Some? ==> forall i :: 0 <= i < n && ready[i] ==>
      if i < r.value then key[r.value] < key[i] else key[r.value] <= key[i]
  {
    if n == 0 then None
    else
      var before := FirstLeast(ready, key, n - 1);
      if !ready[n - 1] then before
      else if before.None? || key[n - 1] < key[before.value] then Some(n - 1)
      else before
  }

  lemma FirstLeastNext(ready: seq<bool>, key: seq<nat>, n: nat)
    requires |ready| == |key| && 0 < n <= |ready|
    ensures var before := FirstLeast(ready, key, n - 1);
      FirstLeast(ready, key, n) ==
        if ready[n - 1] && (before.None? || key[n - 1] < key[before.value]) then Some(n - 1) else before
  {
  }

  // ---------- Earliest deadline ----------

  predicate DeadlineReady(s: Sched, i: nat, cpu: nat)
    requires i < |s.tasks|
  {
    Eligible(s, i, cpu) && s.tasks[i].deadline.Some? && s.tasks[i].deadline.value.remaining > 0
  }

  function DeadlineMask(s: Sched, cpu: nat): (r: seq<bool>)
    ensures |r| == |s.tasks| && forall i :: 0 <= i < |r| ==> r[i] == DeadlineReady(s, i, cpu)
  {
    seq(|s.tasks|, i requires 0 <= i < |s.tasks| => DeadlineReady(s, i, cpu))
  }

  function DeadlineKeys(tasks: seq<Task>): (r: seq<nat>)
    ensures |r| == |tasks| && forall i :: 0 <= i < |r| && tasks[i].deadline.Some? ==>
      r[i] == tasks[i].deadline.value.absolute
  {
    seq(|tasks|, i requires 0 <= i < |tasks| => if tasks[i].deadline.Some? then tasks[i].deadline.value.absolute else 0)
  }

  function Earliest(s: Sched, cpu: nat): Option<nat> {
    FirstLeast(DeadlineMask(s, cpu), DeadlineKeys(s.tasks), |s.tasks|)
  }

  /** The chosen task has the earliest absolute deadline of all that are ready with budget left;
      among equals it comes first; and there is none only when no such task is ready. */
  lemma EarliestIs(s: Sched, cpu: nat)
    ensures var r := Earliest(s, cpu);
      && (r.None? <==> forall i :: 0 <= i < |s.tasks| ==> !DeadlineReady(s, i, cpu))
      && (r.Some? ==> r.value < |s.tasks| && DeadlineReady(s, r.value, cpu)
                      && forall i :: 0 <= i < |s.tasks| && DeadlineReady(s, i, cpu) ==>
                           var chosen, other := s.tasks[r.value].deadline.value, s.tasks[i].deadline.value;
                           if i < r.value then chosen.absolute < other.absolute else chosen.absolute <= other.absolute)
  {
    hide Eligible, FirstLeast;
    var mask := DeadlineMask(s, cpu);
    assert forall i :: 0 <= i < |s.tasks| ==> mask[i] == DeadlineReady(s, i, cpu);
  }

  // ---------- Fair groups ----------

  predicate FairReady(s: Sched, i: nat, cpu: nat, group: nat)
    requires i < |s.tasks|
  {
    Eligible(s, i, cpu) && s.tasks[i].deadline.None? && s.tasks[i].group == group
  }

  predicate WithinQuota(g: Group) {
    g.permille == 0 || g.used < SatMul(WINDOW_NS, g.permille) / 1000
  }

  /** A group and all its ancestors have quota left, and the walk ends at a root. */
  ghost predicate HasQuota(groups: seq<Group>, rank: seq<nat>, i: nat)
    requires Ranked(groups, rank) && i < |groups|
    decreases rank[i]
  {
    && WithinQuota(groups[i])
    && (groups[i].parent.None? || (Parent(groups, i) < |groups| && HasQuota(groups, rank, Parent(groups, i))))
  }

  lemma {:induction false} QuotaIsPath(groups: seq<Group>, rank: seq<nat>, i: nat)
    requires Ranked(groups, rank) && i < |groups| && ParentsExist(groups)
    ensures HasQuota(groups, rank, i) <==> forall j :: j in Path(groups, rank, i) ==> WithinQuota(groups[j])
    decreases rank[i]
  {
    hide WithinQuota;
    if Parent(groups, i) < |groups| {
      QuotaIsPath(groups, rank, Parent(groups, i));
    }
  }

  predicate AnyFair(s: Sched, cpu: nat, group: nat) {
    exists i :: 0 <= i < |s.tasks| && FairReady(s, i, cpu, group)
  }

  ghost predicate GroupReady(s: Sched, rank: seq<nat>, g: nat, cpu: nat)
    requires Ranked(s.groups, rank) && g < |s.groups|
  {
    HasQuota(s.groups, rank, g) && AnyFair(s, cpu, s.groups[g].id)
  }

  ghost function GroupMask(s: Sched, rank: seq<nat>, cpu: nat): (r: seq<bool>)
    requires Ranked(s.groups, rank)
    ensures |r| == |s.groups| && forall g :: 0 <= g < |r| ==> r[g] == GroupReady(s, rank, g, cpu)
  {
    seq(|s.groups|, g requires 0 <= g < |s.groups| => GroupReady(s, rank, g, cpu))
  }

  function Runtimes(groups: seq<Group>): (r: seq<nat>)
    ensures |r| == |groups| && forall g :: 0 <= g < |r| ==> r[g] == groups[g].vruntime
  {
    seq(|groups|, g requires 0 <= g < |groups| => groups[g].vruntime)
  }

  ghost function LeastRun(s: Sched, rank: seq<nat>, cpu: nat): Option<nat>
    requires Ranked(s.groups, rank)
  {
    FirstLeast(GroupMask(s, rank, cpu), Runtimes(s.groups), |s.groups|)
  }

  /** The chosen group has the least virtual runtime of all that have quota and a fair task ready;
      among equals it comes first; and there is none only when no group is eligible. */
  lemma LeastRunIs(s: Sched, rank: seq<nat>, cpu: nat)
    requires Ranked(s.groups, rank)
    ensures var r := LeastRun(s, rank, cpu);
      && (r.None? <==> forall g :: 0 <= g < |s.groups| ==> !GroupReady(s, rank, g, cpu))
      && (r.Some? ==> r.value < |s.groups| && GroupReady(s, rank, r.value, cpu)
                      && forall g :: 0 <= g < |s.groups| && GroupReady(s, rank, g, cpu) ==>
                           if g < r.value then s.groups[r.value].vruntime < s.groups[g].vruntime
                           else s.groups[r.value].vruntime <= s.groups[g].vruntime)
  {
    hide GroupReady, FirstLeast;
    var mask := GroupMask(s, rank, cpu);
    assert forall g :: 0 <= g < |s.groups| ==> mask[g] == GroupReady(s, rank, g, cpu);
  }

  // ---------- The highest priority of a group ----------

  /** The bitmap of the priorities at which the group's fair tasks are ready. */
  ghost predicate BitmapOf(s: Sched, cpu: nat, group: nat, n: nat, bitmap: Bitmap)
    requires n <= |s.tasks|
  {
    && Narrow(bitmap)
    && forall p: Byte :: Marked(bitmap, p) <==> ReadyAt(s, cpu, group, n, p)
  }

  ghost predicate ReadyAt(s: Sched, cpu: nat, group: nat, n: nat, p: Byte)
    requires n <= |s.tasks|
  {
    exists i :: 0 <= i < n && FairReady(s, i, cpu, group) && s.tasks[i].effective == p
  }

  lemma ReadyAtNext(s: Sched, cpu: nat, group: nat, n: nat, p: Byte)
    requires n < |s.tasks|
    ensures ReadyAt(s, cpu, group, n + 1, p) <==>
      ReadyAt(s, cpu, group, n, p) || (FairReady(s, n, cpu, group) && s.tasks[n].effective == p)
  {
    hide FairReady;
  }

  method FairBitmap(s: Sched, cpu: nat, group: nat) returns (bitmap: Bitmap)
    ensures BitmapOf(s, cpu, group, |s.tasks|, bitmap)
  {
    hide FairReady, Marked, Narrow, Mark, ReadyAt, BitmapOf;
    bitmap := [0, 0, 0, 0];
    EmptyBitmap(s, cpu, group);
    for n := 0 to |s.tasks|
      invariant BitmapOf(s, cpu, group, n, bitmap)
    {
      BitmapNext(s, cpu, group, n, bitmap);
      if FairReady(s, n, cpu, group) {
        bitmap := Mark(bitmap, s.tasks[n].effective);
      }
    }
  }

  lemma BitmapNext(s: Sched, cpu: nat, group: nat, n: nat, bitmap: Bitmap)
    requires n < |s.tasks| && BitmapOf(s, cpu, group, n, bitmap)
    ensures BitmapOf(s, cpu, group, n + 1, if FairReady(s, n, cpu, group) then Mark(bitmap, s.tasks[n].effective)
                                           else bitmap)
  {
    hide FairReady, Marked, Narrow, Mark, ReadyAt;
    var q := s.tasks[n].effective;
    MarkSets(bitmap, q, q);
    forall p: Byte
      ensures ReadyAt(s, cpu, group, n + 1, p) <==>
        ReadyAt(s, cpu, group, n, p) || (FairReady(s, n, cpu, group) && q == p)
      ensures Marked(Mark(bitmap, q), p) <==> p == q || Marked(bitmap, p)
    {
      ReadyAtNext(s, cpu, group, n, p);
      MarkSets(bitmap, q, p);
    }
  }

  lemma EmptyBitmap(s: Sched, cpu: nat, group: nat)
    ensures BitmapOf(s, cpu, group, 0, [0, 0, 0, 0])
  {
    hide Bit;
    forall j ensures !Bit(0, j) {
      ZeroHasNoBits(j);
    }
  }

  /** The highest effective priority among the group's ready fair tasks. */
  ghost predicate IsTop(s: Sched, cpu: nat, group: nat, priority: Byte) {
    && (exists i :: 0 <= i < |s.tasks| && FairReady(s, i, cpu, group) && s.tasks[i].effective == priority)
    && (forall i :: 0 <= i < |s.tasks| && FairReady(s, i, cpu, group) ==> s.tasks[i].effective <= priority)
  }

  /** The maximum, by definition. */
  function MaxFair(s: Sched, cpu: nat, group: nat, n: nat): Option<Byte>
    requires n <= |s.tasks|
  {
    if n == 0 then None
    else
      var before := MaxFair(s, cpu, group, n - 1);
      if FairReady(s, n - 1, cpu, group) && (before.None? || before.value < s.tasks[n - 1].effective) then
        Some(s.tasks[n - 1].effective)
      else before
  }

  lemma {:induction false} MaxFairIs(s: Sched, cpu: nat, group: nat, n: nat)
    requires n <= |s.tasks|
    ensures var m := MaxFair(s, cpu, group, n);
      && (forall i :: 0 <= i < n && FairReady(s, i, cpu, group) ==> m.Some? && s.tasks[i].effective <= m.value)
      && (m.Some? ==> ReadyAt(s, cpu, group, n, m.value))
  {
    hide FairReady;
    if n > 0 {
      MaxFairIs(s, cpu, group, n - 1);
    }
  }

  /** Building the bitmap and scanning it gives the maximum. */
  method TopPriority(s: Sched, cpu: nat, group: nat) returns (r: Option<Byte>)
    ensures r == MaxFair(s, cpu, group, |s.tasks|)
    ensures r.None? <==> !AnyFair(s, cpu, group)
    ensures r.Some? ==> IsTop(s, cpu, group, r.value)
  {
    hide FairReady, Marked, Narrow;
    var bitmap := FairBitmap(s, cpu, group);
    r := HighestReady(bitmap);
    forall i | 0 <= i < |s.tasks| && FairReady(s, i, cpu, group) ensures r.Some? && s.tasks[i].effective <= r.value {
      assert ReadyAt(s, cpu, group, |s.tasks|, s.tasks[i].effective);
    }
    if r.Some? {
      assert ReadyAt(s, cpu, group, |s.tasks|, r.value);
    }
    MaxFairIs(s, cpu, group, |s.tasks|);
  }

  // ---------- Round robin ----------

  /** The position `k` steps after `start` in a ring of `n`. */
  function Around(start: nat, k: nat, n: nat): (r: nat)
    requires start < n && k <= n
    ensures r < n
  {
    if start + k < n then start + k else start + k - n
  }

  lemma AroundIsMod(start: nat, k: nat, n: nat)
    requires start < n && k <= n
    ensures (start + k) % n == Around(start, k, n)
  {
    DivModUnique(start + k, n, if start + k < n then 0 else 1, Around(start, k, n));
  }

  /** The first candidate at or after `start + offset`, going once around. */
  function Scan(candidates: seq<bool>, start: nat, offset: nat): (r: Option<nat>)
    requires start < |candidates| && offset <= |candidates|
    ensures r.Some? ==> r.value < |candidates| && candidates[r.value]
    decreases |candidates| - offset
  {
    if offset == |candidates| then None
    else
      var index := Around(start, offset, |candidates|);
      if candidates[index] then Some(index) else Scan(candidates, start, offset + 1)
  }

  lemma {:induction false} ScanMisses(candidates: seq<bool>, start: nat, offset: nat, k: nat)
    requires start < |candidates| && offset <= k < |candidates| && Scan(candidates, start, offset).None?
    ensures !candidates[Around(start, k, |candidates|)]
    decreases k - offset
  {
    if offset < k {
      ScanMisses(candidates, start, offset + 1, k);
    }
  }

  function Apart(start: nat, i: nat, n: nat): (d: nat)
    requires start < n && i < n
    ensures d < n && Around(start, d, n) == i
  {
    if start <= i then i - start else i + n - start
  }

  lemma {:induction false} ScanFirst(candidates: seq<bool>, start: nat, offset: nat, i: nat)
    requires start < |candidates| && offset <= |candidates| && i < |candidates| && candidates[i]
    requires offset <= Apart(start, i, |candidates|) && Scan(candidates, start, offset).Some?
    ensures Apart(start, Scan(candidates, start, offset).value, |candidates|) <= Apart(start, i, |candidates|)
    decreases |candidates| - offset
  {
    if !candidates[Around(start, offset, |candidates|)] {
      ScanFirst(candidates, start, offset + 1, i);
    }
  }

  /** The scan finds a candidate, and none lies nearer after the start. */
  lemma ScanFinds(candidates: seq<bool>, start: nat, i: nat)
    requires start < |candidates| && i < |candidates| && candidates[i]
    ensures var r := Scan(candidates, start, 0);
      r.Some? && Apart(start, r.value, |candidates|) <= Apart(start, i, |candidates|)
  {
    hide Scan;
    if Scan(candidates, start, 0).None? {
      ScanMisses(candidates, start, 0, Apart(start, i, |candidates|));
    }
    ScanFirst(candidates, start, 0, i);
  }

  /** Where the first `n` candidates' marks stand, in order. */
  function Places(candidates: seq<bool>, n: nat): (r: seq<nat>)
    requires n <= |candidates|
    ensures forall k :: 0 <= k < |r| ==> r[k] < n && candidates[r[k]]
    ensures forall k, l :: 0 <= k < l < |r| ==> r[k] < r[l]
    ensures forall i: nat :: i < n && candidates[i] ==> i in r
  {
    if n == 0 then [] else Places(candidates, n - 1) + (if candidates[n - 1] then [n - 1] else [])
  }

  /** Of the places in order, the one after the place just passed is the nearest; after the last, the first. */
  lemma NearestIsNext(places: seq<nat>, n: nat, i: nat, k: nat)
    requires (forall k :: 0 <= k < |places| ==> places[k] < n) && i < |places| && k < |places|
    requires forall k, l :: 0 <= k < l < |places| ==> places[k] < places[l]
    ensures var start, next := Around(places[i], 1, n), Around(i, 1, |places|);
      Apart(start, places[k], n) <= Apart(start, places[next], n) ==> k == next
  {
  }

  /** A scan that starts after a candidate finds the next one in order. */
  lemma ScanNext(candidates: seq<bool>, places: seq<nat>, i: nat)
    requires places == Places(candidates, |candidates|) && i < |places|
    ensures Scan(candidates, Around(places[i], 1, |candidates|), 0) == Some(places[Around(i, 1, |places|)])
  {
    hide Scan, Places;
    var n := |candidates|;
    var start, next := Around(places[i], 1, n), Around(i, 1, |places|);
    ScanFinds(candidates, start, places[next]);
    var found := Scan(candidates, start, 0).value;
    var k :| 0 <= k < |places| && places[k] == found;
    NearestIsNext(places, n, i, k);
  }

  // ---------- Rotations ----------

  ghost predicate Distinct(s: seq<nat>) {
    forall k, l :: 0 <= k < l < |s| ==> s[k] != s[l]
  }

  /** The position after `j` steps around a ring of `n`, however many. */
  function Turned(first: nat, j: nat, n: nat): (r: nat)
    requires first < n
    ensures r < n
  {
    (first + j) % n
  }

  lemma TurnedNext(first: nat, j: nat, n: nat)
    requires first < n
    ensures Turned(first, 0, n) == first && Turned(first, j + 1, n) == Around(Turned(first, j, n), 1, n)
  {
    var q, r := (first + j) / n, (first + j) % n;
    DivModUnique(first, n, 0, first);
    assert first + j == n * q + r;
    if r + 1 < n {
      DivModUnique(first + j + 1, n, q, r + 1);
    } else {
      assert n * (q + 1) == n * q + n;
      DivModUnique(first + j + 1, n, q + 1, 0);
    }
  }

  /** The list goes round `ids`, from the one at `first` on. */
  ghost predicate Rotates(got: seq<nat>, ids: seq<nat>, first: nat) {
    first < |ids| && forall j :: 0 <= j < |got| ==> got[j] == ids[Turned(first, j, |ids|)]
  }

  lemma RotationAt(got: seq<nat>, ids: seq<nat>, first: nat, j: nat)
    requires Rotates(got, ids, first) && j < |got| && |got| <= |ids|
    ensures got[j] == ids[Around(first, j, |ids|)]
  {
    AroundIsMod(first, j, |ids|);
  }

  /** Once around meets every one of them exactly once. */
  lemma RotationCovers(got: seq<nat>, ids: seq<nat>, first: nat)
    requires Rotates(got, ids, first) && |got| == |ids| && Distinct(ids)
    ensures Distinct(got) && forall x :: x in got <==> x in ids
  {
    hide Turned;
    forall j | 0 <= j < |got| ensures got[j] == ids[Around(first, j, |ids|)] {
      RotationAt(got, ids, first, j);
    }
    forall x | x in ids ensures x in got {
      var i :| 0 <= i < |ids| && ids[i] == x;
      assert got[Apart(first, i, |ids|)] == x;
    }
  }
}
