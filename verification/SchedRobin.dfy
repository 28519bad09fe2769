/** Round robin as the scheduler does it: the cursor of a group on a CPU remembers the task picked
    last, and the next pick for them starts after it. */
module SchedRobin {
  import opened Octets
  import opened SchedModel
  import opened SchedGroups
  import opened SchedSelect
  import opened SchedOps
  import opened SchedSteps

  // ---------- Cursors ----------

  predicate HasCursor(cursors: seq<Cursor>, group: nat, cpu: nat) {
    CursorOf(cursors, group, cpu) < |cursors|
  }

  /** Every group has a cursor for every CPU. */
  ghost predicate HasCursors(s: Sched) {
    forall i: nat, k: nat :: i < |s.groups| && k < CpuCount(s.current) ==> HasCursor(s.cursors, s.groups[i].id, k)
  }

  lemma {:induction false} CursorOfKeys(a: seq<Cursor>, b: seq<Cursor>, group: nat, cpu: nat)
    requires Keys(a) == Keys(b)
    ensures CursorOf(a, group, cpu) == CursorOf(b, group, cpu)
  {
    if a != [] {
      assert Keys(a)[0] == Keys(b)[0];
      assert Keys(a[1..]) == Keys(a)[1..] == Keys(b)[1..] == Keys(b[1..]);
      CursorOfKeys(a[1..], b[1..], group, cpu);
    }
  }

  lemma {:induction false} CursorFound(cursors: seq<Cursor>, k: nat)
    requires k < |cursors|
    ensures CursorOf(cursors, cursors[k].group, cursors[k].cpu) <= k
  {
    if k > 0 {
      CursorFound(cursors[1..], k - 1);
    }
  }

  /** What keeps the CPUs, the cursors' keys and the group ids keeps a cursor for each. */
  lemma SlotsKeepCursors(s: Sched, r: Sched)
    requires HasCursors(s) && SameSlots(s, r) && SameLinks(s.groups, r.groups)
    ensures HasCursors(r)
  {
    hide CursorOf, Keys;
    forall i: nat, k: nat | i < |r.groups| && k < CpuCount(r.current) ensures HasCursor(r.cursors, r.groups[i].id, k) {
      assert HasCursor(s.cursors, s.groups[i].id, k);
      CursorOfKeys(s.cursors, r.cursors, r.groups[i].id, k);
      KeysLength(s.cursors, r.cursors);
    }
  }

  lemma KeysLength(a: seq<Cursor>, b: seq<Cursor>)
    requires Keys(a) == Keys(b)
    ensures |a| == |b|
  {
    assert |Keys(a)| == |Keys(b)|;
  }

  lemma AppendedCursor(cursors: seq<Cursor>, more: seq<Cursor>, group: nat, cpu: nat)
    requires HasCursor(cursors, group, cpu) || HasCursor(more, group, cpu)
    ensures HasCursor(cursors + more, group, cpu)
  {
    hide CursorOf;
    var all := cursors + more;
    var k := if HasCursor(cursors, group, cpu) then CursorOf(cursors, group, cpu)
             else |cursors| + CursorOf(more, group, cpu);
    assert all[k].group == group && all[k].cpu == cpu;
    CursorFound(all, k);
  }

  lemma NewCursors(id: nat, cpus: nat, k: nat)
    requires k < cpus
    ensures HasCursor(CursorsFor(id, cpus), id, k)
  {
    hide CursorOf;
    assert CursorsFor(id, cpus)[k] == Cursor(id, k, None);
    CursorFound(CursorsFor(id, cpus), k);
  }

  /** A new group gets its cursors with it. */
  lemma EnsureCursors(s: Sched, id: nat, parent: Option<nat>, shares: nat, permille: nat, realtime: bool)
    requires HasCursors(s)
    ensures HasCursors(EnsureGroup(s, id, parent, shares, permille, realtime).0)
  {
    hide CursorOf, GroupOf, LeastRuntime, CursorsFor, HasCursor;
    var r := EnsureGroup(s, id, parent, shares, permille, realtime).0;
    var cpus := CpuCount(s.current);
    forall i: nat, k: nat | i < |r.groups| && k < CpuCount(r.current) ensures HasCursor(r.cursors, r.groups[i].id, k) {
      if i < |s.groups| {
        assert HasCursor(s.cursors, s.groups[i].id, k);
      } else {
        NewCursors(id, cpus, k);
      }
      if |r.groups| > |s.groups| {
        AppendedCursor(s.cursors, CursorsFor(id, cpus), r.groups[i].id, k);
      }
    }
  }

  lemma AdmitCursors(s: Sched, task: Task)
    requires HasCursors(s)
    ensures HasCursors(Admit(s, task).s)
  {
    hide HasCursor, EnsureGroup, CaughtUp, IndexOf, ThreadOf, Cpus, GroupOf;
    var grown := if s.current == [] then s.(current := [None]) else s;
    assert HasCursors(grown);
    EnsureCursors(grown, task.group, None, 1024, 0, true);
    var grouped := GroupFor(grown, task.group).0;
    CaughtUpIds(grouped.groups, task.group);
    SlotsKeepCursors(grouped, grouped.(groups := CaughtUp(grouped.groups, task.group)));
  }

  lemma CaughtUpIds(groups: seq<Group>, group: nat)
    ensures SameLinks(groups, CaughtUp(groups, group))
  {
    hide LeastRuntime, GroupOf;
  }

  // ---------- What a pick remembers ----------

  /** The task picked last for a group on a CPU. */
  function LastOf(cursors: seq<Cursor>, group: nat, cpu: nat): Option<nat> {
    var c := CursorOf(cursors, group, cpu);
    if c < |cursors| then cursors[c].last else None
  }

  /** Remembering moves the one cursor and no other. */
  lemma Remembered(cursors: seq<Cursor>, group: nat, cpu: nat, id: nat, g: nat, c: nat)
    ensures LastOf(Remember(cursors, group, cpu, id), g, c) ==
            if g == group && c == cpu && HasCursor(cursors, group, cpu) then Some(id) else LastOf(cursors, g, c)
  {
    hide CursorOf, Keys;
    CursorOfKeys(cursors, Remember(cursors, group, cpu, id), g, c);
  }

  lemma StartAfter(s: Sched, group: nat, cpu: nat, i: nat)
    requires UniqueTasks(s.tasks) && i < |s.tasks| && LastOf(s.cursors, group, cpu) == Some(s.tasks[i].id)
    ensures StartIndex(s, group, cpu) == Around(i, 1, |s.tasks|)
  {
    hide CursorOf, IndexOf;
    IndexOfAt(s.tasks, i);
  }

  /** Refilling budgets changes nothing that fair selection looks at. */
  lemma {:induction false} ReplenishedTop(s: Sched, cpu: nat, group: nat, n: nat)
    requires n <= |s.tasks|
    ensures MaxFair(s.(tasks := Replenish(s.tasks, s.now)), cpu, group, n) == MaxFair(s, cpu, group, n)
  {
    hide Refilled;
    if n > 0 {
      ReplenishedTop(s, cpu, group, n - 1);
    }
  }

  /** The same tasks, in the same order. */
  ghost predicate SameIds(a: seq<Task>, b: seq<Task>) {
    |a| == |b| && forall i :: 0 <= i < |a| ==> b[i].id == a[i].id
  }

  lemma {:induction false} IdsFirst(a: seq<Task>, b: seq<Task>, id: nat)
    requires SameIds(a, b)
    ensures IndexOf(a, id) == IndexOf(b, id)
  {
    if a != [] && a[0].id != id {
      IdsFirst(a[1..], b[1..], id);
    }
  }

  lemma ReplenishedTurn(s: Sched, cpu: nat, group: nat)
    ensures InGroup(s.(tasks := Replenish(s.tasks, s.now)), cpu, group) == InGroup(s, cpu, group)
  {
    hide Refilled, Scan, MaxFair, IndexOf, CursorOf;
    var filled := s.(tasks := Replenish(s.tasks, s.now));
    ReplenishedTop(s, cpu, group, |s.tasks|);
    var top := MaxFair(s, cpu, group, |s.tasks|);
    if top.Some? {
      assert FairMask(filled, cpu, group, top.value) == FairMask(s, cpu, group, top.value);
    }
    forall id ensures IndexOf(filled.tasks, id) == IndexOf(s.tasks, id) {
      IdsFirst(filled.tasks, s.tasks, id);
    }
  }

  /** The group that a scheduling step on a CPU picks fairly from, if it does. */
  ghost function FairChoice(s: Sched, rank: seq<nat>, cpu: nat): Option<nat>
    requires Ranked(s.groups, rank)
  {
    var filled := s.(tasks := Replenish(s.tasks, s.now));
    var g := LeastRun(filled, rank, cpu);
    if Earliest(filled, cpu).Some? || g.None? then None else Some(s.groups[g.value].id)
  }

  /** A scheduling step moves the cursor of the chosen group on this CPU to the task whose turn it
      is there and runs that task, and moves no other cursor; without a fair choice it moves none. */
  lemma ScheduleTakesTurn(s: Sched, rank: seq<nat>, cpu: nat, g: nat, c: nat)
    requires Sane(s.groups, rank) && cpu < |s.current|
    ensures var r := ScheduleNext(s, rank, cpu); var choice := FairChoice(s, rank, cpu);
      && (choice.Some? ==>
            && InGroup(s, cpu, choice.value).Some?
            && r.current[cpu] == Some(s.tasks[InGroup(s, cpu, choice.value).value].id))
      && LastOf(r.cursors, g, c) ==
         if choice == Some(g) && c == cpu && HasCursor(s.cursors, g, cpu) then r.current[cpu]
         else LastOf(s.cursors, g, c)
  {
    hide Earliest, LeastRun, InGroup, LastOf, HasCursor, Remember, GroupReady, IsTop, FairReady;
    var filled := s.(tasks := Replenish(s.tasks, s.now));
    PickIs(filled, rank, cpu);
    var choice := FairChoice(s, rank, cpu);
    if choice.Some? {
      ReplenishedTurn(s, cpu, choice.value);
      var i := InGroup(filled, cpu, choice.value);
      Remembered(s.cursors, choice.value, cpu, filled.tasks[i.value].id, g, c);
    }
  }

  // ---------- Turns ----------

  /** The tasks of a group that are ready on a CPU at its highest priority. */
  function Candidates(s: Sched, cpu: nat, group: nat): (r: seq<bool>)
    ensures |r| == |s.tasks|
  {
    var top := MaxFair(s, cpu, group, |s.tasks|);
    if top.None? then seq(|s.tasks|, _ => false) else FairMask(s, cpu, group, top.value)
  }

  /** Their ids, in the order of the tasks. */
  function CandidateIds(s: Sched, cpu: nat, group: nat): seq<nat> {
    var places := Places(Candidates(s, cpu, group), |s.tasks|);
    seq(|places|, k requires 0 <= k < |places| => s.tasks[places[k]].id)
  }

  lemma IdsAre(s: Sched, cpu: nat, group: nat, places: seq<nat>)
    requires places == Places(Candidates(s, cpu, group), |s.tasks|)
    ensures var ids := CandidateIds(s, cpu, group);
      |ids| == |places| && forall k :: 0 <= k < |ids| ==> ids[k] == s.tasks[places[k]].id
  {
    hide Candidates, Places;
  }

  lemma IdsDistinct(s: Sched, cpu: nat, group: nat)
    requires UniqueTasks(s.tasks)
    ensures Distinct(CandidateIds(s, cpu, group))
  {
    hide Candidates, Places, CandidateIds;
    IdsAre(s, cpu, group, Places(Candidates(s, cpu, group), |s.tasks|));
  }

  /** The group has the same candidates, in the same order. Other tasks may come and go. */
  ghost predicate Alike(s: Sched, r: Sched, cpu: nat, group: nat) {
    CandidateIds(r, cpu, group) == CandidateIds(s, cpu, group)
  }

  /** The moments at which a CPU picks from a group: the candidates are the same, and the cursor still
      holds what was picked the time before. */
  ghost predicate Rounds(moments: seq<Sched>, cpu: nat, group: nat) {
    && |moments| > 0
    && (forall j :: 0 <= j < |moments| ==> UniqueTasks(moments[j].tasks) && Alike(moments[0], moments[j], cpu, group))
    && (forall j :: 0 <= j < |moments| - 1 ==> Next(moments[j], moments[j + 1], cpu, group))
  }

  ghost predicate Next(s: Sched, r: Sched, cpu: nat, group: nat) {
    var i := InGroup(s, cpu, group);
    i.Some? ==> LastOf(r.cursors, group, cpu) == Some(s.tasks[i.value].id)
  }

  /** The id of the task whose turn it is. */
  function Turn(s: Sched, cpu: nat, group: nat): Option<nat> {
    var i := InGroup(s, cpu, group);
    if i.Some? then Some(s.tasks[i.value].id) else None
  }

  /** The ids picked at those moments. */
  function Picked(moments: seq<Sched>, cpu: nat, group: nat): seq<nat> {
    if moments == [] then []
    else
      var turn := Turn(moments[0], cpu, group);
      (if turn.Some? then [turn.value] else []) + Picked(moments[1..], cpu, group)
  }

  lemma TurnIsScan(s: Sched, cpu: nat, group: nat)
    requires |s.tasks| > 0
    ensures InGroup(s, cpu, group) == Scan(Candidates(s, cpu, group), StartIndex(s, group, cpu), 0)
  {
    hide Scan, MaxFair, StartIndex;
    if MaxFair(s, cpu, group, |s.tasks|).None? {
      NothingFound(|s.tasks|, StartIndex(s, group, cpu));
    }
  }

  lemma NothingFound(n: nat, start: nat)
    requires start < n
    ensures Scan(seq(n, _ => false), start, 0) == None
  {
    hide Scan;
  }

  /** Wherever the cursor is, some candidate is picked. */
  lemma FirstPick(s: Sched, cpu: nat, group: nat) returns (first: nat)
    requires CandidateIds(s, cpu, group) != []
    ensures first < |CandidateIds(s, cpu, group)|
    ensures Turn(s, cpu, group) == Some(CandidateIds(s, cpu, group)[first])
  {
    hide InGroup, Candidates, CandidateIds, StartIndex, Scan, Places;
    var candidates := Candidates(s, cpu, group);
    var places := Places(candidates, |s.tasks|);
    IdsAre(s, cpu, group, places);
    TurnIsScan(s, cpu, group);
    ScanFinds(candidates, StartIndex(s, group, cpu), places[0]);
    var i := InGroup(s, cpu, group).value;
    first :| 0 <= first < |places| && places[first] == i;
  }

  /** After a candidate the next one in order is picked, and after the last the first. */
  lemma NextPick(s: Sched, cpu: nat, group: nat, i: nat)
    requires UniqueTasks(s.tasks) && i < |CandidateIds(s, cpu, group)|
    requires LastOf(s.cursors, group, cpu) == Some(CandidateIds(s, cpu, group)[i])
    ensures var ids := CandidateIds(s, cpu, group); Turn(s, cpu, group) == Some(ids[Around(i, 1, |ids|)])
  {
    hide InGroup, Candidates, CandidateIds, StartIndex, Scan, Places, UniqueTasks, LastOf;
    var places := Places(Candidates(s, cpu, group), |s.tasks|);
    IdsAre(s, cpu, group, places);
    TurnIsScan(s, cpu, group);
    StartAfter(s, group, cpu, places[i]);
    ScanNext(Candidates(s, cpu, group), places, i);
  }

  lemma RoundsAt(moments: seq<Sched>, cpu: nat, group: nat, j: nat)
    requires Rounds(moments, cpu, group) && j < |moments|
    ensures UniqueTasks(moments[j].tasks)
    ensures CandidateIds(moments[j], cpu, group) == CandidateIds(moments[0], cpu, group)
    ensures j > 0 ==> Next(moments[j - 1], moments[j], cpu, group)
  {
    hide UniqueTasks, CandidateIds, Next;
    assert Alike(moments[0], moments[j], cpu, group);
    assert j > 0 ==> Next(moments[j - 1], moments[j - 1 + 1], cpu, group);
  }

  lemma NextRemembers(s: Sched, r: Sched, cpu: nat, group: nat, id: nat)
    requires Next(s, r, cpu, group) && Turn(s, cpu, group) == Some(id)
    ensures LastOf(r.cursors, group, cpu) == Some(id)
  {
    hide InGroup, LastOf;
  }

  lemma PickAfter(moments: seq<Sched>, cpu: nat, group: nat, j: nat, i: nat)
    requires Rounds(moments, cpu, group) && 0 < j < |moments| && i < |CandidateIds(moments[0], cpu, group)|
    requires Turn(moments[j - 1], cpu, group) == Some(CandidateIds(moments[0], cpu, group)[i])
    ensures var ids := CandidateIds(moments[0], cpu, group);
      Turn(moments[j], cpu, group) == Some(ids[Around(i, 1, |ids|)])
  {
    hide Rounds, Turn, CandidateIds, LastOf, UniqueTasks, Next;
    RoundsAt(moments, cpu, group, j);
    NextRemembers(moments[j - 1], moments[j], cpu, group, CandidateIds(moments[0], cpu, group)[i]);
    NextPick(moments[j], cpu, group, i);
  }

  lemma {:induction false} PickAt(moments: seq<Sched>, cpu: nat, group: nat, first: nat, j: nat)
    requires Rounds(moments, cpu, group) && j < |moments| && first < |CandidateIds(moments[0], cpu, group)|
    requires Turn(moments[0], cpu, group) == Some(CandidateIds(moments[0], cpu, group)[first])
    ensures var ids := CandidateIds(moments[0], cpu, group);
      Turn(moments[j], cpu, group) == Some(ids[Turned(first, j, |ids|)])
  {
    hide Rounds, Turn, Turned, CandidateIds, UniqueTasks, Next, Around;
    var n := |CandidateIds(moments[0], cpu, group)|;
    TurnedNext(first, if j == 0 then 0 else j - 1, n);
    if j > 0 {
      PickAt(moments, cpu, group, first, j - 1);
      PickAfter(moments, cpu, group, j, Turned(first, j - 1, n));
    }
  }

  lemma {:induction false} PickedIs(moments: seq<Sched>, cpu: nat, group: nat, j: nat)
    requires j < |moments| && forall k :: 0 <= k < |moments| ==> Turn(moments[k], cpu, group).Some?
    ensures |Picked(moments, cpu, group)| == |moments|
    ensures Turn(moments[j], cpu, group) == Some(Picked(moments, cpu, group)[j])
    decreases |moments|
  {
    hide Turn;
    if |moments| == 1 {
      assert moments[1..] == [];
    } else {
      PickedIs(moments[1..], cpu, group, if j == 0 then 0 else j - 1);
    }
  }

  /** However many picks there are, they go round the candidates in the order of the tasks. */
  lemma PickedAre(moments: seq<Sched>, cpu: nat, group: nat) returns (first: nat)
    requires Rounds(moments, cpu, group) && CandidateIds(moments[0], cpu, group) != []
    ensures |Picked(moments, cpu, group)| == |moments|
    ensures Rotates(Picked(moments, cpu, group), CandidateIds(moments[0], cpu, group), first)
  {
    hide Turn, Turned, CandidateIds, Picked, UniqueTasks, Next, Alike;
    var ids := CandidateIds(moments[0], cpu, group);
    first := FirstPick(moments[0], cpu, group);
    forall j | 0 <= j < |moments| ensures Turn(moments[j], cpu, group) == Some(ids[Turned(first, j, |ids|)]) {
      PickAt(moments, cpu, group, first, j);
    }
    PickedIs(moments, cpu, group, 0);
    var picked := Picked(moments, cpu, group);
    forall j | 0 <= j < |picked| ensures picked[j] == ids[Turned(first, j, |ids|)] {
      PickedIs(moments, cpu, group, j);
    }
  }

  /** Round robin: as long as its candidates stay the same, a group's k consecutive picks on a CPU, k
      being the number of candidates, choose each of them exactly once, wherever the cursor was. */
  lemma RoundRobinHolds(moments: seq<Sched>, cpu: nat, group: nat)
    requires Rounds(moments, cpu, group) && |moments| == |CandidateIds(moments[0], cpu, group)|
    ensures var picked := Picked(moments, cpu, group);
      && |picked| == |moments| && Distinct(picked)
      && forall id :: id in picked <==> id in CandidateIds(moments[0], cpu, group)
  {
    hide Picked, CandidateIds, UniqueTasks, Next, Alike, Rotates, Distinct;
    var first := PickedAre(moments, cpu, group);
    assert UniqueTasks(moments[0].tasks);
    IdsDistinct(moments[0], cpu, group);
    RotationCovers(Picked(moments, cpu, group), CandidateIds(moments[0], cpu, group), first);
  }

  /** A fair step for a group that has a cursor is what the next moment needs to be preceded by. */
  lemma ScheduleIsNext(s: Sched, rank: seq<nat>, cpu: nat, group: nat, later: Sched)
    requires Sane(s.groups, rank) && cpu < |s.current| && FairChoice(s, rank, cpu) == Some(group)
    requires HasCursor(s.cursors, group, cpu)
    requires LastOf(later.cursors, group, cpu) == LastOf(ScheduleNext(s, rank, cpu).cursors, group, cpu)
    ensures Next(s, later, cpu, group)
  {
    hide ScheduleNext, LastOf, HasCursor, InGroup, FairChoice, Sane;
    ScheduleTakesTurn(s, rank, cpu, group, cpu);
  }

  /** One pick, remembered, and nothing else. */
  function Taken(s: Sched, cpu: nat, group: nat): Sched {
    var i := InGroup(s, cpu, group);
    if i.None? then s else s.(cursors := Remember(s.cursors, group, cpu, s.tasks[i.value].id))
  }

  function Moments(s: Sched, cpu: nat, group: nat, m: nat): (r: seq<Sched>)
    ensures |r| == m && (m > 0 ==> r[0] == s)
    decreases m
  {
    if m == 0 then [] else [s] + Moments(Taken(s, cpu, group), cpu, group, m - 1)
  }

  lemma TakenAlike(s: Sched, cursors: seq<Cursor>, cpu: nat, group: nat)
    ensures Alike(s, s.(cursors := cursors), cpu, group)
  {
    hide FairReady, Places;
    SameTop(s, cursors, cpu, group, |s.tasks|);
    var r := s.(cursors := cursors);
    var top := MaxFair(s, cpu, group, |s.tasks|);
    if top.Some? {
      assert forall i :: 0 <= i < |s.tasks| ==>
        FairReady(r, i, cpu, group) == FairReady(s, i, cpu, group) by { SameReady(s, cursors, cpu, group); }
      assert FairMask(r, cpu, group, top.value) == FairMask(s, cpu, group, top.value);
    }
    assert Candidates(r, cpu, group) == Candidates(s, cpu, group);
  }

  lemma SameReady(s: Sched, cursors: seq<Cursor>, cpu: nat, group: nat)
    ensures forall i :: 0 <= i < |s.tasks| ==>
      FairReady(s.(cursors := cursors), i, cpu, group) == FairReady(s, i, cpu, group)
  {
  }

  lemma {:induction false} SameTop(s: Sched, cursors: seq<Cursor>, cpu: nat, group: nat, n: nat)
    requires n <= |s.tasks|
    ensures MaxFair(s.(cursors := cursors), cpu, group, n) == MaxFair(s, cpu, group, n)
  {
    hide FairReady;
    SameReady(s, cursors, cpu, group);
    if n > 0 {
      SameTop(s, cursors, cpu, group, n - 1);
    }
  }

  lemma {:induction false} MomentsAre(s: Sched, cpu: nat, group: nat, m: nat, j: nat)
    requires j < m && HasCursor(s.cursors, group, cpu)
    ensures var t := Moments(s, cpu, group, m)[j];
      && t == s.(cursors := t.cursors) && HasCursor(t.cursors, group, cpu)
      && (j + 1 < m ==> Moments(s, cpu, group, m)[j + 1] == Taken(t, cpu, group))
    decreases j
  {
    hide InGroup, CursorOf, Keys;
    var next := Taken(s, cpu, group);
    CursorOfKeys(s.cursors, next.cursors, group, cpu);
    KeysLength(s.cursors, next.cursors);
    if j > 0 {
      MomentsAre(next, cpu, group, m - 1, j - 1);
    }
  }

  lemma TakenIsNext(s: Sched, cpu: nat, group: nat)
    requires HasCursor(s.cursors, group, cpu)
    ensures Next(s, Taken(s, cpu, group), cpu, group)
  {
    hide InGroup, LastOf, HasCursor, Remember;
    var i := InGroup(s, cpu, group);
    if i.Some? {
      Remembered(s.cursors, group, cpu, s.tasks[i.value].id, group, cpu);
    }
  }

  lemma MomentsRound(s: Sched, cpu: nat, group: nat, m: nat)
    requires UniqueTasks(s.tasks) && HasCursor(s.cursors, group, cpu) && m > 0
    ensures Rounds(Moments(s, cpu, group, m), cpu, group)
  {
    hide Taken, HasCursor, Next, Alike, Moments, UniqueTasks;
    var all := Moments(s, cpu, group, m);
    forall j | 0 <= j < m ensures UniqueTasks(all[j].tasks) && Alike(all[0], all[j], cpu, group) {
      MomentsAre(s, cpu, group, m, j);
      TakenAlike(s, all[j].cursors, cpu, group);
    }
    forall j | 0 <= j < m - 1 ensures Next(all[j], all[j + 1], cpu, group) {
      MomentsAre(s, cpu, group, m, j);
      TakenIsNext(all[j], cpu, group);
    }
  }

  /** Picks that follow each other directly go round the candidates. */
  lemma TurnsGoRound(s: Sched, cpu: nat, group: nat)
    requires UniqueTasks(s.tasks) && HasCursor(s.cursors, group, cpu)
    ensures var ids := CandidateIds(s, cpu, group); var picked := Picked(Moments(s, cpu, group, |ids|), cpu, group);
      |picked| == |ids| && Distinct(picked) && forall id :: id in picked <==> id in ids
  {
    hide Moments, Picked, CandidateIds, UniqueTasks, HasCursor, Rounds;
    var ids := CandidateIds(s, cpu, group);
    if ids == [] {
      NoneMoments(s, cpu, group);
    } else {
      MomentsRound(s, cpu, group, |ids|);
      RoundRobinHolds(Moments(s, cpu, group, |ids|), cpu, group);
    }
  }

  lemma NoneMoments(s: Sched, cpu: nat, group: nat)
    ensures Picked(Moments(s, cpu, group, 0), cpu, group) == []
  {
  }

  /** Without a cursor nothing is remembered, and the same task is picked again. */
  lemma WithoutCursor(s: Sched, cpu: nat, group: nat)
    requires !HasCursor(s.cursors, group, cpu)
    ensures InGroup(Taken(s, cpu, group), cpu, group) == InGroup(s, cpu, group)
  {
    hide InGroup, CursorOf, Keys;
  }
}
