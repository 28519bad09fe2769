/** The scheduler's operations as functions on its state. `rank` witnesses that the group
    hierarchy has no cycle, without which the walks to the root would not end. */
module SchedOps {
  import opened Octets
  import opened SchedModel
  import opened SchedGroups
  import opened SchedSelect

  // ---------- Replenishment ----------

  /** Fills the budget at the last period start that has passed, at most once. */
  function Refilled(b: Budget, now: nat): Budget
    requires 0 < b.profile.period
  {
    var periods := SatSub(now, SatSub(b.absolute, b.profile.deadline)) / b.profile.period;
    if periods == 0 then b
    else b.(absolute := SatAdd(b.absolute, SatMul(periods, b.profile.period)), remaining := b.profile.capacity,
            grants := b.grants + 1)
  }

  function Replenished(t: Task, now: nat): (r: Task)
    ensures r == t.(deadline := r.deadline) && r.deadline.Some? == t.deadline.Some?
  {
    if t.state == Running || t.deadline.None? || t.deadline.value.profile.period == 0 then t
    else t.(deadline := Some(Refilled(t.deadline.value, now)))
  }

  function Replenish(tasks: seq<Task>, now: nat): (r: seq<Task>)
    ensures |r| == |tasks| && forall i :: 0 <= i < |r| ==> r[i] == Replenished(tasks[i], now)
  {
    seq(|tasks|, i requires 0 <= i < |tasks| => Replenished(tasks[i], now))
  }

  // ---------- Dispatch ----------

  function CursorOf(cursors: seq<Cursor>, group: nat, cpu: nat): (i: nat)
    ensures i <= |cursors| && (i < |cursors| ==> cursors[i].group == group && cursors[i].cpu == cpu)
  {
    if cursors == [] || (cursors[0].group == group && cursors[0].cpu == cpu) then 0
    else 1 + CursorOf(cursors[1..], group, cpu)
  }

  /** Where the round robin resumes: after the task picked last, or at the start. */
  function StartIndex(s: Sched, group: nat, cpu: nat): (r: nat)
    ensures |s.tasks| > 0 ==> r < |s.tasks|
  {
    var c := CursorOf(s.cursors, group, cpu);
    if c == |s.cursors| || s.cursors[c].last.None? then 0
    else
      var i := IndexOf(s.tasks, s.cursors[c].last.value);
      if i < |s.tasks| then Around(i, 1, |s.tasks|) else 0
  }

  function FairMask(s: Sched, cpu: nat, group: nat, priority: Byte): (r: seq<bool>)
    ensures |r| == |s.tasks|
    ensures forall i :: 0 <= i < |r| ==> r[i] == (FairReady(s, i, cpu, group) && s.tasks[i].effective == priority)
  {
    seq(|s.tasks|, i requires 0 <= i < |s.tasks| => FairReady(s, i, cpu, group) && s.tasks[i].effective == priority)
  }

  function Remember(cursors: seq<Cursor>, group: nat, cpu: nat, id: nat): (r: seq<Cursor>)
    ensures Keys(r) == Keys(cursors)
  {
    var c := CursorOf(cursors, group, cpu);
    if c < |cursors| then cursors[c := cursors[c].(last := Some(id))] else cursors
  }

  /** The task at the highest priority of a group whose turn it is. */
  function InGroup(s: Sched, cpu: nat, group: nat): (r: Option<nat>)
    ensures r.Some? ==> r.value < |s.tasks| && FairReady(s, r.value, cpu, group)
  {
    var top := MaxFair(s, cpu, group, |s.tasks|);
    if top.None? || |s.tasks| == 0 then None
    else Scan(FairMask(s, cpu, group, top.value), StartIndex(s, group, cpu), 0)
  }

  ghost function PickFair(s: Sched, rank: seq<nat>, cpu: nat): (r: (Option<nat>, seq<Cursor>))
    requires Ranked(s.groups, rank)
    ensures Keys(r.1) == Keys(s.cursors)
  {
    var g := LeastRun(s, rank, cpu);
    if g.None? then (None, s.cursors)
    else
      var group := s.groups[g.value].id;
      var i := InGroup(s, cpu, group);
      if i.None? then (None, s.cursors) else (i, Remember(s.cursors, group, cpu, s.tasks[i.value].id))
  }

  ghost function Pick(s: Sched, rank: seq<nat>, cpu: nat): (r: (Option<nat>, seq<Cursor>))
    requires Ranked(s.groups, rank)
    ensures Keys(r.1) == Keys(s.cursors)
  {
    var i := Earliest(s, cpu);
    if i.Some? then (i, s.cursors) else PickFair(s, rank, cpu)
  }

  function Dispatched(t: Task, cpu: nat, now: nat): Task {
    t.(state := Running, quantum := QUANTUM_TICKS, quantumEnd := SatAdd(now, QUANTUM_NS), cpu := Some(cpu))
  }

  /** Gives a CPU to the task at index `i`, or leaves it idle. */
  function Assign(s: Sched, cpu: nat, i: Option<nat>): (r: Sched)
    requires cpu < |s.current| && (i.Some? ==> i.value < |s.tasks|)
    ensures |r.current| == |s.current| && |r.tasks| == |s.tasks|
  {
    if i.None? then s.(current := s.current[cpu := None])
    else s.(tasks := s.tasks[i.value := Dispatched(s.tasks[i.value], cpu, s.now)],
            current := s.current[cpu := Some(s.tasks[i.value].id)])
  }

  lemma PickEligible(s: Sched, rank: seq<nat>, cpu: nat)
    requires Ranked(s.groups, rank)
    ensures var i := Pick(s, rank, cpu).0; i.Some? ==> i.value < |s.tasks| && Eligible(s, i.value, cpu)
  {
    hide Eligible, LeastRun, InGroup;
    EarliestIs(s, cpu);
  }

  ghost function ScheduleNext(s: Sched, rank: seq<nat>, cpu: nat): (r: Sched)
    requires Sane(s.groups, rank) && cpu < |s.current|
    ensures SameSlots(s, r) && |r.tasks| == |s.tasks| && r.groups == s.groups
    ensures r.threads == s.threads && r.last == s.last && r.now == s.now && r.ticks == s.ticks
  {
    var filled := s.(tasks := Replenish(s.tasks, s.now));
    var picked := Pick(filled, rank, cpu);
    PickEligible(filled, rank, cpu);
    Assign(filled.(cursors := picked.1), cpu, picked.0)
  }

  /** The choice is the earliest deadline with budget left; else the group with the least runtime
      and, in it, a task of the highest ready priority; none only when nothing is eligible. */
  lemma PickIs(s: Sched, rank: seq<nat>, cpu: nat)
    requires Ranked(s.groups, rank)
    ensures var i := Pick(s, rank, cpu).0; var g := LeastRun(s, rank, cpu);
      && (Earliest(s, cpu).Some? ==> i == Earliest(s, cpu))
      && (Earliest(s, cpu).None? && g.Some? ==>
            i.Some? && i.value < |s.tasks| && FairReady(s, i.value, cpu, s.groups[g.value].id)
            && IsTop(s, cpu, s.groups[g.value].id, s.tasks[i.value].effective))
      && (i.None? <==> Earliest(s, cpu).None? && forall k :: 0 <= k < |s.groups| ==> !GroupReady(s, rank, k, cpu))
  {
    hide Earliest, LeastRun, GroupReady, IsTop, FairReady, InGroup;
    LeastRunIs(s, rank, cpu);
    var g := LeastRun(s, rank, cpu);
    if g.Some? {
      assert AnyFair(s, cpu, s.groups[g.value].id) by { GroupHasFair(s, rank, g.value, cpu); }
      InGroupIs(s, cpu, s.groups[g.value].id);
    }
  }

  lemma GroupHasFair(s: Sched, rank: seq<nat>, g: nat, cpu: nat)
    requires Ranked(s.groups, rank) && g < |s.groups| && GroupReady(s, rank, g, cpu)
    ensures AnyFair(s, cpu, s.groups[g].id)
  {
  }

  lemma InGroupIs(s: Sched, cpu: nat, group: nat)
    requires AnyFair(s, cpu, group)
    ensures var i := InGroup(s, cpu, group); i.Some? && IsTop(s, cpu, group, s.tasks[i.value].effective)
  {
    hide FairReady, Scan;
    MaxFairIs(s, cpu, group, |s.tasks|);
    var top := MaxFair(s, cpu, group, |s.tasks|);
    var mask := FairMask(s, cpu, group, top.value);
    var k :| 0 <= k < |s.tasks| && FairReady(s, k, cpu, group) && s.tasks[k].effective == top.value;
    ScanFinds(mask, StartIndex(s, group, cpu), k);
    var i := Scan(mask, StartIndex(s, group, cpu), 0);
    assert mask[i.value];
  }

  // ---------- Shared pieces of the operations ----------

  datatype Out = Out(s: Sched, error: Option<SchedError>)

  function Count(tasks: seq<Task>, group: nat): nat {
    if tasks == [] then 0
    else
      var last := tasks[|tasks| - 1];
      Count(tasks[..|tasks| - 1], group) + (if Runnable(last) && last.group == group then 1 else 0)
  }

  function Capped(n: nat): nat {
    if n > COUNT_LIMIT then COUNT_LIMIT else n
  }

  function Recounted(groups: seq<Group>, tasks: seq<Task>): (r: seq<Group>)
    ensures |r| == |groups|
    ensures forall j :: 0 <= j < |r| ==> r[j] == groups[j].(runnable := Capped(Count(tasks, groups[j].id)))
  {
    seq(|groups|, j requires 0 <= j < |groups| => groups[j].(runnable := Capped(Count(tasks, groups[j].id))))
  }

  ghost function Rebuilt(s: Sched, rank: seq<nat>): (r: Sched)
    requires Sane(s.groups, rank)
    ensures r == s.(groups := r.groups) && Sane(r.groups, rank) && SameLinks(s.groups, r.groups)
    ensures Times(r.groups) == Times(s.groups)
  {
    LinksRanked(s.groups, Recounted(s.groups, s.tasks), rank);
    s.(groups := Recounted(s.groups, s.tasks))
  }

  /** Gives every idle CPU from `cpu` on something to run. */
  ghost function FillIdle(s: Sched, rank: seq<nat>, cpu: nat): (r: Sched)
    requires Sane(s.groups, rank) && cpu <= |s.current|
    ensures SameSlots(s, r) && r.groups == s.groups && r.now == s.now
    decreases |s.current| - cpu
  {
    if cpu == |s.current| then s
    else FillIdle(if s.current[cpu].None? then ScheduleNext(s, rank, cpu) else s, rank, cpu + 1)
  }

  function WithTask(s: Sched, i: nat, t: Task): (r: Sched)
    requires i < |s.tasks|
    ensures |r.tasks| == |s.tasks| && r == s.(tasks := r.tasks)
  {
    s.(tasks := s.tasks[i := t])
  }

  function Vacated(s: Sched, cpu: nat): (r: Sched)
    requires cpu < |s.current|
    ensures |r.current| == |s.current| && r == s.(current := r.current)
  {
    s.(current := s.current[cpu := None])
  }

  /** Charges a group, if it exists, and clamps after a fair charge. */
  ghost function ChargeGroup(s: Sched, rank: seq<nat>, group: nat, fair: bool, elapsed: nat): (r: Sched)
    requires Sane(s.groups, rank)
    ensures r == s.(groups := r.groups) && SameShape(s.groups, r.groups) && Sane(r.groups, rank)
  {
    var g := GroupOf(s.groups, group);
    if g < |s.groups| then
      var c := Charge(g, fair, elapsed, s.now);
      ChargeShape(s.groups, rank, c);
      ShapeRanked(s.groups, ChargeOnce(s.groups, rank, c), rank);
      s.(groups := ChargeOnce(s.groups, rank, c))
    else if fair then
      ClampShape(s.groups);
      ShapeRanked(s.groups, Clamped(s.groups), rank);
      s.(groups := Clamped(s.groups))
    else
      s
  }

  // ---------- Runtime accounting ----------

  function ThreadOf(threads: seq<Thread>, id: nat): (i: nat)
    ensures i <= |threads| && (i < |threads| ==> threads[i].id == id)
  {
    if threads == [] || threads[0].id == id then 0 else 1 + ThreadOf(threads[1..], id)
  }

  function Spent(t: Task, elapsed: nat): (r: Task)
    ensures r == t.(deadline := r.deadline) && r.deadline.Some? == t.deadline.Some?
  {
    if t.deadline.None? then t
    else t.(deadline := Some(t.deadline.value.(remaining := SatSub(t.deadline.value.remaining, elapsed))))
  }

  function SpendOn(s: Sched, cpu: nat, elapsed: nat, spent: nat): (r: Sched)
    requires cpu < |s.current|
    ensures |r.tasks| == |s.tasks| && r == s.(tasks := r.tasks, threads := r.threads)
  {
    if s.current[cpu].None? then s
    else
      var id := s.current[cpu].value;
      var k, i := ThreadOf(s.threads, id), IndexOf(s.tasks, id);
      s.(threads := if k < |s.threads| then s.threads[k := s.threads[k].(time := SatAdd(s.threads[k].time, elapsed))]
                    else s.threads,
         tasks := if i < |s.tasks| then s.tasks[i := Spent(s.tasks[i], spent)] else s.tasks)
  }

  function SpendFrom(s: Sched, cpu: nat, elapsed: nat, spent: nat): (r: Sched)
    requires cpu <= |s.current|
    ensures |r.tasks| == |s.tasks| && r == s.(tasks := r.tasks, threads := r.threads)
    decreases |s.current| - cpu
  {
    if cpu == |s.current| then s else SpendFrom(SpendOn(s, cpu, elapsed, spent), cpu + 1, elapsed, spent)
  }

  /** Every running CPU pays once for the time since the last boundary. */
  function Account(s: Sched, now: nat): (r: Sched)
    ensures |r.tasks| == |s.tasks| && r == s.(tasks := r.tasks, threads := r.threads, last := r.last)
  {
    if s.last.Some? && now < s.last.value then s
    else
      var elapsed := if s.last.Some? then now - s.last.value else 0;
      var spent := if s.last.Some? then now - s.last.value else SatSub(now, s.now);
      SpendFrom(s, 0, elapsed, spent).(last := Some(now))
  }

  // ---------- Waking ----------

  function Woken(t: Task): Task {
    if t.state == Blocked || t.state == Suspended then t.(state := Ready, reason := None, quantum := QUANTUM_TICKS)
    else if t.state == Quiesced || t.state == Stopped then t.(reason := None)
    else t
  }

  ghost function Wake(s: Sched, rank: seq<nat>, id: nat): (r: Out)
    requires Sane(s.groups, rank)
    ensures Sane(r.s.groups, rank) && SameSlots(s, r.s) && SameLinks(s.groups, r.s.groups) && r.s.now == s.now
    ensures Times(r.s.groups) == Times(s.groups)
  {
    var i := IndexOf(s.tasks, id);
    if i == |s.tasks| then Out(s, Some(InvalidTask))
    else Out(FillIdle(Rebuilt(WithTask(s, i, Woken(s.tasks[i])), rank), rank, 0), None)
  }

  ghost function WakeAll(s: Sched, rank: seq<nat>, ids: seq<nat>): (r: Sched)
    requires Sane(s.groups, rank)
    ensures Sane(r.groups, rank) && SameSlots(s, r) && SameLinks(s.groups, r.groups) && r.now == s.now
    ensures Times(r.groups) == Times(s.groups)
    decreases |ids|
  {
    if ids == [] then s else WakeAll(Wake(s, rank, ids[0]).s, rank, ids[1..])
  }

  predicate Expired(t: Task, now: nat) {
    t.reason.Some? && t.reason.value.Until? && t.reason.value.deadline <= now
  }

  function ExpiredIds(tasks: seq<Task>, now: nat): seq<nat> {
    if tasks == [] then []
    else
      var last := |tasks| - 1;
      ExpiredIds(tasks[..last], now) + (if Expired(tasks[last], now) then [tasks[last].id] else [])
  }

  ghost function WakeExpired(s: Sched, rank: seq<nat>): (r: Sched)
    requires Sane(s.groups, rank)
    ensures Sane(r.groups, rank) && SameSlots(s, r) && SameLinks(s.groups, r.groups) && r.now == s.now
    ensures Times(r.groups) == Times(s.groups)
  {
    WakeAll(s, rank, ExpiredIds(s.tasks, s.now))
  }
}
