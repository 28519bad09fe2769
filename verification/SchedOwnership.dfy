/** CPU ownership: each CPU's current task exists, runs and may run there, every running task is
    current on exactly one CPU, and group counts are exact. The primitives all operations use. */
module SchedOwnership {
  import opened Octets
  import opened SchedModel
  import opened SchedGroups
  import opened SchedOps

  /** What CPU `k` has is a running task that may run there. */
  predicate Rightful(tasks: seq<Task>, id: Option<nat>, k: nat) {
    id.Some? ==> (var i := IndexOf(tasks, id.value); i < |tasks| && tasks[i].state == Running && k in tasks[i].affinity)
  }

  predicate Somewhere(current: seq<Option<nat>>, id: nat) {
    exists k :: 0 <= k < |current| && current[k] == Some(id)
  }

  ghost predicate OnceEach(current: seq<Option<nat>>) {
    forall k, l :: 0 <= k < l < |current| && current[k].Some? ==> current[k] != current[l]
  }

  ghost predicate Owned(tasks: seq<Task>, current: seq<Option<nat>>) {
    && UniqueTasks(tasks) && OnceEach(current)
    && (forall k :: 0 <= k < |current| ==> Rightful(tasks, current[k], k))
    && (forall i :: 0 <= i < |tasks| && tasks[i].state == Running ==> Somewhere(current, tasks[i].id))
  }

  lemma {:induction false} IndexOfIds(a: seq<Task>, b: seq<Task>, id: nat)
    requires |a| == |b| && forall i :: 0 <= i < |a| ==> a[i].id == b[i].id
    ensures IndexOf(a, id) == IndexOf(b, id)
  {
    if a != [] && a[0].id != id {
      IndexOfIds(a[1..], b[1..], id);
    }
  }

  /** Some running tasks stop, and exactly their CPUs are vacated. */
  ghost predicate Dropped(tasks: seq<Task>, current: seq<Option<nat>>, tasks': seq<Task>, current': seq<Option<nat>>) {
    && |tasks'| == |tasks| && |current'| == |current|
    && (forall i :: 0 <= i < |tasks| ==> tasks'[i].id == tasks[i].id)
    && (forall i :: 0 <= i < |tasks| && tasks'[i].state == Running ==>
          tasks[i].state == Running && tasks'[i].affinity == tasks[i].affinity)
    && (forall k :: 0 <= k < |current| ==> current'[k] == if Continuing(tasks', current[k]) then current[k] else None)
  }

  predicate Continuing(tasks: seq<Task>, id: Option<nat>) {
    id.Some? && (var i := IndexOf(tasks, id.value); i < |tasks| && tasks[i].state == Running)
  }

  lemma OwnedDrop(tasks: seq<Task>, current: seq<Option<nat>>, tasks': seq<Task>, current': seq<Option<nat>>)
    requires Owned(tasks, current) && Dropped(tasks, current, tasks', current')
    ensures Owned(tasks', current')
  {
    hide IndexOf;
    forall k | 0 <= k < |current'| ensures Rightful(tasks', current'[k], k) {
      if current[k].Some? {
        IndexOfIds(tasks, tasks', current[k].value);
        assert Rightful(tasks, current[k], k);
      }
    }
    forall i | 0 <= i < |tasks'| && tasks'[i].state == Running ensures Somewhere(current', tasks'[i].id) {
      assert Somewhere(current, tasks[i].id);
      var k :| 0 <= k < |current| && current[k] == Some(tasks[i].id);
      IndexOfAt(tasks', i);
      assert Continuing(tasks', current[k]);
      assert current'[k] == current[k];
    }
  }

  /** An idle CPU takes a ready task that may run there. */
  lemma OwnedAssign(s: Sched, cpu: nat, i: nat)
    requires cpu < |s.current| && i < |s.tasks| && Owned(s.tasks, s.current[cpu := None])
    requires s.tasks[i].state == Ready && cpu in s.tasks[i].affinity
    ensures var r := Assign(s, cpu, Some(i)); Owned(r.tasks, r.current)
  {
    hide IndexOf;
    var r := Assign(s, cpu, Some(i));
    var idle := s.current[cpu := None];
    IndexOfAt(s.tasks, i);
    IndexOfAt(r.tasks, i);
    forall k | 0 <= k < |r.current|
      ensures Rightful(r.tasks, r.current[k], k) && (k != cpu ==> r.current[k] != Some(s.tasks[i].id))
    {
      assert Rightful(s.tasks, idle[k], k);
      if r.current[k].Some? {
        IndexOfIds(s.tasks, r.tasks, r.current[k].value);
      }
    }
    forall k, l | 0 <= k < l < |r.current| && r.current[k].Some? ensures r.current[k] != r.current[l] {
      if k != cpu && l != cpu {
        assert idle[k] == r.current[k] && idle[l] == r.current[l];
      }
    }
    forall j | 0 <= j < |r.tasks| && r.tasks[j].state == Running ensures Somewhere(r.current, r.tasks[j].id) {
      if j == i {
        assert r.current[cpu] == Some(r.tasks[i].id);
      } else {
        assert Somewhere(idle, s.tasks[j].id);
        var k :| 0 <= k < |idle| && idle[k] == Some(s.tasks[j].id);
        assert r.current[k] == Some(r.tasks[j].id);
      }
    }
  }

  // ---------- Tasks evolve ----------

  /** When period `k` of a server starts. */
  function PeriodStart(b: Budget, k: nat): nat {
    b.origin + k * b.profile.period
  }

  /** The server is in period `k`: its deadline is aligned with when the profile was set, and it was
      filled at most once for each period begun. */
  predicate InPeriod(b: Budget, now: nat, k: nat) {
    b.absolute == PeriodStart(b, k) + b.profile.deadline && PeriodStart(b, k) <= now && b.grants <= k + 1
  }

  ghost predicate BudgetOk(b: Budget, now: nat) {
    b.profile.Valid() && b.remaining <= b.profile.capacity && exists k: nat :: InPeriod(b, now, k)
  }

  /** A task changes as the passing of time and scheduling may change it: same identity, same
      profile, a budget that stays sound, and no return from exit. */
  ghost predicate Evolves(t: Task, t': Task, now: nat) {
    && t'.id == t.id && t'.group == t.group && (t.state == Exited ==> t'.state == Exited)
    && t'.deadline.Some? == t.deadline.Some?
    && (t.deadline.Some? ==>
          && t'.deadline.value.profile == t.deadline.value.profile
          && t'.deadline.value.origin == t.deadline.value.origin
          && (BudgetOk(t.deadline.value, now) && now + t.deadline.value.profile.deadline <= MAX ==>
                BudgetOk(t'.deadline.value, now)))
  }

  ghost predicate Evolve(a: seq<Task>, b: seq<Task>, now: nat) {
    |a| == |b| && forall i :: 0 <= i < |a| ==> Evolves(a[i], b[i], now)
  }

  lemma EvolveTrans(a: seq<Task>, b: seq<Task>, c: seq<Task>, now: nat)
    requires Evolve(a, b, now) && Evolve(b, c, now)
    ensures Evolve(a, c, now)
  {
    hide BudgetOk;
    forall i | 0 <= i < |a| ensures Evolves(a[i], c[i], now) {
      assert Evolves(a[i], b[i], now) && Evolves(b[i], c[i], now);
    }
  }

  /** A change to one task that leaves its deadline alone. */
  lemma EvolveOne(tasks: seq<Task>, i: nat, t: Task, now: nat)
    requires i < |tasks| && t.id == tasks[i].id && t.group == tasks[i].group && t.deadline == tasks[i].deadline
    requires tasks[i].state == Exited ==> t.state == Exited
    ensures Evolve(tasks, tasks[i := t], now)
  {
    hide BudgetOk;
  }

  // ---------- Runnable counts ----------

  ghost predicate Counted(s: Sched) {
    forall j :: 0 <= j < |s.groups| ==> s.groups[j].runnable == Capped(Count(s.tasks, s.groups[j].id))
  }

  ghost predicate SameRunnable(a: seq<Task>, b: seq<Task>) {
    |a| == |b| && forall i :: 0 <= i < |a| ==> b[i].group == a[i].group && Runnable(b[i]) == Runnable(a[i])
  }

  lemma {:induction false} CountSame(a: seq<Task>, b: seq<Task>, group: nat)
    requires SameRunnable(a, b)
    ensures Count(a, group) == Count(b, group)
  {
    if a != [] {
      CountSame(a[..|a| - 1], b[..|b| - 1], group);
    }
  }

  lemma CountedSame(s: Sched, r: Sched)
    requires Counted(s) && SameRunnable(s.tasks, r.tasks) && SameShape(s.groups, r.groups)
    ensures Counted(r)
  {
    hide Count;
    forall j | 0 <= j < |r.groups| ensures r.groups[j].runnable == Capped(Count(r.tasks, r.groups[j].id)) {
      CountSame(s.tasks, r.tasks, r.groups[j].id);
    }
  }

  // ---------- Scheduling keeps all of it ----------

  /** What every operation keeps about ownership and counts. */
  ghost predicate Good(s: Sched) {
    Owned(s.tasks, s.current) && Counted(s)
  }

  /** Owned but for the one CPU that is about to be given something to run. */
  ghost predicate OwnedBut(s: Sched, cpu: nat)
    requires cpu < |s.current|
  {
    Owned(s.tasks, s.current[cpu := None])
  }

  /** A task is as it was, or was ready, may run on `cpu`, and now runs. */
  predicate Started(t: Task, t': Task, cpu: nat) {
    && t'.id == t.id && t'.affinity == t.affinity
    && (t'.state == t.state || (t.state == Ready && t'.state == Running && cpu in t.affinity))
  }

  /** What scheduling on a CPU may do to the tasks. */
  ghost predicate Scheduled(a: seq<Task>, b: seq<Task>, cpu: nat, now: nat) {
    Evolve(a, b, now) && SameRunnable(a, b) && forall j :: 0 <= j < |a| ==> Started(a[j], b[j], cpu)
  }

  lemma PeriodAdvance(origin: nat, k: nat, period: nat, more: nat)
    ensures origin + (k + more) * period == origin + k * period + more * period
  {
  }

  /** Refilling keeps the deadline aligned and counts one more grant for at least one more period. */
  lemma RefilledOk(b: Budget, now: nat)
    requires BudgetOk(b, now) && now + b.profile.deadline <= MAX
    ensures BudgetOk(Refilled(b, now), now)
  {
    var k: nat :| InPeriod(b, now, k);
    var start, period := PeriodStart(b, k), b.profile.period;
    assert SatSub(b.absolute, b.profile.deadline) == start;
    var periods := (now - start) / period;
    if periods > 0 {
      assert periods * period <= now - start by { DivBelow(now - start, period); }
      PeriodAdvance(b.origin, k, period, periods);
      assert SatMul(periods, period) == periods * period;
      assert InPeriod(Refilled(b, now), now, k + periods);
    }
  }

  lemma DivBelow(x: nat, n: nat)
    requires 0 < n
    ensures x / n * n <= x
  {
  }

  lemma ReplenishEvolves(tasks: seq<Task>, now: nat)
    ensures Evolve(tasks, Replenish(tasks, now), now) && SameRunnable(tasks, Replenish(tasks, now))
  {
    hide BudgetOk;
    forall i | 0 <= i < |tasks| ensures Evolves(tasks[i], Replenish(tasks, now)[i], now) {
      var t := tasks[i];
      if t.deadline.Some? && BudgetOk(t.deadline.value, now) && now + t.deadline.value.profile.deadline <= MAX {
        RefilledOk(t.deadline.value, now);
      }
    }
  }

  lemma OwnedSame(tasks: seq<Task>, tasks': seq<Task>, current: seq<Option<nat>>)
    requires Owned(tasks, current) && |tasks'| == |tasks|
    requires forall i :: 0 <= i < |tasks| ==>
      tasks'[i].id == tasks[i].id && tasks'[i].state == tasks[i].state && tasks'[i].affinity == tasks[i].affinity
    ensures Owned(tasks', current)
  {
    hide IndexOf;
    forall k | 0 <= k < |current| ensures current[k] == if Continuing(tasks', current[k]) then current[k] else None {
      assert Rightful(tasks, current[k], k);
      if current[k].Some? {
        IndexOfIds(tasks, tasks', current[k].value);
      }
    }
    OwnedDrop(tasks, current, tasks', current);
  }

  lemma AssignEvolves(s: Sched, cpu: nat, i: Option<nat>)
    requires cpu < |s.current|
    requires (i.Some? ==> i.value < |s.tasks| && s.tasks[i.value].state == Ready && cpu in s.tasks[i.value].affinity)
    ensures Scheduled(s.tasks, Assign(s, cpu, i).tasks, cpu, s.now)
  {
    hide BudgetOk;
  }

  lemma ScheduleKeeps(s: Sched, rank: seq<nat>, cpu: nat)
    requires Sane(s.groups, rank) && cpu < |s.current| && OwnedBut(s, cpu)
    ensures var r := ScheduleNext(s, rank, cpu);
      && Owned(r.tasks, r.current) && Scheduled(s.tasks, r.tasks, cpu, s.now)
      && forall k :: 0 <= k < |s.current| && k != cpu ==> r.current[k] == s.current[k]
  {
    hide Pick, Count, Eligible, Evolve, SameRunnable, Replenish, Assign, Owned, Sane;
    var filled := s.(tasks := Replenish(s.tasks, s.now));
    SaneRanked(s.groups, rank);
    var picked := Pick(filled, rank, cpu);
    PickEligible(filled, rank, cpu);
    var ready := filled.(cursors := picked.1);
    ReplenishEvolves(s.tasks, s.now);
    OwnedSame(s.tasks, filled.tasks, s.current[cpu := None]);
    if picked.0.Some? {
      EligibleParts(filled, picked.0.value, cpu);
      OwnedAssign(ready, cpu, picked.0.value);
    } else {
      AssignNothing(ready, cpu);
    }
    AssignEvolves(ready, cpu, picked.0);
    AssignCurrent(ready, cpu, picked.0);
    var r := ScheduleNext(s, rank, cpu);
    EvolveTrans(s.tasks, filled.tasks, r.tasks, s.now);
    SameRunnableTrans(s.tasks, filled.tasks, r.tasks);
    forall j | 0 <= j < |s.tasks| ensures Started(s.tasks[j], r.tasks[j], cpu) {
      assert Started(filled.tasks[j], r.tasks[j], cpu);
    }
  }

  lemma AssignCurrent(s: Sched, cpu: nat, i: Option<nat>)
    requires cpu < |s.current| && (i.Some? ==> i.value < |s.tasks|)
    ensures forall k :: 0 <= k < |s.current| && k != cpu ==> Assign(s, cpu, i).current[k] == s.current[k]
  {
  }

  lemma SaneRanked(groups: seq<Group>, rank: seq<nat>)
    requires Sane(groups, rank)
    ensures Ranked(groups, rank)
  {
  }

  lemma EligibleParts(s: Sched, i: nat, cpu: nat)
    requires i < |s.tasks| && Eligible(s, i, cpu)
    ensures s.tasks[i].state == Ready && cpu in s.tasks[i].affinity
  {
  }

  lemma AssignNothing(s: Sched, cpu: nat)
    requires cpu < |s.current|
    ensures Assign(s, cpu, None).tasks == s.tasks && Assign(s, cpu, None).current == s.current[cpu := None]
  {
  }

  lemma SameRunnableTrans(a: seq<Task>, b: seq<Task>, c: seq<Task>)
    requires SameRunnable(a, b) && SameRunnable(b, c)
    ensures SameRunnable(a, c)
  {
  }

  lemma ShapeRefl(groups: seq<Group>)
    ensures SameShape(groups, groups)
  {
  }
}
