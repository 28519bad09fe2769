/** Every operation keeps CPU ownership and the runnable counts, and lets tasks evolve only as
    scheduling may. */
module SchedInvariants {
  import opened Octets
  import opened SchedModel
  import opened SchedGroups
  import opened SchedOps
  import opened SchedSteps
  import opened SchedOwnership

  /** The result of an operation on a good state. */
  ghost predicate Fine(s: Sched, r: Sched) {
    Good(r) && Evolve(s.tasks, r.tasks, r.now) && SameLinks(s.groups, r.groups)
  }

  lemma RebuiltKeeps(s: Sched, rank: seq<nat>)
    requires Sane(s.groups, rank) && Owned(s.tasks, s.current)
    ensures Good(Rebuilt(s, rank))
  {
    hide Owned, Count;
  }

  lemma ScheduleGood(s: Sched, rank: seq<nat>, cpu: nat)
    requires Sane(s.groups, rank) && cpu < |s.current| && OwnedBut(s, cpu) && Counted(s)
    ensures Fine(s, ScheduleNext(s, rank, cpu))
  {
    hide Owned, ScheduleNext, Evolve, SameRunnable, Counted, Sane, OwnedBut;
    ScheduleKeeps(s, rank, cpu);
    ShapeRefl(s.groups);
    CountedSame(s, ScheduleNext(s, rank, cpu));
  }

  lemma EvolveRefl(tasks: seq<Task>, now: nat)
    ensures Evolve(tasks, tasks, now)
  {
    hide BudgetOk;
  }

  /** Filling idle CPUs. */
  lemma {:induction false} FillKeeps(s: Sched, rank: seq<nat>, cpu: nat)
    requires Sane(s.groups, rank) && cpu <= |s.current| && Good(s)
    ensures Fine(s, FillIdle(s, rank, cpu)) && FillIdle(s, rank, cpu).now == s.now
    decreases |s.current| - cpu
  {
    hide Owned, ScheduleNext, Evolve, Counted, Sane;
    EvolveRefl(s.tasks, s.now);
    if cpu < |s.current| {
      if s.current[cpu].None? {
        assert s.current[cpu := None] == s.current;
        ScheduleGood(s, rank, cpu);
        var r := ScheduleNext(s, rank, cpu);
        FillKeeps(r, rank, cpu + 1);
        EvolveTrans(s.tasks, r.tasks, FillIdle(s, rank, cpu).tasks, s.now);
      } else {
        FillKeeps(s, rank, cpu + 1);
      }
    }
  }

  /** The tail that most operations share: recount, then fill idle CPUs. */
  lemma RefillKeeps(s: Sched, rank: seq<nat>)
    requires Sane(s.groups, rank) && Owned(s.tasks, s.current)
    ensures Fine(s, FillIdle(Rebuilt(s, rank), rank, 0)) && FillIdle(Rebuilt(s, rank), rank, 0).now == s.now
  {
    hide Owned, FillIdle, Evolve, Counted, Sane, Recounted;
    RebuiltKeeps(s, rank);
    FillKeeps(Rebuilt(s, rank), rank, 0);
  }

  // ---------- One task changes ----------

  /** A task that does not run changes to another state that does not run. */
  lemma OwnedRestate(tasks: seq<Task>, current: seq<Option<nat>>, i: nat, t: Task)
    requires Owned(tasks, current) && i < |tasks| && t.id == tasks[i].id && tasks[i].state != Running
    requires t.state != Running
    ensures Owned(tasks[i := t], current)
  {
    hide IndexOf;
    var after := tasks[i := t];
    forall k | 0 <= k < |current| ensures current[k] == if Continuing(after, current[k]) then current[k] else None {
      assert Rightful(tasks, current[k], k);
      if current[k].Some? {
        IndexOfIds(tasks, after, current[k].value);
      }
    }
    OwnedDrop(tasks, current, after, current);
  }

  /** The task that a CPU runs stops running, and the CPU is vacated. */
  lemma OwnedLeave(tasks: seq<Task>, current: seq<Option<nat>>, cpu: nat, i: nat, t: Task)
    requires Owned(tasks, current) && cpu < |current| && i < |tasks| && current[cpu] == Some(tasks[i].id)
    requires t.id == tasks[i].id && t.state != Running
    ensures Owned(tasks[i := t], current[cpu := None])
  {
    hide IndexOf;
    var after, vacated := tasks[i := t], current[cpu := None];
    IndexOfAt(after, i);
    forall k | 0 <= k < |current| ensures vacated[k] == if Continuing(after, current[k]) then current[k] else None {
      assert Rightful(tasks, current[k], k);
      if current[k].Some? {
        IndexOfIds(tasks, after, current[k].value);
        if k != cpu {
          assert current[k] != current[cpu];
        }
      }
    }
    OwnedDrop(tasks, current, after, vacated);
  }

  /** A running task keeps running where it was. */
  lemma OwnedRetune(tasks: seq<Task>, current: seq<Option<nat>>, i: nat, t: Task)
    requires Owned(tasks, current) && i < |tasks| && t.id == tasks[i].id && t.state == tasks[i].state
    requires t.affinity == tasks[i].affinity
    ensures Owned(tasks[i := t], current)
  {
    hide Owned;
    OwnedSame(tasks, tasks[i := t], current);
  }

  /** A task that is current runs. */
  lemma CurrentRuns(tasks: seq<Task>, current: seq<Option<nat>>, cpu: nat)
    requires Owned(tasks, current) && cpu < |current| && current[cpu].Some?
    ensures var i := IndexOf(tasks, current[cpu].value);
      i < |tasks| && tasks[i].id == current[cpu].value && tasks[i].state == Running && cpu in tasks[i].affinity
  {
    hide IndexOf;
    assert Rightful(tasks, current[cpu], cpu);
  }

  /** A task that does not run is not current anywhere. */
  lemma NotCurrent(tasks: seq<Task>, current: seq<Option<nat>>, i: nat)
    requires Owned(tasks, current) && i < |tasks| && tasks[i].state != Running
    ensures forall k :: 0 <= k < |current| ==> current[k] != Some(tasks[i].id)
  {
    hide IndexOf;
    IndexOfAt(tasks, i);
    forall k | 0 <= k < |current| ensures current[k] != Some(tasks[i].id) {
      assert Rightful(tasks, current[k], k);
    }
  }

  // ---------- Waking ----------

  lemma WokenOwned(tasks: seq<Task>, current: seq<Option<nat>>, i: nat)
    requires Owned(tasks, current) && i < |tasks|
    ensures Owned(tasks[i := Woken(tasks[i])], current)
  {
    hide Owned;
    if tasks[i].state == Running {
      OwnedRetune(tasks, current, i, Woken(tasks[i]));
    } else {
      OwnedRestate(tasks, current, i, Woken(tasks[i]));
    }
  }

  lemma WakeKeeps(s: Sched, rank: seq<nat>, id: nat)
    requires Sane(s.groups, rank) && Good(s)
    ensures Fine(s, Wake(s, rank, id).s) && Wake(s, rank, id).s.now == s.now
  {
    hide Owned, FillIdle, Rebuilt, Evolve, Counted, Sane, IndexOf;
    EvolveRefl(s.tasks, s.now);
    var i := IndexOf(s.tasks, id);
    if i < |s.tasks| {
      var woken := WithTask(s, i, Woken(s.tasks[i]));
      WokenOwned(s.tasks, s.current, i);
      EvolveOne(s.tasks, i, Woken(s.tasks[i]), s.now);
      RefillKeeps(woken, rank);
      EvolveTrans(s.tasks, woken.tasks, Wake(s, rank, id).s.tasks, s.now);
    }
  }

  lemma {:induction false} WakeAllKeeps(s: Sched, rank: seq<nat>, ids: seq<nat>)
    requires Sane(s.groups, rank) && Good(s)
    ensures Fine(s, WakeAll(s, rank, ids)) && WakeAll(s, rank, ids).now == s.now
    decreases |ids|
  {
    hide Owned, Wake, Evolve, Counted, Sane;
    EvolveRefl(s.tasks, s.now);
    if ids != [] {
      WakeKeeps(s, rank, ids[0]);
      var r := Wake(s, rank, ids[0]).s;
      WakeAllKeeps(r, rank, ids[1..]);
      EvolveTrans(s.tasks, r.tasks, WakeAll(s, rank, ids).tasks, s.now);
    }
  }

  // ---------- Accounting ----------

  /** Only what running tasks have left of their budgets changes. */
  ghost predicate OnlySpends(a: seq<Task>, b: seq<Task>, now: nat) {
    && Evolve(a, b, now)
    && forall i :: 0 <= i < |a| ==>
         b[i].id == a[i].id && b[i].state == a[i].state && b[i].affinity == a[i].affinity && b[i].group == a[i].group
  }

  lemma SpentEvolves(t: Task, spent: nat, now: nat)
    ensures Evolves(t, Spent(t, spent), now)
  {
    if t.deadline.Some? && BudgetOk(t.deadline.value, now) {
      var k: nat :| InPeriod(t.deadline.value, now, k);
      assert InPeriod(Spent(t, spent).deadline.value, now, k);
    }
  }

  lemma SpendOnKeeps(s: Sched, cpu: nat, elapsed: nat, spent: nat, now: nat)
    requires cpu < |s.current|
    ensures OnlySpends(s.tasks, SpendOn(s, cpu, elapsed, spent).tasks, now)
  {
    hide Evolves, IndexOf, ThreadOf;
    EvolveRefl(s.tasks, now);
    if s.current[cpu].Some? {
      var i := IndexOf(s.tasks, s.current[cpu].value);
      if i < |s.tasks| {
        SpentEvolves(s.tasks[i], spent, now);
      }
    }
  }

  lemma {:induction false} SpendKeeps(s: Sched, cpu: nat, elapsed: nat, spent: nat, now: nat)
    requires cpu <= |s.current|
    ensures OnlySpends(s.tasks, SpendFrom(s, cpu, elapsed, spent).tasks, now)
    decreases |s.current| - cpu
  {
    hide SpendOn, Evolve;
    EvolveRefl(s.tasks, now);
    if cpu < |s.current| {
      SpendOnKeeps(s, cpu, elapsed, spent, now);
      var r := SpendOn(s, cpu, elapsed, spent);
      SpendKeeps(r, cpu + 1, elapsed, spent, now);
      EvolveTrans(s.tasks, r.tasks, SpendFrom(s, cpu, elapsed, spent).tasks, now);
    }
  }

  lemma AccountSpends(s: Sched, now: nat, later: nat)
    ensures OnlySpends(s.tasks, Account(s, now).tasks, later)
  {
    hide SpendFrom, Evolve;
    EvolveRefl(s.tasks, later);
    if !(s.last.Some? && now < s.last.value) {
      var elapsed := if s.last.Some? then now - s.last.value else 0;
      var spent := if s.last.Some? then now - s.last.value else SatSub(now, s.now);
      SpendKeeps(s, 0, elapsed, spent, later);
    }
  }

  lemma AccountKeeps(s: Sched, now: nat, later: nat)
    requires Good(s)
    ensures Good(Account(s, now)) && OnlySpends(s.tasks, Account(s, now).tasks, later)
  {
    hide Owned, SpendFrom, Evolve, Counted, Account;
    AccountSpends(s, now, later);
    var r := Account(s, now);
    OwnedSame(s.tasks, r.tasks, s.current);
    ShapeRefl(s.groups);
    assert SameRunnable(s.tasks, r.tasks);
    CountedSame(s, r);
  }

  lemma AccountExecutingKeeps(s: Sched, cpu: nat, thread: nat, now: nat)
    requires Good(s)
    ensures Fine(s, AccountExecuting(s, cpu, thread, now))
  {
    hide Owned, SpendFrom, Evolve, Counted;
    EvolveRefl(s.tasks, s.now);
    ShapeRefl(s.groups);
    if cpu < |s.current| {
      var swapped := s.(current := s.current[cpu := Some(thread)]);
      var r := AccountExecuting(s, cpu, thread, now);
      AccountSpends(swapped, now, s.now);
      OwnedSame(s.tasks, r.tasks, s.current);
      assert SameRunnable(s.tasks, r.tasks);
      CountedSame(s, r);
    }
  }

  // ---------- Ticks ----------

  lemma ChargeKeeps(s: Sched, rank: seq<nat>, group: nat, fair: bool, elapsed: nat)
    requires Sane(s.groups, rank)
    ensures Counted(s) ==> Counted(ChargeGroup(s, rank, group, fair, elapsed))
  {
    hide ChargeOnce, Clamped, Count, Sane;
  }

  lemma TickedKeeps(s: Sched, i: nat, t: Task)
    requires Good(s) && i < |s.tasks| && t.id == s.tasks[i].id && t.group == s.tasks[i].group
    requires t.deadline == s.tasks[i].deadline
    requires s.tasks[i].state == Running && Runnable(t)
    ensures Counted(WithTask(s, i, t)) && Evolve(s.tasks, WithTask(s, i, t).tasks, s.now)
  {
    hide Owned, Count, BudgetOk;
    ShapeRefl(s.groups);
    CountedSame(s, WithTask(s, i, t));
  }

  lemma TickCurrentKeeps(s: Sched, rank: seq<nat>, cpu: nat, elapsed: nat)
    requires Sane(s.groups, rank) && cpu < |s.current| && Good(s)
    ensures Fine(s, TickCurrent(s, rank, cpu, elapsed)) && TickCurrent(s, rank, cpu, elapsed).now == s.now
  {
    hide Owned, ScheduleNext, Evolve, Counted, Sane, IndexOf, ChargeGroup;
    if s.current[cpu].None? {
      assert s.current[cpu := None] == s.current;
      ScheduleGood(s, rank, cpu);
    } else {
      CurrentRuns(s.tasks, s.current, cpu);
      var i := IndexOf(s.tasks, s.current[cpu].value);
      var t := Ticked(s.tasks[i], s.now);
      if Continues(t, s.now) {
        TickedKeeps(s, i, t);
        OwnedRetune(s.tasks, s.current, i, t);
        ChargeKeeps(WithTask(s, i, t), rank, t.group, t.deadline.None?, elapsed);
      } else {
        var p := Preempted(t);
        TickedKeeps(s, i, p);
        OwnedLeave(s.tasks, s.current, cpu, i, p);
        var charged := ChargeGroup(WithTask(s, i, p), rank, t.group, t.deadline.None?, elapsed);
        ChargeKeeps(WithTask(s, i, p), rank, t.group, t.deadline.None?, elapsed);
        ScheduleGood(charged, rank, cpu);
        EvolveTrans(s.tasks, charged.tasks, TickCurrent(s, rank, cpu, elapsed).tasks, s.now);
      }
    }
  }

  lemma TickKeeps(s: Sched, rank: seq<nat>, cpu: nat, now: nat)
    requires Sane(s.groups, rank) && Good(s)
    ensures Fine(s, Tick(s, rank, cpu, now).s)
  {
    hide Owned, TickCurrent, Evolve, Counted, Sane, Account, WakeAll, ExpiredIds;
    EvolveRefl(s.tasks, s.now);
    if cpu < |s.current| && s.now <= now {
      AccountKeeps(s, now, now);
      var paid := Account(s, now).(now := now, ticks := SatAdd(s.ticks, 1));
      CountedClock(Account(s, now), paid);
      WakeAllKeeps(paid, rank, ExpiredIds(paid.tasks, now));
      var awake := WakeExpired(paid, rank);
      TickCurrentKeeps(awake, rank, cpu, now - s.now);
      EvolveTrans(s.tasks, paid.tasks, awake.tasks, now);
      EvolveTrans(s.tasks, awake.tasks, TickCurrent(awake, rank, cpu, now - s.now).tasks, now);
    }
  }

  lemma CountedClock(s: Sched, r: Sched)
    requires Counted(s) && r.tasks == s.tasks && r.groups == s.groups
    ensures Counted(r)
  {
    hide Count;
  }

  // ---------- Blocking, suspending, exiting ----------

  lemma LeaveKeeps(s: Sched, rank: seq<nat>, cpu: nat, i: nat, t: Task)
    requires Sane(s.groups, rank) && Good(s) && cpu < |s.current| && i < |s.tasks|
    requires s.current[cpu] == Some(s.tasks[i].id)
    requires t.id == s.tasks[i].id && t.group == s.tasks[i].group && t.deadline == s.tasks[i].deadline
    requires t.state != Running
    requires s.tasks[i].state == Running
    ensures Fine(s, Leave(s, rank, cpu, i, t)) && Leave(s, rank, cpu, i, t).now == s.now
  {
    hide Owned, ScheduleNext, Evolve, Counted, Sane, Recounted;
    var changed := WithTask(s, i, t);
    OwnedLeave(s.tasks, s.current, cpu, i, t);
    EvolveOne(s.tasks, i, t, s.now);
    var vacated := Vacated(Rebuilt(changed, rank), cpu);
    RebuiltCounts(changed, rank);
    CountedClock(Rebuilt(changed, rank), vacated);
    assert vacated.current[cpu := None] == vacated.current;
    ScheduleGood(vacated, rank, cpu);
    EvolveTrans(s.tasks, vacated.tasks, Leave(s, rank, cpu, i, t).tasks, s.now);
  }

  lemma RebuiltCounts(s: Sched, rank: seq<nat>)
    requires Sane(s.groups, rank)
    ensures Counted(Rebuilt(s, rank))
  {
    hide Count;
  }

  lemma BlockKeeps(s: Sched, rank: seq<nat>, cpu: nat, reason: Reason)
    requires Sane(s.groups, rank) && Good(s)
    ensures Fine(s, Block(s, rank, cpu, reason).s)
  {
    hide Owned, Leave, Evolve, Counted, Sane, IndexOf;
    EvolveRefl(s.tasks, s.now);
    var i := CurrentIndex(s, cpu);
    if i < |s.tasks| {
      CurrentRuns(s.tasks, s.current, cpu);
      LeaveKeeps(s, rank, cpu, i, s.tasks[i].(state := Blocked, reason := Some(reason), quantum := QUANTUM_TICKS));
    }
  }

  lemma ExitCurrentKeeps(s: Sched, rank: seq<nat>, cpu: nat, code: int)
    requires Sane(s.groups, rank) && Good(s)
    ensures Fine(s, ExitCurrent(s, rank, cpu, code).s)
  {
    hide Owned, Leave, Evolve, Counted, Sane, IndexOf;
    EvolveRefl(s.tasks, s.now);
    var i := CurrentIndex(s, cpu);
    if i < |s.tasks| {
      CurrentRuns(s.tasks, s.current, cpu);
      LeaveKeeps(s, rank, cpu, i, s.tasks[i].(state := Exited, exitCode := code, quantum := 0));
    }
  }

  // ---------- Suspending ----------

  lemma {:induction false} DisplaceNothing(s: Sched, rank: seq<nat>, id: nat, cpu: nat)
    requires Sane(s.groups, rank) && cpu <= |s.current|
    requires forall k :: cpu <= k < |s.current| ==> s.current[k] != Some(id)
    ensures Displace(s, rank, id, cpu) == s
    decreases |s.current| - cpu
  {
    hide Sane, ScheduleNext;
    if cpu < |s.current| {
      DisplaceNothing(s, rank, id, cpu + 1);
    }
  }

  lemma {:induction false} DisplaceSkips(s: Sched, rank: seq<nat>, id: nat, cpu: nat, c: nat)
    requires Sane(s.groups, rank) && cpu <= c <= |s.current| && forall k :: cpu <= k < c ==> s.current[k] != Some(id)
    ensures Displace(s, rank, id, cpu) == Displace(s, rank, id, c)
    decreases c - cpu
  {
    hide Sane, ScheduleNext;
    if cpu < c {
      DisplaceSkips(s, rank, id, cpu + 1, c);
    }
  }

  /** The task at index `i` has stopped running on CPU `c`, which still names it. */
  lemma DisplaceOne(s: Sched, rank: seq<nat>, i: nat, c: nat)
    requires Sane(s.groups, rank) && i < |s.tasks| && c < |s.current| && s.current[c] == Some(s.tasks[i].id)
    requires OwnedBut(s, c) && s.tasks[i].state != Running && s.tasks[i].state != Ready
    ensures var r := Displace(s, rank, s.tasks[i].id, 0);
      Owned(r.tasks, r.current) && Evolve(s.tasks, r.tasks, s.now) && r.now == s.now
  {
    hide Sane, ScheduleNext, Owned, Evolve, SameRunnable;
    var id := s.tasks[i].id;
    NotCurrent(s.tasks, s.current[c := None], i);
    forall k | 0 <= k < c ensures s.current[k] != Some(id) {
      assert s.current[c := None][k] == s.current[k];
    }
    DisplaceSkips(s, rank, id, 0, c);
    var vacated := Vacated(s, c);
    assert vacated.current[c := None] == s.current[c := None];
    ScheduleKeeps(vacated, rank, c);
    var r := ScheduleNext(vacated, rank, c);
    assert Started(vacated.tasks[i], r.tasks[i], c);
    NotCurrent(r.tasks, r.current, i);
    DisplaceNothing(r, rank, id, c + 1);
  }

  lemma SuspendKeeps(s: Sched, rank: seq<nat>, id: nat)
    requires Sane(s.groups, rank) && Good(s)
    ensures Fine(s, Suspend(s, rank, id).s)
  {
    hide Sane, Displace, Owned, Evolve, Counted, IndexOf, Recounted;
    EvolveRefl(s.tasks, s.now);
    var i := IndexOf(s.tasks, id);
    if i < |s.tasks| {
      var t := if s.tasks[i].state == Exited then s.tasks[i]
               else s.tasks[i].(state := Suspended, quantum := QUANTUM_TICKS);
      var changed := WithTask(s, i, t);
      EvolveOne(s.tasks, i, t, s.now);
      if s.tasks[i].state == Running {
        var c := WhereRuns(s.tasks, s.current, i);
        OwnedLeave(s.tasks, s.current, c, i, t);
        DisplaceOne(changed, rank, i, c);
      } else {
        OwnedRestate(s.tasks, s.current, i, t);
        NotCurrent(changed.tasks, changed.current, i);
        DisplaceNothing(changed, rank, id, 0);
        EvolveRefl(changed.tasks, s.now);
      }
      var r := Displace(changed, rank, id, 0);
      RebuiltKeeps(r, rank);
      EvolveTrans(s.tasks, changed.tasks, r.tasks, s.now);
    }
  }

  lemma WhereRuns(tasks: seq<Task>, current: seq<Option<nat>>, i: nat) returns (k: nat)
    requires Owned(tasks, current) && i < |tasks| && tasks[i].state == Running
    ensures k < |current| && current[k] == Some(tasks[i].id) && k in tasks[i].affinity
  {
    assert Somewhere(current, tasks[i].id);
    k :| 0 <= k < |current| && current[k] == Some(tasks[i].id);
    CurrentRuns(tasks, current, k);
    IndexOfAt(tasks, i);
  }

  // ---------- Exiting and process control ----------

  /** Tasks stop, and the CPUs that ran one of `ids` are freed; `ids` names exactly those that stopped. */
  lemma OwnedFreed(tasks: seq<Task>, current: seq<Option<nat>>, after: seq<Task>, ids: set<nat>)
    requires Owned(tasks, current) && |after| == |tasks|
    requires forall i :: 0 <= i < |tasks| ==> after[i].id == tasks[i].id && after[i].affinity == tasks[i].affinity
    requires forall i :: 0 <= i < |tasks| && after[i].state == Running ==>
      tasks[i].state == Running && tasks[i].id !in ids
    requires forall i :: 0 <= i < |tasks| && tasks[i].state == Running && after[i].state != Running ==>
      tasks[i].id in ids
    ensures Owned(after, Freed(current, ids))
  {
    hide IndexOf;
    var freed := Freed(current, ids);
    forall k | 0 <= k < |current| ensures freed[k] == if Continuing(after, current[k]) then current[k] else None {
      assert Rightful(tasks, current[k], k);
      if current[k].Some? {
        IndexOfIds(tasks, after, current[k].value);
      }
    }
    OwnedDrop(tasks, current, after, freed);
  }

  lemma ExitKeeps(s: Sched, rank: seq<nat>, id: nat, code: int)
    requires Sane(s.groups, rank) && Good(s)
    ensures Fine(s, Exit(s, rank, id, code).s)
  {
    hide Sane, FillIdle, Rebuilt, Owned, Evolve, Counted, IndexOf, Freed;
    EvolveRefl(s.tasks, s.now);
    var i := IndexOf(s.tasks, id);
    if i < |s.tasks| {
      var t := s.tasks[i].(state := Exited, exitCode := code, quantum := 0, reason := None);
      var gone := WithTask(s, i, t).(current := Freed(s.current, {id}));
      assert UniqueTasks(s.tasks) by { OwnedUnique(s.tasks, s.current); }
      OwnedFreed(s.tasks, s.current, gone.tasks, {id});
      EvolveOne(s.tasks, i, t, s.now);
      RefillKeeps(gone, rank);
      EvolveTrans(s.tasks, gone.tasks, Exit(s, rank, id, code).s.tasks, s.now);
    }
  }

  lemma OwnedUnique(tasks: seq<Task>, current: seq<Option<nat>>)
    requires Owned(tasks, current)
    ensures UniqueTasks(tasks)
  {
  }

  lemma HoldEvolves(tasks: seq<Task>, process: nat, held: TaskState, now: nat)
    requires held == Quiesced || held == Stopped
    ensures Evolve(tasks, HoldAll(tasks, process, held), now)
  {
    hide BudgetOk;
  }

  lemma HoldKeeps(s: Sched, rank: seq<nat>, process: nat, held: TaskState)
    requires Sane(s.groups, rank) && Good(s) && (held == Quiesced || held == Stopped)
    ensures Fine(s, HoldProcess(s, rank, process, held))
  {
    hide Sane, FillIdle, Rebuilt, Owned, Evolve, Counted, Freed;
    var tasks := HoldAll(s.tasks, process, held);
    var ids := HeldIds(tasks, held);
    var gone := s.(tasks := tasks, current := Freed(s.current, ids));
    OwnedUnique(s.tasks, s.current);
    OwnedFreed(s.tasks, s.current, tasks, ids);
    HoldEvolves(s.tasks, process, held, s.now);
    RefillKeeps(gone, rank);
    EvolveTrans(s.tasks, tasks, HoldProcess(s, rank, process, held).tasks, s.now);
  }

  lemma ResumeKeeps(s: Sched, rank: seq<nat>, process: nat, held: TaskState)
    requires Sane(s.groups, rank) && Good(s) && (held == Quiesced || held == Stopped)
    ensures Fine(s, ResumeProcess(s, rank, process, held))
  {
    hide Sane, FillIdle, Rebuilt, Owned, Evolve, Counted;
    var tasks := ResumeAll(s.tasks, process, held);
    ResumeOwned(s.tasks, s.current, process, held);
    ResumeEvolves(s.tasks, process, held, s.now);
    RefillKeeps(s.(tasks := tasks), rank);
    EvolveTrans(s.tasks, tasks, ResumeProcess(s, rank, process, held).tasks, s.now);
  }

  lemma ResumeEvolves(tasks: seq<Task>, process: nat, held: TaskState, now: nat)
    requires held == Quiesced || held == Stopped
    ensures Evolve(tasks, ResumeAll(tasks, process, held), now)
  {
    hide BudgetOk;
  }

  lemma ResumeOwned(tasks: seq<Task>, current: seq<Option<nat>>, process: nat, held: TaskState)
    requires Owned(tasks, current) && (held == Quiesced || held == Stopped)
    ensures Owned(ResumeAll(tasks, process, held), current)
  {
    hide IndexOf;
    var after := ResumeAll(tasks, process, held);
    forall k | 0 <= k < |current| ensures current[k] == if Continuing(after, current[k]) then current[k] else None {
      assert Rightful(tasks, current[k], k);
      if current[k].Some? {
        IndexOfIds(tasks, after, current[k].value);
      }
    }
    OwnedDrop(tasks, current, after, current);
  }

  // ---------- Retuning ----------

  /** Profiles and priorities change nothing about who runs where. */
  lemma RetuneKeeps(s: Sched, rank: seq<nat>, i: nat, t: Task)
    requires Sane(s.groups, rank) && Good(s) && i < |s.tasks|
    requires t.id == s.tasks[i].id && t.state == s.tasks[i].state && t.affinity == s.tasks[i].affinity
    ensures Good(Retune(s, rank, i, t))
  {
    hide Sane, Owned, Counted;
    OwnedRetune(s.tasks, s.current, i, t);
    RebuiltKeeps(WithTask(s, i, t), rank);
  }

  lemma ProfilesKeep(s: Sched, rank: seq<nat>, id: nat, priority: Byte, weight: nat, p: Profile)
    requires Sane(s.groups, rank) && Good(s)
    ensures Good(SetFair(s, rank, id, priority, weight).s) && Good(SetDeadline(s, rank, id, p).s)
    ensures Fine(s, Donate(s, rank, id, priority).s) && Fine(s, Restore(s, rank, id).s)
  {
    hide Sane, Owned, Counted, Retune, IndexOf, Utilisation, AllowsRealtime, Evolve;
    EvolveRefl(s.tasks, s.now);
    var i := IndexOf(s.tasks, id);
    if i < |s.tasks| {
      var t := s.tasks[i];
      RetuneKeeps(s, rank, i, t.(base := priority, effective := priority, weight := weight, deadline := None,
                                 quantum := QUANTUM_TICKS));
      RetuneKeeps(s, rank, i, Server(t, p, s.now));
      var donated := if t.deadline.None? && priority > t.effective then t.(effective := priority) else t;
      var restored := if t.deadline.None? then t.(effective := t.base) else t;
      RetuneKeeps(s, rank, i, donated);
      RetuneKeeps(s, rank, i, restored);
      EvolveOne(s.tasks, i, donated, s.now);
      EvolveOne(s.tasks, i, restored, s.now);
      RetuneTasks(s, rank, i, donated);
      RetuneTasks(s, rank, i, restored);
    }
  }

  lemma RetuneTasks(s: Sched, rank: seq<nat>, i: nat, t: Task)
    requires Sane(s.groups, rank) && i < |s.tasks|
    ensures Retune(s, rank, i, t).tasks == s.tasks[i := t] && Retune(s, rank, i, t).now == s.now
  {
    hide Sane, Recounted;
  }

  // ---------- Yielding ----------

  lemma YieldToKeeps(s: Sched, rank: seq<nat>, cpu: nat, target: nat)
    requires cpu < |s.current| && OwnedBut(s, cpu)
    requires var j := IndexOf(s.tasks, target); j < |s.tasks| && s.tasks[j].state == Ready && cpu in s.tasks[j].affinity
    ensures var r := YieldTo(s, rank, cpu, target);
      Owned(r.tasks, r.current) && Evolve(s.tasks, r.tasks, s.now) && r.now == s.now
  {
    hide Owned, Evolve, IndexOf;
    var j := IndexOf(s.tasks, target);
    var r := YieldTo(s, rank, cpu, target);
    OwnedAssign(s, cpu, j);
    var given := Assign(s, cpu, Some(j));
    assert given.current == r.current;
    OwnedSame(given.tasks, r.tasks, r.current);
    EvolveOne(s.tasks, j, r.tasks[j], s.now);
  }

  lemma InStateOwned(s: Sched, i: nat, state: TaskState)
    requires Owned(s.tasks, s.current) && i < |s.tasks| && s.tasks[i].state != Running && state != Running
    ensures Owned(InState(s, i, state).tasks, s.current)
  {
    hide Owned;
    OwnedRestate(s.tasks, s.current, i, s.tasks[i].(state := state));
  }

  /** A ready task at `i` yields, or, with `i` out of range, nobody does. */
  lemma YieldAnyKeeps(s: Sched, rank: seq<nat>, cpu: nat, i: nat)
    requires Sane(s.groups, rank) && cpu < |s.current| && i <= |s.tasks| && OwnedBut(s, cpu)
    requires i < |s.tasks| ==> s.tasks[i].state == Ready
    ensures var r := YieldAny(s, rank, cpu, i);
      Owned(r.tasks, r.current) && Evolve(s.tasks, r.tasks, s.now) && r.now == s.now
  {
    hide Sane, ScheduleNext, Owned, Evolve, SameRunnable;
    var held := InState(s, i, Suspended);
    EvolveRefl(s.tasks, s.now);
    if i < |s.tasks| {
      InStateOwned(Vacated(s, cpu), i, Suspended);
      EvolveOne(s.tasks, i, s.tasks[i].(state := Suspended), s.now);
    }
    ScheduleKeeps(held, rank, cpu);
    var found := ScheduleNext(held, rank, cpu);
    EvolveTrans(s.tasks, held.tasks, found.tasks, s.now);
    var back := InState(found, i, Ready);
    EvolveRefl(found.tasks, s.now);
    if i < |s.tasks| {
      assert Started(held.tasks[i], found.tasks[i], cpu);
      InStateOwned(found, i, Ready);
      EvolveOne(found.tasks, i, found.tasks[i].(state := Ready), s.now);
    }
    EvolveTrans(s.tasks, found.tasks, back.tasks, s.now);
    if found.current[cpu].None? {
      assert back.current[cpu := None] == back.current;
      ScheduleKeeps(back, rank, cpu);
      EvolveTrans(s.tasks, back.tasks, ScheduleNext(back, rank, cpu).tasks, s.now);
    }
  }

  lemma YieldKeeps(s: Sched, rank: seq<nat>, cpu: nat, target: Option<nat>)
    requires Sane(s.groups, rank) && Good(s)
    ensures Fine(s, Yield(s, rank, cpu, target).s) && Yield(s, rank, cpu, target).s.now == s.now
  {
    hide Sane, Owned, Counted, Evolve, IndexOf, Recounted, ChargeGroup, YieldAny, YieldTo, Eligible;
    EvolveRefl(s.tasks, s.now);
    if cpu < |s.current| && GoodTarget(s, cpu, target) {
      var c := CurrentIndex(s, cpu);
      var i := if c < |s.tasks| && s.tasks[c].state == Running then c else |s.tasks|;
      var ready := InState(s, i, Ready);
      YieldReady(s, cpu);
      var charged := if i == |s.tasks| then ready
                     else ChargeGroup(ready, rank, s.tasks[i].group, s.tasks[i].deadline.None?, QUANTUM_NS);
      if target.Some? {
        TargetStays(s, cpu, target.value, ready.tasks, i);
        YieldToKeeps(charged, rank, cpu, target.value);
        EvolveTrans(s.tasks, ready.tasks, YieldTo(charged, rank, cpu, target.value).tasks, s.now);
        RebuiltKeeps(YieldTo(charged, rank, cpu, target.value), rank);
      } else {
        YieldAnyKeeps(charged, rank, cpu, i);
        EvolveTrans(s.tasks, ready.tasks, YieldAny(charged, rank, cpu, i).tasks, s.now);
        RebuiltKeeps(YieldAny(charged, rank, cpu, i), rank);
      }
    }
  }

  /** The running task of a CPU, made ready. */
  lemma YieldReady(s: Sched, cpu: nat)
    requires Good(s) && cpu < |s.current|
    ensures var c := CurrentIndex(s, cpu);
      var i := if c < |s.tasks| && s.tasks[c].state == Running then c else |s.tasks|; var ready := InState(s, i, Ready);
      OwnedBut(ready, cpu) && Evolve(s.tasks, ready.tasks, s.now) && (i < |s.tasks| ==> ready.tasks[i].state == Ready)
  {
    hide Owned, Counted, Evolve, IndexOf;
    EvolveRefl(s.tasks, s.now);
    if s.current[cpu].Some? {
      CurrentRuns(s.tasks, s.current, cpu);
      var i := CurrentIndex(s, cpu);
      OwnedLeave(s.tasks, s.current, cpu, i, s.tasks[i].(state := Ready));
      EvolveOne(s.tasks, i, s.tasks[i].(state := Ready), s.now);
    } else {
      assert s.current[cpu := None] == s.current;
    }
  }

  lemma TargetStays(s: Sched, cpu: nat, target: nat, after: seq<Task>, i: nat)
    requires var j := IndexOf(s.tasks, target); j < |s.tasks| && Eligible(s, j, cpu)
    requires |after| == |s.tasks| && (i < |s.tasks| ==> s.tasks[i].state == Running)
    requires forall j :: 0 <= j < |after| ==> after[j].id == s.tasks[j].id && (j != i ==> after[j] == s.tasks[j])
    ensures var j := IndexOf(after, target); j < |after| && after[j].state == Ready && cpu in after[j].affinity
  {
    hide IndexOf;
    IndexOfIds(s.tasks, after, target);
  }

  lemma YieldAtKeeps(s: Sched, rank: seq<nat>, cpu: nat, target: Option<nat>, now: nat)
    requires Sane(s.groups, rank) && Good(s)
    ensures Fine(s, YieldAt(s, rank, cpu, target, now).s)
  {
    hide Owned, Yield, Evolve, Counted, Sane, Account, WakeAll, ExpiredIds;
    EvolveRefl(s.tasks, s.now);
    if cpu < |s.current| && s.now <= now {
      AccountKeeps(s, now, now);
      var paid := Account(s, now).(now := now);
      CountedClock(Account(s, now), paid);
      WakeAllKeeps(paid, rank, ExpiredIds(paid.tasks, now));
      var awake := WakeExpired(paid, rank);
      YieldKeeps(awake, rank, cpu, target);
      EvolveTrans(s.tasks, paid.tasks, awake.tasks, now);
      EvolveTrans(s.tasks, awake.tasks, Yield(awake, rank, cpu, target).s.tasks, now);
    }
  }

  // ---------- Affinity ----------

  lemma {:induction false} EvictNothing(s: Sched, rank: seq<nat>, i: nat, mask: set<nat>, cpu: nat)
    requires Sane(s.groups, rank) && cpu <= |s.current| && i < |s.tasks|
    requires forall k :: cpu <= k < |s.current| && s.current[k] == Some(s.tasks[i].id) ==> k in mask
    ensures Evict(s, rank, i, mask, cpu) == s
    decreases |s.current| - cpu
  {
    hide Sane, ScheduleNext;
    if cpu < |s.current| {
      EvictNothing(s, rank, i, mask, cpu + 1);
    }
  }

  lemma {:induction false} EvictSkips(s: Sched, rank: seq<nat>, i: nat, mask: set<nat>, cpu: nat, c: nat)
    requires Sane(s.groups, rank) && cpu <= c <= |s.current| && i < |s.tasks|
    requires forall k :: cpu <= k < c ==> s.current[k] != Some(s.tasks[i].id)
    ensures Evict(s, rank, i, mask, cpu) == Evict(s, rank, i, mask, c)
    decreases c - cpu
  {
    hide Sane, ScheduleNext;
    if cpu < c {
      EvictSkips(s, rank, i, mask, cpu + 1, c);
    }
  }

  /** The task at `i` runs on CPU `c`, which its mask no longer allows. */
  lemma EvictOne(s: Sched, rank: seq<nat>, i: nat, c: nat)
    requires Sane(s.groups, rank) && i < |s.tasks| && c < |s.current| && s.current[c] == Some(s.tasks[i].id)
    requires OwnedBut(InState(s, i, Ready), c) && c !in s.tasks[i].affinity && s.tasks[i].state == Running
    ensures var r := Evict(s, rank, i, s.tasks[i].affinity, 0);
      Owned(r.tasks, r.current) && Evolve(s.tasks, r.tasks, s.now) && r.now == s.now
  {
    hide Sane, ScheduleNext, Owned, Evolve, SameRunnable;
    var ready, id := InState(s, i, Ready), s.tasks[i].id;
    NotCurrent(ready.tasks, s.current[c := None], i);
    forall k | 0 <= k < c ensures s.current[k] != Some(id) {
      assert s.current[c := None][k] == s.current[k];
    }
    EvictSkips(s, rank, i, s.tasks[i].affinity, 0, c);
    EvolveOne(s.tasks, i, s.tasks[i].(state := Ready), s.now);
    var vacated := Vacated(ready, c);
    assert vacated.current[c := None] == s.current[c := None];
    ScheduleKeeps(vacated, rank, c);
    var r := ScheduleNext(vacated, rank, c);
    EvolveTrans(s.tasks, ready.tasks, r.tasks, s.now);
    assert Started(ready.tasks[i], r.tasks[i], c);
    NotCurrent(r.tasks, r.current, i);
    EvictNothing(r, rank, i, s.tasks[i].affinity, c + 1);
  }

  /** A task whose CPU, if it has one, is allowed by the new mask. */
  lemma OwnedMask(tasks: seq<Task>, current: seq<Option<nat>>, i: nat, mask: set<nat>)
    requires Owned(tasks, current) && i < |tasks|
    requires forall k :: 0 <= k < |current| && current[k] == Some(tasks[i].id) ==> k in mask
    ensures Owned(tasks[i := tasks[i].(affinity := mask)], current)
  {
    hide IndexOf;
    var after := tasks[i := tasks[i].(affinity := mask)];
    forall k | 0 <= k < |current| ensures Rightful(after, current[k], k) {
      assert Rightful(tasks, current[k], k);
      if current[k].Some? {
        IndexOfIds(tasks, after, current[k].value);
      }
    }
  }

  lemma AffinityKeeps(s: Sched, rank: seq<nat>, id: nat, mask: set<nat>)
    requires Sane(s.groups, rank) && Good(s)
    ensures Fine(s, SetAffinity(s, rank, id, mask).s)
  {
    hide Sane, Evict, Owned, Evolve, Counted, IndexOf, Recounted, Cpus;
    EvolveRefl(s.tasks, s.now);
    var i := IndexOf(s.tasks, id);
    if SetAffinity(s, rank, id, mask).error.None? {
      var changed := WithTask(s, i, s.tasks[i].(affinity := mask));
      EvolveOne(s.tasks, i, s.tasks[i].(affinity := mask), s.now);
      EvolveRefl(changed.tasks, s.now);
      if s.tasks[i].state == Running {
        var c := WhereRuns(s.tasks, s.current, i);
        if c !in mask {
          OwnedLeave(s.tasks, s.current, c, i, s.tasks[i].(affinity := mask, state := Ready));
          assert InState(changed, i, Ready).tasks == s.tasks[i := s.tasks[i].(affinity := mask, state := Ready)];
          EvictOne(changed, rank, i, c);
        } else {
          OwnedOnce(s.tasks, s.current);
          OnlyThere(s.current, c);
          OwnedMask(s.tasks, s.current, i, mask);
          EvictNothing(changed, rank, i, mask, 0);
        }
      } else {
        NotCurrent(s.tasks, s.current, i);
        OwnedMask(s.tasks, s.current, i, mask);
        EvictNothing(changed, rank, i, mask, 0);
      }
      var r := Evict(changed, rank, i, mask, 0);
      RebuiltKeeps(r, rank);
      EvolveTrans(s.tasks, changed.tasks, r.tasks, s.now);
    }
  }

  lemma OwnedOnce(tasks: seq<Task>, current: seq<Option<nat>>)
    requires Owned(tasks, current)
    ensures OnceEach(current)
  {
  }

  lemma OnlyThere(current: seq<Option<nat>>, c: nat)
    requires OnceEach(current) && c < |current| && current[c].Some?
    ensures forall k :: 0 <= k < |current| && current[k] == current[c] ==> k == c
  {
  }

  // ---------- Shares and limits ----------

  lemma LimitsKeep(s: Sched, id: nat, shares: nat, permille: nat, realtime: bool)
    requires Good(s)
    ensures Fine(s, SetShares(s, id, shares).s) && Fine(s, SetLimits(s, id, shares, permille, realtime).s)
  {
    hide Owned, Evolve, Count, GroupOf;
    EvolveRefl(s.tasks, s.now);
  }
}
