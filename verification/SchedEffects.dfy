/** What the scheduler's operations do to the tasks they are about, and that they leave the others alone:
    who is ready, blocked, held or gone afterwards, and who runs. */
module SchedEffects {
  import opened Octets
  import opened SchedModel
  import opened SchedGroups
  import opened SchedSelect
  import opened SchedOps
  import opened SchedSteps
  import opened SchedRobin
  import opened SchedPicks

  // ---------- Dispatching ----------

  /** A task that nothing was done to, but that it may have been given a CPU. */
  predicate Passed(t: Task, t': Task) {
    && t'.id == t.id && t'.process == t.process && t'.group == t.group && t'.reason == t.reason
    && t'.affinity == t.affinity && t'.exitCode == t.exitCode && t'.base == t.base && t'.effective == t.effective
    && t'.deadline.Some? == t.deadline.Some?
    && (t'.state == t.state || (t.state == Ready && t'.state == Running))
  }

  ghost predicate AllPassed(a: seq<Task>, b: seq<Task>) {
    |a| == |b| && forall i :: 0 <= i < |a| ==> Passed(a[i], b[i])
  }

  lemma PassedSelf(a: seq<Task>)
    ensures AllPassed(a, a)
  {
  }

  lemma PassedTrans(a: seq<Task>, b: seq<Task>, c: seq<Task>)
    requires AllPassed(a, b) && AllPassed(b, c)
    ensures AllPassed(a, c)
  {
    forall i | 0 <= i < |a| ensures Passed(a[i], c[i]) {
      assert Passed(a[i], b[i]) && Passed(b[i], c[i]);
    }
  }

  /** Scheduling a CPU gives it to a ready task that may run there, or leaves it idle; it touches no other
      CPU, and no other task. */
  lemma SchedulePasses(s: Sched, rank: seq<nat>, cpu: nat)
    requires Sane(s.groups, rank) && cpu < |s.current|
    ensures var r := ScheduleNext(s, rank, cpu);
      && AllPassed(s.tasks, r.tasks)
      && (forall k :: 0 <= k < |s.current| && k != cpu ==> r.current[k] == s.current[k])
      && (r.current[cpu].Some? ==>
            exists i :: 0 <= i < |s.tasks| && r.current[cpu] == Some(s.tasks[i].id) && Eligible(s, i, cpu)
                        && r.tasks[i].state == Running)
  {
    hide Ranked, Shared, Pick, Refilled;
    var filled := s.(tasks := Replenish(s.tasks, s.now));
    PickEligible(filled, rank, cpu);
    var i := Pick(filled, rank, cpu).0;
    if i.Some? {
      assert Eligible(filled, i.value, cpu);
      assert Eligible(s, i.value, cpu);
    }
  }

  lemma {:induction false} FillPasses(s: Sched, rank: seq<nat>, cpu: nat)
    requires Sane(s.groups, rank) && cpu <= |s.current|
    ensures var r := FillIdle(s, rank, cpu);
      && AllPassed(s.tasks, r.tasks)
      && forall k :: 0 <= k < |s.current| && s.current[k].Some? ==> r.current[k] == s.current[k]
    decreases |s.current| - cpu
  {
    hide Sane, ScheduleNext, AllPassed;
    if cpu == |s.current| {
      PassedSelf(s.tasks);
    } else if s.current[cpu].None? {
      var next := ScheduleNext(s, rank, cpu);
      SchedulePasses(s, rank, cpu);
      FillPasses(next, rank, cpu + 1);
      PassedTrans(s.tasks, next.tasks, FillIdle(s, rank, cpu).tasks);
    } else {
      FillPasses(s, rank, cpu + 1);
    }
  }

  lemma RefillPasses(s: Sched, rank: seq<nat>)
    requires Sane(s.groups, rank)
    ensures var r := FillIdle(Rebuilt(s, rank), rank, 0);
      && AllPassed(s.tasks, r.tasks)
      && forall k :: 0 <= k < |s.current| && s.current[k].Some? ==> r.current[k] == s.current[k]
  {
    hide Sane, FillIdle, Rebuilt, AllPassed;
    FillPasses(Rebuilt(s, rank), rank, 0);
  }

  /** A fair task that an idle CPU could run: ready, allowed there, of a group with quota. */
  ghost predicate Waits(s: Sched, rank: seq<nat>, cpu: nat, i: nat, g: nat)
    requires Ranked(s.groups, rank)
  {
    && i < |s.tasks| && g < |s.groups| && Eligible(s, i, cpu) && s.tasks[i].deadline.None?
    && s.tasks[i].group == s.groups[g].id && HasQuota(s.groups, rank, g)
  }

  /** No CPU below `n` is idle while a fair task waits that it could run. */
  ghost predicate Busy(s: Sched, rank: seq<nat>, n: nat)
    requires Ranked(s.groups, rank) && n <= |s.current|
  {
    forall k: nat, i: nat, g: nat :: k < n && s.current[k].None? ==> !Waits(s, rank, k, i, g)
  }

  lemma WaitingReady(s: Sched, rank: seq<nat>, cpu: nat, i: nat, g: nat)
    requires Ranked(s.groups, rank) && Waits(s, rank, cpu, i, g)
    ensures GroupReady(s.(tasks := Replenish(s.tasks, s.now)), rank, g, cpu)
  {
    hide Ranked, HasQuota, Refilled;
    assert FairReady(s.(tasks := Replenish(s.tasks, s.now)), i, cpu, s.groups[g].id);
  }

  /** A CPU is left idle only when nothing waits for it. */
  lemma IdleMeansNothing(s: Sched, rank: seq<nat>, cpu: nat, i: nat, g: nat)
    requires Sane(s.groups, rank) && cpu < |s.current| && ScheduleNext(s, rank, cpu).current[cpu].None?
    ensures !Waits(s, rank, cpu, i, g)
  {
    hide Ranked, Shared, Earliest, LeastRun, HasQuota, Refilled, InGroup, IsTop;
    var filled := s.(tasks := Replenish(s.tasks, s.now));
    PickIs(filled, rank, cpu);
    if Waits(s, rank, cpu, i, g) {
      WaitingReady(s, rank, cpu, i, g);
    }
  }

  /** What can run later could run before: dispatching makes nobody ready and frees no CPU. */
  lemma WaitsBefore(s: Sched, r: Sched, rank: seq<nat>, cpu: nat, i: nat, g: nat)
    requires Ranked(s.groups, rank) && r.groups == s.groups && |r.current| == |s.current|
    requires AllPassed(s.tasks, r.tasks) && Waits(r, rank, cpu, i, g)
    requires forall k :: 0 <= k < |s.current| && s.current[k].Some? ==> r.current[k] == s.current[k]
    ensures Waits(s, rank, cpu, i, g)
  {
    hide Ranked, HasQuota;
    assert Passed(s.tasks[i], r.tasks[i]);
  }

  lemma BusyLater(s: Sched, r: Sched, rank: seq<nat>, n: nat)
    requires Ranked(s.groups, rank) && r.groups == s.groups && |r.current| == |s.current| && n <= |s.current|
    requires AllPassed(s.tasks, r.tasks) && Busy(s, rank, n)
    requires forall k :: 0 <= k < |s.current| && s.current[k].Some? ==> r.current[k] == s.current[k]
    ensures Busy(r, rank, n)
  {
    hide Ranked, Waits, AllPassed;
    forall k: nat, i: nat, g: nat | k < n && r.current[k].None? ensures !Waits(r, rank, k, i, g) {
      if Waits(r, rank, k, i, g) {
        WaitsBefore(s, r, rank, k, i, g);
      }
    }
  }

  lemma {:induction false} FillBusy(s: Sched, rank: seq<nat>, cpu: nat)
    requires Sane(s.groups, rank) && cpu <= |s.current| && Busy(s, rank, cpu)
    ensures Busy(FillIdle(s, rank, cpu), rank, |s.current|)
    decreases |s.current| - cpu
  {
    hide Ranked, Shared, ScheduleNext, AllPassed, Waits, Eligible;
    if cpu < |s.current| {
      if s.current[cpu].None? {
        var next := ScheduleNext(s, rank, cpu);
        SchedulePasses(s, rank, cpu);
        BusyLater(s, next, rank, cpu);
        forall i: nat, g: nat | next.current[cpu].None? ensures !Waits(next, rank, cpu, i, g) {
          IdleMeansNothing(s, rank, cpu, i, g);
          if Waits(next, rank, cpu, i, g) {
            WaitsBefore(s, next, rank, cpu, i, g);
          }
        }
        FillBusy(next, rank, cpu + 1);
      } else {
        FillBusy(s, rank, cpu + 1);
      }
    }
  }

  /** After waking, exiting, holding, resuming and adding, no CPU is idle while a fair task waits for it. */
  lemma RefillBusy(s: Sched, rank: seq<nat>)
    requires Sane(s.groups, rank)
    ensures Busy(FillIdle(Rebuilt(s, rank), rank, 0), rank, |s.current|)
  {
    hide FillIdle, Rebuilt, Ranked, Shared, Waits;
    FillBusy(Rebuilt(s, rank), rank, 0);
  }

  /** Every task but those of the given index. */
  ghost predicate OthersPassed(a: seq<Task>, b: seq<Task>, i: nat) {
    |a| == |b| && forall j :: 0 <= j < |a| && j != i ==> Passed(a[j], b[j])
  }

  lemma ChangedOne(s: Sched, i: nat, t: Task, b: seq<Task>)
    requires i < |s.tasks| && AllPassed(WithTask(s, i, t).tasks, b)
    ensures OthersPassed(s.tasks, b, i) && Passed(t, b[i])
  {
    var a := WithTask(s, i, t).tasks;
    assert Passed(a[i], b[i]);
    forall j | 0 <= j < |s.tasks| && j != i ensures Passed(s.tasks[j], b[j]) {
      assert Passed(a[j], b[j]);
    }
  }

  // ---------- Waking ----------

  /** Waking makes a blocked or suspended task ready, or lets it run at once, and clears what it waited for;
      a held task only forgets what it waited for. It fails exactly for a task that does not exist. */
  lemma WakeEffect(s: Sched, rank: seq<nat>, id: nat)
    requires Sane(s.groups, rank)
    ensures var r, i := Wake(s, rank, id), IndexOf(s.tasks, id);
      && (r.error.Some? <==> i == |s.tasks|) && (r.error.Some? ==> r.s == s)
      && (i < |s.tasks| ==>
            && OthersPassed(s.tasks, r.s.tasks, i) && r.s.tasks[i].id == id
            && (s.tasks[i].state == Blocked || s.tasks[i].state == Suspended ==>
                  (r.s.tasks[i].state == Ready || r.s.tasks[i].state == Running) && r.s.tasks[i].reason.None?)
            && (s.tasks[i].state == Quiesced || s.tasks[i].state == Stopped ==>
                  r.s.tasks[i].state == s.tasks[i].state && r.s.tasks[i].reason.None?)
            && (Runnable(s.tasks[i]) || s.tasks[i].state == Exited ==> Passed(s.tasks[i], r.s.tasks[i])))
  {
    hide Sane, FillIdle, Rebuilt, AllPassed, IndexOf;
    var i := IndexOf(s.tasks, id);
    if i < |s.tasks| {
      var woken := WithTask(s, i, Woken(s.tasks[i]));
      RefillPasses(woken, rank);
      ChangedOne(s, i, Woken(s.tasks[i]), Wake(s, rank, id).s.tasks);
    }
  }

  /** And no CPU stays idle that could run it. */
  lemma WakeBusy(s: Sched, rank: seq<nat>, id: nat)
    requires Sane(s.groups, rank) && Wake(s, rank, id).error.None?
    ensures Busy(Wake(s, rank, id).s, rank, |s.current|)
  {
    hide FillIdle, Rebuilt, Ranked, Shared, Waits, IndexOf;
    var i := IndexOf(s.tasks, id);
    RefillBusy(WithTask(s, i, Woken(s.tasks[i])), rank);
  }

  /** What a list of wakes does to one task: it never blocks anyone, and those it names are not left
      blocked. */
  lemma {:induction false} WakeAllEffect(s: Sched, rank: seq<nat>, ids: seq<nat>, i: nat)
    requires Sane(s.groups, rank) && UniqueTasks(s.tasks) && i < |s.tasks|
    ensures var r := WakeAll(s, rank, ids);
      && |r.tasks| == |s.tasks| && r.tasks[i].id == s.tasks[i].id
      && (r.tasks[i].state == Blocked ==>
            s.tasks[i].state == Blocked && r.tasks[i].reason == s.tasks[i].reason && s.tasks[i].id !in ids)
    decreases |ids|
  {
    hide Sane, Wake, UniqueTasks, IndexOf;
    if ids != [] {
      var next := Wake(s, rank, ids[0]).s;
      WakeOneOf(s, rank, ids[0], i);
      WakeAllEffect(next, rank, ids[1..], i);
    }
  }

  lemma WakeOneOf(s: Sched, rank: seq<nat>, id: nat, i: nat)
    requires Sane(s.groups, rank) && UniqueTasks(s.tasks) && i < |s.tasks|
    ensures var r := Wake(s, rank, id).s;
      && |r.tasks| == |s.tasks| && UniqueTasks(r.tasks) && r.tasks[i].id == s.tasks[i].id
      && (r.tasks[i].state == Blocked ==>
            s.tasks[i].state == Blocked && r.tasks[i].reason == s.tasks[i].reason && s.tasks[i].id != id)
  {
    hide Sane, Wake, IndexOf;
    WakeEffect(s, rank, id);
    var k := IndexOf(s.tasks, id);
    if k < |s.tasks| {
      forall j | 0 <= j < |s.tasks| ensures Wake(s, rank, id).s.tasks[j].id == s.tasks[j].id {
        if j != k {
          assert Passed(s.tasks[j], Wake(s, rank, id).s.tasks[j]);
        }
      }
      if s.tasks[i].id == id {
        IndexOfAt(s.tasks, i);
      } else {
        assert Passed(s.tasks[i], Wake(s, rank, id).s.tasks[i]);
      }
    } else {
      assert s.tasks[i].id != id;
    }
  }

  lemma {:induction false} ExpiredListed(tasks: seq<Task>, now: nat, i: nat)
    requires i < |tasks| && Expired(tasks[i], now)
    ensures tasks[i].id in ExpiredIds(tasks, now)
  {
    var last := |tasks| - 1;
    if i < last {
      ExpiredListed(tasks[..last], now, i);
    }
  }

  /** Nobody still waits for a time that has come. */
  ghost predicate NobodyOverslept(s: Sched, now: nat) {
    forall i :: 0 <= i < |s.tasks| && s.tasks[i].state == Blocked ==>
      var reason := s.tasks[i].reason;
      reason.Some? && reason.value.Until? ==> now < reason.value.deadline
  }

  lemma WakeExpiredEffect(s: Sched, rank: seq<nat>)
    requires Sane(s.groups, rank) && UniqueTasks(s.tasks)
    ensures NobodyOverslept(WakeExpired(s, rank), s.now)
  {
    hide Sane, WakeAll, ExpiredIds, UniqueTasks;
    var ids := ExpiredIds(s.tasks, s.now);
    var r := WakeExpired(s, rank);
    if |s.tasks| == 0 {
      WakeAllNone(s, rank, ids);
    } else {
      WakeAllEffect(s, rank, ids, 0);
    }
    forall i | 0 <= i < |r.tasks| && r.tasks[i].state == Blocked ensures !Expired(r.tasks[i], s.now) {
      WakeAllEffect(s, rank, ids, i);
      if Expired(s.tasks[i], s.now) {
        ExpiredListed(s.tasks, s.now, i);
      }
    }
  }

  lemma {:induction false} WakeAllNone(s: Sched, rank: seq<nat>, ids: seq<nat>)
    requires Sane(s.groups, rank) && |s.tasks| == 0
    ensures |WakeAll(s, rank, ids).tasks| == 0
    decreases |ids|
  {
    hide Sane;
    if ids != [] {
      WakeAllNone(Wake(s, rank, ids[0]).s, rank, ids[1..]);
    }
  }

  // ---------- Ticks ----------

  /** Neither charging nor preempting nor dispatching blocks anyone. */
  ghost predicate NoneBlocked(a: seq<Task>, b: seq<Task>) {
    && |a| == |b|
    && forall i :: 0 <= i < |a| && b[i].state == Blocked ==> a[i].state == Blocked && b[i].reason == a[i].reason
  }

  lemma PassedBlocksNone(a: seq<Task>, b: seq<Task>)
    requires AllPassed(a, b)
    ensures NoneBlocked(a, b)
  {
    forall i | 0 <= i < |a| && b[i].state == Blocked ensures a[i].state == Blocked && b[i].reason == a[i].reason {
      assert Passed(a[i], b[i]);
    }
  }

  lemma TickBlocksNone(s: Sched, rank: seq<nat>, cpu: nat, elapsed: nat)
    requires Sane(s.groups, rank) && cpu < |s.current|
    ensures NoneBlocked(s.tasks, TickCurrent(s, rank, cpu, elapsed).tasks)
  {
    hide Sane, ScheduleNext, ChargeGroup, IndexOf, AllPassed;
    var i := CurrentIndex(s, cpu);
    if i == |s.tasks| {
      SchedulePasses(s, rank, cpu);
      PassedBlocksNone(s.tasks, ScheduleNext(s, rank, cpu).tasks);
    } else {
      var t := Ticked(s.tasks[i], s.now);
      if !Continues(t, s.now) {
        var charged := ChargeGroup(WithTask(s, i, Preempted(t)), rank, t.group, t.deadline.None?, elapsed);
        SchedulePasses(charged, rank, cpu);
        PassedBlocksNone(charged.tasks, ScheduleNext(charged, rank, cpu).tasks);
      }
    }
  }

  lemma AccountUnique(s: Sched, at: nat)
    requires UniqueTasks(s.tasks)
    ensures UniqueTasks(Account(s, at).tasks)
  {
    hide Account, SameIds;
    AccountIds(s, at);
    SameUnique(s.tasks, Account(s, at).tasks);
  }

  /** After a tick, no task is still blocked on a time that has come. */
  lemma TickWakes(s: Sched, rank: seq<nat>, cpu: nat, now: nat)
    requires Sane(s.groups, rank) && UniqueTasks(s.tasks) && Tick(s, rank, cpu, now).error.None?
    ensures NobodyOverslept(Tick(s, rank, cpu, now).s, now)
  {
    hide Sane, Account, WakeExpired, TickCurrent, UniqueTasks;
    var paid := Account(s, now).(now := now, ticks := SatAdd(s.ticks, 1));
    AccountUnique(s, now);
    WakeExpiredEffect(paid, rank);
    TickBlocksNone(WakeExpired(paid, rank), rank, cpu, now - s.now);
  }

  lemma {:induction false} SpendKeeps(s: Sched, cpu: nat, elapsed: nat, spent: nat, i: nat)
    requires cpu <= |s.current| && i < |s.tasks|
    ensures var t := SpendFrom(s, cpu, elapsed, spent).tasks[i]; t == s.tasks[i].(deadline := t.deadline)
    decreases |s.current| - cpu
  {
    hide IndexOf, ThreadOf, Spent;
    if cpu < |s.current| {
      SpendKeeps(SpendOn(s, cpu, elapsed, spent), cpu + 1, elapsed, spent, i);
    }
  }

  lemma {:induction false} ExpiredOnly(tasks: seq<Task>, now: nat, i: nat)
    requires UniqueTasks(tasks) && i < |tasks| && tasks[i].id in ExpiredIds(tasks, now)
    ensures Expired(tasks[i], now)
  {
    var last := |tasks| - 1;
    if i < last {
      ExpiredOnly(tasks[..last], now, i);
    } else if tasks[i].id in ExpiredIds(tasks[..last], now) {
      ExpiredAmong(tasks[..last], now, tasks[i].id);
    }
  }

  lemma {:induction false} ExpiredAmong(tasks: seq<Task>, now: nat, id: nat)
    requires id in ExpiredIds(tasks, now)
    ensures exists j :: 0 <= j < |tasks| && tasks[j].id == id
  {
    var last := |tasks| - 1;
    if id in ExpiredIds(tasks[..last], now) {
      ExpiredAmong(tasks[..last], now, id);
    }
  }

  /** A blocked task that is not named sleeps on. */
  lemma {:induction false} WakeAllLets(s: Sched, rank: seq<nat>, ids: seq<nat>, i: nat)
    requires Sane(s.groups, rank) && i < |s.tasks| && s.tasks[i].state == Blocked && s.tasks[i].id !in ids
    ensures var r := WakeAll(s, rank, ids);
      i < |r.tasks| && r.tasks[i].state == Blocked && r.tasks[i].reason == s.tasks[i].reason
    decreases |ids|
  {
    hide Sane, Wake, IndexOf;
    if ids != [] {
      var next := Wake(s, rank, ids[0]).s;
      WakeEffect(s, rank, ids[0]);
      assert Passed(s.tasks[i], next.tasks[i]);
      WakeAllLets(next, rank, ids[1..], i);
    }
  }

  lemma TickLets(s: Sched, rank: seq<nat>, cpu: nat, elapsed: nat, i: nat)
    requires Sane(s.groups, rank) && cpu < |s.current| && i < |s.tasks| && s.tasks[i].state == Blocked
    ensures var r := TickCurrent(s, rank, cpu, elapsed);
      i < |r.tasks| && r.tasks[i].state == Blocked && r.tasks[i].reason == s.tasks[i].reason
  {
    hide Sane, ScheduleNext, ChargeGroup, IndexOf;
    var c := CurrentIndex(s, cpu);
    if c == |s.tasks| {
      SchedulePasses(s, rank, cpu);
      assert Passed(s.tasks[i], ScheduleNext(s, rank, cpu).tasks[i]);
    } else {
      var t := Ticked(s.tasks[c], s.now);
      if !Continues(t, s.now) {
        var charged := ChargeGroup(WithTask(s, c, Preempted(t)), rank, t.group, t.deadline.None?, elapsed);
        SchedulePasses(charged, rank, cpu);
        assert Passed(charged.tasks[i], ScheduleNext(charged, rank, cpu).tasks[i]);
      }
    }
  }

  /** And a tick wakes nobody early: who is blocked on a later time, or on something else, sleeps on. */
  lemma TickLetsSleep(s: Sched, rank: seq<nat>, cpu: nat, now: nat, i: nat)
    requires Sane(s.groups, rank) && UniqueTasks(s.tasks) && Tick(s, rank, cpu, now).error.None?
    requires i < |s.tasks| && s.tasks[i].state == Blocked
    requires var reason := s.tasks[i].reason; reason.Some? && reason.value.Until? ==> now < reason.value.deadline
    ensures var r := Tick(s, rank, cpu, now).s;
      i < |r.tasks| && r.tasks[i].state == Blocked && r.tasks[i].reason == s.tasks[i].reason
  {
    hide Sane, SpendFrom, WakeAll, ExpiredIds, TickCurrent, UniqueTasks;
    var paid := Account(s, now).(now := now, ticks := SatAdd(s.ticks, 1));
    AccountUnique(s, now);
    if !(s.last.Some? && now < s.last.value) {
      SpendKeeps(s, 0, if s.last.Some? then now - s.last.value else 0,
                 if s.last.Some? then now - s.last.value else SatSub(now, s.now), i);
    }
    var ids := ExpiredIds(paid.tasks, now);
    if paid.tasks[i].id in ids {
      ExpiredOnly(paid.tasks, now, i);
    }
    WakeAllLets(paid, rank, ids, i);
    TickLets(WakeExpired(paid, rank), rank, cpu, now - s.now, i);
  }

  /** A task has time left: a fair one of its quantum, a server of its budget. */
  predicate HasTime(t: Task, now: nat) {
    if t.deadline.Some? then t.deadline.value.remaining > 0 else t.quantum > 0 && t.quantumEnd > now
  }

  /** The task that a tick leaves on its CPU runs and has time left. */
  lemma TickLeavesTime(s: Sched, rank: seq<nat>, cpu: nat, elapsed: nat)
    requires Sane(s.groups, rank) && cpu < |s.current| && UniqueTasks(s.tasks) && s.now + QUANTUM_NS <= MAX
    ensures var r := TickCurrent(s, rank, cpu, elapsed);
      r.current[cpu].Some? ==>
        exists i :: 0 <= i < |r.tasks| && r.current[cpu] == Some(r.tasks[i].id) && r.tasks[i].state == Running
                    && HasTime(r.tasks[i], r.now)
  {
    hide Sane, ScheduleNext, ChargeGroup, IndexOf;
    var i := CurrentIndex(s, cpu);
    if i == |s.tasks| {
      ScheduleGivesTime(s, rank, cpu);
    } else {
      var t := Ticked(s.tasks[i], s.now);
      if Continues(t, s.now) {
        var r := TickCurrent(s, rank, cpu, elapsed);
        assert r.tasks[i] == t && r.current == s.current;
      } else {
        var charged := ChargeGroup(WithTask(s, i, Preempted(t)), rank, t.group, t.deadline.None?, elapsed);
        ScheduleGivesTime(charged, rank, cpu);
      }
    }
  }

  /** A tick takes the CPU from nobody who still has time: a running server with budget, or a fair task with
      more than a tick left of a quantum that has not ended, stays. A fair task without starts a new quantum. */
  lemma TickKeepsRunner(s: Sched, rank: seq<nat>, cpu: nat, elapsed: nat)
    requires Sane(s.groups, rank) && cpu < |s.current| && s.now < MAX
    requires CurrentIndex(s, cpu) < |s.tasks| && s.tasks[CurrentIndex(s, cpu)].state == Running
    ensures var r, i := TickCurrent(s, rank, cpu, elapsed), CurrentIndex(s, cpu); var t := s.tasks[i];
      var stays := if t.deadline.Some? then t.deadline.value.remaining > 0
                   else t.quantum > 1 && (t.quantumEnd == 0 || t.quantumEnd > s.now);
      && |r.tasks| == |s.tasks|
      && (stays ==> r.current == s.current && r.tasks[i].state == Running && r.tasks[i].deadline == t.deadline)
      && (stays && t.deadline.None? ==> r.tasks[i].quantum == t.quantum - 1)
      && (!stays && t.deadline.None? ==> r.tasks[i].quantum == QUANTUM_TICKS)
  {
    hide Sane, ScheduleNext, ChargeGroup, IndexOf;
    var i := CurrentIndex(s, cpu);
    var t := Ticked(s.tasks[i], s.now);
    if !Continues(t, s.now) {
      QuantumStays(ChargeGroup(WithTask(s, i, Preempted(t)), rank, t.group, t.deadline.None?, elapsed), rank, cpu, i);
    }
  }

  lemma QuantumStays(s: Sched, rank: seq<nat>, cpu: nat, i: nat)
    requires Sane(s.groups, rank) && cpu < |s.current| && i < |s.tasks| && s.tasks[i].quantum == QUANTUM_TICKS
    ensures ScheduleNext(s, rank, cpu).tasks[i].quantum == QUANTUM_TICKS
  {
    hide Ranked, Shared, Pick, Refilled;
    PickEligible(s.(tasks := Replenish(s.tasks, s.now)), rank, cpu);
  }

  /** Whoever is given a CPU has time to use there. */
  lemma ScheduleGivesTime(s: Sched, rank: seq<nat>, cpu: nat)
    requires Sane(s.groups, rank) && cpu < |s.current| && s.now + QUANTUM_NS <= MAX
    ensures var r := ScheduleNext(s, rank, cpu);
      r.current[cpu].Some? ==>
        exists i :: 0 <= i < |r.tasks| && r.current[cpu] == Some(r.tasks[i].id) && r.tasks[i].state == Running
                    && HasTime(r.tasks[i], r.now)
  {
    hide Ranked, Shared, Refilled, Earliest, LeastRun, InGroup, FairReady, IsTop, GroupReady;
    var filled := s.(tasks := Replenish(s.tasks, s.now));
    PickIs(filled, rank, cpu);
    EarliestHasBudget(filled, cpu);
    FairHasNoServer(filled, rank, cpu);
    PickEligible(filled, rank, cpu);
    var i := Pick(filled, rank, cpu).0;
    if i.Some? {
      var r := ScheduleNext(s, rank, cpu);
      assert r.tasks[i.value] == Dispatched(filled.tasks[i.value], cpu, s.now);
    }
  }

  lemma EarliestHasBudget(s: Sched, cpu: nat)
    ensures var i := Earliest(s, cpu); i.Some? ==>
      i.value < |s.tasks| && s.tasks[i.value].deadline.Some? && s.tasks[i.value].deadline.value.remaining > 0
  {
    hide Earliest;
    EarliestIs(s, cpu);
  }

  lemma FairHasNoServer(s: Sched, rank: seq<nat>, cpu: nat)
    requires Ranked(s.groups, rank)
    ensures var i := PickFair(s, rank, cpu).0; i.Some? ==> i.value < |s.tasks| && s.tasks[i.value].deadline.None?
  {
    hide LeastRun, MaxFair, Scan, StartIndex;
  }

  // ---------- Leaving a CPU ----------

  /** The current task leaves in another state, somebody else may get the CPU, and nothing else changes. */
  lemma LeaveEffect(s: Sched, rank: seq<nat>, cpu: nat, i: nat, t: Task)
    requires Sane(s.groups, rank) && cpu < |s.current| && i < |s.tasks| && t.id == s.tasks[i].id
    requires UniqueTasks(s.tasks) && t.state != Ready
    ensures var r := Leave(s, rank, cpu, i, t);
      && OthersPassed(s.tasks, r.tasks, i) && Passed(t, r.tasks[i]) && r.tasks[i].state == t.state
      && r.current[cpu] != Some(t.id) && forall k :: 0 <= k < |s.current| && k != cpu ==> r.current[k] == s.current[k]
  {
    hide Sane, ScheduleNext, Rebuilt, AllPassed;
    var gone := Vacated(Rebuilt(WithTask(s, i, t), rank), cpu);
    SchedulePasses(gone, rank, cpu);
    var r := Leave(s, rank, cpu, i, t);
    ChangedOne(s, i, t, r.tasks);
  }

  /** Blocking: the current task waits for what was given, and its CPU goes to somebody else or idle. */
  lemma BlockEffect(s: Sched, rank: seq<nat>, cpu: nat, reason: Reason)
    requires Sane(s.groups, rank) && UniqueTasks(s.tasks)
    ensures var r, i := Block(s, rank, cpu, reason), CurrentIndex(s, cpu);
      && (r.error.Some? <==> i == |s.tasks|) && (r.error.Some? ==> r.s == s)
      && (i < |s.tasks| ==>
            && OthersPassed(s.tasks, r.s.tasks, i) && r.s.current[cpu] != Some(s.tasks[i].id)
            && r.s.tasks[i].state == Blocked && r.s.tasks[i].reason == Some(reason) && r.s.tasks[i].id == s.tasks[i].id)
  {
    hide Sane, Leave, UniqueTasks, IndexOf;
    var i := CurrentIndex(s, cpu);
    if i < |s.tasks| {
      LeaveEffect(s, rank, cpu, i, s.tasks[i].(state := Blocked, reason := Some(reason), quantum := QUANTUM_TICKS));
    }
  }

  lemma ExitCurrentEffect(s: Sched, rank: seq<nat>, cpu: nat, code: int)
    requires Sane(s.groups, rank) && UniqueTasks(s.tasks)
    ensures var r, i := ExitCurrent(s, rank, cpu, code), CurrentIndex(s, cpu);
      && (r.error.Some? <==> i == |s.tasks|) && (r.error.Some? ==> r.s == s)
      && (i < |s.tasks| ==>
            && OthersPassed(s.tasks, r.s.tasks, i) && r.s.current[cpu] != Some(s.tasks[i].id)
            && r.s.tasks[i].state == Exited && r.s.tasks[i].exitCode == code && r.s.tasks[i].id == s.tasks[i].id)
  {
    hide Sane, Leave, UniqueTasks, IndexOf;
    var i := CurrentIndex(s, cpu);
    if i < |s.tasks| {
      LeaveEffect(s, rank, cpu, i, s.tasks[i].(state := Exited, exitCode := code, quantum := 0));
    }
  }

  // ---------- Taking tasks off every CPU ----------

  /** No CPU runs one of these. */
  ghost predicate Off(current: seq<Option<nat>>, ids: set<nat>) {
    forall k :: 0 <= k < |current| && current[k].Some? ==> current[k].value !in ids
  }

  /** None of these may be picked. */
  ghost predicate NotReady(tasks: seq<Task>, ids: set<nat>) {
    forall i :: 0 <= i < |tasks| && tasks[i].id in ids ==> tasks[i].state != Ready
  }

  lemma ScheduleStaysOff(s: Sched, rank: seq<nat>, cpu: nat, ids: set<nat>)
    requires Sane(s.groups, rank) && cpu < |s.current| && NotReady(s.tasks, ids)
    ensures var r := ScheduleNext(s, rank, cpu);
      NotReady(r.tasks, ids) && (r.current[cpu].Some? ==> r.current[cpu].value !in ids)
  {
    hide Sane, ScheduleNext;
    SchedulePasses(s, rank, cpu);
    var r := ScheduleNext(s, rank, cpu);
    forall i | 0 <= i < |r.tasks| && r.tasks[i].id in ids ensures r.tasks[i].state != Ready {
      assert Passed(s.tasks[i], r.tasks[i]);
    }
  }

  lemma {:induction false} FillStaysOff(s: Sched, rank: seq<nat>, cpu: nat, ids: set<nat>)
    requires Sane(s.groups, rank) && cpu <= |s.current| && NotReady(s.tasks, ids) && Off(s.current, ids)
    ensures Off(FillIdle(s, rank, cpu).current, ids)
    decreases |s.current| - cpu
  {
    hide Sane, ScheduleNext, NotReady, Passed;
    if cpu < |s.current| {
      if s.current[cpu].None? {
        ScheduleStaysOff(s, rank, cpu, ids);
        SchedulePasses(s, rank, cpu);
        FillStaysOff(ScheduleNext(s, rank, cpu), rank, cpu + 1, ids);
      } else {
        FillStaysOff(s, rank, cpu + 1, ids);
      }
    }
  }

  lemma FreedOff(current: seq<Option<nat>>, ids: set<nat>)
    ensures Off(Freed(current, ids), ids)
  {
  }

  lemma {:induction false} DisplaceEffect(s: Sched, rank: seq<nat>, id: nat, cpu: nat)
    requires Sane(s.groups, rank) && cpu <= |s.current| && NotReady(s.tasks, {id})
    requires forall k :: 0 <= k < cpu ==> s.current[k] != Some(id)
    ensures var r := Displace(s, rank, id, cpu); AllPassed(s.tasks, r.tasks) && Off(r.current, {id})
    decreases |s.current| - cpu
  {
    hide Sane, ScheduleNext, AllPassed, NotReady;
    if cpu == |s.current| {
      PassedSelf(s.tasks);
    } else if s.current[cpu] == Some(id) {
      var gone := Vacated(s, cpu);
      var next := ScheduleNext(gone, rank, cpu);
      ScheduleStaysOff(gone, rank, cpu, {id});
      SchedulePasses(gone, rank, cpu);
      DisplaceEffect(next, rank, id, cpu + 1);
      PassedTrans(s.tasks, next.tasks, Displace(s, rank, id, cpu).tasks);
    } else {
      DisplaceEffect(s, rank, id, cpu + 1);
    }
  }

  lemma OneNotReady(s: Sched, i: nat, t: Task, id: nat)
    requires UniqueTasks(s.tasks) && i < |s.tasks| && s.tasks[i].id == id == t.id && t.state != Ready
    ensures NotReady(WithTask(s, i, t).tasks, {id})
  {
  }

  /** Suspending: the task is suspended and no CPU runs it, wherever it ran; one that has exited stays so. */
  lemma SuspendEffect(s: Sched, rank: seq<nat>, id: nat)
    requires Sane(s.groups, rank) && UniqueTasks(s.tasks)
    ensures var r, i := Suspend(s, rank, id), IndexOf(s.tasks, id);
      && (r.error.Some? <==> i == |s.tasks|) && (r.error.Some? ==> r.s == s)
      && (i < |s.tasks| ==>
            && OthersPassed(s.tasks, r.s.tasks, i) && r.s.tasks[i].reason == s.tasks[i].reason
            && r.s.tasks[i].state == (if s.tasks[i].state == Exited then Exited else Suspended)
            && Off(r.s.current, {id}))
  {
    hide Sane, Displace, Rebuilt, AllPassed, IndexOf, UniqueTasks, NotReady;
    var i := IndexOf(s.tasks, id);
    if i < |s.tasks| {
      var t := if s.tasks[i].state == Exited then s.tasks[i]
               else s.tasks[i].(state := Suspended, quantum := QUANTUM_TICKS);
      OneNotReady(s, i, t, id);
      DisplaceEffect(WithTask(s, i, t), rank, id, 0);
      ChangedOne(s, i, t, Displace(WithTask(s, i, t), rank, id, 0).tasks);
    }
  }

  /** Exiting: the task is gone with its code, waits for nothing, and no CPU runs it. */
  lemma ExitEffect(s: Sched, rank: seq<nat>, id: nat, code: int)
    requires Sane(s.groups, rank) && UniqueTasks(s.tasks)
    ensures var r, i := Exit(s, rank, id, code), IndexOf(s.tasks, id);
      && (r.error.Some? <==> i == |s.tasks|) && (r.error.Some? ==> r.s == s)
      && (i < |s.tasks| ==>
            && OthersPassed(s.tasks, r.s.tasks, i) && Off(r.s.current, {id})
            && r.s.tasks[i].state == Exited && r.s.tasks[i].exitCode == code && r.s.tasks[i].reason.None?)
  {
    hide Sane, FillIdle, Rebuilt, AllPassed, IndexOf, UniqueTasks, NotReady, Off;
    var i := IndexOf(s.tasks, id);
    if i < |s.tasks| {
      var t := s.tasks[i].(state := Exited, exitCode := code, quantum := 0, reason := None);
      var gone := WithTask(s, i, t).(current := Freed(s.current, {id}));
      OneNotReady(s, i, t, id);
      FreedOff(s.current, {id});
      RefillPasses(gone, rank);
      FillStaysOff(Rebuilt(gone, rank), rank, 0, {id});
      ChangedOne(s, i, t, Exit(s, rank, id, code).s.tasks);
    }
  }

  // ---------- Holding a process and letting it go ----------

  /** The tasks that are held. */
  function HeldOf(tasks: seq<Task>, process: nat, held: TaskState): set<nat> {
    set i | 0 <= i < |tasks| && tasks[i].process == process && tasks[i].state == held :: tasks[i].id
  }

  /** Quiescing or stopping a process: every task of it that was ready, running or blocked, and for a stop
      also suspended, is held and runs nowhere, and still knows what it waited for; all others are left alone. */
  lemma HoldEffect(s: Sched, rank: seq<nat>, process: nat, held: TaskState)
    requires Sane(s.groups, rank) && UniqueTasks(s.tasks) && (held == Quiesced || held == Stopped)
    ensures var r := HoldProcess(s, rank, process, held);
      && |r.tasks| == |s.tasks|
      && (forall i :: 0 <= i < |s.tasks| ==>
            var t := s.tasks[i];
            var taken := t.process == process && (t.state == Ready || t.state == Running || t.state == Blocked
                                                  || (held == Stopped && t.state == Suspended));
            && (taken ==> r.tasks[i].state == held && r.tasks[i].reason == t.reason && r.tasks[i].id == t.id)
            && (!taken ==> Passed(t, r.tasks[i])))
      && Off(r.current, HeldOf(r.tasks, process, held))
  {
    hide Sane, FillIdle, Rebuilt, NotReady, Off;
    var tasks := HoldAll(s.tasks, process, held);
    var ids := HeldIds(tasks, held);
    var gone := s.(tasks := tasks, current := Freed(s.current, ids));
    HeldNotReady(s.tasks, tasks, process, held);
    FreedOff(s.current, ids);
    RefillPasses(gone, rank);
    FillStaysOff(Rebuilt(gone, rank), rank, 0, ids);
    var r := HoldProcess(s, rank, process, held);
    forall i | 0 <= i < |s.tasks| ensures Passed(tasks[i], r.tasks[i]) {
    }
    StayHeld(tasks, r.tasks, process, held);
    OffFewer(r.current, ids, HeldOf(r.tasks, process, held));
  }

  lemma HeldNotReady(before: seq<Task>, tasks: seq<Task>, process: nat, held: TaskState)
    requires UniqueTasks(before) && tasks == HoldAll(before, process, held) && held != Ready
    ensures NotReady(tasks, HeldIds(tasks, held))
  {
    forall i | 0 <= i < |tasks| && tasks[i].id in HeldIds(tasks, held) ensures tasks[i].state != Ready {
      var j :| 0 <= j < |tasks| && tasks[j].state == held && tasks[j].id == tasks[i].id;
      assert before[i].id == before[j].id;
      assert i == j;
    }
  }

  lemma StayHeld(a: seq<Task>, b: seq<Task>, process: nat, held: TaskState)
    requires AllPassed(a, b) && (held == Quiesced || held == Stopped)
    ensures HeldOf(b, process, held) <= HeldIds(a, held)
  {
    forall id | id in HeldOf(b, process, held) ensures id in HeldIds(a, held) {
      var i :| 0 <= i < |b| && b[i].process == process && b[i].state == held && b[i].id == id;
      assert Passed(a[i], b[i]);
    }
  }

  lemma OffFewer(current: seq<Option<nat>>, ids: set<nat>, fewer: set<nat>)
    requires Off(current, ids) && fewer <= ids
    ensures Off(current, fewer)
  {
  }

  /** Letting a process go: every held task of it that waits for something is blocked again, every other one
      is ready or runs; all others are left alone. */
  lemma ResumeEffect(s: Sched, rank: seq<nat>, process: nat, held: TaskState)
    requires Sane(s.groups, rank) && (held == Quiesced || held == Stopped)
    ensures var r := ResumeProcess(s, rank, process, held);
      && |r.tasks| == |s.tasks|
      && forall i :: 0 <= i < |s.tasks| ==>
           var t := s.tasks[i];
           && (t.process == process && t.state == held && t.reason.Some? ==>
                 r.tasks[i].state == Blocked && r.tasks[i].reason == t.reason)
           && (t.process == process && t.state == held && t.reason.None? ==> Runnable(r.tasks[i]))
           && (t.process != process || t.state != held ==> Passed(t, r.tasks[i]))
  {
    hide Sane, FillIdle, Rebuilt;
    var tasks := ResumeAll(s.tasks, process, held);
    RefillPasses(s.(tasks := tasks), rank);
    var r := ResumeProcess(s, rank, process, held);
    forall i | 0 <= i < |s.tasks| ensures Passed(tasks[i], r.tasks[i]) {
    }
  }

  /** Held and let go again, a process is where it was: runnable tasks are runnable, and blocked ones wait for
      what they waited for. */
  lemma HoldThenResume(s: Sched, rank: seq<nat>, process: nat, held: TaskState, i: nat)
    requires Sane(s.groups, rank) && UniqueTasks(s.tasks) && (held == Quiesced || held == Stopped) && i < |s.tasks|
    requires s.tasks[i].process == process && (s.tasks[i].state == Blocked <==> s.tasks[i].reason.Some?)
    ensures var r := ResumeProcess(HoldProcess(s, rank, process, held), rank, process, held);
      && |r.tasks| == |s.tasks|
      && (Runnable(s.tasks[i]) ==> Runnable(r.tasks[i]))
      && (s.tasks[i].state == Blocked ==> r.tasks[i].state == Blocked && r.tasks[i].reason == s.tasks[i].reason)
  {
    hide Sane, HoldProcess, ResumeProcess;
    HoldEffect(s, rank, process, held);
    var h := HoldProcess(s, rank, process, held);
    ResumeEffect(h, rank, process, held);
    HoldKeepsProcess(s, rank, process, held, i);
  }

  lemma HoldKeepsProcess(s: Sched, rank: seq<nat>, process: nat, held: TaskState, i: nat)
    requires Sane(s.groups, rank) && i < |s.tasks|
    ensures var r := HoldProcess(s, rank, process, held);
      |r.tasks| == |s.tasks| && r.tasks[i].process == s.tasks[i].process
  {
    hide Sane, FillIdle, Rebuilt;
    var tasks := HoldAll(s.tasks, process, held);
    RefillPasses(s.(tasks := tasks, current := Freed(s.current, HeldIds(tasks, held))), rank);
    assert Passed(tasks[i], HoldProcess(s, rank, process, held).tasks[i]);
  }
}
