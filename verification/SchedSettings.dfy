/** What profiles, priorities, masks, groups and accounting come to: the value that each request leaves behind,
    exactly when it is refused, and what time is charged to whom. */
module SchedSettings {
  import opened Arithmetic
  import opened Octets
  import opened SchedModel
  import opened SchedGroups
  import opened SchedSelect
  import opened SchedOps
  import opened SchedSteps
  import opened SchedRobin
  import opened SchedRuns
  import opened SchedEffects

  // ---------- Profiles and priorities ----------

  /** One task was rewritten; every other one, and who runs where, is as before. */
  ghost predicate OnlyTask(s: Sched, r: Sched, i: nat) {
    && |r.tasks| == |s.tasks| && r.current == s.current && r.cursors == s.cursors
    && forall j :: 0 <= j < |s.tasks| && j != i ==> r.tasks[j] == s.tasks[j]
  }

  /** A fair profile is accepted exactly for a known task, a priority and a weight; it ends any server. */
  lemma SetFairEffect(s: Sched, rank: seq<nat>, id: nat, priority: Byte, weight: nat)
    requires Sane(s.groups, rank)
    ensures var r, i := SetFair(s, rank, id, priority, weight), IndexOf(s.tasks, id);
      && (r.error.None? <==> priority > 0 && weight > 0 && i < |s.tasks|) && (r.error.Some? ==> r.s == s)
      && (r.error.None? ==>
            && OnlyTask(s, r.s, i) && r.s.tasks[i].deadline.None? && r.s.tasks[i].state == s.tasks[i].state
            && r.s.tasks[i].base == r.s.tasks[i].effective == priority && r.s.tasks[i].weight == weight)
  {
    hide Sane, Recounted, IndexOf;
  }

  /** Real time is allowed exactly when every group on the walk to the root allows it. */
  lemma {:induction false} RealtimeIsPath(groups: seq<Group>, rank: seq<nat>, i: nat)
    requires Ranked(groups, rank) && i < |groups| && ParentsExist(groups)
    ensures AllowsRealtime(groups, rank, i) <==> forall j :: j in Path(groups, rank, i) ==> groups[j].realtime
    decreases rank[i]
  {
    if Parent(groups, i) < |groups| {
      RealtimeIsPath(groups, rank, Parent(groups, i));
    }
  }

  /** A server is admitted exactly when its profile is valid, the task's groups allow real time, and the
      utilisation of all live servers with it is at most one; it starts with a full budget. */
  lemma SetDeadlineEffect(s: Sched, rank: seq<nat>, id: nat, p: Profile)
    requires Sane(s.groups, rank) && ParentsExist(s.groups)
    ensures var r, i := SetDeadline(s, rank, id, p), IndexOf(s.tasks, id);
      && (r.error.None? <==>
            && p.Valid() && i < |s.tasks| && GroupOf(s.groups, s.tasks[i].group) < |s.groups|
            && (forall j :: j in Path(s.groups, rank, GroupOf(s.groups, s.tasks[i].group)) ==> s.groups[j].realtime)
            && Utilisation(s.tasks[i := s.tasks[i].(deadline := None)]) + Ppm(p) <= 1_000_000)
      && (r.error.Some? ==> r.s == s)
      && (r.error.None? ==>
            && OnlyTask(s, r.s, i) && r.s.tasks[i].effective == 255 && r.s.tasks[i].state == s.tasks[i].state
            && r.s.tasks[i].deadline == Some(Budget(p, SatAdd(s.now, p.deadline), p.capacity, s.now, 1)))
  {
    hide Ranked, Shared, ParentsExist, Recounted, IndexOf, AllowsRealtime, Utilisation, Ppm, GroupOf, Path;
    var i := IndexOf(s.tasks, id);
    if i < |s.tasks| && GroupOf(s.groups, s.tasks[i].group) < |s.groups| {
      RealtimeIsPath(s.groups, rank, GroupOf(s.groups, s.tasks[i].group));
    }
  }

  /** A donation raises a fair task to at least the donor's priority and never lowers it; giving back
      returns it to its own. Servers are not touched. */
  lemma DonateEffect(s: Sched, rank: seq<nat>, id: nat, priority: Byte)
    requires Sane(s.groups, rank)
    ensures var r, b, i := Donate(s, rank, id, priority), Restore(s, rank, id), IndexOf(s.tasks, id);
      && (r.error.None? <==> i < |s.tasks|) && (b.error.None? <==> i < |s.tasks|)
      && (i < |s.tasks| ==>
            && OnlyTask(s, r.s, i) && OnlyTask(s, b.s, i)
            && (s.tasks[i].deadline.Some? ==> r.s.tasks[i] == s.tasks[i] && b.s.tasks[i] == s.tasks[i])
            && (s.tasks[i].deadline.None? ==>
                  && b.s.tasks[i] == s.tasks[i].(effective := s.tasks[i].base)
                  && r.s.tasks[i] == s.tasks[i].(effective := r.s.tasks[i].effective)
                  && r.s.tasks[i].effective >= priority && r.s.tasks[i].effective >= s.tasks[i].effective
                  && (r.s.tasks[i].effective == priority || r.s.tasks[i].effective == s.tasks[i].effective)))
  {
    hide Sane, Recounted, IndexOf;
  }

  /** Whatever was donated, restoring undoes it. */
  lemma DonateThenRestore(s: Sched, rank: seq<nat>, id: nat, priority: Byte)
    requires Sane(s.groups, rank)
    ensures Restore(Donate(s, rank, id, priority).s, rank, id).s.tasks == Restore(s, rank, id).s.tasks
  {
    hide Sane, Recounted;
    var i, d := IndexOf(s.tasks, id), Donate(s, rank, id, priority).s;
    if i < |s.tasks| {
      IdsFirst(s.tasks, d.tasks, id);
    }
  }

  // ---------- Affinity ----------

  lemma {:induction false} EvictEffect(s: Sched, rank: seq<nat>, i: nat, mask: set<nat>, cpu: nat)
    requires Sane(s.groups, rank) && cpu <= |s.current| && i < |s.tasks|
    ensures var r := Evict(s, rank, i, mask, cpu);
      && OthersPassed(s.tasks, r.tasks, i) && r.tasks[i].id == s.tasks[i].id
      && r.tasks[i].affinity == s.tasks[i].affinity
    decreases |s.current| - cpu
  {
    hide Sane, ScheduleNext, AllPassed;
    if cpu < |s.current| {
      if s.current[cpu] == Some(s.tasks[i].id) && cpu !in mask {
        var m := Vacated(InState(s, i, Ready), cpu);
        var next := ScheduleNext(m, rank, cpu);
        SchedulePasses(m, rank, cpu);
        ChangedOne(s, i, s.tasks[i].(state := Ready), next.tasks);
        EvictEffect(next, rank, i, mask, cpu + 1);
        OthersTrans(s.tasks, next.tasks, Evict(s, rank, i, mask, cpu).tasks, i);
      } else {
        EvictEffect(s, rank, i, mask, cpu + 1);
      }
    }
  }

  lemma OthersTrans(a: seq<Task>, b: seq<Task>, c: seq<Task>, i: nat)
    requires OthersPassed(a, b, i) && OthersPassed(b, c, i)
    ensures OthersPassed(a, c, i)
  {
    forall j | 0 <= j < |a| && j != i ensures Passed(a[j], c[j]) {
      assert Passed(a[j], b[j]) && Passed(b[j], c[j]);
    }
  }

  /** A mask is accepted exactly if it names some CPU and only such as exist, and is then the task's. */
  lemma AffinityEffect(s: Sched, rank: seq<nat>, id: nat, mask: set<nat>)
    requires Sane(s.groups, rank)
    ensures var r, i := SetAffinity(s, rank, id, mask), IndexOf(s.tasks, id);
      && (r.error.None? <==> mask != {} && (forall k :: k in mask ==> k < |s.current|) && i < |s.tasks|)
      && (r.error.Some? ==> r.s == s)
      && (r.error.None? ==> OthersPassed(s.tasks, r.s.tasks, i) && r.s.tasks[i].affinity == mask)
  {
    hide Sane, Evict, Rebuilt, IndexOf;
    var i := IndexOf(s.tasks, id);
    if i < |s.tasks| {
      var confined := WithTask(s, i, s.tasks[i].(affinity := mask));
      EvictEffect(confined, rank, i, mask, 0);
      PassedElsewhere(s, i, confined.tasks[i]);
      OthersTrans(s.tasks, confined.tasks, Evict(confined, rank, i, mask, 0).tasks, i);
    }
  }

  lemma PassedElsewhere(s: Sched, i: nat, t: Task)
    requires i < |s.tasks|
    ensures OthersPassed(s.tasks, WithTask(s, i, t).tasks, i)
  {
  }

  // ---------- Yielding ----------

  /** A named target runs on the CPU afterwards, and whoever yielded to it is ready. */
  lemma YieldToEffect(s: Sched, rank: seq<nat>, cpu: nat, target: nat)
    requires Sane(s.groups, rank) && UniqueTasks(s.tasks)
    ensures var r, j, c := Yield(s, rank, cpu, Some(target)), IndexOf(s.tasks, target), CurrentIndex(s, cpu);
      && (r.error.None? <==> cpu < |s.current| && j < |s.tasks| && Eligible(s, j, cpu)) && (r.error.Some? ==> r.s == s)
      && (r.error.None? ==>
            && |r.s.tasks| == |s.tasks| && r.s.current == s.current[cpu := Some(target)]
            && r.s.tasks[j].state == Running
            && (c < |s.tasks| && s.tasks[c].state == Running ==> r.s.tasks[c].state == Ready))
  {
    hide Sane, ChargeGroup, Rebuilt, Eligible;
    var j, c := IndexOf(s.tasks, target), CurrentIndex(s, cpu);
    if cpu < |s.current| && j < |s.tasks| && Eligible(s, j, cpu) {
      EligibleReady(s, j, cpu);
      var i := if c < |s.tasks| && s.tasks[c].state == Running then c else |s.tasks|;
      var charged := Charging(s, rank, i);
      ChargedTasks(s, rank, i);
      IdsFirst(s.tasks, charged.tasks, target);
    }
  }

  /** Yielding to anyone: if a fair task other than the yielding one could run there, the CPU does not go back
      to the yielding one, which is ready again. */
  lemma YieldAnyEffect(s: Sched, rank: seq<nat>, cpu: nat, j: nat, g: nat)
    requires Sane(s.groups, rank) && UniqueTasks(s.tasks) && cpu < |s.current|
    requires CurrentIndex(s, cpu) < |s.tasks| && s.tasks[CurrentIndex(s, cpu)].state == Running
    requires Waits(Charging(s, rank, CurrentIndex(s, cpu)), rank, cpu, j, g) && j != CurrentIndex(s, cpu)
    ensures var r, c := Yield(s, rank, cpu, None), CurrentIndex(s, cpu);
      && r.error.None? && |r.s.tasks| == |s.tasks| && r.s.current[cpu].Some?
      && r.s.current[cpu] != Some(s.tasks[c].id) && r.s.tasks[c].state == Ready
  {
    hide Ranked, Shared, ChargeGroup, Rebuilt, ScheduleNext, HasQuota, UniqueTasks;
    var c := CurrentIndex(s, cpu);
    var charged := Charging(s, rank, c);
    ChargedTasks(s, rank, c);
    var held := InState(charged, c, Suspended);
    var found := ScheduleNext(held, rank, cpu);
    assert Waits(held, rank, cpu, j, g);
    if found.current[cpu].None? {
      IdleMeansNothing(held, rank, cpu, j, g);
    }
    SchedulePasses(held, rank, cpu);
    PickedOther(s, held, c, cpu, found.current[cpu]);
  }

  lemma PickedOther(s: Sched, held: Sched, c: nat, cpu: nat, got: Option<nat>)
    requires UniqueTasks(s.tasks) && SameIds(s.tasks, held.tasks) && c < |s.tasks| && held.tasks[c].state == Suspended
    requires exists i :: 0 <= i < |held.tasks| && got == Some(held.tasks[i].id) && Eligible(held, i, cpu)
    ensures got != Some(s.tasks[c].id)
  {
  }

  lemma EligibleReady(s: Sched, i: nat, cpu: nat)
    requires i < |s.tasks| && Eligible(s, i, cpu)
    ensures s.tasks[i].state == Ready
  {
  }

  lemma ChargedTasks(s: Sched, rank: seq<nat>, i: nat)
    requires Sane(s.groups, rank) && i <= |s.tasks|
    ensures Charging(s, rank, i).tasks == InState(s, i, Ready).tasks && SameIds(s.tasks, Charging(s, rank, i).tasks)
  {
    hide Sane, ChargeGroup;
  }

  // ---------- Adding and cleaning up ----------

  /** A task is added exactly when its id is new to tasks and threads, some CPU may run it, and its group
      exists or may be made; then it stands last, ready or running, with a thread that has not run. */
  lemma AddEffect(s: Sched, rank: seq<nat>, task: Task)
    requires Sane(s.groups, rank) && ParentsExist(s.groups)
    ensures var r := AddTask(s, rank, task); var n := |s.tasks|;
      && (r.error.None? <==>
            && IndexOf(s.tasks, task.id) == n && ThreadOf(s.threads, task.id) == |s.threads|
            && (exists k :: k in task.affinity && k < CpuCount(s.current))
            && (GroupOf(s.groups, task.group) < |s.groups| || task.group != 0))
      && (r.error.None? ==>
            && |r.s.tasks| == n + 1 && AllPassed(s.tasks, r.s.tasks[..n])
            && r.s.tasks[n].id == task.id && r.s.tasks[n].group == task.group && r.s.tasks[n].process == task.process
            && (r.s.tasks[n].state == task.state || (task.state == Ready && r.s.tasks[n].state == Running))
            && r.s.threads == s.threads + [Thread(task.id, task.process, 0)])
  {
    hide Sane, ParentsExist, Admit, FillIdle, Rebuilt, AllPassed, IndexOf, ThreadOf, GroupOf;
    AdmitSane(s, rank, task);
    AdmitExactly(s, task);
    var a := Admit(s, task);
    var more := GrownRank(|s.groups|, rank, |a.s.groups|);
    if a.error.None? {
      RefillPasses(a.s, more);
      FillThreads(Rebuilt(a.s, more), more, 0);
      AddedLast(s.tasks, a.s.tasks[|s.tasks|], AddTask(s, rank, task).s.tasks);
    }
  }

  lemma AddedLast(tasks: seq<Task>, t: Task, after: seq<Task>)
    requires AllPassed(tasks + [t], after)
    ensures |after| == |tasks| + 1 && AllPassed(tasks, after[..|tasks|]) && Passed(t, after[|tasks|])
  {
    forall i | 0 <= i < |tasks| ensures Passed(tasks[i], after[i]) {
      assert Passed((tasks + [t])[i], after[i]);
    }
    assert Passed((tasks + [t])[|tasks|], after[|tasks|]);
  }

  lemma {:induction false} FillThreads(s: Sched, rank: seq<nat>, cpu: nat)
    requires Sane(s.groups, rank) && cpu <= |s.current|
    ensures FillIdle(s, rank, cpu).threads == s.threads
    decreases |s.current| - cpu
  {
    hide Sane, ScheduleNext;
    if cpu < |s.current| {
      FillThreads(if s.current[cpu].None? then ScheduleNext(s, rank, cpu) else s, rank, cpu + 1);
    }
  }

  lemma EnsureThreads(s: Sched, group: nat)
    ensures GroupFor(s, group).0.threads == s.threads && GroupFor(s, group).0.tasks == s.tasks
    ensures GroupFor(s, group).1.None? <==> GroupOf(s.groups, group) < |s.groups| || group != 0
  {
    hide GroupOf, LeastRuntime;
  }

  lemma AdmitExactly(s: Sched, task: Task)
    ensures var a := Admit(s, task); var n := |s.tasks|;
      && (a.error.None? <==>
            && IndexOf(s.tasks, task.id) == n && ThreadOf(s.threads, task.id) == |s.threads|
            && (exists k :: k in task.affinity && k < CpuCount(s.current))
            && (GroupOf(s.groups, task.group) < |s.groups| || task.group != 0))
      && (a.error.None? ==>
            && |a.s.tasks| == n + 1 && a.s.tasks == s.tasks + [a.s.tasks[n]]
            && a.s.tasks[n] == task.(affinity := a.s.tasks[n].affinity)
            && a.s.threads == s.threads + [Thread(task.id, task.process, 0)])
  {
    hide IndexOf, ThreadOf, GroupOf, GroupFor, CaughtUp, Cpus;
    var grown := if s.current == [] then s.(current := [None]) else s;
    EnsureThreads(grown, task.group);
    MaskMeets(task.affinity, |grown.current|);
  }

  lemma MaskMeets(mask: set<nat>, n: nat)
    ensures mask * Cpus(n) != {} <==> exists k :: k in mask && k < n
  {
    if k :| k in mask && k < n {
      assert k in mask * Cpus(n);
    }
    if mask * Cpus(n) != {} {
      var k :| k in mask * Cpus(n);
    }
  }

  /** Cleaning up drops exactly the tasks that have exited. */
  lemma CleanupEffect(s: Sched, rank: seq<nat>, t: Task)
    requires Sane(s.groups, rank)
    ensures t in Cleanup(s, rank).tasks <==> t in s.tasks && t.state != Exited
  {
    hide Sane, Recounted, Alive, Known;
    if t in s.tasks && t.state != Exited {
      var i :| 0 <= i < |s.tasks| && s.tasks[i] == t;
      AliveHas(s.tasks, i);
    }
    if t in Alive(s.tasks) {
      AliveFrom(s.tasks, t);
    }
  }

  // ---------- Groups ----------

  /** A request is accepted exactly when it names a group, shares, a limit of at most the whole, an existing
      parent other than the group itself, and does not move a group away from the parent it has. */
  lemma EnsureEffect(s: Sched, id: nat, parent: Option<nat>, shares: nat, permille: nat, realtime: bool)
    ensures var r, i := EnsureGroup(s, id, parent, shares, permille, realtime), GroupOf(s.groups, id);
      && (r.1.None? <==>
            && id != 0 && shares > 0 && permille <= 1000 && parent != Some(id)
            && (parent.Some? ==> GroupOf(s.groups, parent.value) < |s.groups|)
            && (i < |s.groups| && s.groups[i].parent.Some? ==> s.groups[i].parent == parent))
      && (r.1.Some? ==> r.0 == s)
      && (r.1.None? ==>
            && i < |r.0.groups| == (if i < |s.groups| then |s.groups| else |s.groups| + 1)
            && (forall j :: 0 <= j < |s.groups| && j != i ==> r.0.groups[j] == s.groups[j])
            && var g := r.0.groups[i];
               && g.id == id && g.parent == parent && g.shares == shares && g.permille == permille
               && g.realtime == realtime && (i < |s.groups| ==> g.vruntime == s.groups[i].vruntime)
               && (i == |s.groups| ==> g.time == 0 && g.used == 0 && g.runnable == 0))
  {
    hide GroupOf, LeastRuntime;
  }

  /** A new group starts at the least runtime of those that have something to run, so that it neither
      starves nor is starved. */
  lemma NewGroupStarts(s: Sched, id: nat, parent: Option<nat>, shares: nat, permille: nat, realtime: bool)
    ensures var g := NewGroup(s, id, parent, shares, permille, realtime);
      && (forall j :: 0 <= j < |s.groups| && s.groups[j].runnable != 0 ==> g.vruntime <= s.groups[j].vruntime)
      && ((exists j :: 0 <= j < |s.groups| && s.groups[j].runnable != 0 && s.groups[j].vruntime == g.vruntime)
          || (g.vruntime == 0 && forall j :: 0 <= j < |s.groups| ==> s.groups[j].runnable == 0))
  {
    hide LeastRuntime;
  }

  /** Shares and limits change alone, exactly for a group that exists and values that are allowed. */
  lemma LimitsEffect(s: Sched, id: nat, shares: nat, permille: nat, realtime: bool)
    ensures var r, g := SetShares(s, id, shares), GroupOf(s.groups, id);
      && (r.error.None? <==> shares > 0 && g < |s.groups|) && (r.error.Some? ==> r.s == s)
      && (r.error.None? ==> |r.s.groups| == |s.groups| && r.s.groups[g] == s.groups[g].(shares := shares))
    ensures var r, g := SetLimits(s, id, shares, permille, realtime), GroupOf(s.groups, id);
      && (r.error.None? <==> shares > 0 && permille <= 1000 && g < |s.groups|) && (r.error.Some? ==> r.s == s)
      && (r.error.None? ==>
            && |r.s.groups| == |s.groups|
            && r.s.groups[g] == s.groups[g].(shares := shares, permille := permille, realtime := realtime))
  {
    hide GroupOf;
  }

  /** The indices of the runnable tasks of a group. */
  ghost function RunnableOf(tasks: seq<Task>, group: nat): set<nat> {
    set i: nat | i < |tasks| && Runnable(tasks[i]) && tasks[i].group == group
  }

  /** What the recount counts: each runnable task of the group, once. */
  lemma {:induction false} CountIs(tasks: seq<Task>, group: nat)
    ensures Count(tasks, group) == |RunnableOf(tasks, group)|
  {
    if tasks == [] {
      assert RunnableOf(tasks, group) == {};
    } else {
      var last := |tasks| - 1;
      CountIs(tasks[..last], group);
      var t := tasks[last];
      var before := RunnableOf(tasks[..last], group);
      assert RunnableOf(tasks, group) == if Runnable(t) && t.group == group then before + {last} else before;
    }
  }

  lemma QuotaBound(g: Group)
    requires WithinQuota(g)
    ensures g.permille == 0 || g.used * 1000 < WINDOW_NS * g.permille
  {
  }

  /** No group from `g` up to the root has used up its share of the window. */
  ghost predicate Unthrottled(groups: seq<Group>, rank: seq<nat>, g: nat)
    requires Ranked(groups, rank) && g < |groups|
  {
    forall j :: j in Path(groups, rank, g) ==>
      groups[j].permille == 0 || groups[j].used * 1000 < WINDOW_NS * groups[j].permille
  }

  /** A fair task gets a CPU only if its group and all groups above have time left in their windows. */
  lemma ThrottledWaits(s: Sched, rank: seq<nat>, cpu: nat, i: nat)
    requires Ranked(s.groups, rank) && ParentsExist(s.groups) && PickFair(s, rank, cpu).0 == Some(i)
    ensures i < |s.tasks|
    ensures exists g :: 0 <= g < |s.groups| && s.groups[g].id == s.tasks[i].group && Unthrottled(s.groups, rank, g)
  {
    hide Ranked, ParentsExist, LeastRun, Path, WithinQuota, HasQuota, Unthrottled, AnyFair, InGroup;
    LeastRunIs(s, rank, cpu);
    var g := LeastRun(s, rank, cpu).value;
    PickedFrom(s, cpu, s.groups[g].id, i);
    QuotaUnthrottled(s.groups, rank, g);
  }

  lemma PickedFrom(s: Sched, cpu: nat, group: nat, i: nat)
    requires InGroup(s, cpu, group) == Some(i)
    ensures i < |s.tasks| && s.tasks[i].group == group
  {
    hide Scan, MaxFair;
  }

  lemma QuotaUnthrottled(groups: seq<Group>, rank: seq<nat>, g: nat)
    requires Ranked(groups, rank) && ParentsExist(groups) && g < |groups| && HasQuota(groups, rank, g)
    ensures Unthrottled(groups, rank, g)
  {
    hide Ranked, ParentsExist, Path, WithinQuota, HasQuota;
    QuotaIsPath(groups, rank, g);
    forall j | j in Path(groups, rank, g)
      ensures groups[j].permille == 0 || groups[j].used * 1000 < WINDOW_NS * groups[j].permille
    {
      QuotaBound(groups[j]);
    }
  }

  // ---------- Charging ----------

  /** A charge adds the elapsed time to what the group used in the current window, which begins anew once
      the window is over, and one tick. */
  lemma ChargedUses(g: Group, fair: bool, elapsed: nat, now: nat)
    requires 0 < g.shares
    ensures var r := Charged(g, fair, elapsed, now); var over := g.windowStart + WINDOW_NS <= now;
      && r.windowStart == (if over then now else g.windowStart)
      && (elapsed + g.used <= MAX ==> r.used == elapsed + if over then 0 else g.used)
      && (g.time + elapsed <= MAX ==> r.time == g.time + elapsed)
      && (g.ticks < MAX ==> r.ticks == g.ticks + 1)
      && r.id == g.id && r.parent == g.parent && r.shares == g.shares && r.runnable == g.runnable
      && (!fair ==> r.vruntime == g.vruntime)
  {
  }

  /** Virtual time runs at the elapsed time, scaled by 2^20, over the shares, rounded down. */
  lemma ChargedRuns(g: Group, elapsed: nat, now: nat)
    requires 0 < g.shares && elapsed * 1_048_576 <= MAX && g.vruntime + elapsed * 1_048_576 / g.shares <= MAX
    ensures var r := Charged(g, true, elapsed, now); var gain := r.vruntime - g.vruntime;
      0 <= gain && gain * g.shares <= elapsed * 1_048_576 < (gain + 1) * g.shares
  {
    hide Charged;
    var scaled := elapsed * 1_048_576;
    ChargedGain(g, elapsed, now, scaled);
    DivBounds(scaled, g.shares);
  }

  lemma ChargedGain(g: Group, elapsed: nat, now: nat, scaled: nat)
    requires 0 < g.shares && scaled == elapsed * 1_048_576 <= MAX && g.vruntime + scaled / g.shares <= MAX
    ensures Charged(g, true, elapsed, now).vruntime == g.vruntime + scaled / g.shares
  {
    assert SatMul(elapsed, 1024) == elapsed * 1024;
    assert SatMul(SatMul(elapsed, 1024), 1024) == scaled;
  }

  lemma DivBounds(x: nat, n: nat)
    requires 0 < n
    ensures x / n * n <= x < (x / n + 1) * n
  {
  }

  /** More shares never make virtual time run faster. */
  lemma SharesSlow(g: Group, h: Group, elapsed: nat, now: nat)
    requires 0 < g.shares <= h.shares && g.vruntime == h.vruntime
    ensures Charged(h, true, elapsed, now).vruntime <= Charged(g, true, elapsed, now).vruntime
  {
    DivAntitone(SatMul(SatMul(elapsed, 1024), 1024), g.shares, h.shares);
  }

  lemma DivAntitone(x: nat, a: nat, b: nat)
    requires 0 < a <= b
    ensures x / b <= x / a
  {
    var p, q := x / a, x / b;
    DivBounds(x, a);
    DivBounds(x, b);
    if p < q {
      MulMonotone(a, b, q);
      MulMonotone(p + 1, q, a);
    }
  }

  // ---------- Refilling ----------

  /** A server whose period has not ended keeps its budget. Else it gets its full capacity, once, and its
      deadline moves by whole periods so that the time lies in its period again. */
  lemma RefilledFull(b: Budget, now: nat)
    requires 0 < b.profile.period && b.profile.deadline <= b.absolute && now + b.profile.deadline <= MAX
    ensures var r := Refilled(b, now); var start := b.absolute - b.profile.deadline;
      && (now < start + b.profile.period ==> r == b)
      && (start + b.profile.period <= now ==>
            && r.remaining == b.profile.capacity && r.grants == b.grants + 1 && r.profile == b.profile
            && b.profile.deadline <= r.absolute && (r.absolute - b.absolute) % b.profile.period == 0
            && b.absolute < r.absolute
            && r.absolute - b.profile.deadline <= now < r.absolute - b.profile.deadline + b.profile.period)
  {
    var start, period := b.absolute - b.profile.deadline, b.profile.period;
    if start + period <= now {
      var periods := (now - start) / period;
      DivBounds(now - start, period);
      PeriodsBegun(now - start, period);
      assert SatMul(periods, period) == periods * period;
      assert SatAdd(b.absolute, periods * period) == b.absolute + periods * period;
      ModOfMultiple(period, periods);
    } else if start <= now {
      DivModUnique(now - start, period, 0, now - start);
    }
  }

  lemma PeriodsBegun(x: nat, n: nat)
    requires 0 < n <= x
    ensures x / n >= 1 && (x / n + 1) * n == x / n * n + n
  {
  }

  // ---------- Runtime accounting ----------

  /** On how many CPUs from `cpu` on a thread runs. */
  function RunsOn(current: seq<Option<nat>>, id: nat, cpu: nat): nat
    requires cpu <= |current|
    decreases |current| - cpu
  {
    if cpu == |current| then 0 else (if current[cpu] == Some(id) then 1 else 0) + RunsOn(current, id, cpu + 1)
  }

  ghost predicate UniqueThreads(threads: seq<Thread>) {
    forall i, j :: 0 <= i < j < |threads| ==> threads[i].id != threads[j].id
  }

  lemma {:induction false} ThreadOfAt(threads: seq<Thread>, k: nat)
    requires UniqueThreads(threads) && k < |threads|
    ensures ThreadOf(threads, threads[k].id) == k
  {
    if k > 0 {
      ThreadOfAt(threads[1..], k - 1);
    }
  }

  lemma SpendOnThread(s: Sched, cpu: nat, elapsed: nat, spent: nat, k: nat)
    requires cpu < |s.current| && UniqueThreads(s.threads) && k < |s.threads| && s.threads[k].time + elapsed <= MAX
    ensures var r := SpendOn(s, cpu, elapsed, spent);
      && |r.threads| == |s.threads| && UniqueThreads(r.threads) && r.threads[k].id == s.threads[k].id
      && r.threads[k].time == s.threads[k].time + if s.current[cpu] == Some(s.threads[k].id) then elapsed else 0
  {
    hide ThreadOf, IndexOf, Spent;
    ThreadOfAt(s.threads, k);
  }

  /** Every thread's time grows by the elapsed time for each CPU that it runs on, and by nothing else. */
  lemma {:induction false} SpendFromThread(s: Sched, cpu: nat, elapsed: nat, spent: nat, k: nat)
    requires cpu <= |s.current| && UniqueThreads(s.threads) && k < |s.threads|
    requires s.threads[k].time + elapsed * RunsOn(s.current, s.threads[k].id, cpu) <= MAX
    ensures var r := SpendFrom(s, cpu, elapsed, spent);
      && |r.threads| == |s.threads| && r.threads[k].id == s.threads[k].id
      && r.threads[k].time == s.threads[k].time + elapsed * RunsOn(s.current, s.threads[k].id, cpu)
    decreases |s.current| - cpu
  {
    hide SpendOn;
    if cpu < |s.current| {
      var id := s.threads[k].id;
      var here, rest := if s.current[cpu] == Some(id) then 1 else 0, RunsOn(s.current, id, cpu + 1);
      assert elapsed * (here + rest) == elapsed * here + elapsed * rest;
      assert elapsed * rest >= 0;
      if here == 1 {
        SpendOnThread(s, cpu, elapsed, spent, k);
      } else {
        SpendOnOther(s, cpu, elapsed, spent, k);
      }
      SpendFromThread(SpendOn(s, cpu, elapsed, spent), cpu + 1, elapsed, spent, k);
    }
  }

  lemma SpendOnOther(s: Sched, cpu: nat, elapsed: nat, spent: nat, k: nat)
    requires cpu < |s.current| && UniqueThreads(s.threads) && k < |s.threads|
    requires s.current[cpu] != Some(s.threads[k].id)
    ensures var r := SpendOn(s, cpu, elapsed, spent);
      |r.threads| == |s.threads| && UniqueThreads(r.threads) && r.threads[k] == s.threads[k]
  {
    hide ThreadOf, IndexOf, Spent;
  }

  /** How long ago the last boundary was. */
  function Since(s: Sched, now: nat): nat {
    if s.last.Some? && s.last.value <= now then now - s.last.value else 0
  }

  /** Accounting pays every thread for the time since the last boundary on each CPU that it runs on, and
      makes `now` the boundary unless that lies ahead. */
  lemma AccountPays(s: Sched, now: nat, k: nat)
    requires UniqueThreads(s.threads) && k < |s.threads|
    requires s.threads[k].time + Since(s, now) * RunsOn(s.current, s.threads[k].id, 0) <= MAX
    ensures var r := Account(s, now);
      && |r.threads| == |s.threads| && r.threads[k].id == s.threads[k].id
      && r.threads[k].time == s.threads[k].time + Since(s, now) * RunsOn(s.current, s.threads[k].id, 0)
      && r.last == (if s.last.Some? && now < s.last.value then s.last else Some(now))
  {
    hide SpendFrom;
    if s.last.None? || s.last.value <= now {
      var spent := if s.last.Some? then now - s.last.value else SatSub(now, s.now);
      SpendFromThread(s, 0, Since(s, now), spent, k);
    }
  }

  lemma SpendOnTask(s: Sched, cpu: nat, elapsed: nat, spent: nat, i: nat)
    requires cpu < |s.current| && UniqueTasks(s.tasks) && i < |s.tasks|
    ensures var r := SpendOn(s, cpu, elapsed, spent);
      && |r.tasks| == |s.tasks|
      && r.tasks[i] == if s.current[cpu] == Some(s.tasks[i].id) then Spent(s.tasks[i], spent) else s.tasks[i]
  {
    hide ThreadOf, IndexOf, Spent;
    IndexOfAt(s.tasks, i);
  }

  /** A server that runs on one CPU loses the time it ran from its budget; one that does not run loses
      nothing. */
  lemma {:induction false} SpendFromTask(s: Sched, cpu: nat, elapsed: nat, spent: nat, i: nat)
    requires cpu <= |s.current| && UniqueTasks(s.tasks) && i < |s.tasks|
    requires RunsOn(s.current, s.tasks[i].id, cpu) <= 1
    ensures var r := SpendFrom(s, cpu, elapsed, spent);
      && |r.tasks| == |s.tasks|
      && r.tasks[i] == if RunsOn(s.current, s.tasks[i].id, cpu) == 1 then Spent(s.tasks[i], spent) else s.tasks[i]
    decreases |s.current| - cpu
  {
    hide SpendOn, Spent, UniqueTasks;
    if cpu < |s.current| {
      var next := SpendOn(s, cpu, elapsed, spent);
      SpendOnTask(s, cpu, elapsed, spent, i);
      SpendOnIds(s, cpu, elapsed, spent);
      SpendFromTask(next, cpu + 1, elapsed, spent, i);
    }
  }

  lemma SpendOnIds(s: Sched, cpu: nat, elapsed: nat, spent: nat)
    requires cpu < |s.current| && UniqueTasks(s.tasks)
    ensures UniqueTasks(SpendOn(s, cpu, elapsed, spent).tasks)
  {
    hide ThreadOf, IndexOf;
  }

  /** What accounting takes from a running server's budget: the time since the last boundary, down to zero. */
  lemma AccountSpends(s: Sched, now: nat, i: nat)
    requires UniqueTasks(s.tasks) && i < |s.tasks| && s.tasks[i].deadline.Some? && s.last.Some? && s.last.value <= now
    requires RunsOn(s.current, s.tasks[i].id, 0) <= 1
    ensures var r := Account(s, now);
      && |r.tasks| == |s.tasks| && r.tasks[i].deadline.Some?
      && var b, before := r.tasks[i].deadline.value, s.tasks[i].deadline.value;
         && b == before.(remaining := b.remaining)
         && b.remaining == if RunsOn(s.current, s.tasks[i].id, 0) == 1 then SatSub(before.remaining, now - s.last.value)
                           else before.remaining
  {
    hide SpendFrom, UniqueTasks;
    SpendFromTask(s, 0, now - s.last.value, now - s.last.value, i);
  }
}
