/** The scheduler object: its tables updated in place, by loops, and proved to take the steps
    that the functions on values state. `rank` shows that the walks to the root end. */
module Scheduler {
  import opened Octets
  import opened SchedModel
  import opened SchedGroups
  import opened SchedSelect
  import opened SchedOps
  import opened SchedSteps

  class Scheduler {
    var tasks: seq<Task>
    var groups: seq<Group>
    var cursors: seq<Cursor>
    var current: seq<Option<nat>>
    var threads: seq<Thread>
    var last: Option<nat>
    var now: nat
    var ticks: nat

    function View(): Sched
      reads this
    {
      Sched(tasks, groups, cursors, current, threads, last, now, ticks)
    }

    constructor (cpus: nat)
      ensures View() == NewSched(cpus)
    {
      tasks, groups, cursors, current := [], [], [], seq(cpus, _ => None);
      threads, last, now, ticks := [], None, 0, 0;
    }

    // ---------- Choosing ----------

    method ReplenishAll()
      modifies `tasks
      ensures View() == old(View()).(tasks := Replenish(old(tasks), now))
    {
      hide Replenished;
      for i := 0 to |tasks|
        invariant |tasks| == |old(tasks)|
        invariant forall k :: 0 <= k < i ==> tasks[k] == Replenished(old(tasks)[k], now)
        invariant forall k :: i <= k < |tasks| ==> tasks[k] == old(tasks)[k]
      {
        tasks := tasks[i := Replenished(tasks[i], now)];
      }
      assert tasks == Replenish(old(tasks), now);
    }

    method NextDeadlineReady(cpu: nat) returns (r: Option<nat>)
      ensures r == Earliest(View(), cpu)
    {
      hide DeadlineReady, FirstLeast, DeadlineMask, DeadlineKeys;
      r := None;
      ghost var mask, keys := DeadlineMask(View(), cpu), DeadlineKeys(tasks);
      NothingLeast(mask, keys);
      for n := 0 to |tasks|
        invariant r == FirstLeast(mask, keys, n)
      {
        FirstLeastNext(mask, keys, n + 1);
        if DeadlineReady(View(), n, cpu) {
          DeadlineHas(View(), n, cpu);
          if r.Some? {
            DeadlineHas(View(), r.value, cpu);
          }
          if r.None? || tasks[n].deadline.value.absolute < tasks[r.value].deadline.value.absolute {
            r := Some(n);
          }
        }
      }
    }

    /** Walks from a group to the root. */
    method GroupHasQuota(g: nat, ghost rank: seq<nat>) returns (ok: bool)
      requires Sane(groups, rank) && g < |groups|
      ensures ok == HasQuota(groups, rank, g)
    {
      hide WithinQuota, GroupOf;
      var i := g;
      while true
        invariant 0 <= i < |groups| && HasQuota(groups, rank, i) == HasQuota(groups, rank, g)
        decreases rank[i]
      {
        if !WithinQuota(groups[i]) {
          return false;
        }
        if groups[i].parent.None? {
          return true;
        }
        var p := GroupOf(groups, groups[i].parent.value);
        if p == |groups| {
          return false;
        }
        i := p;
      }
    }

    method NextFairGroup(cpu: nat, ghost rank: seq<nat>) returns (r: Option<nat>)
      requires Sane(groups, rank)
      ensures r == LeastRun(View(), rank, cpu)
    {
      hide HasQuota, AnyFair, FirstLeast, GroupMask, Runtimes, Ranked, Shared;
      r := None;
      ghost var mask, keys := GroupMask(View(), rank, cpu), Runtimes(groups);
      NothingLeast(mask, keys);
      for n := 0 to |groups|
        invariant r == FirstLeast(mask, keys, n)
      {
        LeastRunNext(View(), rank, cpu, n);
        var quota := GroupHasQuota(n, rank);
        if quota && AnyFair(View(), cpu, groups[n].id) {
          if r.None? || groups[n].vruntime < groups[r.value].vruntime {
            r := Some(n);
          }
        }
      }
    }

    /** Resumes the round robin of a group after the task it picked last. */
    method NextInGroup(cpu: nat, group: nat) returns (r: Option<nat>)
      ensures r == InGroup(View(), cpu, group)
    {
      hide FairReady, MaxFair, IndexOf, CursorOf, Scan;
      var top := TopPriority(View(), cpu, group);
      if top.None? || |tasks| == 0 {
        return None;
      }
      var start := StartIndex(View(), group, cpu);
      ghost var mask := FairMask(View(), cpu, group, top.value);
      for offset := 0 to |tasks|
        invariant Scan(mask, start, 0) == Scan(mask, start, offset)
      {
        var index := (start + offset) % |tasks|;
        AroundIsMod(start, offset, |tasks|);
        ScanStep(mask, start, offset);
        if FairReady(View(), index, cpu, group) && tasks[index].effective == top.value {
          return Some(index);
        }
      }
      ScanEnd(mask, start);
      return None;
    }

    method NextFairReady(cpu: nat, ghost rank: seq<nat>) returns (r: Option<nat>)
      requires Sane(groups, rank)
      modifies `cursors
      ensures (r, cursors) == PickFair(old(View()), rank, cpu)
    {
      hide LeastRun, InGroup, CursorOf;
      var g := NextFairGroup(cpu, rank);
      LeastRunIs(View(), rank, cpu);
      if g.None? {
        return None;
      }
      var group := groups[g.value].id;
      r := NextInGroup(cpu, group);
      if r.Some? {
        cursors := Remember(cursors, group, cpu, tasks[r.value].id);
      }
    }

    method ScheduleNextOnCpu(cpu: nat, ghost rank: seq<nat>) returns (r: Option<nat>)
      requires Sane(groups, rank) && cpu < |current|
      modifies this
      ensures View() == ScheduleNext(old(View()), rank, cpu) && r == current[cpu]
    {
      hide Replenish, Earliest, PickFair, Eligible;
      ReplenishAll();
      ghost var filled := View();
      PickEligible(filled, rank, cpu);
      var next := NextDeadlineReady(cpu);
      if next.None? {
        next := NextFairReady(cpu, rank);
      }
      if next.None? {
        current := current[cpu := None];
        return None;
      }
      var id := tasks[next.value].id;
      current := current[cpu := Some(id)];
      tasks := tasks[next.value := Dispatched(tasks[next.value], cpu, now)];
      return Some(id);
    }

    // ---------- Accounting ----------

    /** Counts the runnable tasks of every group afresh. */
    method RebuildRunnableIndexes(ghost rank: seq<nat>)
      requires Sane(groups, rank)
      modifies `groups
      ensures View() == Rebuilt(old(View()), rank)
    {
      hide Count, GroupOf;
      for j := 0 to |groups|
        invariant |groups| == |old(groups)|
        invariant forall k :: 0 <= k < j ==> groups[k] == old(groups)[k].(runnable := 0)
        invariant forall k :: j <= k < |groups| ==> groups[k] == old(groups)[k]
      {
        groups := groups[j := groups[j].(runnable := 0)];
      }
      assert Recount(old(groups), [], groups) by { NoTasks(old(groups), groups); }
      assert tasks[..0] == [];
      for n := 0 to |tasks|
        invariant Recount(old(groups), tasks[..n], groups)
      {
        ghost var before := groups;
        if Runnable(tasks[n]) {
          var g := GroupOf(groups, tasks[n].group);
          if g < |groups| {
            groups := groups[g := groups[g].(runnable := if groups[g].runnable < COUNT_LIMIT then groups[g].runnable + 1
                                                         else COUNT_LIMIT)];
          }
        }
        RecountNext(old(groups), tasks[..n], tasks[n], before, groups);
        assert tasks[..n] + [tasks[n]] == tasks[..n + 1];
      }
      assert tasks[..|tasks|] == tasks;
      assert groups == Recounted(old(groups), tasks);
    }

    /** Charges a group and every ancestor once. */
    method AddGroupTick(id: nat, fair: bool, elapsed: nat, ghost rank: seq<nat>)
      requires Sane(groups, rank)
      modifies `groups
      ensures var g := GroupOf(old(groups), id);
        groups == if g < |old(groups)| then ChargeUp(old(groups), Path(old(groups), rank, g), fair, elapsed, now)
                  else old(groups)
    {
      hide GroupOf, Path, Charged, PathFrom, ChargedOn, Sane, Ranked, SameShape, Shared;
      ghost var before := groups;
      SaneParts(before, rank);
      ghost var path := PathFrom(before, rank, Some(id));
      ghost var done: seq<nat> := [];
      var ancestor := Some(id);
      PathFromDistinct(before, rank, ancestor);
      NoneCharged(before, fair, elapsed, now);
      while ancestor.Some?
        invariant ChargedOn(before, groups, done, fair, elapsed, now)
        invariant done + PathFrom(before, rank, ancestor) == path
        decreases |path| - |done|
      {
        ChargedShape(before, groups, done, fair, elapsed, now);
        GroupOfShape(before, groups, ancestor.value);
        PathFromStep(before, rank, ancestor.value);
        var index := GroupOf(groups, ancestor.value);
        if index == |groups| {
          break;
        }
        NotYet(path, done, index, PathFrom(before, rank, before[index].parent));
        ChargedNext(before, groups, done, index, fair, elapsed, now);
        groups := groups[index := Charged(groups[index], fair, elapsed, now)];
        done := done + [index];
        ancestor := groups[index].parent;
      }
      PathFromEnds(before, rank, ancestor);
      assert done == path;
      ChargedAll(before, groups, done, fair, elapsed, now);
      PathFromIs(before, rank, id);
    }

    method LeastRunnable() returns (least: Option<U64>)
      ensures least == LeastRuntime(groups, |groups|)
    {
      least := None;
      for n := 0 to |groups|
        invariant least == LeastRuntime(groups, n)
      {
        if groups[n].runnable != 0 && (least.None? || groups[n].vruntime < least.value) {
          least := Some(groups[n].vruntime);
        }
      }
    }

    method ClampRunnableGroupLag()
      modifies `groups
      ensures groups == Clamped(old(groups))
    {
      hide Limited, LeastRuntime;
      var least := LeastRunnable();
      if least.None? {
        return;
      }
      var limit := SatAdd(least.value, LAG);
      for j := 0 to |groups|
        invariant |groups| == |old(groups)|
        invariant forall k :: 0 <= k < j ==> groups[k] == Limited(old(groups)[k], limit)
        invariant forall k :: j <= k < |groups| ==> groups[k] == old(groups)[k]
      {
        groups := groups[j := Limited(groups[j], limit)];
      }
    }

    method ChargeIfPresent(id: nat, fair: bool, elapsed: nat, ghost rank: seq<nat>)
      requires Sane(groups, rank)
      modifies `groups
      ensures View() == ChargeGroup(old(View()), rank, id, fair, elapsed)
    {
      hide Clamped, ChargeUp, Path, GroupOf;
      AddGroupTick(id, fair, elapsed, rank);
      if fair {
        ClampRunnableGroupLag();
      }
    }

    // ---------- Waking and time ----------

    method FillIdleCpus(ghost rank: seq<nat>)
      requires Sane(groups, rank)
      modifies this
      ensures View() == FillIdle(old(View()), rank, 0)
    {
      hide ScheduleNext, Sane;
      for cpu := 0 to |current|
        invariant |current| == |old(current)| && Sane(groups, rank)
        invariant FillIdle(View(), rank, cpu) == FillIdle(old(View()), rank, 0)
      {
        if current[cpu].None? {
          var _ := ScheduleNextOnCpu(cpu, rank);
        }
      }
    }

    method AccountRuntime(at: nat)
      modifies this
      ensures View() == Account(old(View()), at)
    {
      hide SpendOn;
      if last.Some? && at < last.value {
        return;
      }
      var elapsed := if last.Some? then at - last.value else 0;
      var spent := if last.Some? then at - last.value else SatSub(at, now);
      ghost var before := View();
      for cpu := 0 to |current|
        invariant current == before.current && View() == before.(tasks := tasks, threads := threads)
        invariant SpendFrom(View(), cpu, elapsed, spent) == SpendFrom(before, 0, elapsed, spent)
      {
        SpendCpu(cpu, elapsed, spent);
      }
      last := Some(at);
    }

    /** Charges a thread in the place of what its CPU will run next. */
    method AccountForExecuting(cpu: nat, thread: nat, at: nat)
      modifies this
      ensures View() == AccountExecuting(old(View()), cpu, thread, at)
    {
      hide SpendFrom;
      if cpu >= |current| {
        return;
      }
      var saved := current[cpu];
      current := current[cpu := Some(thread)];
      AccountRuntime(at);
      current := current[cpu := saved];
      assert current == old(current);
    }

    method SpendCpu(cpu: nat, elapsed: nat, spent: nat)
      requires cpu < |current|
      modifies `tasks, `threads
      ensures View() == SpendOn(old(View()), cpu, elapsed, spent)
    {
      hide IndexOf, ThreadOf, Spent;
      if current[cpu].None? {
        return;
      }
      var id := current[cpu].value;
      var k := ThreadOf(threads, id);
      if k < |threads| {
        threads := threads[k := threads[k].(time := SatAdd(threads[k].time, elapsed))];
      }
      var i := IndexOf(tasks, id);
      if i < |tasks| {
        tasks := tasks[i := Spent(tasks[i], spent)];
      }
    }

    method WakeTask(id: nat, ghost rank: seq<nat>) returns (error: Option<SchedError>)
      requires Sane(groups, rank)
      modifies this
      ensures Out(View(), error) == Wake(old(View()), rank, id)
    {
      hide IndexOf, FillIdle, Rebuilt, Sane, Woken;
      var i := IndexOf(tasks, id);
      if i == |tasks| {
        return Some(InvalidTask);
      }
      tasks := tasks[i := Woken(tasks[i])];
      RebuildRunnableIndexes(rank);
      FillIdleCpus(rank);
      return None;
    }

    method WakeExpiredDeadlines(ghost rank: seq<nat>)
      requires Sane(groups, rank)
      modifies this
      ensures View() == WakeExpired(old(View()), rank)
    {
      hide Wake, Sane;
      var ids: seq<nat> := [];
      assert tasks[..0] == [];
      for n := 0 to |tasks|
        invariant View() == old(View()) && ids == ExpiredIds(tasks[..n], now)
      {
        ExpiredNext(tasks[..n], tasks[n], now);
        assert tasks[..n] + [tasks[n]] == tasks[..n + 1];
        if Expired(tasks[n], now) {
          ids := ids + [tasks[n].id];
        }
      }
      assert tasks[..|tasks|] == tasks;
      assert ids[0..] == ids;
      for k := 0 to |ids|
        invariant Sane(groups, rank) && WakeAll(View(), rank, ids[k..]) == WakeExpired(old(View()), rank)
      {
        assert ids[k..][0] == ids[k] && ids[k..][1..] == ids[k + 1..];
        var _ := WakeTask(ids[k], rank);
      }
      assert ids[|ids|..] == [];
    }

    method TickAtOnCpu(cpu: nat, at: nat, ghost rank: seq<nat>) returns (error: Option<SchedError>)
      requires Sane(groups, rank)
      modifies this
      ensures Out(View(), error) == Tick(old(View()), rank, cpu, at)
    {
      hide Sane, Account, WakeExpired, TickCurrent;
      if cpu >= |current| || at < now {
        return Some(InvalidTask);
      }
      var elapsed := at - now;
      AccountRuntime(at);
      now := at;
      ticks := SatAdd(ticks, 1);
      WakeExpiredDeadlines(rank);
      TickRunning(cpu, elapsed, rank);
      return None;
    }

    method TickRunning(cpu: nat, elapsed: nat, ghost rank: seq<nat>)
      requires Sane(groups, rank) && cpu < |current|
      modifies this
      ensures View() == TickCurrent(old(View()), rank, cpu, elapsed)
    {
      hide Sane, IndexOf, ScheduleNext, ChargeGroup, Ticked, Continues, Preempted;
      var i := if current[cpu].Some? then IndexOf(tasks, current[cpu].value) else |tasks|;
      if i < |tasks| {
        var t := Ticked(tasks[i], now);
        tasks := tasks[i := t];
        if Continues(t, now) {
          ChargeIfPresent(t.group, t.deadline.None?, elapsed, rank);
          return;
        }
        tasks := tasks[i := Preempted(t)];
        assert tasks == old(tasks)[i := Preempted(t)];
        ChargeIfPresent(t.group, t.deadline.None?, elapsed, rank);
      }
      var _ := ScheduleNextOnCpu(cpu, rank);
    }

    // ---------- Leaving a CPU ----------

    method LeaveCpu(cpu: nat, i: nat, t: Task, ghost rank: seq<nat>)
      requires Sane(groups, rank) && cpu < |current| && i < |tasks|
      modifies this
      ensures View() == Leave(old(View()), rank, cpu, i, t)
    {
      hide Sane, ScheduleNext, Recounted;
      tasks := tasks[i := t];
      RebuildRunnableIndexes(rank);
      current := current[cpu := None];
      var _ := ScheduleNextOnCpu(cpu, rank);
    }

    method BlockCurrentOnCpu(cpu: nat, reason: Reason, ghost rank: seq<nat>) returns (error: Option<SchedError>)
      requires Sane(groups, rank)
      modifies this
      ensures Out(View(), error) == Block(old(View()), rank, cpu, reason)
    {
      hide Sane, Leave, IndexOf;
      var i := CurrentIndex(View(), cpu);
      if i == |tasks| {
        return Some(InvalidTask);
      }
      LeaveCpu(cpu, i, tasks[i].(state := Blocked, reason := Some(reason), quantum := QUANTUM_TICKS), rank);
      return None;
    }

    method ExitCurrentOnCpu(cpu: nat, code: int, ghost rank: seq<nat>) returns (error: Option<SchedError>)
      requires Sane(groups, rank)
      modifies this
      ensures Out(View(), error) == ExitCurrent(old(View()), rank, cpu, code)
    {
      hide Sane, Leave, IndexOf;
      var i := CurrentIndex(View(), cpu);
      if i == |tasks| {
        return Some(InvalidTask);
      }
      LeaveCpu(cpu, i, tasks[i].(state := Exited, exitCode := code, quantum := 0), rank);
      return None;
    }

    method SuspendTask(id: nat, ghost rank: seq<nat>) returns (error: Option<SchedError>)
      requires Sane(groups, rank)
      modifies this
      ensures Out(View(), error) == Suspend(old(View()), rank, id)
    {
      hide Sane, IndexOf, ScheduleNext, Recounted;
      var i := IndexOf(tasks, id);
      if i == |tasks| {
        return Some(InvalidTask);
      }
      tasks := tasks[i := if tasks[i].state == Exited then tasks[i]
                          else tasks[i].(state := Suspended, quantum := QUANTUM_TICKS)];
      ghost var changed := View();
      for cpu := 0 to |current|
        invariant |current| == |changed.current| && Sane(groups, rank)
        invariant Displace(View(), rank, id, cpu) == Displace(changed, rank, id, 0)
      {
        if current[cpu] == Some(id) {
          current := current[cpu := None];
          var _ := ScheduleNextOnCpu(cpu, rank);
        }
      }
      RebuildRunnableIndexes(rank);
      return None;
    }

    method ExitTask(id: nat, code: int, ghost rank: seq<nat>) returns (error: Option<SchedError>)
      requires Sane(groups, rank)
      modifies this
      ensures Out(View(), error) == Exit(old(View()), rank, id, code)
    {
      hide Sane, IndexOf, FillIdle, Rebuilt;
      var i := IndexOf(tasks, id);
      if i == |tasks| {
        return Some(InvalidTask);
      }
      tasks := tasks[i := tasks[i].(state := Exited, exitCode := code, quantum := 0, reason := None)];
      FreeCpus({id});
      RebuildRunnableIndexes(rank);
      FillIdleCpus(rank);
      return None;
    }

    method FreeCpus(ids: set<nat>)
      modifies `current
      ensures current == Freed(old(current), ids)
    {
      for k := 0 to |current|
        invariant |current| == |old(current)|
        invariant forall j :: 0 <= j < k ==> current[j] == Freed(old(current), ids)[j]
        invariant forall j :: k <= j < |current| ==> current[j] == old(current)[j]
      {
        if current[k].Some? && current[k].value in ids {
          current := current[k := None];
        }
      }
    }

    method CleanupExited(ghost rank: seq<nat>)
      requires Sane(groups, rank)
      modifies this
      ensures View() == Cleanup(old(View()), rank)
    {
      hide Sane, IndexOf, Recounted;
      var alive: seq<Task> := [];
      assert tasks[..0] == [];
      for n := 0 to |tasks|
        invariant View() == old(View()) && alive == Alive(tasks[..n])
      {
        AliveNext(tasks[..n], tasks[n]);
        assert tasks[..n] + [tasks[n]] == tasks[..n + 1];
        if tasks[n].state != Exited {
          alive := alive + [tasks[n]];
        }
      }
      assert tasks[..|tasks|] == tasks;
      tasks := alive;
      ForgetUnknown();
      RebuildRunnableIndexes(rank);
    }

    method ForgetUnknown()
      modifies `current
      ensures current == Known(tasks, old(current))
    {
      hide IndexOf;
      for k := 0 to |current|
        invariant |current| == |old(current)|
        invariant forall j :: 0 <= j < k ==> current[j] == Known(tasks, old(current))[j]
        invariant forall j :: k <= j < |current| ==> current[j] == old(current)[j]
      {
        if current[k].Some? && IndexOf(tasks, current[k].value) == |tasks| {
          current := current[k := None];
        }
      }
    }

    // ---------- Profiles ----------

    method RetuneTask(i: nat, t: Task, ghost rank: seq<nat>)
      requires Sane(groups, rank) && i < |tasks|
      modifies this
      ensures View() == Retune(old(View()), rank, i, t)
    {
      hide Sane, Recounted;
      tasks := tasks[i := t];
      RebuildRunnableIndexes(rank);
    }

    method SetFairProfile(id: nat, priority: Byte, weight: nat,
                          ghost rank: seq<nat>) returns (error: Option<SchedError>)
      requires Sane(groups, rank)
      modifies this
      ensures Out(View(), error) == SetFair(old(View()), rank, id, priority, weight)
    {
      hide Sane, IndexOf, Retune;
      var i := IndexOf(tasks, id);
      if priority == 0 || weight == 0 || i == |tasks| {
        return Some(InvalidTask);
      }
      RetuneTask(i, tasks[i].(base := priority, effective := priority, weight := weight, deadline := None,
                              quantum := QUANTUM_TICKS), rank);
      return None;
    }

    method GroupAllowsRealtime(g: nat, ghost rank: seq<nat>) returns (ok: bool)
      requires Sane(groups, rank) && g < |groups|
      ensures ok == AllowsRealtime(groups, rank, g)
    {
      hide GroupOf;
      var i := g;
      while true
        invariant 0 <= i < |groups| && AllowsRealtime(groups, rank, i) == AllowsRealtime(groups, rank, g)
        decreases rank[i]
      {
        if !groups[i].realtime {
          return false;
        }
        if groups[i].parent.None? {
          return true;
        }
        var p := GroupOf(groups, groups[i].parent.value);
        if p == |groups| {
          return false;
        }
        i := p;
      }
    }

    /** The rounded utilisation of all tasks but one. */
    method UtilisationWithout(i: nat) returns (sum: nat)
      requires i < |tasks|
      ensures sum == Utilisation(tasks[i := tasks[i].(deadline := None)])
    {
      hide Share;
      sum := 0;
      ghost var others := tasks[i := tasks[i].(deadline := None)];
      assert others[..0] == [];
      for n := 0 to |tasks|
        invariant sum == Utilisation(others[..n])
      {
        UtilisationNext(others[..n], others[n]);
        assert others[..n] + [others[n]] == others[..n + 1];
        NoShare(tasks[i]);
        if n != i {
          sum := sum + Share(tasks[n]);
        }
      }
      assert others[..|tasks|] == others;
    }

    method SetDeadlineProfile(id: nat, p: Profile, ghost rank: seq<nat>) returns (error: Option<SchedError>)
      requires Sane(groups, rank)
      modifies this
      ensures Out(View(), error) == SetDeadline(old(View()), rank, id, p)
    {
      hide Sane, IndexOf, GroupOf, Retune, AllowsRealtime, Utilisation, Ppm;
      var i := IndexOf(tasks, id);
      if !p.Valid() || i == |tasks| {
        return Some(InvalidTask);
      }
      var g := GroupOf(groups, tasks[i].group);
      if g == |groups| {
        return Some(AccessDenied);
      }
      var allowed := GroupAllowsRealtime(g, rank);
      if !allowed {
        return Some(AccessDenied);
      }
      var others := UtilisationWithout(i);
      if others + Ppm(p) > 1_000_000 {
        return Some(ResourceExhausted);
      }
      RetuneTask(i, Server(tasks[i], p, now), rank);
      return None;
    }

    method DonatePriority(id: nat, priority: Byte, ghost rank: seq<nat>) returns (error: Option<SchedError>)
      requires Sane(groups, rank)
      modifies this
      ensures Out(View(), error) == Donate(old(View()), rank, id, priority)
    {
      hide Sane, IndexOf, Retune;
      var i := IndexOf(tasks, id);
      if i == |tasks| {
        return Some(InvalidTask);
      }
      var t := tasks[i];
      RetuneTask(i, if t.deadline.None? && priority > t.effective then t.(effective := priority) else t, rank);
      return None;
    }

    method RestoreBasePriority(id: nat, ghost rank: seq<nat>) returns (error: Option<SchedError>)
      requires Sane(groups, rank)
      modifies this
      ensures Out(View(), error) == Restore(old(View()), rank, id)
    {
      hide Sane, IndexOf, Retune;
      var i := IndexOf(tasks, id);
      if i == |tasks| {
        return Some(InvalidTask);
      }
      var t := tasks[i];
      RetuneTask(i, if t.deadline.None? then t.(effective := t.base) else t, rank);
      return None;
    }

    // ---------- Yielding and affinity ----------

    method Restate(i: nat, state: TaskState)
      modifies `tasks
      ensures View() == InState(old(View()), i, state)
    {
      if i < |tasks| {
        tasks := tasks[i := tasks[i].(state := state)];
      }
    }

    method YieldToAny(cpu: nat, i: nat, ghost rank: seq<nat>)
      requires Sane(groups, rank) && cpu < |current| && i <= |tasks|
      modifies this
      ensures View() == YieldAny(old(View()), rank, cpu, i)
    {
      hide Sane, ScheduleNext, InState;
      Restate(i, Suspended);
      var next := ScheduleNextOnCpu(cpu, rank);
      Restate(i, Ready);
      if next.None? {
        var _ := ScheduleNextOnCpu(cpu, rank);
      }
    }

    method YieldToTarget(cpu: nat, target: nat, ghost rank: seq<nat>)
      requires cpu < |current|
      modifies this
      ensures View() == YieldTo(old(View()), rank, cpu, target)
    {
      hide IndexOf;
      current := current[cpu := Some(target)];
      var i := IndexOf(tasks, target);
      if i < |tasks| {
        tasks := tasks[i := tasks[i].(state := Running, quantum := QUANTUM_TICKS)];
      }
    }

    method YieldCurrentToOnCpu(cpu: nat, target: Option<nat>, ghost rank: seq<nat>) returns (error: Option<SchedError>)
      requires Sane(groups, rank)
      modifies this
      ensures Out(View(), error) == Yield(old(View()), rank, cpu, target)
    {
      hide Sane, GoodTarget, CurrentIndex, InState, ChargeGroup, YieldTo, YieldAny, Rebuilt;
      if cpu >= |current| || !GoodTarget(View(), cpu, target) {
        return Some(InvalidTask);
      }
      var c := CurrentIndex(View(), cpu);
      var i := if c < |tasks| && tasks[c].state == Running then c else |tasks|;
      var group, fair := if i < |tasks| then tasks[i].group else 0, i < |tasks| && tasks[i].deadline.None?;
      Restate(i, Ready);
      if i < |tasks| {
        ChargeIfPresent(group, fair, QUANTUM_NS, rank);
      }
      if target.Some? {
        YieldToTarget(cpu, target.value, rank);
      } else {
        YieldToAny(cpu, i, rank);
      }
      RebuildRunnableIndexes(rank);
      return None;
    }

    method YieldCurrentToAtOnCpu(cpu: nat, target: Option<nat>, at: nat,
                                 ghost rank: seq<nat>) returns (error: Option<SchedError>)
      requires Sane(groups, rank)
      modifies this
      ensures Out(View(), error) == YieldAt(old(View()), rank, cpu, target, at)
    {
      hide Sane, Account, WakeExpired, Yield;
      if cpu >= |current| || at < now {
        return Some(InvalidTask);
      }
      AccountRuntime(at);
      now := at;
      WakeExpiredDeadlines(rank);
      error := YieldCurrentToOnCpu(cpu, target, rank);
    }

    method SetCpuAffinity(id: nat, mask: set<nat>, ghost rank: seq<nat>) returns (error: Option<SchedError>)
      requires Sane(groups, rank)
      modifies this
      ensures Out(View(), error) == SetAffinity(old(View()), rank, id, mask)
    {
      hide Sane, IndexOf, ScheduleNext, Recounted, InState, Cpus;
      var i := IndexOf(tasks, id);
      if mask == {} || !(mask <= Cpus(|current|)) || i == |tasks| {
        return Some(InvalidTask);
      }
      tasks := tasks[i := tasks[i].(affinity := mask)];
      ghost var changed := View();
      for cpu := 0 to |current|
        invariant |current| == |changed.current| && |tasks| == |changed.tasks| && Sane(groups, rank)
        invariant Evict(View(), rank, i, mask, cpu) == Evict(changed, rank, i, mask, 0)
      {
        if current[cpu] == Some(tasks[i].id) && cpu !in mask {
          Restate(i, Ready);
          current := current[cpu := None];
          var _ := ScheduleNextOnCpu(cpu, rank);
        }
      }
      RebuildRunnableIndexes(rank);
      return None;
    }

    // ---------- Process control ----------

    method HoldProcessTasks(process: nat, held: TaskState, ghost rank: seq<nat>)
      requires Sane(groups, rank)
      modifies this
      ensures View() == HoldProcess(old(View()), rank, process, held)
    {
      hide Sane, FillIdle, Rebuilt, Hold;
      ghost var before := View();
      for n := 0 to |tasks|
        invariant |tasks| == |before.tasks| && View() == before.(tasks := tasks)
        invariant forall k :: 0 <= k < n ==> tasks[k] == Hold(before.tasks[k], process, held)
        invariant forall k :: n <= k < |tasks| ==> tasks[k] == before.tasks[k]
      {
        tasks := tasks[n := Hold(tasks[n], process, held)];
      }
      assert tasks == HoldAll(before.tasks, process, held);
      FreeCpus(HeldIds(tasks, held));
      RebuildRunnableIndexes(rank);
      FillIdleCpus(rank);
    }

    method ResumeProcessTasks(process: nat, held: TaskState, ghost rank: seq<nat>)
      requires Sane(groups, rank)
      modifies this
      ensures View() == ResumeProcess(old(View()), rank, process, held)
    {
      hide Sane, FillIdle, Rebuilt, Resumed;
      ghost var before := View();
      for n := 0 to |tasks|
        invariant |tasks| == |before.tasks| && View() == before.(tasks := tasks)
        invariant forall k :: 0 <= k < n ==> tasks[k] == Resumed(before.tasks[k], process, held)
        invariant forall k :: n <= k < |tasks| ==> tasks[k] == before.tasks[k]
      {
        tasks := tasks[n := Resumed(tasks[n], process, held)];
      }
      assert tasks == ResumeAll(before.tasks, process, held);
      RebuildRunnableIndexes(rank);
      FillIdleCpus(rank);
    }

    // ---------- Groups and new tasks ----------

    method EnsureResourceGroup(id: nat, parent: Option<nat>, shares: nat, permille: nat,
                               realtime: bool) returns (error: Option<SchedError>)
      modifies this
      ensures (View(), error) == EnsureGroup(old(View()), id, parent, shares, permille, realtime)
    {
      hide GroupOf, LeastRuntime;
      if BadGroup(View(), id, parent, shares, permille) {
        return Some(InvalidTask);
      }
      var i := GroupOf(groups, id);
      if i < |groups| {
        if groups[i].parent != parent && groups[i].parent.Some? {
          return Some(AccessDenied);
        }
        groups := groups[i := groups[i].(parent := parent, shares := shares, permille := permille,
                                         realtime := realtime)];
        return None;
      }
      groups := groups + [NewGroup(View(), id, parent, shares, permille, realtime)];
      ghost var before := cursors;
      for cpu := 0 to CpuCount(current)
        invariant cursors == before + CursorsFor(id, cpu)
        invariant View() == old(View()).(groups := groups, cursors := cursors)
        invariant groups == old(groups) + [NewGroup(old(View()), id, parent, shares, permille, realtime)]
      {
        cursors := cursors + [Cursor(id, cpu, None)];
        assert CursorsFor(id, cpu) + [Cursor(id, cpu, None)] == CursorsFor(id, cpu + 1);
      }
      return None;
    }

    method SetResourceGroupShares(id: nat, shares: nat) returns (error: Option<SchedError>)
      modifies `groups
      ensures Out(View(), error) == SetShares(old(View()), id, shares)
    {
      hide GroupOf;
      if shares == 0 {
        return Some(InvalidTask);
      }
      var g := GroupOf(groups, id);
      if g == |groups| {
        return Some(InvalidTask);
      }
      groups := groups[g := groups[g].(shares := shares)];
      return None;
    }

    method SetResourceGroupLimits(id: nat, shares: nat, permille: nat,
                                  realtime: bool) returns (error: Option<SchedError>)
      modifies `groups
      ensures Out(View(), error) == SetLimits(old(View()), id, shares, permille, realtime)
    {
      hide GroupOf;
      if shares == 0 || permille > 1000 {
        return Some(InvalidTask);
      }
      var g := GroupOf(groups, id);
      if g == |groups| {
        return Some(InvalidTask);
      }
      groups := groups[g := groups[g].(shares := shares, permille := permille, realtime := realtime)];
      return None;
    }

    method AdmitTask(task: Task) returns (error: Option<SchedError>)
      modifies this
      ensures Out(View(), error) == Admit(old(View()), task)
    {
      hide IndexOf, GroupOf, ThreadOf, CaughtUp, EnsureGroup, Cpus;
      if IndexOf(tasks, task.id) < |tasks| {
        return Some(AlreadyExists);
      }
      if current == [] {
        current := [None];
      }
      var t := task.(affinity := task.affinity * Cpus(|current|));
      if t.affinity == {} {
        return Some(InvalidTask);
      }
      if GroupOf(groups, t.group) == |groups| {
        error := EnsureResourceGroup(t.group, None, 1024, 0, true);
        if error.Some? {
          return;
        }
      }
      groups := CaughtUp(groups, t.group);
      if ThreadOf(threads, t.id) < |threads| {
        return Some(AlreadyExists);
      }
      threads := threads + [Thread(t.id, t.process, 0)];
      tasks := tasks + [t];
      return None;
    }

    method AddNewTask(task: Task, ghost rank: seq<nat>) returns (error: Option<SchedError>)
      requires Sane(groups, rank) && ParentsExist(groups)
      modifies this
      ensures Out(View(), error) == AddTask(old(View()), rank, task)
    {
      hide Sane, ParentsExist, Admit, FillIdle, Rebuilt;
      AdmitSane(View(), rank, task);
      error := AdmitTask(task);
      if error.None? {
        ghost var more := GrownRank(|old(groups)|, rank, |groups|);
        RebuildRunnableIndexes(more);
        FillIdleCpus(more);
      }
    }
  }

  lemma NothingLeast(ready: seq<bool>, key: seq<nat>)
    requires |ready| == |key|
    ensures FirstLeast(ready, key, 0) == None
  {
  }

  lemma LeastRunNext(s: Sched, rank: seq<nat>, cpu: nat, n: nat)
    requires Ranked(s.groups, rank) && n < |s.groups|
    ensures var mask, keys := GroupMask(s, rank, cpu), Runtimes(s.groups);
      var before := FirstLeast(mask, keys, n);
      && (before.Some? ==> before.value < n)
      && FirstLeast(mask, keys, n + 1) ==
         if HasQuota(s.groups, rank, n) && AnyFair(s, cpu, s.groups[n].id) &&
            (before.None? || s.groups[n].vruntime < s.groups[before.value].vruntime) then Some(n) else before
  {
    hide HasQuota, AnyFair, FirstLeast, Ranked;
    FirstLeastNext(GroupMask(s, rank, cpu), Runtimes(s.groups), n + 1);
  }

  lemma DeadlineHas(s: Sched, i: nat, cpu: nat)
    requires i < |s.tasks| && DeadlineReady(s, i, cpu)
    ensures s.tasks[i].deadline.Some?
  {
  }

  lemma ScanStep(candidates: seq<bool>, start: nat, offset: nat)
    requires start < |candidates| && offset < |candidates|
    ensures var index := Around(start, offset, |candidates|);
      Scan(candidates, start, offset) == if candidates[index] then Some(index) else Scan(candidates, start, offset + 1)
  {
  }

  lemma ScanEnd(candidates: seq<bool>, start: nat)
    requires start < |candidates|
    ensures Scan(candidates, start, |candidates|) == None
  {
  }

  /** The groups with the runnable tasks of a prefix counted. */
  ghost predicate Recount(before: seq<Group>, tasks: seq<Task>, groups: seq<Group>) {
    && |groups| == |before|
    && forall j :: 0 <= j < |groups| ==> groups[j] == before[j].(runnable := Capped(Count(tasks, before[j].id)))
  }

  lemma NoTasks(before: seq<Group>, groups: seq<Group>)
    requires |groups| == |before| && forall j :: 0 <= j < |groups| ==> groups[j] == before[j].(runnable := 0)
    ensures Recount(before, [], groups)
  {
  }

  lemma CountNext(tasks: seq<Task>, t: Task, group: nat)
    ensures Count(tasks + [t], group) == Count(tasks, group) + if Runnable(t) && t.group == group then 1 else 0
  {
    assert (tasks + [t])[..|tasks|] == tasks;
  }

  lemma RecountNext(before: seq<Group>, tasks: seq<Task>, t: Task, groups: seq<Group>, after: seq<Group>)
    requires UniqueGroups(before) && Recount(before, tasks, groups)
    requires var g := GroupOf(groups, t.group);
      after == if Runnable(t) && g < |groups| then
                 groups[g := groups[g].(runnable := if groups[g].runnable < COUNT_LIMIT then groups[g].runnable + 1
                                                    else COUNT_LIMIT)]
               else groups
    ensures Recount(before, tasks + [t], after)
  {
    hide Count, GroupOf;
    forall j | 0 <= j < |after| ensures after[j] == before[j].(runnable := Capped(Count(tasks + [t], before[j].id))) {
      CountNext(tasks, t, before[j].id);
    }
  }

  /** The path that remains to be walked from a parent link. */
  ghost function PathFrom(groups: seq<Group>, rank: seq<nat>, link: Option<nat>): seq<nat>
    requires Ranked(groups, rank)
  {
    if link.Some? && GroupOf(groups, link.value) < |groups| then Path(groups, rank, GroupOf(groups, link.value)) else []
  }

  lemma PathFromStep(groups: seq<Group>, rank: seq<nat>, id: nat)
    requires Ranked(groups, rank)
    ensures var g := GroupOf(groups, id);
      PathFrom(groups, rank, Some(id)) == if g < |groups| then [g] + PathFrom(groups, rank, groups[g].parent) else []
  {
    hide GroupOf;
    var g := GroupOf(groups, id);
    if g < |groups| {
      var p := Parent(groups, g);
      if p < |groups| {
        assert Path(groups, rank, g) == [g] + Path(groups, rank, p);
      } else {
        assert Path(groups, rank, g) == [g] + [];
      }
    }
  }

  /** The next of a path's distinct groups is not among those already met. */
  lemma NotYet(path: seq<nat>, done: seq<nat>, index: nat, rest: seq<nat>)
    requires path == done + ([index] + rest) && forall k, l :: 0 <= k < l < |path| ==> path[k] != path[l]
    ensures index !in done && |done| < |path| && path == done + [index] + rest
  {
    assert path[|done|] == index && forall k :: 0 <= k < |done| ==> done[k] == path[k];
  }

  lemma PathFromIs(groups: seq<Group>, rank: seq<nat>, id: nat)
    requires Ranked(groups, rank)
    ensures var g := GroupOf(groups, id);
      PathFrom(groups, rank, Some(id)) == if g < |groups| then Path(groups, rank, g) else []
  {
  }

  lemma SaneParts(groups: seq<Group>, rank: seq<nat>)
    requires Sane(groups, rank)
    ensures Ranked(groups, rank) && Shared(groups)
  {
  }

  /** The groups in `done` have been charged, and no other. */
  ghost predicate ChargedOn(before: seq<Group>, groups: seq<Group>, done: seq<nat>, fair: bool, elapsed: nat,
                            now: nat) {
    && |groups| == |before| && Shared(before)
    && forall j :: 0 <= j < |groups| ==>
         groups[j] == if j in done then Charged(before[j], fair, elapsed, now) else before[j]
  }

  lemma NoneCharged(groups: seq<Group>, fair: bool, elapsed: nat, now: nat)
    requires Shared(groups)
    ensures ChargedOn(groups, groups, [], fair, elapsed, now)
  {
  }

  lemma ChargedShape(before: seq<Group>, groups: seq<Group>, done: seq<nat>, fair: bool, elapsed: nat, now: nat)
    requires ChargedOn(before, groups, done, fair, elapsed, now)
    ensures SameShape(before, groups) && |groups| == |before|
  {
  }

  lemma ChargedNext(before: seq<Group>, groups: seq<Group>, done: seq<nat>, index: nat, fair: bool, elapsed: nat,
                    now: nat)
    requires ChargedOn(before, groups, done, fair, elapsed, now) && index < |groups| && index !in done
    ensures 0 < groups[index].shares && Charged(groups[index], fair, elapsed, now).parent == before[index].parent
    ensures ChargedOn(before, groups[index := Charged(groups[index], fair, elapsed, now)], done + [index], fair,
                      elapsed, now)
  {
  }

  lemma ChargedAll(before: seq<Group>, groups: seq<Group>, path: seq<nat>, fair: bool, elapsed: nat, now: nat)
    requires ChargedOn(before, groups, path, fair, elapsed, now)
    ensures groups == ChargeUp(before, path, fair, elapsed, now)
    ensures path == [] ==> groups == before
  {
    hide Charged;
  }

  lemma PathFromEnds(groups: seq<Group>, rank: seq<nat>, link: Option<nat>)
    requires Ranked(groups, rank) && (link.None? || GroupOf(groups, link.value) == |groups|)
    ensures PathFrom(groups, rank, link) == []
  {
  }

  lemma PathFromDistinct(groups: seq<Group>, rank: seq<nat>, link: Option<nat>)
    requires Ranked(groups, rank)
    ensures var p := PathFrom(groups, rank, link);
      (forall k, l :: 0 <= k < l < |p| ==> p[k] != p[l]) && forall k :: 0 <= k < |p| ==> p[k] < |groups|
  {
    if link.Some? && GroupOf(groups, link.value) < |groups| {
      PathDistinct(groups, rank, GroupOf(groups, link.value));
    }
  }

  lemma ExpiredNext(tasks: seq<Task>, t: Task, now: nat)
    ensures ExpiredIds(tasks + [t], now) == ExpiredIds(tasks, now) + if Expired(t, now) then [t.id] else []
  {
    assert (tasks + [t])[..|tasks|] == tasks;
  }

  lemma AliveNext(tasks: seq<Task>, t: Task)
    ensures Alive(tasks + [t]) == Alive(tasks) + if t.state != Exited then [t] else []
  {
    assert (tasks + [t])[..|tasks|] == tasks;
  }

  lemma UtilisationNext(tasks: seq<Task>, t: Task)
    ensures Utilisation(tasks + [t]) == Utilisation(tasks) + Share(t)
  {
    assert (tasks + [t])[..|tasks|] == tasks;
  }

  lemma NoShare(t: Task)
    ensures Share(t.(deadline := None)) == 0
  {
  }
}
