/** Conservation of group time over runs: a group's time is exactly what the operations of the run charged
    in its subtree, whatever groups are created on the way. */
module SchedTime {
  import opened Octets
  import opened SchedModel
  import opened SchedGroups
  import opened SchedOps
  import opened SchedSteps
  import opened SchedRobin
  import opened SchedOwnership
  import opened SchedInvariants
  import opened SchedRuns

  // ---------- What one operation charges ----------

  /** The charge to the group of the task at index `i`, if there is such a task and group. */
  function ChargeOf(s: Sched, i: nat, elapsed: nat): (r: seq<Charge>)
    ensures forall k :: 0 <= k < |r| ==> r[k].group < |s.groups|
  {
    var g := if i < |s.tasks| then GroupOf(s.groups, s.tasks[i].group) else |s.groups|;
    if g < |s.groups| then [Charge(g, s.tasks[i].deadline.None?, elapsed, s.now)] else []
  }

  /** The state in which a tick, or a yield at a given time, finds the tasks. */
  ghost function Awake(s: Sched, rank: seq<nat>, at: nat, ticks: nat): (r: Sched)
    requires Sane(s.groups, rank)
    ensures Sane(r.groups, rank) && SameLinks(s.groups, r.groups) && Times(r.groups) == Times(s.groups)
  {
    WakeExpired(Account(s, at).(now := at, ticks := ticks), rank)
  }

  ghost function YieldCharges(s: Sched, cpu: nat, target: Option<nat>): (r: seq<Charge>)
    ensures forall k :: 0 <= k < |r| ==> r[k].group < |s.groups|
  {
    var c := CurrentIndex(s, cpu);
    if cpu >= |s.current| || !GoodTarget(s, cpu, target) || c == |s.tasks| || s.tasks[c].state != Running then []
    else ChargeOf(s, c, QUANTUM_NS)
  }

  /** A tick charges the time since the last one to the current task's group, a yield one quantum;
      nothing else charges anything. */
  ghost function OpCharges(s: Sched, rank: seq<nat>, op: Op): (r: seq<Charge>)
    requires Sane(s.groups, rank)
    ensures forall k :: 0 <= k < |r| ==> r[k].group < |s.groups|
  {
    match op
    case TickOn(cpu, at) =>
      if cpu >= |s.current| || at < s.now then []
      else
        var awake := Awake(s, rank, at, SatAdd(s.ticks, 1));
        ChargeOf(awake, CurrentIndex(awake, cpu), at - s.now)
    case YieldOn(cpu, target) => YieldCharges(s, cpu, target)
    case YieldOnAt(cpu, target, at) =>
      if cpu >= |s.current| || at < s.now then [] else YieldCharges(Awake(s, rank, at, s.ticks), cpu, target)
    case _ => []
  }

  // ---------- What one operation adds ----------

  /** How long a group ran; one that does not exist yet did not run. */
  function TimeOf(groups: seq<Group>, j: nat): U64 {
    if j < |groups| then groups[j].time else 0
  }

  ghost predicate SameTimes(a: seq<Group>, b: seq<Group>) {
    forall j: nat :: TimeOf(b, j) == TimeOf(a, j)
  }

  /** The times after some charges. */
  ghost predicate Gains(before: seq<Group>, after: seq<Group>, rank: seq<nat>, charges: seq<Charge>)
    requires Ranked(before, rank) && forall k :: 0 <= k < |charges| ==> charges[k].group < |before|
  {
    forall j: nat :: TimeOf(after, j) == SatAdd(TimeOf(before, j), Below(before, rank, charges, j))
  }

  lemma TimesSame(a: seq<Group>, b: seq<Group>)
    requires Times(a) == Times(b)
    ensures SameTimes(a, b)
  {
    assert |Times(a)| == |Times(b)|;
    forall j: nat ensures TimeOf(b, j) == TimeOf(a, j) {
      assert j < |a| ==> Times(a)[j] == Times(b)[j];
    }
  }

  lemma NoGain(before: seq<Group>, after: seq<Group>, rank: seq<nat>)
    requires Ranked(before, rank) && SameTimes(before, after)
    ensures Gains(before, after, rank, [])
  {
    hide Ranked, TimeOf;
  }

  lemma KeptGain(before: seq<Group>, after: seq<Group>, rank: seq<nat>)
    requires Ranked(before, rank) && Times(after) == Times(before)
    ensures Gains(before, after, rank, [])
  {
    hide Ranked, Times, SameTimes, Gains;
    TimesSame(before, after);
    NoGain(before, after, rank);
  }

  lemma ClampTimes(groups: seq<Group>)
    ensures Times(Clamped(groups)) == Times(groups)
  {
    hide LeastRuntime;
  }

  lemma ChargeGains(s: Sched, rank: seq<nat>, t: Sched, i: nat, elapsed: nat)
    requires Sane(s.groups, rank) && i < |s.tasks| && t.groups == s.groups && t.now == s.now
    ensures Gains(s.groups, ChargeGroup(t, rank, s.tasks[i].group, s.tasks[i].deadline.None?, elapsed).groups, rank,
                  ChargeOf(s, i, elapsed))
  {
    hide GroupOf, Path, Clamped, ChargeOnce, Ranked, Times;
    var g := GroupOf(s.groups, s.tasks[i].group);
    var charges := ChargeOf(s, i, elapsed);
    if g < |s.groups| {
      forall j: nat
        ensures TimeOf(ChargeOnce(s.groups, rank, charges[0]), j) ==
                SatAdd(TimeOf(s.groups, j), Below(s.groups, rank, charges, j))
      {
        assert charges[1..] == [];
        if j < |s.groups| {
          ChargeTime(s.groups, rank, charges[0], j);
        }
      }
    } else {
      ClampTimes(s.groups);
      KeptGain(s.groups, ChargeGroup(t, rank, s.tasks[i].group, s.tasks[i].deadline.None?, elapsed).groups, rank);
    }
  }

  /** Charges made later, to a hierarchy with the same links and times. */
  lemma GainsFrom(s: seq<Group>, awake: seq<Group>, after: seq<Group>, rank: seq<nat>, charges: seq<Charge>)
    requires Ranked(s, rank) && Ranked(awake, rank) && SameLinks(s, awake) && Times(awake) == Times(s)
    requires (forall k :: 0 <= k < |charges| ==> charges[k].group < |awake|) && Gains(awake, after, rank, charges)
    ensures Gains(s, after, rank, charges)
  {
    hide Ranked, Below, Times, TimeOf;
    TimesSame(s, awake);
    forall j: nat ensures TimeOf(after, j) == SatAdd(TimeOf(s, j), Below(s, rank, charges, j)) {
      BelowShape(s, awake, rank, charges, j);
    }
  }

  lemma TickGains(s: Sched, rank: seq<nat>, cpu: nat, elapsed: nat)
    requires Sane(s.groups, rank) && cpu < |s.current|
    ensures Gains(s.groups, TickCurrent(s, rank, cpu, elapsed).groups, rank, ChargeOf(s, CurrentIndex(s, cpu), elapsed))
  {
    hide ScheduleNext, ChargeGroup, IndexOf, Gains, Ranked, Shared, Times;
    var i := CurrentIndex(s, cpu);
    if i < |s.tasks| {
      var t := Ticked(s.tasks[i], s.now);
      ChargeGains(s, rank, WithTask(s, i, t), i, elapsed);
      ChargeGains(s, rank, WithTask(s, i, Preempted(t)), i, elapsed);
    } else {
      KeptGain(s.groups, TickCurrent(s, rank, cpu, elapsed).groups, rank);
    }
  }

  lemma YieldGains(s: Sched, rank: seq<nat>, cpu: nat, target: Option<nat>)
    requires Sane(s.groups, rank)
    ensures Gains(s.groups, Yield(s, rank, cpu, target).s.groups, rank, YieldCharges(s, cpu, target))
  {
    hide YieldTo, YieldAny, ChargeGroup, GoodTarget, CurrentIndex, Gains, Ranked, Shared, Times, Rebuilt;
    var c := CurrentIndex(s, cpu);
    var r := Yield(s, rank, cpu, target).s;
    if cpu >= |s.current| || !GoodTarget(s, cpu, target) || c == |s.tasks| || s.tasks[c].state != Running {
      KeptGain(s.groups, r.groups, rank);
    } else {
      var ready := InState(s, c, Ready);
      var charged := ChargeGroup(ready, rank, s.tasks[c].group, s.tasks[c].deadline.None?, QUANTUM_NS);
      ChargeGains(s, rank, ready, c, QUANTUM_NS);
      SameGains(s.groups, charged.groups, r.groups, rank, YieldCharges(s, cpu, target));
    }
  }

  lemma SameGains(before: seq<Group>, a: seq<Group>, b: seq<Group>, rank: seq<nat>, charges: seq<Charge>)
    requires Ranked(before, rank) && (forall k :: 0 <= k < |charges| ==> charges[k].group < |before|)
    requires Gains(before, a, rank, charges) && Times(b) == Times(a)
    ensures Gains(before, b, rank, charges)
  {
    hide Ranked, Below, Times, TimeOf;
    TimesSame(a, b);
  }

  /** A group that is created has not run; one that is linked anew keeps its time. */
  lemma EnsureTimes(s: Sched, id: nat, parent: Option<nat>, shares: nat, permille: nat, realtime: bool)
    ensures SameTimes(s.groups, EnsureGroup(s, id, parent, shares, permille, realtime).0.groups)
  {
    hide GroupOf, LeastRuntime;
  }

  lemma CaughtUpTimes(groups: seq<Group>, group: nat)
    ensures SameTimes(groups, CaughtUp(groups, group))
  {
    hide GroupOf, LeastRuntime;
  }

  lemma AdmitTimes(s: Sched, task: Task)
    ensures SameTimes(s.groups, Admit(s, task).s.groups)
  {
    hide EnsureGroup, CaughtUp, IndexOf, ThreadOf, Cpus, GroupOf, TimeOf;
    var grown := if s.current == [] then s.(current := [None]) else s;
    EnsureTimes(grown, task.group, None, 1024, 0, true);
    CaughtUpTimes(GroupFor(grown, task.group).0.groups, task.group);
  }

  lemma AddTimes(s: Sched, rank: seq<nat>, task: Task)
    requires Sane(s.groups, rank) && ParentsExist(s.groups)
    ensures SameTimes(s.groups, AddTask(s, rank, task).s.groups)
  {
    hide Sane, ParentsExist, Admit, Rebuilt, FillIdle, Times, TimeOf;
    AdmitSane(s, rank, task);
    AdmitTimes(s, task);
    TimesSame(Admit(s, task).s.groups, Rebuilt(Admit(s, task).s,
      GrownRank(|s.groups|, rank, |Admit(s, task).s.groups|)).groups);
  }

  lemma TimedGains(s: Sched, rank: seq<nat>, op: Op)
    requires Walks(s, rank) && (op.TickOn? || op.YieldOnAt?)
    ensures Gains(s.groups, Apply(s, rank, op).groups, rank, OpCharges(s, rank, op))
  {
    hide Gains, Ranked, Shared, ParentsExist, Times, SameLinks, TickCurrent, Account, WakeExpired, Yield, YieldCharges,
         ChargeOf, CurrentIndex;
    if op.cpu < |s.current| && s.now <= op.at {
      var awake := Awake(s, rank, op.at, if op.TickOn? then SatAdd(s.ticks, 1) else s.ticks);
      if op.TickOn? {
        TickGains(awake, rank, op.cpu, op.at - s.now);
      } else {
        YieldGains(awake, rank, op.cpu, op.target);
      }
      GainsFrom(s.groups, awake.groups, Apply(s, rank, op).groups, rank, OpCharges(s, rank, op));
    } else {
      KeptGain(s.groups, s.groups, rank);
    }
  }

  /** One operation adds to each group's time exactly what it charged in the group's subtree, also when it
      creates a group or links one anew. */
  lemma OpGains(s: Sched, rank: seq<nat>, op: Op)
    requires Walks(s, rank)
    ensures Gains(s.groups, Apply(s, rank, op).groups, rank, OpCharges(s, rank, op))
  {
    hide Gains, Ranked, Shared, ParentsExist, Times, SameTimes, SameLinks, Cleanup, EnsureGroup, AddTask, Tick, Account,
         Awake, Block, Wake, Suspend, ExitCurrent, Exit, Donate, Restore, Yield, YieldAt, SetAffinity, HoldProcess,
         ResumeProcess, SetFair, SetDeadline, AccountExecuting, SetShares, SetLimits, YieldCharges, ChargeOf,
         CurrentIndex;
    match op {
      case TickOn(_, _) => TimedGains(s, rank, op);
      case YieldOn(cpu, target) => YieldGains(s, rank, cpu, target);
      case YieldOnAt(_, _, _) => TimedGains(s, rank, op);
      case Add(task) =>
        AddTimes(s, rank, task);
        NoGain(s.groups, Apply(s, rank, op).groups, rank);
      case EnsureOne(id, parent, shares, permille, realtime) =>
        EnsureTimes(s, id, parent, shares, permille, realtime);
        NoGain(s.groups, Apply(s, rank, op).groups, rank);
      case _ => KeptGain(s.groups, Apply(s, rank, op).groups, rank);
    }
  }

  // ---------- Runs ----------

  /** What the first `n` steps charged below `j`, each charge going up the links of its moment. */
  ghost function ChargedBelow(states: seq<Sched>, ops: seq<Op>, ranks: seq<seq<nat>>, n: nat, j: nat): nat
    requires Run(states, ops, ranks) && n <= |ops|
  {
    if n == 0 then 0
    else
      assert Walks(states[n - 1], ranks[n - 1]);
      ChargedBelow(states, ops, ranks, n - 1, j) +
      Below(states[n - 1].groups, ranks[n - 1], OpCharges(states[n - 1], ranks[n - 1], ops[n - 1]), j)
  }

  /** Over every run, whatever is created or linked anew: each group's time grows by exactly what was
      charged in the subtree that it had then. */
  lemma {:induction false} RunTimeIsSum(states: seq<Sched>, ops: seq<Op>, ranks: seq<seq<nat>>, n: nat, j: nat)
    requires Run(states, ops, ranks) && n <= |ops|
    ensures TimeOf(states[n].groups, j) ==
            SatAdd(TimeOf(states[0].groups, j), ChargedBelow(states, ops, ranks, n, j))
  {
    hide Walks, Apply, OpCharges, TimeOf, Below;
    if n > 0 {
      RunTimeIsSum(states, ops, ranks, n - 1, j);
      var s, rank, op := states[n - 1], ranks[n - 1], ops[n - 1];
      assert Walks(s, rank) && Leads(s, states[n - 1 + 1], rank, op);
      WalksRanked(s, rank);
      OpGains(s, rank, op);
    }
  }

  lemma WalksRanked(s: Sched, rank: seq<nat>)
    requires Walks(s, rank)
    ensures Sane(s.groups, rank) && ParentsExist(s.groups)
  {
  }

  // ---------- Groups are created, links stay ----------

  /** Groups may be added; those there were keep their ids and parents. */
  ghost predicate Grows(a: seq<Group>, b: seq<Group>) {
    |a| <= |b| && forall j :: 0 <= j < |a| ==> b[j].id == a[j].id && b[j].parent == a[j].parent
  }

  /** The request hangs a group that is a root below another. */
  predicate Relinks(s: Sched, op: Op) {
    && op.EnsureOne? && !BadGroup(s, op.id, op.parent, op.shares, op.permille) && op.parent.Some?
    && var i := GroupOf(s.groups, op.id); i < |s.groups| && s.groups[i].parent.None?
  }

  lemma EnsureGrows(s: Sched, op: Op)
    requires op.EnsureOne?
    ensures var r := EnsureGroup(s, op.id, op.parent, op.shares, op.permille, op.realtime).0;
      |s.groups| <= |r.groups| && (Grows(s.groups, r.groups) <==> !Relinks(s, op))
  {
    hide GroupOf, LeastRuntime;
    var r := EnsureGroup(s, op.id, op.parent, op.shares, op.permille, op.realtime).0;
    if Relinks(s, op) {
      var i := GroupOf(s.groups, op.id);
      assert r.groups[i].parent != s.groups[i].parent;
    }
  }

  lemma AddGrows(s: Sched, rank: seq<nat>, task: Task)
    requires Sane(s.groups, rank) && ParentsExist(s.groups)
    ensures Grows(s.groups, AddTask(s, rank, task).s.groups)
  {
    hide Sane, ParentsExist, EnsureGroup, CaughtUp, IndexOf, ThreadOf, Cpus, Rebuilt, FillIdle;
    AdmitSane(s, rank, task);
    var grown := if s.current == [] then s.(current := [None]) else s;
    EnsureGrows(grown, EnsureOne(task.group, None, 1024, 0, true));
    CaughtUpIds(GroupFor(grown, task.group).0.groups, task.group);
  }

  /** An operation never drops a group, and moves one exactly when it relinks a root. */
  lemma OpGrows(s: Sched, rank: seq<nat>, op: Op)
    requires Walks(s, rank)
    ensures |s.groups| <= |Apply(s, rank, op).groups|
    ensures Grows(s.groups, Apply(s, rank, op).groups) <==> !Relinks(s, op)
  {
    hide Ranked, Shared, ParentsExist, Cleanup, EnsureGroup, AddTask, Account, Tick, Block, Wake, Suspend, ExitCurrent,
         Exit, Donate, Restore, Yield, YieldAt, SetAffinity, HoldProcess, ResumeProcess, SetFair, SetDeadline,
         AccountExecuting, SetShares, SetLimits, GroupOf, BadGroup;
    match op {
      case Add(task) => AddGrows(s, rank, task);
      case EnsureOne(_, _, _, _, _) => EnsureGrows(s, op);
      case _ =>
    }
  }

  /** Everything charged in the first `n` steps. */
  ghost function RunCharges(states: seq<Sched>, ops: seq<Op>, ranks: seq<seq<nat>>, n: nat): (r: seq<Charge>)
    requires Run(states, ops, ranks) && n <= |ops|
    ensures forall k :: 0 <= k < |r| ==> r[k].group < |states[n].groups|
  {
    if n == 0 then []
    else
      assert Leads(states[n - 1], states[n - 1 + 1], ranks[n - 1], ops[n - 1]);
      OpGrows(states[n - 1], ranks[n - 1], ops[n - 1]);
      RunCharges(states, ops, ranks, n - 1) + OpCharges(states[n - 1], ranks[n - 1], ops[n - 1])
  }

  /** A walk that starts at an old group meets no new one. */
  lemma {:induction false} PathGrows(a: seq<Group>, rank: seq<nat>, b: seq<Group>, more: seq<nat>, i: nat)
    requires Grows(a, b) && ParentsExist(a) && Ranked(a, rank) && Ranked(b, more) && i < |a|
    ensures Path(a, rank, i) == Path(b, more, i)
    decreases rank[i]
  {
    hide GroupOf;
    if a[i].parent.Some? {
      GroupOfExtends(a, b, a[i].parent.value);
      PathGrows(a, rank, b, more, Parent(a, i));
    }
  }

  lemma {:induction false} BelowGrows(a: seq<Group>, rank: seq<nat>, b: seq<Group>, more: seq<nat>,
                                      charges: seq<Charge>, j: nat)
    requires Grows(a, b) && ParentsExist(a) && Ranked(a, rank) && Ranked(b, more)
    requires forall k :: 0 <= k < |charges| ==> charges[k].group < |a|
    ensures Below(a, rank, charges, j) == Below(b, more, charges, j)
    decreases |charges|
  {
    hide Path, Ranked, ParentsExist;
    if charges != [] {
      PathGrows(a, rank, b, more, charges[0].group);
      BelowGrows(a, rank, b, more, charges[1..], j);
    }
  }

  lemma {:induction false} BelowConcat(groups: seq<Group>, rank: seq<nat>, a: seq<Charge>, b: seq<Charge>, j: nat)
    requires Ranked(groups, rank) && forall k :: 0 <= k < |a| ==> a[k].group < |groups|
    requires forall k :: 0 <= k < |b| ==> b[k].group < |groups|
    ensures Below(groups, rank, a + b, j) == Below(groups, rank, a, j) + Below(groups, rank, b, j)
    decreases |a|
  {
    hide Ranked, Path;
    if a == [] {
      assert a + b == b;
    } else {
      BelowConcat(groups, rank, a[1..], b, j);
      assert (a + b)[1..] == a[1..] + b;
    }
  }

  /** As long as no root is relinked, what was charged in the subtrees of the moment was charged in the
      subtree that the group has at the end. */
  lemma {:induction false} ChargedAtEnd(states: seq<Sched>, ops: seq<Op>, ranks: seq<seq<nat>>, n: nat, j: nat)
    requires Run(states, ops, ranks) && n <= |ops| && forall k :: 0 <= k < n ==> !Relinks(states[k], ops[k])
    ensures Ranked(states[n].groups, ranks[n])
    ensures ChargedBelow(states, ops, ranks, n, j) ==
            Below(states[n].groups, ranks[n], RunCharges(states, ops, ranks, n), j)
  {
    hide Ranked, Shared, ParentsExist, Apply, OpCharges, Grows, Relinks, Path;
    assert Walks(states[n], ranks[n]);
    if n > 0 {
      ChargedAtEnd(states, ops, ranks, n - 1, j);
      var s, rank, op := states[n - 1], ranks[n - 1], ops[n - 1];
      assert Leads(s, states[n - 1 + 1], rank, op);
      var earlier, now := RunCharges(states, ops, ranks, n - 1), OpCharges(s, rank, op);
      OpGrows(s, rank, op);
      BelowGrows(s.groups, rank, states[n].groups, ranks[n], earlier, j);
      BelowGrows(s.groups, rank, states[n].groups, ranks[n], now, j);
      BelowConcat(states[n].groups, ranks[n], earlier, now, j);
    }
  }

  /** Conservation over runs, groups being created on the way: as long as no root is relinked, each group's
      time is what it was at the start, or zero if it did not exist, and exactly the sum of what the run's
      ticks and yields charged to the groups of its subtree. */
  lemma RunTimeIsSubtreeSum(states: seq<Sched>, ops: seq<Op>, ranks: seq<seq<nat>>, n: nat, j: nat)
    requires Run(states, ops, ranks) && n <= |ops| && forall k :: 0 <= k < n ==> !Relinks(states[k], ops[k])
    ensures Ranked(states[n].groups, ranks[n])
    ensures TimeOf(states[n].groups, j) ==
            SatAdd(TimeOf(states[0].groups, j),
                   Below(states[n].groups, ranks[n], RunCharges(states, ops, ranks, n), j))
  {
    hide Run, Ranked, RunCharges, ChargedBelow, Below, TimeOf, Relinks;
    ChargedAtEnd(states, ops, ranks, n, j);
    RunTimeIsSum(states, ops, ranks, n, j);
  }

  // ---------- Fair charges keep groups level ----------

  /** After a tick that charged a fair task, no runnable group is more than eight scaled quanta ahead of
      another. */
  lemma TickLevels(s: Sched, rank: seq<nat>, cpu: nat, at: nat)
    requires Walks(s, rank) && cpu < |s.current| && s.now <= at
    requires OpCharges(s, rank, TickOn(cpu, at)) != [] && OpCharges(s, rank, TickOn(cpu, at))[0].fair
    ensures Level(Apply(s, rank, TickOn(cpu, at)).groups)
  {
    hide TickCurrent, Account, WakeExpired, CurrentIndex, Sane, ParentsExist, Level, GroupOf;
    CurrentLevels(Awake(s, rank, at, SatAdd(s.ticks, 1)), rank, cpu, at - s.now);
  }

  lemma CurrentLevels(s: Sched, rank: seq<nat>, cpu: nat, elapsed: nat)
    requires Sane(s.groups, rank) && cpu < |s.current|
    requires CurrentIndex(s, cpu) < |s.tasks| && s.tasks[CurrentIndex(s, cpu)].deadline.None?
    ensures Level(TickCurrent(s, rank, cpu, elapsed).groups)
  {
    hide ScheduleNext, ChargeGroup, IndexOf, Sane, Level;
    var t := Ticked(s.tasks[CurrentIndex(s, cpu)], s.now);
    ChargeLevels(WithTask(s, CurrentIndex(s, cpu), t), rank, t.group, elapsed);
    ChargeLevels(WithTask(s, CurrentIndex(s, cpu), Preempted(t)), rank, t.group, elapsed);
  }

  lemma ChargeLevels(s: Sched, rank: seq<nat>, group: nat, elapsed: nat)
    requires Sane(s.groups, rank)
    ensures Level(ChargeGroup(s, rank, group, true, elapsed).groups)
  {
    hide GroupOf, Clamped, ChargeOnce, Level, Ranked, Shared;
    var g := GroupOf(s.groups, group);
    if g < |s.groups| {
      FairChargeLevels(s.groups, rank, Charge(g, true, elapsed, s.now));
    } else {
      ClampLevel(s.groups);
    }
  }

  lemma ScheduleRunnable(s: Sched, rank: seq<nat>, cpu: nat)
    requires Sane(s.groups, rank) && cpu < |s.current|
    ensures SameRunnable(s.tasks, ScheduleNext(s, rank, cpu).tasks)
  {
    hide Ranked, Shared, Pick, Replenish, Evolve, SameRunnable, Assign;
    var filled := s.(tasks := Replenish(s.tasks, s.now));
    var picked := Pick(filled, rank, cpu);
    PickEligible(filled, rank, cpu);
    ReplenishEvolves(s.tasks, s.now);
    AssignRunnable(filled.(cursors := picked.1), cpu, picked.0);
    SameRunnableTrans(s.tasks, filled.tasks, ScheduleNext(s, rank, cpu).tasks);
  }

  lemma AssignRunnable(s: Sched, cpu: nat, i: Option<nat>)
    requires cpu < |s.current| && (i.Some? ==> i.value < |s.tasks| && s.tasks[i.value].state == Ready)
    ensures SameRunnable(s.tasks, Assign(s, cpu, i).tasks)
  {
  }

  /** A yielding task is held back and comes back ready. */
  lemma HeldBack(s: seq<Task>, held: seq<Task>, found: seq<Task>, i: nat)
    requires i < |s| && s[i].state == Ready && held == s[i := s[i].(state := Suspended)] && SameRunnable(held, found)
    ensures SameRunnable(s, found[i := found[i].(state := Ready)])
  {
  }

  lemma YieldAnyRunnable(s: Sched, rank: seq<nat>, cpu: nat, i: nat)
    requires Sane(s.groups, rank) && cpu < |s.current| && i <= |s.tasks|
    requires i < |s.tasks| ==> s.tasks[i].state == Ready
    ensures SameRunnable(s.tasks, YieldAny(s, rank, cpu, i).tasks)
  {
    hide Sane, ScheduleNext, SameRunnable;
    var held := InState(s, i, Suspended);
    var found := ScheduleNext(held, rank, cpu);
    var back := InState(found, i, Ready);
    ScheduleRunnable(held, rank, cpu);
    if i < |s.tasks| {
      HeldBack(s.tasks, held.tasks, found.tasks, i);
    }
    if found.current[cpu].None? {
      ScheduleRunnable(back, rank, cpu);
      SameRunnableTrans(s.tasks, back.tasks, ScheduleNext(back, rank, cpu).tasks);
    }
  }

  lemma YieldToRunnable(s: Sched, rank: seq<nat>, cpu: nat, target: nat)
    requires cpu < |s.current| && (var j := IndexOf(s.tasks, target); j < |s.tasks| ==> Runnable(s.tasks[j]))
    ensures SameRunnable(s.tasks, YieldTo(s, rank, cpu, target).tasks)
  {
    hide IndexOf;
  }

  /** Exact counts stay as they are. */
  lemma RecountSame(s: Sched, r: Sched, rank: seq<nat>)
    requires Sane(r.groups, rank) && Counted(s) && SameShape(s.groups, r.groups) && SameRunnable(s.tasks, r.tasks)
    ensures Rebuilt(r, rank).groups == r.groups
  {
    hide Sane, Count, SameRunnable;
    forall j | 0 <= j < |r.groups| ensures Recounted(r.groups, r.tasks)[j] == r.groups[j] {
      CountSame(s.tasks, r.tasks, r.groups[j].id);
    }
  }

  lemma ChargingRunnable(s: Sched, rank: seq<nat>, i: nat)
    requires Sane(s.groups, rank) && i <= |s.tasks| && (i < |s.tasks| ==> s.tasks[i].state == Running)
    ensures var charged := Charging(s, rank, i);
      && SameRunnable(s.tasks, charged.tasks) && SameShape(s.groups, charged.groups) && SameIds(s.tasks, charged.tasks)
      && (i < |s.tasks| ==> charged.tasks[i].state == Ready)
      && forall j :: 0 <= j < |s.tasks| && j != i ==> charged.tasks[j] == s.tasks[j]
  {
    hide Sane, ChargeGroup;
  }

  /** With exact counts, a yield leaves the groups as its charge left them. */
  lemma YieldGroups(s: Sched, rank: seq<nat>, cpu: nat, target: Option<nat>, c: nat)
    requires Sane(s.groups, rank) && Counted(s) && cpu < |s.current| && GoodTarget(s, cpu, target)
    requires c == CurrentIndex(s, cpu) && c < |s.tasks| && s.tasks[c].state == Running
    ensures Yield(s, rank, cpu, target).s.groups == Charging(s, rank, c).groups
  {
    hide Sane, Counted, SameRunnable, SameShape, Charging, YieldAny, YieldTo, Rebuilt, IndexOf, CurrentIndex, SameIds;
    var charged := Charging(s, rank, c);
    ChargingRunnable(s, rank, c);
    var moved := if target.Some? then YieldTo(charged, rank, cpu, target.value) else YieldAny(charged, rank, cpu, c);
    if target.Some? {
      IdsFirst(s.tasks, charged.tasks, target.value);
      YieldToRunnable(charged, rank, cpu, target.value);
    } else {
      YieldAnyRunnable(charged, rank, cpu, c);
    }
    SameRunnableTrans(s.tasks, charged.tasks, moved.tasks);
    RecountSame(s, moved, rank);
  }

  lemma YieldLevels(s: Sched, rank: seq<nat>, cpu: nat, target: Option<nat>)
    requires Sane(s.groups, rank) && Counted(s)
    requires YieldCharges(s, cpu, target) != [] && YieldCharges(s, cpu, target)[0].fair
    ensures Level(Yield(s, rank, cpu, target).s.groups)
  {
    hide Sane, Counted, Level, Yield, GoodTarget, CurrentIndex, GroupOf, ChargeGroup;
    var c := CurrentIndex(s, cpu);
    YieldGroups(s, rank, cpu, target, c);
    ChargeLevels(InState(s, c, Ready), rank, s.tasks[c].group, QUANTUM_NS);
  }

  lemma AwakeCounted(s: Sched, rank: seq<nat>, at: nat, ticks: nat)
    requires Sane(s.groups, rank) && Good(s)
    ensures Counted(Awake(s, rank, at, ticks))
  {
    hide Sane, Owned, Counted, Evolve, Account, WakeAll, ExpiredIds;
    AccountKeeps(s, at, at);
    var paid := Account(s, at).(now := at, ticks := ticks);
    CountedClock(Account(s, at), paid);
    WakeAllKeeps(paid, rank, ExpiredIds(paid.tasks, at));
  }

  /** After every operation that charged a fair task, be it a tick or a yield, no runnable group is more
      than eight scaled quanta ahead of another. */
  lemma OpLevels(s: Sched, rank: seq<nat>, op: Op)
    requires Walks(s, rank) && Good(s)
    requires OpCharges(s, rank, op) != [] && OpCharges(s, rank, op)[0].fair
    ensures Level(Apply(s, rank, op).groups)
  {
    hide Sane, ParentsExist, Owned, Counted, Level, Tick, Yield, YieldCharges, ChargeOf, CurrentIndex, Awake;
    match op {
      case TickOn(cpu, at) => TickLevels(s, rank, cpu, at);
      case YieldOn(cpu, target) => YieldLevels(s, rank, cpu, target);
      case YieldOnAt(cpu, target, at) =>
        AwakeCounted(s, rank, at, s.ticks);
        YieldLevels(Awake(s, rank, at, s.ticks), rank, cpu, target);
        AwakeYields(s, rank, cpu, target, at);
    }
  }

  lemma AwakeYields(s: Sched, rank: seq<nat>, cpu: nat, target: Option<nat>, at: nat)
    requires Sane(s.groups, rank) && cpu < |s.current| && s.now <= at
    ensures YieldAt(s, rank, cpu, target, at) == Yield(Awake(s, rank, at, s.ticks), rank, cpu, target)
  {
    hide Sane, Yield, WakeExpired, Account;
  }
}
