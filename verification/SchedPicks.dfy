/** Round robin over whole runs: cursors move only when the scheduler picks, so a group's picks on a CPU,
    one after the other in a run, go round its candidates whatever else happens in between. */
module SchedPicks {
  import opened Octets
  import opened SchedModel
  import opened SchedGroups
  import opened SchedSelect
  import opened SchedOps
  import opened SchedSteps
  import opened SchedRobin
  import opened SchedRuns

  // ---------- Moments ----------

  /** A moment at which a CPU looks for its next task. */
  datatype Moment = Moment(s: Sched, rank: seq<nat>, cpu: nat)

  ghost predicate Apt(m: Moment) {
    Sane(m.s.groups, m.rank) && m.cpu < |m.s.current|
  }

  ghost function After(m: Moment): Sched
    requires Apt(m)
  {
    ScheduleNext(m.s, m.rank, m.cpu)
  }

  /** What cursors remember is the same, every group that had its cursors still has them, and ids that
      were unique still are. */
  ghost predicate Kept(s: Sched, r: Sched) {
    && (forall g: nat, c: nat :: LastOf(r.cursors, g, c) == LastOf(s.cursors, g, c))
    && (HasCursors(s) ==> HasCursors(r))
    && (UniqueTasks(s.tasks) ==> UniqueTasks(r.tasks))
  }

  /** The moments account for the cursors: between them nothing that is remembered changes. */
  ghost predicate Chain(from: Sched, moments: seq<Moment>, to: Sched)
    decreases |moments|
  {
    if moments == [] then Kept(from, to)
    else Apt(moments[0]) && Kept(from, moments[0].s) && Chain(After(moments[0]), moments[1..], to)
  }

  lemma KeptTrans(a: Sched, b: Sched, c: Sched)
    requires Kept(a, b) && Kept(b, c)
    ensures Kept(a, c)
  {
    hide LastOf, HasCursors, UniqueTasks;
  }

  lemma SameUnique(a: seq<Task>, b: seq<Task>)
    requires SameIds(a, b) && UniqueTasks(a)
    ensures UniqueTasks(b)
  {
  }

  lemma SameIdsSelf(tasks: seq<Task>)
    ensures SameIds(tasks, tasks)
  {
  }

  /** A change that touches neither cursors nor links nor ids. */
  ghost predicate Aside(s: Sched, r: Sched) {
    r.cursors == s.cursors && |r.current| == |s.current| && SameLinks(s.groups, r.groups) && SameIds(s.tasks, r.tasks)
  }

  lemma KeptSame(s: Sched, r: Sched)
    requires Aside(s, r)
    ensures Kept(s, r)
  {
    hide LastOf, HasCursors, SameLinks, SameIds, UniqueTasks;
    if HasCursors(s) {
      SlotsKeepCursors(s, r);
    }
    if UniqueTasks(s.tasks) {
      SameUnique(s.tasks, r.tasks);
    }
  }

  lemma ChainFrom(a: Sched, from: Sched, moments: seq<Moment>, to: Sched)
    requires Kept(a, from) && Chain(from, moments, to)
    ensures Chain(a, moments, to)
  {
    hide Kept, After;
    if moments == [] {
      KeptTrans(a, from, to);
    } else {
      KeptTrans(a, from, moments[0].s);
    }
  }

  lemma {:induction false} ChainConcat(a: Sched, first: seq<Moment>, b: Sched, second: seq<Moment>, c: Sched)
    requires Chain(a, first, b) && Chain(b, second, c)
    ensures Chain(a, first + second, c)
    decreases |first|
  {
    hide Kept, After, Apt;
    if first == [] {
      assert first + second == second;
      ChainFrom(a, b, second, c);
    } else {
      assert (first + second)[1..] == first[1..] + second;
      ChainConcat(After(first[0]), first[1..], b, second, c);
    }
  }

  lemma ChainTo(a: Sched, moments: seq<Moment>, b: Sched, to: Sched)
    requires Chain(a, moments, b) && Kept(b, to)
    ensures Chain(a, moments, to)
  {
    hide Kept, After, Apt;
    ChainConcat(a, moments, b, [], to);
    assert moments + [] == moments;
  }

  lemma ChainNone(s: Sched, r: Sched)
    requires Aside(s, r)
    ensures Chain(s, [], r)
  {
    hide Aside, Kept;
    KeptSame(s, r);
  }

  lemma ChainOne(s: Sched, m: Moment)
    requires Apt(m) && Aside(s, m.s)
    ensures Chain(s, [m], After(m))
  {
    hide Kept, After, Apt, Aside;
    KeptSame(s, m.s);
    ChainSelf(After(m));
    assert [m][1..] == [];
  }

  lemma ChainSelf(s: Sched)
    ensures Chain(s, [], s)
  {
    hide Kept, SameLinks, SameIds;
    LinksRefl(s.groups);
    SameIdsSelf(s.tasks);
    ChainNone(s, s);
  }

  lemma WithIds(s: Sched, i: nat, t: Task)
    requires i < |s.tasks| && t.id == s.tasks[i].id
    ensures SameIds(s.tasks, WithTask(s, i, t).tasks)
  {
  }

  lemma InStateIds(s: Sched, i: nat, state: TaskState)
    ensures SameIds(s.tasks, InState(s, i, state).tasks)
  {
  }

  lemma {:induction false} SpendIds(s: Sched, cpu: nat, elapsed: nat, spent: nat)
    requires cpu <= |s.current|
    ensures SameIds(s.tasks, SpendFrom(s, cpu, elapsed, spent).tasks)
    decreases |s.current| - cpu
  {
    hide ThreadOf, IndexOf;
    if cpu < |s.current| {
      SpendIds(SpendOn(s, cpu, elapsed, spent), cpu + 1, elapsed, spent);
    }
  }

  lemma AccountIds(s: Sched, at: nat)
    ensures SameIds(s.tasks, Account(s, at).tasks)
  {
    hide SpendFrom, SameIds;
    SameIdsSelf(s.tasks);
    var elapsed := if s.last.Some? then at - s.last.value else 0;
    if elapsed >= 0 {
      SpendIds(s, 0, elapsed, if s.last.Some? then elapsed else SatSub(at, s.now));
    }
  }

  // ---------- The moments of each operation ----------

  ghost function FillMoments(s: Sched, rank: seq<nat>, cpu: nat): seq<Moment>
    requires Sane(s.groups, rank) && cpu <= |s.current|
    decreases |s.current| - cpu
  {
    if cpu == |s.current| then []
    else if s.current[cpu].None? then
      [Moment(s, rank, cpu)] + FillMoments(ScheduleNext(s, rank, cpu), rank, cpu + 1)
    else FillMoments(s, rank, cpu + 1)
  }

  lemma {:induction false} FillChain(s: Sched, rank: seq<nat>, cpu: nat)
    requires Sane(s.groups, rank) && cpu <= |s.current|
    ensures Chain(s, FillMoments(s, rank, cpu), FillIdle(s, rank, cpu))
    decreases |s.current| - cpu
  {
    hide ScheduleNext, Sane, Chain, SameLinks, SameIds;
    LinksRefl(s.groups);
    if cpu == |s.current| {
      ChainSelf(s);
    } else if s.current[cpu].None? {
      var m, next := Moment(s, rank, cpu), ScheduleNext(s, rank, cpu);
      FillChain(next, rank, cpu + 1);
      SameIdsSelf(s.tasks);
      ChainOne(s, m);
      ChainConcat(s, [m], next, FillMoments(next, rank, cpu + 1), FillIdle(s, rank, cpu));
    } else {
      FillChain(s, rank, cpu + 1);
    }
  }

  /** Counting anew and filling idle CPUs, after a change that leaves cursors and links alone. */
  lemma RefillChain(s: Sched, changed: Sched, rank: seq<nat>)
    requires Sane(changed.groups, rank) && changed.cursors == s.cursors && |changed.current| == |s.current|
    requires changed.groups == s.groups && SameIds(s.tasks, changed.tasks)
    ensures var counted := Rebuilt(changed, rank);
      Chain(s, FillMoments(counted, rank, 0), FillIdle(counted, rank, 0))
  {
    hide FillMoments, FillIdle, Rebuilt, Sane, Chain, Kept, SameLinks, SameIds;
    var counted := Rebuilt(changed, rank);
    FillChain(counted, rank, 0);
    KeptSame(s, counted);
    ChainFrom(s, counted, FillMoments(counted, rank, 0), FillIdle(counted, rank, 0));
  }

  ghost function WakeMoments(s: Sched, rank: seq<nat>, id: nat): seq<Moment>
    requires Sane(s.groups, rank)
  {
    var i := IndexOf(s.tasks, id);
    if i == |s.tasks| then [] else FillMoments(Rebuilt(WithTask(s, i, Woken(s.tasks[i])), rank), rank, 0)
  }

  lemma WakeChain(s: Sched, rank: seq<nat>, id: nat)
    requires Sane(s.groups, rank)
    ensures Chain(s, WakeMoments(s, rank, id), Wake(s, rank, id).s)
  {
    hide FillIdle, FillMoments, Rebuilt, Sane, Chain, IndexOf, SameLinks, SameIds;
    var i := IndexOf(s.tasks, id);
    if i == |s.tasks| {
      ChainSelf(s);
    } else {
      WithIds(s, i, Woken(s.tasks[i]));
      RefillChain(s, WithTask(s, i, Woken(s.tasks[i])), rank);
    }
  }

  ghost function WakeAllMoments(s: Sched, rank: seq<nat>, ids: seq<nat>): seq<Moment>
    requires Sane(s.groups, rank)
    decreases |ids|
  {
    if ids == [] then [] else WakeMoments(s, rank, ids[0]) + WakeAllMoments(Wake(s, rank, ids[0]).s, rank, ids[1..])
  }

  lemma {:induction false} WakeAllChain(s: Sched, rank: seq<nat>, ids: seq<nat>)
    requires Sane(s.groups, rank)
    ensures Chain(s, WakeAllMoments(s, rank, ids), WakeAll(s, rank, ids))
    decreases |ids|
  {
    hide Wake, WakeMoments, Sane, Chain, SameLinks, SameIds;
    if ids == [] {
      ChainSelf(s);
    } else {
      var next := Wake(s, rank, ids[0]).s;
      WakeChain(s, rank, ids[0]);
      WakeAllChain(next, rank, ids[1..]);
      ChainConcat(s, WakeMoments(s, rank, ids[0]), next, WakeAllMoments(next, rank, ids[1..]), WakeAll(s, rank, ids));
    }
  }

  /** Waking what has expired, once time is accounted. */
  ghost function AwakeMoments(s: Sched, rank: seq<nat>, at: nat, ticks: nat): seq<Moment>
    requires Sane(s.groups, rank)
  {
    var later := Account(s, at).(now := at, ticks := ticks);
    WakeAllMoments(later, rank, ExpiredIds(later.tasks, later.now))
  }

  lemma AwakeChain(s: Sched, rank: seq<nat>, at: nat, ticks: nat)
    requires Sane(s.groups, rank)
    ensures Chain(s, AwakeMoments(s, rank, at, ticks),
                  WakeExpired(Account(s, at).(now := at, ticks := ticks), rank))
  {
    hide WakeAll, WakeAllMoments, Sane, Chain, Account, ExpiredIds, Kept, SameLinks, SameIds;
    var later := Account(s, at).(now := at, ticks := ticks);
    WakeAllChain(later, rank, ExpiredIds(later.tasks, later.now));
    LinksRefl(s.groups);
    AccountIds(s, at);
    KeptSame(s, later);
    ChainFrom(s, later, AwakeMoments(s, rank, at, ticks), WakeExpired(later, rank));
  }

  ghost function CurrentMoments(s: Sched, rank: seq<nat>, cpu: nat, elapsed: nat): seq<Moment>
    requires Sane(s.groups, rank) && cpu < |s.current|
  {
    var i := CurrentIndex(s, cpu);
    if i == |s.tasks| then [Moment(s, rank, cpu)]
    else
      var t := Ticked(s.tasks[i], s.now);
      if Continues(t, s.now) then []
      else [Moment(ChargeGroup(WithTask(s, i, Preempted(t)), rank, t.group, t.deadline.None?, elapsed), rank, cpu)]
  }

  lemma CurrentChain(s: Sched, rank: seq<nat>, cpu: nat, elapsed: nat)
    requires Sane(s.groups, rank) && cpu < |s.current|
    ensures Chain(s, CurrentMoments(s, rank, cpu, elapsed), TickCurrent(s, rank, cpu, elapsed))
  {
    hide ScheduleNext, ChargeGroup, Sane, Chain, IndexOf, SameIds;
    var moments, r := CurrentMoments(s, rank, cpu, elapsed), TickCurrent(s, rank, cpu, elapsed);
    var i := CurrentIndex(s, cpu);
    LinksRefl(s.groups);
    SameIdsSelf(s.tasks);
    if i < |s.tasks| {
      WithIds(s, i, Ticked(s.tasks[i], s.now));
      WithIds(s, i, Preempted(Ticked(s.tasks[i], s.now)));
    }
    if moments == [] {
      ChainNone(s, r);
    } else {
      ChainOne(s, moments[0]);
    }
  }

  ghost function LeaveMoments(s: Sched, rank: seq<nat>, cpu: nat, i: nat, t: Task): seq<Moment>
    requires Sane(s.groups, rank) && cpu < |s.current| && i < |s.tasks|
  {
    [Moment(Vacated(Rebuilt(WithTask(s, i, t), rank), cpu), rank, cpu)]
  }

  lemma LeaveChain(s: Sched, rank: seq<nat>, cpu: nat, i: nat, t: Task)
    requires Sane(s.groups, rank) && cpu < |s.current| && i < |s.tasks| && t.id == s.tasks[i].id
    ensures Chain(s, LeaveMoments(s, rank, cpu, i, t), Leave(s, rank, cpu, i, t))
  {
    hide ScheduleNext, Rebuilt, Sane, Chain, SameLinks, SameIds;
    WithIds(s, i, t);
    ChainOne(s, LeaveMoments(s, rank, cpu, i, t)[0]);
  }

  ghost function DisplaceMoments(s: Sched, rank: seq<nat>, id: nat, cpu: nat): seq<Moment>
    requires Sane(s.groups, rank) && cpu <= |s.current|
    decreases |s.current| - cpu
  {
    if cpu == |s.current| then []
    else if s.current[cpu] == Some(id) then
      [Moment(Vacated(s, cpu), rank, cpu)] +
      DisplaceMoments(ScheduleNext(Vacated(s, cpu), rank, cpu), rank, id, cpu + 1)
    else DisplaceMoments(s, rank, id, cpu + 1)
  }

  lemma {:induction false} DisplaceChain(s: Sched, rank: seq<nat>, id: nat, cpu: nat)
    requires Sane(s.groups, rank) && cpu <= |s.current|
    ensures Chain(s, DisplaceMoments(s, rank, id, cpu), Displace(s, rank, id, cpu))
    decreases |s.current| - cpu
  {
    hide ScheduleNext, Sane, Chain, SameLinks, SameIds;
    LinksRefl(s.groups);
    if cpu == |s.current| {
      ChainSelf(s);
    } else if s.current[cpu] == Some(id) {
      var m := Moment(Vacated(s, cpu), rank, cpu);
      var next := ScheduleNext(m.s, rank, cpu);
      DisplaceChain(next, rank, id, cpu + 1);
      SameIdsSelf(s.tasks);
      ChainOne(s, m);
      ChainConcat(s, [m], next, DisplaceMoments(next, rank, id, cpu + 1), Displace(s, rank, id, cpu));
    } else {
      DisplaceChain(s, rank, id, cpu + 1);
    }
  }

  ghost function YieldAnyMoments(s: Sched, rank: seq<nat>, cpu: nat, i: nat): seq<Moment>
    requires Sane(s.groups, rank) && cpu < |s.current| && i <= |s.tasks|
  {
    var found := ScheduleNext(InState(s, i, Suspended), rank, cpu);
    var first := [Moment(InState(s, i, Suspended), rank, cpu)];
    if found.current[cpu].Some? then first else first + [Moment(InState(found, i, Ready), rank, cpu)]
  }

  lemma YieldAnyChain(s: Sched, rank: seq<nat>, cpu: nat, i: nat)
    requires Sane(s.groups, rank) && cpu < |s.current| && i <= |s.tasks|
    ensures Chain(s, YieldAnyMoments(s, rank, cpu, i), YieldAny(s, rank, cpu, i))
  {
    hide ScheduleNext, Sane, Chain, InState, SameLinks, SameIds, Kept;
    LinksRefl(s.groups);
    var m := Moment(InState(s, i, Suspended), rank, cpu);
    var found := ScheduleNext(m.s, rank, cpu);
    var again := Moment(InState(found, i, Ready), rank, cpu);
    InStateIds(s, i, Suspended);
    InStateIds(found, i, Ready);
    ChainOne(s, m);
    if found.current[cpu].Some? {
      KeptSame(found, again.s);
      ChainTo(s, [m], found, again.s);
    } else {
      ChainOne(found, again);
      ChainConcat(s, [m], found, [again], After(again));
    }
  }

  ghost function YieldMoments(s: Sched, rank: seq<nat>, cpu: nat, target: Option<nat>): seq<Moment>
    requires Sane(s.groups, rank)
  {
    if cpu >= |s.current| || !GoodTarget(s, cpu, target) || target.Some? then []
    else
      var c := CurrentIndex(s, cpu);
      var i := if c < |s.tasks| && s.tasks[c].state == Running then c else |s.tasks|;
      YieldAnyMoments(Charging(s, rank, i), rank, cpu, i)
  }

  lemma YieldChain(s: Sched, rank: seq<nat>, cpu: nat, target: Option<nat>)
    requires Sane(s.groups, rank)
    ensures Chain(s, YieldMoments(s, rank, cpu, target), Yield(s, rank, cpu, target).s)
  {
    hide YieldAny, YieldAnyMoments, ChargeGroup, GoodTarget, CurrentIndex, Rebuilt, Sane, Chain, IndexOf, InState, Kept,
         SameLinks, SameIds;
    var r := Yield(s, rank, cpu, target).s;
    if cpu < |s.current| && GoodTarget(s, cpu, target) && target.None? {
      var c := CurrentIndex(s, cpu);
      var i := if c < |s.tasks| && s.tasks[c].state == Running then c else |s.tasks|;
      var charged := Charging(s, rank, i);
      var moved := YieldAny(charged, rank, cpu, i);
      YieldAnyChain(charged, rank, cpu, i);
      InStateIds(s, i, Ready);
      KeptSame(s, charged);
      ChainFrom(s, charged, YieldMoments(s, rank, cpu, target), moved);
      SameIdsSelf(moved.tasks);
      KeptSame(moved, r);
      ChainTo(s, YieldMoments(s, rank, cpu, target), moved, r);
    } else {
      YieldToCursors(s, rank, cpu, target);
      ChainNone(s, r);
    }
  }

  lemma YieldToCursors(s: Sched, rank: seq<nat>, cpu: nat, target: Option<nat>)
    requires Sane(s.groups, rank) && (cpu >= |s.current| || !GoodTarget(s, cpu, target) || target.Some?)
    ensures var r := Yield(s, rank, cpu, target).s; r.cursors == s.cursors && SameIds(s.tasks, r.tasks)
  {
    hide ChargeGroup, GoodTarget, CurrentIndex, Rebuilt, Sane, IndexOf;
  }

  ghost function EvictMoments(s: Sched, rank: seq<nat>, i: nat, mask: set<nat>, cpu: nat): seq<Moment>
    requires Sane(s.groups, rank) && cpu <= |s.current| && i < |s.tasks|
    decreases |s.current| - cpu
  {
    if cpu == |s.current| then []
    else if s.current[cpu] == Some(s.tasks[i].id) && cpu !in mask then
      var m := Vacated(InState(s, i, Ready), cpu);
      [Moment(m, rank, cpu)] + EvictMoments(ScheduleNext(m, rank, cpu), rank, i, mask, cpu + 1)
    else EvictMoments(s, rank, i, mask, cpu + 1)
  }

  lemma {:induction false} EvictChain(s: Sched, rank: seq<nat>, i: nat, mask: set<nat>, cpu: nat)
    requires Sane(s.groups, rank) && cpu <= |s.current| && i < |s.tasks|
    ensures Chain(s, EvictMoments(s, rank, i, mask, cpu), Evict(s, rank, i, mask, cpu))
    decreases |s.current| - cpu
  {
    hide ScheduleNext, Sane, Chain, InState, SameLinks, SameIds;
    LinksRefl(s.groups);
    if cpu == |s.current| {
      ChainSelf(s);
    } else if s.current[cpu] == Some(s.tasks[i].id) && cpu !in mask {
      var m := Moment(Vacated(InState(s, i, Ready), cpu), rank, cpu);
      var next := ScheduleNext(m.s, rank, cpu);
      EvictChain(next, rank, i, mask, cpu + 1);
      InStateIds(s, i, Ready);
      ChainOne(s, m);
      ChainConcat(s, [m], next, EvictMoments(next, rank, i, mask, cpu + 1), Evict(s, rank, i, mask, cpu));
    } else {
      EvictChain(s, rank, i, mask, cpu + 1);
    }
  }

  ghost function SuspendMoments(s: Sched, rank: seq<nat>, id: nat): seq<Moment>
    requires Sane(s.groups, rank)
  {
    var i := IndexOf(s.tasks, id);
    if i == |s.tasks| then []
    else
      var t := if s.tasks[i].state == Exited then s.tasks[i]
               else s.tasks[i].(state := Suspended, quantum := QUANTUM_TICKS);
      DisplaceMoments(WithTask(s, i, t), rank, id, 0)
  }

  lemma SuspendChain(s: Sched, rank: seq<nat>, id: nat)
    requires Sane(s.groups, rank)
    ensures Chain(s, SuspendMoments(s, rank, id), Suspend(s, rank, id).s)
  {
    hide Displace, DisplaceMoments, Rebuilt, Sane, Chain, IndexOf, Kept, SameLinks, SameIds;
    LinksRefl(s.groups);
    var i, r := IndexOf(s.tasks, id), Suspend(s, rank, id).s;
    if i == |s.tasks| {
      ChainSelf(s);
    } else {
      var t := if s.tasks[i].state == Exited then s.tasks[i]
               else s.tasks[i].(state := Suspended, quantum := QUANTUM_TICKS);
      var asleep := WithTask(s, i, t);
      var moved := Displace(asleep, rank, id, 0);
      DisplaceChain(asleep, rank, id, 0);
      WithIds(s, i, t);
      SameIdsSelf(moved.tasks);
      KeptSame(s, asleep);
      ChainFrom(s, asleep, SuspendMoments(s, rank, id), moved);
      KeptSame(moved, r);
      ChainTo(s, SuspendMoments(s, rank, id), moved, r);
    }
  }

  ghost function ExitMoments(s: Sched, rank: seq<nat>, id: nat, code: int): seq<Moment>
    requires Sane(s.groups, rank)
  {
    var i := IndexOf(s.tasks, id);
    if i == |s.tasks| then []
    else
      var t := s.tasks[i].(state := Exited, exitCode := code, quantum := 0, reason := None);
      FillMoments(Rebuilt(WithTask(s, i, t).(current := Freed(s.current, {id})), rank), rank, 0)
  }

  lemma ExitChain(s: Sched, rank: seq<nat>, id: nat, code: int)
    requires Sane(s.groups, rank)
    ensures Chain(s, ExitMoments(s, rank, id, code), Exit(s, rank, id, code).s)
  {
    hide FillIdle, FillMoments, Rebuilt, Sane, Chain, IndexOf, SameLinks, SameIds;
    var i := IndexOf(s.tasks, id);
    if i == |s.tasks| {
      ChainSelf(s);
    } else {
      var t := s.tasks[i].(state := Exited, exitCode := code, quantum := 0, reason := None);
      WithIds(s, i, t);
      RefillChain(s, WithTask(s, i, t).(current := Freed(s.current, {id})), rank);
    }
  }

  ghost function AffinityMoments(s: Sched, rank: seq<nat>, id: nat, mask: set<nat>): seq<Moment>
    requires Sane(s.groups, rank)
  {
    var i := IndexOf(s.tasks, id);
    if mask == {} || !(mask <= Cpus(|s.current|)) || i == |s.tasks| then []
    else EvictMoments(WithTask(s, i, s.tasks[i].(affinity := mask)), rank, i, mask, 0)
  }

  lemma AffinityChain(s: Sched, rank: seq<nat>, id: nat, mask: set<nat>)
    requires Sane(s.groups, rank)
    ensures Chain(s, AffinityMoments(s, rank, id, mask), SetAffinity(s, rank, id, mask).s)
  {
    hide Evict, EvictMoments, Rebuilt, Sane, Chain, IndexOf, Cpus, Kept, SameLinks, SameIds;
    LinksRefl(s.groups);
    var i, r := IndexOf(s.tasks, id), SetAffinity(s, rank, id, mask).s;
    if mask == {} || !(mask <= Cpus(|s.current|)) || i == |s.tasks| {
      ChainSelf(s);
    } else {
      var confined := WithTask(s, i, s.tasks[i].(affinity := mask));
      var moved := Evict(confined, rank, i, mask, 0);
      EvictChain(confined, rank, i, mask, 0);
      WithIds(s, i, s.tasks[i].(affinity := mask));
      SameIdsSelf(moved.tasks);
      KeptSame(s, confined);
      ChainFrom(s, confined, AffinityMoments(s, rank, id, mask), moved);
      KeptSame(moved, r);
      ChainTo(s, AffinityMoments(s, rank, id, mask), moved, r);
    }
  }

  ghost function HoldMoments(s: Sched, rank: seq<nat>, process: nat, held: TaskState): seq<Moment>
    requires Sane(s.groups, rank)
  {
    var tasks := HoldAll(s.tasks, process, held);
    FillMoments(Rebuilt(s.(tasks := tasks, current := Freed(s.current, HeldIds(tasks, held))), rank), rank, 0)
  }

  lemma HoldChain(s: Sched, rank: seq<nat>, process: nat, held: TaskState)
    requires Sane(s.groups, rank)
    ensures Chain(s, HoldMoments(s, rank, process, held), HoldProcess(s, rank, process, held))
  {
    hide FillIdle, FillMoments, Rebuilt, Sane, Chain;
    var tasks := HoldAll(s.tasks, process, held);
    RefillChain(s, s.(tasks := tasks, current := Freed(s.current, HeldIds(tasks, held))), rank);
  }

  ghost function ResumeMoments(s: Sched, rank: seq<nat>, process: nat, held: TaskState): seq<Moment>
    requires Sane(s.groups, rank)
  {
    FillMoments(Rebuilt(s.(tasks := ResumeAll(s.tasks, process, held)), rank), rank, 0)
  }

  lemma ResumeChain(s: Sched, rank: seq<nat>, process: nat, held: TaskState)
    requires Sane(s.groups, rank)
    ensures Chain(s, ResumeMoments(s, rank, process, held), ResumeProcess(s, rank, process, held))
  {
    hide FillIdle, FillMoments, Rebuilt, Sane, Chain;
    RefillChain(s, s.(tasks := ResumeAll(s.tasks, process, held)), rank);
  }

  ghost function AddMoments(s: Sched, rank: seq<nat>, task: Task): seq<Moment>
    requires Walks(s, rank)
  {
    var admitted := Admit(s, task);
    AdmitSane(s, rank, task);
    var more := GrownRank(|s.groups|, rank, |admitted.s.groups|);
    if admitted.error.Some? then [] else FillMoments(Rebuilt(admitted.s, more), more, 0)
  }

  /** New cursors remember nothing. */
  lemma {:induction false} AppendedLast(cursors: seq<Cursor>, id: nat, cpus: nat, g: nat, c: nat)
    ensures LastOf(cursors + CursorsFor(id, cpus), g, c) == LastOf(cursors, g, c)
    decreases |cursors|
  {
    hide CursorsFor;
    var more := CursorsFor(id, cpus);
    if cursors == [] {
      assert cursors + more == more;
      NewRemember(id, cpus);
    } else if cursors[0].group != g || cursors[0].cpu != c {
      AppendedLast(cursors[1..], id, cpus, g, c);
      assert (cursors + more)[1..] == cursors[1..] + more;
    }
  }

  lemma NewRemember(id: nat, cpus: nat)
    ensures forall k :: 0 <= k < |CursorsFor(id, cpus)| ==> CursorsFor(id, cpus)[k].last.None?
  {
  }

  lemma EnsureKept(s: Sched, id: nat, parent: Option<nat>, shares: nat, permille: nat, realtime: bool)
    ensures Kept(s, EnsureGroup(s, id, parent, shares, permille, realtime).0)
  {
    hide LastOf, HasCursors, CursorsFor, GroupOf, NewGroup;
    if HasCursors(s) {
      EnsureCursors(s, id, parent, shares, permille, realtime);
    }
    forall g: nat, c: nat
      ensures LastOf(s.cursors + CursorsFor(id, CpuCount(s.current)), g, c) == LastOf(s.cursors, g, c)
    {
      AppendedLast(s.cursors, id, CpuCount(s.current), g, c);
    }
  }

  /** A task is added only under a new id. */
  lemma AdmitUnique(s: Sched, task: Task)
    requires UniqueTasks(s.tasks)
    ensures UniqueTasks(Admit(s, task).s.tasks)
  {
    hide Admit, IndexOf;
    AdmitTasks(s, task);
    var a := Admit(s, task);
    if a.error.None? {
      var t: Task :| Joins(s, a.s, task, t);
      assert forall k :: 0 <= k < |s.tasks| ==> s.tasks[k].id != t.id;
    }
  }

  lemma AdmitKept(s: Sched, task: Task)
    ensures Kept(s, Admit(s, task).s)
  {
    hide LastOf, HasCursors, EnsureGroup, CaughtUp, IndexOf, ThreadOf, Cpus, GroupOf, UniqueTasks;
    if HasCursors(s) {
      AdmitCursors(s, task);
    }
    if UniqueTasks(s.tasks) {
      AdmitUnique(s, task);
    }
    EnsureKept(if s.current == [] then s.(current := [None]) else s, task.group, None, 1024, 0, true);
  }

  lemma AddChain(s: Sched, rank: seq<nat>, task: Task)
    requires Walks(s, rank)
    ensures Chain(s, AddMoments(s, rank, task), AddTask(s, rank, task).s)
  {
    hide Sane, ParentsExist, Admit, FillIdle, FillMoments, Rebuilt, Kept, SameLinks, SameIds;
    AdmitKept(s, task);
    AdmitSane(s, rank, task);
    var a := Admit(s, task).s;
    var more := GrownRank(|s.groups|, rank, |a.groups|);
    if Admit(s, task).error.None? {
      SameIdsSelf(a.tasks);
      RefillChain(a, a, more);
      ChainFrom(s, a, AddMoments(s, rank, task), AddTask(s, rank, task).s);
    }
  }

  /** Every moment of an operation at which some CPU looks for its next task, in order. */
  ghost function OpMoments(s: Sched, rank: seq<nat>, op: Op): seq<Moment>
    requires Walks(s, rank)
  {
    match op
    case TickOn(cpu, at) =>
      if cpu >= |s.current| || at < s.now then []
      else
        var awake := WakeExpired(Account(s, at).(now := at, ticks := SatAdd(s.ticks, 1)), rank);
        AwakeMoments(s, rank, at, SatAdd(s.ticks, 1)) + CurrentMoments(awake, rank, cpu, at - s.now)
    case BlockOn(cpu, reason) =>
      var i := CurrentIndex(s, cpu);
      if i == |s.tasks| then []
      else LeaveMoments(s, rank, cpu, i,
                        s.tasks[i].(state := Blocked, reason := Some(reason), quantum := QUANTUM_TICKS))
    case WakeOne(id) => WakeMoments(s, rank, id)
    case SuspendOne(id) => SuspendMoments(s, rank, id)
    case ExitOn(cpu, code) =>
      var i := CurrentIndex(s, cpu);
      if i == |s.tasks| then []
      else LeaveMoments(s, rank, cpu, i, s.tasks[i].(state := Exited, exitCode := code, quantum := 0))
    case ExitOne(id, code) => ExitMoments(s, rank, id, code)
    case YieldOn(cpu, target) => YieldMoments(s, rank, cpu, target)
    case YieldOnAt(cpu, target, at) =>
      if cpu >= |s.current| || at < s.now then []
      else
        var awake := WakeExpired(Account(s, at).(now := at, ticks := s.ticks), rank);
        AwakeMoments(s, rank, at, s.ticks) + YieldMoments(awake, rank, cpu, target)
    case Confine(id, mask) => AffinityMoments(s, rank, id, mask)
    case HoldOne(process, held) => HoldMoments(s, rank, process, held)
    case ResumeOne(process, held) => ResumeMoments(s, rank, process, held)
    case Add(task) => AddMoments(s, rank, task)
    case _ => []
  }

  // ---------- Cursors move at those moments only ----------

  lemma TimedChain(s: Sched, rank: seq<nat>, op: Op)
    requires Walks(s, rank) && (op.TickOn? || op.YieldOnAt?)
    ensures Chain(s, OpMoments(s, rank, op), Apply(s, rank, op))
  {
    hide Sane, ParentsExist, Chain, Account, WakeExpired, TickCurrent, Yield, AwakeMoments, CurrentMoments,
         YieldMoments, SameLinks, SameIds;
    if op.cpu < |s.current| && s.now <= op.at {
      var ticks := if op.TickOn? then SatAdd(s.ticks, 1) else s.ticks;
      var awake := WakeExpired(Account(s, op.at).(now := op.at, ticks := ticks), rank);
      var before, after := AwakeMoments(s, rank, op.at, ticks), Apply(s, rank, op);
      AwakeChain(s, rank, op.at, ticks);
      if op.TickOn? {
        CurrentChain(awake, rank, op.cpu, op.at - s.now);
        ChainConcat(s, before, awake, CurrentMoments(awake, rank, op.cpu, op.at - s.now), after);
      } else {
        YieldChain(awake, rank, op.cpu, op.target);
        ChainConcat(s, before, awake, YieldMoments(awake, rank, op.cpu, op.target), after);
      }
    } else {
      ChainSelf(s);
    }
  }

  lemma LeavingChain(s: Sched, rank: seq<nat>, op: Op)
    requires Walks(s, rank) && (op.BlockOn? || op.ExitOn?)
    ensures Chain(s, OpMoments(s, rank, op), Apply(s, rank, op))
  {
    hide Sane, ParentsExist, Chain, Leave, LeaveMoments, SameLinks, SameIds, IndexOf;
    var i := CurrentIndex(s, op.cpu);
    if i == |s.tasks| {
      ChainSelf(s);
    } else {
      var t := s.tasks[i];
      LeaveChain(s, rank, op.cpu, i, if op.BlockOn? then t.(state := Blocked, reason := Some(op.reason),
                                                            quantum := QUANTUM_TICKS)
                                     else t.(state := Exited, exitCode := op.code, quantum := 0));
    }
  }

  lemma RetuneAside(s: Sched, rank: seq<nat>, i: nat, t: Task)
    requires Sane(s.groups, rank) && i < |s.tasks| && t.id == s.tasks[i].id
    ensures Aside(s, Retune(s, rank, i, t))
  {
    hide Sane, Recounted, SameLinks, SameIds;
    WithIds(s, i, t);
  }

  /** Changes of one task's profile or priority. */
  lemma ProfileAside(s: Sched, rank: seq<nat>, op: Op)
    requires Walks(s, rank) && (op.MakeFair? || op.MakeDeadline? || op.DonateTo? || op.RestoreOne?)
    ensures Aside(s, Apply(s, rank, op))
  {
    hide Sane, ParentsExist, Retune, IndexOf, AllowsRealtime, GroupOf, Utilisation, Ppm, SameLinks, SameIds, Tick,
         Block, Wake, Suspend, ExitCurrent, Exit, Yield, YieldAt, SetAffinity, HoldProcess, ResumeProcess, Account,
         AccountExecuting, SetShares, SetLimits, AddTask, EnsureGroup, Cleanup, Times, Keys;
    LinksRefl(s.groups);
    SameIdsSelf(s.tasks);
    var i := IndexOf(s.tasks, op.id);
    if i < |s.tasks| {
      var t := s.tasks[i];
      match op {
        case MakeFair(_, priority, weight) =>
          RetuneAside(s, rank, i, t.(base := priority, effective := priority, weight := weight, deadline := None,
                                     quantum := QUANTUM_TICKS));
        case MakeDeadline(_, profile) => RetuneAside(s, rank, i, Server(t, profile, s.now));
        case DonateTo(_, priority) =>
          RetuneAside(s, rank, i, if t.deadline.None? && priority > t.effective then t.(effective := priority) else t);
        case RestoreOne(_) => RetuneAside(s, rank, i, if t.deadline.None? then t.(effective := t.base) else t);
      }
    }
  }

  lemma CleanupKept(s: Sched, rank: seq<nat>)
    requires Sane(s.groups, rank)
    ensures Kept(s, Cleanup(s, rank))
  {
    hide Sane, LastOf, HasCursors, Alive, Known, Recounted, UniqueTasks, SameLinks, Keys;
    if HasCursors(s) {
      SlotsKeepCursors(s, Cleanup(s, rank));
    }
    if UniqueTasks(s.tasks) {
      AliveUnique(s.tasks);
    }
  }

  /** The operations that look for no task. */
  lemma StillChain(s: Sched, rank: seq<nat>, op: Op)
    requires Walks(s, rank)
    requires op.AccountTo? || op.AccountFor? || op.CleanUp? || op.MakeFair? || op.MakeDeadline? || op.DonateTo?
             || op.RestoreOne? || op.EnsureOne? || op.Reshare? || op.Limit?
    ensures Chain(s, [], Apply(s, rank, op))
  {
    hide Sane, ParentsExist, Kept, SetFair, SetDeadline, Donate, Restore, Cleanup, SetShares, SetLimits, Account,
         EnsureGroup, SameLinks, SameIds;
    LinksRefl(s.groups);
    SameIdsSelf(s.tasks);
    if op.EnsureOne? {
      EnsureKept(s, op.id, op.parent, op.shares, op.permille, op.realtime);
    } else if op.CleanUp? {
      CleanupKept(s, rank);
    } else {
      if op.AccountTo? {
        AccountIds(s, op.at);
      } else if op.AccountFor? && op.cpu < |s.current| {
        AccountIds(s.(current := s.current[op.cpu := Some(op.thread)]), op.at);
      } else if op.MakeFair? || op.MakeDeadline? || op.DonateTo? || op.RestoreOne? {
        ProfileAside(s, rank, op);
      }
      KeptSame(s, Apply(s, rank, op));
    }
  }

  /** Whatever an operation does, it changes what cursors remember only by scheduling. */
  lemma OpChain(s: Sched, rank: seq<nat>, op: Op)
    requires Walks(s, rank)
    ensures Chain(s, OpMoments(s, rank, op), Apply(s, rank, op))
  {
    hide Sane, ParentsExist, Chain, LeaveMoments, WakeMoments, SuspendMoments, ExitMoments, AffinityMoments, AddMoments,
         YieldMoments, AwakeMoments, CurrentMoments, HoldMoments, ResumeMoments, Account, Tick, Block, Wake, Suspend,
         ExitCurrent, Exit, Donate, Restore, Yield, YieldAt, SetAffinity, HoldProcess, ResumeProcess, SetFair,
         SetDeadline, AccountExecuting, SetShares, SetLimits, AddTask, EnsureGroup, Cleanup, CurrentIndex, WakeExpired;
    match op {
      case TickOn(_, _) => TimedChain(s, rank, op);
      case YieldOnAt(_, _, _) => TimedChain(s, rank, op);
      case BlockOn(_, _) => LeavingChain(s, rank, op);
      case ExitOn(_, _) => LeavingChain(s, rank, op);
      case WakeOne(id) => WakeChain(s, rank, id);
      case SuspendOne(id) => SuspendChain(s, rank, id);
      case ExitOne(id, code) => ExitChain(s, rank, id, code);
      case YieldOn(cpu, target) => YieldChain(s, rank, cpu, target);
      case Confine(id, mask) => AffinityChain(s, rank, id, mask);
      case HoldOne(process, held) => HoldChain(s, rank, process, held);
      case ResumeOne(process, held) => ResumeChain(s, rank, process, held);
      case Add(task) => AddChain(s, rank, task);
      case _ => StillChain(s, rank, op);
    }
  }

  // ---------- One pick after the other ----------

  /** The moment picks fairly from the group on the CPU. */
  ghost predicate PicksFor(m: Moment, cpu: nat, group: nat) {
    Apt(m) && m.cpu == cpu && FairChoice(m.s, m.rank, m.cpu) == Some(group)
  }

  /** The states in which the CPU picks from the group, in order. */
  ghost function PickStates(moments: seq<Moment>, cpu: nat, group: nat): seq<Sched> {
    if moments == [] then []
    else (if PicksFor(moments[0], cpu, group) then [moments[0].s] else []) + PickStates(moments[1..], cpu, group)
  }

  /** A moment that does not pick for them leaves what they remember. */
  lemma OtherMoment(m: Moment, cpu: nat, group: nat)
    requires Apt(m) && !PicksFor(m, cpu, group)
    ensures LastOf(After(m).cursors, group, cpu) == LastOf(m.s.cursors, group, cpu)
  {
    hide Sane, ScheduleNext, FairChoice, LastOf, HasCursor;
    ScheduleTakesTurn(m.s, m.rank, m.cpu, group, cpu);
  }

  lemma AfterCursors(m: Moment)
    requires Apt(m) && HasCursors(m.s)
    ensures HasCursors(After(m))
  {
    hide Sane, ScheduleNext, HasCursors, Keys, SameLinks, SameIds;
    LinksRefl(m.s.groups);
    SlotsKeepCursors(m.s, After(m));
  }

  /** A group that is picked from has its cursor. */
  lemma PickedHas(m: Moment, cpu: nat, group: nat)
    requires PicksFor(m, cpu, group) && HasCursors(m.s)
    ensures HasCursor(m.s.cursors, group, cpu)
  {
    hide Ranked, Shared, HasCursor, Earliest, LeastRun, Replenish, GroupReady;
    var filled := m.s.(tasks := Replenish(m.s.tasks, m.s.now));
    LeastRunIs(filled, m.rank, m.cpu);
    var g := LeastRun(filled, m.rank, m.cpu);
    assert HasCursor(m.s.cursors, m.s.groups[g.value].id, cpu);
  }

  /** So the next pick for them starts after this one. */
  lemma PickIsNext(m: Moment, cpu: nat, group: nat, later: Sched)
    requires PicksFor(m, cpu, group) && HasCursors(m.s)
    requires LastOf(later.cursors, group, cpu) == LastOf(After(m).cursors, group, cpu)
    ensures Next(m.s, later, cpu, group)
  {
    hide Sane, ScheduleNext, FairChoice, LastOf, HasCursor, HasCursors, Next;
    PickedHas(m, cpu, group);
    ScheduleIsNext(m.s, m.rank, cpu, group, later);
  }

  /** Each pick for the group on the CPU starts after the one before. */
  ghost predicate Follows(states: seq<Sched>, cpu: nat, group: nat) {
    forall j :: 0 <= j < |states| - 1 ==> Next(states[j], states[j + 1], cpu, group)
  }

  lemma FollowsMore(s: Sched, rest: seq<Sched>, cpu: nat, group: nat)
    requires Follows(rest, cpu, group) && (rest != [] ==> Next(s, rest[0], cpu, group))
    ensures Follows([s] + rest, cpu, group)
  {
    hide Next;
    var all := [s] + rest;
    forall j | 0 <= j < |all| - 1 ensures Next(all[j], all[j + 1], cpu, group) {
      if j > 0 {
        assert Next(rest[j - 1], rest[j - 1 + 1], cpu, group);
      }
    }
  }

  lemma {:induction false} ChainFollows(from: Sched, moments: seq<Moment>, to: Sched, cpu: nat, group: nat)
    requires Chain(from, moments, to) && HasCursors(from)
    ensures var picks := PickStates(moments, cpu, group);
      && Follows(picks, cpu, group)
      && LastOf((if picks == [] then to else picks[0]).cursors, group, cpu) == LastOf(from.cursors, group, cpu)
    decreases |moments|
  {
    hide LastOf, HasCursors, Apt, After, PicksFor, Next;
    if moments != [] {
      var m, rest := moments[0], PickStates(moments[1..], cpu, group);
      AfterCursors(m);
      ChainFollows(After(m), moments[1..], to, cpu, group);
      if PicksFor(m, cpu, group) {
        if rest != [] {
          PickIsNext(m, cpu, group, rest[0]);
        }
        FollowsMore(m.s, rest, cpu, group);
        assert PickStates(moments, cpu, group) == [m.s] + rest;
      } else {
        OtherMoment(m, cpu, group);
        assert PickStates(moments, cpu, group) == rest;
      }
    }
  }

  /** Ids are unique at every pick. */
  lemma {:induction false} ChainUnique(from: Sched, moments: seq<Moment>, to: Sched, cpu: nat, group: nat)
    requires Chain(from, moments, to) && UniqueTasks(from.tasks)
    ensures forall j :: 0 <= j < |PickStates(moments, cpu, group)| ==>
      UniqueTasks(PickStates(moments, cpu, group)[j].tasks)
    decreases |moments|
  {
    hide LastOf, HasCursors, Apt, After, PicksFor, UniqueTasks;
    if moments != [] {
      AfterUnique(moments[0]);
      ChainUnique(After(moments[0]), moments[1..], to, cpu, group);
    }
  }

  lemma AfterUnique(m: Moment)
    requires Apt(m) && UniqueTasks(m.s.tasks)
    ensures UniqueTasks(After(m).tasks)
  {
    hide Sane, ScheduleNext, UniqueTasks, SameIds;
    ScheduleIds(m.s, m.rank, m.cpu);
    SameUnique(m.s.tasks, After(m).tasks);
  }

  lemma ScheduleIds(s: Sched, rank: seq<nat>, cpu: nat)
    requires Sane(s.groups, rank) && cpu < |s.current|
    ensures SameIds(s.tasks, ScheduleNext(s, rank, cpu).tasks)
  {
    hide Ranked, Shared, Pick, Eligible, Refilled;
    PickEligible(s.(tasks := Replenish(s.tasks, s.now)), rank, cpu);
  }

  /** An operation that changes what a cursor remembers has picked for it. */
  lemma OnlyPicksMove(s: Sched, rank: seq<nat>, op: Op, cpu: nat, group: nat)
    requires Walks(s, rank) && HasCursors(s)
    requires LastOf(Apply(s, rank, op).cursors, group, cpu) != LastOf(s.cursors, group, cpu)
    ensures PickStates(OpMoments(s, rank, op), cpu, group) != []
  {
    hide Sane, ParentsExist, Apply, OpMoments, LastOf, HasCursors, PickStates, Chain, Follows;
    OpChain(s, rank, op);
    ChainFollows(s, OpMoments(s, rank, op), Apply(s, rank, op), cpu, group);
  }

  // ---------- Runs ----------

  /** All the moments of the first `n` steps. */
  ghost function RunMoments(states: seq<Sched>, ops: seq<Op>, ranks: seq<seq<nat>>, n: nat): seq<Moment>
    requires Run(states, ops, ranks) && n <= |ops|
  {
    if n == 0 then []
    else
      assert Walks(states[n - 1], ranks[n - 1]);
      RunMoments(states, ops, ranks, n - 1) + OpMoments(states[n - 1], ranks[n - 1], ops[n - 1])
  }

  lemma {:induction false} RunChain(states: seq<Sched>, ops: seq<Op>, ranks: seq<seq<nat>>, n: nat)
    requires Run(states, ops, ranks) && n <= |ops|
    ensures Chain(states[0], RunMoments(states, ops, ranks, n), states[n])
  {
    hide Walks, Apply, OpMoments, Chain, SameLinks, SameIds;
    if n == 0 {
      ChainSelf(states[0]);
    } else {
      RunChain(states, ops, ranks, n - 1);
      var s, rank, op := states[n - 1], ranks[n - 1], ops[n - 1];
      assert Walks(s, rank) && Leads(s, states[n - 1 + 1], rank, op);
      OpChain(s, rank, op);
      ChainConcat(states[0], RunMoments(states, ops, ranks, n - 1), s, OpMoments(s, rank, op), states[n]);
    }
  }

  /** The picks from `a` on, as many as there are candidates, while these stay the same. */
  ghost predicate Round(picks: seq<Sched>, a: nat, b: nat, cpu: nat, group: nat) {
    && a < b <= |picks| && b - a == |CandidateIds(picks[a], cpu, group)|
    && forall j :: a <= j < b ==> Alike(picks[a], picks[j], cpu, group)
  }

  lemma WindowRounds(picks: seq<Sched>, a: nat, b: nat, cpu: nat, group: nat)
    requires Follows(picks, cpu, group) && Round(picks, a, b, cpu, group)
    requires forall j :: 0 <= j < |picks| ==> UniqueTasks(picks[j].tasks)
    ensures Rounds(picks[a..b], cpu, group)
  {
    hide Next, Alike, CandidateIds, UniqueTasks;
    var window := picks[a..b];
    forall j | 0 <= j < |window| - 1 ensures Next(window[j], window[j + 1], cpu, group) {
      assert Next(picks[a + j], picks[a + j + 1], cpu, group);
    }
    forall j | 0 <= j < |window| ensures UniqueTasks(window[j].tasks) && Alike(window[0], window[j], cpu, group) {
      assert Alike(picks[a], picks[a + j], cpu, group) && UniqueTasks(picks[a + j].tasks);
    }
  }

  /** Round robin over runs: take the picks that a run makes from a group for a CPU. Any k of them that
      follow each other, the group's k candidates being the same at each, choose every candidate exactly
      once, whatever operations come between and whatever other tasks these add or drop. */
  lemma RunRoundRobin(states: seq<Sched>, ops: seq<Op>, ranks: seq<seq<nat>>, cpu: nat, group: nat, a: nat, b: nat)
    requires Run(states, ops, ranks) && HasCursors(states[0]) && UniqueTasks(states[0].tasks)
    requires Round(PickStates(RunMoments(states, ops, ranks, |ops|), cpu, group), a, b, cpu, group)
    ensures var window := PickStates(RunMoments(states, ops, ranks, |ops|), cpu, group)[a..b];
      var picked := Picked(window, cpu, group);
      && |picked| == |window| && Distinct(picked)
      && forall id :: id in picked <==> id in CandidateIds(window[0], cpu, group)
  {
    hide Run, RunMoments, PickStates, CandidateIds, Alike, Picked, HasCursors, Chain, LastOf, Rounds, UniqueTasks;
    var moments := RunMoments(states, ops, ranks, |ops|);
    var picks := PickStates(moments, cpu, group);
    RunLength(states, ops, ranks);
    RunChain(states, ops, ranks, |ops|);
    ChainFollows(states[0], moments, states[|ops|], cpu, group);
    ChainUnique(states[0], moments, states[|ops|], cpu, group);
    WindowRounds(picks, a, b, cpu, group);
    RoundRobinHolds(picks[a..b], cpu, group);
  }

  lemma RunLength(states: seq<Sched>, ops: seq<Op>, ranks: seq<seq<nat>>)
    requires Run(states, ops, ranks)
    ensures |states| == |ops| + 1
  {
  }
}
