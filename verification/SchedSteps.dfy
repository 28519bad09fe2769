/** The scheduler's public operations: ticks, blocking, waking, yielding, exiting, profiles,
    affinity, process control, and adding tasks. */
module SchedSteps {
  import opened Octets
  import opened SchedModel
  import opened SchedGroups
  import opened SchedOps

  // ---------- Ticks ----------

  /** The current task, charged one tick. */
  function Ticked(t: Task, now: nat): Task {
    if t.deadline.Some? then t.(ticks := SatAdd(t.ticks, 1))
    else t.(ticks := SatAdd(t.ticks, 1), quantum := SatSub(t.quantum, 1),
            quantumEnd := if t.quantumEnd == 0 then SatAdd(now, QUANTUM_NS) else t.quantumEnd)
  }

  predicate Continues(t: Task, now: nat) {
    && t.state == Running
    && if t.deadline.Some? then t.deadline.value.remaining > 0 else t.quantum > 0 && t.quantumEnd > now
  }

  function Preempted(t: Task): Task {
    if t.state == Running then t.(state := Ready, quantum := QUANTUM_TICKS) else t
  }

  ghost function TickCurrent(s: Sched, rank: seq<nat>, cpu: nat, elapsed: nat): (r: Sched)
    requires Sane(s.groups, rank) && cpu < |s.current|
    ensures SameLinks(s.groups, r.groups) && Sane(r.groups, rank) && r.now == s.now
    ensures SameSlots(s, r)
  {
    var i := if s.current[cpu].Some? then IndexOf(s.tasks, s.current[cpu].value) else |s.tasks|;
    if i == |s.tasks| then ScheduleNext(s, rank, cpu)
    else
      var t := Ticked(s.tasks[i], s.now);
      if Continues(t, s.now) then ChargeGroup(WithTask(s, i, t), rank, t.group, t.deadline.None?, elapsed)
      else ScheduleNext(ChargeGroup(WithTask(s, i, Preempted(t)), rank, t.group, t.deadline.None?, elapsed), rank, cpu)
  }

  ghost function Tick(s: Sched, rank: seq<nat>, cpu: nat, now: nat): (r: Out)
    requires Sane(s.groups, rank)
    ensures SameLinks(s.groups, r.s.groups) && Sane(r.s.groups, rank) && (r.s.now == s.now || s.now < r.s.now == now)
    ensures SameSlots(s, r.s)
  {
    if cpu >= |s.current| || now < s.now then Out(s, Some(InvalidTask))
    else
      var awake := WakeExpired(Account(s, now).(now := now, ticks := SatAdd(s.ticks, 1)), rank);
      Out(TickCurrent(awake, rank, cpu, now - s.now), None)
  }

  /** Accounting while a CPU still executes a thread that has left it. */
  function AccountExecuting(s: Sched, cpu: nat, thread: nat, now: nat): (r: Sched)
    ensures |r.tasks| == |s.tasks| && r == s.(tasks := r.tasks, threads := r.threads, last := r.last)
  {
    if cpu >= |s.current| then s
    else Account(s.(current := s.current[cpu := Some(thread)]), now).(current := s.current)
  }

  // ---------- Blocking, suspending, exiting ----------

  /** The index of the task that a CPU runs, or the number of tasks. */
  function CurrentIndex(s: Sched, cpu: nat): (i: nat)
    ensures i <= |s.tasks|
  {
    if cpu < |s.current| && s.current[cpu].Some? then IndexOf(s.tasks, s.current[cpu].value) else |s.tasks|
  }

  /** Takes the current task off its CPU in another state, and finds the next. */
  ghost function Leave(s: Sched, rank: seq<nat>, cpu: nat, i: nat, t: Task): (r: Sched)
    requires Sane(s.groups, rank) && cpu < |s.current| && i < |s.tasks|
    ensures SameLinks(s.groups, r.groups) && Sane(r.groups, rank) && r.now == s.now
    ensures SameSlots(s, r) && Times(r.groups) == Times(s.groups)
  {
    ScheduleNext(Vacated(Rebuilt(WithTask(s, i, t), rank), cpu), rank, cpu)
  }

  ghost function Block(s: Sched, rank: seq<nat>, cpu: nat, reason: Reason): (r: Out)
    requires Sane(s.groups, rank)
    ensures SameLinks(s.groups, r.s.groups) && Sane(r.s.groups, rank) && r.s.now == s.now
    ensures SameSlots(s, r.s) && Times(r.s.groups) == Times(s.groups)
  {
    var i := CurrentIndex(s, cpu);
    if i == |s.tasks| then Out(s, Some(InvalidTask))
    else Out(Leave(s, rank, cpu, i, s.tasks[i].(state := Blocked, reason := Some(reason), quantum := QUANTUM_TICKS)),
             None)
  }

  ghost function ExitCurrent(s: Sched, rank: seq<nat>, cpu: nat, code: int): (r: Out)
    requires Sane(s.groups, rank)
    ensures SameLinks(s.groups, r.s.groups) && Sane(r.s.groups, rank) && r.s.now == s.now
    ensures SameSlots(s, r.s) && Times(r.s.groups) == Times(s.groups)
  {
    var i := CurrentIndex(s, cpu);
    if i == |s.tasks| then Out(s, Some(InvalidTask))
    else Out(Leave(s, rank, cpu, i, s.tasks[i].(state := Exited, exitCode := code, quantum := 0)), None)
  }

  /** Vacates the CPUs from `cpu` on that run a task, giving each something else. */
  ghost function Displace(s: Sched, rank: seq<nat>, id: nat, cpu: nat): (r: Sched)
    requires Sane(s.groups, rank) && cpu <= |s.current|
    ensures SameSlots(s, r) && r.groups == s.groups && r.now == s.now
    decreases |s.current| - cpu
  {
    if cpu == |s.current| then s
    else Displace(if s.current[cpu] == Some(id) then ScheduleNext(Vacated(s, cpu), rank, cpu) else s, rank, id, cpu + 1)
  }

  ghost function Suspend(s: Sched, rank: seq<nat>, id: nat): (r: Out)
    requires Sane(s.groups, rank)
    ensures SameLinks(s.groups, r.s.groups) && Sane(r.s.groups, rank) && r.s.now == s.now
    ensures SameSlots(s, r.s) && Times(r.s.groups) == Times(s.groups)
  {
    var i := IndexOf(s.tasks, id);
    if i == |s.tasks| then Out(s, Some(InvalidTask))
    else
      var t := if s.tasks[i].state == Exited then s.tasks[i]
               else s.tasks[i].(state := Suspended, quantum := QUANTUM_TICKS);
      Out(Rebuilt(Displace(WithTask(s, i, t), rank, id, 0), rank), None)
  }

  /** The CPUs with those vacated that run a task of one of the given ids. */
  function Freed(current: seq<Option<nat>>, ids: set<nat>): (r: seq<Option<nat>>)
    ensures |r| == |current|
    ensures forall k :: 0 <= k < |r| ==>
      r[k] == if current[k].Some? && current[k].value in ids then None else current[k]
  {
    seq(|current|, k requires 0 <= k < |current| => if current[k].Some? && current[k].value in ids then None
                                                    else current[k])
  }

  ghost function Exit(s: Sched, rank: seq<nat>, id: nat, code: int): (r: Out)
    requires Sane(s.groups, rank)
    ensures SameLinks(s.groups, r.s.groups) && Sane(r.s.groups, rank) && r.s.now == s.now
    ensures SameSlots(s, r.s) && Times(r.s.groups) == Times(s.groups)
  {
    var i := IndexOf(s.tasks, id);
    if i == |s.tasks| then Out(s, Some(InvalidTask))
    else
      var t := s.tasks[i].(state := Exited, exitCode := code, quantum := 0, reason := None);
      var gone := WithTask(s, i, t).(current := Freed(s.current, {id}));
      Out(FillIdle(Rebuilt(gone, rank), rank, 0), None)
  }

  function Alive(tasks: seq<Task>): seq<Task> {
    if tasks == [] then []
    else
      var last := |tasks| - 1;
      Alive(tasks[..last]) + (if tasks[last].state != Exited then [tasks[last]] else [])
  }

  function Known(tasks: seq<Task>, current: seq<Option<nat>>): (r: seq<Option<nat>>)
    ensures |r| == |current|
    ensures forall k :: 0 <= k < |r| ==>
      r[k] == if current[k].Some? && IndexOf(tasks, current[k].value) == |tasks| then None else current[k]
  {
    seq(|current|, k requires 0 <= k < |current| =>
      if current[k].Some? && IndexOf(tasks, current[k].value) == |tasks| then None else current[k])
  }

  ghost function Cleanup(s: Sched, rank: seq<nat>): (r: Sched)
    requires Sane(s.groups, rank)
    ensures SameLinks(s.groups, r.groups) && Sane(r.groups, rank) && r.now == s.now
    ensures SameSlots(s, r) && Times(r.groups) == Times(s.groups)
  {
    var alive := Alive(s.tasks);
    Rebuilt(s.(tasks := alive, current := Known(alive, s.current)), rank)
  }

  // ---------- Profiles and priorities ----------

  /** Rewrites a task without changing who runs where. */
  ghost function Retune(s: Sched, rank: seq<nat>, i: nat, t: Task): (r: Sched)
    requires Sane(s.groups, rank) && i < |s.tasks|
    ensures SameLinks(s.groups, r.groups) && Sane(r.groups, rank) && r.now == s.now
    ensures SameSlots(s, r) && Times(r.groups) == Times(s.groups)
  {
    Rebuilt(WithTask(s, i, t), rank)
  }

  ghost function SetFair(s: Sched, rank: seq<nat>, id: nat, priority: Byte, weight: nat): (r: Out)
    requires Sane(s.groups, rank)
    ensures SameLinks(s.groups, r.s.groups) && Sane(r.s.groups, rank) && r.s.now == s.now
    ensures SameSlots(s, r.s) && Times(r.s.groups) == Times(s.groups)
  {
    var i := IndexOf(s.tasks, id);
    if priority == 0 || weight == 0 || i == |s.tasks| then Out(s, Some(InvalidTask))
    else Out(Retune(s, rank, i, s.tasks[i].(base := priority, effective := priority, weight := weight, deadline := None,
                                            quantum := QUANTUM_TICKS)), None)
  }

  function Ppm(p: Profile): nat
    requires 0 < p.period
  {
    p.capacity * 1_000_000 / p.period
  }

  /** What a task adds to the rounded utilisation. */
  function Share(t: Task): nat {
    if t.state == Exited || t.deadline.None? || t.deadline.value.profile.period == 0 then 0
    else Ppm(t.deadline.value.profile)
  }

  function Utilisation(tasks: seq<Task>): nat {
    if tasks == [] then 0 else Utilisation(tasks[..|tasks| - 1]) + Share(tasks[|tasks| - 1])
  }

  ghost predicate AllowsRealtime(groups: seq<Group>, rank: seq<nat>, i: nat)
    requires Ranked(groups, rank) && i < |groups|
    decreases rank[i]
  {
    && groups[i].realtime
    && (groups[i].parent.None? || (Parent(groups, i) < |groups| && AllowsRealtime(groups, rank, Parent(groups, i))))
  }

  function Server(t: Task, p: Profile, now: nat): Task {
    t.(deadline := Some(Budget(p, SatAdd(now, p.deadline), p.capacity, now, 1)), effective := 255,
       quantum := QUANTUM_TICKS)
  }

  ghost function SetDeadline(s: Sched, rank: seq<nat>, id: nat, p: Profile): (r: Out)
    requires Sane(s.groups, rank)
    ensures SameLinks(s.groups, r.s.groups) && Sane(r.s.groups, rank) && r.s.now == s.now
    ensures SameSlots(s, r.s) && Times(r.s.groups) == Times(s.groups)
  {
    var i := IndexOf(s.tasks, id);
    if !p.Valid() || i == |s.tasks| then Out(s, Some(InvalidTask))
    else
      var g := GroupOf(s.groups, s.tasks[i].group);
      if g == |s.groups| || !AllowsRealtime(s.groups, rank, g) then Out(s, Some(AccessDenied))
      else if Utilisation(s.tasks[i := s.tasks[i].(deadline := None)]) + Ppm(p) > 1_000_000 then
        Out(s, Some(ResourceExhausted))
      else Out(Retune(s, rank, i, Server(s.tasks[i], p, s.now)), None)
  }

  ghost function Donate(s: Sched, rank: seq<nat>, id: nat, priority: Byte): (r: Out)
    requires Sane(s.groups, rank)
    ensures SameLinks(s.groups, r.s.groups) && Sane(r.s.groups, rank) && r.s.now == s.now
    ensures SameSlots(s, r.s) && Times(r.s.groups) == Times(s.groups)
  {
    var i := IndexOf(s.tasks, id);
    if i == |s.tasks| then Out(s, Some(InvalidTask))
    else
      var t := s.tasks[i];
      Out(Retune(s, rank, i, if t.deadline.None? && priority > t.effective then t.(effective := priority) else t), None)
  }

  ghost function Restore(s: Sched, rank: seq<nat>, id: nat): (r: Out)
    requires Sane(s.groups, rank)
    ensures SameLinks(s.groups, r.s.groups) && Sane(r.s.groups, rank) && r.s.now == s.now
    ensures SameSlots(s, r.s) && Times(r.s.groups) == Times(s.groups)
  {
    var i := IndexOf(s.tasks, id);
    if i == |s.tasks| then Out(s, Some(InvalidTask))
    else
      var t := s.tasks[i];
      Out(Retune(s, rank, i, if t.deadline.None? then t.(effective := t.base) else t), None)
  }

  // ---------- Yielding ----------

  /** A named target must be ready, allowed on this CPU and not running on another. */
  predicate GoodTarget(s: Sched, cpu: nat, target: Option<nat>) {
    target.Some? ==> (var i := IndexOf(s.tasks, target.value); i < |s.tasks| && Eligible(s, i, cpu))
  }

  ghost function YieldTo(s: Sched, rank: seq<nat>, cpu: nat, target: nat): (r: Sched)
    requires cpu < |s.current|
    ensures SameSlots(s, r) && r.groups == s.groups && r.now == s.now
  {
    var i := IndexOf(s.tasks, target);
    var moved := s.(current := s.current[cpu := Some(target)]);
    if i == |s.tasks| then moved else WithTask(moved, i, s.tasks[i].(state := Running, quantum := QUANTUM_TICKS))
  }

  function InState(s: Sched, i: nat, state: TaskState): (r: Sched)
    ensures |r.tasks| == |s.tasks| && r == s.(tasks := r.tasks)
  {
    if i < |s.tasks| then WithTask(s, i, s.tasks[i].(state := state)) else s
  }

  /** Another task is preferred; the yielding one, at index `i`, is held back while it is sought. */
  ghost function YieldAny(s: Sched, rank: seq<nat>, cpu: nat, i: nat): (r: Sched)
    requires Sane(s.groups, rank) && cpu < |s.current| && i <= |s.tasks|
    ensures SameSlots(s, r) && r.groups == s.groups && r.now == s.now
  {
    var found := ScheduleNext(InState(s, i, Suspended), rank, cpu);
    var back := InState(found, i, Ready);
    if found.current[cpu].Some? then back else ScheduleNext(back, rank, cpu)
  }

  /** The state a yield moves on from: the yielding task is ready and charged. */
  ghost function Charging(s: Sched, rank: seq<nat>, i: nat): (r: Sched)
    requires Sane(s.groups, rank) && i <= |s.tasks|
    ensures Sane(r.groups, rank) && SameLinks(s.groups, r.groups) && |r.tasks| == |s.tasks|
    ensures r.cursors == s.cursors && r.current == s.current && r.now == s.now
  {
    var ready := InState(s, i, Ready);
    if i == |s.tasks| then ready
    else ChargeGroup(ready, rank, s.tasks[i].group, s.tasks[i].deadline.None?, QUANTUM_NS)
  }

  ghost function Yield(s: Sched, rank: seq<nat>, cpu: nat, target: Option<nat>): (r: Out)
    requires Sane(s.groups, rank)
    ensures SameLinks(s.groups, r.s.groups) && Sane(r.s.groups, rank) && r.s.now == s.now
    ensures SameSlots(s, r.s)
  {
    if cpu >= |s.current| || !GoodTarget(s, cpu, target) then Out(s, Some(InvalidTask))
    else
      var c := CurrentIndex(s, cpu);
      var i := if c < |s.tasks| && s.tasks[c].state == Running then c else |s.tasks|;
      var charged := Charging(s, rank, i);
      var moved := if target.Some? then YieldTo(charged, rank, cpu, target.value) else YieldAny(charged, rank, cpu, i);
      Out(Rebuilt(moved, rank), None)
  }

  ghost function YieldAt(s: Sched, rank: seq<nat>, cpu: nat, target: Option<nat>, now: nat): (r: Out)
    requires Sane(s.groups, rank)
    ensures SameLinks(s.groups, r.s.groups) && Sane(r.s.groups, rank) && (r.s.now == s.now || s.now < r.s.now == now)
    ensures SameSlots(s, r.s)
  {
    if cpu >= |s.current| || now < s.now then Out(s, Some(InvalidTask))
    else Yield(WakeExpired(Account(s, now).(now := now), rank), rank, cpu, target)
  }

  // ---------- Affinity ----------

  function Cpus(n: nat): (r: set<nat>)
    ensures forall k: nat :: k in r <==> k < n
  {
    if n == 0 then {} else Cpus(n - 1) + {n - 1}
  }

  /** Moves a task off the CPUs from `cpu` on that its mask no longer allows. */
  ghost function Evict(s: Sched, rank: seq<nat>, i: nat, mask: set<nat>, cpu: nat): (r: Sched)
    requires Sane(s.groups, rank) && cpu <= |s.current| && i < |s.tasks|
    ensures SameSlots(s, r) && r.groups == s.groups && r.now == s.now
    decreases |s.current| - cpu
  {
    if cpu == |s.current| then s
    else if s.current[cpu] == Some(s.tasks[i].id) && cpu !in mask then
      Evict(ScheduleNext(Vacated(InState(s, i, Ready), cpu), rank, cpu), rank, i, mask, cpu + 1)
    else Evict(s, rank, i, mask, cpu + 1)
  }

  ghost function SetAffinity(s: Sched, rank: seq<nat>, id: nat, mask: set<nat>): (r: Out)
    requires Sane(s.groups, rank)
    ensures SameLinks(s.groups, r.s.groups) && Sane(r.s.groups, rank) && r.s.now == s.now
    ensures SameSlots(s, r.s) && Times(r.s.groups) == Times(s.groups)
  {
    var i := IndexOf(s.tasks, id);
    if mask == {} || !(mask <= Cpus(|s.current|)) || i == |s.tasks| then Out(s, Some(InvalidTask))
    else Out(Rebuilt(Evict(WithTask(s, i, s.tasks[i].(affinity := mask)), rank, i, mask, 0), rank), None)
  }

  // ---------- Process control ----------

  /** Whether quiescing, or stopping, a process takes a task in this state. */
  predicate Takes(held: TaskState, state: TaskState) {
    state == Ready || state == Running || state == Blocked || (held == Stopped && state == Suspended)
  }

  function Hold(t: Task, process: nat, held: TaskState): Task {
    if t.process == process && Takes(held, t.state) then t.(state := held) else t
  }

  function HoldAll(tasks: seq<Task>, process: nat, held: TaskState): (r: seq<Task>)
    ensures |r| == |tasks| && forall i :: 0 <= i < |r| ==> r[i] == Hold(tasks[i], process, held)
  {
    seq(|tasks|, i requires 0 <= i < |tasks| => Hold(tasks[i], process, held))
  }

  function HeldIds(tasks: seq<Task>, held: TaskState): set<nat> {
    set i | 0 <= i < |tasks| && tasks[i].state == held :: tasks[i].id
  }

  ghost function HoldProcess(s: Sched, rank: seq<nat>, process: nat, held: TaskState): (r: Sched)
    requires Sane(s.groups, rank)
    ensures SameLinks(s.groups, r.groups) && Sane(r.groups, rank) && r.now == s.now
    ensures SameSlots(s, r) && Times(r.groups) == Times(s.groups)
  {
    var tasks := HoldAll(s.tasks, process, held);
    FillIdle(Rebuilt(s.(tasks := tasks, current := Freed(s.current, HeldIds(tasks, held))), rank), rank, 0)
  }

  function Resumed(t: Task, process: nat, held: TaskState): Task {
    if t.process == process && t.state == held then t.(state := if t.reason.Some? then Blocked else Ready) else t
  }

  function ResumeAll(tasks: seq<Task>, process: nat, held: TaskState): (r: seq<Task>)
    ensures |r| == |tasks| && forall i :: 0 <= i < |r| ==> r[i] == Resumed(tasks[i], process, held)
  {
    seq(|tasks|, i requires 0 <= i < |tasks| => Resumed(tasks[i], process, held))
  }

  ghost function ResumeProcess(s: Sched, rank: seq<nat>, process: nat, held: TaskState): (r: Sched)
    requires Sane(s.groups, rank)
    ensures SameLinks(s.groups, r.groups) && Sane(r.groups, rank) && r.now == s.now
    ensures SameSlots(s, r) && Times(r.groups) == Times(s.groups)
  {
    FillIdle(Rebuilt(s.(tasks := ResumeAll(s.tasks, process, held)), rank), rank, 0)
  }

  // ---------- Shares and limits of groups ----------

  /** A group that exists gets other shares; its place in the hierarchy stays. */
  function SetShares(s: Sched, id: nat, shares: nat): (r: Out)
    ensures r.s == s.(groups := r.s.groups) && SameLinks(s.groups, r.s.groups) && Times(r.s.groups) == Times(s.groups)
  {
    var g := GroupOf(s.groups, id);
    if shares == 0 || g == |s.groups| then Out(s, Some(InvalidTask))
    else Out(s.(groups := s.groups[g := s.groups[g].(shares := shares)]), None)
  }

  function SetLimits(s: Sched, id: nat, shares: nat, permille: nat, realtime: bool): (r: Out)
    ensures r.s == s.(groups := r.s.groups) && SameLinks(s.groups, r.s.groups) && Times(r.s.groups) == Times(s.groups)
  {
    var g := GroupOf(s.groups, id);
    if shares == 0 || permille > 1000 || g == |s.groups| then Out(s, Some(InvalidTask))
    else Out(s.(groups := s.groups[g := s.groups[g].(shares := shares, permille := permille, realtime := realtime)]),
             None)
  }

  lemma LimitsSane(s: Sched, rank: seq<nat>, id: nat, shares: nat, permille: nat, realtime: bool)
    requires Sane(s.groups, rank)
    ensures Sane(SetShares(s, id, shares).s.groups, rank)
    ensures Sane(SetLimits(s, id, shares, permille, realtime).s.groups, rank)
  {
    hide GroupOf, Ranked;
    LinksRanked(s.groups, SetShares(s, id, shares).s.groups, rank);
    LinksRanked(s.groups, SetLimits(s, id, shares, permille, realtime).s.groups, rank);
  }

  // ---------- Adding tasks ----------

  /** The task's group, created at the top of the hierarchy if it does not exist. */
  function GroupFor(s: Sched, group: nat): (Sched, Option<SchedError>) {
    if GroupOf(s.groups, group) < |s.groups| then (s, None) else EnsureGroup(s, group, None, 1024, 0, true)
  }

  /** A group that had nothing to run does not profit from its absence. */
  function CaughtUp(groups: seq<Group>, group: nat): (r: seq<Group>)
    ensures |r| == |groups|
  {
    var least, g := LeastRuntime(groups, |groups|), GroupOf(groups, group);
    if least.Some? && g < |groups| && groups[g].runnable == 0 then groups[g := groups[g].(vruntime := least.value)]
    else groups
  }

  function Admit(s: Sched, task: Task): Out {
    var grown := if s.current == [] then s.(current := [None]) else s;
    var t := task.(affinity := task.affinity * Cpus(|grown.current|));
    if IndexOf(s.tasks, task.id) < |s.tasks| then Out(s, Some(AlreadyExists))
    else if t.affinity == {} then Out(grown, Some(InvalidTask))
    else
      var grouped := GroupFor(grown, t.group);
      if grouped.1.Some? then Out(grouped.0, grouped.1)
      else
        var ready := grouped.0.(groups := CaughtUp(grouped.0.groups, t.group));
        if ThreadOf(ready.threads, t.id) < |ready.threads| then Out(ready, Some(AlreadyExists))
        else Out(ready.(threads := ready.threads + [Thread(t.id, t.process, 0)], tasks := ready.tasks + [t]), None)
  }

  function GrownRank(before: nat, rank: seq<nat>, after: nat): seq<nat> {
    if after > before then rank + [0] else rank
  }

  ghost function AddTask(s: Sched, rank: seq<nat>, task: Task): Out
    requires Sane(s.groups, rank) && ParentsExist(s.groups)
  {
    var admitted := Admit(s, task);
    AdmitSane(s, rank, task);
    var more := GrownRank(|s.groups|, rank, |admitted.s.groups|);
    if admitted.error.Some? then admitted else Out(FillIdle(Rebuilt(admitted.s, more), more, 0), None)
  }

  lemma GroupForSane(s: Sched, rank: seq<nat>, group: nat)
    requires Sane(s.groups, rank) && ParentsExist(s.groups)
    ensures var r := GroupFor(s, group).0.groups; Sane(r, GrownRank(|s.groups|, rank, |r|))
    ensures GroupFor(s, group).0.current == s.current
  {
    hide LeastRuntime, ParentsExist;
    if GroupOf(s.groups, group) == |s.groups| && group != 0 {
      AppendRanked(s.groups, rank, NewGroup(s, group, None, 1024, 0, true));
    }
  }

  lemma CaughtUpSane(groups: seq<Group>, rank: seq<nat>, group: nat)
    requires Sane(groups, rank)
    ensures Sane(CaughtUp(groups, group), rank)
  {
    hide LeastRuntime;
    LinksRanked(groups, CaughtUp(groups, group), rank);
  }

  lemma AdmitSane(s: Sched, rank: seq<nat>, task: Task)
    requires Sane(s.groups, rank) && ParentsExist(s.groups)
    ensures var a := Admit(s, task).s; Sane(a.groups, GrownRank(|s.groups|, rank, |a.groups|))
  {
    hide Sane, ParentsExist, IndexOf, ThreadOf, GroupFor, CaughtUp, Cpus;
    var grown := if s.current == [] then s.(current := [None]) else s;
    GroupForSane(grown, rank, task.group);
    var grouped := GroupFor(grown, task.group).0.groups;
    CaughtUpSane(grouped, GrownRank(|s.groups|, rank, |grouped|), task.group);
  }
}
