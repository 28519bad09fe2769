/** Runs of the scheduler: ownership, counts, admission and deadline budgets hold in every state
    that any sequence of operations reaches. */
module SchedRuns {
  import opened Octets
  import opened SchedModel
  import opened SchedGroups
  import opened SchedSelect
  import opened SchedOps
  import opened SchedSteps
  import opened SchedRobin
  import opened SchedOwnership
  import opened SchedInvariants

  // ---------- Utilisation ----------

  lemma {:induction false} EvolveUtilisation(a: seq<Task>, b: seq<Task>, now: nat)
    requires Evolve(a, b, now)
    ensures Utilisation(b) <= Utilisation(a)
  {
    hide BudgetOk, Ppm;
    if a != [] {
      var last := |a| - 1;
      assert Evolves(a[last], b[last], now);
      EvolveUtilisation(a[..last], b[..last], now);
    }
  }

  lemma {:induction false} UtilisationUpdate(tasks: seq<Task>, i: nat, t: Task)
    requires i < |tasks|
    ensures Utilisation(tasks[i := t]) + Share(tasks[i]) == Utilisation(tasks) + Share(t)
  {
    hide Share;
    var last := |tasks| - 1;
    if i == last {
      assert tasks[i := t][..last] == tasks[..last];
    } else {
      assert tasks[i := t][..last] == tasks[..last][i := t];
      UtilisationUpdate(tasks[..last], i, t);
    }
  }

  /** Admission control: the test in front of a new deadline profile keeps the rounded sum at or
      below a million. */
  lemma SetDeadlineAdmits(s: Sched, rank: seq<nat>, id: nat, p: Profile)
    requires Sane(s.groups, rank) && Utilisation(s.tasks) <= 1_000_000
    ensures Utilisation(SetDeadline(s, rank, id, p).s.tasks) <= 1_000_000
  {
    hide IndexOf, AllowsRealtime, Ppm, Recounted, Utilisation;
    var i := IndexOf(s.tasks, id);
    if SetDeadline(s, rank, id, p).error.None? {
      var cleared := s.tasks[i].(deadline := None);
      UtilisationUpdate(s.tasks, i, cleared);
      UtilisationUpdate(s.tasks, i, Server(s.tasks[i], p, s.now));
    }
  }

  lemma SetFairLowers(s: Sched, rank: seq<nat>, id: nat, priority: Byte, weight: nat)
    requires Sane(s.groups, rank)
    ensures Utilisation(SetFair(s, rank, id, priority, weight).s.tasks) <= Utilisation(s.tasks)
  {
    hide IndexOf, Recounted, Utilisation, Ppm;
    var i := IndexOf(s.tasks, id);
    if SetFair(s, rank, id, priority, weight).error.None? {
      UtilisationUpdate(s.tasks, i, s.tasks[i].(base := priority, effective := priority, weight := weight,
                                                deadline := None, quantum := QUANTUM_TICKS));
    }
  }

  lemma {:induction false} AliveUtilisation(tasks: seq<Task>)
    ensures Utilisation(Alive(tasks)) == Utilisation(tasks)
  {
    hide Ppm;
    if tasks != [] {
      var last := |tasks| - 1;
      AliveUtilisation(tasks[..last]);
      var before := Alive(tasks[..last]);
      if tasks[last].state == Exited {
        assert Alive(tasks) == before;
      } else {
        assert Alive(tasks) == before + [tasks[last]] && (before + [tasks[last]])[..|before|] == before;
      }
    }
  }

  /** The share of the processor that a task really asks for. */
  function TrueShare(t: Task): real {
    if t.state == Exited || t.deadline.None? || t.deadline.value.profile.period == 0 then 0.0
    else t.deadline.value.profile.capacity as real / t.deadline.value.profile.period as real
  }

  function TrueUtilisation(tasks: seq<Task>): real {
    if tasks == [] then 0.0 else TrueUtilisation(tasks[..|tasks| - 1]) + TrueShare(tasks[|tasks| - 1])
  }

  lemma RoundingLoss(capacity: nat, period: nat)
    requires 0 < period
    ensures capacity as real / period as real * 1000000.0 < (capacity * 1_000_000 / period + 1) as real
  {
    var q := capacity * 1_000_000 / period;
    assert capacity * 1_000_000 < (q + 1) * period;
    var c, p, k := capacity as real, period as real, (q + 1) as real;
    assert c * 1000000.0 == (capacity * 1_000_000) as real;
    assert k * p == ((q + 1) * period) as real;
    DivideBoth(c * 1000000.0, k, p);
    assert c / p * 1000000.0 == c * 1000000.0 / p;
  }

  lemma DivideBoth(a: real, b: real, p: real)
    requires 0.0 < p && a < b * p
    ensures a / p < b
  {
  }

  /** Rounding loses less than one part per million for each task. */
  lemma {:induction false} TrueBound(tasks: seq<Task>)
    ensures TrueUtilisation(tasks) * 1000000.0 <= (Utilisation(tasks) + |tasks|) as real
    ensures tasks != [] ==> TrueUtilisation(tasks) * 1000000.0 < (Utilisation(tasks) + |tasks|) as real
  {
    if tasks != [] {
      var last := |tasks| - 1;
      var t := tasks[last];
      TrueBound(tasks[..last]);
      if Share(t) != 0 || TrueShare(t) != 0.0 {
        RoundingLoss(t.deadline.value.profile.capacity, t.deadline.value.profile.period);
      }
      assert TrueShare(t) * 1000000.0 < (Share(t) + 1) as real;
    }
  }

  /** The true utilisation of n admitted tasks is below 1 + n / 1,000,000. */
  lemma AdmittedBound(tasks: seq<Task>)
    requires Utilisation(tasks) <= 1_000_000
    ensures TrueUtilisation(tasks) < 1.0 + |tasks| as real / 1000000.0
  {
    TrueBound(tasks);
  }

  // ---------- Budgets ----------

  /** By time `now` a server was granted at most its capacity for every period begun, counting
      from when its profile was set. */
  lemma GrantBound(b: Budget, now: nat)
    requires BudgetOk(b, now)
    ensures b.origin <= now
    ensures b.grants * b.profile.capacity <= b.profile.capacity * ((now - b.origin) / b.profile.period + 1)
  {
    var k: nat :| InPeriod(b, now, k);
    assert 0 <= k * b.profile.period;
    Quotient(now - b.origin, b.profile.period, k);
    MulMonotone(b.grants, (now - b.origin) / b.profile.period + 1, b.profile.capacity);
  }

  lemma Quotient(x: nat, n: nat, k: nat)
    requires 0 < n && k * n <= x
    ensures k <= x / n
  {
    var q := x / n;
    assert x < (q + 1) * n;
    if q < k {
      MulMonotone(q + 1, k, n);
    }
  }

  lemma MulMonotone(a: nat, b: nat, c: nat)
    requires a <= b
    ensures a * c <= b * c
  {
  }

  lemma BudgetLater(b: Budget, now: nat, later: nat)
    requires BudgetOk(b, now) && now <= later
    ensures BudgetOk(b, later)
  {
    var k: nat :| InPeriod(b, now, k);
    assert InPeriod(b, later, k);
  }

  lemma ServerOk(t: Task, p: Profile, now: nat)
    requires p.Valid() && now + p.deadline <= MAX
    ensures BudgetOk(Server(t, p, now).deadline.value, now)
  {
    assert InPeriod(Server(t, p, now).deadline.value, now, 0);
  }

  /** Every server's budget is sound, and no deadline saturates before the horizon. */
  ghost predicate Funded(tasks: seq<Task>, now: nat, horizon: nat) {
    && now <= horizon
    && forall i :: 0 <= i < |tasks| && tasks[i].deadline.Some? ==>
         BudgetOk(tasks[i].deadline.value, now) && horizon + tasks[i].deadline.value.profile.deadline <= MAX
  }

  lemma FundedEvolve(a: seq<Task>, b: seq<Task>, now: nat, later: nat, horizon: nat)
    requires Funded(a, now, horizon) && Evolve(a, b, later) && now <= later <= horizon
    ensures Funded(b, later, horizon)
  {
    hide BudgetOk;
    forall i | 0 <= i < |b| && b[i].deadline.Some?
      ensures BudgetOk(b[i].deadline.value, later) && horizon + b[i].deadline.value.profile.deadline <= MAX
    {
      assert Evolves(a[i], b[i], later);
      BudgetLater(a[i].deadline.value, now, later);
    }
  }

  // ---------- Removing and adding tasks ----------

  lemma {:induction false} AliveHas(tasks: seq<Task>, i: nat)
    requires i < |tasks| && tasks[i].state != Exited
    ensures tasks[i] in Alive(tasks)
  {
    var last := |tasks| - 1;
    if i < last {
      AliveHas(tasks[..last], i);
    }
  }

  lemma {:induction false} AliveFrom(tasks: seq<Task>, t: Task)
    requires t in Alive(tasks)
    ensures t in tasks && t.state != Exited
  {
    var last := |tasks| - 1;
    if t in Alive(tasks[..last]) {
      AliveFrom(tasks[..last], t);
    }
  }

  lemma {:induction false} AliveUnique(tasks: seq<Task>)
    requires UniqueTasks(tasks)
    ensures UniqueTasks(Alive(tasks))
  {
    if tasks != [] {
      var last := |tasks| - 1;
      AliveUnique(tasks[..last]);
      var before := Alive(tasks[..last]);
      forall j | 0 <= j < |before| ensures before[j].id != tasks[last].id {
        AliveFrom(tasks[..last], before[j]);
      }
    }
  }

  lemma AliveIndex(tasks: seq<Task>, i: nat)
    requires UniqueTasks(tasks) && i < |tasks| && tasks[i].state != Exited
    ensures var j := IndexOf(Alive(tasks), tasks[i].id); j < |Alive(tasks)| && Alive(tasks)[j] == tasks[i]
  {
    hide IndexOf, Alive;
    AliveHas(tasks, i);
    AliveUnique(tasks);
    var alive := Alive(tasks);
    var j :| 0 <= j < |alive| && alive[j] == tasks[i];
    IndexOfAt(alive, j);
  }

  lemma CleanupKeeps(s: Sched, rank: seq<nat>)
    requires Sane(s.groups, rank) && Good(s)
    ensures Good(Cleanup(s, rank))
  {
    hide IndexOf, Alive, Recounted, Counted, Sane;
    var alive := Alive(s.tasks);
    AliveUnique(s.tasks);
    forall k | 0 <= k < |s.current| && s.current[k].Some? ensures Rightful(alive, s.current[k], k) {
      CurrentRuns(s.tasks, s.current, k);
      AliveIndex(s.tasks, IndexOf(s.tasks, s.current[k].value));
    }
    assert Known(alive, s.current) == s.current;
    forall j | 0 <= j < |alive| && alive[j].state == Running ensures Somewhere(s.current, alive[j].id) {
      AliveFrom(s.tasks, alive[j]);
    }
    RebuiltKeeps(s.(tasks := alive, current := Known(alive, s.current)), rank);
  }

  lemma {:induction false} IndexOfPrefix(tasks: seq<Task>, t: Task, id: nat)
    requires IndexOf(tasks, id) < |tasks|
    ensures IndexOf(tasks + [t], id) == IndexOf(tasks, id)
  {
    if tasks[0].id != id {
      IndexOfPrefix(tasks[1..], t, id);
      assert (tasks + [t])[1..] == tasks[1..] + [t];
    }
  }

  lemma OwnedAppend(tasks: seq<Task>, current: seq<Option<nat>>, t: Task)
    requires Owned(tasks, current) && t.state != Running && IndexOf(tasks, t.id) == |tasks|
    ensures Owned(tasks + [t], current)
  {
    hide IndexOf;
    forall k | 0 <= k < |current| ensures Rightful(tasks + [t], current[k], k) {
      assert Rightful(tasks, current[k], k);
      if current[k].Some? {
        IndexOfPrefix(tasks, t, current[k].value);
      }
    }
  }

  lemma FirstCpu(tasks: seq<Task>, current: seq<Option<nat>>)
    requires Owned(tasks, current) && current == []
    ensures Owned(tasks, [None])
  {
    hide IndexOf;
  }

  /** Adding a task that is not already running keeps ownership and counts. */
  lemma AddKeeps(s: Sched, rank: seq<nat>, task: Task)
    requires Sane(s.groups, rank) && ParentsExist(s.groups) && Good(s) && task.state != Running
    requires AddTask(s, rank, task).error.None?
    ensures Good(AddTask(s, rank, task).s)
  {
    hide IndexOf, Sane, ParentsExist, Counted, Owned, GroupFor, CaughtUp, ThreadOf, FillIdle, Rebuilt, Cpus;
    var admitted := Admit(s, task).s;
    AdmitSane(s, rank, task);
    var grown := if s.current == [] then s.(current := [None]) else s;
    GroupForSane(grown, rank, task.group);
    if s.current == [] {
      FirstCpu(s.tasks, s.current);
    }
    GroupForTasks(grown, task.group);
    var t := task.(affinity := task.affinity * Cpus(|grown.current|));
    OwnedAppend(s.tasks, grown.current, t);
    assert admitted.tasks == s.tasks + [t];
    RefillKeeps(admitted, GrownRank(|s.groups|, rank, |admitted.groups|));
  }

  lemma GroupForTasks(s: Sched, group: nat)
    ensures GroupFor(s, group).0.tasks == s.tasks
  {
  }

  // ---------- Every reachable state ----------

  datatype Op =
    | TickOn(cpu: nat, at: nat)
    | AccountTo(at: nat)
    | AccountFor(cpu: nat, thread: nat, at: nat)
    | BlockOn(cpu: nat, reason: Reason)
    | WakeOne(id: nat)
    | SuspendOne(id: nat)
    | ExitOn(cpu: nat, code: int)
    | ExitOne(id: nat, code: int)
    | CleanUp
    | MakeFair(id: nat, priority: Byte, weight: nat)
    | MakeDeadline(id: nat, profile: Profile)
    | DonateTo(id: nat, priority: Byte)
    | RestoreOne(id: nat)
    | YieldOn(cpu: nat, target: Option<nat>)
    | YieldOnAt(cpu: nat, target: Option<nat>, at: nat)
    | Confine(id: nat, mask: set<nat>)
    | HoldOne(process: nat, held: TaskState)
    | ResumeOne(process: nat, held: TaskState)
    | Add(task: Task)
    | EnsureOne(id: nat, parent: Option<nat>, shares: nat, permille: nat, realtime: bool)
    | Reshare(id: nat, shares: nat)
    | Limit(id: nat, shares: nat, permille: nat, realtime: bool)

  ghost function Apply(s: Sched, rank: seq<nat>, op: Op): Sched
    requires Sane(s.groups, rank) && ParentsExist(s.groups)
  {
    match op
    case TickOn(cpu, at) => Tick(s, rank, cpu, at).s
    case AccountTo(at) => Account(s, at)
    case AccountFor(cpu, thread, at) => AccountExecuting(s, cpu, thread, at)
    case BlockOn(cpu, reason) => Block(s, rank, cpu, reason).s
    case WakeOne(id) => Wake(s, rank, id).s
    case SuspendOne(id) => Suspend(s, rank, id).s
    case ExitOn(cpu, code) => ExitCurrent(s, rank, cpu, code).s
    case ExitOne(id, code) => Exit(s, rank, id, code).s
    case CleanUp => Cleanup(s, rank)
    case MakeFair(id, priority, weight) => SetFair(s, rank, id, priority, weight).s
    case MakeDeadline(id, profile) => SetDeadline(s, rank, id, profile).s
    case DonateTo(id, priority) => Donate(s, rank, id, priority).s
    case RestoreOne(id) => Restore(s, rank, id).s
    case YieldOn(cpu, target) => Yield(s, rank, cpu, target).s
    case YieldOnAt(cpu, target, at) => YieldAt(s, rank, cpu, target, at).s
    case Confine(id, mask) => SetAffinity(s, rank, id, mask).s
    case HoldOne(process, held) => HoldProcess(s, rank, process, held)
    case ResumeOne(process, held) => ResumeProcess(s, rank, process, held)
    case Add(task) => AddTask(s, rank, task).s
    case EnsureOne(id, parent, shares, permille, realtime) => EnsureGroup(s, id, parent, shares, permille, realtime).0
    case Reshare(id, shares) => SetShares(s, id, shares).s
    case Limit(id, shares, permille, realtime) => SetLimits(s, id, shares, permille, realtime).s
  }

  /** What the callers promise: tasks arrive ready and without a deadline, no group is hung below
      its own subtree, processes are held by quiescing or stopping, and no time passes the horizon. */
  ghost predicate Allowed(s: Sched, rank: seq<nat>, op: Op, horizon: nat)
    requires Sane(s.groups, rank)
  {
    match op
    case TickOn(_, at) => at <= horizon
    case YieldOnAt(_, _, at) => at <= horizon
    case MakeDeadline(_, profile) => horizon + profile.deadline <= MAX
    case HoldOne(_, held) => held == Quiesced || held == Stopped
    case ResumeOne(_, held) => held == Quiesced || held == Stopped
    case Add(task) => task.state == Ready && task.deadline.None?
    case EnsureOne(id, parent, _, _, _) => !Closes(s.groups, rank, id, parent)
    case _ => true
  }

  /** Every task belongs to a group that exists. */
  ghost predicate Grouped(tasks: seq<Task>, groups: seq<Group>) {
    forall i :: 0 <= i < |tasks| ==> GroupOf(groups, tasks[i].group) < |groups|
  }

  ghost predicate Steady(s: Sched, horizon: nat) {
    && ParentsExist(s.groups) && Grouped(s.tasks, s.groups) && Good(s)
    && Utilisation(s.tasks) <= 1_000_000 && Funded(s.tasks, s.now, horizon)
  }

  lemma LinksExist(a: seq<Group>, b: seq<Group>, tasks: seq<Task>)
    requires SameLinks(a, b)
    ensures ParentsExist(a) ==> ParentsExist(b)
    ensures Grouped(tasks, a) ==> Grouped(tasks, b)
  {
    forall id ensures GroupOf(a, id) == GroupOf(b, id) {
      GroupOfIds(a, b, id);
    }
  }

  lemma GroupedEvolve(a: seq<Task>, b: seq<Task>, groups: seq<Group>, now: nat)
    requires Grouped(a, groups) && Evolve(a, b, now)
    ensures Grouped(b, groups)
  {
    hide BudgetOk, GroupOf;
    forall i | 0 <= i < |b| ensures GroupOf(groups, b[i].group) < |groups| {
      assert Evolves(a[i], b[i], now);
    }
  }

  /** An operation that keeps ownership and lets tasks evolve keeps everything. */
  lemma FineSound(s: Sched, r: Sched, horizon: nat)
    requires Steady(s, horizon) && Fine(s, r) && s.now <= r.now <= horizon
    ensures Steady(r, horizon)
  {
    hide Good, Evolve, Funded, Grouped, ParentsExist, Utilisation, SameLinks;
    LinksExist(s.groups, r.groups, s.tasks);
    GroupedEvolve(s.tasks, r.tasks, r.groups, r.now);
    EvolveUtilisation(s.tasks, r.tasks, r.now);
    FundedEvolve(s.tasks, r.tasks, s.now, r.now, horizon);
  }

  lemma StepFineToo(s: Sched, rank: seq<nat>, op: Op, horizon: nat)
    requires Sane(s.groups, rank) && Steady(s, horizon) && Allowed(s, rank, op, horizon)
    requires op.YieldOn? || op.YieldOnAt? || op.Confine? || op.HoldOne? || op.ResumeOne? || op.Reshare? || op.Limit?
    ensures var r := Apply(s, rank, op); Fine(s, r) && s.now <= r.now <= horizon && Sane(r.groups, rank)
  {
    hide Good, Evolve, Funded, Grouped, ParentsExist, Utilisation, Sane, Tick, Account, Block, Wake, Suspend,
         ExitCurrent, Exit, Donate, Restore, Yield, YieldAt, SetAffinity, HoldProcess, ResumeProcess, SetFair,
         SetDeadline, AccountExecuting, SetShares, SetLimits, AddTask, EnsureGroup, Cleanup;
    FundedTime(s, horizon);
    match op {
      case YieldOn(cpu, target) => YieldKeeps(s, rank, cpu, target);
      case YieldOnAt(cpu, target, at) => YieldAtKeeps(s, rank, cpu, target, at);
      case Confine(id, mask) => AffinityKeeps(s, rank, id, mask);
      case HoldOne(process, held) => HoldKeeps(s, rank, process, held);
      case ResumeOne(process, held) => ResumeKeeps(s, rank, process, held);
      case Reshare(id, shares) =>
        LimitsKeep(s, id, shares, 0, false);
        LimitsSane(s, rank, id, shares, 0, false);
      case Limit(id, shares, permille, realtime) =>
        LimitsKeep(s, id, shares, permille, realtime);
        LimitsSane(s, rank, id, shares, permille, realtime);
    }
  }

  lemma StepFine(s: Sched, rank: seq<nat>, op: Op, horizon: nat)
    requires Sane(s.groups, rank) && Steady(s, horizon) && Allowed(s, rank, op, horizon)
    requires !op.Add? && !op.EnsureOne? && !op.CleanUp? && !op.MakeFair? && !op.MakeDeadline?
    ensures var r := Apply(s, rank, op); Fine(s, r) && s.now <= r.now <= horizon && Sane(r.groups, rank)
  {
    hide Good, Evolve, Funded, Grouped, ParentsExist, Utilisation, Sane, Tick, Account, Block, Wake, Suspend,
         ExitCurrent, Exit, Donate, Restore, Yield, YieldAt, SetAffinity, HoldProcess, ResumeProcess, SetFair,
         SetDeadline, AccountExecuting, SetShares, SetLimits;
    FundedTime(s, horizon);
    match op {
      case TickOn(cpu, at) => TickKeeps(s, rank, cpu, at);
      case AccountTo(at) =>
        AccountKeeps(s, at, s.now);
        LinksRefl(s.groups);
      case AccountFor(cpu, thread, at) => AccountExecutingKeeps(s, cpu, thread, at);
      case BlockOn(cpu, reason) => BlockKeeps(s, rank, cpu, reason);
      case WakeOne(id) => WakeKeeps(s, rank, id);
      case SuspendOne(id) => SuspendKeeps(s, rank, id);
      case ExitOn(cpu, code) => ExitCurrentKeeps(s, rank, cpu, code);
      case ExitOne(id, code) => ExitKeeps(s, rank, id, code);
      case DonateTo(id, priority) => ProfilesKeep(s, rank, id, priority, 1, Profile(1, 1, 1));
      case RestoreOne(id) => ProfilesKeep(s, rank, id, 1, 1, Profile(1, 1, 1));
      case _ => StepFineToo(s, rank, op, horizon);
    }
  }

  lemma FundedTime(s: Sched, horizon: nat)
    requires Funded(s.tasks, s.now, horizon)
    ensures s.now <= horizon
  {
  }

  lemma LinksRefl(groups: seq<Group>)
    ensures SameLinks(groups, groups)
  {
  }

  lemma CleanupSound(s: Sched, rank: seq<nat>, horizon: nat)
    requires Sane(s.groups, rank) && Steady(s, horizon)
    ensures Steady(Cleanup(s, rank), horizon)
  {
    hide Good, Alive, Utilisation, BudgetOk, Recounted, GroupOf, Sane, Known, ParentsExist;
    CleanupKeeps(s, rank);
    AliveUtilisation(s.tasks);
    var r := Cleanup(s, rank);
    forall j | 0 <= j < |r.tasks| ensures r.tasks[j] in s.tasks {
      AliveFrom(s.tasks, r.tasks[j]);
    }
    LinksExist(s.groups, r.groups, r.tasks);
  }

  /** One task gets another profile. */
  lemma RetuneSound(s: Sched, rank: seq<nat>, i: nat, t: Task, horizon: nat)
    requires Sane(s.groups, rank) && Steady(s, horizon) && i < |s.tasks| && Utilisation(s.tasks[i := t]) <= 1_000_000
    requires t.id == s.tasks[i].id && t.group == s.tasks[i].group && t.state == s.tasks[i].state
    requires t.affinity == s.tasks[i].affinity
    requires t.deadline.Some? ==>
      BudgetOk(t.deadline.value, s.now) && horizon + t.deadline.value.profile.deadline <= MAX
    ensures Steady(Retune(s, rank, i, t), horizon)
  {
    hide Good, Utilisation, BudgetOk, Retune, GroupOf, Sane, ParentsExist;
    RetuneKeeps(s, rank, i, t);
    RetuneTasks(s, rank, i, t);
    LinksExist(s.groups, Retune(s, rank, i, t).groups, s.tasks[i := t]);
  }

  lemma ProfileSound(s: Sched, rank: seq<nat>, op: Op, horizon: nat)
    requires Sane(s.groups, rank) && Steady(s, horizon) && Allowed(s, rank, op, horizon)
    requires (op.MakeFair? || op.MakeDeadline?)
    ensures Steady(Apply(s, rank, op), horizon) && Sane(Apply(s, rank, op).groups, rank)
  {
    hide Good, Utilisation, BudgetOk, Retune, Grouped, Sane, ParentsExist, IndexOf, AllowsRealtime, Ppm;
    match op {
      case MakeFair(id, priority, weight) =>
        var i := IndexOf(s.tasks, id);
        if SetFair(s, rank, id, priority, weight).error.None? {
          var t := s.tasks[i].(base := priority, effective := priority, weight := weight, deadline := None,
                               quantum := QUANTUM_TICKS);
          SetFairLowers(s, rank, id, priority, weight);
          RetuneTasks(s, rank, i, t);
          RetuneSound(s, rank, i, t, horizon);
        }
      case MakeDeadline(id, p) =>
        var i := IndexOf(s.tasks, id);
        if SetDeadline(s, rank, id, p).error.None? {
          var t := Server(s.tasks[i], p, s.now);
          SetDeadlineAdmits(s, rank, id, p);
          RetuneTasks(s, rank, i, t);
          ServerOk(s.tasks[i], p, s.now);
          RetuneSound(s, rank, i, t, horizon);
        }
    }
  }

  lemma {:induction false} CountAbsent(tasks: seq<Task>, group: nat)
    requires forall i :: 0 <= i < |tasks| ==> tasks[i].group != group
    ensures Count(tasks, group) == 0
  {
    if tasks != [] {
      CountAbsent(tasks[..|tasks| - 1], group);
    }
  }

  /** The groups gain members, or none; those that were there keep their ids and counts. */
  ghost predicate Extends(a: seq<Group>, b: seq<Group>) {
    && |a| <= |b|
    && (forall j :: 0 <= j < |a| ==> b[j].id == a[j].id && b[j].runnable == a[j].runnable)
    && (forall j :: |a| <= j < |b| ==> b[j].runnable == 0 && GroupOf(a, b[j].id) == |a|)
  }

  lemma {:induction false} GroupOfExtends(a: seq<Group>, b: seq<Group>, id: nat)
    requires |a| <= |b| && (forall j :: 0 <= j < |a| ==> b[j].id == a[j].id) && GroupOf(a, id) < |a|
    ensures GroupOf(b, id) == GroupOf(a, id)
  {
    if a[0].id != id {
      GroupOfExtends(a[1..], b[1..], id);
    }
  }

  lemma ExtendsGood(s: Sched, r: Sched)
    requires Counted(s) && Grouped(s.tasks, s.groups) && r.tasks == s.tasks && Extends(s.groups, r.groups)
    ensures Counted(r) && Grouped(r.tasks, r.groups)
  {
    hide Count, GroupOf;
    forall j | 0 <= j < |r.groups| ensures r.groups[j].runnable == Capped(Count(r.tasks, r.groups[j].id)) {
      if |s.groups| <= j {
        CountAbsent(s.tasks, r.groups[j].id);
      }
    }
    forall i | 0 <= i < |r.tasks| ensures GroupOf(r.groups, r.tasks[i].group) < |r.groups| {
      GroupOfExtends(s.groups, r.groups, r.tasks[i].group);
    }
  }

  /** A group appended to, or relinked in, the hierarchy. */
  lemma EnsureExtends(s: Sched, id: nat, parent: Option<nat>, shares: nat, permille: nat, realtime: bool)
    requires ParentsExist(s.groups)
    ensures var r := EnsureGroup(s, id, parent, shares, permille, realtime).0;
      && Extends(s.groups, r.groups) && ParentsExist(r.groups)
      && r.tasks == s.tasks && r.current == s.current && r.now == s.now
  {
    hide LeastRuntime, GroupOf;
    var r := EnsureGroup(s, id, parent, shares, permille, realtime).0;
    forall i | 0 <= i < |r.groups| && r.groups[i].parent.Some?
      ensures GroupOf(r.groups, r.groups[i].parent.value) < |r.groups|
    {
      GroupOfExtends(s.groups, r.groups, r.groups[i].parent.value);
    }
  }

  lemma EnsureSound(s: Sched, rank: seq<nat>, op: Op, horizon: nat)
    requires Sane(s.groups, rank) && Steady(s, horizon) && op.EnsureOne? && Allowed(s, rank, op, horizon)
    ensures Steady(Apply(s, rank, op), horizon) && exists rank' :: Sane(Apply(s, rank, op).groups, rank')
  {
    hide Owned, Counted, Grouped, ParentsExist, Utilisation, Funded, EnsureGroup, Closes, Extends, Ranked;
    var r := Apply(s, rank, op);
    EnsureExtends(s, op.id, op.parent, op.shares, op.permille, op.realtime);
    ExtendsGood(s, r);
    EnsureAcyclic(s, rank, op.id, op.parent, op.shares, op.permille, op.realtime);
    EnsureShared(s, op.id, op.parent, op.shares, op.permille, op.realtime);
    var rank' :| Ranked(r.groups, rank');
    assert Sane(r.groups, rank');
  }

  lemma EnsureShared(s: Sched, id: nat, parent: Option<nat>, shares: nat, permille: nat, realtime: bool)
    requires Shared(s.groups)
    ensures Shared(EnsureGroup(s, id, parent, shares, permille, realtime).0.groups)
  {
    hide LeastRuntime, GroupOf;
  }

  // ---------- Adding ----------

  lemma CaughtUpExtends(groups: seq<Group>, group: nat)
    ensures Extends(groups, CaughtUp(groups, group)) && SameLinks(groups, CaughtUp(groups, group))
  {
    hide LeastRuntime, GroupOf;
  }

  /** Admission leaves the groups extended and linked to groups that exist, and the rest sound. */
  lemma AdmitGroups(s: Sched, task: Task)
    requires Counted(s) && Grouped(s.tasks, s.groups) && ParentsExist(s.groups)
    ensures var a := Admit(s, task).s; var same := a.(tasks := s.tasks);
      Counted(same) && Grouped(s.tasks, a.groups) && ParentsExist(a.groups) && a.now == s.now
  {
    hide Counted, Grouped, ParentsExist, IndexOf, ThreadOf, CaughtUp, Cpus, EnsureGroup, Extends, SameLinks;
    var grown := if s.current == [] then s.(current := [None]) else s;
    CountedClock(s, grown);
    var grouped := GroupFor(grown, task.group).0;
    EnsureExtends(grown, task.group, None, 1024, 0, true);
    if GroupOf(grown.groups, task.group) == |grown.groups| {
      ExtendsGood(grown, grouped);
    }
    var ready := grouped.(groups := CaughtUp(grouped.groups, task.group));
    CaughtUpExtends(grouped.groups, task.group);
    ExtendsGood(grouped, ready);
    LinksExist(grouped.groups, ready.groups, s.tasks);
    CountedClock(ready, ready.(threads := ready.threads + [Thread(task.id, task.process, 0)]));
  }

  lemma GroupForHas(s: Sched, group: nat)
    requires GroupFor(s, group).1.None?
    ensures GroupOf(CaughtUp(GroupFor(s, group).0.groups, group), group) < |GroupFor(s, group).0.groups|
  {
    hide LeastRuntime;
    var groups := GroupFor(s, group).0.groups;
    if GroupOf(s.groups, group) == |s.groups| {
      assert groups[|s.groups|].id == group;
    }
    GroupOfIds(groups, CaughtUp(groups, group), group);
  }

  /** The given task, its mask narrowed, now stands at the end, in a group that exists. */
  ghost predicate Joins(s: Sched, a: Sched, task: Task, t: Task) {
    && a.tasks == s.tasks + [t] && t == task.(affinity := t.affinity)
    && GroupOf(a.groups, t.group) < |a.groups| && IndexOf(s.tasks, t.id) == |s.tasks|
  }

  /** What admission adds at the end of the tasks. */
  lemma AdmitTasks(s: Sched, task: Task)
    ensures var a := Admit(s, task);
      && (a.error.Some? ==> a.s.tasks == s.tasks)
      && (a.error.None? ==> exists t: Task :: Joins(s, a.s, task, t))
      && a.s.current == (if s.current == [] && IndexOf(s.tasks, task.id) == |s.tasks| then [None] else s.current)
  {
    hide IndexOf, ThreadOf, CaughtUp, Cpus, EnsureGroup, GroupOf;
    var grown := if s.current == [] then s.(current := [None]) else s;
    EnsureTasks(grown, task.group);
    if Admit(s, task).error.None? {
      GroupForHas(grown, task.group);
      assert Joins(s, Admit(s, task).s, task, task.(affinity := task.affinity * Cpus(|grown.current|)));
    }
  }

  lemma EnsureTasks(s: Sched, group: nat)
    ensures GroupFor(s, group).0.tasks == s.tasks && GroupFor(s, group).0.current == s.current
  {
  }

  lemma AppendSound(s: Sched, a: Sched, t: Task, horizon: nat)
    requires Steady(s, horizon) && a.tasks == s.tasks + [t] && a.now == s.now && Grouped(s.tasks, a.groups)
    requires GroupOf(a.groups, t.group) < |a.groups| && t.deadline.None?
    ensures Grouped(a.tasks, a.groups) && Utilisation(a.tasks) <= 1_000_000 && Funded(a.tasks, a.now, horizon)
  {
    hide GroupOf, BudgetOk, Good, ParentsExist, Ppm;
    assert a.tasks[..|s.tasks|] == s.tasks;
  }

  lemma AddSound(s: Sched, rank: seq<nat>, task: Task, horizon: nat)
    requires Sane(s.groups, rank) && Steady(s, horizon) && task.state == Ready && task.deadline.None?
    ensures var r := AddTask(s, rank, task).s; Steady(r, horizon) && exists rank' :: Sane(r.groups, rank')
  {
    hide Sane, Counted, Owned, Grouped, ParentsExist, Utilisation, Funded, Admit, IndexOf, GroupOf, FillIdle, Recounted;
    var a := Admit(s, task).s;
    AdmitSane(s, rank, task);
    var more := GrownRank(|s.groups|, rank, |a.groups|);
    AdmitTasks(s, task);
    AdmitGroups(s, task);
    if s.current == [] {
      FirstCpu(s.tasks, s.current);
    }
    if Admit(s, task).error.Some? {
      CountedClock(a.(tasks := s.tasks), a);
      assert Sane(a.groups, more);
    } else {
      var t: Task :| Joins(s, a, task, t);
      OwnedAppend(s.tasks, a.current, t);
      AppendSound(s, a, t, horizon);
      var counted := Rebuilt(a, more);
      RebuiltKeeps(a, more);
      LinksExist(a.groups, counted.groups, a.tasks);
      assert Steady(counted, horizon);
      FillKeeps(counted, more, 0);
      FundedTime(counted, horizon);
      FineSound(counted, FillIdle(counted, more, 0), horizon);
      assert Sane(AddTask(s, rank, task).s.groups, more);
    }
  }

  /** Everything a reachable scheduler satisfies. */
  ghost predicate Sound(s: Sched, horizon: nat) {
    Steady(s, horizon) && HasCursors(s)
  }

  /** The hierarchy has no cycle and every group has shares. */
  ghost predicate Walkable(s: Sched) {
    exists rank :: Sane(s.groups, rank)
  }

  lemma StepCursors(s: Sched, rank: seq<nat>, op: Op)
    requires Sane(s.groups, rank) && ParentsExist(s.groups) && HasCursors(s)
    ensures HasCursors(Apply(s, rank, op))
  {
    hide Sane, ParentsExist, HasCursors, Cleanup, EnsureGroup, Admit, Tick, Account, Block, Wake, Suspend, ExitCurrent,
         Exit, Donate, Restore, Yield, YieldAt, SetAffinity, HoldProcess, ResumeProcess, SetFair, SetDeadline,
         AccountExecuting, SetShares, SetLimits, Keys, SameLinks, Rebuilt, FillIdle;
    if op.EnsureOne? {
      EnsureCursors(s, op.id, op.parent, op.shares, op.permille, op.realtime);
    } else if op.Add? {
      AdmitCursors(s, op.task);
      AdmitSane(s, rank, op.task);
      var a := Admit(s, op.task).s;
      LinksRefl(a.groups);
      if Admit(s, op.task).error.None? {
        SlotsKeepCursors(a, AddTask(s, rank, op.task).s);
      }
    } else {
      LinksRefl(s.groups);
      SlotsKeepCursors(s, Apply(s, rank, op));
    }
  }

  /** Every allowed operation keeps everything, but for the cursors. */
  lemma StepSteady(s: Sched, rank: seq<nat>, op: Op, horizon: nat)
    requires Sane(s.groups, rank) && Steady(s, horizon) && Allowed(s, rank, op, horizon)
    ensures Steady(Apply(s, rank, op), horizon) && exists rank' :: Sane(Apply(s, rank, op).groups, rank')
  {
    hide Sane, Steady, Fine, Cleanup, AddTask, EnsureGroup, Tick, Account, Block, Wake, Suspend, ExitCurrent, Exit,
         Donate, Restore, Yield, YieldAt, SetAffinity, HoldProcess, ResumeProcess, SetFair, SetDeadline,
         AccountExecuting, SetShares, SetLimits;
    SteadyParents(s, horizon);
    if op.Add? {
      AddSound(s, rank, op.task, horizon);
    } else if op.EnsureOne? {
      EnsureSound(s, rank, op, horizon);
    } else if op.CleanUp? {
      CleanupSound(s, rank, horizon);
      assert Sane(Cleanup(s, rank).groups, rank);
    } else if op.MakeFair? || op.MakeDeadline? {
      ProfileSound(s, rank, op, horizon);
    } else {
      StepFine(s, rank, op, horizon);
      FineSound(s, Apply(s, rank, op), horizon);
    }
  }

  lemma SteadyParents(s: Sched, horizon: nat)
    requires Steady(s, horizon)
    ensures ParentsExist(s.groups)
  {
  }

  /** Every allowed operation keeps the scheduler sound. */
  lemma StepSound(s: Sched, rank: seq<nat>, op: Op, horizon: nat)
    requires Sane(s.groups, rank) && Sound(s, horizon) && Allowed(s, rank, op, horizon)
    ensures Sound(Apply(s, rank, op), horizon) && Walkable(Apply(s, rank, op))
  {
    hide Sane, Steady, HasCursors, Apply, Allowed;
    SteadyParents(s, horizon);
    StepSteady(s, rank, op, horizon);
    StepCursors(s, rank, op);
  }

  ghost predicate StepsBy(s: Sched, r: Sched, rank: seq<nat>, op: Op, horizon: nat) {
    Sane(s.groups, rank) && ParentsExist(s.groups) && Allowed(s, rank, op, horizon) && r == Apply(s, rank, op)
  }

  /** One step of a run: some allowed operation. The hierarchy that its walks follow is the one there is. */
  ghost predicate Steps(s: Sched, r: Sched, horizon: nat) {
    exists rank, op :: StepsBy(s, r, rank, op, horizon)
  }

  /** In every state of every run: each CPU's current task exists, runs and may run there; every
      running task is current on exactly one CPU; group counts are exact; admitted utilisation is
      at most a million; deadline budgets are aligned and bounded; every group has a cursor for
      every CPU; and the hierarchy has no cycle. */
  lemma {:induction false} RunSound(states: seq<Sched>, horizon: nat, n: nat)
    requires n < |states| && Sound(states[0], horizon) && Walkable(states[0])
    requires forall i :: 0 <= i < |states| - 1 ==> Steps(states[i], states[i + 1], horizon)
    ensures Sound(states[n], horizon) && Walkable(states[n])
  {
    hide Sound, Steps, Walkable;
    if n > 0 {
      RunSound(states, horizon, n - 1);
      assert Steps(states[n - 1], states[n - 1 + 1], horizon);
      StepsSound(states[n - 1], states[n - 1 + 1], horizon);
    }
  }

  lemma StepsSound(s: Sched, r: Sched, horizon: nat)
    requires Sound(s, horizon) && Steps(s, r, horizon)
    ensures Sound(r, horizon) && Walkable(r)
  {
    hide Sound, Sane, Allowed, Apply, ParentsExist, Walkable;
    var rank, op :| StepsBy(s, r, rank, op, horizon);
    StepSound(s, rank, op, horizon);
  }

  // ---------- Runs with what happened in them ----------

  /** The walks end, as `rank` shows, and lead to groups that exist. */
  ghost predicate Walks(s: Sched, rank: seq<nat>) {
    Sane(s.groups, rank) && ParentsExist(s.groups)
  }

  ghost predicate Leads(s: Sched, r: Sched, rank: seq<nat>, op: Op) {
    Walks(s, rank) && r == Apply(s, rank, op)
  }

  /** A run, with its operations and what shows that the walks end in each state. */
  ghost predicate Run(states: seq<Sched>, ops: seq<Op>, ranks: seq<seq<nat>>) {
    && |states| == |ranks| == |ops| + 1
    && (forall k :: 0 <= k < |states| ==> Walks(states[k], ranks[k]))
    && (forall k :: 0 <= k < |ops| ==> Leads(states[k], states[k + 1], ranks[k], ops[k]))
  }

  lemma SoundWalks(s: Sched, horizon: nat) returns (rank: seq<nat>)
    requires Sound(s, horizon) && Walkable(s)
    ensures Walks(s, rank)
  {
    hide Sane, Steady, HasCursors;
    rank :| Sane(s.groups, rank);
    SteadyParents(s, horizon);
  }

  /** A run and one step more. */
  lemma RunMore(states: seq<Sched>, ops: seq<Op>, ranks: seq<seq<nat>>, r: Sched, op: Op, rank: seq<nat>,
                last: seq<nat>)
    requires Run(states, ops, ranks) && Leads(states[|ops|], r, rank, op) && Walks(r, last)
    ensures Run(states + [r], ops + [op], ranks[..|ops|] + [rank, last])
  {
    hide Walks, Leads;
    var all, done, more := states + [r], ops + [op], ranks[..|ops|] + [rank, last];
    LeadsWalks(states[|ops|], r, rank, op);
    forall k | 0 <= k < |done| ensures Leads(all[k], all[k + 1], more[k], done[k]) {
      if k < |ops| {
        assert Leads(states[k], states[k + 1], ranks[k], ops[k]);
      }
    }
  }

  lemma LeadsWalks(s: Sched, r: Sched, rank: seq<nat>, op: Op)
    requires Leads(s, r, rank, op)
    ensures Walks(s, rank)
  {
  }

  /** Every run of allowed operations from a sound state is one of these. */
  lemma {:induction false} RunTraced(states: seq<Sched>, horizon: nat) returns (ops: seq<Op>, ranks: seq<seq<nat>>)
    requires |states| > 0 && Sound(states[0], horizon) && Walkable(states[0])
    requires forall i :: 0 <= i < |states| - 1 ==> Steps(states[i], states[i + 1], horizon)
    ensures Run(states, ops, ranks)
    decreases |states|
  {
    hide Sound, Steps, Walkable, Walks, Leads;
    var n := |states| - 1;
    RunSound(states, horizon, n);
    var last := SoundWalks(states[n], horizon);
    if n == 0 {
      ops, ranks := [], [last];
    } else {
      ops, ranks := RunTraced(states[..n], horizon);
      assert Steps(states[n - 1], states[n - 1 + 1], horizon);
      var op, rank := StepLeads(states[n - 1], states[n], horizon);
      RunMore(states[..n], ops, ranks, states[n], op, rank, last);
      assert states == states[..n] + [states[n]];
      ops, ranks := ops + [op], ranks[..|ops|] + [rank, last];
    }
  }

  lemma StepLeads(s: Sched, r: Sched, horizon: nat) returns (op: Op, rank: seq<nat>)
    requires Steps(s, r, horizon)
    ensures Leads(s, r, rank, op)
  {
    hide Sane, ParentsExist, Allowed, Apply;
    rank, op :| StepsBy(s, r, rank, op, horizon);
  }

  lemma IdleOwned(current: seq<Option<nat>>)
    requires forall k :: 0 <= k < |current| ==> current[k] == None
    ensures Owned([], current)
  {
    hide IndexOf;
  }

  lemma EmptySteady(s: Sched, horizon: nat)
    requires s.tasks == [] && s.groups == [] && Owned(s.tasks, s.current) && s.now <= horizon
    ensures Steady(s, horizon)
  {
    hide Owned;
  }

  lemma NoGroups(s: Sched)
    requires s.groups == []
    ensures HasCursors(s) && Walkable(s)
  {
    hide HasCursor;
    assert Sane(s.groups, []);
  }

  /** A new scheduler is sound. */
  lemma NewSound(cpus: nat, horizon: nat)
    ensures Sound(NewSched(cpus), horizon) && Walkable(NewSched(cpus))
  {
    hide Steady, Owned, HasCursors, Walkable;
    var s := NewSched(cpus);
    IdleOwned(s.current);
    EmptySteady(s, horizon);
    NoGroups(s);
  }

  /** So round robin holds in every reachable state, for every group and CPU. */
  lemma SoundTurns(s: Sched, horizon: nat, g: nat, cpu: nat)
    requires Sound(s, horizon) && g < |s.groups| && cpu < |s.current|
    ensures var group := s.groups[g].id; var ids := CandidateIds(s, cpu, group);
      var picked := Picked(Moments(s, cpu, group, |ids|), cpu, group);
      |picked| == |ids| && Distinct(picked) && forall id :: id in picked <==> id in ids
  {
    hide Moments, Picked, CandidateIds, HasCursor, UniqueTasks, Counted;
    TurnsGoRound(s, cpu, s.groups[g].id);
  }
}
