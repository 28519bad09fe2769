/** The scheduler's entities and the steps it takes on them, as functions on values. CPU masks
    are sets of CPU numbers; times and counters saturate at 2^64 - 1. */
module SchedModel {
  import opened Octets

  const MAX := 0xffff_ffff_ffff_ffff
  const QUANTUM_TICKS := 3
  const QUANTUM_NS := 4_000_000
  const WINDOW_NS := 100_000_000
  const LAG := QUANTUM_NS * 1024 * 8
  const COUNT_LIMIT := 65535

  function SatAdd(a: nat, b: nat): (r: U64)
    ensures a + b <= MAX ==> r == a + b
  {
    if a + b > MAX then MAX else a + b
  }

  function SatSub(a: nat, b: nat): nat {
    if a < b then 0 else a - b
  }

  function SatMul(a: nat, b: nat): (r: nat)
    ensures a * b <= MAX ==> r == a * b
  {
    if a * b > MAX then MAX else a * b
  }

  datatype SchedError = InvalidTask | AlreadyExists | AccessDenied | ResourceExhausted

  // ---------- Entities ----------

  datatype TaskState = Ready | Running | Blocked | Suspended | Quiesced | Stopped | Exited

  /** Why a task waits: for an event, with or without a deadline. */
  datatype Reason = Event | Until(deadline: nat)

  datatype Profile = Profile(capacity: nat, deadline: nat, period: nat) {
    predicate Valid() {
      0 < capacity <= deadline <= period
    }
  }

  /** A deadline server. `origin` and `grants` record when its profile was set and how many
      times its budget was filled since; no operation reads them. */
  datatype Budget = Budget(profile: Profile, absolute: nat, remaining: nat, origin: nat, grants: nat)

  datatype Task = Task(
    id: nat, process: nat, group: nat, base: Byte, effective: Byte, weight: nat, deadline: Option<Budget>,
    state: TaskState, quantum: nat, quantumEnd: nat, cpu: Option<nat>, ticks: nat,
    affinity: set<nat>, reason: Option<Reason>, exitCode: int)

  datatype Group = Group(
    id: nat, parent: Option<nat>, shares: nat, permille: nat, realtime: bool, vruntime: U64,
    ticks: nat, time: U64, windowStart: nat, used: nat, runnable: nat)

  /** The task last picked for a group on a CPU. */
  datatype Cursor = Cursor(group: nat, cpu: nat, last: Option<nat>)

  datatype Thread = Thread(id: nat, process: nat, time: nat)

  datatype Sched = Sched(
    tasks: seq<Task>, groups: seq<Group>, cursors: seq<Cursor>, current: seq<Option<nat>>,
    threads: seq<Thread>, last: Option<nat>, now: nat, ticks: nat)

  /** A new scheduler: no tasks, no groups, idle CPUs. */
  function NewSched(cpus: nat): Sched {
    Sched([], [], [], seq(cpus, _ => None), [], None, 0, 0)
  }

  /** Which groups and CPUs the cursors are for. */
  function Keys(cursors: seq<Cursor>): (r: seq<(nat, nat)>)
    ensures |r| == |cursors| && forall k :: 0 <= k < |r| ==> r[k] == (cursors[k].group, cursors[k].cpu)
  {
    seq(|cursors|, k requires 0 <= k < |cursors| => (cursors[k].group, cursors[k].cpu))
  }

  /** How long each group ran, its descendants included. */
  function Times(groups: seq<Group>): (r: seq<nat>)
    ensures |r| == |groups| && forall j :: 0 <= j < |r| ==> r[j] == groups[j].time
  {
    seq(|groups|, j requires 0 <= j < |groups| => groups[j].time)
  }

  /** The same CPUs, and cursors for the same groups and CPUs. */
  predicate SameSlots(s: Sched, r: Sched) {
    |r.current| == |s.current| && Keys(r.cursors) == Keys(s.cursors)
  }

  // ---------- Looking things up ----------

  function IndexOf(tasks: seq<Task>, id: nat): (i: nat)
    ensures i <= |tasks| && (i < |tasks| ==> tasks[i].id == id)
    ensures forall j :: 0 <= j < i ==> tasks[j].id != id
  {
    if tasks == [] || tasks[0].id == id then 0 else 1 + IndexOf(tasks[1..], id)
  }

  function GroupOf(groups: seq<Group>, id: nat): (i: nat)
    ensures i <= |groups| && (i < |groups| ==> groups[i].id == id)
    ensures forall j :: 0 <= j < i ==> groups[j].id != id
  {
    if groups == [] || groups[0].id == id then 0 else 1 + GroupOf(groups[1..], id)
  }

  ghost predicate UniqueTasks(tasks: seq<Task>) {
    forall i, j :: 0 <= i < j < |tasks| ==> tasks[i].id != tasks[j].id
  }

  ghost predicate UniqueGroups(groups: seq<Group>) {
    forall i, j :: 0 <= i < j < |groups| ==> groups[i].id != groups[j].id
  }

  lemma IndexOfAt(tasks: seq<Task>, i: nat)
    requires UniqueTasks(tasks) && i < |tasks|
    ensures IndexOf(tasks, tasks[i].id) == i
  {
  }

  lemma GroupOfAt(groups: seq<Group>, i: nat)
    requires UniqueGroups(groups) && i < |groups|
    ensures GroupOf(groups, groups[i].id) == i
  {
  }

  predicate Elsewhere(current: seq<Option<nat>>, id: nat, cpu: nat) {
    exists k :: 0 <= k < |current| && k != cpu && current[k] == Some(id)
  }

  /** A task that may be picked for a CPU. */
  predicate Eligible(s: Sched, i: nat, cpu: nat)
    requires i < |s.tasks|
  {
    s.tasks[i].state == Ready && cpu in s.tasks[i].affinity && !Elsewhere(s.current, s.tasks[i].id, cpu)
  }

  predicate Runnable(t: Task) {
    t.state == Ready || t.state == Running
  }

  // ---------- Group hierarchy ----------

  /** Parent links lead to groups of lower rank, so every walk upward ends. */
  ghost predicate Ranked(groups: seq<Group>, rank: seq<nat>) {
    && |rank| == |groups| && UniqueGroups(groups)
    && forall i :: 0 <= i < |groups| && groups[i].parent.Some? ==>
         var p := GroupOf(groups, groups[i].parent.value); p < |groups| ==> rank[p] < rank[i]
  }

  /** The index one step up, if any. */
  function Parent(groups: seq<Group>, i: nat): (p: nat)
    requires i < |groups|
    ensures p <= |groups|
  {
    if groups[i].parent.None? then |groups| else GroupOf(groups, groups[i].parent.value)
  }
}
