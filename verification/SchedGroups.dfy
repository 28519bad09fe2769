/** Resource groups: the walk through a group's ancestors, charging, the bound on how far a
    runnable group may run ahead, and when re-parenting keeps the hierarchy free of cycles. */
module SchedGroups {
  import opened Octets
  import opened SchedModel

  /** A group and its ancestors, from the bottom up. */
  ghost function Path(groups: seq<Group>, rank: seq<nat>, i: nat): (path: seq<nat>)
    requires Ranked(groups, rank) && i < |groups|
    ensures forall k :: 0 <= k < |path| ==> path[k] < |groups| && rank[path[k]] <= rank[i]
    ensures i in path && |path| > 0 && path[0] == i
    decreases rank[i]
  {
    var p := Parent(groups, i);
    if p < |groups| then [i] + Path(groups, rank, p) else [i]
  }

  /** Every group is met at most once. */
  lemma {:induction false} PathDistinct(groups: seq<Group>, rank: seq<nat>, i: nat)
    requires Ranked(groups, rank) && i < |groups|
    ensures forall k, l :: 0 <= k < l < |Path(groups, rank, i)| ==> Path(groups, rank, i)[k] != Path(groups, rank, i)[l]
    decreases rank[i]
  {
    var p := Parent(groups, i);
    if p < |groups| {
      PathDistinct(groups, rank, p);
    }
  }

  // ---------- Charging ----------

  function Charged(g: Group, fair: bool, elapsed: nat, now: nat): Group
    requires 0 < g.shares
  {
    var rolls := SatSub(now, g.windowStart) >= WINDOW_NS;
    g.(windowStart := if rolls then now else g.windowStart,
       used := SatAdd(if rolls then 0 else g.used, elapsed),
       ticks := SatAdd(g.ticks, 1),
       time := SatAdd(g.time, elapsed),
       vruntime := if fair then SatAdd(g.vruntime, SatMul(SatMul(elapsed, 1024), 1024) / g.shares) else g.vruntime)
  }

  ghost predicate Shared(groups: seq<Group>) {
    forall i :: 0 <= i < |groups| ==> 0 < groups[i].shares
  }

  /** Every group on the path is charged once and no other group at all. */
  ghost function ChargeUp(groups: seq<Group>, path: seq<nat>, fair: bool, elapsed: nat, now: nat): (r: seq<Group>)
    requires Shared(groups)
    ensures |r| == |groups|
    ensures forall j :: 0 <= j < |groups| ==>
      r[j] == if j in path then Charged(groups[j], fair, elapsed, now) else groups[j]
  {
    seq(|groups|, j requires 0 <= j < |groups| => if j in path then Charged(groups[j], fair, elapsed, now)
                                                  else groups[j])
  }

  /** The same ids, parents and shares. */
  ghost predicate SameShape(a: seq<Group>, b: seq<Group>) {
    && |a| == |b|
    && forall j :: 0 <= j < |a| ==>
         && b[j].id == a[j].id && b[j].parent == a[j].parent && b[j].shares == a[j].shares
         && b[j].runnable == a[j].runnable
  }

  lemma {:induction false} GroupOfShape(a: seq<Group>, b: seq<Group>, id: nat)
    requires SameShape(a, b)
    ensures GroupOf(a, id) == GroupOf(b, id)
  {
    if a != [] && a[0].id != id {
      GroupOfShape(a[1..], b[1..], id);
    }
  }

  lemma ShapeRanked(a: seq<Group>, b: seq<Group>, rank: seq<nat>)
    requires SameShape(a, b) && Ranked(a, rank)
    ensures Ranked(b, rank) && (Shared(a) ==> Shared(b))
  {
    forall i | 0 <= i < |b| && b[i].parent.Some?
      ensures var p := GroupOf(b, b[i].parent.value); p < |b| ==> rank[p] < rank[i]
    {
      GroupOfShape(a, b, b[i].parent.value);
    }
  }

  lemma {:induction false} PathShape(a: seq<Group>, b: seq<Group>, rank: seq<nat>, i: nat)
    requires SameLinks(a, b) && Ranked(a, rank) && Ranked(b, rank) && i < |a|
    ensures Path(a, rank, i) == Path(b, rank, i)
    decreases rank[i]
  {
    if a[i].parent.Some? {
      GroupOfIds(a, b, a[i].parent.value);
    }
    var p := Parent(a, i);
    if p < |a| {
      PathShape(a, b, rank, p);
    }
  }

  ghost predicate SameLinks(a: seq<Group>, b: seq<Group>) {
    |a| == |b| && forall j :: 0 <= j < |a| ==> b[j].id == a[j].id && b[j].parent == a[j].parent
  }

  /** A hierarchy that can be charged: no cycles, and no group without shares. */
  ghost predicate Sane(groups: seq<Group>, rank: seq<nat>) {
    Ranked(groups, rank) && Shared(groups)
  }

  // ---------- Bounded lag ----------

  /** The least virtual runtime of the first `n` groups that have runnable tasks. */
  function LeastRuntime(groups: seq<Group>, n: nat): (r: Option<U64>)
    requires n <= |groups|
    ensures r.None? <==> forall i :: 0 <= i < n ==> groups[i].runnable == 0
    ensures r.Some? ==> exists i :: 0 <= i < n && groups[i].runnable != 0 && groups[i].vruntime == r.value
    ensures r.Some? ==> forall i :: 0 <= i < n && groups[i].runnable != 0 ==> r.value <= groups[i].vruntime
  {
    if n == 0 then None
    else
      var before := LeastRuntime(groups, n - 1);
      if groups[n - 1].runnable == 0 then before
      else if before.None? || groups[n - 1].vruntime < before.value then Some(groups[n - 1].vruntime)
      else before
  }

  function Limited(g: Group, limit: U64): Group {
    if g.runnable != 0 && limit < g.vruntime then g.(vruntime := limit) else g
  }

  function Clamped(groups: seq<Group>): (r: seq<Group>)
    ensures |r| == |groups|
  {
    var least := LeastRuntime(groups, |groups|);
    if least.None? then groups
    else seq(|groups|, j requires 0 <= j < |groups| => Limited(groups[j], SatAdd(least.value, LAG)))
  }

  lemma LeastIs(groups: seq<Group>, i: nat)
    requires i < |groups| && groups[i].runnable != 0
    requires forall k :: 0 <= k < |groups| && groups[k].runnable != 0 ==> groups[i].vruntime <= groups[k].vruntime
    ensures LeastRuntime(groups, |groups|) == Some(groups[i].vruntime)
  {
  }

  /** After clamping, a runnable group lies within eight scaled quanta of the minimum. */
  lemma ClampWithin(groups: seq<Group>, i: nat)
    requires i < |groups| && groups[i].runnable != 0
    ensures var r, least := Clamped(groups), LeastRuntime(groups, |groups|);
      least.Some? && least.value <= r[i].vruntime <= least.value + LAG && r[i] == groups[i].(vruntime := r[i].vruntime)
  {
  }

  /** Clamping keeps the order of any two runnable groups. */
  lemma ClampOrder(groups: seq<Group>, i: nat, j: nat)
    requires i < |groups| && j < |groups| && groups[i].runnable != 0 && groups[j].runnable != 0
    requires groups[i].vruntime <= groups[j].vruntime
    ensures Clamped(groups)[i].vruntime <= Clamped(groups)[j].vruntime
  {
    hide LeastRuntime;
  }

  lemma ClampShape(groups: seq<Group>)
    ensures SameShape(groups, Clamped(groups))
  {
    hide LeastRuntime;
  }

  /** Clamping keeps the minimum itself. */
  lemma ClampLeast(groups: seq<Group>)
    ensures LeastRuntime(Clamped(groups), |groups|) == LeastRuntime(groups, |groups|)
  {
    hide Clamped, LeastRuntime;
    ClampShape(groups);
    var least, r := LeastRuntime(groups, |groups|), Clamped(groups);
    if least.Some? {
      var i :| 0 <= i < |groups| && groups[i].runnable != 0 && groups[i].vruntime == least.value;
      forall k | 0 <= k < |r| && r[k].runnable != 0
        ensures r[i].vruntime <= r[k].vruntime
      {
        ClampOrder(groups, i, k);
      }
      ClampWithin(groups, i);
      ClampKeepsLeast(groups, i);
      LeastIs(r, i);
    }
  }

  lemma ClampKeepsLeast(groups: seq<Group>, i: nat)
    requires i < |groups| && groups[i].runnable != 0 && LeastRuntime(groups, |groups|) == Some(groups[i].vruntime)
    ensures Clamped(groups)[i].vruntime == groups[i].vruntime
  {
    hide LeastRuntime;
  }

  /** Groups without runnable tasks are left alone. */
  lemma ClampOthers(groups: seq<Group>, i: nat)
    requires i < |groups| && groups[i].runnable == 0
    ensures Clamped(groups)[i] == groups[i]
  {
    hide LeastRuntime;
  }

  /** No runnable group is more than eight scaled quanta ahead of another. */
  ghost predicate Level(groups: seq<Group>) {
    forall i, j :: 0 <= i < |groups| && 0 <= j < |groups| && groups[i].runnable != 0 && groups[j].runnable != 0 ==>
      groups[i].vruntime <= groups[j].vruntime + LAG
  }

  lemma ClampLevel(groups: seq<Group>)
    ensures Level(Clamped(groups))
  {
    hide Clamped, LeastRuntime;
    ClampShape(groups);
    var r := Clamped(groups);
    forall i, j | 0 <= i < |r| && 0 <= j < |r| && r[i].runnable != 0 && r[j].runnable != 0
      ensures r[i].vruntime <= r[j].vruntime + LAG
    {
      ClampWithin(groups, i);
      ClampWithin(groups, j);
    }
  }

  // ---------- Time is the sum of the charges below ----------

  datatype Charge = Charge(group: nat, fair: bool, elapsed: nat, now: nat)

  /** One charge, and the clamp that follows a fair one. */
  ghost function ChargeOnce(groups: seq<Group>, rank: seq<nat>, c: Charge): (r: seq<Group>)
    requires Ranked(groups, rank) && Shared(groups) && c.group < |groups|
    ensures |r| == |groups|
  {
    var charged := ChargeUp(groups, Path(groups, rank, c.group), c.fair, c.elapsed, c.now);
    if c.fair then Clamped(charged) else charged
  }

  /** Two runnable groups in one order before and after. */
  ghost predicate KeepsOrder(a: seq<Group>, b: seq<Group>) {
    && |b| == |a|
    && forall i, j :: 0 <= i < |a| && 0 <= j < |a| && a[i].runnable != 0 && a[j].runnable != 0 ==>
         (a[i].vruntime <= a[j].vruntime ==> b[i].vruntime <= b[j].vruntime)
  }

  /** After a fair charge no runnable group is far ahead of another; the clamp reorders none of them, keeps
      their minimum, and leaves groups without runnable tasks alone. */
  lemma FairChargeLevels(groups: seq<Group>, rank: seq<nat>, c: Charge)
    requires Sane(groups, rank) && c.group < |groups| && c.fair
    ensures var charged := ChargeUp(groups, Path(groups, rank, c.group), true, c.elapsed, c.now);
      var r := ChargeOnce(groups, rank, c);
      && Level(r) && KeepsOrder(charged, r) && LeastRuntime(r, |r|) == LeastRuntime(charged, |charged|)
      && forall i :: 0 <= i < |r| && charged[i].runnable == 0 ==> r[i] == charged[i]
  {
    hide Clamped, LeastRuntime, Ranked, Shared, Path, Level, ChargeUp;
    var charged := ChargeUp(groups, Path(groups, rank, c.group), true, c.elapsed, c.now);
    ClampLevel(charged);
    ClampLeast(charged);
    ClampKeepsOrder(charged);
    forall i | 0 <= i < |charged| && charged[i].runnable == 0 ensures Clamped(charged)[i] == charged[i] {
      ClampOthers(charged, i);
    }
  }

  lemma ClampKeepsOrder(groups: seq<Group>)
    ensures KeepsOrder(groups, Clamped(groups))
  {
    hide Clamped;
    forall i, j | 0 <= i < |groups| && 0 <= j < |groups| && groups[i].runnable != 0 && groups[j].runnable != 0 &&
        groups[i].vruntime <= groups[j].vruntime
      ensures Clamped(groups)[i].vruntime <= Clamped(groups)[j].vruntime
    {
      ClampOrder(groups, i, j);
    }
  }

  lemma ChargeShape(groups: seq<Group>, rank: seq<nat>, c: Charge)
    requires Ranked(groups, rank) && Shared(groups) && c.group < |groups|
    ensures SameShape(groups, ChargeOnce(groups, rank, c))
  {
    hide Path, Clamped;
    var charged := ChargeUp(groups, Path(groups, rank, c.group), c.fair, c.elapsed, c.now);
    assert SameShape(groups, charged);
    ClampShape(charged);
  }

  lemma ChargeTime(groups: seq<Group>, rank: seq<nat>, c: Charge, j: nat)
    requires Ranked(groups, rank) && Shared(groups) && c.group < |groups| && j < |groups|
    ensures ChargeOnce(groups, rank, c)[j].time ==
            if j in Path(groups, rank, c.group) then SatAdd(groups[j].time, c.elapsed) else groups[j].time
  {
    hide Path, LeastRuntime;
  }

  /** The groups after a list of charges, parents being fixed. */
  ghost function ChargeAll(groups: seq<Group>, rank: seq<nat>, charges: seq<Charge>): (r: seq<Group>)
    requires Ranked(groups, rank) && Shared(groups) && forall k :: 0 <= k < |charges| ==> charges[k].group < |groups|
    ensures |r| == |groups|
    decreases |charges|
  {
    if charges == [] then groups
    else
      ChargeShape(groups, rank, charges[0]);
      ShapeRanked(groups, ChargeOnce(groups, rank, charges[0]), rank);
      ChargeAll(ChargeOnce(groups, rank, charges[0]), rank, charges[1..])
  }

  /** What was charged to groups in the subtree of `j`: those with `j` on their path. */
  ghost function Below(groups: seq<Group>, rank: seq<nat>, charges: seq<Charge>, j: nat): nat
    requires Ranked(groups, rank) && forall k :: 0 <= k < |charges| ==> charges[k].group < |groups|
    decreases |charges|
  {
    if charges == [] then 0
    else
      var first := if j in Path(groups, rank, charges[0].group) then charges[0].elapsed else 0;
      first + Below(groups, rank, charges[1..], j)
  }

  lemma {:induction false} BelowShape(a: seq<Group>, b: seq<Group>, rank: seq<nat>, charges: seq<Charge>, j: nat)
    requires SameLinks(a, b) && Ranked(a, rank) && Ranked(b, rank)
    requires forall k :: 0 <= k < |charges| ==> charges[k].group < |a|
    ensures Below(a, rank, charges, j) == Below(b, rank, charges, j)
    decreases |charges|
  {
    hide Path;
    if charges != [] {
      PathShape(a, b, rank, charges[0].group);
      BelowShape(a, b, rank, charges[1..], j);
    }
  }

  /** Conservation: a group's time grows by exactly what its subtree was charged. */
  lemma {:induction false} TimeIsSubtreeSum(groups: seq<Group>, rank: seq<nat>, charges: seq<Charge>, j: nat)
    requires Ranked(groups, rank) && Shared(groups) && j < |groups|
    requires forall k :: 0 <= k < |charges| ==> charges[k].group < |groups|
    ensures ChargeAll(groups, rank, charges)[j].time == SatAdd(groups[j].time, Below(groups, rank, charges, j))
    decreases |charges|
  {
    hide Path, ChargeOnce;
    if charges != [] {
      var next := ChargeOnce(groups, rank, charges[0]);
      ChargeShape(groups, rank, charges[0]);
      ShapeRanked(groups, next, rank);
      ChargeTime(groups, rank, charges[0], j);
      TimeIsSubtreeSum(next, rank, charges[1..], j);
      BelowShape(groups, next, rank, charges[1..], j);
    }
  }

  // ---------- Creating and re-parenting ----------

  ghost predicate Acyclic(groups: seq<Group>) {
    exists rank :: Ranked(groups, rank)
  }

  ghost predicate ParentsExist(groups: seq<Group>) {
    forall i :: 0 <= i < |groups| && groups[i].parent.Some? ==> GroupOf(groups, groups[i].parent.value) < |groups|
  }

  /** There is always at least one CPU, listed or not. */
  function CpuCount(current: seq<Option<nat>>): nat {
    if current == [] then 1 else |current|
  }

  function CursorsFor(id: nat, cpus: nat): seq<Cursor> {
    seq(cpus, (k: nat) => Cursor(id, k, None))
  }

  function NewGroup(s: Sched, id: nat, parent: Option<nat>, shares: nat, permille: nat, realtime: bool): Group {
    var least := LeastRuntime(s.groups, |s.groups|);
    Group(id, parent, shares, permille, realtime, if least.Some? then least.value else 0, 0, 0, s.now, 0, 0)
  }

  predicate BadGroup(s: Sched, id: nat, parent: Option<nat>, shares: nat, permille: nat) {
    || id == 0 || shares == 0 || permille > 1000 || parent == Some(id)
    || (parent.Some? && GroupOf(s.groups, parent.value) == |s.groups|)
  }

  function EnsureGroup(s: Sched, id: nat, parent: Option<nat>, shares: nat, permille: nat,
                       realtime: bool): (Sched, Option<SchedError>) {
    if BadGroup(s, id, parent, shares, permille) then (s, Some(InvalidTask))
    else
      var i := GroupOf(s.groups, id);
      if i < |s.groups| then
        if s.groups[i].parent != parent && s.groups[i].parent.Some? then (s, Some(AccessDenied))
        else (s.(groups := s.groups[i := s.groups[i].(parent := parent, shares := shares, permille := permille,
                                                      realtime := realtime)]), None)
      else
        (s.(groups := s.groups + [NewGroup(s, id, parent, shares, permille, realtime)],
            cursors := s.cursors + CursorsFor(id, CpuCount(s.current))), None)
  }

  function Linked(groups: seq<Group>, i: nat, parent: Option<nat>): (r: seq<Group>)
    requires i < |groups|
    ensures |r| == |groups|
  {
    groups[i := groups[i].(parent := parent)]
  }

  lemma {:induction false} GroupOfIds(a: seq<Group>, b: seq<Group>, id: nat)
    requires |a| == |b| && forall j :: 0 <= j < |a| ==> a[j].id == b[j].id
    ensures GroupOf(a, id) == GroupOf(b, id)
  {
    if a != [] && a[0].id != id {
      GroupOfIds(a[1..], b[1..], id);
    }
  }

  lemma PathParent(groups: seq<Group>, rank: seq<nat>, x: nat, i: nat)
    requires Ranked(groups, rank) && x < |groups| && x != i && Parent(groups, x) < |groups|
    ensures i in Path(groups, rank, x) <==> i in Path(groups, rank, Parent(groups, x))
  {
  }

  ghost function Lifted(groups: seq<Group>, rank: seq<nat>, i: nat, step: nat): (r: seq<nat>)
    requires Ranked(groups, rank)
    ensures |r| == |groups|
    ensures forall x :: 0 <= x < |groups| ==> r[x] == rank[x] + if i in Path(groups, rank, x) then step else 0
  {
    seq(|groups|, x requires 0 <= x < |groups| => rank[x] + if i in Path(groups, rank, x) then step else 0)
  }

  /** Moving a root below a group outside its subtree keeps the walks finite. */
  lemma LinkRanked(groups: seq<Group>, rank: seq<nat>, i: nat, p: nat)
    requires Ranked(groups, rank) && i < |groups| && p < |groups| && groups[i].parent.None?
    requires i !in Path(groups, rank, p)
    ensures Ranked(Linked(groups, i, Some(groups[p].id)), Lifted(groups, rank, i, rank[p] + 1))
  {
    hide Path, Lifted;
    var after, lifted := Linked(groups, i, Some(groups[p].id)), Lifted(groups, rank, i, rank[p] + 1);
    forall x | 0 <= x < |after| && after[x].parent.Some?
      ensures var q := GroupOf(after, after[x].parent.value); q < |after| ==> lifted[q] < lifted[x]
    {
      GroupOfIds(groups, after, after[x].parent.value);
      if x == i {
        GroupOfAt(groups, p);
      } else if Parent(groups, x) < |groups| {
        PathParent(groups, rank, x, i);
      }
    }
  }

  lemma {:induction false} RanksAlong(groups: seq<Group>, rank: seq<nat>, after: seq<Group>, other: seq<nat>, i: nat,
                                      x: nat)
    requires Ranked(groups, rank) && Ranked(after, other) && |after| == |groups| && i < |groups| && x < |groups|
    requires forall j :: 0 <= j < |groups| ==>
      after[j].id == groups[j].id && (j != i ==> after[j].parent == groups[j].parent)
    requires i in Path(groups, rank, x)
    ensures other[i] <= other[x]
    decreases rank[x]
  {
    if x != i {
      GroupOfIds(groups, after, groups[x].parent.value);
      RanksAlong(groups, rank, after, other, i, Parent(groups, x));
    }
  }

  /** Re-parenting a root keeps the hierarchy acyclic exactly when the new parent is outside the
      root's own subtree. */
  lemma ReparentAcyclic(groups: seq<Group>, rank: seq<nat>, i: nat, p: nat)
    requires Ranked(groups, rank) && i < |groups| && p < |groups| && groups[i].parent.None?
    ensures Acyclic(Linked(groups, i, Some(groups[p].id))) <==> i !in Path(groups, rank, p)
  {
    hide Path, Lifted;
    var after := Linked(groups, i, Some(groups[p].id));
    if i !in Path(groups, rank, p) {
      LinkRanked(groups, rank, i, p);
    } else if Acyclic(after) {
      var other :| Ranked(after, other);
      RanksAlong(groups, rank, after, other, i, p);
      GroupOfIds(groups, after, groups[p].id);
      GroupOfAt(groups, p);
      assert false;
    }
  }

  /** A new group starts below an existing one or at the top, and closes no cycle. */
  lemma AppendRanked(groups: seq<Group>, rank: seq<nat>, g: Group)
    requires Ranked(groups, rank) && ParentsExist(groups) && GroupOf(groups, g.id) == |groups|
    requires g.parent.Some? ==> GroupOf(groups, g.parent.value) < |groups|
    ensures Ranked(groups + [g], rank + [if g.parent.Some? then rank[GroupOf(groups, g.parent.value)] + 1 else 0])
    ensures ParentsExist(groups + [g])
  {
    var after := groups + [g];
    forall id | GroupOf(groups, id) < |groups|
      ensures GroupOf(after, id) == GroupOf(groups, id)
    {
      GroupOfPrefix(groups, g, id);
    }
  }

  lemma {:induction false} GroupOfPrefix(groups: seq<Group>, g: Group, id: nat)
    requires GroupOf(groups, id) < |groups|
    ensures GroupOf(groups + [g], id) == GroupOf(groups, id)
  {
    if groups[0].id != id {
      GroupOfPrefix(groups[1..], g, id);
      assert (groups + [g])[1..] == groups[1..] + [g];
    }
  }

  lemma LinksRanked(a: seq<Group>, b: seq<Group>, rank: seq<nat>)
    requires |a| == |b| && forall j :: 0 <= j < |a| ==> a[j].id == b[j].id && a[j].parent == b[j].parent
    ensures Ranked(a, rank) <==> Ranked(b, rank)
  {
    forall id ensures GroupOf(a, id) == GroupOf(b, id) {
      GroupOfIds(a, b, id);
    }
  }

  /** The request hangs an existing root below its own subtree. */
  ghost predicate Closes(groups: seq<Group>, rank: seq<nat>, id: nat, parent: Option<nat>)
    requires Ranked(groups, rank)
  {
    var i := GroupOf(groups, id);
    i < |groups| && groups[i].parent.None? && parent.Some?
    && GroupOf(groups, parent.value) < |groups| && i in Path(groups, rank, GroupOf(groups, parent.value))
  }

  /** Creating or updating a group leaves every ancestor walk finite, unless the request is
      accepted and hangs a root below its own subtree. */
  lemma EnsureAcyclic(s: Sched, rank: seq<nat>, id: nat, parent: Option<nat>, shares: nat, permille: nat,
                      realtime: bool)
    requires Ranked(s.groups, rank) && ParentsExist(s.groups)
    ensures var r := EnsureGroup(s, id, parent, shares, permille, realtime);
      Acyclic(r.0.groups) <==> !(r.1.None? && Closes(s.groups, rank, id, parent))
  {
    hide Path, LeastRuntime;
    var r := EnsureGroup(s, id, parent, shares, permille, realtime);
    var i := GroupOf(s.groups, id);
    if r.1.Some? {
      assert r.0 == s;
    } else if i == |s.groups| {
      AppendRanked(s.groups, rank, NewGroup(s, id, parent, shares, permille, realtime));
    } else {
      var linked := Linked(s.groups, i, parent);
      forall other ensures Ranked(linked, other) <==> Ranked(r.0.groups, other) {
        LinksRanked(linked, r.0.groups, other);
      }
      if s.groups[i].parent == parent {
        assert linked == s.groups;
      } else {
        ReparentAcyclic(s.groups, rank, i, GroupOf(s.groups, parent.value));
      }
    }
  }

  /** The smallest failing run, from a new scheduler: a root, its child, and the root asked to become the
      child of its own child. */
  lemma ReparentCanClose(cpus: nat)
    ensures var rooted := EnsureGroup(NewSched(cpus), 1, None, 1, 0, true);
      var grown := EnsureGroup(rooted.0, 2, Some(1), 1, 0, true);
      var closed := EnsureGroup(grown.0, 1, Some(2), 1, 0, true);
      rooted.1.None? && grown.1.None? && closed.1.None? && Acyclic(grown.0.groups) && !Acyclic(closed.0.groups)
  {
    var rooted := EnsureGroup(NewSched(cpus), 1, None, 1, 0, true);
    var grown := EnsureGroup(rooted.0, 2, Some(1), 1, 0, true);
    var groups := grown.0.groups;
    assert |rooted.0.groups| == 1 && rooted.0.groups[0].id == 1 && GroupOf(rooted.0.groups[1..], 2) == 0;
    assert groups == [rooted.0.groups[0], groups[1]] && groups[1].id == 2 && groups[1].parent == Some(1);
    assert GroupOf(groups[1..], 2) == 0 && GroupOf(groups, 2) == 1 && GroupOf(groups, 1) == 0;
    assert Ranked(groups, [0, 1]);
    EnsureAcyclic(grown.0, [0, 1], 1, Some(2), 1, 0, true);
    assert Path(groups, [0, 1], 1) == [1] + Path(groups, [0, 1], 0);
  }
}
