/** Runs of the owner through calls, notifications, boots and power failures: the durable
    generation never goes back, a pending selection is tried at most once, and memory agrees
    with the store. */
module OwnerRuns {
  import opened Octets
  import opened Records
  import opened Persistent
  import opened OwnerSpec

  datatype Action = Firmware(call: Call) | CandidateReady | CandidateFailed | Boot(loads: bool)

  /** What a power failure does to a save in progress. */
  datatype Fate = Kept | Landed | Torn

  datatype Event = Happens(action: Action) | PowerFails(action: Action, fate: Fate)

  /** The machine; `trials` lists the revisions of the pending records whose candidate was booted. */
  datatype World = World(ram: Ram, store: Store, up: bool, trials: seq<nat>)

  function Effect(ram: Ram, store: Store, action: Action): Next {
    match action
    case Firmware(call) => FirmwareStep(ram, store, call)
    case CandidateReady => ReadyStep(ram, store)
    case CandidateFailed => FailedStep(ram, store)
    case Boot(loads) => BootSelect(RESET, store, loads)
  }

  function AfterCrash(before: Store, after: Store, fate: Fate): Store {
    match fate
    case Kept => before
    case Landed => after
    case Torn => if before.Blank? && after != before then Broken else before
  }

  predicate Enabled(w: World, action: Action) {
    w.up != action.Boot?
  }

  /** The boot just made executes a candidate. */
  predicate TrialBoot(action: Action, reply: Reply) {
    action.Boot? && reply.Value? && reply.value >= TRIAL_BIT
  }

  function Step(w: World, e: Event): World {
    if !Enabled(w, e.action) then w
    else
      var next := Effect(w.ram, w.store, e.action);
      match e
      case PowerFails(_, fate) => World(RESET, AfterCrash(w.store, next.store, fate), false, w.trials)
      case Happens(action) =>
        World(next.ram, next.store, if action.Boot? then next.reply != Value(0) else true,
              if TrialBoot(action, next.reply) then w.trials + [Revision(w.store)] else w.trials)
  }

  function Run(w: World, events: seq<Event>): World
    decreases |events|
  {
    if events == [] then w else Run(Step(w, events[0]), events[1..])
  }

  const START := World(RESET, Blank, false, [])

  // ---------- What is durable ----------

  function Durable(store: Store): State {
    if store.Holds? then store.state else INITIAL
  }

  function Generation(store: Store): nat {
    Durable(store).active.generation
  }

  function Revision(store: Store): nat {
    Durable(store).revision
  }

  predicate StoreOk(store: Store) {
    store.Holds? ==> store.state.Valid()
  }

  /** A staged image that has been sealed is a valid candidate newer than the durable one. */
  predicate Staging(ram: Ram, store: Store) {
    && (ram.stage.closed ==>
          Candidate(ram).Valid(false) && ram.stage.generation > Generation(store) && ram.stage.slot != 0)
    && (ram.report.outcome == Applying && ram.stage.slot != 0 ==> ram.stage.closed)
    && (ram.ready ==> ram.stage.closed)
    && (ram.stage.length != 0 ==> ram.stage.slot != 0)
  }

  predicate Base(ram: Ram, store: Store) {
    StoreOk(store) && !store.Broken? && Staging(ram, store)
  }

  /** What one step may do to the store: nothing, or advance it by one revision to a valid
      state whose active generation is no older; a trial replaces a pending record. */
  predicate Forward(before: Store, after: Store) {
    after == before || (
      && after.Holds? && after.state.Valid() && after.state.revision == Revision(before) + 1
      && Generation(after) >= Generation(before))
  }

  lemma CommitKeeps(ram: Ram, store: Store)
    requires Base(ram, store) && ram.ready
    ensures var n := CommitCandidate(ram, store); Forward(store, n.store) && Base(n.ram, n.store)
  {
  }

  lemma RollbackKeeps(ram: Ram, store: Store)
    requires Base(ram, store)
    ensures var n := RollbackCandidate(ram, store); Forward(store, n.store) && Base(n.ram, n.store)
  {
  }

  lemma ActivateKeeps(ram: Ram, store: Store, mode: Mode)
    requires Base(ram, store)
    ensures var n := ActivateStep(ram, store, mode); Forward(store, n.store) && Base(n.ram, n.store)
  {
  }

  lemma SealKeeps(ram: Ram, store: Store, bundle: Bundle)
    requires Base(ram, store)
    ensures Base(SealStep(ram, store, bundle).0, store)
  {
  }

  lemma StageKeeps(ram: Ram, store: Store, call: Call)
    requires Base(ram, store) && (call.Register? || call.Unregister? || call.Begin? || call.Write? || call.Abort?)
    ensures var n := CallStep(ram, store, call); n.store == store && Base(n.ram, store)
  {
    hide StoreOk;
  }

  lemma ActionIrrelevant(ram: Ram, store: Store)
    ensures Base(ram.(action := 0), store) == Base(ram, store)
  {
  }

  lemma CallKeeps(ram: Ram, store: Store, call: Call)
    requires Base(ram, store)
    ensures var n := FirmwareStep(ram, store, call); Forward(store, n.store) && Base(n.ram, n.store)
  {
    hide SealStep, ActivateStep, CommitCandidate, RollbackCandidate, Base, BeginStep, WriteStep, AbortStep,
         RegisterStep, UnregisterStep;
    match call {
      case Seal(_, bundle) => SealKeeps(ram, store, bundle);
      case Activate(_, mode) => ActivateKeeps(ram, store, mode);
      case Resolve(_, disposition) =>
        RollbackKeeps(ram, store);
        if ram.ready {
          CommitKeeps(ram, store);
        }
      case _ => StageKeeps(ram, store, call);
    }
    ActionIrrelevant(CallStep(ram, store, call).ram, CallStep(ram, store, call).store);
  }

  lemma ReadyKeeps(ram: Ram, store: Store)
    requires Base(ram, store)
    ensures var n := ReadyStep(ram, store); Forward(store, n.store) && Base(n.ram, n.store)
  {
    hide CommitCandidate;
    if ram.report.outcome == Applying && ram.stage.slot != 0 {
      CommitKeeps(ram.(ready := true, active := Image(ram.stage.generation, ram.stage.slot),
                       transport := Rebind(ram.transport), revision := Bump(ram.revision)), store);
    }
  }

  lemma FailedKeeps(ram: Ram, store: Store)
    requires Base(ram, store)
    ensures var n := FailedStep(ram, store); Forward(store, n.store) && Base(n.ram, n.store)
  {
    hide RollbackCandidate;
    RollbackKeeps(ram, store);
  }

  /** A boot that runs a candidate turns a pending record into a trial. */
  ghost predicate BootFine(store: Store, n: Next) {
    && Forward(store, n.store) && StoreOk(n.store)
    && (n.reply != Value(0) ==> Base(n.ram, n.store))
    && (n.reply.Value? && n.reply.value >= TRIAL_BIT ==>
          store.Holds? && store.state.phase == Pending && n.store.Holds? && n.store.state.phase == Trial)
  }

  lemma BootPendingKeeps(store: Store, loads: bool)
    requires StoreOk(store) && store.Holds? && store.state.phase == Pending
    ensures BootFine(store, BootPending(RESET, store, store.state, store.state.pending.value, loads))
  {
  }

  lemma BootTrialKeeps(store: Store, loads: bool)
    requires StoreOk(store) && store.Holds? && store.state.phase == Trial
    ensures BootFine(store, BootTrial(RESET, store, store.state, store.state.pending, loads))
  {
  }

  lemma BootKeeps(store: Store, loads: bool)
    requires StoreOk(store)
    ensures BootFine(store, BootSelect(RESET, store, loads))
  {
    hide BootPending, BootTrial;
    if store.Holds? && store.state.phase == Pending {
      BootPendingKeeps(store, loads);
    } else if store.Holds? && store.state.phase == Trial {
      BootTrialKeeps(store, loads);
    }
  }

  lemma EffectKeeps(w: World, action: Action)
    requires WorldOk(w) && Enabled(w, action)
    ensures var n := Effect(w.ram, w.store, action);
      && Forward(w.store, n.store) && StoreOk(n.store)
      && (!action.Boot? || n.reply != Value(0) ==> Base(n.ram, n.store))
      && (TrialBoot(action, n.reply) ==>
            w.store.Holds? && w.store.state.phase == Pending && n.store.Holds? && n.store != w.store)
  {
    hide FirmwareStep, ReadyStep, FailedStep, BootSelect;
    match action {
      case Firmware(call) => CallKeeps(w.ram, w.store, call);
      case CandidateReady => ReadyKeeps(w.ram, w.store);
      case CandidateFailed => FailedKeeps(w.ram, w.store);
      case Boot(loads) => BootKeeps(w.store, loads);
    }
  }

  // ---------- Runs ----------

  /** Every recorded trial belongs to a different pending record, older than what is stored now. */
  ghost predicate TrialsOnce(trials: seq<nat>, revision: nat) {
    && (forall i :: 0 <= i < |trials| ==> trials[i] < revision)
    && (forall i, j :: 0 <= i < j < |trials| ==> trials[i] < trials[j])
  }

  ghost predicate WorldOk(w: World) {
    StoreOk(w.store) && (w.up ==> Base(w.ram, w.store)) && TrialsOnce(w.trials, Revision(w.store))
  }

  lemma StepKeeps(w: World, e: Event)
    requires WorldOk(w)
    ensures WorldOk(Step(w, e))
    ensures Generation(w.store) <= Generation(Step(w, e).store) && Revision(w.store) <= Revision(Step(w, e).store)
  {
    hide Effect, Base, StoreOk, TrialsOnce;
    if Enabled(w, e.action) {
      EffectKeeps(w, e.action);
      var after := Step(w, e);
      BrokenIsBlank(w.store);
      ForwardRevision(w.store, Effect(w.ram, w.store, e.action).store);
      TrialsGrow(w.trials, Revision(w.store), Revision(after.store));
    }
  }

  lemma BrokenIsBlank(store: Store)
    ensures StoreOk(Broken) && Generation(Broken) == Generation(Blank) && Revision(Broken) == Revision(Blank)
  {
  }

  lemma ForwardRevision(before: Store, after: Store)
    requires Forward(before, after)
    ensures Revision(before) <= Revision(after) && Generation(before) <= Generation(after)
    ensures after != before ==> Revision(after) == Revision(before) + 1
  {
  }

  lemma TrialsGrow(trials: seq<nat>, before: nat, after: nat)
    requires TrialsOnce(trials, before) && before <= after
    ensures TrialsOnce(trials, after)
    ensures before < after ==> TrialsOnce(trials + [before], after)
  {
  }

  /** Over every run: stored states stay valid, the durable active generation never decreases,
      and no pending record has its candidate booted twice. */
  lemma {:induction false} RunKeeps(w: World, events: seq<Event>)
    requires WorldOk(w)
    ensures WorldOk(Run(w, events))
    ensures Generation(w.store) <= Generation(Run(w, events).store)
    decreases |events|
  {
    hide Step, WorldOk, Generation;
    if events != [] {
      StepKeeps(w, events[0]);
      RunKeeps(Step(w, events[0]), events[1..]);
    }
  }

  lemma StartOk()
    ensures WorldOk(START)
  {
  }

  // ---------- Memory agrees with the store ----------

  predicate ActiveIsDurable(ram: Ram, store: Store) {
    ram.active.generation == Generation(store) && ram.active.slot == SlotNumber(Durable(store).active.slot)
  }

  predicate SourceIsDurable(ram: Ram, store: Store) {
    ram.source.generation == Generation(store) && ram.source.slot == SlotNumber(Durable(store).active.slot)
  }

  /** Unless a candidate runs, memory names the durable image and stages into the other slot;
      while one applies or runs, the image to fall back to is the durable one. */
  predicate Agrees(ram: Ram, store: Store) {
    && (!ram.ready ==> ActiveIsDurable(ram, store))
    && (!ram.ready && ram.stage.slot != 0 ==> ram.stage.slot <= 2 && ram.stage.slot != ram.active.slot)
    && (ram.ready ==> ram.active.generation == ram.stage.generation && ram.active.slot == ram.stage.slot)
    && (ram.ready ==> 1 <= ram.stage.slot <= 2)
    && (ram.ready || ram.report.outcome == Applying ==> SourceIsDurable(ram, store))
  }

  lemma CommitAgrees(ram: Ram, store: Store)
    requires Base(ram, store) && Agrees(ram, store) && ram.ready
    ensures var n := CommitCandidate(ram, store); Agrees(n.ram, n.store)
  {
  }

  lemma RollbackAgrees(ram: Ram, store: Store)
    requires Base(ram, store) && Agrees(ram, store) && (ram.ready || ram.report.outcome == Applying)
    ensures var n := RollbackCandidate(ram, store); Agrees(n.ram, n.store)
  {
  }

  /** Activating live is the one call that can break the agreement, and it does so exactly when
      a candidate is already running. */
  lemma ActivateAgrees(ram: Ram, store: Store, mode: Mode)
    requires Base(ram, store) && Agrees(ram, store)
    ensures var n := ActivateStep(ram, store, mode);
      Agrees(n.ram, n.store) <==> !(mode == Live && ram.ready)
  {
  }

  lemma SealAgrees(ram: Ram, store: Store, bundle: Bundle)
    requires Base(ram, store) && Agrees(ram, store)
    ensures Agrees(SealStep(ram, store, bundle).0, store)
  {
  }

  lemma StageAgrees(ram: Ram, store: Store, call: Call)
    requires Base(ram, store) && Agrees(ram, store)
    requires (call.Register? || call.Unregister? || call.Begin? || call.Write? || call.Abort?)
    ensures var n := CallStep(ram, store, call); n.store == store && Agrees(n.ram, store)
  {
    hide Base;
  }

  lemma ActionUnread(ram: Ram, store: Store)
    ensures Agrees(ram.(action := 0), store) == Agrees(ram, store)
  {
  }

  /** A live activation on top of a running candidate. */
  predicate Reissues(ram: Ram, call: Call) {
    call.Activate? && call.mode == Live && ValidOwner(ram, call.owner) && ram.ready
  }

  lemma CallAgrees(ram: Ram, store: Store, call: Call)
    requires Base(ram, store) && Agrees(ram, store) && !Reissues(ram, call)
    ensures var n := FirmwareStep(ram, store, call); Agrees(n.ram, n.store)
  {
    hide SealStep, ActivateStep, CommitCandidate, RollbackCandidate, Base, Agrees, BeginStep, WriteStep, AbortStep,
         RegisterStep, UnregisterStep;
    match call {
      case Seal(_, bundle) => SealAgrees(ram, store, bundle);
      case Activate(_, mode) =>
        if ValidOwner(ram, OwnerOf(call)) {
          ActivateAgrees(ram, store, mode);
        }
      case Resolve(_, disposition) =>
        if ram.ready {
          RollbackAgrees(ram, store);
          CommitAgrees(ram, store);
        }
      case _ => StageAgrees(ram, store, call);
    }
    ActionUnread(CallStep(ram, store, call).ram, CallStep(ram, store, call).store);
  }

  lemma ReadyAgrees(ram: Ram, store: Store)
    requires Base(ram, store) && Agrees(ram, store)
    ensures var n := ReadyStep(ram, store); Agrees(n.ram, n.store)
  {
    hide CommitCandidate;
    if ram.report.outcome == Applying && ram.stage.slot != 0 {
      CommitAgrees(ram.(ready := true, active := Image(ram.stage.generation, ram.stage.slot),
                        transport := Rebind(ram.transport), revision := Bump(ram.revision)), store);
    }
  }

  lemma FailedAgrees(ram: Ram, store: Store)
    requires Base(ram, store) && Agrees(ram, store)
    ensures var n := FailedStep(ram, store); Agrees(n.ram, n.store)
  {
    hide RollbackCandidate;
    if ram.ready || ram.report.outcome == Applying {
      RollbackAgrees(ram, store);
      RollbackRefused(ram, store);
    }
  }

  lemma RollbackRefused(ram: Ram, store: Store)
    ensures var n := RollbackCandidate(ram, store); n.reply.Refused? ==> n == Next(ram, store, n.reply)
  {
  }

  lemma BootAgrees(store: Store, loads: bool)
    requires StoreOk(store) && BootSelect(RESET, store, loads).reply != Value(0)
    ensures var n := BootSelect(RESET, store, loads); Agrees(n.ram, n.store)
  {
  }

  /** No event of the run activates live on top of a running candidate. */
  predicate Orderly(w: World, events: seq<Event>)
    decreases |events|
  {
    events == [] || (
      && (w.up && events[0].action.Firmware? ==> !Reissues(w.ram, events[0].action.call))
      && Orderly(Step(w, events[0]), events[1..]))
  }

  lemma StepAgrees(w: World, e: Event)
    requires WorldOk(w) && (w.up ==> Agrees(w.ram, w.store))
    requires w.up && e.action.Firmware? ==> !Reissues(w.ram, e.action.call)
    ensures Step(w, e).up ==> Agrees(Step(w, e).ram, Step(w, e).store)
  {
    hide FirmwareStep, ReadyStep, FailedStep, BootSelect, Agrees, Base, StoreOk, TrialsOnce;
    match e.action {
      case Firmware(call) =>
        if w.up {
          CallAgrees(w.ram, w.store, call);
        }
      case CandidateReady =>
        if w.up {
          ReadyAgrees(w.ram, w.store);
        }
      case CandidateFailed =>
        if w.up {
          FailedAgrees(w.ram, w.store);
        }
      case Boot(loads) =>
        if BootSelect(RESET, w.store, loads).reply != Value(0) {
          BootAgrees(w.store, loads);
        }
    }
  }

  /** In every orderly run, whenever the machine is up and no candidate runs, memory names the
      durable active image, and the staged slot is never the active one. */
  lemma {:induction false} RunAgrees(w: World, events: seq<Event>)
    requires WorldOk(w) && (w.up ==> Agrees(w.ram, w.store)) && Orderly(w, events)
    ensures var end := Run(w, events); end.up ==> Agrees(end.ram, end.store)
    decreases |events|
  {
    hide Step, WorldOk, Agrees, Reissues;
    if events != [] {
      StepKeeps(w, events[0]);
      StepAgrees(w, events[0]);
      RunAgrees(Step(w, events[0]), events[1..]);
    }
  }

  // ---------- The exclusion is needed ----------

  const SOME_DIGEST: Digest := [1] + Zeros(31)
  const SOME_BUNDLE := Bundle(Some(Verified(2, SOME_DIGEST, 64)), Some(Manifest(2, 1, 0)), true, true, true)

  function Say(call: Call): Event {
    Happens(Firmware(call))
  }

  /** Stage, seal and start a live candidate. */
  const TO_RUNNING: seq<Event> := [
    Happens(Boot(true)), Say(Register(1, 64, true)), Say(Begin(TAG + 1, 64, 2, TRUSTY)), Say(Write(TAG + 1, 0, 64)),
    Say(Seal(TAG + 1, SOME_BUNDLE)), Say(Activate(TAG + 1, Live)), Happens(CandidateReady)]

  const UPLOADING := RESET.(token := 1, window := 64, report := Report(Staged, 2, TRUSTY, 2), revision := 1,
                            stage := NO_STAGE.(length := 64, generation := 2, component := TRUSTY, slot := 2))
  const UPLOADED := UPLOADING.(stage := UPLOADING.stage.(written := 64, digest := SOME_DIGEST, imageLength := 64,
                                                         closed := true))
  const RUNNING := UPLOADED.(report := Report(Applying, 2, TRUSTY, 2), ready := true, active := Image(2, 2),
                             transport := 2, revision := 3)

  function Up(ram: Ram): World {
    World(ram, Blank, true, [])
  }

  const REGISTERED := RESET.(token := 1, window := 64)
  const WRITTEN := UPLOADING.(stage := UPLOADING.stage.(written := 64))
  const APPLYING := UPLOADED.(report := Report(Applying, 2, TRUSTY, 2), revision := 2)

  lemma Uploads()
    ensures Step(START, Happens(Boot(true))) == Up(RESET)
    ensures Step(Up(RESET), Say(Register(1, 64, true))) == Up(REGISTERED)
    ensures Step(Up(REGISTERED), Say(Begin(TAG + 1, 64, 2, TRUSTY))) == Up(UPLOADING)
    ensures Step(Up(UPLOADING), Say(Write(TAG + 1, 0, 64))) == Up(WRITTEN)
  {
  }

  lemma Seals()
    ensures Step(Up(WRITTEN), Say(Seal(TAG + 1, SOME_BUNDLE))) == Up(UPLOADED)
  {
    assert SOME_DIGEST[0] == 1 && Zeros(32)[0] == 0;
    assert SealStep(WRITTEN, Blank, SOME_BUNDLE).0 == UPLOADED;
  }

  lemma Starts()
    ensures Step(Up(UPLOADED), Say(Activate(TAG + 1, Live))) == Up(APPLYING)
    ensures Step(Up(APPLYING), Happens(CandidateReady)) == Up(RUNNING)
  {
  }

  lemma RunStep(w: World, e: seq<Event>, i: nat)
    requires i < |e|
    ensures Run(w, e[i..]) == Run(Step(w, e[i]), e[i + 1..])
  {
    hide Step;
    assert e[i..][1..] == e[i + 1..];
  }

  lemma Reaches()
    ensures Run(START, TO_RUNNING) == Up(RUNNING)
  {
    hide Step;
    Uploads();
    Seals();
    Starts();
    var e := TO_RUNNING;
    assert e[0..] == e && e[7..] == [];
    RunStep(START, e, 0);
    RunStep(Up(RESET), e, 1);
    RunStep(Up(REGISTERED), e, 2);
    RunStep(Up(UPLOADING), e, 3);
    RunStep(Up(WRITTEN), e, 4);
    RunStep(Up(UPLOADED), e, 5);
    RunStep(Up(APPLYING), e, 6);
  }

  /** A reachable state from which a second live activation followed by a rollback leaves memory
      naming an image that is not the durable one. */
  lemma ReissueDisagrees()
    ensures var w := Run(START, TO_RUNNING);
      && w.up && Agrees(w.ram, w.store) && Reissues(w.ram, Activate(TAG + 1, Live))
      && var end := Step(Step(w, Say(Activate(TAG + 1, Live))), Happens(CandidateFailed));
         end.up && !end.ram.ready && end.ram.report.outcome == RolledBack && !ActiveIsDurable(end.ram, end.store)
  {
    hide Run;
    Reaches();
  }

  // ---------- Commits without a call ----------

  /** Nothing but the given candidate is pending, and there is room for another revision. */
  predicate Accepts(ram: Ram, store: Store) {
    && Revision(store) < MAX_U64
    && (Durable(store).pending.None? || Durable(store).pending == Some(Candidate(ram)))
  }

  /** A candidate that reports ready becomes durable at once, no call resolving it, exactly when the flag of
      a trial boot is set; until then it waits. */
  lemma ReadyCommits(ram: Ram, store: Store)
    requires Base(ram, store) && ram.report.outcome == Applying && ram.stage.slot != 0
    ensures var n := ReadyStep(ram, store);
      && (n.store != store <==> ram.bootTrial && Accepts(ram, store))
      && (n.store != store ==> Durable(n.store).active == Candidate(ram) && Durable(n.store).phase == Idle)
  {
  }

  /** The flag is cleared when the durable generation rises, and by nothing else but a restart; above all,
      not by a rollback. */
  lemma CallFlag(ram: Ram, store: Store, call: Call)
    requires Base(ram, store)
    ensures var n := FirmwareStep(ram, store, call);
      n.ram.bootTrial <==> ram.bootTrial && Generation(n.store) == Generation(store)
  {
  }

  lemma ReadyFlag(ram: Ram, store: Store)
    requires Base(ram, store)
    ensures var n := ReadyStep(ram, store);
      n.ram.bootTrial <==> ram.bootTrial && Generation(n.store) == Generation(store)
  {
  }

  lemma FailedFlag(ram: Ram, store: Store)
    requires Base(ram, store)
    ensures var n := FailedStep(ram, store);
      n.ram.bootTrial <==> ram.bootTrial && Generation(n.store) == Generation(store)
  {
  }

  /** A boot sets the flag exactly when it runs a candidate. */
  lemma BootFlag(store: Store, loads: bool)
    requires StoreOk(store)
    ensures var n := BootSelect(RESET, store, loads);
      n.reply != Value(0) ==> (n.ram.bootTrial <==> TrialBoot(Boot(loads), n.reply))
  {
  }

  /** The event boots a candidate. */
  predicate BootsTrial(w: World, e: Event) {
    !w.up && e.Happens? && e.action.Boot? && TrialBoot(e.action, Effect(w.ram, w.store, e.action).reply)
  }

  lemma StepFlag(w: World, e: Event)
    requires WorldOk(w) && Step(w, e).up
    ensures var after := Step(w, e);
      after.ram.bootTrial <==>
        if w.up then w.ram.bootTrial && Generation(after.store) == Generation(w.store) else BootsTrial(w, e)
  {
    hide FirmwareStep, ReadyStep, FailedStep, BootSelect, Base, StoreOk, TrialsOnce, Generation;
    if w.up && Enabled(w, e.action) {
      match e.action {
        case Firmware(call) => CallFlag(w.ram, w.store, call);
        case CandidateReady => ReadyFlag(w.ram, w.store);
        case CandidateFailed => FailedFlag(w.ram, w.store);
      }
    } else if e.action.Boot? {
      BootFlag(w.store, e.action.loads);
    }
  }

  /** Event `k` booted a candidate, the machine stayed up since, and nothing became durable since. */
  ghost predicate OpenSince(w: World, events: seq<Event>, k: nat) {
    && k < |events| && BootsTrial(Run(w, events[..k]), events[k])
    && (forall j :: k < j <= |events| ==> Run(w, events[..j]).up)
    && Generation(Run(w, events).store) == Generation(Run(w, events[..k + 1]).store)
  }

  ghost predicate TrialOpen(w: World, events: seq<Event>) {
    exists k: nat :: OpenSince(w, events, k)
  }

  lemma {:induction false} RunLast(w: World, events: seq<Event>)
    requires events != []
    ensures var n := |events| - 1; Run(w, events) == Step(Run(w, events[..n]), events[n])
    decreases |events|
  {
    hide Step;
    var n := |events| - 1;
    if n > 0 {
      RunLast(Step(w, events[0]), events[1..]);
      assert events[1..][..n - 1] == events[..n][1..];
    }
  }

  lemma OpenLonger(w: World, events: seq<Event>, k: nat)
    requires events != [] && k < |events| - 1 && WorldOk(w)
    requires var n := |events| - 1;
      Run(w, events).up && Generation(Run(w, events).store) == Generation(Run(w, events[..n]).store)
    ensures OpenSince(w, events[..|events| - 1], k) ==> OpenSince(w, events, k)
  {
    hide Run, BootsTrial, Generation, WorldOk;
    var n := |events| - 1;
    var before := events[..n];
    assert before[..k] == events[..k] && before[..k + 1] == events[..k + 1] && before[k] == events[k];
    if OpenSince(w, before, k) {
      forall j | k < j <= |events| ensures Run(w, events[..j]).up {
        if j <= n {
          assert before[..j] == events[..j];
        } else {
          assert events[..j] == events;
        }
      }
    }
  }

  /** Nothing became durable in the last step either. */
  lemma OpenGeneration(w: World, events: seq<Event>, k: nat)
    requires events != [] && k < |events| - 1 && OpenSince(w, events, k) && WorldOk(w)
    ensures var n := |events| - 1; Generation(Run(w, events).store) == Generation(Run(w, events[..n]).store)
  {
    hide Run, BootsTrial, Generation, WorldOk, Step;
    var n := |events| - 1;
    GenerationsBetween(w, events[..n], k + 1);
    assert events[..n][..k + 1] == events[..k + 1];
    GenerationsBetween(w, events, n);
  }

  lemma OpenShorter(w: World, events: seq<Event>, k: nat)
    requires events != [] && k < |events| - 1 && OpenSince(w, events, k)
    requires Generation(Run(w, events).store) == Generation(Run(w, events[..|events| - 1]).store)
    ensures OpenSince(w, events[..|events| - 1], k) && Run(w, events[..|events| - 1]).up
  {
    hide Run, BootsTrial, Generation;
    var before := events[..|events| - 1];
    assert before[..k] == events[..k] && before[..k + 1] == events[..k + 1] && before[k] == events[k];
    forall j | k < j <= |before| ensures Run(w, before[..j]).up {
      assert before[..j] == events[..j];
    }
  }

  lemma {:induction false} GenerationsBetween(w: World, events: seq<Event>, k: nat)
    requires WorldOk(w) && k <= |events|
    ensures Generation(Run(w, events[..k]).store) <= Generation(Run(w, events).store)
    decreases |events|
  {
    hide Run, Step, Generation, WorldOk;
    if k == |events| {
      assert events[..k] == events;
    } else {
      var n := |events| - 1;
      GenerationsBetween(w, events[..n], k);
      assert events[..n][..k] == events[..k];
      RunKeeps(w, events[..n]);
      StepKeeps(Run(w, events[..n]), events[n]);
      RunLast(w, events);
    }
  }

  /** In every run the flag tells exactly this: the machine came up with a candidate, and nothing became
      durable since. A rollback does not end that. */
  lemma {:induction false} RunFlag(w: World, events: seq<Event>)
    requires WorldOk(w) && !w.up && Run(w, events).up
    ensures Run(w, events).ram.bootTrial <==> TrialOpen(w, events)
    decreases |events|
  {
    hide Step, WorldOk, Generation, BootsTrial, OpenSince;
    var n := |events| - 1;
    var before := Run(w, events[..n]);
    RunKeeps(w, events[..n]);
    RunLast(w, events);
    StepFlag(before, events[n]);
    if before.up {
      RunFlag(w, events[..n]);
      if k: nat :| OpenSince(w, events, k) {
        FlagSince(w, events, k);
        OpenGeneration(w, events, k);
        OpenShorter(w, events, k);
      }
      if Generation(Run(w, events).store) == Generation(before.store) && TrialOpen(w, events[..n]) {
        var k: nat :| OpenSince(w, events[..n], k);
        SinceBefore(w, events[..n], k);
        OpenLonger(w, events, k);
      }
    } else {
      FlagNow(w, events);
      if k: nat :| OpenSince(w, events, k) && k < n {
        OpenGeneration(w, events, k);
        OpenShorter(w, events, k);
      }
      if k: nat :| OpenSince(w, events, k) {
        SinceBefore(w, events, k);
      }
    }
  }

  lemma SinceBefore(w: World, events: seq<Event>, k: nat)
    requires OpenSince(w, events, k)
    ensures k < |events| && BootsTrial(Run(w, events[..k]), events[k])
  {
  }

  /** A machine that is up does not boot. */
  lemma FlagSince(w: World, events: seq<Event>, k: nat)
    requires OpenSince(w, events, k) && Run(w, events[..|events| - 1]).up
    ensures k < |events| - 1
  {
    hide Run;
  }

  lemma FlagNow(w: World, events: seq<Event>)
    requires events != [] && Run(w, events).up
    ensures var n := |events| - 1; BootsTrial(Run(w, events[..n]), events[n]) ==> OpenSince(w, events, n)
  {
    hide Run, BootsTrial, Generation;
    var n := |events| - 1;
    assert events[..n + 1] == events;
  }

  // A candidate is tried at boot and fails; another is then activated live.

  const SOME_IDENTITY := Identity(B, 2, SOME_DIGEST, 64)

  function Durably(revision: U64, phase: Phase, active: Identity, pending: Option<Identity>): Store {
    Holds(State(revision, phase, active, pending))
  }

  const AWAITING := UPLOADED.(report := Report(AwaitingReboot, 2, TRUSTY, 2), revision := 2)
  const SELECTED := Durably(2, Pending, INITIAL_IDENTITY, Some(SOME_IDENTITY))
  const TRIED := Durably(3, Trial, INITIAL_IDENTITY, Some(SOME_IDENTITY))
  const DROPPED := Durably(4, Idle, INITIAL_IDENTITY, None)
  const TRYING := RESET.(report := Report(Applying, 2, TRUSTY, 2), bootTrial := true,
                         stage := NO_STAGE.(generation := 2, slot := 2, digest := SOME_DIGEST, imageLength := 64,
                                            closed := true))
  const BACK := TRYING.(report := Report(RolledBack, 2, TRUSTY, 2), revision := 1, transport := 2,
                        stage := NO_STAGE.(generation := 2, digest := SOME_DIGEST, imageLength := 64))
  const BOUND := BACK.(token := 1, window := 64)
  const AGAIN := BOUND.(report := Report(Staged, 2, TRUSTY, 2), revision := 2,
                        stage := NO_STAGE.(length := 64, generation := 2, component := TRUSTY, slot := 2))
  const FULL := AGAIN.(stage := AGAIN.stage.(written := 64))
  const SEALED := FULL.(stage := FULL.stage.(digest := SOME_DIGEST, imageLength := 64, closed := true))
  const LIVE_AGAIN := SEALED.(report := Report(Applying, 2, TRUSTY, 2), revision := 3)

  lemma TrialAwaits()
    ensures Step(Up(UPLOADED), Say(Activate(TAG + 1, OnReboot))) == World(AWAITING, SELECTED, true, [])
    ensures Step(World(AWAITING, SELECTED, true, []), PowerFails(CandidateReady, Kept)) ==
            World(RESET, SELECTED, false, [])
  {
    assert SOME_DIGEST[0] == 1 && Zeros(32)[0] == 0;
  }

  lemma TrialFails()
    ensures Step(World(RESET, SELECTED, false, []), Happens(Boot(true))) == World(TRYING, TRIED, true, [2])
    ensures Step(World(TRYING, TRIED, true, [2]), Happens(CandidateFailed)) == World(BACK, DROPPED, true, [2])
  {
    assert SOME_DIGEST[0] == 1 && Zeros(32)[0] == 0;
  }

  lemma BindsAgain()
    ensures Step(World(BACK, DROPPED, true, [2]), Say(Register(1, 64, true))) == World(BOUND, DROPPED, true, [2])
  {
  }

  lemma BeginsAgain()
    ensures Step(World(BOUND, DROPPED, true, [2]), Say(Begin(TAG + 1, 64, 2, TRUSTY))) ==
            World(AGAIN, DROPPED, true, [2])
  {
    assert BeginStep(BOUND, 64, 2, TRUSTY).0 == AGAIN;
  }

  lemma WritesAll(ram: Ram, n: nat)
    requires ram.stage.length == n > 0 && ram.stage.written == 0 && !ram.stage.closed && n <= ram.window
    ensures WriteStep(ram, 0, n).0 == ram.(stage := ram.stage.(written := n))
  {
  }

  lemma WritesAgain()
    ensures Step(World(AGAIN, DROPPED, true, [2]), Say(Write(TAG + 1, 0, 64))) == World(FULL, DROPPED, true, [2])
  {
    assert AGAIN.token == 1 && AGAIN.window == 64 && AGAIN.stage.length == 64 && AGAIN.stage.written == 0;
    WritesAll(AGAIN, 64);
  }

  lemma StartsAgain()
    ensures Step(World(SEALED, DROPPED, true, [2]), Say(Activate(TAG + 1, Live))) ==
            World(LIVE_AGAIN, DROPPED, true, [2])
  {
    assert ActivateStep(SEALED, DROPPED, Live).ram == LIVE_AGAIN.(action := 2);
  }

  lemma SealsAgain()
    ensures Step(World(FULL, DROPPED, true, [2]), Say(Seal(TAG + 1, SOME_BUNDLE))) == World(SEALED, DROPPED, true, [2])
  {
    assert SOME_DIGEST[0] == 1 && Zeros(32)[0] == 0;
    assert SealStep(FULL, DROPPED, SOME_BUNDLE).0 == SEALED;
  }

  const TO_STALE: seq<Event> := [
    Happens(Boot(true)), Say(Register(1, 64, true)), Say(Begin(TAG + 1, 64, 2, TRUSTY)), Say(Write(TAG + 1, 0, 64)),
    Say(Seal(TAG + 1, SOME_BUNDLE)), Say(Activate(TAG + 1, OnReboot)), PowerFails(CandidateReady, Kept),
    Happens(Boot(true)), Happens(CandidateFailed), Say(Register(1, 64, true)), Say(Begin(TAG + 1, 64, 2, TRUSTY)),
    Say(Write(TAG + 1, 0, 64)), Say(Seal(TAG + 1, SOME_BUNDLE)), Say(Activate(TAG + 1, Live))]

  lemma ReachesTrial()
    ensures Run(START, TO_STALE) == Run(World(BACK, DROPPED, true, [2]), TO_STALE[9..])
  {
    hide Step;
    Uploads();
    Seals();
    TrialAwaits();
    TrialFails();
    var e := TO_STALE;
    assert e[0..] == e;
    RunStep(START, e, 0);
    RunStep(Up(RESET), e, 1);
    RunStep(Up(REGISTERED), e, 2);
    RunStep(Up(UPLOADING), e, 3);
    RunStep(Up(WRITTEN), e, 4);
    RunStep(Up(UPLOADED), e, 5);
    RunStep(World(AWAITING, SELECTED, true, []), e, 6);
    RunStep(World(RESET, SELECTED, false, []), e, 7);
    RunStep(World(TRYING, TRIED, true, [2]), e, 8);
  }

  lemma ReachesStale()
    ensures Run(START, TO_STALE) == World(LIVE_AGAIN, DROPPED, true, [2])
  {
    hide Step;
    ReachesTrial();
    BindsAgain();
    BeginsAgain();
    WritesAgain();
    StartsAgain();
    SealsAgain();
    var e := TO_STALE;
    assert e[14..] == [];
    RunStep(World(BACK, DROPPED, true, [2]), e, 9);
    RunStep(World(BOUND, DROPPED, true, [2]), e, 10);
    RunStep(World(AGAIN, DROPPED, true, [2]), e, 11);
    RunStep(World(FULL, DROPPED, true, [2]), e, 12);
    RunStep(World(SEALED, DROPPED, true, [2]), e, 13);
  }

  /** A reachable state in which no trial is under way any more and a candidate was activated live; it
      becomes durable when it reports ready, although no call resolves it. */
  lemma StaleTrialCommits()
    ensures var w := Run(START, TO_STALE);
      && w.up && w.ram.report.outcome == Applying && Durable(w.store).phase == Idle && Generation(w.store) == 1
      && Generation(Step(w, Happens(CandidateReady)).store) == 2
  {
    hide Run;
    ReachesStale();
    assert SOME_DIGEST[0] == 1 && Zeros(32)[0] == 0;
  }
}
