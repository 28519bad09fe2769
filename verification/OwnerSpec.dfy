/** The secure-firmware owner as a transition system: its memory, the calls it answers, the
    candidate notifications, and boot selection, over the durable store. What bundle
    verification, installation and image loading decide is part of the events. */
module OwnerSpec {
  import opened Octets
  import opened Records
  import opened Persistent

  const TAG := 0x8000_0000_0000_0000
  const WRAP := 0x1_0000_0000_0000_0000
  const TRUSTY := 1
  const TRIAL_BIT := 256

  datatype Status = Busy | InvalidHandle | InvalidArgs | AccessDenied
  datatype Reply = Value(value: int) | Refused(status: Status)

  /** What the owner last reported: idle, staged, applying, pending a reboot, committed,
      rolled back, or in need of recovery. */
  datatype Outcome = Quiet | Staged | Applying | AwaitingReboot | Committed | RolledBack | RecoveryRequired

  datatype Report = Report(outcome: Outcome, generation: nat, component: nat, slot: nat)

  /** The image being uploaded; slot 0 means none. */
  datatype Stage = Stage(length: nat, generation: U64, component: nat, written: nat, closed: bool, slot: nat,
                         digest: Digest, imageLength: U64)

  const NO_STAGE := Stage(0, 0, 0, 0, false, 0, Zeros(32), 0)

  /** A runtime image: its generation and the number of its slot. */
  datatype Image = Image(generation: U64, slot: nat)

  datatype Ram = Ram(
    token: nat, window: nat, stage: Stage, active: Image, source: Image,
    report: Report, revision: nat, transport: nat, action: nat, ready: bool, bootTrial: bool)

  const RESET := Ram(0, 0, NO_STAGE, Image(1, 1), Image(1, 1), Report(Quiet, 0, 0, 1), 0, 1, 0, false, false)

  /** What the foreign checks say about the uploaded bundle. */
  datatype Verified = Verified(generation: U64, digest: Digest, length: U64)
  datatype Manifest = Manifest(generation: nat, abi: nat, fixture: nat)
  datatype Bundle = Bundle(authentic: Option<Verified>, manifest: Option<Manifest>, installs: bool, reloads: bool,
                           loads: bool)

  datatype Mode = Live | OnReboot
  datatype Disposition = Commit | Rollback

  datatype Call =
    | Register(newToken: nat, length: nat, readable: bool)
    | Unregister(handle: nat)
    | Begin(owner: nat, size: nat, generation: U64, component: nat)
    | Write(owner: nat, offset: nat, count: nat)
    | Seal(owner: nat, bundle: Bundle)
    | Abort(owner: nat)
    | Activate(owner: nat, mode: Mode)
    | Resolve(owner: nat, disposition: Disposition)

  /** Memory and store after a step, and what the caller is told. */
  datatype Next = Next(ram: Ram, store: Store, reply: Reply)

  function Bump(n: nat): nat {
    (n + 1) % WRAP
  }

  /** The transport generation skips zero. */
  function Rebind(n: nat): nat {
    if Bump(n) < 1 then 1 else Bump(n)
  }

  predicate ValidOwner(ram: Ram, owner: nat) {
    ram.token != 0 && owner == ram.token + TAG
  }

  function Cleared(ram: Ram): Ram {
    ram.(stage := NO_STAGE, action := 0)
  }

  function Candidate(ram: Ram): Identity {
    Identity(if ram.stage.slot == 1 then A else B, ram.stage.generation, ram.stage.digest, ram.stage.imageLength)
  }

  function Told(ram: Ram, outcome: Outcome, slot: nat): Ram {
    ram.(report := Report(outcome, ram.stage.generation, TRUSTY, slot), revision := Bump(ram.revision))
  }

  /** A save with power to spare. */
  function Saved(store: Store, state: State): (Store, Option<State>) {
    if state.Valid() && state.revision < MAX_U64 then (Holds(Advanced(state)), Some(Advanced(state))) else (store, None)
  }

  // ---------- Calls ----------

  function RegisterStep(ram: Ram, newToken: nat, length: nat, readable: bool): (Ram, Reply) {
    if !readable then (ram, Refused(InvalidHandle))
    else if ram.token != 0 && ram.token != newToken then (ram, Refused(Busy))
    else (ram.(token := newToken, window := length), Value(newToken + TAG))
  }

  function UnregisterStep(ram: Ram, handle: nat): (Ram, Reply) {
    if !ValidOwner(ram, handle) then (ram, Refused(InvalidHandle))
    else if ram.ready || ram.report.outcome == Applying then (ram, Refused(Busy))
    else (Cleared(ram).(token := 0, window := 0), Value(0))
  }

  function BeginStep(ram: Ram, size: nat, generation: U64, component: nat): (Ram, Reply) {
    if component == TRUSTY && generation > ram.active.generation && !ram.ready && ram.report.outcome != Applying then
      var slot := if ram.active.slot == 1 then 2 else 1;
      (Cleared(ram).(stage := NO_STAGE.(length := size, generation := generation, component := component, slot := slot),
                     report := Report(Staged, generation, component, slot), revision := Bump(ram.revision)), Value(0))
    else (ram, Refused(InvalidArgs))
  }

  function WriteStep(ram: Ram, offset: nat, count: nat): (Ram, Reply) {
    if ram.stage.length != 0 && !ram.stage.closed && offset == ram.stage.written && count <= ram.window
       && offset + count <= ram.stage.length then
      (ram.(stage := ram.stage.(written := ram.stage.written + count)), Value(ram.stage.written + count))
    else (ram, Refused(InvalidArgs))
  }

  /** Verification refuses generations that are not newer than the active one. */
  function Verify(bundle: Bundle, active: U64): Option<Verified> {
    if bundle.authentic.Some? && bundle.authentic.value.generation > active then bundle.authentic else None
  }

  /** The identity that installing beside `state.active` gives. */
  function Install(state: State, bundle: Bundle, v: Verified): Option<Identity> {
    var identity := Identity(Other(state.active.slot), v.generation, v.digest, v.length);
    if state.phase == Idle && state.pending.None? && bundle.installs && identity.Valid(false) then Some(identity)
    else None
  }

  function SealInstall(ram: Ram, bundle: Bundle, v: Verified, state: State): (Ram, Reply) {
    if state.active.generation != ram.active.generation || SlotNumber(state.active.slot) != ram.active.slot then
      (Told(ram, RecoveryRequired, 0), Refused(AccessDenied))
    else
      var identity := Install(state, bundle, v);
      if identity.None? || !bundle.reloads then (ram, Refused(AccessDenied))
      else if !bundle.loads then (ram, Refused(InvalidArgs))
      else (ram.(stage := ram.stage.(digest := identity.value.digest, imageLength := identity.value.length,
                                     closed := true)),
            Value(ram.stage.generation))
  }

  function SealStep(ram: Ram, store: Store, bundle: Bundle): (Ram, Reply) {
    var v := Verify(bundle, ram.active.generation);
    if ram.stage.length == 0 || ram.stage.written != ram.stage.length then (ram, Refused(InvalidArgs))
    else if v.None? || v.value.generation != ram.stage.generation then (ram, Refused(AccessDenied))
    else if bundle.manifest.None? then (ram, Refused(InvalidArgs))
    else if bundle.manifest.value.generation != v.value.generation || bundle.manifest.value.abi != 1 ||
        bundle.manifest.value.fixture > 3 then
      (Told(ram, RolledBack, ram.stage.slot), Refused(AccessDenied))
    else
      var state := Load(store);
      if state.Err? then (ram, Refused(AccessDenied)) else SealInstall(ram, bundle, v.value, state.value)
  }

  function AbortStep(ram: Ram): (Ram, Reply) {
    if ram.ready then (ram, Value(0))
    else if ram.stage.length != 0 && ram.report.outcome != Committed && ram.report.outcome != AwaitingReboot then
      (Cleared(Told(ram, RolledBack, ram.stage.slot)), Value(0))
    else (Cleared(ram), Value(0))
  }

  function ActivateStep(ram: Ram, store: Store, mode: Mode): Next {
    if !ram.stage.closed then Next(ram, store, Refused(InvalidArgs))
    else if mode == Live then
      Next(Told(ram, Applying, ram.stage.slot).(source := ram.active, ready := false, action := ram.stage.slot),
           store, Value(ram.stage.generation))
    else
      var state := Load(store);
      if state.Err? then Next(ram, store, Refused(AccessDenied))
      else
        var saved := Saved(store, state.value.(phase := Pending, pending := Some(Candidate(ram))));
        if saved.1.None? then Next(ram, saved.0, Refused(AccessDenied))
        else Next(Told(ram, AwaitingReboot, ram.stage.slot), saved.0, Value(ram.stage.generation))
  }

  // ---------- Commit and rollback ----------

  /** What the two endings of a trial have in common. */
  function Ended(ram: Ram): Ram {
    ram.(ready := false, stage := ram.stage.(length := 0, written := 0, closed := false, slot := 0))
  }

  /** Memory once the running candidate is durable. */
  function Settled(ram: Ram): Ram {
    Ended(ram).(report := Report(Committed, ram.active.generation, TRUSTY, ram.active.slot),
                revision := Bump(ram.revision), bootTrial := false, action := 3)
  }

  function CommitCandidate(ram: Ram, store: Store): Next {
    var state := Load(store);
    if state.Err? then Next(ram, store, Refused(AccessDenied))
    else if state.value.pending.Some? && state.value.pending.value != Candidate(ram) then
      Next(Told(ram, RecoveryRequired, ram.source.slot), store, Refused(AccessDenied))
    else
      var saved := Saved(store, State(state.value.revision, Idle, Candidate(ram), None));
      if saved.1.None? then Next(ram, saved.0, Refused(AccessDenied))
      else Next(Settled(ram), saved.0, Value(ram.active.generation))
  }

  function Restored(ram: Ram): Ram {
    Ended(Told(ram, RolledBack, ram.stage.slot)).(active := ram.source, transport := Rebind(ram.transport),
                                                  action := 3 + ram.source.slot)
  }

  function RollbackCandidate(ram: Ram, store: Store): Next {
    var state := Load(store);
    if state.Err? then Next(ram, store, Refused(AccessDenied))
    else if state.value.phase == Idle then Next(Restored(ram), store, Value(ram.source.generation))
    else
      var saved := Saved(store, state.value.(phase := Idle, pending := None));
      if saved.1.None? then Next(ram, saved.0, Refused(AccessDenied))
      else Next(Restored(ram), saved.0, Value(ram.source.generation))
  }

  function ResolveStep(ram: Ram, store: Store, disposition: Disposition): Next {
    if ram.ready && ram.report.outcome == Applying then
      if disposition == Commit then CommitCandidate(ram, store) else RollbackCandidate(ram, store)
    else Next(ram, store, Refused(InvalidArgs))
  }

  function OwnerOf(call: Call): nat
    requires !call.Register? && !call.Unregister?
  {
    call.owner
  }

  function CallStep(ram: Ram, store: Store, call: Call): Next {
    if call.Register? then
      var (r, reply) := RegisterStep(ram, call.newToken, call.length, call.readable); Next(r, store, reply)
    else if call.Unregister? then var (r, reply) := UnregisterStep(ram, call.handle); Next(r, store, reply)
    else if !ValidOwner(ram, OwnerOf(call)) then Next(ram, store, Refused(InvalidHandle))
    else match call
      case Begin(_, size, generation, component) =>
        var (r, reply) := BeginStep(ram, size, generation, component); Next(r, store, reply)
      case Write(_, offset, count) => var (r, reply) := WriteStep(ram, offset, count); Next(r, store, reply)
      case Seal(_, bundle) => var (r, reply) := SealStep(ram, store, bundle); Next(r, store, reply)
      case Abort(_) => var (r, reply) := AbortStep(ram); Next(r, store, reply)
      case Activate(_, mode) => ActivateStep(ram, store, mode)
      case Resolve(_, disposition) => ResolveStep(ram, store, disposition)
  }

  /** The activation action is handed to the caller once. */
  function FirmwareStep(ram: Ram, store: Store, call: Call): Next {
    var next := CallStep(ram, store, call);
    next.(ram := next.ram.(action := 0))
  }

  // ---------- Notifications and boot ----------

  function ReadyStep(ram: Ram, store: Store): Next {
    if ram.report.outcome != Applying || ram.stage.slot == 0 then Next(ram, store, Value(0))
    else
      var started := ram.(ready := true, active := Image(ram.stage.generation, ram.stage.slot),
                          transport := Rebind(ram.transport), revision := Bump(ram.revision));
      if !ram.bootTrial then Next(started, store, Value(started.active.generation))
      else
        var committed := CommitCandidate(started, store);
        committed.(reply := if committed.reply.Refused? then Value(0) else Value(committed.ram.active.generation))
  }

  function FailedStep(ram: Ram, store: Store): Next {
    if !ram.ready && ram.report.outcome != Applying then Next(ram, store, Value(0))
    else
      var back := RollbackCandidate(ram, store);
      if back.reply.Refused? then Next(Told(back.ram, RecoveryRequired, ram.source.slot), back.store, Value(0))
      else Next(back.ram.(action := 0), back.store, Value(back.ram.action))
  }

  /** Loading the selected slot; the built-in initial image needs none. */
  function Selected(ram: Ram, store: Store, state: State, identity: Identity, trial: bool, loads: bool): (n: Next)
    ensures n.store == store
  {
    if identity != INITIAL_IDENTITY && !loads then Next(ram, store, Value(0))
    else
      var slot := SlotNumber(identity.slot);
      var active := ram.(active := Image(state.active.generation, SlotNumber(state.active.slot)));
      if !trial then Next(active, store, Value(slot))
      else Next(active.(stage := active.stage.(generation := identity.generation, slot := slot,
                                               digest := identity.digest,
                                               imageLength := identity.length, closed := true), bootTrial := true),
                store, Value(slot + TRIAL_BIT))
  }

  function BootPending(ram: Ram, store: Store, state: State, candidate: Identity, loads: bool): Next {
    var saved := Saved(store, State(state.revision, Trial, state.active, Some(candidate)));
    if saved.1.None? then Next(ram, saved.0, Value(0))
    else
      var applying := ram.(report := Report(Applying, candidate.generation, TRUSTY, SlotNumber(candidate.slot)),
                           source := Image(state.active.generation, SlotNumber(state.active.slot)));
      Selected(applying, saved.0, saved.1.value, candidate, true, loads)
  }

  function BootTrial(ram: Ram, store: Store, state: State, abandoned: Option<Identity>, loads: bool): Next {
    var saved := Saved(store, State(state.revision, Idle, state.active, None));
    if saved.1.None? then Next(ram, saved.0, Value(0))
    else
      var told := if abandoned.None? then ram
                  else ram.(report := Report(RolledBack, abandoned.value.generation, TRUSTY,
                                             SlotNumber(abandoned.value.slot)));
      Selected(told, saved.0, saved.1.value, state.active, false, loads)
  }

  function BootSelect(ram: Ram, store: Store, loads: bool): Next {
    var state := Load(store);
    if state.Err? then Next(ram, store, Value(0))
    else match (state.value.phase, state.value.pending)
      case (Trial, abandoned) => BootTrial(ram, store, state.value, abandoned, loads)
      case (Pending, Some(candidate)) => BootPending(ram, store, state.value, candidate, loads)
      case (Idle, None) => Selected(ram, store, state.value, state.value.active, false, loads)
      case _ => Next(ram, store, Value(0))
  }
}
