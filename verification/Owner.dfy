/** The secure-firmware owner as it runs: its statics updated in place by every call, over the
    disk of two record sectors. Each method is proved to take the step that `OwnerSpec` states,
    or, when power fails during its save, to leave the store as a crash of that step leaves it. */
module Owner {
  import opened Octets
  import opened Records
  import opened Persistent
  import opened OwnerSpec
  import opened OwnerRuns

  class FirmwareOwner {
    const disk: Disk
    const hash: KeyedHash
    var token: nat
    var window: nat
    var stage: Stage
    var active: Image
    var source: Image
    var report: Report
    var revision: nat
    var transport: nat
    var action: nat
    var ready: bool
    var bootTrial: bool

    ghost function View(): Ram
      reads this
    {
      Ram(token, window, stage, active, source, report, revision, transport, action, ready, bootTrial)
    }

    ghost predicate Valid()
      reads disk.bytes
    {
      Sound(hash, disk.bytes[..])
    }

    ghost function Store(): Store
      requires Valid()
      reads disk.bytes
    {
      StoreOf(hash, disk.bytes[..])
    }

    /** The statics as the image is loaded. */
    constructor (disk: Disk, hash: KeyedHash)
      ensures this.disk == disk && this.hash == hash && View() == RESET
    {
      this.disk := disk;
      this.hash := hash;
      token, window, stage := 0, 0, NO_STAGE;
      active, source := Image(1, 1), Image(1, 1);
      report := Report(Quiet, 0, 0, 1);
      revision, transport, action, ready, bootTrial := 0, 1, 0, false, false;
    }

    method LoadDurable() returns (r: Result<State>)
      requires Valid()
      ensures r == Load(Store())
    {
      hide StoreOf;
      r := LoadState(disk, hash);
    }

    /** A save of a state that carries the loaded revision: with power left it is the specified
        save; otherwise the store is what some fate of that save leaves, provided that the record
        cannot be cut off to another state. */
    method SaveDurable(state: State) returns (r: Option<State>, ghost fate: Fate)
      requires Valid() && Load(Store()).Ok? && Load(Store()).value.revision == state.revision
      modifies disk, disk.bytes
      ensures Valid() && Settles(hash, old(Store()), Saved(old(Store()), state).0, Store(), fate, disk.power)
      ensures disk.power > 0 ==> r == Saved(old(Store()), state).1 && fate == Landed
    {
      hide StoreOf, Telling, CrashImage, Encode, Decode, Sound;
      ghost var before := disk.bytes[..];
      SoundSized(hash, before);
      var saved := SaveState(disk, hash, state);
      fate := Landed;
      if state.Valid() && state.revision < MAX_U64 {
        ghost var k := Min(old(disk.power), 2 * RECORD_BYTES);
        fate := CrashFate(hash, before, state, k);
      }
      r := if saved.Ok? then Some(saved.value) else None;
    }

    // ---------- Calls that only touch memory ----------

    method ClearStage()
      modifies this
      ensures View() == Cleared(old(View()))
    {
      stage, action := NO_STAGE, 0;
    }

    method Tell(outcome: Outcome, slot: nat)
      modifies `report, `revision
      ensures View() == Told(old(View()), outcome, slot)
    {
      report := Report(outcome, stage.generation, TRUSTY, slot);
      revision := Bump(revision);
    }

    method RegisterPinned(newToken: nat, length: nat, readable: bool) returns (reply: Reply)
      modifies `token, `window
      ensures (View(), reply) == RegisterStep(old(View()), newToken, length, readable)
    {
      if !readable {
        return Refused(InvalidHandle);
      }
      if token != 0 && token != newToken {
        return Refused(Busy);
      }
      token, window := newToken, length;
      return Value(newToken + TAG);
    }

    method UnregisterPinned(handle: nat) returns (reply: Reply)
      modifies this
      ensures (View(), reply) == UnregisterStep(old(View()), handle)
    {
      if token == 0 || handle != token + TAG {
        return Refused(InvalidHandle);
      }
      if ready || report.outcome == Applying {
        return Refused(Busy);
      }
      ClearStage();
      token, window := 0, 0;
      return Value(0);
    }

    method BeginStage(size: nat, generation: U64, component: nat) returns (reply: Reply)
      modifies this
      ensures (View(), reply) == BeginStep(old(View()), size, generation, component)
    {
      if component != TRUSTY || generation <= active.generation || ready || report.outcome == Applying {
        return Refused(InvalidArgs);
      }
      ClearStage();
      stage := stage.(length := size, generation := generation, component := component,
                      slot := if active.slot == 1 then 2 else 1);
      report := Report(Staged, generation, component, stage.slot);
      revision := Bump(revision);
      return Value(0);
    }

    method WriteChunk(offset: nat, count: nat) returns (reply: Reply)
      modifies `stage
      ensures (View(), reply) == WriteStep(old(View()), offset, count)
    {
      if stage.length == 0 || stage.closed || offset != stage.written || count > window ||
          offset + count > stage.length {
        return Refused(InvalidArgs);
      }
      stage := stage.(written := stage.written + count);
      return Value(stage.written);
    }

    method AbortStage() returns (reply: Reply)
      modifies this
      ensures (View(), reply) == AbortStep(old(View()))
    {
      if ready {
        return Value(0);
      }
      if stage.length != 0 && report.outcome != Committed && report.outcome != AwaitingReboot {
        Tell(RolledBack, stage.slot);
      }
      ClearStage();
      return Value(0);
    }

    // ---------- Calls that read or save the store ----------

    method SealStage(bundle: Bundle) returns (reply: Reply)
      requires Valid()
      modifies this
      ensures (View(), reply) == SealStep(old(View()), Store(), bundle)
    {
      hide Valid, Store, Identity.Valid;
      if stage.length == 0 || stage.written != stage.length {
        return Refused(InvalidArgs);
      }
      var verified := Verify(bundle, active.generation);
      if verified.None? || verified.value.generation != stage.generation {
        return Refused(AccessDenied);
      }
      if bundle.manifest.None? {
        return Refused(InvalidArgs);
      }
      var manifest := bundle.manifest.value;
      if manifest.generation != verified.value.generation || manifest.abi != 1 || manifest.fixture > 3 {
        Tell(RolledBack, stage.slot);
        return Refused(AccessDenied);
      }
      var state := LoadDurable();
      if state.Err? {
        return Refused(AccessDenied);
      }
      if state.value.active.generation != active.generation || SlotNumber(state.value.active.slot) != active.slot {
        Tell(RecoveryRequired, 0);
        return Refused(AccessDenied);
      }
      var identity := Install(state.value, bundle, verified.value);
      if identity.None? || !bundle.reloads {
        return Refused(AccessDenied);
      }
      if !bundle.loads {
        return Refused(InvalidArgs);
      }
      stage := stage.(digest := identity.value.digest, imageLength := identity.value.length, closed := true);
      return Value(stage.generation);
    }

    method CandidateIdentity() returns (identity: Identity)
      ensures identity == Candidate(View())
    {
      identity := Identity(if stage.slot == 1 then A else B, stage.generation, stage.digest, stage.imageLength);
    }

    method ActivateStaged(mode: Mode) returns (reply: Reply, ghost fate: Fate)
      requires Valid()
      modifies this, disk, disk.bytes
      ensures Valid()
      ensures var n := ActivateStep(old(View()), old(Store()), mode);
        && Settles(hash, old(Store()), n.store, Store(), fate, disk.power)
        && (disk.power > 0 ==> View() == n.ram && reply == n.reply && fate == Landed)
    {
      hide Settles, Saved, Valid, Store, State.Valid;
      SettlesStill(hash, Store(), disk.power);
      fate := Landed;
      if !stage.closed {
        return Refused(InvalidArgs), fate;
      }
      if mode == Live {
        source, ready := active, false;
        Tell(Applying, stage.slot);
        action := stage.slot;
        return Value(stage.generation), fate;
      }
      var state := LoadDurable();
      if state.Err? {
        return Refused(AccessDenied), fate;
      }
      var candidate := CandidateIdentity();
      var saved;
      saved, fate := SaveDurable(State(state.value.revision, Pending, state.value.active, Some(candidate)));
      if saved.None? {
        return Refused(AccessDenied), fate;
      }
      Tell(AwaitingReboot, stage.slot);
      return Value(stage.generation), fate;
    }

    method EndTrial()
      modifies this
      ensures View() == Ended(old(View()))
    {
      ready := false;
      stage := stage.(length := 0, written := 0, closed := false, slot := 0);
    }

    method Commit() returns (reply: Reply, ghost fate: Fate)
      requires Valid()
      modifies this, disk, disk.bytes
      ensures Valid()
      ensures var n := CommitCandidate(old(View()), old(Store()));
        && Settles(hash, old(Store()), n.store, Store(), fate, disk.power)
        && (disk.power > 0 ==> View() == n.ram && reply == n.reply && fate == Landed)
    {
      hide Settles, Saved, Valid, Store, State.Valid, Candidate, Settled;
      SettlesStill(hash, Store(), disk.power);
      fate := Landed;
      var state := LoadDurable();
      if state.Err? {
        return Refused(AccessDenied), fate;
      }
      var candidate := CandidateIdentity();
      if state.value.pending.Some? && state.value.pending.value != candidate {
        Tell(RecoveryRequired, source.slot);
        return Refused(AccessDenied), fate;
      }
      var saved;
      saved, fate := SaveDurable(State(state.value.revision, Idle, candidate, None));
      if saved.None? {
        return Refused(AccessDenied), fate;
      }
      reply := Value(active.generation);
      FinishCommit();
    }

    method FinishCommit()
      modifies this
      ensures View() == Settled(old(View()))
    {
      report := Report(Committed, active.generation, TRUSTY, active.slot);
      revision := Bump(revision);
      EndTrial();
      bootTrial, action := false, 3;
    }

    method Rollback() returns (reply: Reply, ghost fate: Fate)
      requires Valid()
      modifies this, disk, disk.bytes
      ensures Valid()
      ensures var n := RollbackCandidate(old(View()), old(Store()));
        && Settles(hash, old(Store()), n.store, Store(), fate, disk.power)
        && (disk.power > 0 ==> View() == n.ram && reply == n.reply && fate == Landed)
    {
      hide Settles, Saved, Valid, Store, State.Valid, Restored;
      SettlesStill(hash, Store(), disk.power);
      fate := Landed;
      var state := LoadDurable();
      if state.Err? {
        return Refused(AccessDenied), fate;
      }
      if state.value.phase != Idle {
        var saved;
        saved, fate := SaveDurable(State(state.value.revision, Idle, state.value.active, None));
        if saved.None? {
          return Refused(AccessDenied), fate;
        }
      }
      reply := Value(source.generation);
      FinishRollback();
    }

    method FinishRollback()
      modifies this
      ensures View() == Restored(old(View()))
    {
      active := source;
      transport := Rebind(transport);
      Tell(RolledBack, stage.slot);
      EndTrial();
      action := 3 + source.slot;
    }

    // ---------- Dispatch, notifications and boot ----------

    method ResolveCandidate(disposition: Disposition) returns (reply: Reply, ghost fate: Fate)
      requires Valid()
      modifies this, disk, disk.bytes
      ensures Valid()
      ensures var n := ResolveStep(old(View()), old(Store()), disposition);
        && Settles(hash, old(Store()), n.store, Store(), fate, disk.power)
        && (disk.power > 0 ==> View() == n.ram && reply == n.reply && fate == Landed)
    {
      hide Settles, Saved, Valid, Store, CommitCandidate, RollbackCandidate;
      SettlesStill(hash, Store(), disk.power);
      if !ready || report.outcome != Applying {
        return Refused(InvalidArgs), Landed;
      }
      if disposition == Disposition.Commit {
        reply, fate := Commit();
      } else {
        reply, fate := Rollback();
      }
    }

    method Handle(call: Call) returns (reply: Reply, ghost fate: Fate)
      requires Valid()
      modifies this, disk, disk.bytes
      ensures Valid()
      ensures var n := CallStep(old(View()), old(Store()), call);
        && Settles(hash, old(Store()), n.store, Store(), fate, disk.power)
        && (disk.power > 0 ==> View() == n.ram && reply == n.reply && fate == Landed)
    {
      hide Settles, Saved, Valid, Store, RegisterStep, UnregisterStep, BeginStep, WriteStep, SealStep, AbortStep,
           ActivateStep, ResolveStep;
      SettlesStill(hash, Store(), disk.power);
      fate := Landed;
      if call.Register? {
        reply := RegisterPinned(call.newToken, call.length, call.readable);
        return;
      }
      if call.Unregister? {
        reply := UnregisterPinned(call.handle);
        return;
      }
      if token == 0 || OwnerOf(call) != token + TAG {
        return Refused(InvalidHandle), fate;
      }
      match call {
        case Begin(_, size, generation, component) => reply := BeginStage(size, generation, component);
        case Write(_, offset, count) => reply := WriteChunk(offset, count);
        case Seal(_, bundle) => reply := SealStage(bundle);
        case Abort(_) => reply := AbortStage();
        case Activate(_, mode) => reply, fate := ActivateStaged(mode);
        case Resolve(_, disposition) => reply, fate := ResolveCandidate(disposition);
      }
    }

    /** The register interface: the reply, and the action for the assembly owner. */
    method FirmwareCall(call: Call) returns (reply: Reply, taken: nat, ghost fate: Fate)
      requires Valid()
      modifies this, disk, disk.bytes
      ensures Valid()
      ensures var n := FirmwareStep(old(View()), old(Store()), call);
        && Settles(hash, old(Store()), n.store, Store(), fate, disk.power)
        && (disk.power > 0 ==> View() == n.ram && reply == n.reply && fate == Landed
                               && taken == CallStep(old(View()), old(Store()), call).ram.action)
    {
      hide Settles, Saved, Valid, Store, CallStep;
      SettlesStill(hash, Store(), disk.power);
      reply, fate := Handle(call);
      taken := action;
      action := 0;
    }

    method CandidateIsReady() returns (reply: Reply, ghost fate: Fate)
      requires Valid()
      modifies this, disk, disk.bytes
      ensures Valid()
      ensures var n := ReadyStep(old(View()), old(Store()));
        && Settles(hash, old(Store()), n.store, Store(), fate, disk.power)
        && (disk.power > 0 ==> View() == n.ram && reply == n.reply && fate == Landed)
    {
      hide Settles, Saved, Valid, Store, CommitCandidate;
      SettlesStill(hash, Store(), disk.power);
      fate := Landed;
      if report.outcome != Applying || stage.slot == 0 {
        return Value(0), fate;
      }
      ready := true;
      active := Image(stage.generation, stage.slot);
      transport := Rebind(transport);
      revision := Bump(revision);
      if bootTrial {
        var committed;
        committed, fate := Commit();
        if committed.Refused? {
          return Value(0), fate;
        }
      }
      return Value(active.generation), fate;
    }

    method CandidateHasFailed() returns (reply: Reply, ghost fate: Fate)
      requires Valid()
      modifies this, disk, disk.bytes
      ensures Valid()
      ensures var n := FailedStep(old(View()), old(Store()));
        && Settles(hash, old(Store()), n.store, Store(), fate, disk.power)
        && (disk.power > 0 ==> View() == n.ram && reply == n.reply && fate == Landed)
    {
      hide Settles, Saved, Valid, Store, RollbackCandidate;
      SettlesStill(hash, Store(), disk.power);
      if !ready && report.outcome != Applying {
        return Value(0), Landed;
      }
      var fallback := source.slot;
      var back;
      back, fate := Rollback();
      if back.Refused? {
        Tell(RecoveryRequired, fallback);
        return Value(0), fate;
      }
      var taken := action;
      action := 0;
      return Value(taken), fate;
    }

    /** Makes the selected image the running one, once its bytes are loaded. */
    method Select(state: State, identity: Identity, trial: bool, loads: bool, ghost store: Store) returns (reply: Reply)
      modifies this
      ensures Next(View(), store, reply) == Selected(old(View()), store, state, identity, trial, loads)
    {
      if identity != INITIAL_IDENTITY && !loads {
        return Value(0);
      }
      var slot := SlotNumber(identity.slot);
      active := Image(state.active.generation, SlotNumber(state.active.slot));
      if !trial {
        return Value(slot);
      }
      stage := stage.(generation := identity.generation, slot := slot, digest := identity.digest,
                      imageLength := identity.length, closed := true);
      bootTrial := true;
      return Value(slot + TRIAL_BIT);
    }

    /** A trial that was interrupted is abandoned before anything runs. */
    method AbandonTrial(state: State, loads: bool) returns (reply: Reply, ghost fate: Fate)
      requires Valid() && Load(Store()) == Ok(state)
      modifies this, disk, disk.bytes
      ensures Valid()
      ensures var n := BootTrial(old(View()), old(Store()), state, state.pending, loads);
        && Settles(hash, old(Store()), n.store, Store(), fate, disk.power)
        && (disk.power > 0 ==> View() == n.ram && reply == n.reply && fate == Landed)
    {
      hide Settles, Saved, Valid, Store, State.Valid, Selected;
      ghost var before := Store();
      ghost var spec := Saved(before, State(state.revision, Idle, state.active, None));
      var saved;
      saved, fate := SaveDurable(State(state.revision, Idle, state.active, None));
      if saved.None? {
        return Value(0), fate;
      }
      if state.pending.Some? {
        report := Report(RolledBack, state.pending.value.generation, TRUSTY, SlotNumber(state.pending.value.slot));
      }
      reply := Select(saved.value, state.active, false, loads, spec.0);
    }

    /** A pending candidate is selected once the record says that it is on trial. */
    method StartTrial(state: State, candidate: Identity, loads: bool) returns (reply: Reply, ghost fate: Fate)
      requires Valid() && Load(Store()) == Ok(state)
      modifies this, disk, disk.bytes
      ensures Valid()
      ensures var n := BootPending(old(View()), old(Store()), state, candidate, loads);
        && Settles(hash, old(Store()), n.store, Store(), fate, disk.power)
        && (disk.power > 0 ==> View() == n.ram && reply == n.reply && fate == Landed)
    {
      hide Settles, Saved, Valid, Store, State.Valid, Selected;
      ghost var before := Store();
      ghost var spec := Saved(before, State(state.revision, Trial, state.active, Some(candidate)));
      var saved;
      saved, fate := SaveDurable(State(state.revision, Trial, state.active, Some(candidate)));
      if saved.None? {
        return Value(0), fate;
      }
      report := Report(Applying, candidate.generation, TRUSTY, SlotNumber(candidate.slot));
      source := Image(state.active.generation, SlotNumber(state.active.slot));
      reply := Select(saved.value, candidate, true, loads, spec.0);
    }

    method BootSelection(loads: bool) returns (reply: Reply, ghost fate: Fate)
      requires Valid()
      modifies this, disk, disk.bytes
      ensures Valid()
      ensures var n := BootSelect(old(View()), old(Store()), loads);
        && Settles(hash, old(Store()), n.store, Store(), fate, disk.power)
        && (disk.power > 0 ==> View() == n.ram && reply == n.reply && fate == Landed)
    {
      hide Settles, Saved, Valid, Store, State.Valid, Selected, BootTrial, BootPending;
      SettlesStill(hash, Store(), disk.power);
      fate := Landed;
      var loaded := LoadDurable();
      if loaded.Err? {
        return Value(0), fate;
      }
      var state := loaded.value;
      if state.phase == Trial {
        reply, fate := AbandonTrial(state, loads);
        return;
      }
      if state.phase == Pending && state.pending.Some? {
        reply, fate := StartTrial(state, state.pending.value, loads);
        return;
      }
      if state.phase == Idle && state.pending.None? {
        reply := Select(state, state.active, false, loads, Store());
        return;
      }
      return Value(0), fate;
    }
  }

  /** The record that takes the store from one state to the next, if one does, cannot be cut off to
      another state. */
  ghost predicate Tells(hash: KeyedHash, before: Store, after: Store) {
    after.Holds? && after != before ==> Telling(hash, Encode(hash, after.state))
  }

  /** What is left of a step that wanted to take the store from `before` to `after`: with power to
      spare it did; without, it met one of the fates, unless its record could be cut off. */
  ghost predicate Settles(hash: KeyedHash, before: Store, after: Store, now: Store, fate: Fate, power: nat) {
    power > 0 || Tells(hash, before, after) ==> now == AfterCrash(before, after, fate)
  }

  lemma SettlesStill(hash: KeyedHash, store: Store, power: nat)
    ensures Settles(hash, store, store, store, Landed, power)
  {
  }

  /** Any crash of a save is one of the three fates; a whole save lands; and whatever the hash the
      store stays sound. */
  lemma CrashFate(hash: KeyedHash, image: seq<Byte>, s: State, k: nat) returns (fate: Fate)
    requires Sound(hash, image) && k <= 2 * RECORD_BYTES && s.Valid() && s.revision < MAX_U64
    requires Load(StoreOf(hash, image)).Ok? && Load(StoreOf(hash, image)).value.revision == s.revision
    ensures var record := Encode(hash, Advanced(s)); var after := CrashImage(image, Home(Advanced(s)), record, k);
      && Sound(hash, after)
      && (Telling(hash, record) || k == 2 * RECORD_BYTES ==>
            StoreOf(hash, after) == AfterCrash(StoreOf(hash, image), Holds(Advanced(s)), fate))
      && (k == 2 * RECORD_BYTES ==> fate == Landed)
  {
    hide Telling, Sound, StoreOf, CrashImage, Encode, Decode;
    SoundSized(hash, image);
    var next := Advanced(s);
    var record := Encode(hash, next);
    assert Decode(hash, record) == Some(next) by { DecodeIsInverse(hash, record, next); }
    var before, after := StoreOf(hash, image), CrashImage(image, Home(next), record, k);
    CrashStaysSound(hash, image, s, record, k);
    WholeSaveLands(hash, image, s, record);
    if Telling(hash, record) {
      if before.Holds? {
        CrashKeepsOldOrNew(hash, image, s, record, k);
      } else {
        CrashFromBlank(hash, image, s, record, k);
      }
    }
    var now := StoreOf(hash, after);
    fate := if now == Holds(next) then Landed else if now == before then Kept else Torn;
  }
}
