/** What the owner's calls, notifications and boots bring about: which image is durable, which one memory
    names, which bank the caller is told to run, and exactly when a request is refused. */
module OwnerEffects {
  import opened Octets
  import opened Records
  import opened Persistent
  import opened OwnerSpec
  import opened OwnerRuns

  /** A candidate runs, and the caller may decide about it. */
  predicate Decidable(ram: Ram, owner: nat) {
    ValidOwner(ram, owner) && ram.ready && ram.report.outcome == Applying
  }

  /** The image that memory would name for an identity. */
  function ImageOf(identity: Identity): Image {
    Image(identity.generation, SlotNumber(identity.slot))
  }

  // ---------- Resolving ----------

  /** Deciding for the candidate makes it durable and memory name it, and answers with its generation;
      the caller is told to retire the other bank. It is refused exactly when something else is pending
      or no revision is left, and then nothing durable changes. */
  lemma CommitCall(ram: Ram, store: Store, owner: nat)
    requires Base(ram, store) && Agrees(ram, store) && Decidable(ram, owner)
    ensures var n := CallStep(ram, store, Resolve(owner, Commit));
      && (Accepts(ram, store) ==>
            && Durable(n.store) == State(Revision(store) + 1, Idle, Candidate(ram), None)
            && n.ram.active == ImageOf(Candidate(ram)) && !n.ram.ready && !n.ram.bootTrial && n.ram.stage.slot == 0
            && n.ram.report == Report(Committed, ram.stage.generation, TRUSTY, ram.stage.slot)
            && n.ram.action == 3 && n.reply == Value(ram.stage.generation))
      && (!Accepts(ram, store) ==>
            n.store == store && n.reply == Refused(AccessDenied) && n.ram.active == ram.active && n.ram.ready)
  {
  }

  /** Deciding against it leaves the durable image as it was with nothing pending, makes memory name the
      image it came from, and tells the caller to run that image's bank. It is refused exactly when the store
      does not load, or must be changed and has no revision left. */
  lemma RollbackCall(ram: Ram, store: Store, owner: nat)
    requires StoreOk(store) && Decidable(ram, owner)
    ensures var n := CallStep(ram, store, Resolve(owner, Rollback));
      var fails := store.Broken? || (Durable(store).phase != Idle && Revision(store) == MAX_U64);
      && (!fails ==>
            && Durable(n.store).active == Durable(store).active && Durable(n.store).pending.None?
            && Durable(n.store).phase == Idle && n.ram.active == ram.source && !n.ram.ready && n.ram.stage.slot == 0
            && n.ram.report == Report(RolledBack, ram.stage.generation, TRUSTY, ram.stage.slot)
            && n.ram.action == 3 + ram.source.slot && n.reply == Value(ram.source.generation))
      && (fails ==> n == Next(ram, store, Refused(AccessDenied)))
  {
  }

  /** In an orderly machine the image that a rollback returns to is the durable one. */
  lemma RollbackIsDurable(ram: Ram, store: Store, owner: nat)
    requires Base(ram, store) && Agrees(ram, store) && Decidable(ram, owner)
    requires CallStep(ram, store, Resolve(owner, Rollback)).reply.Value?
    ensures var n := CallStep(ram, store, Resolve(owner, Rollback));
      n.ram.active == ImageOf(Durable(n.store).active) && n.ram.action == 3 + SlotNumber(Durable(n.store).active.slot)
  {
    RollbackCall(ram, store, owner);
  }

  /** Nothing else can be decided about. */
  lemma ResolveNeedsCandidate(ram: Ram, store: Store, owner: nat, disposition: Disposition)
    requires !Decidable(ram, owner)
    ensures var n := CallStep(ram, store, Resolve(owner, disposition));
      n.ram == ram && n.store == store && n.reply.Refused?
  {
  }

  // ---------- Activating ----------

  /** A live activation tells the caller to run the staged bank, remembers what to fall back to, and leaves
      the store alone. */
  lemma ActivateLiveCall(ram: Ram, store: Store, owner: nat)
    requires ValidOwner(ram, owner)
    ensures var n := CallStep(ram, store, Activate(owner, Live));
      && n.store == store
      && (ram.stage.closed ==>
            && n.ram.action == ram.stage.slot && n.ram.source == ram.active && n.ram.active == ram.active
            && !n.ram.ready && n.ram.stage == ram.stage && n.reply == Value(ram.stage.generation)
            && n.ram.report == Report(Applying, ram.stage.generation, TRUSTY, ram.stage.slot))
      && (!ram.stage.closed ==> n.ram == ram && n.reply == Refused(InvalidArgs))
  {
  }

  /** An activation on reboot leaves the active image durable and the candidate pending beside it. */
  lemma ActivateOnRebootCall(ram: Ram, store: Store, owner: nat)
    requires Base(ram, store) && ValidOwner(ram, owner) && ram.stage.closed
    ensures var n := CallStep(ram, store, Activate(owner, OnReboot));
      && (n.reply.Value? <==> Revision(store) < MAX_U64 && Candidate(ram).slot != Durable(store).active.slot)
      && (n.reply.Value? ==>
            && Durable(n.store) ==
                 State(Revision(store) + 1, Pending, Durable(store).active, Some(Candidate(ram)))
            && n.reply == Value(ram.stage.generation) && n.ram.active == ram.active && n.ram.action == ram.action
            && n.ram.report == Report(AwaitingReboot, ram.stage.generation, TRUSTY, ram.stage.slot))
      && (n.reply.Refused? ==> n.store == store && n.ram == ram)
  {
  }

  // ---------- Notifications ----------

  /** A candidate that reports ready is what memory names from then on, until it is decided about. */
  lemma ReadyRuns(ram: Ram, store: Store)
    requires Base(ram, store) && ram.report.outcome == Applying && ram.stage.slot != 0
    ensures var n := ReadyStep(ram, store);
      && n.ram.active == Image(ram.stage.generation, ram.stage.slot)
      && (!ram.bootTrial ==> n.ram.ready && n.store == store && n.reply == Value(ram.stage.generation))
      && (ram.bootTrial ==> n.reply == Value(if Accepts(ram, store) then ram.stage.generation else 0))
  {
  }

  /** A candidate that fails leaves memory naming the image it came from, and the answer is that image's
      bank; without an answer the owner asks for recovery. */
  lemma FailedReturns(ram: Ram, store: Store)
    requires StoreOk(store) && (ram.ready || ram.report.outcome == Applying)
    ensures var n := FailedStep(ram, store);
      var fails := store.Broken? || (Durable(store).phase != Idle && Revision(store) == MAX_U64);
      && (!fails ==>
            && n.ram.active == ram.source && n.reply == Value(3 + ram.source.slot) && n.ram.report.outcome == RolledBack
            && Durable(n.store).active == Durable(store).active && Durable(n.store).pending.None?)
      && (fails ==> n.store == store && n.reply == Value(0) && n.ram.report.outcome == RecoveryRequired)
  {
  }

  // ---------- Booting ----------

  /** The identity that a boot runs: the pending candidate, else the durable image. */
  function Booted(store: Store): Identity {
    var state := Durable(store);
    if state.phase == Pending && state.pending.Some? then state.pending.value else state.active
  }

  /** What a boot answers: the bank of the image it runs, marked if that is a trial; zero exactly when the
      store does not load, a revision is needed and none is left, or the image does not load. Only the
      built-in image needs no loading. */
  lemma BootAnswers(store: Store, loads: bool)
    requires StoreOk(store)
    ensures var n := BootSelect(RESET, store, loads); var state := Durable(store);
      var trial := state.phase == Pending;
      var fails := || store.Broken? || (state.phase != Idle && Revision(store) == MAX_U64)
                   || (Booted(store) != INITIAL_IDENTITY && !loads);
      n.reply == Value(if fails then 0 else SlotNumber(Booted(store).slot) + if trial then TRIAL_BIT else 0)
  {
  }

  /** Memory after a boot: the durable image, and for a trial the candidate staged with the durable image to
      fall back to. */
  lemma BootMemory(store: Store, loads: bool)
    requires StoreOk(store) && BootSelect(RESET, store, loads).reply != Value(0)
    ensures var n := BootSelect(RESET, store, loads); var state := Durable(store);
      && n.ram.active == ImageOf(state.active) && Durable(n.store).active == state.active
      && (state.phase == Pending ==>
            && n.ram.source == ImageOf(state.active) && Candidate(n.ram) == Booted(store) && n.ram.stage.closed
            && n.ram.report.outcome == Applying && n.ram.bootTrial
            && Durable(n.store).phase == Trial && Durable(n.store).pending == state.pending)
      && (state.phase != Pending ==>
            !n.ram.bootTrial && !n.ram.stage.closed && Durable(n.store).phase == Idle && Durable(n.store).pending.None?)
  {
  }

  // ---------- Uploading ----------

  /** A stage begins exactly for a newer image while no candidate is applied or runs, and in the other slot. */
  lemma BeginCall(ram: Ram, store: Store, owner: nat, size: nat, generation: U64, component: nat)
    requires ValidOwner(ram, owner)
    ensures var n := CallStep(ram, store, Begin(owner, size, generation, component));
      && n.store == store
      && (n.reply == Value(0) <==>
            component == TRUSTY && generation > ram.active.generation && !ram.ready && ram.report.outcome != Applying)
      && (n.reply.Refused? ==> n.ram == ram)
      && (n.reply.Value? ==>
            && n.ram.stage.length == size && n.ram.stage.generation == generation && n.ram.stage.written == 0
            && !n.ram.stage.closed && n.ram.stage.slot == 3 - (if ram.active.slot == 1 then 1 else 2)
            && n.ram.active == ram.active)
  {
  }

  /** Chunks of the given sizes, one after the other. */
  function Upload(ram: Ram, store: Store, owner: nat, chunks: seq<nat>): Ram
    decreases |chunks|
  {
    if chunks == [] then ram
    else Upload(CallStep(ram, store, Write(owner, ram.stage.written, chunks[0])).ram, store, owner, chunks[1..])
  }

  function Sum(chunks: seq<nat>): nat {
    if chunks == [] then 0 else chunks[0] + Sum(chunks[1..])
  }

  /** A chunk is taken exactly when it comes next and fits the window and the image, and then advances the
      upload by its length and nothing else. */
  lemma WriteCall(ram: Ram, store: Store, owner: nat, offset: nat, count: nat)
    requires ValidOwner(ram, owner)
    ensures var n := CallStep(ram, store, Write(owner, offset, count));
      && n.store == store
      && (n.reply.Value? <==>
            && 0 < ram.stage.length && !ram.stage.closed && offset == ram.stage.written && count <= ram.window
            && offset + count <= ram.stage.length)
      && (n.reply.Value? ==>
            n.reply == Value(offset + count) && n.ram == ram.(stage := ram.stage.(written := offset + count)))
      && (n.reply.Refused? ==> n.ram == ram)
  {
  }

  /** Chunks within the window whose lengths sum to no more than the image are all taken, in order. */
  lemma {:induction false} UploadCounts(ram: Ram, store: Store, owner: nat, chunks: seq<nat>)
    requires ValidOwner(ram, owner) && 0 < ram.stage.length && !ram.stage.closed
    requires ram.stage.written + Sum(chunks) <= ram.stage.length
    requires forall k :: 0 <= k < |chunks| ==> chunks[k] <= ram.window
    ensures Upload(ram, store, owner, chunks) ==
            ram.(stage := ram.stage.(written := ram.stage.written + Sum(chunks)))
    decreases |chunks|
  {
    hide CallStep;
    if chunks != [] {
      var next := CallStep(ram, store, Write(owner, ram.stage.written, chunks[0])).ram;
      WriteCall(ram, store, owner, ram.stage.written, chunks[0]);
      UploadCounts(next, store, owner, chunks[1..]);
    }
  }

  /** The bundle is authentic, newer than what memory names, of the generation that was announced, and its
      manifest says the same. */
  predicate Trusted(ram: Ram, bundle: Bundle) {
    && bundle.authentic.Some? && bundle.manifest.Some?
    && bundle.authentic.value.generation == ram.stage.generation > ram.active.generation
    && bundle.manifest.value.generation == ram.stage.generation && bundle.manifest.value.abi == 1
    && bundle.manifest.value.fixture <= 3
  }

  /** The store is idle, names what memory names, and the image can be installed in the slot that is staged. */
  predicate Installable(ram: Ram, store: Store, bundle: Bundle)
    requires bundle.authentic.Some?
  {
    var state, v := Durable(store), bundle.authentic.value;
    && !store.Broken? && ImageOf(state.active) == ram.active && state.phase == Idle && state.pending.None?
    && bundle.installs && bundle.reloads && bundle.loads
    && Identity(Other(state.active.slot), v.generation, v.digest, v.length).Valid(false)
  }

  /** A seal succeeds exactly for a complete upload of a trusted bundle that installs; then the stage holds
      that bundle's digest and length. A failure never closes the stage. */
  lemma SealCall(ram: Ram, store: Store, owner: nat, bundle: Bundle)
    requires ValidOwner(ram, owner)
    ensures var n := CallStep(ram, store, Seal(owner, bundle));
      && n.store == store
      && (n.reply.Value? <==>
            && 0 < ram.stage.length == ram.stage.written && Trusted(ram, bundle) && Installable(ram, store, bundle))
      && (n.reply.Value? ==>
            && n.ram == ram.(stage := ram.stage.(digest := bundle.authentic.value.digest, closed := true,
                                                 imageLength := bundle.authentic.value.length))
            && n.reply == Value(ram.stage.generation))
      && (n.reply.Refused? ==> n.ram.stage == ram.stage)
  {
  }

  /** A stage is dropped by an abort unless its candidate runs. */
  lemma AbortCall(ram: Ram, store: Store, owner: nat)
    requires ValidOwner(ram, owner)
    ensures var n := CallStep(ram, store, Abort(owner));
      && n.store == store && n.reply == Value(0) && n.ram.active == ram.active
      && n.ram.stage == (if ram.ready then ram.stage else NO_STAGE)
      && (!ram.ready && ram.stage.length != 0 && ram.report.outcome == Applying ==> n.ram.report.outcome == RolledBack)
      && (ram.report.outcome == Committed || ram.report.outcome == AwaitingReboot ==> n.ram.report == ram.report)
  {
  }

  /** One buffer at a time is bound, under the token its owner chose; the owner's calls need that token. */
  lemma BindingCalls(ram: Ram, store: Store, token: nat, length: nat, readable: bool, handle: nat)
    ensures var n := CallStep(ram, store, Register(token, length, readable));
      && n.store == store && (n.reply.Value? <==> readable && (ram.token == 0 || ram.token == token))
      && (n.reply.Value? ==> n.reply == Value(token + TAG) && n.ram == ram.(token := token, window := length))
      && (n.reply.Refused? ==> n.ram == ram)
    ensures var n := CallStep(ram, store, Unregister(handle));
      && n.store == store
      && (n.reply.Value? <==> ValidOwner(ram, handle) && !ram.ready && ram.report.outcome != Applying)
      && (n.reply.Value? ==> n.ram.token == 0 && n.ram.window == 0 && n.ram.stage == NO_STAGE)
      && (n.reply.Refused? ==> n.ram == ram)
  {
  }

  /** A call that does not name the bound buffer does nothing. */
  lemma ForeignCall(ram: Ram, store: Store, call: Call)
    requires !call.Register? && !call.Unregister? && !ValidOwner(ram, OwnerOf(call))
    ensures CallStep(ram, store, call) == Next(ram, store, Refused(InvalidHandle))
  {
  }
}
