/** The authenticated record of the secure-firmware owner: boot-selection identities, the
    durable state, and their byte encodings. The keyed hash is a parameter that returns 32 octets. */
module Records {
  import opened Octets

  type KeyedHash = h: seq<Byte> -> seq<Byte> | forall m :: |h(m)| == 32 witness (m => Zeros(32))

  type Digest = s: seq<Byte> | |s| == 32 witness Zeros(32)

  const RECORD_BYTES := 512
  const AUTH_OFFSET := 480
  const IDENTITY_BYTES := 56
  const MAX_IMAGE_BYTES := 64 * 1024 * 1024
  const MAGIC: seq<Byte> := [0x42, 0x45, 0x58, 0x41, 0x50, 0x30, 0x30, 0x31]
  const VERSION := 1
  const AARCH64 := 1

  datatype Slot = A | B

  function Other(slot: Slot): Slot {
    if slot.A? then B else A
  }

  function SlotNumber(slot: Slot): nat {
    if slot.A? then 1 else 2
  }

  datatype Identity = Identity(slot: Slot, generation: U64, digest: Digest, length: U64) {
    predicate Valid(initial: bool) {
      || (initial && this == INITIAL_IDENTITY)
      || (generation > 1 && digest != Zeros(32) && 64 <= length <= MAX_IMAGE_BYTES)
    }
  }

  const INITIAL_IDENTITY := Identity(A, 1, Zeros(32), 0)

  datatype Phase = Idle | Pending | Trial

  function PhaseNumber(phase: Phase): nat {
    match phase
    case Idle => 0
    case Pending => 1
    case Trial => 2
  }

  datatype State = State(revision: U64, phase: Phase, active: Identity, pending: Option<Identity>) {
    predicate Valid() {
      && revision != 0 && active.Valid(true)
      && (match pending
          case None => phase == Idle
          case Some(candidate) =>
            phase != Idle && candidate.Valid(false) && candidate.slot != active.slot &&
                candidate.generation > active.generation)
    }
  }

  const INITIAL := State(1, Idle, INITIAL_IDENTITY, None)

  // ---------- Identities ----------

  function EncodeIdentity(i: Identity): (r: seq<Byte>)
    ensures |r| == IDENTITY_BYTES
  {
    var w := Then([], 0, ToLittle(SlotNumber(i.slot), 4));
    var w := Then(w, 8, ToLittle(i.generation, 8));
    var w := Then(w, 16, i.digest);
    Then(w, 48, ToLittle(i.length, 8))
  }

  function DecodeIdentity(b: seq<Byte>, initial: bool): Option<Identity> {
    if |b| != IDENTITY_BYTES || b[4..8] != Zeros(4) then None
    else
      LittleFits(b[8..16]);
      LittleFits(b[48..56]);
      var slot := LittleEndian(b[0..4]);
      if slot != 1 && slot != 2 then None
      else
        var i := Identity(if slot == 1 then A else B, LittleEndian(b[8..16]), b[16..48], LittleEndian(b[48..56]));
        if i.Valid(initial) then Some(i) else None
  }

  lemma IdentityFields(i: Identity)
    ensures var b := EncodeIdentity(i);
      && b[0..4] == ToLittle(SlotNumber(i.slot), 4) && b[4..8] == Zeros(4) && b[8..16] == ToLittle(i.generation, 8)
      && b[16..48] == i.digest && b[48..56] == ToLittle(i.length, 8)
  {
    hide ToLittle, SlotNumber;
  }

  lemma IdentityRoundTrip(i: Identity, initial: bool)
    requires i.Valid(initial)
    ensures DecodeIdentity(EncodeIdentity(i), initial) == Some(i)
  {
    hide ToLittle, LittleEndian, EncodeIdentity;
    IdentityFields(i);
    LittleOf(SlotNumber(i.slot), 4);
    LittleOf(i.generation, 8);
    LittleOf(i.length, 8);
  }

  lemma IdentityCanonical(b: seq<Byte>, initial: bool)
    requires DecodeIdentity(b, initial).Some?
    ensures EncodeIdentity(DecodeIdentity(b, initial).value) == b && DecodeIdentity(b, initial).value.Valid(initial)
  {
    hide ToLittle, LittleEndian, Then;
    var i := DecodeIdentity(b, initial).value;
    LittleCanonical(b[0..4]);
    LittleCanonical(b[8..16]);
    LittleCanonical(b[48..56]);
    ThenMatches(b, [], 0, b[0..4]);
    ThenMatches(b, b[..4], 8, b[8..16]);
    ThenMatches(b, b[..16], 16, b[16..48]);
    ThenMatches(b, b[..48], 48, b[48..56]);
  }

  // ---------- States ----------

  /** The fixed fields of a record, up to the active identity. */
  function Fixed(s: State): (r: seq<Byte>)
    ensures |r| == 88
  {
    var w := Then([], 0, MAGIC);
    var w := Then(w, 8, ToLittle(VERSION, 4));
    var w := Then(w, 12, ToLittle(AARCH64, 4));
    var w := Then(w, 16, ToLittle(s.revision, 8));
    var w := Then(w, 24, ToLittle(PhaseNumber(s.phase), 4));
    Then(w, 32, EncodeIdentity(s.active))
  }

  function Fields(s: State): (r: seq<Byte>)
    ensures 88 <= |r| <= 144 && r[..88] == Fixed(s)
  {
    if s.pending.Some? then Then(Fixed(s), 88, EncodeIdentity(s.pending.value)) else Fixed(s)
  }

  /** Everything the tag authenticates. */
  function Authenticated(s: State): (r: seq<Byte>)
    ensures |r| == AUTH_OFFSET
  {
    Fields(s) + Zeros(AUTH_OFFSET - |Fields(s)|)
  }

  function Encode(hash: KeyedHash, s: State): (r: seq<Byte>)
    ensures |r| == RECORD_BYTES
  {
    Authenticated(s) + hash(Authenticated(s))
  }

  function DecodePhase(n: nat): Option<Phase> {
    if n == 0 then Some(Idle) else if n == 1 then Some(Pending) else if n == 2 then Some(Trial) else None
  }

  /** The checks that do not depend on the fields' values. */
  predicate Framed(b: seq<Byte>)
    requires |b| == AUTH_OFFSET
  {
    && b[0..8] == MAGIC && LittleEndian(b[8..12]) == VERSION && LittleEndian(b[12..16]) == AARCH64
    && b[28..32] == Zeros(4) && b[144..] == Zeros(AUTH_OFFSET - 144)
  }

  /** The authenticated part of a record, read back. */
  function Parse(b: seq<Byte>): Option<State>
    requires |b| == AUTH_OFFSET
  {
    var phase := DecodePhase(LittleEndian(b[24..28]));
    if !Framed(b) || phase.None? then None
    else if phase.value == Idle && b[88..144] != Zeros(56) then None
    else
      var pending := DecodeIdentity(b[88..144], false);
      if phase.value != Idle && pending.None? then None
      else
        var active := DecodeIdentity(b[32..88], true);
        if active.None? then None
        else
          LittleFits(b[16..24]);
          var candidate := if phase.value == Idle then None else pending;
          var s := State(LittleEndian(b[16..24]), phase.value, active.value, candidate);
          if s.Valid() then Some(s) else None
  }

  function Decode(hash: KeyedHash, b: seq<Byte>): Option<State>
    requires |b| == RECORD_BYTES
  {
    if hash(b[..AUTH_OFFSET]) == b[AUTH_OFFSET..] then Parse(b[..AUTH_OFFSET]) else None
  }

  /** Fills a record buffer field by field. */
  method EncodeState(hash: KeyedHash, s: State) returns (r: seq<Byte>)
    ensures r == Encode(hash, s)
  {
    hide Then, Filled, ToLittle, MAGIC, EncodeIdentity, Fixed, Fields;
    var b := new Byte[RECORD_BYTES](_ => 0);
    FilledFresh(b[..]);
    FillFixed(b, s);
    FieldCases(s);
    if s.pending.Some? {
      PutOctets(b, 88, EncodeIdentity(s.pending.value), Fixed(s));
    }
    FilledAuthenticated(b[..], s);
    var body := b[..AUTH_OFFSET];
    assert b[..][..AUTH_OFFSET] == body;
    r := body + hash(body);
  }

  lemma FieldCases(s: State)
    ensures Fields(s) == if s.pending.Some? then Then(Fixed(s), 88, EncodeIdentity(s.pending.value)) else Fixed(s)
  {
  }

  lemma FilledAuthenticated(b: seq<Byte>, s: State)
    requires |b| == RECORD_BYTES && Filled(b, Fields(s))
    ensures b[..AUTH_OFFSET] == Authenticated(s)
  {
    hide Fields;
  }

  method FillFixed(b: array<Byte>, s: State)
    requires b.Length == RECORD_BYTES && Filled(b[..], [])
    modifies b
    ensures Filled(b[..], Fixed(s))
  {
    hide Then, Filled, ToLittle, MAGIC, EncodeIdentity, PhaseNumber;
    MagicBytes();
    PutOctets(b, 0, MAGIC, []);
    ghost var w := Then([], 0, MAGIC);
    PutOctets(b, 8, ToLittle(VERSION, 4), w);
    w := Then(w, 8, ToLittle(VERSION, 4));
    PutOctets(b, 12, ToLittle(AARCH64, 4), w);
    w := Then(w, 12, ToLittle(AARCH64, 4));
    PutOctets(b, 16, ToLittle(s.revision, 8), w);
    w := Then(w, 16, ToLittle(s.revision, 8));
    PutOctets(b, 24, ToLittle(PhaseNumber(s.phase), 4), w);
    w := Then(w, 24, ToLittle(PhaseNumber(s.phase), 4));
    PutOctets(b, 32, EncodeIdentity(s.active), w);
  }

  lemma MagicBytes()
    ensures |MAGIC| == 8
  {
  }

  lemma FixedFields(s: State)
    ensures var f := Fixed(s);
      && f[0..8] == MAGIC && f[8..12] == ToLittle(VERSION, 4) && f[12..16] == ToLittle(AARCH64, 4)
      && f[16..24] == ToLittle(s.revision, 8) && f[24..28] == ToLittle(PhaseNumber(s.phase), 4) && f[28..32] == Zeros(4)
      && f[32..88] == EncodeIdentity(s.active)
  {
    hide ToLittle, EncodeIdentity, PhaseNumber;
  }

  lemma RecordSlice(s: State, a: nat, b: nat)
    requires a <= b <= 88
    ensures Authenticated(s)[a..b] == Fixed(s)[a..b]
  {
    hide Fixed, Fields;
    PrefixSlice(Fields(s), Zeros(AUTH_OFFSET - |Fields(s)|), a, b);
    PrefixSlice(Fields(s)[..88], Fields(s)[88..], a, b);
    assert Fields(s) == Fields(s)[..88] + Fields(s)[88..];
  }

  lemma RecordPending(s: State)
    ensures var r := Authenticated(s);
      && r[88..144] == (if s.pending.Some? then EncodeIdentity(s.pending.value) else Zeros(56))
      && r[144..] == Zeros(AUTH_OFFSET - 144)
  {
    hide Fixed, EncodeIdentity;
  }

  lemma ParseRoundTrip(s: State)
    requires s.Valid()
    ensures Parse(Authenticated(s)) == Some(s)
  {
    hide Fixed, EncodeIdentity, DecodeIdentity, ToLittle, LittleEndian, MAGIC, Authenticated;
    RecordPending(s);
    FixedFields(s);
    RecordSlice(s, 0, 8);
    RecordSlice(s, 8, 12);
    RecordSlice(s, 12, 16);
    RecordSlice(s, 16, 24);
    RecordSlice(s, 24, 28);
    RecordSlice(s, 28, 32);
    RecordSlice(s, 32, 88);
    LittleOf(VERSION, 4);
    LittleOf(s.revision, 8);
    LittleOf(PhaseNumber(s.phase), 4);
    IdentityRoundTrip(s.active, true);
    if s.pending.Some? {
      IdentityRoundTrip(s.pending.value, false);
    }
  }

  lemma CanonicalFixed(b: seq<Byte>, s: State)
    requires |b| == AUTH_OFFSET && Parse(b) == Some(s)
    ensures Fixed(s) == b[..88]
  {
    hide ToLittle, LittleEndian, Then, MAGIC, DecodeIdentity, EncodeIdentity;
    MagicBytes();
    IdentityCanonical(b[32..88], true);
    LittleCanonical(b[8..12]);
    LittleCanonical(b[12..16]);
    LittleCanonical(b[16..24]);
    LittleCanonical(b[24..28]);
    ThenMatches(b, [], 0, MAGIC);
    ThenMatches(b, b[..8], 8, b[8..12]);
    ThenMatches(b, b[..12], 12, b[12..16]);
    ThenMatches(b, b[..16], 16, b[16..24]);
    ThenMatches(b, b[..24], 24, b[24..28]);
    ThenMatches(b, b[..28], 32, b[32..88]);
  }

  /** Parsing accepts nothing but what encoding a valid state gives. */
  lemma ParseCanonical(b: seq<Byte>, s: State)
    requires |b| == AUTH_OFFSET && Parse(b) == Some(s)
    ensures s.Valid() && b == Authenticated(s)
  {
    hide ToLittle, LittleEndian, MAGIC, DecodeIdentity, EncodeIdentity, Fixed;
    CanonicalFixed(b, s);
    if s.pending.Some? {
      IdentityCanonical(b[88..144], false);
    }
    assert b == b[..88] + b[88..144] + b[144..];
    RecordPending(s);
    RecordSlice(s, 0, 88);
    var r := Authenticated(s);
    assert r == r[0..88] + r[88..144] + r[144..];
  }

  /** Decoding is exactly the inverse of encoding valid states. */
  lemma DecodeIsInverse(hash: KeyedHash, b: seq<Byte>, s: State)
    requires |b| == RECORD_BYTES
    ensures Decode(hash, b) == Some(s) <==> s.Valid() && b == Encode(hash, s)
  {
    hide Parse, Authenticated;
    if Decode(hash, b) == Some(s) {
      ParseCanonical(b[..AUTH_OFFSET], s);
      assert b == b[..AUTH_OFFSET] + b[AUTH_OFFSET..];
    }
    if s.Valid() && b == Encode(hash, s) {
      ParseRoundTrip(s);
      assert b[..AUTH_OFFSET] == Authenticated(s);
    }
  }
}
