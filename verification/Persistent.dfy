/** The owner's durable store: two record sectors written a byte at a time, in turn, and
    read back newest first. Power may fail between any two byte writes. */
module Persistent {
  import opened Octets
  import opened Records

  datatype Error = Device | Header
  datatype Result<T> = Ok(value: T) | Err(error: Error)

  const MAX_U64 := 0xffff_ffff_ffff_ffff

  // ---------- The medium ----------

  function Sector(image: seq<Byte>, index: nat): (r: seq<Byte>)
    requires RECORD_BYTES * (index + 1) <= |image|
    ensures |r| == RECORD_BYTES
  {
    image[RECORD_BYTES * index..RECORD_BYTES * (index + 1)]
  }

  /** `image` after the first `k` bytes of `input` reached it. */
  function Overwritten(image: seq<Byte>, at: nat, input: seq<Byte>, k: nat): (r: seq<Byte>)
    requires k <= |input| && at + |input| <= |image|
    ensures |r| == |image|
  {
    image[..at] + input[..k] + image[at + k..]
  }

  function Min(a: nat, b: nat): nat {
    if a < b then a else b
  }

  class Disk {
    const bytes: array<Byte>
    /** How many more byte writes the power supply lasts for. */
    var power: nat

    constructor (bytes: array<Byte>, power: nat)
      ensures this.bytes == bytes && this.power == power
    {
      this.bytes := bytes;
      this.power := power;
    }

    method Read(index: nat) returns (r: Result<seq<Byte>>)
      ensures r == if RECORD_BYTES * (index + 1) <= bytes.Length then Ok(Sector(bytes[..], index)) else Err(Device)
    {
      if RECORD_BYTES * (index + 1) > bytes.Length {
        return Err(Device);
      }
      var output := new Byte[RECORD_BYTES](_ => 0);
      var offset := RECORD_BYTES * index;
      for i := 0 to RECORD_BYTES
        invariant fresh(output) && output[..i] == bytes[..][offset..offset + i]
      {
        output[i] := bytes[offset + i];
        assert bytes[..][offset..offset + i + 1] == bytes[..][offset..offset + i] + [bytes[offset + i]];
        assert output[..i + 1] == output[..i] + [output[i]];
      }
      assert output[..] == output[..RECORD_BYTES];
      return Ok(output[..]);
    }

    /** Writes a sector byte by byte; bytes after the power failure are lost. */
    method Write(index: nat, input: seq<Byte>) returns (r: Result<()>)
      requires |input| == RECORD_BYTES
      modifies bytes, `power
      ensures var fits := RECORD_BYTES * (index + 1) <= bytes.Length; var k := Min(old(power), RECORD_BYTES);
        && r == (if fits then Ok(()) else Err(Device))
        && bytes[..] == (if fits then Overwritten(old(bytes[..]), RECORD_BYTES * index, input, k) else old(bytes[..]))
        && power == (if fits then old(power) - k else old(power))
    {
      if RECORD_BYTES * (index + 1) > bytes.Length {
        return Err(Device);
      }
      ghost var before, budget := bytes[..], power;
      var offset := RECORD_BYTES * index;
      for i := 0 to RECORD_BYTES
        invariant power == budget - Min(budget, i)
        invariant bytes[..] == Overwritten(before, offset, input, Min(budget, i))
      {
        if power > 0 {
          bytes[offset + i] := input[i];
          power := power - 1;
          OverwrittenNext(before, offset, input, i);
        }
      }
      return Ok(());
    }
  }

  lemma OverwrittenNext(image: seq<Byte>, at: nat, input: seq<Byte>, k: nat)
    requires k < |input| && at + |input| <= |image|
    ensures Overwritten(image, at, input, k)[at + k := input[k]] == Overwritten(image, at, input, k + 1)
  {
  }

  // ---------- Loading ----------

  predicate Sized(image: seq<Byte>) {
    |image| >= 2 * RECORD_BYTES
  }

  function Record(hash: KeyedHash, image: seq<Byte>, index: nat): Option<State>
    requires Sized(image) && index < 2
  {
    Decode(hash, Sector(image, index))
  }

  /** The newer of two records; the second one wins a tie. */
  function Newest(a: Option<State>, b: Option<State>): Option<State> {
    if a.None? then b else if b.None? then a else if a.value.revision > b.value.revision then a else b
  }

  /** What the store means. */
  datatype Store = Blank | Holds(state: State) | Broken

  function StoreOf(hash: KeyedHash, image: seq<Byte>): Store
    requires Sized(image)
  {
    var newest := Newest(Record(hash, image, 0), Record(hash, image, 1));
    if newest.Some? then Holds(newest.value)
    else if Erased(image, 0) && Erased(image, 1) then Blank
    else Broken
  }

  predicate Erased(image: seq<Byte>, index: nat)
    requires Sized(image) && index < 2
  {
    Sector(image, index) == Zeros(RECORD_BYTES)
  }

  function Load(store: Store): Result<State> {
    match store
    case Blank => Ok(INITIAL)
    case Holds(state) => Ok(state)
    case Broken => Err(Header)
  }

  method LoadState(disk: Disk, hash: KeyedHash) returns (r: Result<State>)
    requires disk.bytes.Length >= 2 * RECORD_BYTES
    ensures r == Load(StoreOf(hash, disk.bytes[..]))
  {
    hide Decode;
    var selected: Option<State> := None;
    for index := 0 to 2
      invariant selected == if index == 0 then None else if index == 1 then Record(hash, disk.bytes[..], 0)
                            else Newest(Record(hash, disk.bytes[..], 0), Record(hash, disk.bytes[..], 1))
    {
      var record := ReadRecord(disk, hash, index);
      if record.Some? && (selected.None? || selected.value.revision <= record.value.revision) {
        selected := record;
      }
    }
    if selected.Some? {
      return Ok(selected.value);
    }
    for index := 0 to 2
      invariant 0 < index ==> Erased(disk.bytes[..], 0)
      invariant 1 < index ==> Erased(disk.bytes[..], 1)
    {
      var record := disk.Read(index);
      if record.value != Zeros(RECORD_BYTES) {
        return Err(Header);
      }
    }
    return Ok(INITIAL);
  }

  method ReadRecord(disk: Disk, hash: KeyedHash, index: nat) returns (r: Option<State>)
    requires disk.bytes.Length >= 2 * RECORD_BYTES && index < 2
    ensures r == Record(hash, disk.bytes[..], index)
  {
    hide Decode;
    var bytes := disk.Read(index);
    return Decode(hash, bytes.value);
  }

  // ---------- Saving ----------

  /** A sector `k` byte writes into erasing it and then writing `record`. */
  function CrashSector(sector: seq<Byte>, record: seq<Byte>, k: nat): (r: seq<Byte>)
    requires |sector| == RECORD_BYTES && |record| == RECORD_BYTES && k <= 2 * RECORD_BYTES
    ensures |r| == RECORD_BYTES
  {
    if k <= RECORD_BYTES then Zeros(k) + sector[k..] else record[..k - RECORD_BYTES] + Zeros(2 * RECORD_BYTES - k)
  }

  function CrashImage(image: seq<Byte>, index: nat, record: seq<Byte>, k: nat): (r: seq<Byte>)
    requires Sized(image) && index < 2 && |record| == RECORD_BYTES && k <= 2 * RECORD_BYTES
    ensures |r| == |image|
  {
    var at := RECORD_BYTES * index;
    image[..at] + CrashSector(Sector(image, index), record, k) + image[at + RECORD_BYTES..]
  }

  lemma CrashImageIs(image: seq<Byte>, index: nat, record: seq<Byte>, power: nat)
    requires Sized(image) && index < 2 && |record| == RECORD_BYTES
    ensures var at := RECORD_BYTES * index;
      var erased := Overwritten(image, at, Zeros(RECORD_BYTES), Min(power, RECORD_BYTES));
      Overwritten(erased, at, record, Min(power - Min(power, RECORD_BYTES), RECORD_BYTES)) ==
        CrashImage(image, index, record, Min(power, 2 * RECORD_BYTES))
  {
  }

  /** The sector that holds a state. */
  function Home(state: State): (index: nat)
    ensures index < 2
  {
    state.revision % 2
  }

  lemma HomesAlternate(s: State, t: State)
    requires s.revision == t.revision + 1
    ensures Home(s) == 1 - Home(t)
  {
  }

  /** What `save_state` writes. */
  function Advanced(state: State): State
    requires state.revision < MAX_U64
  {
    state.(revision := state.revision + 1)
  }

  /** With enough power the new state is stored and returned; with less, the store is left
      exactly as many bytes into the two writes as the power lasted. */
  method SaveState(disk: Disk, hash: KeyedHash, state: State) returns (r: Result<State>)
    requires disk.bytes.Length >= 2 * RECORD_BYTES
    modifies disk`power, disk.bytes
    ensures !state.Valid() || state.revision == MAX_U64 ==>
      r == Err(Header) && disk.bytes[..] == old(disk.bytes[..]) && disk.power == old(disk.power)
    ensures state.Valid() && state.revision < MAX_U64 ==>
      var k := Min(old(disk.power), 2 * RECORD_BYTES);
      && disk.bytes[..] == CrashImage(old(disk.bytes[..]), Home(Advanced(state)), Encode(hash, Advanced(state)), k)
      && disk.power == old(disk.power) - k
      && (k == 2 * RECORD_BYTES ==> r == Ok(Advanced(state)))
  {
    hide Decode, Encode;
    if !state.Valid() || state.revision == MAX_U64 {
      return Err(Header);
    }
    var next := Advanced(state);
    var index := Home(next);
    var bytes := EncodeState(hash, next);
    ghost var before, power := disk.bytes[..], disk.power;
    var _ := disk.Write(index, Zeros(RECORD_BYTES));
    var _ := disk.Write(index, bytes);
    CrashImageIs(before, index, bytes, power);
    var readback := ReadRecord(disk, hash, index);
    if power >= 2 * RECORD_BYTES {
      WholeRecord(before, index, bytes);
      DecodeIsInverse(hash, bytes, next);
    }
    if readback == Some(next) {
      return Ok(next);
    }
    return Err(Device);
  }

  lemma WholeRecord(image: seq<Byte>, index: nat, record: seq<Byte>)
    requires Sized(image) && index < 2 && |record| == RECORD_BYTES
    ensures Sector(CrashImage(image, index, record, 2 * RECORD_BYTES), index) == record
  {
  }

  // ---------- Crash safety ----------

  predicate BlankTag(tag: seq<Byte>) {
    tag == Zeros(32)
  }

  /** The newest record sits in the sector its revision selects, and the other sector is older. */
  ghost predicate Sound(hash: KeyedHash, image: seq<Byte>) {
    && Sized(image)
    && match StoreOf(hash, image) {
         case Holds(s) =>
           var other := Record(hash, image, 1 - Home(s));
           Record(hash, image, Home(s)) == Some(s) && (other.Some? ==> other.value.revision < s.revision)
         case _ => true
       }
  }

  /** A record that decodes starts with the first byte of the magic, which is not zero. */
  lemma RecordStarts(hash: KeyedHash, b: seq<Byte>)
    requires |b| == RECORD_BYTES && Decode(hash, b).Some?
    ensures b[0] == 0x42
  {
    hide DecodeIdentity, LittleEndian;
    assert b[0] == b[..AUTH_OFFSET][0..8][0];
  }

  function Torn(record: seq<Byte>, j: nat): (r: seq<Byte>)
    requires |record| == RECORD_BYTES && j <= RECORD_BYTES
    ensures |r| == RECORD_BYTES
  {
    record[..j] + Zeros(RECORD_BYTES - j)
  }

  /** A record cut off before its tag, whose beginning is a state of its own and has the blank tag
      that erasing left behind. */
  predicate Forges(hash: KeyedHash, record: seq<Byte>, j: nat)
    requires |record| == RECORD_BYTES
  {
    && j <= AUTH_OFFSET && Torn(record, j) != record
    && BlankTag(hash(Torn(record, j)[..AUTH_OFFSET])) && Parse(Torn(record, j)[..AUTH_OFFSET]).Some?
  }

  /** None of the 481 places to cut this record off before its tag gives another state. */
  ghost predicate Telling(hash: KeyedHash, record: seq<Byte>)
    requires |record| == RECORD_BYTES
  {
    forall j: nat :: j <= AUTH_OFFSET ==> !Forges(hash, record, j)
  }

  /** What a partly written record decodes to, whatever the hash. */
  lemma TornDecodes(hash: KeyedHash, record: seq<Byte>, j: nat)
    requires |record| == RECORD_BYTES && Decode(hash, record).Some? && j <= RECORD_BYTES
    ensures var torn := Torn(record, j);
      Decode(hash, torn) == if torn == record then Decode(hash, record)
                            else if Forges(hash, record, j) then Parse(torn[..AUTH_OFFSET]) else None
  {
    hide Decode, Parse, Torn;
    var torn := Torn(record, j);
    Tagged(hash, torn);
    Tagged(hash, record);
    TornParts(record, j);
  }

  /** A partly written record decodes to nothing, unless the missing bytes were zero anyway. */
  lemma TornRecord(hash: KeyedHash, record: seq<Byte>, j: nat)
    requires |record| == RECORD_BYTES && Decode(hash, record).Some? && Telling(hash, record) && j <= RECORD_BYTES
    ensures Decode(hash, Torn(record, j)) == if Torn(record, j) == record then Decode(hash, record) else None
  {
    hide Decode, Parse, Torn;
    TornDecodes(hash, record, j);
    if j <= AUTH_OFFSET {
      assert !Forges(hash, record, j);
    }
  }

  lemma ParsedParts(b: seq<Byte>)
    requires |b| == AUTH_OFFSET && Parse(b).Some?
    ensures Parse(b).value.revision == LittleEndian(b[16..24]) && DecodeIdentity(b[32..88], true).Some?
  {
    hide DecodeIdentity, LittleEndian, Framed;
  }

  lemma TornSlices(record: seq<Byte>, j: nat)
    requires |record| == RECORD_BYTES && j <= AUTH_OFFSET
    ensures j <= 32 ==> Torn(record, j)[..AUTH_OFFSET][32..88] == Zeros(56)
    ensures 32 < j ==> Torn(record, j)[..AUTH_OFFSET][16..24] == record[..AUTH_OFFSET][16..24]
  {
    if 32 < j {
      PrefixSlice(record[..j], Zeros(RECORD_BYTES - j), 16, 24);
      assert record[..j][16..24] == record[16..24] == record[..AUTH_OFFSET][16..24];
      assert Torn(record, j)[16..24] == Torn(record, j)[..AUTH_OFFSET][16..24];
    }
  }

  /** A state that a cut-off record gives has the revision of the whole. */
  lemma ForgedRevision(hash: KeyedHash, record: seq<Byte>, j: nat)
    requires |record| == RECORD_BYTES && Decode(hash, record).Some? && Forges(hash, record, j)
    ensures Parse(Torn(record, j)[..AUTH_OFFSET]).value.revision == Decode(hash, record).value.revision
  {
    hide DecodeIdentity, LittleEndian, Parse, Torn, Decode;
    Tagged(hash, record);
    ParsedParts(record[..AUTH_OFFSET]);
    ParsedParts(Torn(record, j)[..AUTH_OFFSET]);
    TornSlices(record, j);
    NoIdentity();
  }

  lemma NoIdentity()
    ensures DecodeIdentity(Zeros(56), true).None?
  {
    assert LittleEndian(Zeros(56)[0..4]) == 0 by {
      var z := Zeros(56)[0..4];
      assert z[1..] == Zeros(3) && Zeros(3)[1..] == Zeros(2) && Zeros(2)[1..] == Zeros(1) && Zeros(1)[1..] == [];
    }
  }

  lemma Tagged(hash: KeyedHash, b: seq<Byte>)
    requires |b| == RECORD_BYTES
    ensures Decode(hash, b) == if hash(b[..AUTH_OFFSET]) == b[AUTH_OFFSET..] then Parse(b[..AUTH_OFFSET]) else None
  {
    hide Parse;
  }

  lemma TornParts(record: seq<Byte>, j: nat)
    requires |record| == RECORD_BYTES && j <= RECORD_BYTES
    ensures j <= AUTH_OFFSET ==> Torn(record, j)[AUTH_OFFSET..] == Zeros(32)
    ensures AUTH_OFFSET < j ==> Torn(record, j)[..AUTH_OFFSET] == record[..AUTH_OFFSET]
    ensures AUTH_OFFSET < j && Torn(record, j)[AUTH_OFFSET..] == record[AUTH_OFFSET..] ==> Torn(record, j) == record
  {
    var torn := Torn(record, j);
    assert torn == torn[..AUTH_OFFSET] + torn[AUTH_OFFSET..] && record == record[..AUTH_OFFSET] + record[AUTH_OFFSET..];
  }

  /** A crashed sector decodes to what it held before, to the new record, or to nothing. */
  lemma CrashedSector(hash: KeyedHash, sector: seq<Byte>, record: seq<Byte>, k: nat)
    requires |record| == RECORD_BYTES && Decode(hash, record).Some? && Telling(hash, record)
    requires |sector| == RECORD_BYTES && k <= 2 * RECORD_BYTES
    ensures var after := CrashSector(sector, record, k);
      && (k == 0 ==> after == sector)
      && (0 < k ==> Decode(hash, after) == if after == record then Decode(hash, record) else None)
      && (k == 2 * RECORD_BYTES ==> after == record)
      && (RECORD_BYTES < k ==> after[0] == 0x42)
  {
    hide Decode, Telling;
    var after := CrashSector(sector, record, k);
    RecordStarts(hash, record);
    if 0 < k <= RECORD_BYTES {
      if Decode(hash, after).Some? {
        RecordStarts(hash, after);
      }
    } else if RECORD_BYTES < k {
      TornRecord(hash, record, k - RECORD_BYTES);
    }
  }

  lemma CrashSectors(image: seq<Byte>, index: nat, record: seq<Byte>, k: nat)
    requires Sized(image) && index < 2 && |record| == RECORD_BYTES && k <= 2 * RECORD_BYTES
    ensures Sector(CrashImage(image, index, record, k), index) == CrashSector(Sector(image, index), record, k)
    ensures Sector(CrashImage(image, index, record, k), 1 - index) == Sector(image, 1 - index)
  {
    hide CrashSector;
    var crashed := CrashSector(Sector(image, index), record, k);
    var after := CrashImage(image, index, record, k);
    if index == 0 {
      assert after[..RECORD_BYTES] == crashed;
      assert after[RECORD_BYTES..2 * RECORD_BYTES] == image[RECORD_BYTES..2 * RECORD_BYTES];
    } else {
      assert after[RECORD_BYTES..2 * RECORD_BYTES] == crashed;
      assert after[..RECORD_BYTES] == image[..RECORD_BYTES];
    }
  }

  /** A save of a state that carries the stored revision. */
  ghost predicate Succeeds(store: Store, s: State) {
    && s.Valid() && s.revision < MAX_U64
    && match store {
         case Blank => s.revision == INITIAL.revision
         case Holds(t) => s.revision == t.revision
         case Broken => false
       }
  }

  lemma NextRevision(store: Store, s: State)
    requires Succeeds(store, s)
    ensures s.revision < MAX_U64 && (store.Holds? ==> s.revision == store.state.revision)
  {
  }

  lemma SoundSized(hash: KeyedHash, image: seq<Byte>)
    requires Sound(hash, image)
    ensures Sized(image)
  {
  }

  lemma StoredRecords(hash: KeyedHash, image: seq<Byte>, t: State, index: nat)
    requires Sound(hash, image) && StoreOf(hash, image) == Holds(t) && index == 1 - Home(t)
    ensures Record(hash, image, 1 - index) == Some(t)
    ensures Record(hash, image, index).Some? ==> Record(hash, image, index).value.revision < t.revision
  {
    hide Record, Erased;
  }

  /** A crash at any byte of a save leaves the old state or the new one, never a third. */
  lemma CrashKeepsOldOrNew(hash: KeyedHash, image: seq<Byte>, s: State, record: seq<Byte>, k: nat)
    requires Sound(hash, image) && StoreOf(hash, image).Holds?
    requires Succeeds(StoreOf(hash, image), s) && k <= 2 * RECORD_BYTES
    requires |record| == RECORD_BYTES && Decode(hash, record) == Some(Advanced(s)) && Telling(hash, record)
    ensures var next := Advanced(s);
      var after := CrashImage(image, Home(next), record, k);
      && Sound(hash, after)
      && (StoreOf(hash, after) == StoreOf(hash, image) || StoreOf(hash, after) == Holds(next))
      && (k == 2 * RECORD_BYTES ==> StoreOf(hash, after) == Holds(next))
  {
    hide CrashImage, Telling, Succeeds, StoreOf, Sound, Record, Decode, Home;
    SoundSized(hash, image);
    NextRevision(StoreOf(hash, image), s);
    var next, t := Advanced(s), StoreOf(hash, image).state;
    var index := Home(next);
    HomesAlternate(next, t);
    StoredRecords(hash, image, t, index);
    CrashRecords(hash, image, index, record, k);
    var after := CrashImage(image, index, record, k);
    if Record(hash, after, index) == Some(next) {
      HoldsNewest(hash, after, index, t, Some(next));
    } else {
      HoldsNewest(hash, after, index, t, Record(hash, after, index));
    }
  }

  /** A crash leaves the other record alone and its own unchanged, gone, or new. */
  lemma CrashRecords(hash: KeyedHash, image: seq<Byte>, index: nat, record: seq<Byte>, k: nat)
    requires Sized(image) && index < 2 && k <= 2 * RECORD_BYTES
    requires |record| == RECORD_BYTES && Decode(hash, record).Some? && Telling(hash, record)
    ensures var after := CrashImage(image, index, record, k); var mine := Record(hash, after, index);
      && Record(hash, after, 1 - index) == Record(hash, image, 1 - index)
      && (mine == Record(hash, image, index) || mine == None || mine == Decode(hash, record))
      && (k == 2 * RECORD_BYTES ==> mine == Decode(hash, record))
  {
    hide Decode, Sector, CrashImage, CrashSector, Telling;
    CrashSectors(image, index, record, k);
    CrashedSector(hash, Sector(image, index), record, k);
  }

  /** The store that holds `t` in one sector and `mine`, older or newer, in the other. */
  lemma HoldsNewest(hash: KeyedHash, image: seq<Byte>, index: nat, t: State, mine: Option<State>)
    requires Sized(image) && index < 2 && Home(t) == 1 - index
    requires Record(hash, image, index) == mine && Record(hash, image, 1 - index) == Some(t)
    requires mine.Some? ==> mine.value.revision < t.revision || (mine.value.revision == t.revision + 1)
    ensures Sound(hash, image)
    ensures StoreOf(hash, image) == Holds(if mine.Some? && mine.value.revision > t.revision then mine.value else t)
  {
    hide Record, Erased;
  }

  /** From a blank store, the only further outcome is a torn first record, which does not load. */
  lemma CrashFromBlank(hash: KeyedHash, image: seq<Byte>, s: State, record: seq<Byte>, k: nat)
    requires Sized(image) && StoreOf(hash, image).Blank?
    requires Succeeds(StoreOf(hash, image), s) && k <= 2 * RECORD_BYTES
    requires |record| == RECORD_BYTES && Decode(hash, record) == Some(Advanced(s)) && Telling(hash, record)
    ensures var next := Advanced(s);
      var after := CrashImage(image, Home(next), record, k);
      && Sound(hash, after)
      && StoreOf(hash, after) == (if k <= RECORD_BYTES then Blank
                                  else if Sector(after, Home(next)) == record then Holds(next) else Broken)
      && (k == 2 * RECORD_BYTES ==> StoreOf(hash, after) == Holds(next))
  {
    hide Decode, Sector, CrashImage, CrashSector, Telling;
    var next := Advanced(s);
    var index := Home(next);
    CrashSectors(image, index, record, k);
    CrashedSector(hash, Sector(image, index), record, k);
    BlankSector(hash);
    if k <= RECORD_BYTES {
      ErasedStays(record, k);
    }
  }

  lemma ErasedStays(record: seq<Byte>, k: nat)
    requires |record| == RECORD_BYTES && k <= RECORD_BYTES
    ensures CrashSector(Zeros(RECORD_BYTES), record, k) == Zeros(RECORD_BYTES)
  {
  }

  lemma BlankSector(hash: KeyedHash)
    ensures Decode(hash, Zeros(RECORD_BYTES)) == None
  {
    hide Decode;
    if Decode(hash, Zeros(RECORD_BYTES)).Some? {
      RecordStarts(hash, Zeros(RECORD_BYTES));
    }
  }

  /** A save that is not interrupted lands, whatever the hash. */
  lemma WholeSaveLands(hash: KeyedHash, image: seq<Byte>, s: State, record: seq<Byte>)
    requires Sound(hash, image) && Succeeds(StoreOf(hash, image), s)
    requires |record| == RECORD_BYTES && Decode(hash, record) == Some(Advanced(s))
    ensures Sized(image)
    ensures StoreOf(hash, CrashImage(image, Home(Advanced(s)), record, 2 * RECORD_BYTES)) == Holds(Advanced(s))
  {
    hide CrashImage, StoreOf, Sound, Decode, Succeeds, Home, Sector;
    SoundSized(hash, image);
    var store, next := StoreOf(hash, image), Advanced(s);
    NextRevision(store, s);
    StoreKinds(store, s);
    var index := Home(next);
    var after := CrashImage(image, index, record, 2 * RECORD_BYTES);
    WholeRecord(image, index, record);
    CrashSectors(image, index, record, 2 * RECORD_BYTES);
    if store.Holds? {
      HomesAlternate(next, store.state);
      StoredRecords(hash, image, store.state, index);
      HoldsNewest(hash, after, index, store.state, Some(next));
    } else {
      BlankRecords(hash, image);
      OnlyRecord(hash, after, index, next);
    }
  }

  lemma OnlyRecord(hash: KeyedHash, image: seq<Byte>, index: nat, s: State)
    requires Sized(image) && index < 2 && Record(hash, image, index) == Some(s)
    requires Record(hash, image, 1 - index) == None
    ensures StoreOf(hash, image) == Holds(s)
  {
    hide Record, Erased;
  }

  // ---------- Records that can be cut off to another state ----------

  /** Whatever the hash, a crashed sector decodes to what it held, to nothing, or to a state with
      the new revision. */
  lemma CrashedDecodes(hash: KeyedHash, sector: seq<Byte>, record: seq<Byte>, k: nat)
    requires |record| == RECORD_BYTES && Decode(hash, record).Some? && |sector| == RECORD_BYTES && k <= 2 * RECORD_BYTES
    ensures var after := Decode(hash, CrashSector(sector, record, k));
      || (k == 0 && CrashSector(sector, record, k) == sector) || after == None
      || (after.Some? && after.value.revision == Decode(hash, record).value.revision)
  {
    hide Decode, Parse;
    var after := CrashSector(sector, record, k);
    if 0 < k <= RECORD_BYTES {
      if Decode(hash, after).Some? {
        RecordStarts(hash, after);
      }
    } else if RECORD_BYTES < k {
      var j := k - RECORD_BYTES;
      assert after == Torn(record, j);
      TornDecodes(hash, record, j);
      if Forges(hash, record, j) {
        ForgedRevision(hash, record, j);
      }
    }
  }

  lemma SoundFromBlank(hash: KeyedHash, image: seq<Byte>, index: nat)
    requires Sized(image) && index < 2 && Record(hash, image, 1 - index) == None
    requires Record(hash, image, index).Some? ==> Home(Record(hash, image, index).value) == index
    ensures Sound(hash, image)
  {
    hide Record, Erased;
  }

  lemma BlankRecords(hash: KeyedHash, image: seq<Byte>)
    requires Sized(image) && StoreOf(hash, image).Blank?
    ensures Record(hash, image, 0) == None && Record(hash, image, 1) == None
  {
    hide Record, Erased;
  }

  /** What a crash makes of the sector it hits. */
  lemma CrashedRecord(hash: KeyedHash, image: seq<Byte>, index: nat, record: seq<Byte>, k: nat)
    requires Sized(image) && index < 2 && k <= 2 * RECORD_BYTES && |record| == RECORD_BYTES
    requires Decode(hash, record).Some?
    ensures var after := CrashImage(image, index, record, k); var mine := Record(hash, after, index);
      && Record(hash, after, 1 - index) == Record(hash, image, 1 - index)
      && (mine == Record(hash, image, index) || mine == None
          || mine.value.revision == Decode(hash, record).value.revision)
  {
    hide Decode, Sector, CrashImage, CrashSector;
    CrashSectors(image, index, record, k);
    CrashedDecodes(hash, Sector(image, index), record, k);
  }

  lemma CrashSoundHolds(hash: KeyedHash, image: seq<Byte>, t: State, next: State, record: seq<Byte>, index: nat, k: nat)
    requires Sound(hash, image) && Sized(image) && StoreOf(hash, image) == Holds(t) && k <= 2 * RECORD_BYTES
    requires index < 2
    requires |record| == RECORD_BYTES && Decode(hash, record) == Some(next)
    requires next.revision == t.revision + 1 && Home(t) == 1 - index
    ensures Sound(hash, CrashImage(image, index, record, k))
  {
    hide CrashImage, StoreOf, Sound, Decode, Record, Home;
    CrashedRecord(hash, image, index, record, k);
    StoredRecords(hash, image, t, index);
    var after := CrashImage(image, index, record, k);
    HoldsNewest(hash, after, index, t, Record(hash, after, index));
  }

  lemma CrashSoundBlank(hash: KeyedHash, image: seq<Byte>, next: State, record: seq<Byte>, index: nat, k: nat)
    requires Sized(image) && StoreOf(hash, image).Blank? && k <= 2 * RECORD_BYTES && index < 2
    requires |record| == RECORD_BYTES && Decode(hash, record) == Some(next) && index == Home(next)
    ensures Sound(hash, CrashImage(image, index, record, k))
  {
    hide CrashImage, StoreOf, Sound, Decode, Record, Home;
    CrashedRecord(hash, image, index, record, k);
    BlankRecords(hash, image);
    var after := CrashImage(image, index, record, k);
    var mine := Record(hash, after, index);
    if mine.Some? {
      SameHome(mine.value, next);
    }
    SoundFromBlank(hash, after, index);
  }

  lemma SameHome(s: State, t: State)
    requires s.revision == t.revision
    ensures Home(s) == Home(t)
  {
  }

  /** Whatever the hash, a crash keeps the records where their revisions belong. */
  lemma CrashStaysSound(hash: KeyedHash, image: seq<Byte>, s: State, record: seq<Byte>, k: nat)
    requires Sound(hash, image) && Succeeds(StoreOf(hash, image), s) && k <= 2 * RECORD_BYTES
    requires |record| == RECORD_BYTES && Decode(hash, record) == Some(Advanced(s))
    ensures Sound(hash, CrashImage(image, Home(Advanced(s)), record, k))
  {
    hide CrashImage, StoreOf, Sound, Decode, Succeeds, Home;
    SoundSized(hash, image);
    var store, next := StoreOf(hash, image), Advanced(s);
    NextRevision(store, s);
    StoreKinds(store, s);
    if store.Holds? {
      HomesAlternate(next, store.state);
      CrashSoundHolds(hash, image, store.state, next, record, Home(next), k);
    } else {
      CrashSoundBlank(hash, image, next, record, Home(next), k);
    }
  }

  lemma StoreKinds(store: Store, s: State)
    requires Succeeds(store, s)
    ensures store.Holds? || store.Blank?
  {
  }

  /** Every crash of the save leaves the old state or the new one. */
  ghost predicate Safe(hash: KeyedHash, image: seq<Byte>, next: State, record: seq<Byte>)
    requires Sized(image) && |record| == RECORD_BYTES
  {
    forall k: nat :: k <= 2 * RECORD_BYTES ==>
      var store := StoreOf(hash, CrashImage(image, Home(next), record, k));
      store == StoreOf(hash, image) || store == Holds(next)
  }

  /** When a record can be cut off to another state, a crash there makes the next load return it. */
  lemma ForgedLoads(hash: KeyedHash, image: seq<Byte>, s: State, record: seq<Byte>, j: nat)
    requires Sound(hash, image) && StoreOf(hash, image).Holds? && Succeeds(StoreOf(hash, image), s)
    requires |record| == RECORD_BYTES && Decode(hash, record) == Some(Advanced(s)) && Forges(hash, record, j)
    ensures var x := Parse(Torn(record, j)[..AUTH_OFFSET]);
      && StoreOf(hash, CrashImage(image, Home(Advanced(s)), record, RECORD_BYTES + j)) == Holds(x.value)
      && x.value != Advanced(s) && Holds(x.value) != StoreOf(hash, image)
  {
    hide CrashImage, Sector, StoreOf, Sound, Decode, Succeeds, Parse;
    SoundSized(hash, image);
    var t, next := StoreOf(hash, image).state, Advanced(s);
    NextRevision(StoreOf(hash, image), s);
    var index, k := Home(next), RECORD_BYTES + j;
    var after, torn := CrashImage(image, index, record, k), Torn(record, j);
    CrashSectors(image, index, record, k);
    assert CrashSector(Sector(image, index), record, k) == torn;
    TornDecodes(hash, record, j);
    ForgedRevision(hash, record, j);
    HomesAlternate(next, t);
    StoredRecords(hash, image, t, index);
    HoldsNewest(hash, after, index, t, Record(hash, after, index));
    DecodeIsInverse(hash, torn, next);
    DecodeIsInverse(hash, record, next);
  }

  /** Crash safety holds exactly for the records that cannot be cut off to another state. */
  lemma SafeExactlyWhenTelling(hash: KeyedHash, image: seq<Byte>, s: State, record: seq<Byte>)
    requires Sound(hash, image) && StoreOf(hash, image).Holds? && Succeeds(StoreOf(hash, image), s)
    requires |record| == RECORD_BYTES && Decode(hash, record) == Some(Advanced(s))
    ensures Sized(image) && (Safe(hash, image, Advanced(s), record) <==> Telling(hash, record))
  {
    hide CrashImage, StoreOf, Sound, Decode, Succeeds, Parse, Torn, Forges, Home;
    SoundSized(hash, image);
    if Telling(hash, record) {
      forall k: nat | k <= 2 * RECORD_BYTES
        ensures var store := StoreOf(hash, CrashImage(image, Home(Advanced(s)), record, k));
          store == StoreOf(hash, image) || store == Holds(Advanced(s))
      {
        CrashKeepsOldOrNew(hash, image, s, record, k);
      }
    } else {
      var j: nat :| j <= AUTH_OFFSET && Forges(hash, record, j);
      ForgedLoads(hash, image, s, record, j);
    }
  }

  // ---------- One that can ----------

  /** A pending image of 320 bytes, and the same with 64. */
  function Sample(length: U64): (s: State)
    requires 64 <= length <= MAX_IMAGE_BYTES
    ensures s.Valid() && s.pending.Some?
  {
    var candidate := Identity(B, 2, [1] + Zeros(31), length);
    assert candidate.digest[0] == 1;
    State(2, Pending, INITIAL_IDENTITY, Some(candidate))
  }

  lemma SameFixed(s: State, t: State)
    requires s == t.(pending := s.pending)
    ensures Fixed(s) == Fixed(t)
  {
    hide ToLittle, Then, EncodeIdentity, MAGIC;
  }

  lemma LengthLast(i: Identity)
    ensures EncodeIdentity(i)[..48] == EncodeIdentity(i.(length := 0))[..48]
    ensures EncodeIdentity(i)[48..] == ToLittle(i.length, 8)
  {
    hide ToLittle;
  }

  lemma SampleFields(length: U64)
    requires 64 <= length <= MAX_IMAGE_BYTES
    ensures var whole, least := Fields(Sample(length)), Fields(Sample(64));
      |whole| == |least| == 144 && whole[..136] == least[..136] && whole[136..] == ToLittle(length, 8)
  {
    hide ToLittle, Fixed, EncodeIdentity;
    var s, t := Sample(length), Sample(64);
    SameFixed(s, t);
    LengthLast(s.pending.value);
    LengthLast(t.pending.value);
    assert Fields(s) == Fixed(s) + EncodeIdentity(s.pending.value);
    assert Fields(t) == Fixed(t) + EncodeIdentity(t.pending.value);
    assert Fields(s)[..136] == Fixed(s) + EncodeIdentity(s.pending.value)[..48];
    assert Fields(t)[..136] == Fixed(t) + EncodeIdentity(t.pending.value)[..48];
  }

  lemma OneDigit(v: nat, n: nat)
    requires n > 0
    ensures ToLittle(v, n) == [v % 256] + ToLittle(v / 256, n - 1)
  {
  }

  lemma SampleLengths()
    ensures ToLittle(320, 8) == [64, 1] + Zeros(6) && ToLittle(64, 8) == [64] + Zeros(7)
  {
    hide ToLittle;
    OneDigit(320, 8);
    OneDigit(1, 7);
    OneDigit(64, 8);
    NoDigits(6);
    NoDigits(7);
  }

  lemma {:induction false} NoDigits(n: nat)
    ensures ToLittle(0, n) == Zeros(n)
  {
    if n > 0 {
      NoDigits(n - 1);
    }
  }

  /** Cut off in the middle of its length, the larger one is the smaller one. */
  lemma SampleCut()
    ensures Authenticated(Sample(320))[..137] + Zeros(AUTH_OFFSET - 137) == Authenticated(Sample(64))
  {
    hide ToLittle, Fields, Sample;
    SampleFields(320);
    SampleFields(64);
    SampleLengths();
    var large, small := Fields(Sample(320)), Fields(Sample(64));
    assert large == large[..136] + large[136..] && small == small[..136] + small[136..];
  }

  /** With a hash whose tag is blank, a record that can be cut off to another state. */
  lemma BlankHashForges(hash: KeyedHash)
    requires forall m :: hash(m) == Zeros(32)
    ensures Forges(hash, Encode(hash, Sample(320)), 137)
  {
    hide Fields, Sample, Parse, Authenticated;
    var record := Encode(hash, Sample(320));
    var torn := Torn(record, 137);
    SampleCut();
    assert torn[..AUTH_OFFSET] == Authenticated(Sample(320))[..137] + Zeros(AUTH_OFFSET - 137);
    ParseRoundTrip(Sample(64));
    ParseRoundTrip(Sample(320));
    SamplesDiffer();
    assert record[..AUTH_OFFSET] == Authenticated(Sample(320));
  }

  lemma SamplesDiffer()
    ensures Sample(64) != Sample(320)
  {
  }
}
