/** Packets of a live kernel transplant: their checksum and digest, and how the candidate
    kernel checks and adopts them. */
module Packets {
  import opened Octets
  import opened Bits

  const HALF := 0x1_0000_0000
  const WORD_LIMIT := 0x1_0000_0000_0000_0000
  const KIND := 0x100_0000_0000_0000
  const FRAME_KIND := 0xff
  const MAX_PACKET := 32768
  const MAX_BODY := 32760

  // ---------- Checksum ----------

  function RotateFive(v: nat): nat {
    v % 0x800_0000 * 32 + v / 0x800_0000
  }

  function Mix(v: nat, b: Byte): nat {
    Xor(RotateFive(v), b, 32)
  }

  function Checksum(bytes: seq<Byte>): nat {
    if bytes == [] then 0x4258_0005 else Mix(Checksum(bytes[..|bytes| - 1]), bytes[|bytes| - 1])
  }

  method ChecksumOf(bytes: seq<Byte>) returns (value: nat)
    ensures value == Checksum(bytes)
  {
    hide Mix;
    value := 0x4258_0005;
    assert bytes[..0] == [];
    for i := 0 to |bytes|
      invariant value == Checksum(bytes[..i])
    {
      assert bytes[..i + 1][..i] == bytes[..i];
      value := Mix(value, bytes[i]);
    }
    assert bytes[..|bytes|] == bytes;
  }

  lemma ChecksumBound(bytes: seq<Byte>)
    ensures Checksum(bytes) < HALF
  {
    PowersOfTwo();
    if bytes != [] {
      XorBound(RotateFive(Checksum(bytes[..|bytes| - 1])), bytes[|bytes| - 1], 32);
    }
  }

  lemma RotateInjective(v: nat, w: nat)
    requires v < HALF && w < HALF
    ensures RotateFive(v) < HALF && (RotateFive(v) == RotateFive(w) ==> v == w)
  {
    var a, b, c, d := v % 0x800_0000, v / 0x800_0000, w % 0x800_0000, w / 0x800_0000;
    assert v == b * 0x800_0000 + a && w == d * 0x800_0000 + c && b < 32 && d < 32;
  }

  /** Mixing loses neither the value so far nor the byte. */
  lemma MixInjective(v: nat, w: nat, a: Byte, b: Byte)
    requires v < HALF && w < HALF && Mix(v, a) == Mix(w, b) && (v == w || a == b)
    ensures v == w && a == b
  {
    hide Xor, RotateFive;
    PowersOfTwo();
    RotateInjective(v, w);
    RotateInjective(w, v);
    if a == b {
      XorInjective(RotateFive(v), RotateFive(w), a, 32);
    } else {
      XorSymmetric(RotateFive(v), a, 32);
      XorSymmetric(RotateFive(v), b, 32);
      XorInjective(a, b, RotateFive(v), 32);
    }
  }

  /** Changing exactly one byte changes the checksum. */
  lemma {:induction false} OneByteChanges(bytes: seq<Byte>, p: nat, b: Byte)
    requires p < |bytes| && b != bytes[p]
    ensures Checksum(bytes[p := b]) != Checksum(bytes)
  {
    hide Mix;
    var n := |bytes| - 1;
    var changed := bytes[p := b];
    ChecksumBound(bytes[..n]);
    ChecksumBound(changed[..n]);
    if Checksum(changed) == Checksum(bytes) {
      if p == n {
        assert changed[..n] == bytes[..n];
      } else {
        OneByteChanges(bytes[..n], p, b);
        assert changed[..n] == bytes[..n][p := b];
      }
      MixInjective(Checksum(bytes[..n]), Checksum(changed[..n]), bytes[n], changed[n]);
    }
  }

  // ---------- Digest ----------

  function RotateSeven(v: nat): nat {
    v % 0x200_0000_0000_0000 * 128 + v / 0x200_0000_0000_0000
  }

  function Digested(digest: nat, hash: nat): nat {
    Xor(RotateSeven(digest), hash, 64)
  }

  // ---------- Records and packets ----------

  function FrameKey(index: nat): nat {
    FRAME_KIND * KIND + index
  }

  function FrameRecord(index: nat, word: nat): (r: seq<Byte>)
    ensures |r| == 16
  {
    ToLittle(FrameKey(index), 8) + ToLittle(word, 8)
  }

  const RECORD_MAGIC: seq<Byte> := [0x42, 0x45, 0x58, 0x52, 0x45, 0x43, 0x30, 0x32]
  const RECORD_VERSION := 4
  const ARCHITECTURE := 1

  function RuntimeRecord(key: nat, value: seq<Byte>): (r: seq<Byte>)
    ensures |r| == 32 + |value|
  {
    RECORD_MAGIC + ToLittle(RECORD_VERSION, 8) + ToLittle(ARCHITECTURE, 8) + ToLittle(key, 8) + value
  }

  function Body(sequence: nat, record: seq<Byte>): (r: seq<Byte>)
    ensures |r| == 8 + |record|
  {
    ToLittle(sequence, 8) + record
  }

  function Packet(body: seq<Byte>): (r: seq<Byte>)
    ensures |r| == |body| + 8
  {
    body + ToLittle(Checksum(body), 8)
  }

  // ---------- The candidate ----------

  /** The candidate kernel: adopted frame words and runtime records, and how far it has come. */
  datatype Candidate = Candidate(words: seq<nat>, records: map<nat, seq<Byte>>, generation: nat, sequence: nat,
                                 digest: nat)

  /** The candidate after a packet, and its answer: zero, or why it refused. */
  datatype Answer = Answer(candidate: Candidate, code: int)

  function AdoptFrame(c: Candidate, record: seq<Byte>): Answer {
    if |record| < 16 then Answer(c, -6)
    else
      var index := LittleEndian(record[0..8]) % KIND;
      if index >= |c.words| then Answer(c, -6)
      else
        var adopted := c.(words := c.words[index := LittleEndian(record[8..16])]);
        Answer(adopted, if |record| == 16 then 0 else -7)
  }

  function AdoptRuntime(c: Candidate, record: seq<Byte>): Answer {
    if |record| < 32 || record[0..8] != RECORD_MAGIC || LittleEndian(record[8..16]) != RECORD_VERSION
       || LittleEndian(record[16..24]) != ARCHITECTURE then Answer(c, -8)
    else Answer(c.(records := c.records[LittleEndian(record[24..32]) := record[32..]]), 0)
  }

  function AdoptRecord(c: Candidate, record: seq<Byte>): Answer {
    if |record| < 8 then Answer(c, -3)
    else if LittleEndian(record[0..8]) / KIND == FRAME_KIND then AdoptFrame(c, record)
    else AdoptRuntime(c, record)
  }

  /** The candidate's second operation: one packet. */
  function Adopt(c: Candidate, packet: seq<Byte>): Answer {
    if !(24 <= |packet| <= MAX_PACKET) then Answer(c, -3)
    else
      var end := |packet| - 8;
      var body, expected := packet[..end], LittleEndian(packet[end..]);
      if Checksum(body) != expected then Answer(c, -4)
      else if LittleEndian(body[..8]) != c.sequence + 1 then Answer(c, -5)
      else
        var adopted := AdoptRecord(c, body[8..]);
        if adopted.code != 0 then adopted
        else Answer(adopted.candidate.(sequence := LittleEndian(body[..8]), digest := Digested(c.digest, expected)), 0)
  }

  lemma PacketParts(body: seq<Byte>)
    ensures var packet := Packet(body); var end := |packet| - 8;
      packet[..end] == body && LittleEndian(packet[end..]) == Checksum(body)
  {
    hide Checksum, LittleEndian, ToLittle;
    ChecksumBound(body);
    LittleOf(Checksum(body), 8);
    var packet := Packet(body);
    assert packet[|packet| - 8..] == ToLittle(Checksum(body), 8);
  }

  /** A packet altered in one byte, of its body or of its checksum, is always refused, and leaves the
      candidate as it was. */
  lemma AlteredRefused(c: Candidate, body: seq<Byte>, p: nat, b: Byte)
    requires p < |Packet(body)| && b != Packet(body)[p] && 16 <= |body| <= MAX_BODY
    ensures Adopt(c, Packet(body)[p := b]) == Answer(c, -4)
  {
    hide Checksum, LittleEndian, Packet, AdoptRecord;
    PacketParts(body);
    var packet, n := Packet(body), |body|;
    var altered := packet[p := b];
    if p < n {
      OneByteChanges(body, p, b);
      assert altered[..n] == body[p := b] && altered[n..] == packet[n..];
    } else {
      assert altered[..n] == packet[..n] && altered[n..] == packet[n..][p - n := b];
      TagChanges(packet[n..], p - n, b);
    }
  }

  lemma TagChanges(tag: seq<Byte>, p: nat, b: Byte)
    requires p < |tag| && b != tag[p]
    ensures LittleEndian(tag[p := b]) != LittleEndian(tag)
  {
    hide LittleEndian;
    if LittleEndian(tag[p := b]) == LittleEndian(tag) {
      LittleInjective(tag[p := b], tag);
    }
  }

  lemma BodyParts(sequence: nat, record: seq<Byte>)
    requires sequence < WORD_LIMIT
    ensures var body := Body(sequence, record); LittleEndian(body[..8]) == sequence && body[8..] == record
  {
    hide LittleEndian, ToLittle;
    LittleOf(sequence, 8);
    assert Body(sequence, record)[..8] == ToLittle(sequence, 8);
  }

  /** What the candidate does with a packet the sender made. */
  lemma AdoptSent(c: Candidate, sequence: nat, record: seq<Byte>)
    requires sequence < WORD_LIMIT && 8 <= |record| && 8 + |record| <= MAX_BODY
    ensures var body := Body(sequence, record); var adopted := AdoptRecord(c, record);
      Adopt(c, Packet(body)) ==
        if sequence != c.sequence + 1 then Answer(c, -5)
        else if adopted.code != 0 then adopted
        else Answer(adopted.candidate.(sequence := sequence, digest := Digested(c.digest, Checksum(body))), 0)
  {
    hide Checksum, LittleEndian, ToLittle, AdoptRecord, Packet, Body, Digested;
    var body := Body(sequence, record);
    PacketParts(body);
    BodyParts(sequence, record);
  }

  lemma AdoptFrameSent(c: Candidate, index: nat, word: nat)
    requires index < |c.words| && index < KIND && word < WORD_LIMIT
    ensures AdoptRecord(c, FrameRecord(index, word)) == Answer(c.(words := c.words[index := word]), 0)
  {
    hide LittleEndian, ToLittle;
    var record := FrameRecord(index, word);
    LittleOf(FrameKey(index), 8);
    LittleOf(word, 8);
    assert record[0..8] == ToLittle(FrameKey(index), 8) && record[8..16] == ToLittle(word, 8);
    assert FrameKey(index) / KIND == FRAME_KIND && FrameKey(index) % KIND == index;
  }

  lemma AdoptRuntimeSent(c: Candidate, key: nat, value: seq<Byte>)
    requires key < WORD_LIMIT
    ensures AdoptRecord(c, RuntimeRecord(key, value)) == Answer(c.(records := c.records[key := value]), 0)
  {
    hide LittleEndian, ToLittle;
    var record := RuntimeRecord(key, value);
    LittleOf(RECORD_VERSION, 8);
    LittleOf(ARCHITECTURE, 8);
    LittleOf(key, 8);
    assert record[0..8] == RECORD_MAGIC && record[8..16] == ToLittle(RECORD_VERSION, 8);
    assert record[16..24] == ToLittle(ARCHITECTURE, 8) && record[24..32] == ToLittle(key, 8) && record[32..] == value;
    MagicIsNoFrame();
  }

  /** The candidate takes no other packets: what it accepts is a packet that the sender makes with the next
      sequence number, of a frame word that it has or of a runtime record. */
  lemma AcceptedIsSent(c: Candidate, packet: seq<Byte>) returns (record: seq<Byte>)
    requires Adopt(c, packet).code == 0
    ensures packet == Packet(Body(c.sequence + 1, record)) && AdoptRecord(c, record).code == 0
    ensures || (exists index: nat, word: nat :: index < |c.words| && record == FrameRecord(index, word))
            || (exists key: nat, value: seq<Byte> :: record == RuntimeRecord(key, value))
  {
    hide Checksum, LittleEndian, ToLittle, AdoptRecord;
    var end := |packet| - 8;
    var body := packet[..end];
    record := body[8..];
    LittleCanonical(packet[end..]);
    LittleCanonical(body[..8]);
    assert packet == body + packet[end..] && body == body[..8] + record;
    AcceptedRecord(c, record);
  }

  lemma AcceptedRecord(c: Candidate, record: seq<Byte>)
    requires AdoptRecord(c, record).code == 0
    ensures || (exists index: nat, word: nat :: index < |c.words| && record == FrameRecord(index, word))
            || (exists key: nat, value: seq<Byte> :: record == RuntimeRecord(key, value))
  {
    hide LittleEndian, ToLittle, RECORD_MAGIC;
    var key := LittleEndian(record[0..8]);
    LittleCanonical(record[0..8]);
    if key / KIND == FRAME_KIND {
      LittleCanonical(record[8..16]);
      assert record == record[0..8] + record[8..16];
      assert record == FrameRecord(key % KIND, LittleEndian(record[8..16]));
    } else {
      LittleCanonical(record[8..16]);
      LittleCanonical(record[16..24]);
      LittleCanonical(record[24..32]);
      assert record == record[0..8] + record[8..16] + record[16..24] + record[24..32] + record[32..];
      assert record == RuntimeRecord(LittleEndian(record[24..32]), record[32..]);
    }
  }

  /** Runtime records start with a magic number that no frame key shares. */
  lemma MagicIsNoFrame()
    ensures LittleEndian(RECORD_MAGIC) / KIND == 0x32
  {
    var m := RECORD_MAGIC;
    assert LittleEndian(m[7..]) == 0x32;
    assert m[6..][1..] == m[7..] && m[5..][1..] == m[6..] && m[4..][1..] == m[5..] && m[3..][1..] == m[4..];
    assert m[2..][1..] == m[3..] && m[1..][1..] == m[2..];
    assert LittleEndian(m[6..]) == 0x30 + 256 * 0x32;
    assert LittleEndian(m[5..]) == 0x43 + 256 * LittleEndian(m[6..]);
    assert LittleEndian(m[4..]) == 0x45 + 256 * LittleEndian(m[5..]);
    assert LittleEndian(m[3..]) == 0x52 + 256 * LittleEndian(m[4..]);
    assert LittleEndian(m[2..]) == 0x58 + 256 * LittleEndian(m[3..]);
    assert LittleEndian(m[1..]) == 0x45 + 256 * LittleEndian(m[2..]);
  }
}
