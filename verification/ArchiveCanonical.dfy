/** Parsing is the inverse of signing: an archive that opens is, byte for byte, its signed part followed by the
    signature block that its signer's envelope stands for. */
module ArchiveCanonical {
  import opened Octets
  import opened ArchiveFormat
  import opened ArchiveOpened

  /** The certificates that parse are written as they were read. */
  lemma {:induction false} ChainCanonical(block: seq<Byte>, offset: nat, count: nat, total: nat)
    requires offset <= |block| && ParseChain(block, offset, count, total).Ok?
    ensures var chain := ParseChain(block, offset, count, total).value;
      && offset <= chain.1 <= |block| && |chain.0| == count && Certificates(chain.0) == block[offset..chain.1]
    decreases count
  {
    hide LittleEndian, ToLittle;
    if count > 0 {
      var len := Number(block, offset, 4);
      var next := offset + 4 + len;
      ChainCanonical(block, next, count - 1, total + len);
      var rest := ParseChain(block, next, count - 1, total + len).value;
      var chain := ParseChain(block, offset, count, total).value;
      LittleCanonical(block[offset..offset + 4]);
      assert chain.0[1..] == rest.0;
      assert block[offset..rest.1] == block[offset..offset + 4] + block[offset + 4..next] + block[next..rest.1];
    }
  }

  /** What a parsed block consists of. */
  lemma BlockParts(block: seq<Byte>)
    requires ParseSignature(block).Ok?
    ensures var e, n := ParseSignature(block).value.0, ParseSignature(block).value.1;
      var chain := ParseChain(block, SIGNATURE_BYTES, Number(block, 88, 4), 0);
      && |block| >= SIGNATURE_BYTES && block[..8] == SIGNATURE_MAGIC && Number(block, 8, 4) == VERSION
      && AlgorithmNumber(e.algorithm) == Number(block, 12, 4) && n == Number(block, 16, 8)
      && e.keyId == block[24..56] && e.digest == block[56..88]
      && chain.Ok? && chain.value.0 == e.chain && chain.value.1 + Number(block, 92, 4) == |block|
      && e.signature == block[chain.value.1..]
  {
    hide Number, ParseChain, SIGNATURE_MAGIC;
  }

  lemma HeaderCanonical(block: seq<Byte>, e: Envelope, n: nat)
    requires |block| >= SIGNATURE_BYTES && block[..8] == SIGNATURE_MAGIC && Number(block, 8, 4) == VERSION
    requires AlgorithmNumber(e.algorithm) == Number(block, 12, 4) && n == Number(block, 16, 8)
    requires e.keyId == block[24..56] && e.digest == block[56..88]
    requires |e.chain| == Number(block, 88, 4) && |e.signature| == Number(block, 92, 4)
    ensures SignatureHeader(e, n) == block[..SIGNATURE_BYTES]
  {
    hide ToLittle, LittleEndian, Then, SIGNATURE_MAGIC;
    LittleCanonical(block[8..12]);
    LittleCanonical(block[12..16]);
    LittleCanonical(block[16..24]);
    LittleCanonical(block[88..92]);
    LittleCanonical(block[92..96]);
    ThenMatches(block, [], 0, block[..8]);
    ThenMatches(block, block[..8], 8, block[8..12]);
    ThenMatches(block, block[..12], 12, block[12..16]);
    ThenMatches(block, block[..16], 16, block[16..24]);
    ThenMatches(block, block[..24], 24, block[24..56]);
    ThenMatches(block, block[..56], 56, block[56..88]);
    ThenMatches(block, block[..88], 88, block[88..92]);
    ThenMatches(block, block[..92], 92, block[92..96]);
  }

  /** A signature block that parses is exactly the one its envelope is written as. */
  lemma SignatureCanonical(block: seq<Byte>)
    requires ParseSignature(block).Ok?
    ensures var e, n := ParseSignature(block).value.0, ParseSignature(block).value.1;
      |e.keyId| == 32 && |e.digest| == 32 && SignatureBlock(e, n) == block
  {
    hide ParseSignature, Number, ParseChain, Certificates, SignatureHeader, SIGNATURE_MAGIC;
    BlockParts(block);
    var e, n := ParseSignature(block).value.0, ParseSignature(block).value.1;
    var chain := ParseChain(block, SIGNATURE_BYTES, Number(block, 88, 4), 0).value;
    ChainCanonical(block, SIGNATURE_BYTES, Number(block, 88, 4), 0);
    HeaderCanonical(block, e, n);
    assert block == block[..SIGNATURE_BYTES] + block[SIGNATURE_BYTES..chain.1] + block[chain.1..];
  }

  /** Every archive that opens is its signed part, signed by its signer, and nothing more. */
  lemma OpenedCanonical(hash: Blake3, utf8: seq<Byte> -> bool, bytes: seq<Byte>)
    requires Parse(hash, utf8, bytes).Ok?
    ensures var e := Parse(hash, utf8, bytes).value.signer;
      |e.keyId| == 32 && |e.digest| == 32 && Signed(SignedPart(bytes), e) == bytes
  {
    hide Parse, Locate, ParseSignature, SignatureBlock, LittleEndian, ToLittle, Signed;
    OpenedBlock(hash, utf8, bytes);
    FooterIs(bytes);
    var p := Locate(bytes).value;
    SignatureCanonical(bytes[p.signedLen..p.footerAt]);
    LittleCanonical(bytes[p.footerAt..]);
    Rejoined(bytes, p.signedLen, p.footerAt, Parse(hash, utf8, bytes).value.signer);
  }

  lemma Rejoined(bytes: seq<Byte>, x: nat, y: nat, e: Envelope)
    requires x <= y <= |bytes| && |e.keyId| == 32 && |e.digest| == 32
    requires SignatureBlock(e, x) == bytes[x..y] && ToLittle(y - x, 8) == bytes[y..]
    ensures Signed(bytes[..x], e) == bytes
  {
    hide SignatureBlock, ToLittle;
    assert bytes == bytes[..x] + bytes[x..y] + bytes[y..];
  }

  lemma OpenedBlock(hash: Blake3, utf8: seq<Byte> -> bool, bytes: seq<Byte>)
    requires Parse(hash, utf8, bytes).Ok?
    ensures Locate(bytes).Ok?
    ensures var p := Locate(bytes).value;
      ParseSignature(bytes[p.signedLen..p.footerAt]) == Ok((Parse(hash, utf8, bytes).value.signer, p.signedLen))
  {
    hide Locate, ParseSignature, ParseDirectory, EntriesError;
  }

  lemma FooterIs(bytes: seq<Byte>)
    requires Locate(bytes).Ok?
    ensures var p := Locate(bytes).value;
      p.footerAt + 8 == |bytes| && LittleEndian(bytes[p.footerAt..]) == p.footerAt - p.signedLen
  {
    hide LittleEndian, MAGIC, LEGACY_MAGIC;
    assert bytes[|bytes| - 8..|bytes|] == bytes[|bytes| - 8..];
  }

  /** So two archives that open with the same envelope are the same file, unless their signed parts are a
      collision of the hash. */
  lemma EnvelopeDecides(hash: Blake3, utf8: seq<Byte> -> bool, a: seq<Byte>, b: seq<Byte>)
    requires |a| < WORD && |b| < WORD && Parse(hash, utf8, a).Ok? && Parse(hash, utf8, b).Ok?
    requires Parse(hash, utf8, a).value.signer == Parse(hash, utf8, b).value.signer
    ensures a == b || (SignedPart(a) != SignedPart(b) && hash(SignedPart(a)) == hash(SignedPart(b)))
  {
    hide Parse, Locate, SignedPart, Signed, InOrder, EntryWithin, ChunksMatch;
    OpenedCanonical(hash, utf8, a);
    OpenedCanonical(hash, utf8, b);
    OpenedIs(hash, utf8, a);
    OpenedIs(hash, utf8, b);
  }
}
