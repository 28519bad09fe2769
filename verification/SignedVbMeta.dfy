/** Authentication of verified-boot metadata, and the tool that signs it: what the tool
    writes under a key is exactly what the verifier trusting that key accepts. */
module SignedVbMeta {
  import opened Arithmetic
  import opened Octets
  import opened Rsa
  import opened VbMeta

  const MAGIC: seq<Byte> := [0x41, 0x56, 0x42, 0x30]
  const RELEASE: seq<Byte> := [0x62, 0x65, 0x78, 0x6f, 0x73, 0x2d, 0x61, 0x76, 0x62, 0x2d, 0x31]
  const SHA256_RSA2048 := 1
  const WORD := 0x1_0000_0000
  const DOUBLE_WORD := 0x1_0000_0000_0000_0000

  datatype Verified = Verified(rollbackIndex: nat, flags: nat, rollbackLocation: nat, descriptors: seq<Byte>)

  /** The regions that the header delimits. */
  datatype Regions = Regions(hash: seq<Byte>, signature: seq<Byte>, publicKey: seq<Byte>, descriptors: seq<Byte>,
                             aux: seq<Byte>)

  // ---------- The verifier ----------

  function Number(bytes: seq<Byte>, offset: nat, width: nat): nat
    requires offset + width <= |bytes|
  {
    BigEndian(bytes[offset..offset + width])
  }

  function Field(region: seq<Byte>, offset: nat, size: nat): Result<seq<Byte>> {
    Slice(region, offset, offset + size)
  }

  function CheckHash(auth: seq<Byte>, bytes: seq<Byte>): Result<(seq<Byte>, seq<Byte>)>
    requires |bytes| >= HEADER_BYTES
  {
    var hash := Field(auth, Number(bytes, 32, 8), Number(bytes, 40, 8));
    var signature := Field(auth, Number(bytes, 48, 8), Number(bytes, 56, 8));
    if hash.Err? || signature.Err? then Err(Bounds)
    else if |hash.value| != 32 || |signature.value| != 256 then Err(Header)
    else Ok((hash.value, signature.value))
  }

  function CheckKey(aux: seq<Byte>, bytes: seq<Byte>, trusted: seq<Byte>): Result<(seq<Byte>, seq<Byte>)>
    requires |bytes| >= HEADER_BYTES
  {
    var publicKey := Field(aux, Number(bytes, 64, 8), Number(bytes, 72, 8));
    if publicKey.Err? then Err(Bounds)
    else if |publicKey.value| != PUBLIC_KEY_BYTES || publicKey.value[8..264] != trusted then Err(UntrustedKey)
    else
      var descriptors := Field(aux, Number(bytes, 96, 8), Number(bytes, 104, 8));
      if descriptors.Err? then Err(Bounds) else Ok((publicKey.value, descriptors.value))
  }

  /** Everything the verifier checks before it hashes anything. */
  function Structure(bytes: seq<Byte>, trusted: seq<Byte>): Result<Regions> {
    if |bytes| < HEADER_BYTES || bytes[..4] != MAGIC || Number(bytes, 4, 4) > 1 then Err(Header)
    else if Number(bytes, 28, 4) != SHA256_RSA2048 then Err(UnsupportedAlgorithm)
    else
      var authEnd := HEADER_BYTES + Number(bytes, 12, 8);
      var imageEnd := authEnd + Number(bytes, 20, 8);
      if imageEnd > |bytes| then Err(Bounds)
      else
        var auth, aux := bytes[HEADER_BYTES..authEnd], bytes[authEnd..imageEnd];
        var h := CheckHash(auth, bytes);
        if h.Err? then Err(h.error)
        else
          var k := CheckKey(aux, bytes, trusted);
          if k.Err? then Err(k.error) else Ok(Regions(h.value.0, h.value.1, k.value.0, k.value.1, aux))
  }

  /** What the verifier promises: the regions are well formed, the digest covers header and
      auxiliary block, and the signature over it is valid for the trusted modulus. */
  ghost predicate Authentic(sha: Sha256, bytes: seq<Byte>, trusted: seq<Byte>) {
    var regions := Structure(bytes, trusted);
    && regions.Ok? && |bytes| >= HEADER_BYTES
    && sha(bytes[..HEADER_BYTES] + regions.value.aux) == regions.value.hash
    && ValidSignature(trusted, regions.value.signature, regions.value.hash)
  }

  lemma StructureFacts(bytes: seq<Byte>, trusted: seq<Byte>)
    requires Structure(bytes, trusted).Ok?
    ensures |bytes| >= HEADER_BYTES
    ensures var regions := Structure(bytes, trusted).value;
      |regions.publicKey| == PUBLIC_KEY_BYTES && regions.publicKey[8..264] == trusted
  {
    hide BigEndian;
  }

  /** The verdict, error by error. */
  ghost function Verdict(sha: Sha256, bytes: seq<Byte>, trusted: seq<Byte>): Result<Verified> {
    var regions := Structure(bytes, trusted);
    if regions.Err? then Err(regions.error)
    else
      StructureFacts(bytes, trusted);
      if sha(bytes[..HEADER_BYTES] + regions.value.aux) != regions.value.hash then Err(Digest)
      else if !ValidSignature(trusted, regions.value.signature, regions.value.hash) then Err(Signature)
      else Ok(Verified(Number(bytes, 112, 8), Number(bytes, 120, 4), Number(bytes, 124, 4), regions.value.descriptors))
  }

  method VerifyVbmeta(sha: Sha256, bytes: seq<Byte>, trusted: seq<Byte>) returns (r: Result<Verified>)
    ensures r.Ok? <==> Authentic(sha, bytes, trusted)
    ensures r == Verdict(sha, bytes, trusted)
  {
    hide Structure, ValidSignature, BigEndian;
    var regions := Structure(bytes, trusted);
    if regions.Err? {
      return Err(regions.error);
    }
    StructureFacts(bytes, trusted);
    var calculated := sha(bytes[..HEADER_BYTES] + regions.value.aux);
    if calculated != regions.value.hash {
      return Err(Digest);
    }
    var ok := VerifyRsa(regions.value.publicKey[8..264], regions.value.signature, calculated);
    if !ok {
      return Err(Signature);
    }
    return Ok(Verified(Number(bytes, 112, 8), Number(bytes, 120, 4), Number(bytes, 124, 4), regions.value.descriptors));
  }

  // ---------- The signing tool ----------

  function AuxBytes(descriptors: seq<Byte>): nat {
    Align(PUBLIC_KEY_BYTES + |descriptors|, 64)
  }

  lemma AuxFits(descriptors: seq<Byte>)
    ensures PUBLIC_KEY_BYTES + |descriptors| <= AuxBytes(descriptors) < PUBLIC_KEY_BYTES + |descriptors| + 64
  {
  }

  /** The header's fields that say where things are. */
  function HeaderLow(auxLen: nat): (r: seq<Byte>)
    ensures |r| == 64
  {
    var w := Then([], 0, MAGIC);
    var w := Then(w, 4, ToBig(1, 4));
    var w := Then(w, 12, ToBig(AUTH_BYTES, 8));
    var w := Then(w, 20, ToBig(auxLen, 8));
    var w := Then(w, 28, ToBig(SHA256_RSA2048, 4));
    var w := Then(w, 32, ToBig(0, 8));
    var w := Then(w, 40, ToBig(32, 8));
    var w := Then(w, 48, ToBig(32, 8));
    Then(w, 56, ToBig(256, 8))
  }

  function HeaderHigh(auxLen: nat, descriptorBytes: nat, rollback: nat, location: nat): (r: seq<Byte>)
    ensures |r| == 139
  {
    var w := Then(HeaderLow(auxLen), 64, ToBig(0, 8));
    var w := Then(w, 72, ToBig(PUBLIC_KEY_BYTES, 8));
    var w := Then(w, 96, ToBig(PUBLIC_KEY_BYTES, 8));
    var w := Then(w, 104, ToBig(descriptorBytes, 8));
    var w := Then(w, 112, ToBig(rollback, 8));
    var w := Then(w, 124, ToBig(location, 4));
    Then(w, 128, RELEASE)
  }

  function HeaderOf(auxLen: nat, descriptorBytes: nat, rollback: nat, location: nat): (r: seq<Byte>)
    ensures |r| == HEADER_BYTES
  {
    HeaderHigh(auxLen, descriptorBytes, rollback, location) + Zeros(HEADER_BYTES - 139)
  }

  function AuxOf(publicKey: seq<Byte>, descriptors: seq<Byte>): (r: seq<Byte>)
    ensures |r| >= |publicKey| + |descriptors|
    ensures |publicKey| == PUBLIC_KEY_BYTES ==> |r| == AuxBytes(descriptors)
  {
    AuxFits(descriptors);
    publicKey + descriptors + Zeros(AuxBytes(descriptors) - PUBLIC_KEY_BYTES - |descriptors|)
  }

  /** What is hashed and signed. */
  function ToSign(publicKey: seq<Byte>, rollback: nat, location: nat, descriptors: seq<Byte>): seq<Byte> {
    HeaderOf(AuxBytes(descriptors), |descriptors|, rollback, location) + AuxOf(publicKey, descriptors)
  }

  function Signed(sha: Sha256, signature: seq<Byte>, publicKey: seq<Byte>, rollback: nat, location: nat,
                  descriptors: seq<Byte>): seq<Byte>
    requires |signature| == 256
  {
    Assembled(HeaderOf(AuxBytes(descriptors), |descriptors|, rollback, location),
              sha(ToSign(publicKey, rollback, location, descriptors)), signature, AuxOf(publicKey, descriptors))
  }

  /** Header, authentication block, auxiliary block. */
  function Assembled(header: seq<Byte>, digest: seq<Byte>, signature: seq<Byte>, aux: seq<Byte>): (r: seq<Byte>)
    requires |header| == HEADER_BYTES && |digest| == 32 && |signature| == 256
    ensures |r| == HEADER_BYTES + AUTH_BYTES + |aux| && r[..HEADER_BYTES] == header
    ensures r[HEADER_BYTES..HEADER_BYTES + AUTH_BYTES] == digest + signature + Zeros(32)
    ensures r[HEADER_BYTES + AUTH_BYTES..] == aux
  {
    header + digest + signature + Zeros(32) + aux
  }

  method PrintHeaderLow(h: array<Byte>, auxLen: nat)
    requires h.Length == HEADER_BYTES && Filled(h[..], [])
    modifies h
    ensures Filled(h[..], HeaderLow(auxLen))
  {
    hide ToBig, Then, Filled, MAGIC;
    assert |MAGIC| == 4 by { MagicBytes(); }
    PutOctets(h, 0, MAGIC, []);
    ghost var w := Then([], 0, MAGIC);
    PutOctets(h, 4, ToBig(1, 4), w);
    w := Then(w, 4, ToBig(1, 4));
    PutOctets(h, 12, ToBig(AUTH_BYTES, 8), w);
    w := Then(w, 12, ToBig(AUTH_BYTES, 8));
    PutOctets(h, 20, ToBig(auxLen, 8), w);
    w := Then(w, 20, ToBig(auxLen, 8));
    PutOctets(h, 28, ToBig(SHA256_RSA2048, 4), w);
    w := Then(w, 28, ToBig(SHA256_RSA2048, 4));
    PutOctets(h, 32, ToBig(0, 8), w);
    w := Then(w, 32, ToBig(0, 8));
    PutOctets(h, 40, ToBig(32, 8), w);
    w := Then(w, 40, ToBig(32, 8));
    PutOctets(h, 48, ToBig(32, 8), w);
    w := Then(w, 48, ToBig(32, 8));
    PutOctets(h, 56, ToBig(256, 8), w);
  }

  lemma MagicBytes()
    ensures |MAGIC| == 4 && |RELEASE| == 11
  {
  }

  method PrintHeaderHigh(h: array<Byte>, auxLen: nat, descriptorBytes: nat, rollback: nat, location: nat)
    requires h.Length == HEADER_BYTES && Filled(h[..], HeaderLow(auxLen))
    modifies h
    ensures Filled(h[..], HeaderHigh(auxLen, descriptorBytes, rollback, location))
  {
    hide ToBig, Then, Filled, HeaderLow, RELEASE;
    MagicBytes();
    ghost var w := HeaderLow(auxLen);
    PutOctets(h, 64, ToBig(0, 8), w);
    w := Then(w, 64, ToBig(0, 8));
    PutOctets(h, 72, ToBig(PUBLIC_KEY_BYTES, 8), w);
    w := Then(w, 72, ToBig(PUBLIC_KEY_BYTES, 8));
    PutOctets(h, 96, ToBig(PUBLIC_KEY_BYTES, 8), w);
    w := Then(w, 96, ToBig(PUBLIC_KEY_BYTES, 8));
    PutOctets(h, 104, ToBig(descriptorBytes, 8), w);
    w := Then(w, 104, ToBig(descriptorBytes, 8));
    PutOctets(h, 112, ToBig(rollback, 8), w);
    w := Then(w, 112, ToBig(rollback, 8));
    PutOctets(h, 124, ToBig(location, 4), w);
    w := Then(w, 124, ToBig(location, 4));
    PutOctets(h, 128, RELEASE, w);
  }

  method PrintAux(publicKey: seq<Byte>, descriptors: seq<Byte>) returns (r: seq<Byte>)
    requires |publicKey| == PUBLIC_KEY_BYTES
    ensures r == AuxOf(publicKey, descriptors)
  {
    hide AuxBytes;
    AuxFits(descriptors);
    var aux := new Byte[AuxBytes(descriptors)](_ => 0);
    FilledFresh(aux[..]);
    PutOctets(aux, 0, publicKey, []);
    PutOctets(aux, PUBLIC_KEY_BYTES, descriptors, Then([], 0, publicKey));
    r := aux[..];
    assert Then(Then([], 0, publicKey), PUBLIC_KEY_BYTES, descriptors) == publicKey + descriptors;
  }

  method PrintHeader(auxLen: nat, descriptorBytes: nat, rollback: nat, location: nat) returns (r: seq<Byte>)
    ensures r == HeaderOf(auxLen, descriptorBytes, rollback, location)
  {
    hide HeaderLow, HeaderHigh, Filled;
    var h := new Byte[HEADER_BYTES](_ => 0);
    FilledFresh(h[..]);
    PrintHeaderLow(h, auxLen);
    PrintHeaderHigh(h, auxLen, descriptorBytes, rollback, location);
    r := h[..];
    FilledIs(r, HeaderHigh(auxLen, descriptorBytes, rollback, location));
  }

  /** The signer is foreign code; the tool stops unless its signature has 256 octets. */
  method SignMetadata(sha: Sha256, sign: seq<Byte> -> seq<Byte>, publicKey: seq<Byte>, rollback: nat, location: nat,
                      descriptors: seq<Byte>)
    returns (r: Option<seq<Byte>>)
    requires |publicKey| == PUBLIC_KEY_BYTES
    ensures var signature := sign(ToSign(publicKey, rollback, location, descriptors));
      r == if |signature| == 256 then Some(Signed(sha, signature, publicKey, rollback, location, descriptors)) else None
  {
    hide HeaderOf, AuxBytes, AuxOf;
    var aux := PrintAux(publicKey, descriptors);
    var header := PrintHeader(|aux|, |descriptors|, rollback, location);
    var digest, signature := sha(header + aux), sign(header + aux);
    if |signature| != 256 {
      return None;
    }
    var output := header + digest + signature;
    assert |output| == HEADER_BYTES + 32 + 256;
    output := output + Zeros(HEADER_BYTES + AUTH_BYTES - |output|);
    return Some(output + aux);
  }

  // ---------- Reading back what was signed ----------

  lemma LowFields(auxLen: nat)
    ensures var f := HeaderLow(auxLen);
      && f[..4] == MAGIC && f[4..8] == ToBig(1, 4) && f[12..20] == ToBig(AUTH_BYTES, 8) && f[20..28] == ToBig(auxLen, 8)
      && f[28..32] == ToBig(SHA256_RSA2048, 4) && f[32..40] == ToBig(0, 8) && f[40..48] == ToBig(32, 8)
      && f[48..56] == ToBig(32, 8) && f[56..64] == ToBig(256, 8)
  {
    hide ToBig;
  }

  lemma HighFields(auxLen: nat, descriptorBytes: nat, rollback: nat, location: nat)
    ensures var f := HeaderHigh(auxLen, descriptorBytes, rollback, location);
      && f[..64] == HeaderLow(auxLen) && f[64..72] == ToBig(0, 8) && f[72..80] == ToBig(PUBLIC_KEY_BYTES, 8)
      && f[96..104] == ToBig(PUBLIC_KEY_BYTES, 8) && f[104..112] == ToBig(descriptorBytes, 8)
      && f[112..120] == ToBig(rollback, 8) && f[120..124] == Zeros(4) && f[124..128] == ToBig(location, 4)
  {
    hide ToBig, HeaderLow;
  }

  /** Sizes that the header's 32- and 64-bit fields can hold. */
  ghost predicate Fits(rollback: nat, location: nat, descriptors: seq<Byte>) {
    rollback < DOUBLE_WORD && location < WORD && AuxBytes(descriptors) < DOUBLE_WORD
  }

  /** A field of the printed header, read out of anything that starts with it. */
  lemma HeaderNumber(f: seq<Byte>, bytes: seq<Byte>, offset: nat, width: nat, v: nat)
    requires |f| <= |bytes| && bytes[..|f|] == f && offset + width <= |f|
    requires f[offset..offset + width] == ToBig(v, width)
    requires (width == 4 && v < WORD) || (width == 8 && v < DOUBLE_WORD)
    ensures Number(bytes, offset, width) == v
  {
    hide ToBig, BigEndian;
    BigOf(v, width);
    assert bytes == f + bytes[|f|..];
    PrefixSlice(f, bytes[|f|..], offset, offset + width);
  }

  ghost predicate LowNumbers(bytes: seq<Byte>, auxLen: nat) {
    && |bytes| >= HEADER_BYTES && bytes[..4] == MAGIC && Number(bytes, 4, 4) == 1 && Number(bytes, 12, 8) == AUTH_BYTES
    && Number(bytes, 20, 8) == auxLen && Number(bytes, 28, 4) == SHA256_RSA2048 && Number(bytes, 32, 8) == 0
    && Number(bytes, 40, 8) == 32 && Number(bytes, 48, 8) == 32 && Number(bytes, 56, 8) == 256
  }

  ghost predicate HighNumbers(bytes: seq<Byte>, descriptorBytes: nat, rollback: nat, location: nat) {
    && |bytes| >= HEADER_BYTES && Number(bytes, 64, 8) == 0 && Number(bytes, 72, 8) == PUBLIC_KEY_BYTES
    && Number(bytes, 96, 8) == PUBLIC_KEY_BYTES && Number(bytes, 104, 8) == descriptorBytes
    && Number(bytes, 112, 8) == rollback
    && Number(bytes, 120, 4) == 0 && Number(bytes, 124, 4) == location
  }

  lemma ReadLow(bytes: seq<Byte>, auxLen: nat)
    requires |bytes| >= HEADER_BYTES && bytes[..64] == HeaderLow(auxLen) && auxLen < DOUBLE_WORD
    ensures LowNumbers(bytes, auxLen)
  {
    hide Number, HeaderLow, ToBig, MAGIC;
    LowFields(auxLen);
    var f := HeaderLow(auxLen);
    assert bytes[..4] == bytes[..64][..4];
    HeaderNumber(f, bytes, 4, 4, 1);
    HeaderNumber(f, bytes, 12, 8, AUTH_BYTES);
    HeaderNumber(f, bytes, 20, 8, auxLen);
    HeaderNumber(f, bytes, 28, 4, SHA256_RSA2048);
    HeaderNumber(f, bytes, 32, 8, 0);
    HeaderNumber(f, bytes, 40, 8, 32);
    HeaderNumber(f, bytes, 48, 8, 32);
    HeaderNumber(f, bytes, 56, 8, 256);
  }

  lemma ReadHigh(bytes: seq<Byte>, auxLen: nat, descriptorBytes: nat, rollback: nat, location: nat)
    requires |bytes| >= HEADER_BYTES && bytes[..139] == HeaderHigh(auxLen, descriptorBytes, rollback, location)
    requires descriptorBytes < DOUBLE_WORD && rollback < DOUBLE_WORD && location < WORD
    ensures HighNumbers(bytes, descriptorBytes, rollback, location)
  {
    hide Number, HeaderHigh, ToBig;
    HighFields(auxLen, descriptorBytes, rollback, location);
    var f := HeaderHigh(auxLen, descriptorBytes, rollback, location);
    HeaderNumber(f, bytes, 64, 8, 0);
    HeaderNumber(f, bytes, 72, 8, PUBLIC_KEY_BYTES);
    HeaderNumber(f, bytes, 96, 8, PUBLIC_KEY_BYTES);
    HeaderNumber(f, bytes, 104, 8, descriptorBytes);
    HeaderNumber(f, bytes, 112, 8, rollback);
    assert Zeros(4) == ToBig(0, 4) by { ZerosAreZero(); }
    HeaderNumber(f, bytes, 120, 4, 0);
    HeaderNumber(f, bytes, 124, 4, location);
  }

  lemma ZerosAreZero()
    ensures Zeros(4) == ToBig(0, 4)
  {
  }

  lemma ReadHeader(bytes: seq<Byte>, auxLen: nat, descriptorBytes: nat, rollback: nat, location: nat)
    requires |bytes| >= HEADER_BYTES && bytes[..HEADER_BYTES] == HeaderOf(auxLen, descriptorBytes, rollback, location)
    requires auxLen < DOUBLE_WORD && descriptorBytes < DOUBLE_WORD && rollback < DOUBLE_WORD && location < WORD
    ensures LowNumbers(bytes, auxLen) && HighNumbers(bytes, descriptorBytes, rollback, location)
  {
    hide HeaderLow, HeaderHigh, LowNumbers, HighNumbers;
    var high := HeaderHigh(auxLen, descriptorBytes, rollback, location);
    assert bytes[..139] == bytes[..HEADER_BYTES][..139] == high;
    assert bytes[..64] == high[..64];
    HighFields(auxLen, descriptorBytes, rollback, location);
    ReadLow(bytes, auxLen);
    ReadHigh(bytes, auxLen, descriptorBytes, rollback, location);
  }

  lemma ReadHash(bytes: seq<Byte>, auxLen: nat, digest: seq<Byte>, signature: seq<Byte>)
    requires LowNumbers(bytes, auxLen) && |digest| == 32 && |signature| == 256
    ensures CheckHash(digest + signature + Zeros(32), bytes) == Ok((digest, signature))
  {
    hide Number, MAGIC, BigEndian;
    var auth := digest + signature + Zeros(32);
    assert auth[0..32] == digest && auth[32..288] == signature;
  }

  lemma ReadKey(bytes: seq<Byte>, publicKey: seq<Byte>, descriptors: seq<Byte>, rollback: nat, location: nat)
    requires HighNumbers(bytes, |descriptors|, rollback, location) && |publicKey| == PUBLIC_KEY_BYTES
    ensures CheckKey(AuxOf(publicKey, descriptors), bytes, publicKey[8..264]) == Ok((publicKey, descriptors))
  {
    hide Number, AuxBytes, BigEndian;
    var aux := AuxOf(publicKey, descriptors);
    assert aux[0..PUBLIC_KEY_BYTES] == publicKey;
    assert aux[PUBLIC_KEY_BYTES..PUBLIC_KEY_BYTES + |descriptors|] == descriptors;
  }

  lemma ReadStructure(header: seq<Byte>, digest: seq<Byte>, signature: seq<Byte>, publicKey: seq<Byte>,
                      descriptors: seq<Byte>,
                      rollback: nat, location: nat)
    requires header == HeaderOf(AuxBytes(descriptors), |descriptors|, rollback, location) && |digest| == 32
    requires |signature| == 256
    requires |publicKey| == PUBLIC_KEY_BYTES && Fits(rollback, location, descriptors)
    ensures var aux := AuxOf(publicKey, descriptors); var bytes := Assembled(header, digest, signature, aux);
      && Structure(bytes, publicKey[8..264]) == Ok(Regions(digest, signature, publicKey, descriptors, aux))
      && HighNumbers(bytes, |descriptors|, rollback, location)
  {
    hide Assembled, HeaderOf, AuxOf, AuxBytes, Number, CheckHash, CheckKey, HighNumbers, MAGIC;
    var aux := AuxOf(publicKey, descriptors);
    var bytes := Assembled(header, digest, signature, aux);
    AuxFits(descriptors);
    ReadHeader(bytes, |aux|, |descriptors|, rollback, location);
    ReadHash(bytes, |aux|, digest, signature);
    ReadKey(bytes, publicKey, descriptors, rollback, location);
    assert bytes[HEADER_BYTES + AUTH_BYTES..HEADER_BYTES + AUTH_BYTES + |aux|] == aux;
  }

  /** The signature that the foreign signer must return. */
  ghost predicate Signs(sha: Sha256, signature: seq<Byte>, publicKey: seq<Byte>, rollback: nat, location: nat,
                        descriptors: seq<Byte>)
    requires |publicKey| == PUBLIC_KEY_BYTES
  {
    && |signature| == 256
    && ValidSignature(publicKey[8..264], signature, sha(ToSign(publicKey, rollback, location, descriptors)))
  }

  /** What the tool signs under a key, the verifier trusting that key's modulus accepts, and it
      returns the rollback index, its location and the descriptors that were signed. */
  lemma SignedAccepted(sha: Sha256, signature: seq<Byte>, publicKey: seq<Byte>, rollback: nat, location: nat,
                       descriptors: seq<Byte>)
    requires |publicKey| == PUBLIC_KEY_BYTES && Fits(rollback, location, descriptors)
    requires Signs(sha, signature, publicKey, rollback, location, descriptors)
    ensures Verdict(sha, Signed(sha, signature, publicKey, rollback, location, descriptors), publicKey[8..264])
         == Ok(Verified(rollback, 0, location, descriptors))
  {
    hide Assembled, HeaderOf, AuxOf, AuxBytes, Number, Structure, ValidSignature, Fits;
    var digest := sha(ToSign(publicKey, rollback, location, descriptors));
    ReadStructure(HeaderOf(AuxBytes(descriptors), |descriptors|, rollback, location), digest, signature,
                  publicKey, descriptors, rollback, location);
  }

  /** End to end: for every image named on the tool's command line, the signed metadata leads to a
      partition check that accepts an image exactly when it begins with that one, or with a collision of
      it, and says whether another is too short or different. */
  lemma SignedImagesAccepted(sha: Sha256, signature: seq<Byte>, publicKey: seq<Byte>, rollback: nat, location: nat,
                             images: seq<Image>, name: seq<Byte>, image: seq<Byte>)
    requires |publicKey| == PUBLIC_KEY_BYTES && Fits(rollback, location, PrintAll(sha, images))
    requires AllRepresentable(images) && First(images, name).Some?
    requires Signs(sha, signature, publicKey, rollback, location, PrintAll(sha, images))
    ensures var verdict := Verdict(sha, Signed(sha, signature, publicKey, rollback, location, PrintAll(sha, images)),
                                   publicKey[8..264]);
      var original := First(images, name).value.bytes;
      && verdict.Ok? && verdict.value.rollbackIndex == rollback
      && var found := Find(verdict.value.descriptors, name);
         && found.Ok? && VerifyPartition(sha, found.value, image) == Judged(sha, [], original, image)
         && (original <= image ==> VerifyPartition(sha, found.value, image) == Ok(()))
  {
    hide Verdict, Signed, Signs, Fits, PrintAll, Find, First, AllRepresentable, VerifyPartition, Judged;
    SignedAccepted(sha, signature, publicKey, rollback, location, PrintAll(sha, images));
    PrintedImageJudged(sha, images, name, image);
    PrintedImageAccepted(sha, images, name, image);
  }

  // ---------- The public key block ----------

  lemma SquaredError(p: int, e: int, k: int, m: int)
    requires p == 1 + e && e == k * m
    ensures p * (2 - p) == 1 - k * k * (m * m)
  {
    assert p * (2 - p) == 1 - e * e;
    assert e * e == k * m * (k * m) == k * k * (m * m);
  }

  lemma Factored(u: int, w: int, s: int, q: int)
    requires w == s * q
    ensures u * w == u * q * s
  {
  }

  /** One Newton step doubles the number of correct bits. */
  lemma NewtonStep(n: int, x: int, m: int, k: int, q: int, w: int, wrapped: int, y: int, a: int, b: int)
    requires n * x == 1 + k * m && m * m * q == w
    requires wrapped == 2 - n * x + a * w && y == x * wrapped + b * w
    ensures n * y == 1 + (n * x * a * q + n * b * q - k * k) * (m * m)
  {
    var p, s := n * x, m * m;
    SquaredError(p, k * m, k, m);
    Factored(p * a, w, s, q);
    Factored(n * b, w, s, q);
    calc {
      n * y;
      { MulAssociative(n, x, wrapped); MulAssociative(n, b, w); }
      p * wrapped + n * b * w;
      { MulAssociative(p, a, w); }
      p * (2 - p) + p * a * w + n * b * w;
      1 + (p * a * q + n * b * q - k * k) * s;
    }
  }

  /** n * x is 1 modulo m. */
  ghost predicate Inverse(n: nat, x: nat, m: nat) {
    exists k: int :: n * x == 1 + k * m
  }

  lemma Wraps(v: int)
    ensures v % WORD == v + -(v / WORD) * WORD
  {
  }

  lemma NewtonDoubles(n: nat, x: nat, m: nat, q: nat)
    requires Inverse(n, x, m) && m * m * q == WORD
    ensures Inverse(n, x * ((2 - n * x % WORD) % WORD) % WORD, m * m)
  {
    var k :| n * x == 1 + k * m;
    var product := n * x % WORD;
    var wrapped := (2 - product) % WORD;
    var y := x * wrapped % WORD;
    Wraps(n * x);
    Wraps(2 - product);
    Wraps(x * wrapped);
    var a, b := n * x / WORD - (2 - product) / WORD, -(x * wrapped / WORD);
    assert wrapped == 2 - n * x + a * WORD;
    NewtonStep(n, x, m, k, q, WORD, wrapped, y, a, b);
    var k' := n * x * a * q + n * b * q - k * k;
    assert n * y == 1 + k' * (m * m);
  }

  /** The modulus reached after some Newton steps: 2, 4, 16, 256, 65536, 2^32. */
  function Precision(steps: nat): (r: nat)
    ensures 2 <= r
  {
    if steps == 0 then 2 else Precision(steps - 1) * Precision(steps - 1)
  }

  lemma PrecisionDivides(steps: nat)
    requires steps < 5
    ensures Precision(0) == 2 && Precision(5) == WORD
    ensures exists q: nat :: Precision(steps) * Precision(steps) * q == WORD
  {
    assert Precision(1) == 4 && Precision(2) == 16 && Precision(3) == 256;
    assert Precision(4) == 0x1_0000 && Precision(5) == WORD;
    var q := if steps == 0 then 0x4000_0000 else if steps == 1 then 0x1000_0000 else if steps == 2 then 0x100_0000
             else if steps == 3 then 0x1_0000 else 1;
    assert Precision(steps) * Precision(steps) * q == WORD;
  }

  /** Five steps of wrapping 32-bit arithmetic give the exact inverse of every odd word. */
  method NewtonInverse(n: nat) returns (inverse: nat)
    ensures inverse < WORD
    ensures n % 2 == 1 ==> n * inverse % WORD == 1
  {
    hide Precision, Inverse;
    inverse := 1;
    if n % 2 == 1 {
      PrecisionDivides(0);
      StartsExact(n);
    }
    for i := 0 to 5
      invariant inverse < WORD
      invariant n % 2 == 1 ==> Inverse(n, inverse, Precision(i))
    {
      if n % 2 == 1 {
        PrecisionDivides(i);
        ghost var q: nat :| Precision(i) * Precision(i) * q == WORD;
        NewtonDoubles(n, inverse, Precision(i), q);
        PrecisionStep(i);
      }
      inverse := inverse * ((2 - n * inverse % WORD) % WORD) % WORD;
    }
    if n % 2 == 1 {
      PrecisionDivides(0);
      EndsExact(n, inverse);
    }
  }

  lemma StartsExact(n: nat)
    requires n % 2 == 1
    ensures Inverse(n, 1, 2)
  {
    assert n * 1 == 1 + (n / 2) * 2;
  }

  lemma PrecisionStep(i: nat)
    ensures Precision(i + 1) == Precision(i) * Precision(i)
  {
  }

  lemma EndsExact(n: nat, x: nat)
    requires Inverse(n, x, WORD)
    ensures n * x % WORD == 1
  {
    var k :| n * x == 1 + k * WORD;
    Wraps(n * x);
  }

  lemma LowWord(modulus: seq<Byte>)
    requires |modulus| == 256
    ensures BigEndian(modulus) % WORD == BigEndian(modulus[252..])
  {
    hide BigEndian, Power;
    var high, low := modulus[..252], modulus[252..];
    assert modulus == high + low;
    BigConcat(high, low);
    BigBound(low);
    Widths();
    DivModUnique(BigEndian(modulus), WORD, BigEndian(high), BigEndian(low));
  }

  /** Negating the inverse of the low word inverts minus the whole modulus. */
  lemma NegatedInverse(n: nat, low: nat, inverse: nat)
    requires n % WORD == low && low * inverse % WORD == 1 && inverse < WORD
    ensures n * ((0 - inverse) % WORD) % WORD == WORD - 1
  {
    var v := (0 - inverse) % WORD;
    assert v == WORD - inverse;
    var k, j := n / WORD, low * inverse / WORD;
    assert n == k * WORD + low && low * inverse == j * WORD + 1;
    assert n * v == (k * v + low - j - 1) * WORD + (WORD - 1) by {
      assert n * v == k * v * WORD + low * v;
      assert low * v == low * WORD - low * inverse;
    }
    DivModUnique(n * v, WORD, k * v + low - j - 1, WORD - 1);
  }

  lemma LowParity(n: nat, low: nat)
    requires n % WORD == low
    ensures low % 2 == n % 2
  {
    assert n == n / WORD * WORD + low;
  }

  lemma NegatedKey(n: nat, low: nat, inverse: nat, negated: nat)
    requires n % WORD == low && inverse < WORD && negated == (0 - inverse) % WORD
    requires low % 2 == 1 ==> low * inverse % WORD == 1
    ensures negated < WORD && (n % 2 == 1 ==> n * negated % WORD == WORD - 1)
  {
    LowParity(n, low);
    if n % 2 == 1 {
      NegatedInverse(n, low, inverse);
    }
  }

  function KeyBlock(bits: seq<Byte>, inverse: seq<Byte>, modulus: seq<Byte>, rr: seq<Byte>): (r: seq<Byte>)
    requires |bits| == 4 && |inverse| == 4 && |modulus| == 256 && |rr| == 256
    ensures |r| == PUBLIC_KEY_BYTES && r[..4] == bits && r[4..8] == inverse && r[8..264] == modulus && r[264..] == rr
  {
    bits + inverse + modulus + rr
  }

  /** The key block: its size in bits, minus the inverse of the modulus modulo 2^32, the modulus,
      and 2^4096 modulo it. */
  method PublicKey(n: nat) returns (r: seq<Byte>)
    requires 0 < n < Power(256, 256)
    ensures |r| == PUBLIC_KEY_BYTES && BigEndian(r[..4]) == 2048 && BigEndian(r[8..264]) == n
    ensures n % 2 == 1 ==> n * BigEndian(r[4..8]) % WORD == WORD - 1
    ensures BigEndian(r[264..]) == Power(2, 4096) % n
  {
    hide BigEndian, ToBig, Power, KeyBlock;
    var modulus := ToBig(n, 256);
    BigRoundTrip(n, 256);
    var low := BigEndian(modulus[252..]);
    LowWord(modulus);
    var inverse := NewtonInverse(low);
    var negated := (0 - inverse) % WORD;
    NegatedKey(n, low, inverse, negated);
    var rr := Power(2, 4096) % n;
    BigRoundTrip(rr, 256);
    BigOf(2048, 4);
    BigOf(negated, 4);
    r := KeyBlock(ToBig(2048, 4), ToBig(negated, 4), modulus, ToBig(rr, 256));
  }
}
