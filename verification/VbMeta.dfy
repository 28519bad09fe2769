/** Verified-boot metadata: the tool that prints hash descriptors and signs them, the
    verifier that authenticates and searches them, and the promise that the second
    accepts what the first wrote. SHA-256 is a parameter of which only the digest length
    is used. */
module VbMeta {
  import opened Octets

  type Sha256 = h: seq<Byte> -> seq<Byte> | forall m :: |h(m)| == 32 witness (m => Zeros(32))

  datatype Error = Bounds | Header | UnsupportedAlgorithm | UntrustedKey | Digest | Signature | Descriptor
    | MissingPartition

  datatype Result<T> = Ok(value: T) | Err(error: Error)

  const HEADER_BYTES := 256
  const AUTH_BYTES := 320
  const PUBLIC_KEY_BYTES := 520
  const HASH_TAG := 2
  const FIXED_BYTES := 132

  const SHA256_NAME: seq<Byte> := [0x73, 0x68, 0x61, 0x32, 0x35, 0x36]

  datatype HashDescriptor = HashDescriptor(imageSize: nat, name: seq<Byte>, salt: seq<Byte>, digest: seq<Byte>,
                                           flags: nat)

  function BeAt(bytes: seq<Byte>, offset: nat, width: nat): Result<nat> {
    if offset + width <= |bytes| then Ok(BigEndian(bytes[offset..offset + width])) else Err(Bounds)
  }

  function Slice(bytes: seq<Byte>, start: nat, end: nat): Result<seq<Byte>> {
    if start <= end <= |bytes| then Ok(bytes[start..end]) else Err(Bounds)
  }

  // ---------- The verifier's descriptor parser ----------

  function ParseHashDescriptor(bytes: seq<Byte>): Result<HashDescriptor> {
    if |bytes| < FIXED_BYTES || bytes[24..56] != SHA256_NAME + Zeros(26) then Err(Descriptor)
    else
      var nameLen, saltLen, digestLen := BeAt(bytes, 56, 4).value, BeAt(bytes, 60, 4).value, BeAt(bytes, 64, 4).value;
      if digestLen != 32 then Err(Descriptor)
      else
        var payload := bytes[FIXED_BYTES..];
        var saltEnd := nameLen + saltLen;
        if saltEnd + digestLen > |payload| then Err(Bounds)
        else Ok(HashDescriptor(BeAt(bytes, 16, 8).value, payload[..nameLen], payload[nameLen..saltEnd],
                               payload[saltEnd..saltEnd + digestLen], BeAt(bytes, 68, 4).value))
  }

  /** Name, salt and digest follow each other behind the fixed part, at the lengths stated there. */
  lemma ParseLaidOut(bytes: seq<Byte>, d: HashDescriptor, padding: seq<Byte>)
    requires |bytes| >= FIXED_BYTES && bytes[24..56] == SHA256_NAME + Zeros(26) && |d.digest| == 32
    requires BeAt(bytes, 16, 8) == Ok(d.imageSize) && BeAt(bytes, 56, 4) == Ok(|d.name|)
    requires BeAt(bytes, 60, 4) == Ok(|d.salt|) && BeAt(bytes, 64, 4) == Ok(32) && BeAt(bytes, 68, 4) == Ok(d.flags)
    requires bytes[FIXED_BYTES..] == d.name + d.salt + d.digest + padding
    ensures ParseHashDescriptor(bytes) == Ok(d)
  {
    hide BeAt, SHA256_NAME;
    var payload := bytes[FIXED_BYTES..];
    var a, b := |d.name|, |d.name| + |d.salt|;
    assert payload[..a] == d.name && payload[a..b] == d.salt && payload[b..b + 32] == d.digest;
  }

  /** The search as a function of what remains to be read. */
  function Find(remaining: seq<Byte>, partition: seq<Byte>): Result<HashDescriptor>
    decreases |remaining|
  {
    if remaining == [] then Err(MissingPartition)
    else if |remaining| < 16 then Err(Descriptor)
    else
      var tag, total := BeAt(remaining, 0, 8).value, 16 + BeAt(remaining, 8, 8).value;
      if total > |remaining| then Err(Bounds)
      else if tag != HASH_TAG then Find(remaining[total..], partition)
      else
        var parsed := ParseHashDescriptor(remaining[..total]);
        if parsed.Err? then Err(parsed.error)
        else if parsed.value.name == partition then Ok(parsed.value)
        else Find(remaining[total..], partition)
  }

  method FindHashDescriptor(descriptors: seq<Byte>, partition: seq<Byte>) returns (r: Result<HashDescriptor>)
    ensures r == Find(descriptors, partition)
  {
    var remaining := descriptors;
    while remaining != []
      invariant Find(remaining, partition) == Find(descriptors, partition)
      decreases |remaining|
    {
      if |remaining| < 16 {
        return Err(Descriptor);
      }
      var tag, following := BeAt(remaining, 0, 8).value, BeAt(remaining, 8, 8).value;
      if 16 + following > |remaining| {
        return Err(Bounds);
      }
      if tag == HASH_TAG {
        var parsed := ParseHashDescriptor(remaining[..16 + following]);
        if parsed.Err? {
          return Err(parsed.error);
        }
        if parsed.value.name == partition {
          return Ok(parsed.value);
        }
      }
      remaining := remaining[16 + following..];
    }
    return Err(MissingPartition);
  }

  function VerifyPartition(sha: Sha256, descriptor: HashDescriptor, image: seq<Byte>): Result<()> {
    if descriptor.imageSize > |image| then Err(Bounds)
    else if sha(descriptor.salt + image[..descriptor.imageSize]) == descriptor.digest then Ok(())
    else Err(Digest)
  }

  // ---------- The tool's printer ----------

  function Align(value: nat, alignment: nat): nat
    requires 0 < alignment
  {
    (value + alignment - 1) / alignment * alignment
  }

  function DescriptorBytes(name: seq<Byte>): nat {
    Align(FIXED_BYTES + |name| + 32, 8)
  }

  lemma AlignEight(value: nat)
    ensures value <= Align(value, 8) < value + 8
  {
  }

  /** The fixed fields of a printed descriptor, at their offsets. */
  function FixedPart(name: seq<Byte>, imageSize: nat): (r: seq<Byte>)
    ensures |r| == 68
  {
    DescriptorFits(name);
    var w := Then([], 0, ToBig(HASH_TAG, 8));
    var w := Then(w, 8, ToBig(DescriptorBytes(name) - 16, 8));
    var w := Then(w, 16, ToBig(imageSize, 8));
    var w := Then(w, 24, SHA256_NAME);
    var w := Then(w, 56, ToBig(|name|, 4));
    var w := Then(w, 60, ToBig(0, 4));
    Then(w, 64, ToBig(32, 4))
  }

  function Body(sha: Sha256, name: seq<Byte>, image: seq<Byte>): (r: seq<Byte>)
    ensures |r| == FIXED_BYTES + |name| + 32
  {
    Then(Then(FixedPart(name, |image|), FIXED_BYTES, name), FIXED_BYTES + |name|, sha(image))
  }

  /** One printed descriptor: its fields, padded with zeros to eight bytes. */
  function Printed(sha: Sha256, name: seq<Byte>, image: seq<Byte>): (r: seq<Byte>)
    ensures |r| == DescriptorBytes(name)
  {
    DescriptorFits(name);
    Body(sha, name, image) + Zeros(DescriptorBytes(name) - FIXED_BYTES - |name| - 32)
  }

  lemma DescriptorFits(name: seq<Byte>)
    ensures FIXED_BYTES + |name| + 32 <= DescriptorBytes(name) < FIXED_BYTES + |name| + 40
    ensures |SHA256_NAME| == 6
  {
    AlignEight(FIXED_BYTES + |name| + 32);
  }

  /** Fills the fixed fields of a zeroed descriptor, in the order the tool does. */
  method PrintFixed(d: array<Byte>, name: seq<Byte>, imageSize: nat)
    requires d.Length == DescriptorBytes(name) && Filled(d[..], [])
    modifies d
    ensures Filled(d[..], FixedPart(name, imageSize))
  {
    hide ToBig, DescriptorBytes, Then, Filled, SHA256_NAME;
    DescriptorFits(name);
    PutOctets(d, 0, ToBig(HASH_TAG, 8), []);
    ghost var w := Then([], 0, ToBig(HASH_TAG, 8));
    PutOctets(d, 8, ToBig(d.Length - 16, 8), w);
    w := Then(w, 8, ToBig(d.Length - 16, 8));
    PutOctets(d, 16, ToBig(imageSize, 8), w);
    w := Then(w, 16, ToBig(imageSize, 8));
    PutOctets(d, 24, SHA256_NAME, w);
    w := Then(w, 24, SHA256_NAME);
    PutOctets(d, 56, ToBig(|name|, 4), w);
    w := Then(w, 56, ToBig(|name|, 4));
    PutOctets(d, 60, ToBig(0, 4), w);
    w := Then(w, 60, ToBig(0, 4));
    PutOctets(d, 64, ToBig(32, 4), w);
  }

  method PrintHashDescriptor(sha: Sha256, name: seq<Byte>, image: seq<Byte>) returns (r: seq<Byte>)
    ensures r == Printed(sha, name, image)
  {
    hide ToBig, DescriptorBytes, Then, Filled, FixedPart;
    DescriptorFits(name);
    var d := new Byte[DescriptorBytes(name)](_ => 0);
    FilledFresh(d[..]);
    PrintFixed(d, name, |image|);
    ghost var w := FixedPart(name, |image|);
    PutOctets(d, FIXED_BYTES, name, w);
    PutOctets(d, FIXED_BYTES + |name|, sha(image), Then(w, FIXED_BYTES, name));
    r := d[..];
    FilledIs(r, Body(sha, name, image));
  }

  // ---------- Parsing back what was printed ----------

  lemma FixedFields(name: seq<Byte>, imageSize: nat)
    ensures var f := FixedPart(name, imageSize);
      && f[0..8] == ToBig(HASH_TAG, 8) && f[8..16] == ToBig(DescriptorBytes(name) - 16, 8)
      && f[16..24] == ToBig(imageSize, 8) && f[24..56] == SHA256_NAME + Zeros(26)
      && f[56..60] == ToBig(|name|, 4) && f[60..64] == ToBig(0, 4) && f[64..68] == ToBig(32, 4)
  {
    hide ToBig;
    DescriptorFits(name);
    var w1 := Then([], 0, ToBig(HASH_TAG, 8));
    var w2 := Then(w1, 8, ToBig(DescriptorBytes(name) - 16, 8));
    var w3 := Then(w2, 16, ToBig(imageSize, 8));
    var w4 := Then(w3, 24, SHA256_NAME);
    var w5 := Then(w4, 56, ToBig(|name|, 4));
    assert w5[24..56] == SHA256_NAME + Zeros(26);
  }

  lemma PrintedFixed(sha: Sha256, name: seq<Byte>, image: seq<Byte>, a: nat, b: nat)
    requires a <= b <= 68
    ensures Printed(sha, name, image)[a..b] == FixedPart(name, |image|)[a..b]
  {
    hide Then, FixedPart, DescriptorBytes;
    DescriptorFits(name);
    var f := FixedPart(name, |image|);
    ThenKeeps(f, FIXED_BYTES, name, a, b);
    var g := Then(f, FIXED_BYTES, name);
    ThenKeeps(g, FIXED_BYTES + |name|, sha(image), a, b);
    PrefixSlice(Body(sha, name, image), Zeros(DescriptorBytes(name) - FIXED_BYTES - |name| - 32), a, b);
  }

  /** Past the fixed part comes a gap of zeros, then the name, then the digest. */
  lemma BodyPayload(sha: Sha256, name: seq<Byte>, image: seq<Byte>)
    ensures var body := Body(sha, name, image);
      && body[68..FIXED_BYTES] == Zeros(FIXED_BYTES - 68) && body[FIXED_BYTES..FIXED_BYTES + |name|] == name
      && body[FIXED_BYTES + |name|..] == sha(image)
  {
    hide FixedPart, Then;
    var f := FixedPart(name, |image|);
    var g := Then(f, FIXED_BYTES, name);
    ThenSkips(f, FIXED_BYTES, name);
    ThenKeeps(g, FIXED_BYTES + |name|, sha(image), 68, FIXED_BYTES);
    ThenKeeps(g, FIXED_BYTES + |name|, sha(image), FIXED_BYTES, FIXED_BYTES + |name|);
    assert g[FIXED_BYTES..FIXED_BYTES + |name|] == g[FIXED_BYTES..];
  }

  lemma PrintedPayload(sha: Sha256, name: seq<Byte>, image: seq<Byte>)
    ensures |Printed(sha, name, image)| >= FIXED_BYTES + |name| + 32
    ensures var d := Printed(sha, name, image);
      && d[68..72] == Zeros(4) && d[FIXED_BYTES..][..|name|] == name
      && d[FIXED_BYTES..][|name|..|name| + 32] == sha(image)
  {
    hide Body, DescriptorBytes;
    DescriptorFits(name);
    BodyPayload(sha, name, image);
    var d, body := Printed(sha, name, image), Body(sha, name, image);
    var padding := Zeros(|d| - |body|);
    assert d[68..72] == Zeros(4) by {
      PrefixSlice(body, padding, 68, 72);
      assert body[68..72] == body[68..FIXED_BYTES][..4] == Zeros(4);
    }
    assert d[FIXED_BYTES..] == body[FIXED_BYTES..FIXED_BYTES + |name|] + body[FIXED_BYTES + |name|..] + padding;
  }

  lemma BigOf(v: nat, n: nat)
    requires (n == 4 && v < 0x1_0000_0000) || (n == 8 && v < 0x1_0000_0000_0000_0000)
    ensures BigEndian(ToBig(v, n)) == v
  {
    Widths();
    BigRoundTrip(v, n);
  }

  lemma BigZeros()
    ensures BigEndian(Zeros(4)) == 0
  {
    assert Zeros(4) == ToBig(0, 4);
    BigOf(0, 4);
  }

  /** Sizes that the descriptor's 32- and 64-bit fields can hold. */
  ghost predicate Representable(name: seq<Byte>, image: seq<Byte>) {
    |name| < 0x1_0000_0000 && |image| < 0x1_0000_0000_0000_0000
  }

  lemma PrintedNumber(sha: Sha256, name: seq<Byte>, image: seq<Byte>, a: nat, n: nat, v: nat)
    requires a + n <= 68 && FixedPart(name, |image|)[a..a + n] == ToBig(v, n)
    requires (n == 4 && v < 0x1_0000_0000) || (n == 8 && v < 0x1_0000_0000_0000_0000)
    ensures BeAt(Printed(sha, name, image), a, n) == Ok(v)
  {
    hide ToBig, Printed, FixedPart, BigEndian, DescriptorBytes;
    DescriptorFits(name);
    PrintedFixed(sha, name, image, a, a + n);
    BigOf(v, n);
  }

  /** The numbers found at the fixed offsets of a printed descriptor. */
  lemma PrintedNumbers(sha: Sha256, name: seq<Byte>, image: seq<Byte>)
    requires Representable(name, image)
    ensures var d := Printed(sha, name, image);
      && |d| >= FIXED_BYTES && BeAt(d, 0, 8) == Ok(HASH_TAG) && BeAt(d, 8, 8) == Ok(|d| - 16)
      && BeAt(d, 16, 8) == Ok(|image|)
      && BeAt(d, 56, 4) == Ok(|name|) && BeAt(d, 60, 4) == Ok(0) && BeAt(d, 64, 4) == Ok(32) && BeAt(d, 68, 4) == Ok(0)
      && d[24..56] == SHA256_NAME + Zeros(26)
  {
    hide ToBig, Printed, FixedPart, BigEndian, SHA256_NAME, DescriptorBytes;
    DescriptorFits(name);
    FixedFields(name, |image|);
    PrintedNumber(sha, name, image, 0, 8, HASH_TAG);
    PrintedNumber(sha, name, image, 8, 8, DescriptorBytes(name) - 16);
    PrintedNumber(sha, name, image, 16, 8, |image|);
    PrintedNumber(sha, name, image, 56, 4, |name|);
    PrintedNumber(sha, name, image, 60, 4, 0);
    PrintedNumber(sha, name, image, 64, 4, 32);
    PrintedFixed(sha, name, image, 24, 56);
    PrintedPayload(sha, name, image);
    BigZeros();
  }

  /** A printed descriptor parses back to its name, its image's size and its image's digest. */
  lemma ParsePrinted(sha: Sha256, name: seq<Byte>, image: seq<Byte>)
    requires Representable(name, image)
    ensures ParseHashDescriptor(Printed(sha, name, image)) == Ok(HashDescriptor(|image|, name, [], sha(image), 0))
  {
    hide Printed, BeAt, SHA256_NAME, ParseHashDescriptor;
    PrintedPayload(sha, name, image);
    PrintedNumbers(sha, name, image);
    var payload, digest := Printed(sha, name, image)[FIXED_BYTES..], sha(image);
    var padding := payload[|name| + 32..];
    assert payload == name + [] + digest + padding;
    ParseLaidOut(Printed(sha, name, image), HashDescriptor(|image|, name, [], digest, 0), padding);
  }

  // ---------- Lists of images ----------

  datatype Image = Image(name: seq<Byte>, bytes: seq<Byte>)

  function PrintAll(sha: Sha256, images: seq<Image>): seq<Byte> {
    if images == [] then [] else Printed(sha, images[0].name, images[0].bytes) + PrintAll(sha, images[1..])
  }

  /** The first image of that name, if any. */
  function First(images: seq<Image>, name: seq<Byte>): Option<Image> {
    if images == [] then None else if images[0].name == name then Some(images[0]) else First(images[1..], name)
  }

  lemma FindStep(d: seq<Byte>, rest: seq<Byte>, name: seq<Byte>, parsed: HashDescriptor)
    requires |d| >= 16 && BeAt(d, 0, 8) == Ok(HASH_TAG) && BeAt(d, 8, 8) == Ok(|d| - 16)
    requires ParseHashDescriptor(d) == Ok(parsed)
    ensures Find(d + rest, name) == if parsed.name == name then Ok(parsed) else Find(rest, name)
  {
    hide ParseHashDescriptor, BigEndian;
    var all := d + rest;
    assert all[..|d|] == d && all[|d|..] == rest;
    assert all[0..8] == d[0..8] && all[8..16] == d[8..16];
  }

  lemma FindNothing(name: seq<Byte>)
    ensures Find([], name) == Err(MissingPartition)
  {
  }

  function Described(sha: Sha256, found: Option<Image>): Result<HashDescriptor> {
    match found
    case None => Err(MissingPartition)
    case Some(image) => Ok(HashDescriptor(|image.bytes|, image.name, [], sha(image.bytes), 0))
  }

  ghost predicate AllRepresentable(images: seq<Image>) {
    forall i :: 0 <= i < |images| ==> Representable(images[i].name, images[i].bytes)
  }

  lemma FindFirstPrinted(sha: Sha256, image: Image, rest: seq<Byte>, name: seq<Byte>)
    requires Representable(image.name, image.bytes)
    ensures Find(Printed(sha, image.name, image.bytes) + rest, name) ==
            if image.name == name then Described(sha, Some(image)) else Find(rest, name)
  {
    hide Printed, ParseHashDescriptor, BeAt, Find;
    PrintedNumbers(sha, image.name, image.bytes);
    ParsePrinted(sha, image.name, image.bytes);
    FindStep(Printed(sha, image.name, image.bytes), rest, name,
             HashDescriptor(|image.bytes|, image.name, [], sha(image.bytes), 0));
  }

  /** Looking a name up in the printed list finds the first image so named, and nothing otherwise. */
  lemma {:induction false} FindPrinted(sha: Sha256, images: seq<Image>, name: seq<Byte>)
    requires AllRepresentable(images)
    ensures Find(PrintAll(sha, images), name) == Described(sha, First(images, name))
  {
    hide Printed, Find;
    if images == [] {
      FindNothing(name);
    } else {
      FindPrinted(sha, images[1..], name);
      FindFirstPrinted(sha, images[0], PrintAll(sha, images[1..]), name);
    }
  }

  /** What a partition check may answer for an image of which `original` was recorded, salted or not. */
  function Judged(sha: Sha256, salt: seq<Byte>, original: seq<Byte>, image: seq<Byte>): Result<()> {
    if |image| < |original| then Err(Bounds)
    else if sha(salt + image[..|original|]) != sha(salt + original) then Err(Digest)
    else Ok(())
  }

  /** A descriptor made for an image accepts exactly what begins with that image, or with as many bytes that
      hash the same behind the salt. */
  lemma DescriptorJudges(sha: Sha256, name: seq<Byte>, salt: seq<Byte>, original: seq<Byte>, flags: nat,
                         image: seq<Byte>)
    ensures VerifyPartition(sha, HashDescriptor(|original|, name, salt, sha(salt + original), flags), image) ==
            Judged(sha, salt, original, image)
  {
  }

  /** The descriptor found for a name in the printed list judges every image by the first one so named. */
  lemma PrintedImageJudged(sha: Sha256, images: seq<Image>, name: seq<Byte>, image: seq<Byte>)
    requires AllRepresentable(images) && First(images, name).Some?
    ensures var found := Find(PrintAll(sha, images), name);
      found.Ok? && VerifyPartition(sha, found.value, image) == Judged(sha, [], First(images, name).value.bytes, image)
  {
    hide Find, PrintAll, First, AllRepresentable, VerifyPartition;
    FindPrinted(sha, images, name);
    var original := First(images, name).value.bytes;
    DescriptorJudges(sha, First(images, name).value.name, [], original, 0, image);
    NoSalt(original);
  }

  /** So an image that is refused neither for its length nor for its digest begins with the original, or
      with a collision of it; and the original is accepted, with or without trailing bytes. */
  lemma PrintedImageAccepted(sha: Sha256, images: seq<Image>, name: seq<Byte>, image: seq<Byte>)
    requires AllRepresentable(images) && First(images, name).Some?
    ensures var found, original := Find(PrintAll(sha, images), name), First(images, name).value.bytes;
      && found.Ok?
      && (VerifyPartition(sha, found.value, image) == Ok(()) <==>
            |original| <= |image| && sha(image[..|original|]) == sha(original))
      && (original <= image ==> VerifyPartition(sha, found.value, image) == Ok(()))
  {
    hide Find, PrintAll, First, AllRepresentable, VerifyPartition, Judged;
    PrintedImageJudged(sha, images, name, image);
    Unsalted(sha, First(images, name).value.bytes, image);
  }

  lemma Unsalted(sha: Sha256, original: seq<Byte>, image: seq<Byte>)
    ensures Judged(sha, [], original, image) == Ok(()) <==>
            |original| <= |image| && sha(image[..|original|]) == sha(original)
    ensures original <= image ==> Judged(sha, [], original, image) == Ok(())
  {
    NoSalt(original);
    if |original| <= |image| {
      NoSalt(image[..|original|]);
      if original <= image {
        assert image[..|original|] == original;
      }
    }
  }

  lemma NoSalt(bytes: seq<Byte>)
    ensures [] + bytes == bytes
  {
  }
}
