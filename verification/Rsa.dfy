/** The RSA-2048/SHA-256 signature check of verified boot: exponentiation by 65537 on limb
    arithmetic, then comparison with the PKCS#1 v1.5 encoding of the digest. */
module Rsa {
  import opened Arithmetic
  import opened Octets
  import opened BigInt

  const BYTES := 256

  /** The DigestInfo prefix of SHA-256 (section 9.2 of RFC 8017, note 1). */
  const PREFIX: seq<Byte> := [
    0x30, 0x31, 0x30, 0x0d, 0x06, 0x09, 0x60, 0x86, 0x48, 0x01, 0x65, 0x03, 0x04, 0x02, 0x01,
    0x05, 0x00, 0x04, 0x20]

  /** EMSA-PKCS1-v1_5 of a SHA-256 digest in 256 octets (section 9.2 of RFC 8017). */
  function Pkcs1(digest: seq<Byte>): seq<Byte> {
    [0, 1] + seq(202, _ => 0xff) + [0] + PREFIX + digest
  }

  // ---------- Octets and limbs ----------

  lemma BigFour(s: seq<Byte>)
    requires |s| == 4
    ensures BigEndian(s) < LIMB
  {
    BigBound(s);
    Widths();
  }

  lemma LimbOctets(i: nat)
    ensures Power(LIMB, i) == Power(256, 4 * i)
  {
    Widths();
    PowerProduct(256, 4, i);
  }

  lemma ChunkValue(bytes: seq<Byte>, i: nat)
    requires 4 * i + 4 <= |bytes|
    ensures var n := |bytes|;
      BigEndian(bytes[n - 4 * i - 4..]) ==
        BigEndian(bytes[n - 4 * i..]) + BigEndian(bytes[n - 4 * i - 4..n - 4 * i]) * Power(LIMB, i)
  {
    hide BigEndian;
    var n := |bytes|;
    var low, chunk := bytes[n - 4 * i..], bytes[n - 4 * i - 4..n - 4 * i];
    assert bytes[n - 4 * i - 4..] == chunk + low;
    BigConcat(chunk, low);
    LimbOctets(i);
  }

  /** Big-endian octets to limbs. */
  method FromOctets(bytes: seq<Byte>) returns (r: Option<Limbs>)
    ensures r.Some? <==> |bytes| == BYTES
    ensures r.Some? ==> Value(r.value) == BigEndian(bytes)
  {
    hide Value, BigEndian, Power;
    if |bytes| != BYTES {
      return None;
    }
    EmptyValue();
    EmptyBig();
    var value := new Limb[LIMBS](_ => 0);
    assert bytes[BYTES..] == [];
    for i := 0 to LIMBS
      invariant Value(value[..i]) == BigEndian(bytes[BYTES - 4 * i..])
    {
      ghost var before := value[..i];
      var chunk := bytes[BYTES - 4 * i - 4..BYTES - 4 * i];
      BigFour(chunk);
      ChunkValue(bytes, i);
      value[i] := BigEndian(chunk);
      assert value[..i] == before;
      assert value[..][..i + 1] == value[..i + 1] && value[..][..i] == value[..i];
      ValueSnoc(value[..], i);
    }
    assert value[..LIMBS] == value[..] && bytes[0..] == bytes;
    r := Some(value[..]);
  }

  lemma EmptyBig()
    ensures BigEndian([]) == 0
  {
  }

  /** Limbs to big-endian octets, written from the end of the buffer. */
  method ToOctets(value: Limbs) returns (r: seq<Byte>)
    ensures |r| == BYTES && BigEndian(r) == Value(value)
  {
    hide Value, BigEndian, Power, ToBig;
    EmptyValue();
    EmptyBig();
    var encoded := new Byte[BYTES](_ => 0);
    assert encoded[BYTES..] == [];
    for i := 0 to LIMBS
      invariant BigEndian(encoded[BYTES - 4 * i..]) == Value(value[..i])
    {
      ghost var after := encoded[BYTES - 4 * i..];
      var word, start := ToBig(value[i], 4), BYTES - 4 * i - 4;
      for k := 0 to 4
        invariant encoded[BYTES - 4 * i..] == after
        invariant forall j :: 0 <= j < k ==> encoded[start + j] == word[j]
      {
        encoded[start + k] := word[k];
        assert encoded[BYTES - 4 * i..] == after;
      }
      assert encoded[..][start..start + 4] == word;
      Widths();
      BigRoundTrip(value[i], 4);
      assert encoded[..][start..] == encoded[start..] && encoded[..][BYTES - 4 * i..] == after;
      ChunkValue(encoded[..], i);
      ValueSnoc(value, i);
    }
    r := encoded[..];
    assert encoded[0..] == r && value[..LIMBS] == value;
  }

  // ---------- Exponentiation ----------

  /** One squaring step: the exponent doubles. */
  lemma SquareStep(s: nat, bit: nat, n: nat)
    requires 0 < n
    ensures ((Power(s, Power(2, bit)) % n) * (Power(s, Power(2, bit)) % n)) % n == Power(s, Power(2, bit + 1)) % n
  {
    var e := Power(2, bit);
    hide Power;
    ModProduct(Power(s, e), Power(s, e), n);
    PowerSum(s, e, e);
    PowerDoubles(bit + 1);
  }

  /** s to the power 65537 modulo N, by sixteen squarings and two multiplications. */
  method Exponentiate(signature: Limbs, modulus: Limbs) returns (value: Limbs)
    requires Value(signature) < Value(modulus)
    ensures Value(value) == Power(Value(signature), 65537) % Value(modulus)
  {
    hide Value, Power;
    ghost var s, n := Value(signature), Value(modulus);
    value := [1] + seq(63, _ => 0);
    OneValue(value);
    var base := signature;
    StartPower(s, n);
    for bit := 0 to 17
      invariant n > 1 && bit == 0 ==> Value(value) == 1 % n
      invariant 1 <= bit < 17 ==> Value(value) == s % n
      invariant bit == 17 ==> Value(value) == Power(s, 65537) % n
      invariant bit < 17 ==> Value(base) == Power(s, Power(2, bit)) % n
      invariant bit == 0 ==> base == signature
    {
      assert 0 < n && Value(base) < n;
      SquareStep(s, bit, n);
      FinalPower(s, n);
      FirstProduct(s, n);
      assert n == 1 ==> s % n == 0;
      if bit == 0 || bit == 16 {
        value := MultiplyMod(value, base, modulus);
      }
      if bit != 16 {
        base := MultiplyMod(base, base, modulus);
      }
    }
  }

  lemma OneValue(s: Limbs)
    requires s == [1] + seq(63, _ => 0)
    ensures Value(s) == 1
  {
    ValuePadded(s, 63);
    assert s[..1] == [1];
    assert Value([1]) == 1 by {
      assert [1][..0] == [];
    }
  }

  lemma {:induction false} ValuePadded(s: Limbs, k: nat)
    requires k <= 63 && forall i :: 64 - k <= i < 64 ==> s[i] == 0
    ensures Value(s) == Value(s[..64 - k])
  {
    if k == 0 {
      assert s[..64] == s;
    } else {
      ValuePadded(s, k - 1);
      ValueSnoc(s, 64 - k);
    }
  }

  lemma StartPower(s: nat, n: nat)
    requires s < n
    ensures Power(s, Power(2, 0)) % n == s && (n > 1 ==> 1 % n == 1)
  {
    ModBounded(s, n);
    if n > 1 {
      ModBounded(1, n);
    }
    assert Power(2, 0) == 1 && Power(s, 1) == s * Power(s, 0);
  }

  lemma FirstProduct(s: nat, n: nat)
    requires 0 < n
    ensures ((1 % n) * (Power(s, Power(2, 0)) % n)) % n == s % n
  {
    assert Power(2, 0) == 1 && Power(s, 1) == s * Power(s, 0);
    ModProduct(1, s, n);
  }

  lemma FinalPower(s: nat, n: nat)
    requires 0 < n
    ensures ((s % n) * (Power(s, Power(2, 16)) % n)) % n == Power(s, 65537) % n
  {
    SixtyFiveThousand();
    hide Power;
    ModProduct(s, Power(s, 65536), n);
    PowerSum(s, 1, 65536);
    FirstPower(s);
  }

  lemma SixtyFiveThousand()
    ensures Power(2, 16) == 65536
  {
    PowerSum(2, 8, 8);
  }

  lemma FirstPower(s: nat)
    ensures Power(s, 1) == s
  {
    assert Power(s, 0) == 1;
  }

  // ---------- The check ----------

  /** The comparisons the code makes on the recovered octets, one by one. */
  predicate Matches(encoded: seq<Byte>, digest: seq<Byte>)
    requires |encoded| == BYTES && |digest| == 32
  {
    var separator := 256 - |PREFIX| - |digest| - 1;
    && encoded[..2] == [0, 1]
    && (forall i :: 2 <= i < separator ==> encoded[i] == 0xff)
    && encoded[separator] == 0
    && encoded[separator + 1..separator + 1 + |PREFIX|] == PREFIX
    && encoded[256 - |digest|..] == digest
  }

  lemma MatchesIsPkcs1(encoded: seq<Byte>, digest: seq<Byte>)
    requires |encoded| == BYTES && |digest| == 32
    ensures |Pkcs1(digest)| == BYTES
    ensures Matches(encoded, digest) <==> encoded == Pkcs1(digest)
  {
    assert |PREFIX| == 19;
    var p := Pkcs1(digest);
    assert p[..2] == [0, 1] && p[204] == 0 && p[205..224] == PREFIX && p[224..] == digest;
    if Matches(encoded, digest) {
      assert encoded[2..204] == p[2..204];
      assert encoded[204..205] == [0] == p[204..205];
      assert encoded == encoded[..2] + encoded[2..204] + encoded[204..205] + encoded[205..224] + encoded[224..];
      assert p == p[..2] + p[2..204] + p[204..205] + p[205..224] + p[224..];
    }
  }

  /** Acceptance means exactly what section 8.2.2 of RFC 8017 asks: s < N, and s^65537 mod N
      is the PKCS#1 v1.5 encoding of the digest. */
  ghost predicate ValidSignature(modulus: seq<Byte>, signature: seq<Byte>, digest: seq<Byte>) {
    && |modulus| == BYTES && |signature| == BYTES && |digest| == 32
    && BigEndian(signature) < BigEndian(modulus)
    && BigEndian(Pkcs1(digest)) == Power(BigEndian(signature), 65537) % BigEndian(modulus)
  }

  method VerifyRsa(modulus: seq<Byte>, signature: seq<Byte>, digest: seq<Byte>) returns (ok: bool)
    ensures ok <==> ValidSignature(modulus, signature, digest)
  {
    hide Value, BigEndian, Power, Matches, Pkcs1;
    if |modulus| != BYTES || |signature| != BYTES || |digest| != 32 {
      return false;
    }
    var n := FromOctets(modulus);
    var s := FromOctets(signature);
    var order := Compare(s.value, n.value);
    if order != Less {
      return false;
    }
    var value := Exponentiate(s.value, n.value);
    var encoded := ToOctets(value);
    MatchesIsPkcs1(encoded, digest);
    if Matches(encoded, digest) {
      return true;
    }
    if BigEndian(encoded) == BigEndian(Pkcs1(digest)) {
      BigInjective(encoded, Pkcs1(digest));
    }
    return false;
  }
}
