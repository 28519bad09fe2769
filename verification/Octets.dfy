/** Octet strings and the numbers they encode, most or least significant octet first. */
module Octets {
  import opened Arithmetic

  type Byte = b: int | 0 <= b < 256

  type U64 = n: int | 0 <= n < 0x1_0000_0000_0000_0000

  datatype Option<T> = None | Some(value: T)

  /** The number a big-endian octet string stands for (OS2IP of RFC 8017, section 4.2). */
  function BigEndian(s: seq<Byte>): nat {
    if |s| == 0 then 0 else 256 * BigEndian(s[..|s| - 1]) + s[|s| - 1]
  }

  function ToBig(v: nat, n: nat): (s: seq<Byte>)
    ensures |s| == n
    decreases v, n
  {
    if n == 0 then [] else ToBig(v / 256, n - 1) + [v % 256]
  }

  function LittleEndian(s: seq<Byte>): nat {
    if |s| == 0 then 0 else s[0] + 256 * LittleEndian(s[1..])
  }

  function ToLittle(v: nat, n: nat): (s: seq<Byte>)
    ensures |s| == n
    decreases v, n
  {
    if n == 0 then [] else [v % 256] + ToLittle(v / 256, n - 1)
  }

  lemma {:induction false} BigBound(s: seq<Byte>)
    ensures BigEndian(s) < Power(256, |s|)
  {
    if |s| > 0 {
      BigBound(s[..|s| - 1]);
    }
  }

  lemma {:induction false} BigRoundTrip(v: nat, n: nat)
    requires v < Power(256, n)
    ensures BigEndian(ToBig(v, n)) == v
    decreases v, n
  {
    if n > 0 {
      BigRoundTrip(v / 256, n - 1);
      assert ToBig(v, n)[..n - 1] == ToBig(v / 256, n - 1);
    }
  }

  lemma {:induction false} BigInjective(s: seq<Byte>, t: seq<Byte>)
    requires |s| == |t| && BigEndian(s) == BigEndian(t)
    ensures s == t
  {
    if |s| > 0 {
      var n := |s| - 1;
      BigInjective(s[..n], t[..n]);
      assert s == s[..n] + [s[n]] && t == t[..n] + [t[n]];
    }
  }

  lemma {:induction false} BigConcat(s: seq<Byte>, t: seq<Byte>)
    ensures BigEndian(s + t) == BigEndian(s) * Power(256, |t|) + BigEndian(t)
  {
    if |t| == 0 {
      assert s + t == s;
    } else {
      var n := |t| - 1;
      BigConcat(s, t[..n]);
      assert (s + t)[..|s + t| - 1] == s + t[..n];
      assert 256 * (BigEndian(s) * Power(256, n)) == BigEndian(s) * (256 * Power(256, n));
    }
  }

  lemma {:induction false} LittleRoundTrip(v: nat, n: nat)
    requires v < Power(256, n)
    ensures LittleEndian(ToLittle(v, n)) == v
    decreases v, n
  {
    if n > 0 {
      LittleRoundTrip(v / 256, n - 1);
      assert ToLittle(v, n)[1..] == ToLittle(v / 256, n - 1);
    }
  }

  lemma {:induction false} LittleBound(s: seq<Byte>)
    ensures LittleEndian(s) < Power(256, |s|)
  {
    if |s| > 0 {
      LittleBound(s[1..]);
    }
  }

  lemma {:induction false} LittleInjective(s: seq<Byte>, t: seq<Byte>)
    requires |s| == |t| && LittleEndian(s) == LittleEndian(t)
    ensures s == t
  {
    if |s| > 0 {
      LittleInjective(s[1..], t[1..]);
      assert s == [s[0]] + s[1..] && t == [t[0]] + t[1..];
    }
  }

  lemma LittleCanonical(s: seq<Byte>)
    ensures ToLittle(LittleEndian(s), |s|) == s
  {
    LittleBound(s);
    LittleRoundTrip(LittleEndian(s), |s|);
    LittleInjective(ToLittle(LittleEndian(s), |s|), s);
  }

  /** A little-endian word of four or eight octets, written and read back. */
  lemma LittleOf(v: nat, n: nat)
    requires (n == 4 && v < 0x1_0000_0000) || (n == 8 && v < 0x1_0000_0000_0000_0000)
    ensures LittleEndian(ToLittle(v, n)) == v
  {
    Widths();
    LittleRoundTrip(v, n);
  }

  lemma LittleFits(s: seq<Byte>)
    ensures |s| == 4 ==> LittleEndian(s) < 0x1_0000_0000
    ensures |s| == 8 ==> LittleEndian(s) < 0x1_0000_0000_0000_0000
  {
    Widths();
    LittleBound(s);
  }

  /** Word widths as powers of 256. */
  lemma Widths()
    ensures Power(256, 4) == 0x1_0000_0000 && Power(256, 8) == 0x1_0000_0000_0000_0000
  {
    PowerSum(256, 4, 4);
  }

  function Zeros(n: nat): seq<Byte> {
    seq(n, _ => 0)
  }

  // ---------- Buffers filled field by field ----------

  /** What a zeroed buffer holds up to the end of a field written at `offset`, after `w`. */
  function Then(w: seq<Byte>, offset: nat, s: seq<Byte>): (r: seq<Byte>)
    requires |w| <= offset
    ensures |r| == offset + |s| && r[offset..] == s && r[..|w|] == w
  {
    w + Zeros(offset - |w|) + s
  }

  /** A buffer of which `w` has been written and the rest is still zero. */
  ghost predicate Filled(buffer: seq<Byte>, w: seq<Byte>) {
    |w| <= |buffer| && buffer == w + Zeros(|buffer| - |w|)
  }

  lemma FilledFresh(buffer: seq<Byte>)
    requires forall i :: 0 <= i < |buffer| ==> buffer[i] == 0
    ensures Filled(buffer, [])
  {
    assert buffer == [] + Zeros(|buffer|);
  }

  lemma FilledIs(buffer: seq<Byte>, w: seq<Byte>)
    requires Filled(buffer, w)
    ensures |w| <= |buffer| && buffer == w + Zeros(|buffer| - |w|)
  {
  }

  /** Copies a field into a buffer, past everything written so far. */
  method PutOctets(buffer: array<Byte>, offset: nat, s: seq<Byte>, ghost w: seq<Byte>)
    requires |w| <= offset && offset + |s| <= buffer.Length && Filled(buffer[..], w)
    modifies buffer
    ensures Filled(buffer[..], Then(w, offset, s))
  {
    ghost var before := buffer[..];
    for i := 0 to |s|
      invariant buffer[..offset] == before[..offset] && buffer[offset + i..] == before[offset + i..]
      invariant buffer[offset..offset + i] == s[..i]
    {
      buffer[offset + i] := s[i];
      assert buffer[offset + i + 1..] == before[offset + i + 1..];
      assert buffer[offset..offset + i + 1] == s[..i] + [s[i]] == s[..i + 1];
    }
    assert buffer[..] == before[..offset] + s + before[offset + |s|..];
    assert before[..offset] == w + Zeros(offset - |w|);
    assert before[offset + |s|..] == Zeros(buffer.Length - offset - |s|);
  }

  /** Earlier fields are still where they were. */
  lemma ThenKeeps(w: seq<Byte>, offset: nat, s: seq<Byte>, a: nat, b: nat)
    requires |w| <= offset && a <= b <= |w|
    ensures Then(w, offset, s)[a..b] == w[a..b]
  {
    var r := Then(w, offset, s);
    assert r[a..b] == r[..|w|][a..b];
  }

  /** A string that holds `w`, then zeros, then `s`, starts with what filling gives. */
  lemma ThenMatches(b: seq<Byte>, w: seq<Byte>, offset: nat, s: seq<Byte>)
    requires |w| <= offset && offset + |s| <= |b|
    requires w == b[..|w|] && b[|w|..offset] == Zeros(offset - |w|) && b[offset..offset + |s|] == s
    ensures Then(w, offset, s) == b[..offset + |s|]
  {
    assert b[..offset + |s|] == b[..|w|] + b[|w|..offset] + b[offset..offset + |s|];
  }

  /** What was skipped is zero. */
  lemma ThenSkips(w: seq<Byte>, offset: nat, s: seq<Byte>)
    requires |w| <= offset
    ensures Then(w, offset, s)[|w|..offset] == Zeros(offset - |w|)
  {
  }

  lemma PrefixSlice(w: seq<Byte>, rest: seq<Byte>, a: nat, b: nat)
    requires a <= b <= |w|
    ensures (w + rest)[a..b] == w[a..b]
  {
  }

  /** A part found at [start, end) of `w`, read at [low, high) of `w`. */
  lemma PartAt(w: seq<Byte>, start: nat, end: nat, part: seq<Byte>, a: nat, b: nat, low: nat, high: nat)
    requires start <= end <= |w| && w[start..end] == part && a <= b <= |part| && low == start + a && high == start + b
    ensures w[low..high] == part[a..b]
  {
    var x, y := w[low..high], part[a..b];
    assert |x| == |y|;
    forall i | 0 <= i < |x| ensures x[i] == y[i] {
      assert y[i] == w[start..end][a + i] == w[start + a + i];
    }
  }

  /** The second of two strings, read where it stands in the first. */
  lemma SecondAt(w: seq<Byte>, rest: seq<Byte>, a: nat, b: nat, low: nat, high: nat)
    requires a <= b <= |rest| && low == |w| + a && high == |w| + b
    ensures (w + rest)[low..high] == rest[a..b]
  {
  }

  lemma WholeSlice(w: seq<Byte>, n: nat)
    requires n == |w|
    ensures w[0..n] == w
  {
  }

  lemma SameSlice(w: seq<Byte>, a: nat, b: nat, c: nat, d: nat)
    requires a == c && b == d && a <= b <= |w|
    ensures w[a..b] == w[c..d]
  {
  }

  lemma ThreeParts(w: seq<Byte>, a: seq<Byte>, b: seq<Byte>, c: seq<Byte>, x: nat, y: nat)
    requires w == a + b + c && x == |a| && y == |a| + |b|
    ensures w[0..x] == a && w[x..y] == b && w[y..|w|] == c
  {
  }

  lemma Associate(a: seq<Byte>, b: seq<Byte>, c: seq<Byte>)
    ensures a + b + c == a + (b + c)
  {
  }
}
