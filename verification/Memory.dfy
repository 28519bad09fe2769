/** Byte-addressed memory: the bytes an allocator works on, and the little-endian
    64-bit words it keeps among them. */
module Memory {

  import opened Octets

  const WORD_LIMIT: int := 0x1_0000_0000_0000_0000

  /** Memory by address; bytes never written read as zero. */
  type Bytes = map<int, Byte>

  function At(m: Bytes, x: int): Byte {
    if x in m then m[x] else 0
  }

  /** The little-endian number held by the bytes [a, end). */
  function Little(m: Bytes, a: int, end: int): nat
    decreases end - a
  {
    if a >= end then 0 else At(m, a) + 256 * Little(m, a + 1, end)
  }

  function Word(m: Bytes, a: int): nat {
    Little(m, a, a + 8)
  }

  function Power256(n: nat): nat {
    if n == 0 then 1 else 256 * Power256(n - 1)
  }

  /** `m` with the bytes [a, end) overwritten by the low digits of `v`. */
  function PutLittle(m: Bytes, a: int, end: int, v: nat): (r: Bytes)
    ensures forall x :: x < a || end <= x ==> At(r, x) == At(m, x)
    ensures a <= end && v < Power256(end - a) ==> Little(r, a, end) == v
    decreases end - a
  {
    if a >= end then m else PutLittle(m[a := v % 256], a + 1, end, v / 256)
  }

  /** `m` with the word at `a` overwritten by the low 64 bits of `v`. */
  function PutWord(m: Bytes, a: int, v: nat): (r: Bytes)
    ensures v < WORD_LIMIT ==> Word(r, a) == v
    ensures forall x :: x < a || a + 8 <= x ==> At(r, x) == At(m, x)
    ensures forall b :: b + 8 <= a || a + 8 <= b ==> Word(r, b) == Word(m, b)
  {
    var r := PutLittle(m, a, a + 8, v);
    assert Power256(8) == WORD_LIMIT;
    assert forall b :: b + 8 <= a || a + 8 <= b ==> Word(r, b) == Word(m, b) by {
      forall b | b + 8 <= a || a + 8 <= b ensures Word(r, b) == Word(m, b) {
        LittleFrame(m, r, b, b + 8);
      }
    }
    r
  }

  /** The two memories agree on [low, high). */
  ghost predicate Same(m: Bytes, m': Bytes, low: int, high: int) {
    forall x :: low <= x < high ==> At(m', x) == At(m, x)
  }

  lemma {:induction false} LittleFrame(m: Bytes, m': Bytes, a: int, end: int)
    requires Same(m, m', a, end)
    ensures Little(m', a, end) == Little(m, a, end)
    decreases end - a
  {
    if a < end {
      LittleFrame(m, m', a + 1, end);
    }
  }

  lemma {:induction false} LittleBound(m: Bytes, a: int, end: int)
    requires a <= end
    ensures Little(m, a, end) < Power256(end - a)
    decreases end - a
  {
    if a < end {
      LittleBound(m, a + 1, end);
    }
  }

  /** Words of memories that agree on the bytes they cover are equal. */
  lemma WordFrame(m: Bytes, m': Bytes, a: int)
    requires Same(m, m', a, a + 8)
    ensures Word(m', a) == Word(m, a)
  {
    LittleFrame(m, m', a, a + 8);
  }
}
