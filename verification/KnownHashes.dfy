/** The hashes that MessageShardFilterTests.cs expects of the empty message and of "a", worked
    out byte by byte. */
module KnownHashes {
  import opened Bits
  import opened MessageShardFilter

  // ---- exclusive or, byte by byte -------------------------------------------------------

  lemma SplitAt(x: nat, u: nat, l: nat, k: nat, p: nat)
    requires p == Pow2(k) && l < p && x == u * p + l
    ensures Shr(x, k) == u && Low(x, k) == l
  {
    Split(x, k);
    UniqueQuotient(x, p, Shr(x, k), Low(x, k));
    UniqueQuotient(x, p, u, l);
  }

  lemma XorOfSums(x: nat, y: nat, u: nat, l: nat, v: nat, o: nat, k: nat, p: nat)
    requires p == Pow2(k) && l < p && o < p && x == u * p + l && y == v * p + o
    ensures Xor(x, y) == Xor(u, v) * p + Xor(l, o)
  {
    SplitAt(x, u, l, k, p);
    SplitAt(y, v, o, k, p);
    XorShift(x, y, k);
    XorLow(x, y, k);
    Split(Xor(x, y), k);
  }

  lemma AppendByte(u: nat, l: nat, v: nat, o: nat)
    requires l < 256 && o < 256
    ensures Xor(u * 256 + l, v * 256 + o) == Xor(u, v) * 256 + Xor(l, o)
  {
    ShiftSizes();
    XorOfSums(u * 256 + l, v * 256 + o, u, l, v, o, 8, 256);
  }

  // Things worth numbers that are halved and combined one bit at a time.

  predicate Halves<T>(val: T -> nat, half: T -> T, a: T) { val(half(a)) == val(a) / 2 }

  predicate Combines<T>(val: T -> nat, half: T -> T, combine: (T, T) -> T, a: T, b: T) {
    val(combine(a, b)) == 2 * val(combine(half(a), half(b))) + (val(a) + val(b)) % 2
  }

  predicate KeepsZero<T>(val: T -> nat, combine: (T, T) -> T, a: T, b: T) {
    val(a) == 0 && val(b) == 0 ==> val(combine(a, b)) == 0
  }

  predicate Unfolds(xor: (nat, nat) -> nat, n: nat, m: nat) { xor(n, m) == 2 * xor(n / 2, m / 2) + (n + m) % 2 }

  lemma {:induction false} XorOfValues<T(!new)>(xor: (nat, nat) -> nat, val: T -> nat, half: T -> T, combine: (T, T) -> T, a: T, b: T)
    requires (forall c: T :: Halves(val, half, c)) && (forall c: T, d: T :: Combines(val, half, combine, c, d))
    requires forall c: T, d: T :: KeepsZero(val, combine, c, d)
    requires forall n: nat, m: nat :: Unfolds(xor, n, m)
    ensures xor(val(a), val(b)) == val(combine(a, b))
    decreases val(a) + val(b)
  {
    assert Halves(val, half, a) && Halves(val, half, b) && Combines(val, half, combine, a, b) && KeepsZero(val, combine, a, b);
    assert Unfolds(xor, val(a), val(b));
    if val(a) + val(b) > 0 {
      XorOfValues(xor, val, half, combine, half(a), half(b));
    }
  }

  lemma XorUnfolds(n: nat, m: nat)
    ensures Xor(n, m) == 2 * Xor(n / 2, m / 2) + (n + m) % 2
  {
    if n == 0 && m == 0 {
      assert Xor(0, 0) == 0;
    }
  }

  function HalfByte(a: bv8): bv8 { a >> 1 }

  function XorByte(a: bv8, b: bv8): bv8 { a ^ b }

  function LowBit(a: bv8): nat { if a & 1 == 1 then 1 else 0 }

  /** The number a byte stands for, bit by bit. */
  function BitValue(a: bv8): nat
    decreases a
  {
    if a == 0 then 0 else 2 * BitValue(HalfByte(a)) + LowBit(a)
  }

  lemma BitValueUnfolds(a: bv8)
    ensures BitValue(a) == 2 * BitValue(HalfByte(a)) + LowBit(a)
  {
    if a == 0 {
      assert HalfByte(a) == 0;
    }
  }

  lemma HalfOfXor(a: bv8, b: bv8)
    ensures HalfByte(XorByte(a, b)) == XorByte(HalfByte(a), HalfByte(b))
    ensures LowBit(XorByte(a, b)) == if LowBit(a) == LowBit(b) then 0 else 1
  {}

  lemma ByteHalves(a: bv8)
    ensures Halves(BitValue, HalfByte, a)
  {
    BitValueUnfolds(a);
  }

  lemma Parity(n: nat, m: nat, n': nat, m': nat, x: nat, y: nat)
    requires n == 2 * n' + x && m == 2 * m' + y && x < 2 && y < 2
    ensures (n + m) % 2 == if x == y then 0 else 1
  {}

  lemma CombinesByBits<T>(val: T -> nat, half: T -> T, low: T -> nat, combine: (T, T) -> T, a: T, b: T)
    requires val(a) == 2 * val(half(a)) + low(a) && val(b) == 2 * val(half(b)) + low(b) && low(a) < 2 && low(b) < 2
    requires val(combine(a, b)) == 2 * val(half(combine(a, b))) + low(combine(a, b))
    requires half(combine(a, b)) == combine(half(a), half(b)) && low(combine(a, b)) == if low(a) == low(b) then 0 else 1
    ensures Combines(val, half, combine, a, b)
  {
    Parity(val(a), val(b), val(half(a)), val(half(b)), low(a), low(b));
  }

  lemma BytesCombine(a: bv8, b: bv8)
    ensures Combines(BitValue, HalfByte, XorByte, a, b)
  {
    BitValueUnfolds(a);
    BitValueUnfolds(b);
    BitValueUnfolds(XorByte(a, b));
    HalfOfXor(a, b);
    CombinesByBits(BitValue, HalfByte, LowBit, XorByte, a, b);
  }

  lemma {:induction false} OnlyZeroIsZero(a: bv8)
    requires BitValue(a) == 0
    ensures a == 0
    decreases a
  {
    if a != 0 {
      OnlyZeroIsZero(HalfByte(a));
    }
  }

  lemma BytesKeepZero(a: bv8, b: bv8)
    ensures KeepsZero(BitValue, XorByte, a, b)
  {
    if BitValue(a) == 0 && BitValue(b) == 0 {
      OnlyZeroIsZero(a);
      OnlyZeroIsZero(b);
    }
  }

  lemma XorOfBitValues(a: bv8, b: bv8)
    ensures Xor(BitValue(a), BitValue(b)) == BitValue(XorByte(a, b))
  {
    var xor := (n: nat, m: nat) => Xor(n, m);
    forall n: nat, m: nat
      ensures Unfolds(xor, n, m)
    {
      XorUnfolds(n, m);
    }
    forall c: bv8
      ensures Halves(BitValue, HalfByte, c)
    {
      ByteHalves(c);
    }
    forall c: bv8, d: bv8
      ensures Combines(BitValue, HalfByte, XorByte, c, d) && KeepsZero(BitValue, XorByte, c, d)
    {
      BytesCombine(c, d);
      BytesKeepZero(c, d);
    }
    XorOfValues(xor, BitValue, HalfByte, XorByte, a, b);
  }

  function Number(a: bv8): nat { a as nat }

  lemma NumberUnfolds(a: bv8)
    ensures Number(a) == 2 * Number(HalfByte(a)) + LowBit(a)
  {}

  lemma {:induction false} NumberIsBitValue(a: bv8)
    ensures Number(a) == BitValue(a)
    decreases a
  {
    if a != 0 {
      NumberIsBitValue(HalfByte(a));
      NumberUnfolds(a);
    }
  }

  /** Exclusive or on numbers is the one on bits. */
  lemma XorOfBytes(a: bv8, b: bv8)
    ensures Xor(Number(a), Number(b)) == Number(a ^ b)
  {
    NumberIsBitValue(a);
    NumberIsBitValue(b);
    NumberIsBitValue(a ^ b);
    XorOfBitValues(a, b);
  }

  lemma ShiftSizes()
    ensures Pow2(8) == 256 && Pow2(16) == 65536 && Pow2(13) == 8192
  {
    WordLimit();
    PowSum(8, 5);
    assert Pow2(5) == 32;
  }

  lemma AppendHalf(u: nat, l: nat, v: nat, o: nat)
    requires l < 65536 && o < 65536
    ensures Xor(u * 65536 + l, v * 65536 + o) == Xor(u, v) * 65536 + Xor(l, o)
  {
    ShiftSizes();
    XorOfSums(u * 65536 + l, v * 65536 + o, u, l, v, o, 16, 65536);
  }

  /** Four bytes, the most significant first. */
  datatype Bytes4 = Bytes4(a: bv8, b: bv8, c: bv8, d: bv8) {
    function Worth(val: bv8 -> nat): nat { TwoWorth(val, a, b) * 65536 + TwoWorth(val, c, d) }

    function XorWith(other: Bytes4): Bytes4 { Bytes4(a ^ other.a, b ^ other.b, c ^ other.c, d ^ other.d) }

    function Value(): nat { Worth(Number) }
  }

  function TwoWorth(val: bv8 -> nat, a: bv8, b: bv8): nat { val(a) * 256 + val(b) }

  /** An operation on numbers that works byte by byte. */
  predicate Appends(xor: (nat, nat) -> nat, u: nat, l: nat, v: nat, o: nat) {
    && (l < 256 && o < 256 ==> xor(u * 256 + l, v * 256 + o) == xor(u, v) * 256 + xor(l, o))
    && (l < 65536 && o < 65536 ==> xor(u * 65536 + l, v * 65536 + o) == xor(u, v) * 65536 + xor(l, o))
  }

  predicate Agrees(xor: (nat, nat) -> nat, val: bv8 -> nat, a: bv8, b: bv8) {
    xor(val(a), val(b)) == val(a ^ b) && val(a) < 256 && val(b) < 256
  }

  lemma AgreesOnTwo(xor: (nat, nat) -> nat, val: bv8 -> nat, a: bv8, b: bv8, c: bv8, d: bv8)
    requires Agrees(xor, val, a, c) && Agrees(xor, val, b, d) && Appends(xor, val(a), val(b), val(c), val(d))
    ensures xor(TwoWorth(val, a, b), TwoWorth(val, c, d)) == TwoWorth(val, a ^ c, b ^ d)
    ensures TwoWorth(val, a, b) < 65536 && TwoWorth(val, c, d) < 65536
  {}

  /** The same of two bytes together. */
  predicate HalvesAgree(xor: (nat, nat) -> nat, val: bv8 -> nat, a: bv8, b: bv8, c: bv8, d: bv8, e: bv8, f: bv8) {
    && xor(TwoWorth(val, a, b), TwoWorth(val, c, d)) == TwoWorth(val, e, f)
    && TwoWorth(val, a, b) < 65536 && TwoWorth(val, c, d) < 65536
  }

  lemma AgreesOnHalves(xor: (nat, nat) -> nat, p: nat, q: nat, r: nat, u: nat, l: nat, v: nat, o: nat, s: nat, t: nat)
    requires Appends(xor, u, l, v, o) && l < 65536 && o < 65536 && xor(u, v) == s && xor(l, o) == t
    requires p == u * 65536 + l && q == v * 65536 + o && r == s * 65536 + t
    ensures xor(p, q) == r
  {}

  lemma TwoAgree(xor: (nat, nat) -> nat, val: bv8 -> nat, a: bv8, b: bv8, c: bv8, d: bv8, e: bv8, f: bv8)
    requires forall c: bv8, d: bv8 :: Agrees(xor, val, c, d)
    requires forall u: nat, l: nat, v: nat, o: nat :: Appends(xor, u, l, v, o)
    requires e == a ^ c && f == b ^ d
    ensures HalvesAgree(xor, val, a, b, c, d, e, f)
  {
    assert Agrees(xor, val, a, c) && Agrees(xor, val, b, d) && Appends(xor, val(a), val(b), val(c), val(d));
    AgreesOnTwo(xor, val, a, b, c, d);
  }

  lemma HalvesTogether(xor: (nat, nat) -> nat, val: bv8 -> nat, x: Bytes4, y: Bytes4, z: Bytes4)
    requires HalvesAgree(xor, val, x.a, x.b, y.a, y.b, z.a, z.b) && HalvesAgree(xor, val, x.c, x.d, y.c, y.d, z.c, z.d)
    requires Appends(xor, TwoWorth(val, x.a, x.b), TwoWorth(val, x.c, x.d), TwoWorth(val, y.a, y.b), TwoWorth(val, y.c, y.d))
    ensures xor(x.Worth(val), y.Worth(val)) == z.Worth(val)
  {
    AgreesOnHalves(xor, x.Worth(val), y.Worth(val), z.Worth(val),
                   TwoWorth(val, x.a, x.b), TwoWorth(val, x.c, x.d), TwoWorth(val, y.a, y.b), TwoWorth(val, y.c, y.d),
                   TwoWorth(val, z.a, z.b), TwoWorth(val, z.c, z.d));
  }

  lemma AgreesOnFour(xor: (nat, nat) -> nat, val: bv8 -> nat, x: Bytes4, y: Bytes4, z: Bytes4)
    requires forall c: bv8, d: bv8 :: Agrees(xor, val, c, d)
    requires forall u: nat, l: nat, v: nat, o: nat :: Appends(xor, u, l, v, o)
    requires z.a == x.a ^ y.a && z.b == x.b ^ y.b && z.c == x.c ^ y.c && z.d == x.d ^ y.d
    ensures xor(x.Worth(val), y.Worth(val)) == z.Worth(val)
  {
    TwoAgree(xor, val, x.a, x.b, y.a, y.b, z.a, z.b);
    TwoAgree(xor, val, x.c, x.d, y.c, y.d, z.c, z.d);
    HalvesTogether(xor, val, x, y, z);
  }

  lemma XorAgrees(xor: (nat, nat) -> nat)
    requires forall n: nat, m: nat :: xor(n, m) == Xor(n, m)
    ensures forall c: bv8, d: bv8 :: Agrees(xor, Number, c, d)
  {
    forall c: bv8, d: bv8
      ensures Agrees(xor, Number, c, d)
    {
      XorOfBytes(c, d);
    }
  }

  lemma XorAppends(xor: (nat, nat) -> nat)
    requires forall n: nat, m: nat :: xor(n, m) == Xor(n, m)
    ensures forall u: nat, l: nat, v: nat, o: nat :: Appends(xor, u, l, v, o)
  {
    forall u: nat, l: nat, v: nat, o: nat
      ensures Appends(xor, u, l, v, o)
    {
      if l < 256 && o < 256 {
        AppendByte(u, l, v, o);
      }
      if l < 65536 && o < 65536 {
        AppendHalf(u, l, v, o);
      }
    }
  }

  lemma XorOfValuesIs(x: Bytes4, y: Bytes4, z: Bytes4)
    requires z.a == x.a ^ y.a && z.b == x.b ^ y.b && z.c == x.c ^ y.c && z.d == x.d ^ y.d
    ensures Xor(x.Value(), y.Value()) == z.Value()
  {
    var xor := (n: nat, m: nat) => Xor(n, m);
    XorAgrees(xor);
    XorAppends(xor);
    AgreesOnFour(xor, Number, x, y, z);
  }

  lemma XorOfWords(x: Bytes4, y: Bytes4)
    ensures Xor(x.Value(), y.Value()) == x.XorWith(y).Value()
  {
    XorOfValuesIs(x, y, x.XorWith(y));
  }

  lemma IsWord(x: Bytes4)
    ensures x.Value() < WORDS
  {}

  // ---- the steps of the hash ------------------------------------------------------------

  lemma FoldIs(x: Bytes4, y: Bytes4, z: nat, k: nat, p: nat)
    requires x.Value() < WORDS && p == Pow2(k) && x.Value() == y.Value() * p + z && z < p
    ensures Fold(x.Value(), k) == x.XorWith(y).Value()
  {
    SplitAt(x.Value(), y.Value(), z, k, p);
    XorOfWords(x, y);
  }

  lemma AbsorbIs(h: Bytes4, octet: bv8, r: Bytes4)
    requires h.Value() < WORDS && r.Value() == (h.XorWith(Bytes4(0, 0, 0, octet)).Value() * PRIME) % WORDS
    ensures Absorb(h.Value(), octet as nat) == r.Value()
  {
    XorOfWords(h, Bytes4(0, 0, 0, octet));
    assert Bytes4(0, 0, 0, octet).Value() == octet as nat;
  }

  lemma Fold16Is(x: Bytes4, y: Bytes4)
    requires y.Value() == x.Value() / 65536
    ensures x.Value() < WORDS && Fold(x.Value(), 16) == x.XorWith(y).Value()
  {
    ShiftSizes();
    IsWord(x);
    FoldIs(x, y, x.Value() % 65536, 16, 65536);
  }

  lemma Fold13Is(x: Bytes4, y: Bytes4)
    requires y.Value() == x.Value() / 8192
    ensures x.Value() < WORDS && Fold(x.Value(), 13) == x.XorWith(y).Value()
  {
    ShiftSizes();
    IsWord(x);
    FoldIs(x, y, x.Value() % 8192, 13, 8192);
  }

  /** The words the finalizer passes through: shifted, multiplied, and so on. */
  predicate MixPath(h: Bytes4, s: Bytes4, t: Bytes4, s': Bytes4, u: Bytes4, s'': Bytes4) {
    && s.Value() == h.Value() / 65536 && t.Value() == (h.XorWith(s).Value() * 0x85EBCA6B) % WORDS
    && s'.Value() == t.Value() / 8192 && u.Value() == (t.XorWith(s').Value() * 0xC2B2AE35) % WORDS
    && s''.Value() == u.Value() / 65536
  }

  lemma MixIs(h: Bytes4, s: Bytes4, t: Bytes4, s': Bytes4, u: Bytes4, s'': Bytes4)
    requires MixPath(h, s, t, s', u, s'')
    ensures h.Value() < WORDS && Mix(h.Value()) == u.XorWith(s'').Value()
  {
    Fold16Is(h, s);
    Fold13Is(t, s');
    Fold16Is(u, s'');
  }

  lemma XorNothing(h: Bytes4)
    ensures h.XorWith(Bytes4(0, 0, 0, 0)) == h
  {}

  lemma AbsorbZeroIs(h: Bytes4, r: Bytes4)
    requires h.Value() < WORDS && r.Value() == (h.Value() * PRIME) % WORDS
    ensures Absorb(h.Value(), 0) == r.Value()
  {
    XorNothing(h);
    AbsorbIs(h, 0, r);
  }

  lemma AbsorbSmallUnit(h: Word, unit: CodeUnit)
    requires unit < 256
    ensures AbsorbUnit(h, unit) == Absorb(Absorb(h, unit), 0)
  {}

  /** One code unit below 256: two rounds. */
  lemma UnitIs(h: Bytes4, h': Bytes4, h'': Bytes4, unit: bv8)
    requires h'.Value() == (h.XorWith(Bytes4(0, 0, 0, unit)).Value() * PRIME) % WORDS
    requires h''.Value() == (h'.Value() * PRIME) % WORDS
    ensures h.Value() < WORDS && AbsorbUnit(h.Value(), unit as nat) == h''.Value()
  {
    IsWord(h);
    AbsorbIs(h, unit, h');
    AbsorbZeroIs(h', h'');
    AbsorbSmallUnit(h.Value(), unit as nat);
  }

  // ---- the tests' vectors ---------------------------------------------------------------

  lemma PathOfEmpty()
    ensures MixPath(Bytes4(0x81, 0x1C, 0x9D, 0xC5), Bytes4(0x00, 0x00, 0x81, 0x1C),
                    Bytes4(0x5D, 0xB6, 0x48, 0xB3), Bytes4(0x00, 0x02, 0xED, 0xB2),
                    Bytes4(0xAB, 0x3E, 0xD7, 0x35), Bytes4(0x00, 0x00, 0xAB, 0x3E))
  {}

  /** The hash of the empty message. */
  lemma EmptyMessage(message: Message)
    requires message == []
    ensures Hash(message) == 0xAB3E7C0B
  {
    assert Bytes4(0x81, 0x1C, 0x9D, 0xC5).Value() == OFFSET_BASIS;
    PathOfEmpty();
    MixIs(Bytes4(0x81, 0x1C, 0x9D, 0xC5), Bytes4(0x00, 0x00, 0x81, 0x1C),
          Bytes4(0x5D, 0xB6, 0x48, 0xB3), Bytes4(0x00, 0x02, 0xED, 0xB2),
          Bytes4(0xAB, 0x3E, 0xD7, 0x35), Bytes4(0x00, 0x00, 0xAB, 0x3E));
    assert Bytes4(0xAB, 0x3E, 0x7C, 0x0B).Value() == 0xAB3E7C0B;
  }

  /** The next code unit of a message, absorbed. */
  lemma FnvIs(h: Bytes4, h': Bytes4, h'': Bytes4, unit: bv8, message: Message, i: nat)
    requires i < |message| && message[i] == unit as nat
    requires h'.Value() == (h.XorWith(Bytes4(0, 0, 0, unit)).Value() * PRIME) % WORDS
    requires h''.Value() == (h'.Value() * PRIME) % WORDS
    ensures h.Value() < WORDS && h''.Value() < WORDS
    ensures Fnv(h.Value(), message[i..]) == Fnv(h''.Value(), message[i + 1..])
  {
    IsWord(h);
    IsWord(h'');
    UnitIs(h, h', h'', unit);
    FnvStep(h.Value(), message, i);
  }

  /** The message is an ASCII text. */
  predicate Spells(message: Message, text: seq<bv8>) {
    |message| == |text| && forall i :: 0 <= i < |text| ==> message[i] == text[i] as nat
  }

  lemma FnvOfA(message: Message)
    requires Spells(message, [0x61])
    ensures Bytes4(0x81, 0x1C, 0x9D, 0xC5).Value() < WORDS && Bytes4(0x2B, 0x24, 0xD0, 0x44).Value() < WORDS
    ensures Fnv(Bytes4(0x81, 0x1C, 0x9D, 0xC5).Value(), message) == Bytes4(0x2B, 0x24, 0xD0, 0x44).Value()
  {
    IsWord(Bytes4(0x81, 0x1C, 0x9D, 0xC5));
    IsWord(Bytes4(0x2B, 0x24, 0xD0, 0x44));
    assert message[0..] == message;
    FnvIs(Bytes4(0x81, 0x1C, 0x9D, 0xC5), Bytes4(0xE4, 0x0C, 0x29, 0x2C), Bytes4(0x2B, 0x24, 0xD0, 0x44), 0x61, message, 0);
  }

  lemma PathOfA()
    ensures MixPath(Bytes4(0x2B, 0x24, 0xD0, 0x44), Bytes4(0x00, 0x00, 0x2B, 0x24),
                    Bytes4(0xD7, 0xEE, 0xD1, 0x20), Bytes4(0x00, 0x06, 0xBF, 0x76),
                    Bytes4(0x91, 0xE9, 0x4B, 0xCE), Bytes4(0x00, 0x00, 0x91, 0xE9))
  {}

  lemma MixOfA(h: Word)
    requires h == Bytes4(0x2B, 0x24, 0xD0, 0x44).Value()
    ensures Mix(h) == 0x91E9DA27
  {
    PathOfA();
    MixIs(Bytes4(0x2B, 0x24, 0xD0, 0x44), Bytes4(0x00, 0x00, 0x2B, 0x24),
          Bytes4(0xD7, 0xEE, 0xD1, 0x20), Bytes4(0x00, 0x06, 0xBF, 0x76),
          Bytes4(0x91, 0xE9, 0x4B, 0xCE), Bytes4(0x00, 0x00, 0x91, 0xE9));
    assert Bytes4(0x91, 0xE9, 0xDA, 0x27).Value() == 0x91E9DA27;
  }

  /** The hash of "a". */
  lemma MessageA(message: Message)
    requires Spells(message, [0x61])
    ensures Hash(message) == 0x91E9DA27
  {
    FnvOfA(message);
    MixOfA(Fnv(OFFSET_BASIS, message));
  }
}
