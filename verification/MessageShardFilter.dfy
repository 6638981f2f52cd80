/** The message partition of EliteEvents.Eddn/MessageShardFilter.cs: a 32-bit hash of the
    raw frame picks the one shard that handles it.  Hash words are integers below 2^32, with
    C#'s `uint` wrap-around written out. */
module MessageShardFilter {
  import opened Bits
  import opened Wrappers

  const WORDS := 0x1_0000_0000
  const PRIME := 16777619

  type Word = w: int | 0 <= w < WORDS
  /** A UTF-16 code unit. */
  type CodeUnit = u: int | 0 <= u < 0x1_0000
  type Message = seq<CodeUnit>

  function XorWord(a: Word, b: Word): Word {
    WordLimit();
    XorBelow(a, b, 32);
    Xor(a, b)
  }

  function Times(x: Word, factor: Word): Word {
    (x * factor) % WORDS
  }

  // ---- FNV-1a ---------------------------------------------------------------------------

  /** One FNV-1a round. */
  function Absorb(hash: Word, octet: Byte): Word {
    Times(XorWord(hash, octet), PRIME)
  }

  function LowByte(unit: CodeUnit): Byte { unit % 256 }

  function HighByte(unit: CodeUnit): Byte { unit / 256 }

  function AbsorbUnit(hash: Word, unit: CodeUnit): Word {
    Absorb(Absorb(hash, LowByte(unit)), HighByte(unit))
  }

  /** FNV-1a over the code units, continued from `hash`. */
  function Fnv(hash: Word, message: Message): Word
    decreases |message|
  {
    if message == [] then hash else Fnv(AbsorbUnit(hash, message[0]), message[1..])
  }

  const OFFSET_BASIS: Word := 2166136261

  // ---- Murmur3's finalizer --------------------------------------------------------------

  function Fold(x: Word, shift: nat): Word {
    ShiftBelow(x, shift);
    XorWord(x, Shr(x, shift))
  }

  function Mix(hash: Word): Word {
    Fold(Times(Fold(Times(Fold(hash, 16), 0x85EBCA6B), 13), 0xC2B2AE35), 16)
  }

  /** Undoes `Fold(_, 13)`. */
  function Unfold13(x: Word): Word {
    ShiftBelow(x, 26);
    XorWord(Fold(x, 13), Shr(x, 26))
  }

  /** The finalizer run backwards: shifts are undone by shifts, products by the multiplier's
      inverse modulo 2^32. */
  function Unmix(hash: Word): Word {
    Fold(Times(Unfold13(Times(Fold(hash, 16), 0x7ED1B41D)), 0xA5CB9243), 16)
  }

  function Hash(message: Message): Word {
    Mix(Fnv(OFFSET_BASIS, message))
  }

  lemma FnvStep(hash: Word, message: Message, i: nat)
    requires i < |message|
    ensures Fnv(hash, message[i..]) == Fnv(AbsorbUnit(hash, message[i]), message[i + 1..])
  {
    assert message[i..][1..] == message[i + 1..];
  }

  /** The loop of `StableHash`. */
  method StableHash(message: Message) returns (hash: Word)
    ensures hash == Hash(message)
  {
    hash := OFFSET_BASIS;
    for i := 0 to |message|
      invariant Fnv(hash, message[i..]) == Fnv(OFFSET_BASIS, message)
    {
      FnvStep(hash, message, i);
      hash := Absorb(hash, LowByte(message[i]));
      hash := Absorb(hash, HighByte(message[i]));
    }
    hash := Fold(hash, 16);
    hash := Times(hash, 0x85EBCA6B);
    hash := Fold(hash, 13);
    hash := Times(hash, 0xC2B2AE35);
    hash := Fold(hash, 16);
  }

  // ---- the finalizer is a bijection -----------------------------------------------------

  lemma ShiftPast(x: Word, k: nat)
    requires k >= 32
    ensures Shr(x, k) == 0
  {
    WordLimit();
    ShiftOut(x, 32);
    ShiftTwice(x, 32, k - 32);
    ShiftBelow(0, k - 32);
  }

  lemma UndoFold16(x: Word)
    ensures Fold(Fold(x, 16), 16) == x
  {
    var s := Shr(x, 16);
    XorShift(x, s, 16);
    ShiftTwice(x, 16, 16);
    ShiftPast(x, 32);
    XorZero(s);
    XorTwice(x, s);
  }

  lemma UndoFold13(x: Word)
    ensures Unfold13(Fold(x, 13)) == x
  {
    var y, a, b := Fold(x, 13), Shr(x, 13), Shr(x, 26);
    ShiftTwice(x, 13, 13);
    ShiftTwice(x, 13, 26);
    ShiftPast(x, 39);
    XorShift(x, a, 13);
    XorShift(x, a, 26);
    XorZero(b);
    assert Shr(y, 13) == Xor(a, b) && Shr(y, 26) == b;
    XorAssociative(y, a, b);
    XorTwice(x, a);
    XorTwice(x, b);
  }

  lemma RedoFold13(x: Word)
    ensures Fold(Unfold13(x), 13) == x
  {
    var a, b := Shr(x, 13), Shr(x, 26);
    ShiftTwice(x, 13, 13);
    ShiftTwice(x, 26, 13);
    ShiftPast(x, 39);
    XorShift(x, a, 13);
    XorShift(Xor(x, a), b, 13);
    XorZero(Xor(a, b));
    XorAssociative(x, a, b);
    XorTwice(x, Xor(a, b));
  }

  lemma UndoTimes(x: Word, factor: Word, inverse: Word, k: nat)
    requires factor * inverse == 1 + k * WORDS
    ensures Times(Times(x, factor), inverse) == x
    ensures Times(Times(x, inverse), factor) == x
  {
    UndoProduct(x, factor, inverse, WORDS, k);
    UndoProduct(x, inverse, factor, WORDS, k);
  }

  /** The finalizer loses nothing: it is a bijection on 32-bit words. */
  lemma MixIsBijective(x: Word)
    ensures Unmix(Mix(x)) == x
    ensures Mix(Unmix(x)) == x
  {
    var a := Fold(x, 16);
    var b := Times(a, 0x85EBCA6B);
    var c := Fold(b, 13);
    var d := Times(c, 0xC2B2AE35);
    UndoFold16(d);
    UndoTimes(c, 0xC2B2AE35, 0x7ED1B41D, 1618177690);
    UndoFold13(b);
    UndoTimes(a, 0x85EBCA6B, 0xA5CB9243, 1455126516);
    UndoFold16(x);

    var d' := Times(a, 0x7ED1B41D);
    var c' := Unfold13(d');
    var b' := Times(c', 0xA5CB9243);
    UndoFold16(b');
    UndoTimes(c', 0x85EBCA6B, 0xA5CB9243, 1455126516);
    RedoFold13(d');
    UndoTimes(a, 0xC2B2AE35, 0x7ED1B41D, 1618177690);
  }

  // ---- one changed code unit always changes the hash ------------------------------------

  lemma PrimeKeepsWordsApart(x: Word, y: Word)
    requires Times(x, PRIME) == Times(y, PRIME)
    ensures x == y
  {
    UndoTimes(x, PRIME, 0x359C449B, 3513497);
    UndoTimes(y, PRIME, 0x359C449B, 3513497);
  }

  /** The 2^24 term of the prime throws a small non-zero difference far away, so products
      less than 256 apart have multiplicands that are either equal or 256 apart. */
  lemma PrimeSpreadsSmallDifferences(x: Word, y: Word)
    requires -256 < x - y < 256
    requires -256 < Times(x, PRIME) - Times(y, PRIME) < 256
    ensures x == y
  {
    var q := (x * PRIME) / WORDS - (y * PRIME) / WORDS;
    var e := Times(x, PRIME) - Times(y, PRIME);
    assert (x - y) * PRIME == q * WORDS + e;
    assert 0x100_0000 * (256 * q - (x - y)) == 403 * (x - y) - e;
  }

  /** Xoring a byte into a word moves it by less than 256. */
  lemma XorByteStaysClose(x: Word, octet: Byte)
    ensures Shr(XorWord(x, octet), 8) == Shr(x, 8)
  {
    WordLimit();
    XorShift(x, octet, 8);
    ShiftOut(octet, 8);
    XorZero(Shr(x, 8));
  }

  lemma SameHighPart(x: Word, y: Word)
    requires Shr(x, 8) == Shr(y, 8)
    ensures -256 < x - y < 256
  {
    WordLimit();
    Split(x, 8);
    Split(y, 8);
  }

  /** Two rounds are injective in the code unit they absorb. */
  lemma AbsorbUnitIsInjective(hash: Word, u: CodeUnit, v: CodeUnit)
    requires AbsorbUnit(hash, u) == AbsorbUnit(hash, v)
    ensures u == v
  {
    var x, y := XorWord(hash, LowByte(u)), XorWord(hash, LowByte(v));
    var px, py := Times(x, PRIME), Times(y, PRIME);
    PrimeKeepsWordsApart(XorWord(px, HighByte(u)), XorWord(py, HighByte(v)));
    XorByteStaysClose(px, HighByte(u));
    XorByteStaysClose(py, HighByte(v));
    SameHighPart(px, py);
    XorByteStaysClose(hash, LowByte(u));
    XorByteStaysClose(hash, LowByte(v));
    SameHighPart(x, y);
    PrimeSpreadsSmallDifferences(x, y);
    XorInjective(hash, LowByte(u), LowByte(v));
    XorInjective(px, HighByte(u), HighByte(v));
  }

  lemma AbsorbUnitKeepsHashesApart(h: Word, k: Word, u: CodeUnit)
    requires AbsorbUnit(h, u) == AbsorbUnit(k, u)
    ensures h == k
  {
    AbsorbKeepsHashesApart(Absorb(h, LowByte(u)), Absorb(k, LowByte(u)), HighByte(u));
    AbsorbKeepsHashesApart(h, k, LowByte(u));
  }

  lemma AbsorbKeepsHashesApart(h: Word, k: Word, octet: Byte)
    requires Absorb(h, octet) == Absorb(k, octet)
    ensures h == k
  {
    PrimeKeepsWordsApart(XorWord(h, octet), XorWord(k, octet));
    XorTwice(h, octet);
    XorTwice(k, octet);
  }

  lemma {:induction false} FnvKeepsHashesApart(h: Word, k: Word, message: Message)
    requires Fnv(h, message) == Fnv(k, message)
    ensures h == k
    decreases |message|
  {
    if message != [] {
      FnvKeepsHashesApart(AbsorbUnit(h, message[0]), AbsorbUnit(k, message[0]), message[1..]);
      AbsorbUnitKeepsHashesApart(h, k, message[0]);
    }
  }

  lemma {:induction false} OneUnitChangesFnv(hash: Word, a: Message, b: Message, i: nat)
    requires |a| == |b| && i < |a| && a[i] != b[i]
    requires forall j :: 0 <= j < |a| && j != i ==> a[j] == b[j]
    ensures Fnv(hash, a) != Fnv(hash, b)
    decreases i
  {
    if i > 0 {
      OneUnitChangesFnv(AbsorbUnit(hash, a[0]), a[1..], b[1..], i - 1);
    } else {
      assert a[1..] == b[1..];
      if Fnv(hash, a) == Fnv(hash, b) {
        FnvKeepsHashesApart(AbsorbUnit(hash, a[0]), AbsorbUnit(hash, b[0]), a[1..]);
        AbsorbUnitIsInjective(hash, a[0], b[0]);
        assert false;
      }
    }
  }

  /** Two messages of one length that differ in exactly one code unit never collide. */
  lemma OneUnitChangesTheHash(a: Message, b: Message, i: nat)
    requires |a| == |b| && i < |a| && a[i] != b[i]
    requires forall j :: 0 <= j < |a| && j != i ==> a[j] == b[j]
    ensures Hash(a) != Hash(b)
  {
    OneUnitChangesFnv(OFFSET_BASIS, a, b, i);
    MixIsBijective(Fnv(OFFSET_BASIS, a));
    MixIsBijective(Fnv(OFFSET_BASIS, b));
  }

  // ---- why the finalizer is needed ------------------------------------------------------

  /** The low k bits of each byte, all that reaches the low k bits of the raw digest. */
  predicate SameLowBits(a: Message, b: Message, k: nat) {
    && |a| == |b|
    && forall i :: 0 <= i < |a| ==>
      && Low(LowByte(a[i]), k) == Low(LowByte(b[i]), k)
      && Low(HighByte(a[i]), k) == Low(HighByte(b[i]), k)
  }

  lemma AbsorbLowBits(h: Word, h': Word, x: Byte, x': Byte, k: nat)
    requires k <= 8 && Low(h, k) == Low(h', k) && Low(x, k) == Low(x', k)
    ensures Low(Absorb(h, x), k) == Low(Absorb(h', x'), k)
  {
    WordLimit();
    XorLow(h, x, k);
    XorLow(h', x', k);
    ProductLow(XorWord(h, x), PRIME, 32, k);
    ProductLow(XorWord(h', x'), PRIME, 32, k);
  }

  /** Before the mix, the low k bits of the digest see only the low k bits of each byte. */
  lemma {:induction false} RawDigestLowBits(h: Word, h': Word, a: Message, b: Message, k: nat)
    requires k <= 8 && Low(h, k) == Low(h', k) && SameLowBits(a, b, k)
    ensures Low(Fnv(h, a), k) == Low(Fnv(h', b), k)
    decreases |a|
  {
    if a != [] {
      var (l, l') := (LowByte(a[0]), LowByte(b[0]));
      AbsorbLowBits(h, h', l, l', k);
      AbsorbLowBits(Absorb(h, l), Absorb(h', l'), HighByte(a[0]), HighByte(b[0]), k);
      RawDigestLowBits(AbsorbUnit(h, a[0]), AbsorbUnit(h', b[0]), a[1..], b[1..], k);
    }
  }

  /** The number of odd bytes in the message. */
  function OddBytes(message: Message): nat {
    if message == [] then 0 else
      LowByte(message[0]) % 2 + HighByte(message[0]) % 2 + OddBytes(message[1..])
  }

  lemma EvenDistance(x: int, y: int, half: int)
    requires y == x + 2 * half
    ensures y % 2 == x % 2
  {}

  lemma TimesPrimeParity(x: Word)
    ensures Times(x, PRIME) % 2 == x % 2
  {
    var q := (x * PRIME) / WORDS;
    EvenDistance(x, Times(x, PRIME), x * 8388809 - q * 0x8000_0000);
  }

  lemma AbsorbParity(h: Word, octet: Byte)
    ensures Absorb(h, octet) % 2 == (h + octet) % 2
  {
    XorHalves(h, octet);
    TimesPrimeParity(XorWord(h, octet));
  }

  lemma ParityChain(h: nat, a: nat, b: nat, n: nat, ha: nat, hab: nat, r: nat)
    requires ha % 2 == (h + a) % 2 && hab % 2 == (ha + b) % 2 && r % 2 == (hab + n) % 2
    ensures r % 2 == (h + (a % 2 + b % 2 + n)) % 2
  {
    SameParity(ha, b, h + a, b);
    SameParity(hab, n, h + a + b, n);
    EvenDistance(h + (a % 2 + b % 2 + n), h + a + b + n, a / 2 + b / 2);
  }

  lemma {:induction false} FnvParity(h: Word, message: Message)
    ensures Fnv(h, message) % 2 == (h + OddBytes(message)) % 2
    decreases |message|
  {
    if message != [] {
      var l, u := LowByte(message[0]), HighByte(message[0]);
      AbsorbParity(h, l);
      AbsorbParity(Absorb(h, l), u);
      FnvParity(AbsorbUnit(h, message[0]), message[1..]);
      ParityChain(h, l, u, OddBytes(message[1..]),
                  Absorb(h, l), AbsorbUnit(h, message[0]), Fnv(h, message));
    }
  }

  lemma OddPlus(odd: nat, n: nat)
    requires odd % 2 == 1
    ensures (odd + n) % 2 == 1 - n % 2
  {}

  /** Bit 0 of the raw digest is the negated parity of the bytes' low bits: a power-of-two
      shard count would read a checksum, not a hash. */
  lemma RawDigestParity(message: Message)
    ensures Fnv(OFFSET_BASIS, message) % 2 == 1 - OddBytes(message) % 2
  {
    FnvParity(OFFSET_BASIS, message);
    OddPlus(OFFSET_BASIS, OddBytes(message));
  }

  // ---- ownership ------------------------------------------------------------------------

  datatype ShardFilter = ShardFilter(index: int, count: int) {
    predicate Valid() {
      1 <= count && 0 <= index < count
    }

    predicate Owns(message: Message)
      requires Valid()
    {
      count == 1 || Hash(message) % count == index
    }
  }

  /** The constructor's guard; `None` is the exception it throws. */
  method MakeFilter(shardIndex: int, shardCount: int) returns (filter: Option<ShardFilter>)
    ensures filter.Some? <==> ShardFilter(shardIndex, shardCount).Valid()
    ensures filter.Some? ==> filter.value == ShardFilter(shardIndex, shardCount)
  {
    if shardCount < 1 {
      return None;
    }
    if shardIndex < 0 || shardIndex >= shardCount {
      return None;
    }
    return Some(ShardFilter(shardIndex, shardCount));
  }

  /** The one shard of `count` that handles the message. */
  function Owner(message: Message, count: int): (shard: int)
    requires 1 <= count
    ensures 0 <= shard < count
    ensures ShardFilter(shard, count).Owns(message)
    ensures forall i :: 0 <= i < count && ShardFilter(i, count).Owns(message) ==> i == shard
  {
    Hash(message) % count
  }
}
