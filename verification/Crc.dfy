/**
 * CRC-32 as in section 3.2.9 of IEEE 802.3 and section 8 of RFC 1952: the bit-serial shift register, the
 * 256-entry table loop that computes it, and which changes to a file it always detects. A uint32_t is a
 * natural number below 2^32 and its bitwise operators are defined on binary digits.
 */
module Crc {
  import opened Files

  const WORDS := 0x1_0000_0000
  type Word = w: int | 0 <= w < WORDS

  const POLYNOMIAL: Word := 0xEDB8_8320
  const ONES: Word := 0xFFFF_FFFF
  const BLOCK := 65536

  type Bits = seq<bool>

  function Pow2(n: nat): (p: nat)
    ensures p >= 1
  {
    if n == 0 then 1 else 2 * Pow2(n - 1)
  }

  /** Bitwise exclusive or, digit by digit. */
  function Xor(a: nat, b: nat): nat {
    if a == 0 && b == 0 then 0 else (a % 2 + b % 2) % 2 + 2 * Xor(a / 2, b / 2)
  }

  // ---- Reference: a 32-bit shift register fed one message bit at a time ----

  function Clocked(addGenerator: bool, half: nat): nat {
    if addGenerator then Xor(half, POLYNOMIAL) else half
  }

  function Feed(bit: bool, c: nat): nat {
    Clocked((c % 2 == 1) != bit, c / 2)
  }

  function Serial(bits: Bits, c: nat): nat {
    if bits == [] then c else Serial(bits[1..], Feed(bits[0], c))
  }

  /** The low n binary digits of w, least significant first: the order in which a byte is transmitted. */
  function BitsOf(n: nat, w: nat): (bits: Bits)
    ensures |bits| == n
  {
    if n == 0 then [] else [w % 2 == 1] + BitsOf(n - 1, w / 2)
  }

  function Transmitted(bytes: Bytes): (bits: Bits)
    ensures |bits| == 8 * |bytes|
  {
    if bytes == [] then [] else BitsOf(8, bytes[0]) + Transmitted(bytes[1..])
  }

  /** The register starts with all ones and is complemented at the end. */
  function Crc32(bytes: Bytes): nat {
    Xor(Serial(Transmitted(bytes), ONES), ONES)
  }

  // ---- Algebra of exclusive or ----

  lemma {:induction false} XorZero(a: nat)
    ensures Xor(a, 0) == a == Xor(0, a)
  {
    if a > 0 {
      XorZero(a / 2);
    }
  }

  lemma {:induction false} XorSelf(a: nat)
    ensures Xor(a, a) == 0
  {
    if a > 0 {
      XorSelf(a / 2);
    }
  }

  lemma {:induction false} XorCommutes(a: nat, b: nat)
    ensures Xor(a, b) == Xor(b, a)
    decreases a + b
  {
    if a + b > 0 {
      XorCommutes(a / 2, b / 2);
    }
  }

  lemma XorDigit(a: nat, b: nat)
    ensures Xor(a, b) % 2 == (a % 2 + b % 2) % 2
    ensures Xor(a, b) / 2 == Xor(a / 2, b / 2)
  {}

  lemma XorHalves(a: nat, b: nat, c: nat)
    ensures Xor(Xor(a, b), c) / 2 == Xor(Xor(a / 2, b / 2), c / 2)
    ensures Xor(a, Xor(b, c)) / 2 == Xor(a / 2, Xor(b / 2, c / 2))
  {
    XorDigit(Xor(a, b), c);
    XorDigit(a, b);
    XorDigit(a, Xor(b, c));
    XorDigit(b, c);
  }

  lemma XorParity(a: nat, b: nat, c: nat)
    ensures Xor(Xor(a, b), c) % 2 == Xor(a, Xor(b, c)) % 2
  {
    var ab, bc := Xor(a, b), Xor(b, c);
    XorDigit(ab, c);
    XorDigit(a, b);
    XorDigit(a, bc);
    XorDigit(b, c);
    SameParity(a, b, c, ab, bc, Xor(ab, c), Xor(a, bc));
  }

  lemma SameParity(a: nat, b: nat, c: nat, ab: nat, bc: nat, x: nat, y: nat)
    requires ab % 2 == (a % 2 + b % 2) % 2 && bc % 2 == (b % 2 + c % 2) % 2
    requires x % 2 == (ab % 2 + c % 2) % 2 && y % 2 == (a % 2 + bc % 2) % 2
    ensures x % 2 == y % 2
  {
    ParityAssociates(a % 2, b % 2, c % 2);
  }

  lemma {:induction false} XorAssociates(a: nat, b: nat, c: nat)
    ensures Xor(Xor(a, b), c) == Xor(a, Xor(b, c))
    decreases a + b + c
  {
    if a + b + c > 0 {
      XorAssociates(a / 2, b / 2, c / 2);
      XorHalves(a, b, c);
      XorParity(a, b, c);
      SameHalves(Xor(Xor(a, b), c), Xor(a, Xor(b, c)));
    }
  }

  lemma SameHalves(x: nat, y: nat)
    requires x / 2 == y / 2 && x % 2 == y % 2
    ensures x == y
  {}

  lemma ParityAssociates(p: nat, q: nat, r: nat)
    requires p < 2 && q < 2 && r < 2
    ensures ((p + q) % 2 + r) % 2 == (p + (q + r) % 2) % 2
  {}

  lemma XorCancels(a: nat, b: nat, c: nat)
    requires Xor(a, c) == Xor(b, c)
    ensures a == b
  {
    XorAssociates(a, c, c);
    XorAssociates(b, c, c);
    XorSelf(c);
    XorZero(a);
    XorZero(b);
  }

  lemma {:induction false} XorBound(n: nat, a: nat, b: nat)
    requires a < Pow2(n) && b < Pow2(n)
    ensures Xor(a, b) < Pow2(n)
  {
    if n > 0 {
      XorBound(n - 1, a / 2, b / 2);
    }
  }

  /** A digit set in one operand only stays set. */
  lemma {:induction false} XorTop(n: nat, a: nat, b: nat)
    requires a < Pow2(n) <= b
    ensures Xor(a, b) >= Pow2(n)
  {
    if n > 0 {
      XorTop(n - 1, a / 2, b / 2);
    } else {
      XorZero(b);
    }
  }

  lemma WordWidth()
    ensures Pow2(32) == WORDS && Pow2(31) == 0x8000_0000
  {
    assert Pow2(8) == 256;
    assert Pow2(16) == 65536 by { PowAdd(8, 8); }
    PowAdd(16, 16);
    PowAdd(31, 1);
  }

  lemma {:induction false} PowAdd(m: nat, n: nat)
    ensures Pow2(m + n) == Pow2(m) * Pow2(n)
  {
    if m > 0 {
      PowAdd(m - 1, n);
    }
  }

  // ---- The register: closed on words, linear, and a bijection at every step ----

  lemma FeedWord(bit: bool, c: Word)
    ensures Feed(bit, c) < WORDS
    ensures Feed(bit, c) >= Pow2(31) <==> (c % 2 == 1) != bit
    ensures Feed(bit, c) >= c / 2
  {
    WordWidth();
    XorBound(32, c / 2, POLYNOMIAL);
    XorTop(31, c / 2, POLYNOMIAL);
  }

  lemma {:induction false} SerialWord(bits: Bits, c: Word)
    ensures Serial(bits, c) < WORDS
  {
    if bits != [] {
      FeedWord(bits[0], c);
      SerialWord(bits[1..], Feed(bits[0], c));
    }
  }

  lemma {:induction false} SerialConcat(a: Bits, b: Bits, c: nat)
    ensures Serial(a + b, c) == Serial(b, Serial(a, c))
  {
    if a == [] {
      assert a + b == b;
    } else {
      assert (a + b)[1..] == a[1..] + b;
      SerialConcat(a[1..], b, Feed(a[0], c));
    }
  }

  lemma FeedInjective(bit: bool, x: Word, y: Word)
    requires Feed(bit, x) == Feed(bit, y)
    ensures x == y
  {
    FeedWord(bit, x);
    FeedWord(bit, y);
    if (x % 2 == 1) != bit {
      XorCancels(x / 2, y / 2, POLYNOMIAL);
    }
  }

  /** The highest digit, set in both operands, is cleared. */
  lemma {:induction false} XorTops(n: nat, a: nat, b: nat)
    requires Pow2(n) <= a < Pow2(n + 1) && Pow2(n) <= b < Pow2(n + 1)
    ensures Xor(a, b) < Pow2(n)
  {
    if n > 0 {
      XorTops(n - 1, a / 2, b / 2);
    }
  }

  lemma XorTwice(a: nat, b: nat)
    ensures Xor(Xor(a, b), b) == a
  {
    XorAssociates(a, b, b);
    XorSelf(b);
    XorZero(a);
  }

  /** The register before a bit was fed, when the feedback was not added. */
  lemma FedSilently(bit: bool, y: nat)
    ensures Feed(bit, 2 * y + if bit then 1 else 0) == y
  {}

  /** And when it was. */
  lemma FedBack(bit: bool, half: nat)
    ensures Feed(bit, 2 * half + if bit then 0 else 1) == Xor(half, POLYNOMIAL)
  {
    var c: nat := 2 * half + if bit then 0 else 1;
    assert c / 2 == half && (c % 2 == 1) != bit;
    assert Feed(bit, c) == Clocked(true, half);
  }

  lemma TakeBack(y: Word) returns (half: nat)
    requires y >= Pow2(31)
    ensures half < Pow2(31) && Xor(half, POLYNOMIAL) == y
  {
    WordWidth();
    XorTops(31, y, POLYNOMIAL);
    XorTwice(y, POLYNOMIAL);
    half := Xor(y, POLYNOMIAL);
  }

  lemma FeedSurjective(bit: bool, y: Word) returns (x: Word)
    ensures Feed(bit, x) == y
  {
    WordWidth();
    if y < Pow2(31) {
      x := 2 * y + if bit then 1 else 0;
      FedSilently(bit, y);
    } else {
      var half := TakeBack(y);
      x := 2 * half + if bit then 0 else 1;
      FedBack(bit, half);
    }
  }

  /** Every register is reached by feeding the bits to some register. */
  lemma {:induction false} SerialSurjective(bits: Bits, y: Word) returns (x: Word)
    ensures Serial(bits, x) == y
  {
    if bits == [] {
      x := y;
    } else {
      var next := SerialSurjective(bits[1..], y);
      x := FeedSurjective(bits[0], next);
    }
  }

  /** Feeding any bits is a bijection of the register. */
  lemma SerialBijective(bits: Bits, y: Word)
    ensures exists x: Word :: Serial(bits, x) == y && forall z: Word :: Serial(bits, z) == y ==> z == x
  {
    var x := SerialSurjective(bits, y);
    forall z: Word | Serial(bits, z) == y ensures z == x {
      if z != x {
        SerialInjective(bits, z, x);
      }
    }
  }

  /** Feeding the same bits keeps two registers apart: nothing that follows undoes a difference. */
  lemma {:induction false} SerialInjective(bits: Bits, x: Word, y: Word)
    requires x != y
    ensures Serial(bits, x) != Serial(bits, y)
  {
    if bits != [] {
      FeedWord(bits[0], x);
      FeedWord(bits[0], y);
      if Feed(bits[0], x) == Feed(bits[0], y) {
        FeedInjective(bits[0], x, y);
      } else {
        SerialInjective(bits[1..], Feed(bits[0], x), Feed(bits[0], y));
      }
    }
  }

  function Differences(a: Bits, b: Bits): (d: Bits)
    requires |a| == |b|
    ensures |d| == |a|
  {
    seq(|a|, i requires 0 <= i < |a| => a[i] != b[i])
  }

  lemma FeedXor(a: bool, b: bool, x: nat, y: nat)
    ensures Feed(a != b, Xor(x, y)) == Xor(Feed(a, x), Feed(b, y))
  {
    var f, g := (x % 2 == 1) != a, (y % 2 == 1) != b;
    XorOdd(x, y);
    XorHalf(x, y);
    OddBits(a, b, x % 2 == 1, y % 2 == 1, Xor(x, y) % 2 == 1);
    assert Feed(a != b, Xor(x, y)) == Clocked(f != g, Xor(x / 2, y / 2));
    ClockedXor(f, g, x / 2, y / 2);
  }

  lemma XorOdd(x: nat, y: nat)
    ensures (Xor(x, y) % 2 == 1) == ((x % 2 == 1) != (y % 2 == 1))
  {
    var digit, half := (x % 2 + y % 2) % 2, Xor(x / 2, y / 2);
    assert (x == 0 && y == 0) || Xor(x, y) == digit + 2 * half;
    OddSum(x % 2, y % 2);
    LastDigit(digit, half);
  }

  lemma XorHalf(x: nat, y: nat)
    ensures Xor(x, y) / 2 == Xor(x / 2, y / 2)
  {
    XorDigit(x, y);
  }

  lemma LastDigit(digit: nat, half: nat)
    requires digit < 2
    ensures (digit + 2 * half) % 2 == digit
  {}

  lemma OddBits(a: bool, b: bool, p: bool, q: bool, r: bool)
    requires r == (p != q)
    ensures (r != (a != b)) == ((p != a) != (q != b))
  {}

  lemma ClockedXor(f: bool, g: bool, p: nat, q: nat)
    ensures Clocked(f != g, Xor(p, q)) == Xor(Clocked(f, p), Clocked(g, q))
  {
    GeneratorCancels(p, q);
  }

  lemma OddSum(p: nat, q: nat)
    requires p < 2 && q < 2
    ensures ((p + q) % 2 == 1) == ((p == 1) != (q == 1))
  {}

  /** Adding the generator on either side is adding it to the sum, and on both sides it vanishes. */
  lemma GeneratorCancels(p: nat, q: nat)
    ensures Xor(Xor(p, POLYNOMIAL), q) == Xor(Xor(p, q), POLYNOMIAL)
    ensures Xor(p, Xor(q, POLYNOMIAL)) == Xor(Xor(p, q), POLYNOMIAL)
    ensures Xor(Xor(p, POLYNOMIAL), Xor(q, POLYNOMIAL)) == Xor(p, q)
  {
    XorMoves(p, POLYNOMIAL, q);
    XorAssociates(p, q, POLYNOMIAL);
    XorMoves(p, POLYNOMIAL, Xor(q, POLYNOMIAL));
    XorAssociates(Xor(p, q), POLYNOMIAL, POLYNOMIAL);
    XorSelf(POLYNOMIAL);
    XorZero(Xor(p, q));
  }

  lemma XorMoves(a: nat, b: nat, c: nat)
    ensures Xor(Xor(a, b), c) == Xor(Xor(a, c), b)
  {
    XorAssociates(a, b, c);
    XorAssociates(a, c, b);
    XorCommutes(b, c);
  }

  lemma {:induction false} SerialXor(a: Bits, b: Bits, x: nat, y: nat)
    requires |a| == |b|
    ensures Serial(Differences(a, b), Xor(x, y)) == Xor(Serial(a, x), Serial(b, y))
  {
    if a != [] {
      FeedXor(a[0], b[0], x, y);
      SerialXor(a[1..], b[1..], Feed(a[0], x), Feed(b[0], y));
      assert Differences(a, b)[1..] == Differences(a[1..], b[1..]);
    }
  }

  // ---- The table loop computes the register ----

  /** n clocks without message bits. */
  function Steps(n: nat, c: nat): nat {
    if n == 0 then c else Steps(n - 1, Feed(false, c))
  }

  function TableEntry(i: nat): nat {
    Steps(8, i)
  }

  function TableStep(b: byte, c: Word): nat {
    Xor(TableEntry(Xor(c, b) % 256), c / 256)
  }

  function High(n: nat, w: nat): nat {
    if n == 0 then w else High(n - 1, w / 2)
  }

  function Up(n: nat, w: nat): nat {
    if n == 0 then w else 2 * Up(n - 1, w)
  }

  /** Message bits may be added to the register ahead of time; those not yet fed stay above the digits fed. */
  lemma {:induction false} AddedAhead(n: nat, s: nat, w: nat)
    ensures Steps(n, Xor(s, w)) == Xor(Serial(BitsOf(n, w), s), High(n, w))
  {
    if n > 0 {
      var bit := w % 2 == 1;
      assert Feed(false, Xor(s, w)) == Xor(Feed(bit, s), w / 2) by {
        XorDigit(s, w);
        OddSum(s % 2, w % 2);
        XorMoves(s / 2, POLYNOMIAL, w / 2);
      }
      AddedAhead(n - 1, Feed(bit, s), w / 2);
    }
  }

  lemma {:induction false} SilentBits(n: nat, w: nat, s: nat)
    ensures Serial(BitsOf(n, Up(n, w)), s) == Steps(n, s)
  {
    if n > 0 {
      SilentBits(n - 1, w, Feed(false, s));
    }
  }

  lemma {:induction false} HighOfUp(n: nat, w: nat)
    ensures High(n, Up(n, w)) == w
  {
    if n > 0 {
      HighOfUp(n - 1, w);
    }
  }

  lemma {:induction false} HighOfSmall(n: nat, w: nat)
    requires w < Pow2(n)
    ensures High(n, w) == 0
  {
    if n > 0 {
      HighOfSmall(n - 1, w / 2);
    }
  }

  lemma {:induction false} XorHigh(n: nat, a: nat, b: nat)
    ensures High(n, Xor(a, b)) == Xor(High(n, a), High(n, b))
  {
    if n > 0 {
      XorDigit(a, b);
      XorHigh(n - 1, a / 2, b / 2);
    }
  }

  lemma {:induction false} XorDisjoint(n: nat, low: nat, high: nat)
    requires low < Pow2(n)
    ensures Xor(low, Up(n, high)) == low + Up(n, high)
  {
    if n == 0 {
      XorZero(high);
    } else {
      XorDisjoint(n - 1, low / 2, high);
      XorDigit(low, Up(n, high));
    }
  }

  lemma HighByTwo(n: nat, w: nat)
    requires n >= 2
    ensures High(n, w) == High(n - 2, w / 4)
  {
    assert High(n, w) == High(n - 1, w / 2) == High(n - 2, w / 2 / 2);
  }

  lemma UpByTwo(n: nat, w: nat)
    requires n >= 2
    ensures Up(n, w) == 4 * Up(n - 2, w)
  {
    assert Up(n, w) == 2 * Up(n - 1, w);
  }

  lemma ByteShift(w: nat)
    ensures High(8, w) == w / 256 && Up(8, w) == 256 * w && Pow2(8) == 256
  {
    HighByTwo(8, w);
    HighByTwo(6, w / 4);
    HighByTwo(4, w / 4 / 4);
    HighByTwo(2, w / 4 / 4 / 4);
    assert w / 4 / 4 / 4 / 4 == w / 256;
    UpByTwo(8, w);
    UpByTwo(6, w);
    UpByTwo(4, w);
    UpByTwo(2, w);
  }

  lemma EightClocks(x: nat)
    ensures Steps(8, x) == Xor(TableEntry(x % 256), x / 256)
  {
    var low, high := x % 256, x / 256;
    ByteShift(high);
    XorDisjoint(8, low, high);
    assert x == Xor(low, Up(8, high));
    AddedAhead(8, low, Up(8, high));
    SilentBits(8, high, low);
    HighOfUp(8, high);
  }

  /** One table lookup is eight clocks of the register. */
  lemma TableStepIsEightClocks(b: byte, c: Word)
    ensures TableStep(b, c) == Serial(BitsOf(8, b), c) < WORDS
  {
    var x := Xor(c, b);
    SerialWord(BitsOf(8, b), c);
    assert Steps(8, x) == Serial(BitsOf(8, b), c) by {
      AddedAhead(8, c, b);
      ByteShift(b);
      XorZero(Serial(BitsOf(8, b), c));
    }
    assert x / 256 == c / 256 by {
      XorHigh(8, c, b);
      ByteShift(c);
      ByteShift(b);
      ByteShift(x);
      XorZero(c / 256);
    }
    EightClocks(x);
  }

  lemma {:induction false} TransmittedConcat(a: Bytes, b: Bytes)
    ensures Transmitted(a + b) == Transmitted(a) + Transmitted(b)
  {
    if a == [] {
      assert a + b == b;
    } else {
      assert (a + b)[1..] == a[1..] + b;
      TransmittedConcat(a[1..], b);
    }
  }

  lemma AppendByte(done: Bytes, b: byte)
    ensures Serial(Transmitted(done), ONES) < WORDS
    ensures Serial(Transmitted(done + [b]), ONES) == TableStep(b, Serial(Transmitted(done), ONES))
  {
    SerialWord(Transmitted(done), ONES);
    TransmittedConcat(done, [b]);
    assert Transmitted([b]) == BitsOf(8, b) + Transmitted([]) == BitsOf(8, b);
    SerialConcat(Transmitted(done), BitsOf(8, b), ONES);
    TableStepIsEightClocks(b, Serial(Transmitted(done), ONES));
  }

  lemma {:induction false} StepLast(n: nat, c: nat)
    ensures Steps(n + 1, c) == Feed(false, Steps(n, c))
  {
    if n > 0 {
      StepLast(n - 1, Feed(false, c));
    }
  }

  method MakeTable() returns (table: array<Word>)
    ensures fresh(table) && table.Length == 256
    ensures forall j | 0 <= j < 256 :: table[j] == TableEntry(j)
  {
    table := new Word[256];
    for i := 0 to 256
      invariant forall j | 0 <= j < i :: table[j] == TableEntry(j)
    {
      var c: Word := i;
      for k := 0 to 8
        modifies {}
        invariant c == Steps(k, i)
      {
        FeedWord(false, c);
        StepLast(k, i);
        XorCommutes(POLYNOMIAL, c / 2);
        c := if c % 2 == 1 then Xor(POLYNOMIAL, c / 2) else c / 2;
      }
      table[i] := c;
    }
  }

  /** The program's checksum: builds the table, then folds the file into the register block by block. */
  method GetCrc(file: InputStream) returns (result: Word)
    requires file.Valid() && file.pos == 0 && !file.failed
    modifies file
    ensures result == Crc32(file.content)
  {
    var table := MakeTable();
    var crc: Word := ONES;
    var buf := new byte[BLOCK];
    var ok: bool, count: nat := file.Read(buf);
    ghost var done: nat := 0;
    while ok || count > 0
      invariant file.Valid() && count <= buf.Length && file.pos == done + count && file.failed == !ok
      invariant (ok ==> count == BLOCK) && (count == 0 ==> done == |file.content|)
      invariant buf[..count] == file.content[done..file.pos]
      invariant forall j | 0 <= j < 256 :: table[j] == TableEntry(j)
      invariant crc == Serial(Transmitted(file.content[..done]), ONES)
      decreases |file.content| - done
    {
      assert file.content[..done] + buf[..count] == file.content[..file.pos];
      crc := FoldBlock(table, file.content[..done], buf, count, crc);
      done := file.pos;
      ok, count := file.Read(buf);
    }
    assert file.content[..done] == file.content;
    WordWidth();
    XorBound(32, crc, ONES);
    result := Xor(crc, ONES);
  }

  method FoldBlock(table: array<Word>, ghost done: Bytes, buf: array<byte>, count: nat, crc: Word) returns (next: Word)
    requires table.Length == 256 && forall j | 0 <= j < 256 :: table[j] == TableEntry(j)
    requires count <= buf.Length && crc == Serial(Transmitted(done), ONES)
    ensures next == Serial(Transmitted(done + buf[..count]), ONES)
  {
    next := crc;
    assert done + buf[..0] == done;
    for i := 0 to count
      invariant next == Serial(Transmitted(done + buf[..i]), ONES)
    {
      AppendByte(done + buf[..i], buf[i]);
      assert done + buf[..i] + [buf[i]] == done + buf[..i + 1];
      AppendByte(done + buf[..i + 1], buf[i]);
      next := Xor(table[Xor(next, buf[i]) % 256], next / 256);
    }
  }

  /** The table loop over one block, from any register. */
  function TableFold(block: Bytes, c: Word): Word {
    if block == [] then c else
    TableStepIsEightClocks(block[0], c);
    TableFold(block[1..], TableStep(block[0], c))
  }

  /** The table loop over the blocks of a file, one after the other. */
  function FoldBlocks(blocks: seq<Bytes>, c: Word): Word {
    if blocks == [] then c else FoldBlocks(blocks[1..], TableFold(blocks[0], c))
  }

  function Concat(blocks: seq<Bytes>): Bytes {
    if blocks == [] then [] else blocks[0] + Concat(blocks[1..])
  }

  lemma {:induction false} TableFoldIsSerial(block: Bytes, c: Word)
    ensures TableFold(block, c) == Serial(Transmitted(block), c)
  {
    if block != [] {
      TableStepIsEightClocks(block[0], c);
      TableFoldIsSerial(block[1..], TableStep(block[0], c));
      SerialConcat(BitsOf(8, block[0]), Transmitted(block[1..]), c);
    }
  }

  lemma {:induction false} FoldBlocksIsSerial(blocks: seq<Bytes>, c: Word)
    ensures FoldBlocks(blocks, c) == Serial(Transmitted(Concat(blocks)), c)
  {
    if blocks != [] {
      TableFoldIsSerial(blocks[0], c);
      TransmittedConcat(blocks[0], Concat(blocks[1..]));
      SerialConcat(Transmitted(blocks[0]), Transmitted(Concat(blocks[1..])), c);
      FoldBlocksIsSerial(blocks[1..], TableFold(blocks[0], c));
    }
  }

  /** However a file is cut into blocks, empty ones included, the table loop over them gives its checksum. */
  lemma AnyBlocking(blocks: seq<Bytes>)
    ensures Xor(FoldBlocks(blocks, ONES), ONES) == Crc32(Concat(blocks))
  {
    FoldBlocksIsSerial(blocks, ONES);
  }

  // ---- Which changes are always detected ----

  /** A register whose highest set digit is the k-th cannot be emptied by k more bits. */
  lemma {:induction false} StaysAlive(bits: Bits, c: Word, k: nat)
    requires |bits| <= k <= 31 && c >= Pow2(k)
    ensures Serial(bits, c) > 0
  {
    if bits != [] {
      FeedWord(bits[0], c);
      StaysAlive(bits[1..], Feed(bits[0], c), k - 1);
    }
  }

  lemma FeedZero()
    ensures Feed(true, 0) == POLYNOMIAL >= Pow2(31) && Feed(false, 0) == 0
  {
    XorZero(POLYNOMIAL);
    WordWidth();
  }

  /** A non-zero difference of at most 32 bits leaves a non-zero register. */
  lemma {:induction false} ShortDifference(d: Bits, i: nat)
    requires i < |d| <= 32 && d[i]
    ensures Serial(d, 0) > 0
  {
    FeedZero();
    if d[0] {
      StaysAlive(d[1..], POLYNOMIAL, 31);
    } else {
      ShortDifference(d[1..], i - 1);
    }
  }

  lemma ShortBurst(x: Bits, y: Bits, c: nat)
    requires |x| == |y| <= 32 && x != y
    ensures Serial(x, c) != Serial(y, c)
  {
    var i :| 0 <= i < |x| && x[i] != y[i];
    SerialXor(x, y, c, c);
    XorSelf(c);
    ShortDifference(Differences(x, y), i);
    XorSelf(Serial(x, c));
  }

  /** A change confined to a burst of at most 32 transmitted bits, aligned or not, always changes the register. */
  lemma BurstDetected(before: Bits, x: Bits, y: Bits, after: Bits, c: Word)
    requires |x| == |y| <= 32 && x != y
    ensures Serial(before + x + after, c) != Serial(before + y + after, c)
  {
    SerialWord(before, c);
    var s := Serial(before, c);
    SerialConcat(before + x, after, c);
    SerialConcat(before + y, after, c);
    SerialConcat(before, x, c);
    SerialConcat(before, y, c);
    SerialWord(x, s);
    SerialWord(y, s);
    ShortBurst(x, y, s);
    SerialInjective(after, Serial(x, s), Serial(y, s));
  }

  lemma {:induction false} BitsOfInjective(n: nat, x: nat, y: nat)
    requires x < Pow2(n) && y < Pow2(n) && BitsOf(n, x) == BitsOf(n, y)
    ensures x == y
  {
    if n > 0 {
      var a, b := BitsOf(n, x), BitsOf(n, y);
      assert a[0] == b[0];
      assert BitsOf(n - 1, x / 2) == a[1..] == b[1..] == BitsOf(n - 1, y / 2);
      BitsOfInjective(n - 1, x / 2, y / 2);
    }
  }

  lemma {:induction false} TransmittedInjective(x: Bytes, y: Bytes)
    requires |x| == |y| && Transmitted(x) == Transmitted(y)
    ensures x == y
  {
    if x != [] {
      var a, b := Transmitted(x), Transmitted(y);
      assert BitsOf(8, x[0]) == a[..8] == b[..8] == BitsOf(8, y[0]);
      assert Transmitted(x[1..]) == a[8..] == b[8..] == Transmitted(y[1..]);
      assert Pow2(8) == 256;
      BitsOfInjective(8, x[0], y[0]);
      TransmittedInjective(x[1..], y[1..]);
    }
  }

  /** Two files of equal length that differ, and only inside four consecutive bytes, have different checksums. */
  lemma FourByteChangeDetected(a: Bytes, b: Bytes, i: nat, j: nat)
    requires |a| == |b| && a != b && i <= j <= |a| && j - i <= 4
    requires a[..i] == b[..i] && a[j..] == b[j..]
    ensures Crc32(a) != Crc32(b)
  {
    var x, y := a[i..j], b[i..j];
    assert a == a[..i] + x + a[j..] && b == a[..i] + y + a[j..];
    if Transmitted(x) == Transmitted(y) {
      TransmittedInjective(x, y);
    }
    TransmittedConcat(a[..i] + x, a[j..]);
    TransmittedConcat(a[..i] + y, a[j..]);
    TransmittedConcat(a[..i], x);
    TransmittedConcat(a[..i], y);
    BurstDetected(Transmitted(a[..i]), Transmitted(x), Transmitted(y), Transmitted(a[j..]), ONES);
    if Crc32(a) == Crc32(b) {
      XorCancels(Serial(Transmitted(a), ONES), Serial(Transmitted(b), ONES), ONES);
    }
  }

  // ---- The constants ----

  lemma PowersAbove(n: nat)
    ensures Pow2(n + 1) == 2 * Pow2(n) && Pow2(n + 2) == 4 * Pow2(n) && Pow2(n + 3) == 8 * Pow2(n)
    ensures Pow2(n + 4) == 16 * Pow2(n) && Pow2(n + 5) == 32 * Pow2(n) && Pow2(n + 6) == 64 * Pow2(n)
  {
    PowAdd(n, 1);
    PowAdd(n, 2);
    PowAdd(n, 3);
    PowAdd(n, 4);
    PowAdd(n, 5);
    PowAdd(n, 6);
    assert Pow2(6) == 64;
  }

  /**
   * The register keeps the power x^k in its digit 31 - k: besides x^32 the generator has exactly the powers that
   * section 3.2.9 of IEEE 802.3 gives it.
   */
  lemma GeneratorPowers()
    ensures POLYNOMIAL ==
            Pow2(31 - 26) + Pow2(31 - 23) + Pow2(31 - 22) + Pow2(31 - 16) + Pow2(31 - 12) + Pow2(31 - 11) +
            Pow2(31 - 10) + Pow2(31 - 8) + Pow2(31 - 7) + Pow2(31 - 5) + Pow2(31 - 4) + Pow2(31 - 2) + Pow2(31 - 1) +
             Pow2(31 - 0)
  {
    assert Pow2(5) == 32 && Pow2(8) == 256 && Pow2(9) == 512;
    PowersAbove(9);
    PowersAbove(15);
    PowersAbove(21);
    PowersAbove(27);
    assert Pow2(5) + Pow2(8) + Pow2(9) + Pow2(15) + Pow2(19) + Pow2(20) + Pow2(21) == 0x38_8320;
  }

  // ---- The bound is sharp ----

  /** The generator as a 33-bit difference: a leading one, then the digits it leaves in the register. */
  function GeneratorPattern(): (g: Bits)
    ensures |g| == 33
  {
    [true] + BitsOf(32, POLYNOMIAL)
  }

  lemma GeneratorVanishes()
    ensures Serial(GeneratorPattern(), 0) == 0
  {
    FeedZero();
    WordWidth();
    assert GeneratorPattern()[1..] == BitsOf(32, POLYNOMIAL);
    EmptiesItself(32, POLYNOMIAL);
  }

  /** Feeding a register its own digits empties it. */
  lemma EmptiesItself(n: nat, c: nat)
    requires c < Pow2(n)
    ensures Serial(BitsOf(n, c), c) == 0
  {
    AddedAhead(n, c, c);
    HighOfSmall(n, c);
    XorSelf(c);
    StepsZero(n);
    XorZero(Serial(BitsOf(n, c), c));
  }

  lemma {:induction false} StepsZero(n: nat)
    ensures Steps(n, 0) == 0
  {
    if n > 0 {
      StepsZero(n - 1);
    }
  }

  /** One bit more is too many: every 33-bit window has a change that no surrounding file can reveal. */
  lemma ThirtyThreeBitsEscape(x: Bits)
    requires |x| == 33
    ensures exists y: Bits :: |y| == 33 && y != x &&
              forall before: Bits, after: Bits, c: Word ::
                Serial(before + x + after, c) == Serial(before + y + after, c)
  {
    var g := GeneratorPattern();
    var y := Differences(x, g);
    assert y[0] != x[0];
    forall before: Bits, after: Bits, c: Word
      ensures Serial(before + x + after, c) == Serial(before + y + after, c)
    {
      var s := Serial(before, c);
      SerialConcat(before + x, after, c);
      SerialConcat(before + y, after, c);
      SerialConcat(before, x, c);
      SerialConcat(before, y, c);
      SerialXor(x, g, s, 0);
      XorZero(s);
      GeneratorVanishes();
      XorZero(Serial(x, s));
    }
  }

  // ---- The checksum as the standard puts it ----

  function Complement(bits: Bits): (r: Bits)
    ensures |r| == |bits|
  {
    seq(|bits|, i requires 0 <= i < |bits| => !bits[i])
  }

  lemma {:induction false} BitsOfXor(n: nat, a: nat, b: nat)
    ensures BitsOf(n, Xor(a, b)) == Differences(BitsOf(n, a), BitsOf(n, b))
  {
    if n > 0 {
      XorDigit(a, b);
      BitsOfXor(n - 1, a / 2, b / 2);
    }
  }

  function Trues(n: nat): (r: Bits)
    ensures |r| == n
  {
    seq(n, _ => true)
  }

  lemma {:induction false} AllOnes(n: nat)
    ensures BitsOf(n, Pow2(n) - 1) == Trues(n)
  {
    if n > 0 {
      AllOnes(n - 1);
      var w := Pow2(n) - 1;
      assert w % 2 == 1 && w / 2 == Pow2(n - 1) - 1;
      assert Trues(n) == [true] + Trues(n - 1);
    }
  }

  lemma DiffersFromTrues(bits: Bits)
    ensures Complement(bits) == Differences(bits, Trues(|bits|))
  {}

  lemma ComplementIsXor(bits: Bits, ones: nat)
    requires ones == Pow2(|bits|) - 1
    ensures Complement(bits) == Differences(bits, BitsOf(|bits|, ones))
  {
    AllOnes(|bits|);
    DiffersFromTrues(bits);
  }

  lemma StartsComplemented(bits: Bits, ones: nat)
    requires ones == Pow2(|bits|) - 1
    ensures Serial(bits, ones) == Serial(Complement(bits), 0)
  {
    var n := |bits|;
    ComplementIsXor(bits, ones);
    SerialXor(bits, BitsOf(n, ones), ones, ones);
    EmptiesItself(n, ones);
    XorSelf(ones);
    XorZero(Serial(bits, ones));
  }

  /** Complementing the first n bits and starting with zero is starting with n ones. */
  lemma StartsWithOnes(bits: Bits, n: nat, ones: nat)
    requires n <= |bits| && ones == Pow2(n) - 1
    ensures Serial(bits, ones) == Serial(Complement(bits[..n]) + bits[n..], 0)
  {
    var head, tail := bits[..n], bits[n..];
    StartsComplemented(head, ones);
    assert bits == head + tail;
    SerialConcat(head, tail, ones);
    SerialConcat(Complement(head), tail, 0);
  }

  /**
   * Section 3.2.9 of IEEE 802.3 complements the first 32 bits, divides by the generator, and complements the remainder:
   * so does the checksum of every file of four bytes or more.
   */
  lemma StandardForm(bytes: Bytes)
    requires |bytes| >= 4
    ensures var bits := Transmitted(bytes);
            BitsOf(32, Crc32(bytes)) == Complement(BitsOf(32, Serial(Complement(bits[..32]) + bits[32..], 0)))
  {
    var bits := Transmitted(bytes);
    WordWidth();
    StartsWithOnes(bits, 32, ONES);
    BitsOfXor(32, Serial(bits, ONES), ONES);
    ComplementIsXor(BitsOf(32, Serial(bits, ONES)), ONES);
  }

  /** A message that is followed by its own checksum leaves the same register, whatever the message. */
  lemma SameResidue(bytes: Bytes)
    ensures Serial(Transmitted(bytes) + BitsOf(32, Crc32(bytes)), ONES) == Serial(BitsOf(32, ONES), 0)
  {
    var bits := Transmitted(bytes);
    var c := Serial(bits, ONES);
    SerialWord(bits, ONES);
    WordWidth();
    SerialConcat(bits, BitsOf(32, Crc32(bytes)), ONES);
    BitsOfXor(32, c, ONES);
    SerialXor(BitsOf(32, c), BitsOf(32, ONES), c, 0);
    XorZero(c);
    EmptiesItself(32, c);
    XorZero(Serial(BitsOf(32, ONES), 0));
  }
}
