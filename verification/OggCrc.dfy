/** The page checksum of Ogg (section 6 of RFC 3533): a table-driven CRC over unsigned 32-bit words. */
module OggCrc {
  import opened Bytes

  const POLY: word := 0x04c11db7
  const TOP: word := 0x8000_0000

  // ---------------------------------------------------------------------------
  // Exclusive or and shifts on unsigned integers
  // ---------------------------------------------------------------------------

  function Xor(a: nat, b: nat): (r: nat)
  {
    if a == 0 then b else if b == 0 then a else 2 * Xor(a / 2, b / 2) + (a + b) % 2
  }

  /** a * 2^k, by doubling. */
  function Scale(a: nat, k: nat): (r: nat)
    ensures r >= a
  {
    if k == 0 then a else 2 * Scale(a, k - 1)
  }

  lemma {:induction false} XorUnfold(a: nat, b: nat)
    ensures Xor(a, b) == 2 * Xor(a / 2, b / 2) + (a + b) % 2
  {}

  lemma {:induction false} XorCommutes(a: nat, b: nat)
    ensures Xor(a, b) == Xor(b, a)
  {
    if a != 0 && b != 0 { XorCommutes(a / 2, b / 2); }
  }

  lemma ParityOfSum(x: nat, a: nat, b: nat, c: nat)
    requires x % 2 == (a + b) % 2
    ensures (x + c) % 2 == (a + b + c) % 2
  {}

  lemma {:induction false} XorAssociates(a: nat, b: nat, c: nat)
    ensures Xor(Xor(a, b), c) == Xor(a, Xor(b, c))
  {
    hide Xor;
    XorZero(a);
    XorZero(b);
    XorZero(c);
    XorZero(Xor(a, b));
    XorZero(Xor(b, c));
    if a != 0 && b != 0 && c != 0 {
      XorAssociates(a / 2, b / 2, c / 2);
      XorAssociatesStep(a, b, c);
    }
  }

  lemma XorAssociatesStep(a: nat, b: nat, c: nat)
    requires Xor(Xor(a / 2, b / 2), c / 2) == Xor(a / 2, Xor(b / 2, c / 2))
    ensures Xor(Xor(a, b), c) == Xor(a, Xor(b, c))
  {
    hide Xor;
    var x, y := Xor(a, b), Xor(b, c);
    XorUnfold(a, b);
    XorUnfold(b, c);
    ParityOfSum(x, a, b, c);
    ParityOfSum(y, b, c, a);
    XorUnfold(x, c);
    XorUnfold(a, y);
  }

  lemma XorZero(a: nat)
    ensures Xor(a, 0) == a && Xor(0, a) == a
  {}

  lemma {:induction false} XorSelf(a: nat)
    ensures Xor(a, a) == 0
  {
    if a != 0 { XorSelf(a / 2); }
  }

  lemma XorInterchange(a: nat, b: nat, c: nat, d: nat)
    ensures Xor(Xor(a, b), Xor(c, d)) == Xor(Xor(a, c), Xor(b, d))
  {
    XorAssociates(a, b, Xor(c, d));
    XorAssociates(b, c, d);
    XorCommutes(b, c);
    XorAssociates(c, b, d);
    XorAssociates(a, c, Xor(b, d));
  }

  lemma {:induction false} XorBelow(a: nat, b: nat, k: nat)
    requires a < Scale(1, k) && b < Scale(1, k)
    ensures Xor(a, b) < Scale(1, k)
  {
    if a != 0 && b != 0 { XorBelow(a / 2, b / 2, k - 1); }
  }

  // Exclusive or works on the high and the low part of a number separately.
  lemma {:induction false} XorSplit(a: nat, la: nat, b: nat, lb: nat, k: nat)
    requires la < Scale(1, k) && lb < Scale(1, k)
    ensures Xor(Scale(a, k) + la, Scale(b, k) + lb) == Scale(Xor(a, b), k) + Xor(la, lb)
    decreases k
  {
    hide Xor, Scale;
    if k == 0 {
      ScaleNothing(a);
      ScaleNothing(b);
      ScaleNothing(1);
      ScaleNothing(Xor(a, b));
      XorZero(0);
    } else {
      ScaleOnce(a, k);
      ScaleOnce(b, k);
      ScaleOnce(1, k);
      ScaleOnce(Xor(a, b), k);
      XorSplit(a, la / 2, b, lb / 2, k - 1);
      XorOfDoubles(Scale(a, k - 1), la, Scale(b, k - 1), lb, Scale(Xor(a, b), k - 1));
    }
  }

  lemma ScaleNothing(a: nat)
    ensures Scale(a, 0) == a
  {}

  lemma ScaleOnce(a: nat, k: nat)
    requires k > 0
    ensures Scale(a, k) == 2 * Scale(a, k - 1)
  {}

  lemma HalvesAndParity(x: nat, la: nat, y: nat, lb: nat)
    ensures (2 * x + la) / 2 == x + la / 2 && (2 * y + lb) / 2 == y + lb / 2
    ensures ((2 * x + la) + (2 * y + lb)) % 2 == (la + lb) % 2
  {}

  lemma XorOfDoubles(x: nat, la: nat, y: nat, lb: nat, z: nat)
    requires Xor(x + la / 2, y + lb / 2) == z + Xor(la / 2, lb / 2)
    ensures Xor(2 * x + la, 2 * y + lb) == 2 * z + Xor(la, lb)
  {
    hide Xor;
    HalvesAndParity(x, la, y, lb);
    XorUnfold(2 * x + la, 2 * y + lb);
    XorUnfold(la, lb);
  }

  lemma {:induction false} ScaleTwice(a: nat, i: nat, j: nat)
    ensures Scale(Scale(a, i), j) == Scale(a, i + j)
  {
    if j > 0 { ScaleTwice(a, i, j - 1); }
  }

  lemma ScaleFour(a: nat)
    ensures Scale(a, 4) == 16 * a
  {
    assert Scale(a, 1) == 2 * a;
    assert Scale(a, 2) == 4 * a;
    assert Scale(a, 3) == 8 * a;
  }

  lemma ScaleEight(a: nat)
    ensures Scale(a, 8) == 0x100 * a
  {
    ScaleFour(a);
    ScaleFour(Scale(a, 4));
    ScaleTwice(a, 4, 4);
  }

  lemma ScaleValues(a: nat)
    ensures Scale(a, 1) == 2 * a && Scale(a, 24) == 0x100_0000 * a
    ensures Scale(a, 31) == TOP * a && Scale(a, 32) == 0x1_0000_0000 * a
  {
    ScaleEight(a);
    ScaleEight(Scale(a, 8));
    ScaleTwice(a, 8, 8);
    ScaleEight(Scale(a, 16));
    ScaleTwice(a, 16, 8);
    ScaleEight(Scale(a, 24));
    ScaleTwice(a, 24, 8);
    assert Scale(a, 32) == 2 * Scale(a, 31);
  }

  function XorW(a: word, b: word): (r: word)
    ensures r == Xor(a, b)
  {
    ScaleValues(1);
    XorBelow(a, b, 32);
    Xor(a, b)
  }

  // ---------------------------------------------------------------------------
  // The checksum, one message bit at a time
  // ---------------------------------------------------------------------------

  /** One step of the polynomial division: the register moves left, and POLY is taken out when the bit that
      leaves it differs from the message bit. */
  function FeedBit(crc: word, bit: nat): (r: word)
    requires bit < 2
  {
    if crc / TOP != bit then XorW(2 * crc % 0x1_0000_0000, POLY) else 2 * crc % 0x1_0000_0000
  }

  /** The n low bits of v, most significant first. */
  function FeedBits(crc: word, v: nat, n: nat): (r: word)
    decreases n
  {
    if n == 0 then crc else FeedBit(FeedBits(crc, v / 2, n - 1), v % 2)
  }

  function Crc(message: seq<byte>): (r: word)
  {
    if message == [] then 0 else FeedBits(Crc(message[..|message| - 1]), message[|message| - 1], 8)
  }

  // ---------------------------------------------------------------------------
  // Eight steps at once
  // ---------------------------------------------------------------------------

  function Shift1(r: word): (s: word)
  {
    if r >= TOP then XorW(2 * r % 0x1_0000_0000, POLY) else 2 * r % 0x1_0000_0000
  }

  function Shift(r: word, n: nat): (s: word)
    decreases n
  {
    if n == 0 then r else Shift1(Shift(r, n - 1))
  }

  // A shift doubles the 31 low bits, and takes POLY out when the top bit was set.
  lemma Shift1Parts(top: nat, low: nat)
    requires top < 2 && low < TOP
    ensures top * TOP + low < 0x1_0000_0000
    ensures Shift1(top * TOP + low) == Xor(2 * low, Taken(top, POLY))
  {
    hide Xor;
    XorZero(2 * low);
  }

  lemma WordParts(a: word, b: word)
    ensures Xor(a / TOP, b / TOP) < 2 && Xor(a % TOP, b % TOP) < TOP
    ensures Xor(a, b) == Xor(a / TOP, b / TOP) * TOP + Xor(a % TOP, b % TOP)
  {
    hide Xor, Scale;
    ScaleValues(1);
    ScaleValues(a / TOP);
    ScaleValues(b / TOP);
    ScaleValues(Xor(a / TOP, b / TOP));
    XorSplit(a / TOP, a % TOP, b / TOP, b % TOP, 31);
    XorBelow(a % TOP, b % TOP, 31);
    XorBelow(a / TOP, b / TOP, 1);
  }

  function Taken(top: nat, poly: word): (r: word) { if top == 0 then 0 else poly }

  lemma XorOfTaken(p: nat, q: nat, poly: word)
    requires p < 2 && q < 2
    ensures Xor(p, q) < 2 && Xor(Taken(p, poly), Taken(q, poly)) == Taken(Xor(p, q), poly)
  {
    hide Xor;
    XorSelf(poly);
    XorSelf(p);
    XorZero(p);
    XorZero(q);
    XorZero(poly);
    XorZero(0);
  }

  lemma Shift1OfXor(a: word, b: word)
    ensures Shift1(XorW(a, b)) == XorW(Shift1(a), Shift1(b))
  {
    hide Xor;
    var ha, la, hb, lb := a / TOP, a % TOP, b / TOP, b % TOP;
    WordParts(a, b);
    calc {
      Shift1(XorW(a, b));
      { Shift1Parts(Xor(ha, hb), Xor(la, lb)); }
      Xor(2 * Xor(la, lb), Taken(Xor(ha, hb), POLY));
      { XorUnfold(2 * la, 2 * lb); XorOfTaken(ha, hb, POLY); }
      Xor(Xor(2 * la, 2 * lb), Xor(Taken(ha, POLY), Taken(hb, POLY)));
      { XorInterchange(2 * la, 2 * lb, Taken(ha, POLY), Taken(hb, POLY)); }
      Xor(Xor(2 * la, Taken(ha, POLY)), Xor(2 * lb, Taken(hb, POLY)));
      { Shift1Parts(ha, la); Shift1Parts(hb, lb); }
      Xor(Shift1(a), Shift1(b));
    }
  }

  lemma {:induction false} ShiftOfXor(a: word, b: word, n: nat)
    ensures Shift(XorW(a, b), n) == XorW(Shift(a, n), Shift(b, n))
    decreases n
  {
    if n > 0 {
      ShiftOfXor(a, b, n - 1);
      Shift1OfXor(Shift(a, n - 1), Shift(b, n - 1));
    }
  }

  // As long as no set bit leaves the register, shifting multiplies.
  lemma {:induction false} ShiftLow(low: nat, n: nat)
    requires Scale(low, n) < 0x1_0000_0000
    ensures Shift(low, n) == Scale(low, n)
    decreases n
  {
    hide Shift1;
    if n > 0 {
      ShiftLow(low, n - 1);
      Shift1Low(Scale(low, n - 1));
    }
  }

  lemma Shift1Low(low: nat)
    requires 2 * low < 0x1_0000_0000
    ensures Shift1(low) == 2 * low
  {
    hide Xor;
  }

  lemma FeedBitIsShift(crc: word, bit: nat)
    requires bit < 2
    ensures FeedBit(crc, bit) == Shift1(XorW(crc, bit * TOP))
  {
    hide Xor;
    XorZero(crc);
    if bit == 1 {
      WordParts(crc, TOP);
      XorZero(crc % TOP);
      XorZero(1);
      XorSelf(1);
    }
  }

  // Feeding n bits is exclusive or into the n top bits followed by n plain shifts.
  lemma {:induction false} FeedBitsIsShift(crc: word, v: nat, n: nat)
    requires n <= 32 && v < Scale(1, n)
    ensures Scale(v, 32 - n) < 0x1_0000_0000
    ensures FeedBits(crc, v, n) == Shift(XorW(crc, Scale(v, 32 - n)), n)
    decreases n
  {
    hide Xor, FeedBit, Shift1;
    ScaleValues(1);
    ScaleBelow(v, n, 32 - n);
    if n == 0 {
      ScaleValues(0);
      XorZero(crc);
    } else {
      var half, bit := v / 2, v % 2;
      FeedBitsIsShift(crc, half, n - 1);
      FeedBitIsShift(FeedBits(crc, half, n - 1), bit);
      OneMoreBit(crc, v, n);
    }
  }

  lemma OneMoreBit(crc: word, v: nat, n: nat)
    requires 0 < n <= 32 && Scale(v, 32 - n) < 0x1_0000_0000 && Scale(v / 2, 33 - n) < 0x1_0000_0000
    ensures Shift(XorW(crc, Scale(v, 32 - n)), n - 1)
         == XorW(Shift(XorW(crc, Scale(v / 2, 33 - n)), n - 1), v % 2 * TOP)
  {
    hide Xor;
    var high, rest := Scale(v / 2, 33 - n), Scale(v % 2, 32 - n);
    LastBit(v, 32 - n);
    ScaleTwice(v % 2, 32 - n, n - 1);
    ScaleValues(v % 2);
    ScaleGrows(rest, n - 1);
    ShiftLow(rest, n - 1);
    XorAssociates(crc, high, rest);
    ShiftOfXor(XorW(crc, high), rest, n - 1);
  }

  lemma {:induction false} ScaleGrows(a: nat, k: nat)
    ensures a <= Scale(a, k)
  {}

  lemma {:induction false} ScaleBelow(v: nat, n: nat, k: nat)
    requires v < Scale(1, n)
    ensures Scale(v, k) < Scale(1, n + k)
    decreases k
  {
    if k > 0 { ScaleBelow(v, n, k - 1); }
  }

  lemma LastBit(v: nat, k: nat)
    ensures Scale(v, k) == Xor(Scale(v / 2, k + 1), Scale(v % 2, k))
  {
    ScaleTwice(v / 2, 1, k);
    assert Scale(v / 2, 1) == 2 * (v / 2);
    XorOfScaled(2 * (v / 2), v % 2, k);
    assert Xor(2 * (v / 2), v % 2) == v by { XorUnfold(2 * (v / 2), v % 2); }
  }

  lemma XorOfScaled(a: nat, b: nat, k: nat)
    ensures Xor(Scale(a, k), Scale(b, k)) == Scale(Xor(a, b), k)
  {
    assert 0 < Scale(1, k);
    XorSplit(a, 0, b, 0, k);
  }

  function TableEntry(i: byte): (r: word)
  {
    Shift(0x100_0000 * i as int, 8)
  }

  function TableStep(crc: word, b: byte): (r: word)
    ensures 0 <= Xor(crc / 0x100_0000, b) < 0x100
  {
    TopByte(crc / 0x100_0000, b);
    XorW(0x100 * crc % 0x1_0000_0000, TableEntry(Xor(crc / 0x100_0000, b)))
  }

  lemma TopByte(hi: byte, b: byte)
    ensures Xor(hi, b) < 0x100
  {
    ScaleEight(1);
    XorBelow(hi, b, 8);
  }

  /** The table look-up of one byte is the division by eight message bits. */
  lemma TableStepIsDivision(crc: word, b: byte)
    ensures TableStep(crc, b) == FeedBits(crc, b, 8)
  {
    hide Xor, Scale, Shift, FeedBits;
    var hi, lo := crc / 0x100_0000, crc % 0x100_0000;
    var i := Xor(hi, b);
    TopByte(hi, b);
    ScaleEight(1);
    ScaleValues(b);
    FeedBitsIsShift(crc, b, 8);
    HighByte(hi, lo, b);
    ShiftOfXor(0x100_0000 * i, lo, 8);
    ScaleEight(lo);
    ShiftLow(lo, 8);
    XorCommutes(Shift(0x100_0000 * i, 8), 0x100 * lo);
    assert 0x100 * crc % 0x1_0000_0000 == 0x100 * lo;
  }

  lemma HighByte(hi: byte, lo: nat, b: byte)
    requires lo < 0x100_0000
    ensures Xor(0x100_0000 * hi as int + lo, 0x100_0000 * b as int) == Xor(0x100_0000 * Xor(hi, b), lo)
  {
    hide Xor, Scale;
    HighPart(hi, lo, b, Xor(hi, b));
  }

  lemma HighPart(hi: nat, lo: nat, b: nat, i: nat)
    requires lo < 0x100_0000 && i == Xor(hi, b)
    ensures Xor(0x100_0000 * hi + lo, 0x100_0000 * b) == 0x100_0000 * i + lo == Xor(0x100_0000 * i, lo)
  {
    hide Xor, Scale;
    XorHigh(hi, lo, b, 0);
    XorZero(lo);
    XorHigh(i, 0, 0, lo);
    XorZero(i);
  }

  lemma XorHigh(a: nat, la: nat, b: nat, lb: nat)
    requires la < 0x100_0000 && lb < 0x100_0000
    ensures Xor(0x100_0000 * a + la, 0x100_0000 * b + lb) == 0x100_0000 * Xor(a, b) + Xor(la, lb)
  {
    hide Xor, Scale;
    ScaleValues(1);
    ScaleValues(a);
    ScaleValues(b);
    ScaleValues(Xor(a, b));
    XorSplit(a, la, b, lb, 24);
  }

  /** The checksum of the single byte 1 is the generator itself. */
  lemma ChecksumOfOne()
    ensures Crc([1]) == 0x04c11db7
  {
    hide Xor, Scale, Shift1, FeedBits;
    var one: byte := 1;
    assert Crc([]) == 0;
    assert [one][..0] == [] && Crc([one]) == FeedBits(0, one, 8);
    ScaleEight(1);
    FeedBitsIsShift(0, one, 8);
    ScaleValues(1);
    XorZero(Scale(1, 24));
    ScaleTwice(1, 24, 7);
    ShiftLow(0x100_0000, 7);
    assert Shift(0x100_0000, 8) == Shift1(TOP);
    TopBitLeaves();
  }

  lemma TopBitLeaves()
    ensures Shift1(TOP) == 0x04c11db7
  {
    hide Xor;
    XorZero(POLY);
  }

  // ---------------------------------------------------------------------------
  // The program
  // ---------------------------------------------------------------------------

  method BuildTable() returns (table: array<word>)
    ensures fresh(table) && table.Length == 256
    ensures forall i: byte :: table[i] == TableEntry(i)
  {
    table := new word[256];
    var i := 0;
    while i < 256
      invariant 0 <= i <= 256
      invariant forall k: byte :: k < i ==> table[k] == TableEntry(k)
    {
      var r: word := 0x100_0000 * i;
      var j := 0;
      while j < 8
        invariant 0 <= j <= 8
        invariant r == Shift(0x100_0000 * i, j)
      {
        r := if r >= TOP then XorW(2 * r % 0x1_0000_0000, POLY) else 2 * r % 0x1_0000_0000;
        j := j + 1;
      }
      table[i] := r;
      i := i + 1;
    }
  }

  method OggCrc(table: array<word>, page: seq<byte>) returns (crc: word)
    requires table.Length == 256
    requires forall i: byte :: table[i] == TableEntry(i)
    ensures crc == Crc(page)
  {
    hide Xor, FeedBits, TableEntry;
    crc := 0;
    var n := 0;
    while n < |page|
      invariant 0 <= n <= |page|
      invariant crc == Crc(page[..n])
    {
      var b := page[n];
      assert page[..n + 1][..n] == page[..n];
      TableStepIsDivision(crc, b);
      TopByte(crc / 0x100_0000, b);
      crc := XorW(0x100 * crc % 0x1_0000_0000, table[Xor(crc / 0x100_0000, b) % 0x100]);
      n := n + 1;
    }
    assert page[..n] == page;
  }
}
