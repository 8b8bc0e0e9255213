/** The check register as the drivers keep it, in an unsigned word, and the table they look it up in. */
module CrcTable {
  import opened Bits
  import opened Crc

  const TABLE_LENGTH := 512

  function Nibble(s: seq<bool>, i: nat): nat
    requires i + 4 <= |s|
  {
    Bit(s[i]) + 2 * Bit(s[i + 1]) + 4 * Bit(s[i + 2]) + 8 * Bit(s[i + 3])
  }

  lemma NibblesOf(c: Reg)
    ensures Val(c) == Nibble(c, 0) + 0x10 * Nibble(c, 4) + 0x100 * Nibble(c, 8) + 0x1000 * Nibble(c, 12)
  {
    assert Val([]) == 0;
    hide Val;
    assert c[4..][4..] == c[8..] && c[8..][4..] == c[12..] && c[12..][4..] == [];
    NibbleFirst(c);
    NibbleFirst(c[4..]);
    NibbleFirst(c[8..]);
    NibbleFirst(c[12..]);
    assert Nibble(c[4..], 0) == Nibble(c, 4) && Nibble(c[8..], 0) == Nibble(c, 8);
    assert Nibble(c[12..], 0) == Nibble(c, 12);
    hide Nibble;
  }

  lemma NibbleFirst(s: seq<bool>)
    requires |s| >= 4
    ensures Val(s) == Nibble(s, 0) + 0x10 * Val(s[4..])
  {
    ValNibble(s);
  }

  lemma {:induction false} PolyWord()
    ensures Val(POLY) == 0x8408
  {
    NibblesOf(POLY);
    hide Val;
  }

  lemma StartWord()
    ensures Val(START) == 0x00ff
  {
    NibblesOf(START);
  }

  lemma ShiftDownWord(c: Reg)
    ensures Val(ShiftDown(c)) == Val(c) / 2
  {
    ValZeros(c[1..], 1);
    assert Repeat(false, 1) == [false];
  }

  /** One bit: shift down, and fold in the polynomial when the bit shifted out differs from the data. */
  lemma BitStep(c: Reg, b: bool)
    ensures Val(CrcBit(c, b)) ==
            if Xor(Val(c), Bit(b)) % 2 == 1 then Xor(Val(c) / 2, 0x8408) else Val(c) / 2
  {
    ShiftDownWord(c);
    XorLowBit(Val(c), b);
    assert Val(c) % 2 == Bit(c[0]);
    if c[0] != b { FoldPoly(ShiftDown(c)); }
  }

  lemma FoldPoly(c: Reg)
    ensures Val(XorBits(c, POLY)) == Xor(Val(c), 0x8408)
  {
    PolyWord();
    XorOfVal(c, POLY);
  }

  lemma XorLowBit(x: nat, b: bool)
    ensures Xor(x, Bit(b)) % 2 == Bit((x % 2 == 1) != b)
  {
  }

  lemma RegWord(c: Reg)
    ensures Val(c) < 0x1_0000
    ensures Val(c) % 256 == Val(c[..8]) && Val(c) / 256 == Val(c[8..])
  {
    ValBound(c);
    assert Pow2(8) == 256 by { assert Pow2(4) == 16; }
    assert Pow2(12) == 4096;
    RegisterTake(c, 8);
  }

  /** The index the drivers compute picks the entry for the low half combined with the byte. */
  lemma IndexWord(c: Reg, byte: octet)
    ensures Xor(Val(c), byte) % 256 == Val(XorBits(c[..8], OctetBits(byte))) < 256
  {
    var s := OctetBits(byte);
    ValOctet(byte);
    ValZeros(s, 8);
    XorOfVal(c, Pad(s));
    RegWord(XorBits(c, Pad(s)));
    assert XorBits(c, Pad(s))[..8] == XorBits(c[..8], s);
    OctetVal(XorBits(c[..8], s));
  }

  /** What entry `i` of the table must hold. */
  function Entry(i: octet): nat {
    Val(TableReg(OctetBits(i)))
  }

  /** One look-up in the table advances the word by a whole octet. */
  lemma {:induction false} WordStep(c: Reg, byte: octet)
    ensures Xor(Val(c), byte) % 256 < 256
    ensures Xor(Val(c) / 256, Entry(Xor(Val(c), byte) % 256)) == Val(CrcBits(c, OctetBits(byte)))
  {
    var s := OctetBits(byte);
    IndexWord(c, byte);
    OctetVal(XorBits(c[..8], s));
    TableStep(c, s);
    RegWord(c);
    ValZeros(c[8..], 8);
    XorOfVal(c[8..] + Repeat(false, 8), TableReg(XorBits(c[..8], s)));
  }

  method BcTableValue(bitString: nat, bitLength: nat) returns (value: nat)
    requires bitLength <= 8 && bitString < Pow2(bitLength)
    ensures value == Val(Clocks(Pad(Digits(bitString, bitLength)), bitLength)) < 0x1_0000
  {
    ghost var start: Reg := Pad(Digits(bitString, bitLength));
    value := bitString;
    ValOfDigits(bitString, bitLength);
    ValZeros(Digits(bitString, bitLength), 16 - bitLength);
    ghost var reg := start;
    var pos := 0;
    while pos < bitLength
      invariant 0 <= pos <= bitLength
      invariant value == Val(reg)
      invariant Clocks(reg, bitLength - pos) == Clocks(start, bitLength)
    {
      BitStep(reg, false);
      if value % 2 == 1 {
        value := Xor(value / 2, 0x8408);
      } else {
        value := value / 2;
      }
      reg := CrcBit(reg, false);
      pos := pos + 1;
    }
    RegWord(reg);
  }

  /** Where the entries for `bitLength`-bit strings begin. */
  function Offset(bitLength: nat): int {
    TABLE_LENGTH - 2 * Pow2(bitLength)
  }

  /** The longest strings first. */
  lemma OffsetsAre()
    ensures Offset(8) == 0 && Offset(7) == 256 && Offset(6) == 384 && Offset(5) == 448 && Offset(4) == 480
    ensures Offset(3) == 496 && Offset(2) == 504 && Offset(1) == 508 && Offset(0) == 510
  {
    assert Pow2(4) == 16 && Pow2(5) == 32 && Pow2(6) == 64;
    assert Pow2(8) == 256;
  }

  ghost predicate Filled(table: seq<nat>, bitLength: nat, count: nat)
    requires bitLength <= 8 && |table| == TABLE_LENGTH && 0 <= Offset(bitLength)
    requires Offset(bitLength) + count <= TABLE_LENGTH && count <= Pow2(bitLength)
  {
    forall i: nat :: i < count ==>
      table[Offset(bitLength) + i] == Val(Clocks(Pad(Digits(i, bitLength)), bitLength))
  }

  lemma OffsetRange(bitLength: nat)
    requires bitLength <= 8
    ensures 0 <= Offset(bitLength) && Offset(bitLength) + Pow2(bitLength) <= TABLE_LENGTH
    ensures bitLength > 0 ==> Offset(bitLength - 1) == Offset(bitLength) + Pow2(bitLength)
  {
    Pow2Monotone(bitLength, 8);
    assert Pow2(8) == 256 by { assert Pow2(4) == 16; }
  }

  /** A table that is complete for the strings of every length up to eight. */
  ghost predicate Complete(table: seq<nat>) {
    && |table| == TABLE_LENGTH
    && forall n: nat :: n <= 8 ==> (OffsetRange(n); Filled(table, n, Pow2(n)))
  }

  lemma CompleteEntry(table: seq<nat>, i: octet)
    requires Complete(table)
    ensures table[i] == Entry(i)
  {
    assert Pow2(8) == 256 by { assert Pow2(4) == 16; }
    OffsetRange(8);
    assert Filled(table, 8, Pow2(8));
    assert Offset(8) == 0;
    assert table[Offset(8) + i] == Val(Clocks(Pad(Digits(i, 8)), 8));
  }

  lemma FilledMore(table: seq<nat>, bitLength: nat, i: nat, v: nat)
    requires bitLength <= 8 && |table| == TABLE_LENGTH && 0 <= Offset(bitLength) && i < Pow2(bitLength)
    requires Offset(bitLength) + i < TABLE_LENGTH && Filled(table, bitLength, i)
    requires v == Val(Clocks(Pad(Digits(i, bitLength)), bitLength))
    ensures Filled(table[Offset(bitLength) + i := v], bitLength, i + 1)
  {
    hide Val, Clocks, Digits, Pow2;
  }

  method BcTableGenerate() returns (table: seq<nat>)
    ensures Complete(table)
  {
    var a := new nat[TABLE_LENGTH](_ => 0);
    var pos, bitLength, bitMask, more := 0, 8, 0x100, true;
    assert Pow2(8) == 256 by { assert Pow2(4) == 16; }
    while more
      invariant 0 <= bitLength <= 8
      invariant more ==> bitMask == Pow2(bitLength) && pos == Offset(bitLength)
      invariant !more ==> bitLength == 0
      invariant forall n: nat :: (if more then bitLength else -1) < n <= 8 ==>
        (OffsetRange(n); Filled(a[..], n, Pow2(n)))
      decreases more, bitLength
    {
      OffsetRange(bitLength);
      var bitString := 0;
      ghost var before := a[..];
      while bitString < bitMask
        invariant 0 <= bitString <= bitMask && pos == Offset(bitLength) + bitString
        invariant Filled(a[..], bitLength, bitString)
        invariant a[..Offset(bitLength)] == before[..Offset(bitLength)]
      {
        var v := BcTableValue(bitString, bitLength);
        FilledMore(a[..], bitLength, bitString, v);
        a[pos] := v;
        bitString, pos := bitString + 1, pos + 1;
      }
      forall n: nat | bitLength < n <= 8
        ensures (OffsetRange(n); Filled(a[..], n, Pow2(n)))
      {
        Kept(before, a[..], n, bitLength);
      }
      more := bitLength > 0;
      if more {
        bitLength := bitLength - 1;
        bitMask := bitMask / 2;
      }
    }
    table := a[..];
  }

  lemma Kept(before: seq<nat>, after: seq<nat>, n: nat, m: nat)
    requires m < n <= 8 && |before| == |after| == TABLE_LENGTH
    requires 0 <= Offset(m) <= TABLE_LENGTH && after[..Offset(m)] == before[..Offset(m)]
    requires (OffsetRange(n); Filled(before, n, Pow2(n)))
    ensures (OffsetRange(n); Filled(after, n, Pow2(n)))
  {
    OffsetRange(n);
    Below(n, m);
    forall i: nat | i < Pow2(n)
      ensures after[Offset(n) + i] == Val(Clocks(Pad(Digits(i, n)), n))
    {
      assert before[Offset(n) + i] == Val(Clocks(Pad(Digits(i, n)), n));
      assert after[..Offset(m)][Offset(n) + i] == before[..Offset(m)][Offset(n) + i];
    }
  }

  /** The entries for longer strings all come before those for shorter ones. */
  lemma {:induction false} Below(n: nat, m: nat)
    requires m < n <= 8
    ensures Offset(n) + Pow2(n) <= Offset(m)
  {
    Pow2Monotone(m + 1, n);
  }

  // ---- the good check as a word ----

  /** One bit into the register, as a word: the polynomial 8408 adds or takes away three powers of two. */
  function Clocked(w: nat, b: bool): int {
    var h := w / 2;
    if (w % 2 == 1) == b then h
    else h + 0x8000 + (if h / 0x400 % 2 == 1 then -0x400 else 0x400) + (if h / 8 % 2 == 1 then -8 else 8)
  }

  lemma FlipThree(c: Reg)
    requires !c[15]
    ensures Val(XorBits(c, POLY)) ==
            Val(c) + 0x8000 + (if c[10] then -0x400 else 0x400) + (if c[3] then -8 else 8)
    ensures Val(c) / 0x400 % 2 == Bit(c[10]) && Val(c) / 8 % 2 == Bit(c[3])
  {
    var x := XorBits(c, POLY);
    NibblesOf(c);
    NibblesOf(x);
    hide Val;
    assert Nibble(x, 0) == Nibble(c, 0) + if c[3] then -8 else 8;
    assert Nibble(x, 4) == Nibble(c, 4);
    assert Nibble(x, 8) == Nibble(c, 8) + if c[10] then -4 else 4;
    assert Nibble(x, 12) == Nibble(c, 12) + 8;
    assert Nibble(c, 0) / 8 == Bit(c[3]) && Nibble(c, 8) / 4 % 2 == Bit(c[10]);
    hide Nibble;
    NibbleParts(Nibble(c, 0), Nibble(c, 4), Nibble(c, 8), Nibble(c, 12));
  }

  lemma NibbleParts(n0: nat, n4: nat, n8: nat, n12: nat)
    requires n0 < 16 && n4 < 16 && n8 < 16 && n12 < 16
    ensures var v := n0 + 0x10 * n4 + 0x100 * n8 + 0x1000 * n12; v / 8 % 2 == n0 / 8 && v / 0x400 % 2 == n8 / 4 % 2
  {
    var v := n0 + 0x10 * n4 + 0x100 * n8 + 0x1000 * n12;
    PartOf(v, 8, n0 / 8 + 2 * (n4 + 0x10 * n8 + 0x100 * n12), n0 % 8);
    PartOf(v, 0x400, n8 / 4 + 4 * n12, 0x100 * (n8 % 4) + 0x10 * n4 + n0);
  }

  lemma PartOf(v: nat, d: nat, q: nat, r: nat)
    requires r < d && v == d * q + r
    ensures v / d == q
  {
    assert d * q == q * d;
    DivModUnique(v, d, q, r);
  }

  lemma ClockWord(c: Reg, b: bool)
    ensures Val(CrcBit(c, b)) == Clocked(Val(c), b)
  {
    ShiftDownWord(c);
    assert Val(c) % 2 == Bit(c[0]);
    if c[0] != b { FlipThree(ShiftDown(c)); }
    hide Val, ShiftDown;
  }

  /** Bit by bit, word by word. */
  lemma {:induction false} ClockedTo(c: Reg, s: seq<bool>, words: seq<nat>)
    requires |words| == |s| + 1 && Val(c) == words[0]
    requires forall i :: 0 <= i < |s| ==> words[i + 1] == Clocked(words[i], s[i])
    ensures Val(CrcBits(c, s)) == words[|s|]
    decreases |s|
  {
    if |s| > 0 {
      ClockWord(c, s[0]);
      hide Val, CrcBit, Clocked;
      ClockedTo(CrcBit(c, s[0]), s[1..], words[1..]);
    }
  }

  lemma {:induction false} OnesByEight(c: Reg, s: seq<bool>)
    requires Val(c) == 0xffff && s == [false, false, false, false, false, false, false, false]
    ensures Val(CrcBits(c, s)) == 0x0f87
  {
    hide Val, CrcBits;
    assert Clocked(0xffff, false) == 0xfbf7;
    assert Clocked(0xfbf7, false) == 0xf9f3;
    assert Clocked(0xf9f3, false) == 0xf8f1;
    assert Clocked(0xf8f1, false) == 0xf870;
    assert Clocked(0xf870, false) == 0x7c38;
    assert Clocked(0x7c38, false) == 0x3e1c;
    assert Clocked(0x3e1c, false) == 0x1f0e;
    assert Clocked(0x1f0e, false) == 0x0f87;
    hide Clocked;
    ClockedTo(c, s, [0xffff, 0xfbf7, 0xf9f3, 0xf8f1, 0xf870, 0x7c38, 0x3e1c, 0x1f0e, 0x0f87]);
  }

  lemma {:induction false} OnesBySixteen(c: Reg, s: seq<bool>)
    requires Val(c) == 0x0f87 && s == [false, false, false, false, false, false, false, false]
    ensures Val(CrcBits(c, s)) == 0xf0b8
  {
    hide Val, CrcBits;
    assert Clocked(0x0f87, false) == 0x83cb;
    assert Clocked(0x83cb, false) == 0xc5ed;
    assert Clocked(0xc5ed, false) == 0xe6fe;
    assert Clocked(0xe6fe, false) == 0x737f;
    assert Clocked(0x737f, false) == 0xbdb7;
    assert Clocked(0xbdb7, false) == 0xdad3;
    assert Clocked(0xdad3, false) == 0xe961;
    assert Clocked(0xe961, false) == 0xf0b8;
    hide Clocked;
    ClockedTo(c, s, [0x0f87, 0x83cb, 0xc5ed, 0xe6fe, 0x737f, 0xbdb7, 0xdad3, 0xe961, 0xf0b8]);
  }

  lemma OnesWord()
    ensures Val(ONES) == 0xffff
  {
    NibblesOf(ONES);
    hide Val;
  }

  lemma ZeroWord()
    ensures Val(ZERO) == 0
  {
    NibblesOf(ZERO);
    hide Val;
  }

  /** The remainder that good check bits leave, as a word: f0b8 when they are complemented, the good final FCS of
      appendix C.2 of RFC 1662; nought when they are plain. */
  lemma {:induction false} GoodWord()
    ensures Val(Clocks(ONES, 16)) == 0xf0b8 && Val(Clocks(ZERO, 16)) == 0
  {
    hide *;
    OnesWord();
    ZeroWord();
    ClocksOfZero(16);
    ClocksAreZeros(ONES, 16);
    var z := Repeat(false, 8);
    assert z == [false, false, false, false, false, false, false, false];
    RepeatAppend(false, 8, 8);
    CrcAppend(ONES, z, z);
    OnesByEight(ONES, z);
    OnesBySixteen(CrcBits(ONES, z), z);
  }

  lemma {:induction false} AfterOne(c: Reg, s: seq<bool>)
    requires Val(c) == 0x00ff && s == [true, false, false, false, false, false, false, false]
    ensures Val(CrcBits(c, s)) == 0x1ef1
  {
    hide Val, CrcBits;
    assert Clocked(0x00ff, true) == 0x007f;
    assert Clocked(0x007f, false) == 0x8437;
    assert Clocked(0x8437, false) == 0xc613;
    assert Clocked(0xc613, false) == 0xe701;
    assert Clocked(0xe701, false) == 0xf788;
    assert Clocked(0xf788, false) == 0x7bc4;
    assert Clocked(0x7bc4, false) == 0x3de2;
    assert Clocked(0x3de2, false) == 0x1ef1;
    hide Clocked;
    ClockedTo(c, s, [0x00ff, 0x007f, 0x8437, 0xc613, 0xe701, 0xf788, 0x7bc4, 0x3de2, 0x1ef1]);
  }

  lemma {:induction false} AfterTwo(c: Reg, s: seq<bool>)
    requires Val(c) == 0x1ef1 && s == [false, true, false, false, false, false, false, false]
    ensures Val(CrcBits(c, s)) == 0xc50a
  {
    hide Val, CrcBits;
    assert Clocked(0x1ef1, false) == 0x8b70;
    assert Clocked(0x8b70, true) == 0xc1b0;
    assert Clocked(0xc1b0, false) == 0x60d8;
    assert Clocked(0x60d8, false) == 0x306c;
    assert Clocked(0x306c, false) == 0x1836;
    assert Clocked(0x1836, false) == 0x0c1b;
    assert Clocked(0x0c1b, false) == 0x8205;
    assert Clocked(0x8205, false) == 0xc50a;
    hide Clocked;
    ClockedTo(c, s, [0x1ef1, 0x8b70, 0xc1b0, 0x60d8, 0x306c, 0x1836, 0x0c1b, 0x8205, 0xc50a]);
  }

  lemma {:induction false} AfterThree(c: Reg, s: seq<bool>)
    requires Val(c) == 0xc50a && s == [true, true, false, false, false, false, false, false]
    ensures Val(CrcBits(c, s)) == 0x9d04
  {
    hide Val, CrcBits;
    assert Clocked(0xc50a, true) == 0xe68d;
    assert Clocked(0xe68d, true) == 0x7346;
    assert Clocked(0x7346, false) == 0x39a3;
    assert Clocked(0x39a3, false) == 0x98d9;
    assert Clocked(0x98d9, false) == 0xc864;
    assert Clocked(0xc864, false) == 0x6432;
    assert Clocked(0x6432, false) == 0x3219;
    assert Clocked(0x3219, false) == 0x9d04;
    hide Clocked;
    ClockedTo(c, s, [0xc50a, 0xe68d, 0x7346, 0x39a3, 0x98d9, 0xc864, 0x6432, 0x3219, 0x9d04]);
  }

  /** The octets 01 02 03 leave the register at 9d04, so the check sent complemented is 62fb. */
  lemma {:induction false} KnownCheck()
    ensures Val(MessageCrc([1, 2, 3])) == 0x9d04
  {
    hide *;
    StartWord();
    LowOctets();
    SpreadThree(1, 2, 3);
    MessageCrcIs([1, 2, 3]);
    var x, y, z := OctetBits(1), OctetBits(2), OctetBits(3);
    var c := CrcBits(START, x);
    CrcAppend(START, x, y + z);
    CrcAppend(c, y, z);
    AfterOne(START, x);
    AfterTwo(c, y);
    AfterThree(CrcBits(c, y), z);
  }

  lemma MessageCrcIs(data: seq<octet>)
    ensures MessageCrc(data) == CrcBits(START, Spread(data))
  {
  }

  lemma SpreadThree(x: octet, y: octet, z: octet)
    ensures Spread([x, y, z]) == OctetBits(x) + (OctetBits(y) + OctetBits(z))
  {
    hide OctetBits;
    SpreadStep([x, y, z]);
    SpreadStep([y, z]);
    SpreadOne(z);
    assert [x, y, z][1..] == [y, z] && [y, z][1..] == [z];
  }

  lemma LowOctets()
    ensures OctetBits(1) == [true, false, false, false, false, false, false, false]
    ensures OctetBits(2) == [false, true, false, false, false, false, false, false]
    ensures OctetBits(3) == [true, true, false, false, false, false, false, false]
  {
    NoDigits(7);
    NoDigits(6);
    assert Digits(1, 8) == [true] + Digits(0, 7);
    assert Digits(2, 8) == [false] + Digits(1, 7) && Digits(1, 7) == [true] + Digits(0, 6);
    assert Digits(3, 8) == [true] + Digits(1, 7);
    hide Digits;
  }

  lemma {:induction false} NoDigits(n: nat)
    ensures Digits(0, n) == Repeat(false, n)
  {
    if n > 0 { NoDigits(n - 1); }
  }

  /** The frame body's remainder has that word exactly when the receiver's test passes. */
  lemma {:induction false} PassesIsWord(complement: bool, body: seq<bool>)
    requires |body| >= 16
    ensures Passes(complement, body) <==> Val(CrcBits(START, body)) == if complement then 0xf0b8 else 0
  {
    var good := Clocks(if complement then ONES else ZERO, 16);
    PassesIsRemainder(complement, body);
    GoodWord();
    hide Clocks, CrcBits, Passes;
    if Val(CrcBits(START, body)) == Val(good) { ValInjective(CrcBits(START, body), good); }
  }
}
