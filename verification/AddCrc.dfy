/** The stand-alone routines that put the check octets after a message in a buffer: one bit at a time,
    and a 32-bit word at a time from the first aligned address. */
module AddCrc {
  import opened Bits
  import opened Crc
  import opened CrcTable

  /** The two octets that carry a register: low half first. */
  function FcsOctets(c: Reg): (s: seq<octet>)
    ensures |s| == 2
  {
    OctetVal(c[..8]);
    OctetVal(c[8..]);
    [Val(c[..8]), Val(c[8..])]
  }

  lemma SpreadFcs(c: Reg)
    ensures Spread(FcsOctets(c)) == c
  {
    OctetVal(c[..8]);
    OctetVal(c[8..]);
    var s := FcsOctets(c);
    assert Spread(s[1..]) == OctetBits(s[1]) + Spread([]);
    assert c == c[..8] + c[8..];
  }

  /** A message followed by its own check octets brings the register to zero, and no other pair does. */
  lemma OwnCheckLeavesZero(data: seq<octet>, fcs: seq<octet>)
    requires |fcs| == 2
    ensures CrcBits(START, Spread(data + fcs)) == ZERO <==> fcs == FcsOctets(MessageCrc(data))
  {
    var c := MessageCrc(data);
    SpreadAppend(data, fcs);
    CrcAppend(START, Spread(data), Spread(fcs));
    ZeroRemainder(c, Spread(fcs));
    SpreadFcs(c);
    if Spread(fcs) == c { SpreadInjective(fcs, FcsOctets(c)); }
  }

  /** Behind the octets 01 02 03 go 04 9d. */
  lemma {:induction false} KnownOctets()
    ensures FcsOctets(MessageCrc([1, 2, 3])) == [0x04, 0x9d]
  {
    KnownCheck();
    hide MessageCrc, Val;
    RegWord(MessageCrc([1, 2, 3]));
  }

  /** `n` single-bit steps on the low bits of `dat`. */
  method FeedBits(n: nat, word: nat, bcc0: nat, ghost c: Reg) returns (bcc: nat)
    requires bcc0 == Val(c)
    ensures bcc == Val(CrcBits(c, Digits(word, n)))
  {
    var dat, i := word, n;
    bcc := bcc0;
    ghost var reg := c;
    while i > 0
      invariant bcc == Val(reg)
      invariant CrcBits(reg, Digits(dat, i)) == CrcBits(c, Digits(word, n))
    {
      BitStep(reg, dat % 2 == 1);
      assert Digits(dat, i)[1..] == Digits(dat / 2, i - 1);
      var bit := Xor(bcc, dat % 2) % 2;
      bcc := bcc / 2;
      reg := CrcBit(reg, dat % 2 == 1);
      dat := dat / 2;
      if bit == 1 {
        bcc := Xor(bcc, 0x8408);
      }
      i := i - 1;
    }
  }

  /** Eight steps on the octet at `p[i]`. */
  method FeedAt(p: array<octet>, i: nat, bcc0: nat) returns (bcc: nat)
    requires i < p.Length && bcc0 == Val(MessageCrc(p[..i]))
    ensures bcc == Val(MessageCrc(p[..i + 1]))
  {
    MessageCrcNext(p[..i], p[i]);
    assert p[..i + 1] == p[..i] + [p[i]];
    bcc := FeedBits(8, p[i], bcc0, MessageCrc(p[..i]));
  }

  method StoreFcs(p: array<octet>, len: nat, word: nat, ghost c: Reg)
    requires len + 2 <= p.Length && word == Val(c)
    modifies p
    ensures p[..] == old(p[..len]) + FcsOctets(c) + old(p[len + 2..])
  {
    hide Val;
    RegWord(c);
    var bcc := word;
    p[len] := bcc % 256;
    bcc := bcc / 256;
    OctetVal(c[8..]);
    p[len + 1] := bcc % 256;
  }

  method AddCrc(p: array<octet>, len: nat)
    requires len + 2 <= p.Length
    modifies p
    ensures p[..] == old(p[..len] + FcsOctets(MessageCrc(p[..len])) + p[len + 2..])
  {
    var bcc, i := 0x00ff, 0;
    StartWord();
    while i < len
      invariant 0 <= i <= len && p[..] == old(p[..])
      invariant bcc == Val(MessageCrc(p[..i]))
    {
      bcc := FeedAt(p, i, bcc);
      i := i + 1;
    }
    StoreFcs(p, len, bcc, MessageCrc(p[..len]));
  }

  // ---- a word at a time ----

  /** How many octets lie before the first word boundary. */
  function Gap(addr: nat): nat { (4 - addr % 4) % 4 }

  /** The word that a little-endian machine loads from four octets. */
  function LoadWord(s: seq<octet>): nat
    requires |s| == 4
  {
    var b0: int, b1: int, b2: int, b3: int := s[0], s[1], s[2], s[3];
    b0 + 0x100 * b1 + 0x1_0000 * b2 + 0x100_0000 * b3
  }

  lemma {:induction false} ValOfSpread(s: seq<octet>)
    requires |s| > 0
    ensures Val(Spread(s)) == (s[0] as int) + 0x100 * Val(Spread(s[1..]))
  {
    ValAppend(OctetBits(s[0]), Spread(s[1..]));
    ValOctet(s[0]);
    ShlOctet(Val(Spread(s[1..])));
  }

  lemma {:induction false} LoadedBits(s: seq<octet>)
    requires |s| == 4
    ensures Digits(LoadWord(s), 32) == Spread(s)
  {
    hide Digits, Spread, LoadWord, Val;
    WordOfSpread(s);
    DigitsOfVal(Spread(s));
  }

  lemma {:induction false} WordOfSpread(s: seq<octet>)
    requires |s| == 4
    ensures LoadWord(s) == Val(Spread(s))
  {
    var s1, s2, s3 := s[1..], s[2..], s[3..];
    assert s1[1..] == s2 && s2[1..] == s3 && s3[1..] == [];
    assert Val(Spread([])) == 0;
    hide Val, Spread;
    ValOfSpread(s);
    ValOfSpread(s1);
    ValOfSpread(s2);
    ValOfSpread(s3);
    assert s1[0] == s[1] && s2[0] == s[2] && s3[0] == s[3];
  }

  lemma GapStep(addr: nat, i: nat)
    requires i <= Gap(addr)
    ensures (addr + i) % 4 != 0 <==> i < Gap(addr)
  {
  }

  /** The octets that are summed: those of the message, or nearly the whole address space beyond it when
      it ends before the boundary. */
  function Walked(addr: nat, len: nat): nat {
    if Gap(addr) <= len then len else len + U32 - 1
  }

  /** The alignment loop, for any length: `len` is an unsigned 32-bit word and is decremented each time
      the address test succeeds, so it wraps when the message ends before the boundary. */
  method Align(p: array<octet>, addr: nat, len: nat) returns (i: nat, rest: nat, bcc: nat)
    requires len < U32 && len <= p.Length
    ensures len >= Gap(addr) ==> i == Gap(addr) && rest == len - i
    ensures len < Gap(addr) ==> i == len && rest == U32 - 1
    ensures i <= len && bcc == Val(MessageCrc(p[..i]))
    ensures i + rest == Walked(addr, len) && (i + rest == len <==> Gap(addr) <= len)
  {
    i, rest, bcc := 0, len, 0x00ff;
    StartWord();
    var more := false;
    GapStep(addr, i);
    if (addr + i) % 4 != 0 {
      more, rest := rest != 0, (rest + U32 - 1) % U32;
    }
    while more
      invariant i <= len && bcc == Val(MessageCrc(p[..i]))
      invariant more ==> i < len && i < Gap(addr) && rest == len - i - 1
      invariant !more ==> if len >= Gap(addr) then i == Gap(addr) && rest == len - i
                          else i == len && rest == U32 - 1
      decreases len - i, more
    {
      bcc := FeedAt(p, i, bcc);
      i, more := i + 1, false;
      GapStep(addr, i);
      if (addr + i) % 4 != 0 {
        more, rest := rest != 0, (rest + U32 - 1) % U32;
      }
    }
  }

  /** Thirty-two steps on the word at `p[i..i + 4]`. */
  method FeedWordAt(p: array<octet>, i: nat, bcc0: nat) returns (bcc: nat)
    requires i + 4 <= p.Length && bcc0 == Val(MessageCrc(p[..i]))
    ensures bcc == Val(MessageCrc(p[..i + 4]))
  {
    MessageCrcWord(p[..i], p[i..i + 4]);
    assert p[..i + 4] == p[..i] + p[i..i + 4];
    bcc := FeedBits(32, LoadWord(p[i..i + 4]), bcc0, MessageCrc(p[..i]));
  }

  /** Whole words from the boundary on, then the octets that are left. */
  method SumByWords(p: array<octet>, from: nat, count: nat, bcc0: nat) returns (bcc: nat)
    requires from + count <= p.Length && bcc0 == Val(MessageCrc(p[..from]))
    ensures bcc == Val(MessageCrc(p[..from + count]))
  {
    hide Val, MessageCrc;
    var i, rest := from, count;
    bcc := bcc0;
    while rest >= 4
      invariant i + rest == from + count
      invariant bcc == Val(MessageCrc(p[..i]))
    {
      bcc := FeedWordAt(p, i, bcc);
      i, rest := i + 4, rest - 4;
    }
    while rest > 0
      invariant i + rest == from + count
      invariant bcc == Val(MessageCrc(p[..i]))
    {
      bcc := FeedAt(p, i, bcc);
      i, rest := i + 1, rest - 1;
    }
  }

  lemma MessageCrcWord(data: seq<octet>, s: seq<octet>)
    requires |s| == 4
    ensures MessageCrc(data + s) == CrcBits(MessageCrc(data), Digits(LoadWord(s), 32))
  {
    LoadedBits(s);
    SpreadAppend(data, s);
    CrcAppend(START, Spread(data), Spread(s));
  }

  /** Word at a time, in a memory `p` that reaches as far as the walk does: the same two octets as `AddCrc`
      in the same place, if and only if the message covers the gap; otherwise the sum runs on beyond the
      message and the octets are stored there. */
  method AddCrc2(p: array<octet>, addr: nat, len: nat)
    requires len < U32 && Walked(addr, len) + 2 <= p.Length
    modifies p
    ensures var n := Walked(addr, len);
            p[..] == old(p[..n] + FcsOctets(MessageCrc(p[..n])) + p[n + 2..])
    ensures Walked(addr, len) == len <==> Gap(addr) <= len
  {
    hide Val, MessageCrc, FcsOctets, Gap;
    var i, rest, bcc := Align(p, addr, len);
    bcc := SumByWords(p, i, rest, bcc);
    StoreFcs(p, i + rest, bcc, MessageCrc(p[..i + rest]));
  }
}
