/** The 16-bit frame check: the register clocked one bit at a time, its byte-indexed table, and what
    the check detects.  A register is its sixteen bits, lowest first; data are bits in the order they
    travel. */
module Crc {
  import opened Bits

  type Reg = c: seq<bool> | |c| == 16 witness Repeat(false, 16)

  /** 0x8408: bits 3, 10 and 15. */
  const POLY: Reg := [false, false, false, true, false, false, false, false,
                      false, false, true, false, false, false, false, true]

  /** 0x00ff. */
  const START: Reg := Repeat(true, 8) + Repeat(false, 8)

  const ZERO: Reg := Repeat(false, 16)
  const ONES: Reg := Repeat(true, 16)

  function NotBits(x: seq<bool>): (z: seq<bool>)
    ensures |z| == |x| && forall i :: 0 <= i < |x| ==> z[i] == !x[i]
  {
    seq(|x|, i requires 0 <= i < |x| => !x[i])
  }

  function ShiftDown(c: Reg): Reg { c[1..] + [false] }

  /** One data bit into the register. */
  function CrcBit(c: Reg, b: bool): Reg {
    if c[0] != b then XorBits(ShiftDown(c), POLY) else ShiftDown(c)
  }

  function CrcBits(c: Reg, s: seq<bool>): Reg
    decreases |s|
  {
    if |s| == 0 then c else CrcBits(CrcBit(c, s[0]), s[1..])
  }

  /** The register clocked `n` times with nothing at its input. */
  function Clocks(x: Reg, n: nat): Reg
    decreases n
  {
    if n == 0 then x else Clocks(CrcBit(x, false), n - 1)
  }

  /** The register after a whole message. */
  function MessageCrc(data: seq<octet>): Reg {
    CrcBits(START, Spread(data))
  }

  function Pad(s: seq<bool>): Reg
    requires |s| <= 16
  {
    s + Repeat(false, 16 - |s|)
  }

  // ---- the register is linear and loses nothing ----

  lemma ClockLinear(x: Reg, y: Reg)
    ensures CrcBit(XorBits(x, y), false) == XorBits(CrcBit(x, false), CrcBit(y, false))
  {
  }

  lemma {:induction false} ClocksLinear(x: Reg, y: Reg, n: nat)
    ensures Clocks(XorBits(x, y), n) == XorBits(Clocks(x, n), Clocks(y, n))
    decreases n
  {
    if n > 0 {
      ClockLinear(x, y);
      ClocksLinear(CrcBit(x, false), CrcBit(y, false), n - 1);
    }
  }

  lemma CrcBitInjective(c: Reg, d: Reg, b: bool)
    requires CrcBit(c, b) == CrcBit(d, b)
    ensures c == d
  {
    var r := CrcBit(c, b);
    assert r[15] == (c[0] != b) && r[15] == (d[0] != b);
    assert c[0] == d[0];
    forall i | 1 <= i < 16
      ensures c[i] == d[i]
    {
      assert r[i - 1] == if r[15] then c[i] != POLY[i - 1] else c[i];
      assert r[i - 1] == if r[15] then d[i] != POLY[i - 1] else d[i];
    }
  }

  lemma {:induction false} CrcInjective(c: Reg, d: Reg, s: seq<bool>)
    requires CrcBits(c, s) == CrcBits(d, s)
    ensures c == d
    decreases |s|
  {
    if |s| > 0 {
      CrcInjective(CrcBit(c, s[0]), CrcBit(d, s[0]), s[1..]);
      CrcBitInjective(c, d, s[0]);
    }
  }

  lemma {:induction false} ClocksAreZeros(x: Reg, n: nat)
    ensures Clocks(x, n) == CrcBits(x, Repeat(false, n))
    decreases n
  {
    if n > 0 {
      ClocksAreZeros(CrcBit(x, false), n - 1);
      assert Repeat(false, n)[1..] == Repeat(false, n - 1);
    }
  }

  lemma ClocksInjective(x: Reg, y: Reg, n: nat)
    requires Clocks(x, n) == Clocks(y, n)
    ensures x == y
  {
    ClocksAreZeros(x, n);
    ClocksAreZeros(y, n);
    CrcInjective(x, y, Repeat(false, n));
  }

  lemma {:induction false} CrcAppend(c: Reg, s: seq<bool>, t: seq<bool>)
    ensures CrcBits(c, s + t) == CrcBits(CrcBits(c, s), t)
    decreases |s|
  {
    if |s| == 0 {
      assert s + t == t;
    } else {
      assert (s + t)[1..] == s[1..] + t;
      CrcAppend(CrcBit(c, s[0]), s[1..], t);
    }
  }

  lemma MessageCrcEmpty()
    ensures MessageCrc([]) == START
  {
  }

  lemma {:induction false} MessageCrcNext(data: seq<octet>, b: octet)
    ensures MessageCrc(data + [b]) == CrcBits(MessageCrc(data), OctetBits(b))
  {
    SpreadAppend(data, [b]);
    SpreadOne(b);
    CrcAppend(START, Spread(data), OctetBits(b));
  }

  lemma ClockOfPair(c: Reg, b: bool, s: seq<bool>)
    requires |s| <= 15
    ensures CrcBit(XorBits(c, Pad([b] + s)), false) == XorBits(CrcBit(c, b), Pad(s))
  {
    var p, q := Pad([b] + s), Pad(s);
    assert p[0] == b && !q[15];
    assert forall i :: 1 <= i < 16 ==> p[i] == q[i - 1];
  }

  /** Up to sixteen data bits at once: xor them into the register, then clock it. */
  lemma {:induction false} CrcIsClocks(c: Reg, s: seq<bool>)
    requires |s| <= 16
    ensures CrcBits(c, s) == Clocks(XorBits(c, Pad(s)), |s|)
    decreases |s|
  {
    if |s| == 0 {
      assert XorBits(c, Pad(s)) == c;
    } else {
      assert s == [s[0]] + s[1..];
      ClockOfPair(c, s[0], s[1..]);
      CrcIsClocks(CrcBit(c, s[0]), s[1..]);
    }
  }

  // ---- the table ----

  lemma {:induction false} ClocksHigh(t: seq<bool>, n: nat)
    requires |t| + n == 16
    ensures Clocks(Repeat(false, n) + t, n) == t + Repeat(false, n)
    decreases n
  {
    if n > 0 {
      var x: Reg := Repeat(false, n) + t;
      assert CrcBit(x, false) == Repeat(false, n - 1) + (t + [false]);
      ClocksHigh(t + [false], n - 1);
      assert [false] + Repeat(false, n - 1) == Repeat(false, n);
    }
  }

  /** The table entry for an index is the register after eight clocks from it. */
  function TableReg(index: seq<bool>): Reg
    requires |index| == 8
  {
    Clocks(Pad(index), 8)
  }

  /** One table look-up is eight single-bit steps: the high half of the register moves down and is
      combined with the entry selected by the low half combined with the byte. */
  lemma {:induction false} TableStep(c: Reg, s: seq<bool>)
    requires |s| == 8
    ensures CrcBits(c, s) == XorBits(c[8..] + Repeat(false, 8), TableReg(XorBits(c[..8], s)))
  {
    CrcIsClocks(c, s);
    var low: Reg := Pad(XorBits(c[..8], s));
    var high: Reg := Repeat(false, 8) + c[8..];
    assert XorBits(c, Pad(s)) == XorBits(high, low);
    ClocksLinear(high, low, 8);
    ClocksHigh(c[8..], 8);
  }

  // ---- what the check means ----

  lemma {:induction false} ClocksOfZero(n: nat)
    ensures Clocks(ZERO, n) == ZERO
  {
    if n > 0 {
      assert CrcBit(ZERO, false) == ZERO;
      ClocksOfZero(n - 1);
    }
  }

  /** Running on over sixteen check bits leaves zero exactly when they are the register itself. */
  lemma {:induction false} ZeroRemainder(c: Reg, f: Reg)
    ensures CrcBits(c, f) == ZERO <==> f == c
  {
    CrcIsClocks(c, f);
    assert Pad(f) == f;
    ClocksOfZero(16);
    if CrcBits(c, f) == ZERO {
      ClocksInjective(XorBits(c, f), ZERO, 16);
      XorConstant(c, f, ZERO);
    }
    if f == c { assert XorBits(c, f) == ZERO; }
  }

  lemma XorConstant(c: Reg, f: Reg, k: Reg)
    requires XorBits(c, f) == k
    ensures f == XorBits(c, k)
    ensures k == ZERO ==> f == c
    ensures k == ONES ==> f == NotBits(c)
  {
    assert forall i :: 0 <= i < 16 ==> f[i] == (c[i] != k[i]);
  }

  /** The check bits a convention puts after a register: the register, or its complement. */
  function CheckBits(complement: bool, c: Reg): Reg {
    if complement then NotBits(c) else c
  }

  /** The receiver's test on a frame body of message bits followed by 16 check bits. */
  predicate Passes(complement: bool, body: seq<bool>)
    requires |body| >= 16
  {
    var n := |body| - 16;
    body[n..] == CheckBits(complement, CrcBits(START, body[..n]))
  }

  lemma {:induction false} CheckIsRemainder(complement: bool, c: Reg, f: Reg)
    ensures f == CheckBits(complement, c) <==>
            CrcBits(c, f) == Clocks(if complement then ONES else ZERO, 16)
  {
    var k := if complement then ONES else ZERO;
    CrcIsClocks(c, f);
    assert Pad(f) == f;
    if f == CheckBits(complement, c) {
      assert XorBits(c, f) == k;
    }
    if CrcBits(c, f) == Clocks(k, 16) {
      ClocksInjective(XorBits(c, f), k, 16);
      XorConstant(c, f, k);
    }
  }

  /** Either form of the test asks for one fixed remainder. */
  lemma {:induction false} PassesIsRemainder(complement: bool, body: seq<bool>)
    requires |body| >= 16
    ensures Passes(complement, body) <==>
            CrcBits(START, body) == Clocks(if complement then ONES else ZERO, 16)
  {
    var n := |body| - 16;
    assert body == body[..n] + body[n..];
    CrcAppend(START, body[..n], body[n..]);
    CheckIsRemainder(complement, CrcBits(START, body[..n]), body[n..]);
  }

  /** Two bodies that agree except inside a window of at most 16 bits, and do differ there. */
  predicate Burst(x: seq<bool>, y: seq<bool>, at: nat, width: nat) {
    && |x| == |y| && width <= 16 && at + width <= |x|
    && x[..at] == y[..at]
    && x[at + width..] == y[at + width..]
    && x != y
  }

  /** Every error burst of at most 16 bits, at any place in a message of any length, is detected. */
  lemma {:induction false} BurstDetected(complement: bool, x: seq<bool>, y: seq<bool>, at: nat, width: nat)
    requires |x| >= 16 && Burst(x, y, at, width)
    requires Passes(complement, x)
    ensures !Passes(complement, y)
  {
    PassesIsRemainder(complement, x);
    PassesIsRemainder(complement, y);
    if Passes(complement, y) { EqualRemainders(x, y, at, width); }
  }

  /** Bodies that agree outside a window of 16 bits have different remainders unless they are equal. */
  lemma {:induction false} EqualRemainders(x: seq<bool>, y: seq<bool>, at: nat, width: nat)
    requires |x| == |y| && width <= 16 && at + width <= |x|
    requires x[..at] == y[..at] && x[at + width..] == y[at + width..]
    requires CrcBits(START, x) == CrcBits(START, y)
    ensures x == y
  {
    hide CrcBits;
    CrcSplit(START, x, at, width);
    CrcSplit(START, y, at, width);
    var c := CrcBits(START, x[..at]);
    CrcInjective(CrcBits(c, x[at..at + width]), CrcBits(c, y[at..at + width]), x[at + width..]);
    ShortInjective(c, x[at..at + width], y[at..at + width]);
    assert x == x[..at] + x[at..at + width] + x[at + width..];
    assert y == y[..at] + y[at..at + width] + y[at + width..];
  }

  lemma ShortInjective(c: Reg, e: seq<bool>, f: seq<bool>)
    requires |e| == |f| <= 16 && CrcBits(c, e) == CrcBits(c, f)
    ensures e == f
  {
    CrcIsClocks(c, e);
    CrcIsClocks(c, f);
    ClocksInjective(XorBits(c, Pad(e)), XorBits(c, Pad(f)), |e|);
    PadInjective(c, e, f);
  }

  lemma CrcSplit(c: Reg, x: seq<bool>, at: nat, width: nat)
    requires at + width <= |x|
    ensures CrcBits(c, x) == CrcBits(CrcBits(CrcBits(c, x[..at]), x[at..at + width]), x[at + width..])
  {
    assert x == x[..at] + (x[at..at + width] + x[at + width..]);
    CrcAppend(c, x[..at], x[at..at + width] + x[at + width..]);
    CrcAppend(CrcBits(c, x[..at]), x[at..at + width], x[at + width..]);
  }

  lemma PadInjective(c: Reg, e: seq<bool>, f: seq<bool>)
    requires |e| == |f| <= 16
    requires XorBits(c, Pad(e)) == XorBits(c, Pad(f))
    ensures e == f
  {
    forall i | 0 <= i < |e|
      ensures e[i] == f[i]
    {
      assert XorBits(c, Pad(e))[i] == (c[i] != e[i]);
      assert XorBits(c, Pad(f))[i] == (c[i] != f[i]);
    }
  }
}
