/** Zero insertion: after five ones in a row the transmitter sends a zero that is not data. */
module Stuffing {
  import opened Bits

  /** Zero insertion one bit at a time, when `ones` ones have been sent since the last zero. */
  function Stuff(ones: nat, data: seq<bool>): seq<bool>
    decreases |data|
  {
    if |data| == 0 then []
    else if !data[0] then [false] + Stuff(0, data[1..])
    else if ones == 4 then [true, false] + Stuff(0, data[1..])
    else [true] + Stuff(ones + 1, data[1..])
  }

  /** The run of ones that is open once `data` has been sent. */
  function OnesAfter(ones: nat, data: seq<bool>): nat
    decreases |data|
  {
    if |data| == 0 then ones
    else OnesAfter(if data[0] && ones != 4 then ones + 1 else 0, data[1..])
  }

  /** Zero deletion one bit at a time: the bit after five ones is dropped. */
  function Unstuff(ones: nat, line: seq<bool>): seq<bool>
    decreases |line|
  {
    if |line| == 0 then []
    else if ones == 5 then Unstuff(0, line[1..])
    else [line[0]] + Unstuff(if line[0] then ones + 1 else 0, line[1..])
  }

  /** No run of ones on the line, counting the `ones` already open, is longer than `limit`. */
  predicate RunsAtMost(limit: nat, ones: nat, line: seq<bool>)
    decreases |line|
  {
    |line| == 0 ||
    if line[0] then ones < limit && RunsAtMost(limit, ones + 1, line[1..])
    else RunsAtMost(limit, 0, line[1..])
  }

  lemma {:induction false} StuffAppend(ones: nat, s: seq<bool>, t: seq<bool>)
    ensures Stuff(ones, s + t) == Stuff(ones, s) + Stuff(OnesAfter(ones, s), t)
    ensures OnesAfter(ones, s + t) == OnesAfter(OnesAfter(ones, s), t)
    decreases |s|
  {
    if |s| == 0 {
      assert s + t == t;
    } else {
      assert (s + t)[1..] == s[1..] + t;
      StuffAppend(if s[0] && ones != 4 then ones + 1 else 0, s[1..], t);
    }
  }

  lemma {:induction false} OnesStaySmall(ones: nat, s: seq<bool>)
    requires ones < 5
    ensures OnesAfter(ones, s) < 5
    decreases |s|
  {
    if |s| > 0 { OnesStaySmall(if s[0] && ones != 4 then ones + 1 else 0, s[1..]); }
  }

  /** At most one inserted zero for every five data bits, counting the ones already open. */
  lemma {:induction false} StuffedLength(ones: nat, s: seq<bool>)
    requires ones < 5
    ensures |s| <= |Stuff(ones, s)| && 5 * (|Stuff(ones, s)| - |s|) <= |s| + ones
    decreases |s|
  {
    if |s| > 0 { StuffedLength(if s[0] && ones != 4 then ones + 1 else 0, s[1..]); }
  }

  /** Deletion undoes insertion. */
  lemma {:induction false} UnstuffStuff(ones: nat, s: seq<bool>)
    requires ones < 5
    ensures Unstuff(ones, Stuff(ones, s)) == s
    decreases |s|
  {
    if |s| > 0 {
      var next := if s[0] && ones != 4 then ones + 1 else 0;
      var rest := Stuff(next, s[1..]);
      UnstuffStuff(next, s[1..]);
      if s[0] && ones == 4 {
        var line := Stuff(ones, s);
        assert line[1..] == [false] + rest && line[1..][1..] == rest;
        assert Unstuff(5, line[1..]) == Unstuff(0, rest);
      } else {
        assert Stuff(ones, s)[1..] == rest;
      }
    }
  }

  /** What is sent never holds six ones in a row. */
  lemma {:induction false} StuffedRuns(ones: nat, s: seq<bool>)
    requires ones < 5
    ensures RunsAtMost(5, ones, Stuff(ones, s))
    decreases |s|
  {
    if |s| > 0 {
      var next := if s[0] && ones != 4 then ones + 1 else 0;
      var rest := Stuff(next, s[1..]);
      StuffedRuns(next, s[1..]);
      if s[0] && ones == 4 {
        var line := Stuff(ones, s);
        assert line[1..] == [false] + rest && line[1..][1..] == rest;
      } else {
        assert Stuff(ones, s)[1..] == rest;
      }
    }
  }
}

/** The transmitter's table: zero insertion for a whole octet at once. */
module TxTable {
  import opened Bits
  import opened Stuffing

  const TX_STATES := 5

  /** `bitLength` counts the bits of `bitString` beyond eight. */
  datatype TxEntry = TxEntry(bitString: nat, bitLength: nat, state: nat)

  /** The entry holds exactly the stuffed bits of the data and the run of ones left open. */
  ghost predicate Holds(e: TxEntry, state: nat, data: seq<bool>) {
    && e.bitString == Val(Stuff(state, data))
    && e.bitLength + |data| == |Stuff(state, data)|
    && e.state == OnesAfter(state, data)
  }

  lemma Pow2IsShl(n: nat)
    ensures Pow2(n) == Shl(1, n)
  {
  }

  /** Or-ing the next power of two into a word puts a one on the end of its bits. */
  lemma PutOne(s: seq<bool>)
    ensures Or(Val(s), Pow2(|s|)) == Val(s + [true])
  {
    hide *;
    Pow2IsShl(|s|);
    OrAppend(s, 1);
    OneWord();
    ValAppend(s, [true]);
  }

  lemma OneWord()
    ensures Val([true]) == 1
  {
    assert Val([]) == 0;
  }

  lemma NoBits()
    ensures Val([]) == 0 && Pow2(0) == 1
  {
  }

  lemma PutZero(s: seq<bool>)
    ensures Val(s) == Val(s + [false])
  {
    ValZeros(s, 1);
    assert Repeat(false, 1) == [false];
  }

  lemma StuffDigits(state: nat, x: nat, n: nat)
    requires n > 0
    ensures var next := if x % 2 == 1 && state != 4 then state + 1 else 0;
            var rest := Digits(x / 2, n - 1);
            && Stuff(state, Digits(x, n)) ==
               (if x % 2 == 0 then [false] else if state == 4 then [true] + [false] else [true]) + Stuff(next, rest)
            && OnesAfter(state, Digits(x, n)) == OnesAfter(next, rest)
  {
    assert Digits(x, n)[1..] == Digits(x / 2, n - 1);
  }

  lemma DigitsOut(state: nat, x: nat)
    ensures Stuff(state, Digits(x, 0)) == [] && OnesAfter(state, Digits(x, 0)) == state
  {
  }

  lemma Joined(s: seq<bool>, t: seq<bool>)
    ensures s + ([false] + t) == s + [false] + t && s + ([true] + t) == s + [true] + t
    ensures s + ([true] + [false] + t) == s + [true] + [false] + t
  {
  }

  method TxTableValueN(state: nat, byte: octet, len: nat) returns (e: TxEntry)
    requires state < TX_STATES
    ensures Holds(e, state, Digits(byte, len))
  {
    hide Val, Or, Stuff, OnesAfter, Digits;
    ghost var data, sent := Digits(byte, len), [];
    NoBits();
    var rest: nat, left, bitMask := byte, len, 1;
    e := TxEntry(0, 0, state);
    while left > 0
      invariant 0 <= left <= len
      invariant bitMask == Pow2(|sent|) && e.bitString == Val(sent)
      invariant e.bitLength + len - left == |sent|
      invariant sent + Stuff(e.state, Digits(rest, left)) == Stuff(state, data)
      invariant OnesAfter(e.state, Digits(rest, left)) == OnesAfter(state, data)
    {
      StuffDigits(e.state, rest, left);
      Joined(sent, Stuff(if rest % 2 == 1 && e.state != 4 then e.state + 1 else 0, Digits(rest / 2, left - 1)));
      left := left - 1;
      if rest % 2 == 1 {
        PutOne(sent);
        sent := sent + [true];
        e := e.(bitString := Or(e.bitString, bitMask));
        if e.state == 4 {
          e := e.(state := 0, bitLength := e.bitLength + 1);
          bitMask := 2 * bitMask;
          PutZero(sent);
          sent := sent + [false];
        } else {
          e := e.(state := e.state + 1);
        }
      } else {
        e := e.(state := 0);
        PutZero(sent);
        sent := sent + [false];
      }
      bitMask := 2 * bitMask;
      rest := rest / 2;
    }
    DigitsOut(e.state, rest);
    assert sent + [] == sent;
  }

  /** Entry `state * 256 + byte` for every state and every octet. */
  ghost predicate Complete(table: seq<TxEntry>) {
    |table| == TX_STATES * 256 && Filled(table, |table|)
  }

  ghost predicate Filled(table: seq<TxEntry>, count: nat)
    requires count <= |table|
  {
    forall i :: 0 <= i < count ==> Holds(table[i], i / 256, OctetBits(i % 256))
  }

  lemma {:induction false} FillOne(table: seq<TxEntry>, j: nat, k: octet, e: TxEntry)
    requires j * 256 + k < |table| && Filled(table, j * 256 + k)
    requires Holds(e, j, OctetBits(k))
    ensures Filled(table[j * 256 + k := e], j * 256 + k + 1)
  {
    var n := j * 256 + k;
    assert n / 256 == j && n % 256 == k;
    forall i | 0 <= i < n + 1
      ensures Holds(table[n := e][i], i / 256, OctetBits(i % 256))
    {
      if i < n { assert Holds(table[i], i / 256, OctetBits(i % 256)); }
    }
  }

  method TxTableGenerate() returns (table: seq<TxEntry>)
    ensures Complete(table)
  {
    var a := new TxEntry[TX_STATES * 256](_ => TxEntry(0, 0, 0));
    var j := 0;
    while j < TX_STATES
      invariant 0 <= j <= TX_STATES && Filled(a[..], j * 256)
    {
      var k := 0;
      while k < 256
        invariant 0 <= k <= 256 && Filled(a[..], j * 256 + k)
      {
        var e := TxTableValueN(j, k, 8);
        FillOne(a[..], j, k, e);
        a[j * 256 + k] := e;
        k := k + 1;
      }
      j := j + 1;
    }
    table := a[..];
  }

  /** A look-up stuffs one octet: eight to ten bits, whose word fits the ten bits of its field. */
  lemma {:induction false} LookUp(table: seq<TxEntry>, state: nat, byte: octet)
    requires Complete(table) && state < TX_STATES
    ensures Holds(table[state * 256 + byte], state, OctetBits(byte))
    ensures table[state * 256 + byte].state < TX_STATES
    ensures table[state * 256 + byte].bitString < 1024 && table[state * 256 + byte].bitLength <= 2
  {
    var i: nat := state * 256 + byte;
    assert i / 256 == state && i % 256 == byte;
    OnesStaySmall(state, OctetBits(byte));
    StuffedLength(state, OctetBits(byte));
    ValBound(Stuff(state, OctetBits(byte)));
    Pow2Monotone(|Stuff(state, OctetBits(byte))|, 10);
    assert Pow2(10) == 1024 by { assert Pow2(5) == 32; }
  }
}

/** The packed sixteen-bit form of a table entry, as the stand-alone routine computes it. */
module PackedEntry {
  import opened Bits
  import opened Stuffing
  import opened TxTable

  /** Three bit fields in one word: at bit 0, at bit 10 and at bit 12. */
  function Fields(output: nat, length: nat, state: nat): nat {
    Or(Or(output, Shl(length, 10)), Shl(state, 12))
  }

  /** Ten bits of output, two of excess length, three of state. */
  function Pack(e: TxEntry): nat {
    Fields(e.bitString, e.bitLength % 4, e.state % 8)
  }

  lemma ShlTen(x: nat)
    ensures Shl(x, 10) == 1024 * x && Shl(x, 12) == 4096 * x
  {
    assert Shl(x, 2) == 4 * x by { assert Shl(x, 1) == 2 * x; }
    assert Shl(x, 4) == 4 * Shl(x, 2);
    assert Shl(x, 6) == 4 * Shl(x, 4);
    assert Shl(x, 8) == 4 * Shl(x, 6);
    assert Shl(x, 10) == 4 * Shl(x, 8);
    assert Shl(x, 12) == 4 * Shl(x, 10);
  }

  lemma OrDisjoint(x: nat, y: nat, n: nat)
    requires x < Pow2(n)
    ensures Or(x, Shl(y, n)) == x + Shl(y, n)
  {
    ValOfDigits(x, n);
    OrAppend(Digits(x, n), y);
  }

  lemma OrLength(x: nat, y: nat)
    requires x < 1024
    ensures Or(x, Shl(y, 10)) == x + 1024 * y
  {
    assert Pow2(10) == 1024 by { assert Pow2(5) == 32; }
    ShlTen(y);
    OrDisjoint(x, y, 10);
  }

  lemma OrState(x: nat, y: nat)
    requires x < 4096
    ensures Or(x, Shl(y, 12)) == x + 4096 * y
  {
    assert Pow2(12) == 4096 by { assert Pow2(6) == 64; }
    ShlTen(y);
    OrDisjoint(x, y, 12);
  }

  lemma FieldsSum(output: nat, length: nat, state: nat)
    requires output < 1024 && length < 4
    ensures Fields(output, length, state) == output + 1024 * length + 4096 * state
  {
    OrLength(output, length);
    OrState(output + 1024 * length, state);
  }

  lemma FieldsInjective(o: nat, l: nat, s: nat, o': nat, l': nat, s': nat)
    requires o < 1024 && l < 4 && o' < 1024 && l' < 4
    requires Fields(o, l, s) == Fields(o', l', s')
    ensures o == o' && l == l' && s == s'
  {
    FieldsSum(o, l, s);
    FieldsSum(o', l', s');
    SumInjective(o, l, s, o', l', s');
  }

  lemma SumInjective(o: nat, l: nat, s: nat, o': nat, l': nat, s': nat)
    requires o < 1024 && l < 4 && o' < 1024 && l' < 4
    requires o + 1024 * l + 4096 * s == o' + 1024 * l' + 4096 * s'
    ensures o == o' && l == l' && s == s'
  {
  }

  lemma PackInjective(e: TxEntry, f: TxEntry)
    requires e.bitString < 1024 && e.bitLength < 4 && e.state < 8
    requires f.bitString < 1024 && f.bitLength < 4 && f.state < 8
    requires Pack(e) == Pack(f)
    ensures e == f
  {
    SmallMod(e.bitLength, 4);
    SmallMod(f.bitLength, 4);
    SmallMod(e.state, 8);
    SmallMod(f.state, 8);
    FieldsInjective(e.bitString, e.bitLength, e.state, f.bitString, f.bitLength, f.state);
  }

  lemma PackIs(e: TxEntry, state: nat, data: seq<bool>)
    requires state < TX_STATES && |data| == 8 && Holds(e, state, data)
    ensures Pack(e) == Val(Stuff(state, data)) + 1024 * (|Stuff(state, data)| - 8) + 4096 * OnesAfter(state, data)
  {
    hide Val, Stuff, OnesAfter, Fields;
    HeldWidth(e, state, data);
    SmallMod(e.bitLength, 4);
    SmallMod(e.state, 8);
    FieldsSum(e.bitString, e.bitLength, e.state);
  }

  lemma StuffOnes(one: bool, state: nat, n: nat)
    requires n > 0
    ensures Stuff(state, Repeat(one, n)) ==
            if !one then [false] + Stuff(0, Repeat(one, n - 1))
            else if state == 4 then [true] + [false] + Stuff(0, Repeat(one, n - 1))
            else [true] + Stuff(state + 1, Repeat(one, n - 1))
    ensures OnesAfter(state, Repeat(one, n)) ==
            OnesAfter(if one && state != 4 then state + 1 else 0, Repeat(one, n - 1))
  {
    assert Repeat(one, n)[1..] == Repeat(one, n - 1);
  }

  lemma NothingLeft(one: bool, state: nat)
    ensures Stuff(state, Repeat(one, 0)) == [] && OnesAfter(state, Repeat(one, 0)) == state
  {
  }

  /** The routine tests the low bit of the input eight times and never shifts the input, so it stuffs
      eight copies of that bit. */
  method TableValue(curState: nat, inpByte: octet) returns (packed: nat)
    requires curState < TX_STATES
    ensures forall e :: Holds(e, curState, Repeat(inpByte % 2 == 1, 8)) ==> packed == Pack(e)
    ensures var data := Repeat(inpByte % 2 == 1, 8);
            packed == Val(Stuff(curState, data)) + 1024 * (|Stuff(curState, data)| - 8)
                      + 4096 * OnesAfter(curState, data)
  {
    hide Val, Or, Fields, Stuff, OnesAfter, Repeat;
    ghost var one, sent: seq<bool> := inpByte % 2 == 1, [];
    NoBits();
    var newState, len, outString, extLength, bitMask := curState, 8, 0, 0, 1;
    while len > 0
      invariant 0 <= len <= 8
      invariant bitMask == Pow2(|sent|) && outString == Val(sent)
      invariant extLength + 8 - len == |sent|
      invariant sent + Stuff(newState, Repeat(one, len)) == Stuff(curState, Repeat(one, 8))
      invariant OnesAfter(newState, Repeat(one, len)) == OnesAfter(curState, Repeat(one, 8))
    {
      StuffOnes(one, newState, len);
      Joined(sent, Stuff(if one && newState != 4 then newState + 1 else 0, Repeat(one, len - 1)));
      len := len - 1;
      if inpByte % 2 == 1 {
        PutOne(sent);
        sent := sent + [true];
        outString := Or(outString, bitMask);
        if newState == 4 {
          newState, extLength, bitMask := 0, extLength + 1, 2 * bitMask;
          PutZero(sent);
          sent := sent + [false];
        } else {
          newState := newState + 1;
        }
      } else {
        newState := 0;
        PutZero(sent);
        sent := sent + [false];
      }
      bitMask := 2 * bitMask;
    }
    NothingLeft(one, newState);
    assert sent + [] == sent;
    PackIs(TxEntry(outString, extLength, newState), curState, Repeat(one, 8));
    packed := Fields(outString, extLength % 4, newState % 8);
  }

  lemma StuffInjective(ones: nat, s: seq<bool>, t: seq<bool>)
    requires ones < 5 && Stuff(ones, s) == Stuff(ones, t)
    ensures s == t
  {
    UnstuffStuff(ones, s);
    UnstuffStuff(ones, t);
  }

  lemma HeldWidth(e: TxEntry, state: nat, data: seq<bool>)
    requires state < TX_STATES && |data| == 8 && Holds(e, state, data)
    ensures e.bitString < 1024 && e.bitLength <= 2 && e.state < 5
  {
    OnesStaySmall(state, data);
    StuffedLength(state, data);
    ValBound(Stuff(state, data));
    Pow2Monotone(|Stuff(state, data)|, 10);
    assert Pow2(10) == 1024 by { assert Pow2(5) == 32; }
  }

  lemma ConstantOctets(byte: octet)
    ensures OctetBits(byte) == Repeat(byte % 2 == 1, 8) <==> byte == 0 || byte == 255
  {
    var one := byte % 2 == 1;
    ValOctet(byte);
    assert Repeat(one, 8)[4..] == Repeat(one, 4) && Repeat(one, 4)[4..] == [];
    ValNibble(Repeat(one, 8));
    ValNibble(Repeat(one, 4));
    assert Val(Repeat(one, 8)) == if one then 255 else 0;
    if byte == 0 || byte == 255 { ValInjective(OctetBits(byte), Repeat(one, 8)); }
  }

  /** The packed routine agrees with the driver's table on the two octets whose bits are all the same,
      and on no other. */
  lemma PackedAgrees(state: nat, byte: octet, e: TxEntry, f: TxEntry)
    requires state < TX_STATES
    requires Holds(e, state, OctetBits(byte))
    requires Holds(f, state, Repeat(byte % 2 == 1, 8))
    ensures Pack(e) == Pack(f) <==> byte == 0 || byte == 255
  {
    hide Val, Fields, OnesAfter, Digits;
    HeldWidth(e, state, OctetBits(byte));
    HeldWidth(f, state, Repeat(byte % 2 == 1, 8));
    ConstantOctets(byte);
    if Pack(e) == Pack(f) {
      PackInjective(e, f);
      ValInjective(Stuff(state, OctetBits(byte)), Stuff(state, Repeat(byte % 2 == 1, 8)));
      StuffInjective(state, OctetBits(byte), Repeat(byte % 2 == 1, 8));
    }
  }

  /** One octet on which the two forms differ: 0x02 in state 0. */
  lemma PackedDiffers(e: TxEntry, f: TxEntry)
    requires Holds(e, 0, OctetBits(2)) && Holds(f, 0, Repeat(false, 8))
    ensures Pack(e) != Pack(f)
  {
    PackedAgrees(0, 2, e, f);
  }
}
