/** The transmitter: it takes messages from a queue and fills blocks of octets for the line. */
module Transmitting {
  import opened Bits
  import opened Sequences
  import opened Options
  import opened Crc
  import opened Stuffing
  import opened Deleter
  import opened Line
  import opened TxTable
  import CrcTable
  import Receiving

  /** A message as a chain of buffers; `head` is what lies between the base of the first buffer and the first
      octet of the message. */
  datatype Message = Message(id: nat, head: seq<octet>, blocks: seq<seq<octet>>)

  datatype Entry = Data(message: Message) | Unitdata(message: Message) | Other

  function Flatten(blocks: seq<seq<octet>>): seq<octet>
    decreases |blocks|
  {
    if |blocks| == 0 then [] else blocks[0] + Flatten(blocks[1..])
  }

  function Payload(m: Message): seq<octet> { Flatten(m.blocks) }

  /** What a repeat of a message in one buffer sends: the buffer is rewound to its base. */
  function Rerun(m: Message): seq<octet> { m.head + Payload(m) }

  lemma RerunExactly(m: Message)
    ensures Rerun(m) == Payload(m) <==> m.head == []
  {
    assert |Rerun(m)| == |m.head| + |Payload(m)|;
    if m.head == [] { assert Rerun(m) == Payload(m); }
  }

  lemma RerunChain(m: Message)
    requires |m.blocks| == 1
    ensures Flatten([m.head + m.blocks[0]]) == Rerun(m)
  {
    var chain := [m.head + m.blocks[0]];
    assert Flatten(chain[1..]) == [] && Flatten(m.blocks[1..]) == [];
  }

  function Messages(queue: seq<Entry>): seq<Message>
    decreases |queue|
  {
    if |queue| == 0 then []
    else (if queue[0].Other? then [] else [queue[0].message]) + Messages(queue[1..])
  }

  /** What the line carries: fill while there is nothing to send, queued messages, and repeats. */
  datatype Slot = MarkFill | FlagFill | Fresh(message: Message) | Again(message: Message)

  function ToItem(s: Slot): Item {
    match s
    case MarkFill => Mark
    case FlagFill => Flag
    case Fresh(m) => Frame(Payload(m))
    case Again(m) => Frame(Rerun(m))
  }

  function Items(slots: seq<Slot>): (items: seq<Item>)
    ensures |items| == |slots|
  {
    seq(|slots|, i requires 0 <= i < |slots| => ToItem(slots[i]))
  }

  function FreshOnes(slots: seq<Slot>): seq<Message>
    decreases |slots|
  {
    if |slots| == 0 then []
    else FreshOnes(slots[..|slots| - 1]) +
         (if slots[|slots| - 1].Fresh? then [slots[|slots| - 1].message] else [])
  }

  function FrameBits(f: Format, data: seq<octet>): seq<bool> { ItemBits(f, Frame(data)) }

  function QueueBits(f: Format, messages: seq<Message>): seq<bool>
    decreases |messages|
  {
    if |messages| == 0 then []
    else FrameBits(f, Payload(messages[0])) + QueueBits(f, messages[1..])
  }

  predicate ChainOk(blocks: seq<seq<octet>>) { forall i :: 1 <= i < |blocks| ==> |blocks[i]| > 0 }

  predicate Repeatable(repeating: bool, hlen: nat, m: Message) {
    repeating && hlen <= |Payload(m)| <= hlen + 2
  }

  /** What fills the line when nothing is queued: marks before the first message, then the last message
      again if it is of the repeatable kind, flags otherwise. */
  function Filler(repeating: bool, hlen: nat, accepted: seq<Message>): Slot {
    if |accepted| == 0 then MarkFill
    else if Repeatable(repeating, hlen, accepted[|accepted| - 1]) then Again(accepted[|accepted| - 1])
    else FlagFill
  }

  /** The fill that is due after the messages `sent`: marks while there is none; then the last of them again if
      repeating is on and it has from `hlen` to `hlen + 2` octets, and a flag if not. */
  ghost predicate Due(repeating: bool, hlen: nat, sent: seq<Message>, s: Slot) {
    if sent == [] then s == MarkFill
    else
      var m := sent[|sent| - 1];
      && (s == Again(m) <==> repeating && hlen <= |Payload(m)| && |Payload(m)| <= hlen + 2)
      && (s == Again(m) || s == FlagFill)
  }

  lemma FillerIsDue(repeating: bool, hlen: nat, sent: seq<Message>)
    ensures Due(repeating, hlen, sent, Filler(repeating, hlen, sent))
  {
  }

  // ---- strings of slots ----

  lemma SlotSnoc(f: Format, slots: seq<Slot>, s: Slot)
    ensures Items(slots + [s]) == Items(slots) + [ToItem(s)]
    ensures LineBits(f, Items(slots + [s])) == LineBits(f, Items(slots)) + ItemBits(f, ToItem(s))
    ensures FreshOnes(slots + [s]) == FreshOnes(slots) + (if s.Fresh? then [s.message] else [])
    ensures WellFormed(Items(slots + [s])) <==>
            WellFormed(Items(slots)) && (s.MarkFill? ==> AllMarks(Items(slots)))
    ensures AllMarks(Items(slots + [s])) <==> AllMarks(Items(slots)) && s.MarkFill?
  {
    assert (slots + [s])[..|slots|] == slots;
    assert Items(slots + [s]) == Items(slots) + [ToItem(s)];
    LineAppend(f, Items(slots), ToItem(s));
    AllMarksSnoc(Items(slots), ToItem(s));
  }

  lemma AllMarksSnoc(items: seq<Item>, item: Item)
    ensures AllMarks(items + [item]) <==> AllMarks(items) && item.Mark?
  {
    assert (items + [item])[|items|] == item;
    forall i | 0 <= i < |items|
      ensures (items + [item])[i] == items[i]
    {
    }
    if AllMarks(items + [item]) {
      forall i | 0 <= i < |items| ensures items[i].Mark? { assert (items + [item])[i].Mark?; }
    }
  }

  lemma {:induction false} QueueSnoc(f: Format, messages: seq<Message>, m: Message)
    ensures QueueBits(f, messages + [m]) == QueueBits(f, messages) + FrameBits(f, Payload(m))
    decreases |messages|
  {
    if |messages| > 0 {
      assert (messages + [m])[1..] == messages[1..] + [m];
      QueueSnoc(f, messages[1..], m);
    } else {
      assert messages + [m] == [m];
      assert QueueBits(f, [m]) == FrameBits(f, Payload(m)) + QueueBits(f, []);
    }
  }

  lemma {:induction false} MessagesAppend(a: seq<Entry>, b: seq<Entry>)
    ensures Messages(a + b) == Messages(a) + Messages(b)
    decreases |a|
  {
    if |a| == 0 {
      assert a + b == b;
    } else {
      assert (a + b)[1..] == a[1..] + b;
      MessagesAppend(a[1..], b);
    }
  }

  lemma {:induction false} OthersHoldNone(a: seq<Entry>)
    requires forall i :: 0 <= i < |a| ==> a[i].Other?
    ensures Messages(a) == []
    decreases |a|
  {
    if |a| > 0 { OthersHoldNone(a[1..]); }
  }

  // ---- the bits of the frame being sent ----

  datatype Mode = Idle | FlagIdle | Bof | Mof | Bcc

  /** What is still to be sent of the frame in hand. */
  function CurrentBits(f: Format, mode: Mode, state: nat, reg: Reg, nxt: seq<seq<octet>>): seq<bool> {
    match mode
    case Idle => []
    case FlagIdle => []
    case Bof => FrameBits(f, Flatten(nxt))
    case Mof =>
      var data := Spread(Flatten(nxt));
      Stuff(state, data + CheckBits(f.complement, CrcBits(reg, data)))
    case Bcc => Stuff(state, CheckBits(f.complement, reg)[8..])
  }

  lemma MofStep(f: Format, state: nat, reg: Reg, nxt: seq<seq<octet>>, byte: octet, rest: seq<seq<octet>>)
    requires Flatten(nxt) == [byte] + Flatten(rest)
    ensures CurrentBits(f, Mof, state, reg, nxt) ==
            Stuff(state, OctetBits(byte)) +
            CurrentBits(f, Mof, OnesAfter(state, OctetBits(byte)), CrcBits(reg, OctetBits(byte)), rest)
  {
    hide Stuff, CrcBits, CheckBits, OnesAfter, OctetBits, Flatten;
    var t, s := Spread(Flatten(rest)), OctetBits(byte);
    assert ([byte] + Flatten(rest))[1..] == Flatten(rest);
    assert Spread(Flatten(nxt)) == s + t;
    hide Spread;
    CrcAppend(reg, s, t);
    var check := CheckBits(f.complement, CrcBits(reg, s + t));
    assert s + t + check == s + (t + check);
    StuffAppend(state, s, t + check);
  }

  lemma MofEnd(f: Format, state: nat, reg: Reg, nxt: seq<seq<octet>>)
    requires Flatten(nxt) == []
    ensures var low := CheckBits(f.complement, reg)[..8];
            CurrentBits(f, Mof, state, reg, nxt) ==
            Stuff(state, low) + CurrentBits(f, Bcc, OnesAfter(state, low), reg, [])
  {
    var check := CheckBits(f.complement, reg);
    assert Spread(Flatten(nxt)) == [];
    assert [] + check == check == check[..8] + check[8..];
    StuffAppend(state, check[..8], check[8..]);
  }

  lemma FlattenStep(nxt: seq<seq<octet>>)
    requires |nxt| > 0 && |nxt[0]| > 0
    ensures Flatten(nxt) == [nxt[0][0]] + Flatten([nxt[0][1..]] + nxt[1..])
  {
    var first, more := nxt[0], Flatten(nxt[1..]);
    var rest := [first[1..]] + nxt[1..];
    assert rest[0] == first[1..] && rest[1..] == nxt[1..];
    Joined(first, more);
  }

  lemma Joined(s: seq<octet>, t: seq<octet>)
    requires |s| > 0
    ensures s + t == [s[0]] + (s[1..] + t)
  {
  }

  lemma FlagWord()
    ensures Val(FLAG) == 0x7e && Val(FLAG[1..]) == 0x3f
  {
    var f := FLAG;
    ValNibble(f);
    ValNibble(f[4..]);
    assert Val(f) == 2 * Val(f[1..]);
  }

  lemma FlagWords()
    ensures Val(FLAG) == 0x7e
    ensures Val(FLAG + FLAG[1..]) == 0x3f7e
    ensures Val(FLAG + FLAG) == 0x7e7e
    ensures Val(FLAG + FLAG + FLAG) == 0x7e7e7e
  {
    hide Val, Shl;
    var f := FLAG;
    FlagWord();
    ShlOctet(Val(f[1..]));
    ShlOctet(Val(f));
    ValAppend(f, f[1..]);
    ValAppend(f, f);
    assert f + f + f == f + (f + f);
    ShlOctet(Val(f + f));
    ValAppend(f, f + f);
  }

  lemma MarkWord()
    ensures Val(Repeat(true, 8)) == 0xff
  {
    var m := Repeat(true, 8);
    ValNibble(m);
    ValNibble(m[4..]);
  }

  /** What goes before a frame in each style, as words of so many bits: one flag, two that share a zero, two, and
      three. */
  lemma OpeningWords()
    ensures |OpeningFlags(One)| == 8 && Val(OpeningFlags(One)) == 0x7e
    ensures |OpeningFlags(Shared)| == 15 && Val(OpeningFlags(Shared)) == 0x3f7e
    ensures |OpeningFlags(Two)| == 16 && Val(OpeningFlags(Two)) == 0x7e7e
    ensures |OpeningFlags(Three)| == 24 && Val(OpeningFlags(Three)) == 0x7e7e7e
  {
    hide Val;
    FlagWords();
  }

  /** The fill of an idle line, as words of eight bits. */
  lemma FillWords(f: Format)
    ensures |ItemBits(f, ToItem(MarkFill))| == 8 && Val(ItemBits(f, ToItem(MarkFill))) == 0xff
    ensures |ItemBits(f, ToItem(FlagFill))| == 8 && Val(ItemBits(f, ToItem(FlagFill))) == 0x7e
  {
    hide Val;
    FlagWords();
    MarkWord();
  }

  /** The word that the check octets are taken from. */
  function CheckWord(complement: bool, bcc: nat): nat
    requires bcc < 0x1_0000
  {
    if complement then 0xffff - bcc else bcc
  }

  lemma {:induction false} NotWord(s: seq<bool>)
    ensures Val(s) + Val(NotBits(s)) + 1 == Pow2(|s|)
    decreases |s|
  {
    if |s| > 0 {
      NotWord(s[1..]);
      assert NotBits(s)[1..] == NotBits(s[1..]);
    }
  }

  lemma CheckWords(complement: bool, c: Reg)
    ensures Val(c) < 0x1_0000
    ensures Val(CheckBits(complement, c)) == if complement then 0xffff - Val(c) else Val(c)
    ensures CheckWord(complement, Val(c)) == Val(CheckBits(complement, c))
    ensures CheckWord(complement, Val(c)) % 256 == Val(CheckBits(complement, c)[..8])
    ensures CheckWord(complement, Val(c)) / 256 == Val(CheckBits(complement, c)[8..])
  {
    CrcTable.RegWord(c);
    NotWord(c);
    assert Pow2(16) == 0x1_0000 by { assert Pow2(8) == 256; assert Pow2(12) == 4096; }
    CrcTable.RegWord(CheckBits(complement, c));
  }

  // ---- the octets on the line ----

  /** Reverse the bits of an octet. */
  method Rev(byte: octet) returns (output: octet)
    ensures OctetBits(output) == Reverse(OctetBits(byte))
    ensures forall i :: 0 <= i < 8 ==> (HasBit(output, i) <==> HasBit(byte, 7 - i))
  {
    ghost var bits, done: seq<bool> := OctetBits(byte), [];
    var out: nat, rest: nat, i := 0, byte, 0;
    assert bits[..0] == [] && Reverse([]) == [] && bits[0..] == bits;
    hide Reverse, Or, Digits, Val;
    while i < 8
      invariant 0 <= i <= 8 && Digits(rest, 8 - i) == bits[i..]
      invariant out == Val(done) && |done| == i && done == Reverse(bits[..i])
    {
      RevStep(bits, i, done, rest);
      done := [bits[i]] + done;
      out := (2 * out) % 256;
      if rest % 2 == 1 {
        OrLowBit(out);
        out := Or(out, 1);
      }
      rest := rest / 2;
      i := i + 1;
    }
    assert bits[..8] == bits;
    OctetVal(done);
    output := out;
    ReversedOctet(byte, output);
  }

  lemma ReversedOctet(byte: octet, output: octet)
    requires OctetBits(output) == Reverse(OctetBits(byte))
    ensures forall i :: 0 <= i < 8 ==> (HasBit(output, i) <==> HasBit(byte, 7 - i))
  {
    hide HasBit, Reverse, Digits;
    forall i | 0 <= i < 8 ensures HasBit(output, i) <==> HasBit(byte, 7 - i) {
      DigitsAt(output, 8, i);
      ReverseAt(OctetBits(byte), i);
      DigitsAt(byte, 8, 7 - i);
    }
  }

  lemma RevStep(bits: seq<bool>, i: nat, done: seq<bool>, rest: nat)
    requires i < 8 == |bits| && Digits(rest, 8 - i) == bits[i..]
    requires |done| == i && done == Reverse(bits[..i])
    ensures (rest % 2 == 1) == bits[i] && Digits(rest / 2, 7 - i) == bits[i + 1..]
    ensures [bits[i]] + done == Reverse(bits[..i + 1])
    ensures Val([bits[i]] + done) == Bit(bits[i]) + 2 * Val(done) && Val(done) < 128
  {
    assert (rest % 2 == 1) == Digits(rest, 8 - i)[0] == bits[i];
    assert Digits(rest / 2, 7 - i) == Digits(rest, 8 - i)[1..] == bits[i + 1..];
    hide Reverse, Digits;
    assert bits[..i + 1] == bits[..i] + [bits[i]];
    ReverseAppend(bits[..i], [bits[i]]);
    ReverseOne(bits[i]);
    assert ([bits[i]] + done)[1..] == done;
    ValBound(done);
    Pow2Monotone(i, 7);
    assert Pow2(7) == 128 by { assert Pow2(3) == 8; }
  }

  lemma ReverseOne(b: bool)
    ensures Reverse([b]) == [b]
  {
    assert Reverse([]) == [];
  }

  lemma OrLowBit(x: nat)
    requires x % 2 == 0
    ensures Or(x, 1) == x + 1
  {
    if x > 0 { assert Or(x / 2, 0) == x / 2; }
  }

  /** The low `width` bits, padded to an octet and reversed, carry just those bits. */
  lemma SampleOf(bits: seq<bool>, width: nat, byte: octet, output: octet)
    requires width <= 8 && |bits| == width && byte == Val(bits)
    requires OctetBits(output) == Reverse(OctetBits(byte))
    ensures Receiving.SampleBits(width, output) == bits
  {
    var padded := bits + Repeat(false, 8 - width);
    ValZeros(bits, 8 - width);
    OctetVal(padded);
    ReverseTwice(OctetBits(byte));
    assert padded[..width] == bits;
  }
}
