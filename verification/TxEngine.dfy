/** The transmit engine with the driver's own registers, against the line it produces. */
module TxEngine {
  import opened Bits
  import opened Sequences
  import opened Options
  import opened Crc
  import opened Stuffing
  import opened Deleter
  import opened Line
  import opened Transmitting
  import opened TxTable
  import CrcTable
  import Receiving

  // ---- the books: where every message is, and what the line is committed to ----

  ghost predicate Sound(repeating: bool, hlen: nat, m: Message) {
    && |m.blocks| > 0 && ChainOk(m.blocks)
    && (Repeatable(repeating, hlen, m) ==> |m.blocks| == 1)
  }

  ghost predicate AllSound(repeating: bool, hlen: nat, messages: seq<Message>)
    decreases |messages|
  {
    |messages| == 0 ||
    (AllSound(repeating, hlen, messages[..|messages| - 1]) && Sound(repeating, hlen, messages[|messages| - 1]))
  }

  lemma {:induction false} SoundAt(repeating: bool, hlen: nat, messages: seq<Message>, i: nat)
    requires AllSound(repeating, hlen, messages) && i < |messages|
    ensures Sound(repeating, hlen, messages[i])
    decreases |messages|
  {
    if i < |messages| - 1 { SoundAt(repeating, hlen, messages[..|messages| - 1], i); }
  }

  function InHand(m: Option<Message>): seq<Message> { if m.Some? then [m.value] else [] }

  /** The message kept for repeating: the last one taken, if it is of that kind. */
  function Kept(repeating: bool, hlen: nat, taken: seq<Message>): Option<Message> {
    if |taken| > 0 && Repeatable(repeating, hlen, taken[|taken| - 1]) then Some(taken[|taken| - 1])
    else None
  }

  lemma PayloadOf(m: Message)
    ensures Flatten(m.blocks) == Payload(m)
  {
  }

  lemma KeptSnoc(repeating: bool, hlen: nat, taken: seq<Message>, m: Message)
    ensures Kept(repeating, hlen, taken + [m]) == if Repeatable(repeating, hlen, m) then Some(m) else None
  {
    assert (taken + [m])[|taken|] == m;
  }

  lemma KeptIsFiller(repeating: bool, hlen: nat, accepted: seq<Message>)
    ensures var m := Kept(repeating, hlen, accepted);
            if m.Some? then repeating && accepted != [] && Filler(repeating, hlen, accepted) == Again(m.value)
            else accepted != [] ==> Filler(repeating, hlen, accepted) == FlagFill
  {
  }

  ghost predicate Account(f: Format, line: seq<bool>, pending: seq<bool>, current: seq<bool>,
                          queued: seq<Message>, slots: seq<Slot>, accepted: seq<Message>)
  {
    && line + pending + (current + QueueBits(f, queued)) == LineBits(f, Items(slots))
    && FreshOnes(slots) == accepted
    && WellFormed(Items(slots)) && (accepted == [] ==> AllMarks(Items(slots)))
  }

  lemma NothingInHand(f: Format, mode: Mode, state: nat, reg: Reg, nxt: seq<seq<octet>>)
    ensures mode == Idle || mode == FlagIdle ==> CurrentBits(f, mode, state, reg, nxt) == []
    ensures mode == Bof ==> CurrentBits(f, mode, state, reg, nxt) == FrameBits(f, Flatten(nxt))
  {
  }

  lemma OpeningBits(f: Format, state: nat, reg: Reg, nxt: seq<seq<octet>>)
    ensures CurrentBits(f, Bof, state, reg, nxt) == OpeningFlags(f.style) + CurrentBits(f, Mof, 0, START, nxt)
  {
  }

  /** Only the first buffer of a chain can be empty. */
  lemma SkipEmpty(f: Format, state: nat, reg: Reg, nxt: seq<seq<octet>>)
    requires |nxt| > 0 && |nxt[0]| == 0 && ChainOk(nxt)
    ensures CurrentBits(f, Mof, state, reg, nxt) == CurrentBits(f, Mof, state, reg, nxt[1..])
    ensures ChainOk(nxt[1..]) && (|nxt[1..]| > 0 ==> |nxt[1..][0]| > 0)
  {
    assert [] + Flatten(nxt[1..]) == Flatten(nxt[1..]);
    forall i | 1 <= i < |nxt[1..]|
      ensures |nxt[1..][i]| > 0
    {
      assert nxt[1..][i] == nxt[i + 1];
    }
  }

  lemma ChainStep(nxt: seq<seq<octet>>)
    requires |nxt| > 0 && |nxt[0]| > 0 && ChainOk(nxt)
    ensures ChainOk([nxt[0][1..]] + nxt[1..])
  {
  }

  lemma FrameSnoc(f: Format, slots: seq<Slot>, s: Slot)
    requires WellFormed(Items(slots)) && (s.Fresh? || s.Again?)
    ensures WellFormed(Items(slots + [s]))
    ensures var data := if s.Fresh? then Payload(s.message) else Rerun(s.message);
            LineBits(f, Items(slots + [s])) == LineBits(f, Items(slots)) + FrameBits(f, data)
    ensures FreshOnes(slots + [s]) == if s.Fresh? then FreshOnes(slots) + [s.message] else FreshOnes(slots)
  {
    SlotSnoc(f, slots, s);
  }

  lemma Regroup(a: seq<bool>, b: seq<bool>, c: seq<bool>, d: seq<bool>)
    ensures a + (b + c) + d == a + (b + (c + d))
  {
  }

  lemma AccountQueued(f: Format, line: seq<bool>, pending: seq<bool>, current: seq<bool>,
                      queued: seq<Message>, slots: seq<Slot>, accepted: seq<Message>, m: Message)
    requires Account(f, line, pending, current, queued, slots, accepted)
    ensures Account(f, line, pending, current, queued + [m], slots + [Fresh(m)], accepted + [m])
  {
    hide Items, LineBits, WellFormed, FreshOnes, AllMarks, FrameBits, QueueBits;
    FrameSnoc(f, slots, Fresh(m));
    QueueSnoc(f, queued, m);
    Regroup(line + pending, current, QueueBits(f, queued), FrameBits(f, Payload(m)));
  }

  lemma {:induction false} AccountTaken(f: Format, line: seq<bool>, pending: seq<bool>,
                     queued: seq<Message>, slots: seq<Slot>, accepted: seq<Message>)
    requires |queued| > 0 && Account(f, line, pending, [], queued, slots, accepted)
    ensures Account(f, line, pending, FrameBits(f, Payload(queued[0])), queued[1..], slots, accepted)
  {
    hide Items, LineBits, WellFormed, FreshOnes, AllMarks, FrameBits;
    assert [] + QueueBits(f, queued) == QueueBits(f, queued);
  }

  lemma {:induction false} AccountAgain(f: Format, line: seq<bool>, pending: seq<bool>,
                     slots: seq<Slot>, accepted: seq<Message>, m: Message)
    requires accepted != [] && Account(f, line, pending, [], [], slots, accepted)
    ensures Account(f, line, pending, FrameBits(f, Rerun(m)), [], slots + [Again(m)], accepted)
  {
    hide Items, LineBits, WellFormed, FreshOnes, AllMarks, FrameBits;
    FrameSnoc(f, slots, Again(m));
    Regroup(line + pending, [], [], FrameBits(f, Rerun(m)));
    assert [] + ([] + FrameBits(f, Rerun(m))) == FrameBits(f, Rerun(m)) + [];
  }

  lemma AccountFill(f: Format, line: seq<bool>, pending: seq<bool>,
                    slots: seq<Slot>, accepted: seq<Message>, s: Slot)
    requires s == MarkFill || s == FlagFill
    requires s == MarkFill <==> accepted == []
    requires Account(f, line, pending, [], [], slots, accepted)
    ensures Account(f, line, pending + ItemBits(f, ToItem(s)), [], [], slots + [s], accepted)
  {
    hide Items, LineBits, WellFormed, FreshOnes, AllMarks, ItemBits;
    SlotSnoc(f, slots, s);
    var bits := ItemBits(f, ToItem(s));
    assert line + pending + ([] + []) + bits == line + (pending + bits) + ([] + []);
  }

  lemma {:induction false} AccountMoved(f: Format, line: seq<bool>, pending: seq<bool>,
                     bits: seq<bool>, current: seq<bool>,
                     queued: seq<Message>, slots: seq<Slot>, accepted: seq<Message>)
    requires Account(f, line, pending, bits + current, queued, slots, accepted)
    ensures Account(f, line, pending + bits, current, queued, slots, accepted)
  {
    hide Items, LineBits, WellFormed, FreshOnes, AllMarks, QueueBits;
    var q := QueueBits(f, queued);
    assert line + pending + (bits + current + q) == line + (pending + bits) + (current + q);
  }

  lemma AccountSent(f: Format, line: seq<bool>, pending: seq<bool>, current: seq<bool>,
                    queued: seq<Message>, slots: seq<Slot>, accepted: seq<Message>, n: nat)
    requires n <= |pending| && Account(f, line, pending, current, queued, slots, accepted)
    ensures Account(f, line + pending[..n], pending[n..], current, queued, slots, accepted)
  {
    hide Items, LineBits, WellFormed, FreshOnes, AllMarks, QueueBits;
    assert line + pending == line + pending[..n] + pending[n..];
  }

  lemma MessagesSnoc(queue: seq<Entry>, e: Entry)
    ensures Messages(queue + [e]) == Messages(queue) + (if e.Other? then [] else [e.message])
  {
    MessagesAppend(queue, [e]);
    assert [e][1..] == [];
  }

  lemma LedgerQueued(repeating: bool, hlen: nat, accepted: seq<Message>, m: Message)
    requires NoTwice(accepted) && m !in accepted
    requires AllSound(repeating, hlen, accepted) && Sound(repeating, hlen, m)
    ensures NoTwice(accepted + [m]) && AllSound(repeating, hlen, accepted + [m])
  {
    assert (accepted + [m])[..|accepted|] == accepted;
  }

  lemma RemoveFirst(queue: seq<Entry>, i: nat)
    requires i < |queue| && !queue[i].Other?
    requires forall j :: 0 <= j < i ==> queue[j].Other?
    ensures Messages(queue) == [queue[i].message] + Messages(queue[..i] + queue[i + 1..])
  {
    assert queue[i..][1..] == queue[i + 1..];
    assert Messages(queue[i..]) == [queue[i].message] + Messages(queue[i + 1..]);
    hide Messages;
    OthersHoldNone(queue[..i]);
    MessagesAppend(queue[..i], queue[i..]);
    MessagesAppend(queue[..i], queue[i + 1..]);
    assert queue == queue[..i] + queue[i..];
    assert [] + Messages(queue[i + 1..]) == Messages(queue[i + 1..]);
  }

  /** Slots are only added, only `fill`, and only when the queue is left `empty`. */
  ghost predicate Grown(before: seq<Slot>, after: seq<Slot>, fill: Slot, empty: bool) {
    && before <= after
    && (forall i :: |before| <= i < |after| ==> after[i] == fill)
    && (after != before ==> empty)
  }

  lemma GrownAgain(a: seq<Slot>, b: seq<Slot>, c: seq<Slot>, fill: Slot, empty: bool, empty': bool)
    requires Grown(a, b, fill, empty) && Grown(b, c, fill, empty') && (empty ==> empty')
    ensures Grown(a, c, fill, empty')
  {
    forall i | |a| <= i < |c|
      ensures c[i] == fill
    {
      if i < |b| { assert c[i] == b[i]; }
    }
  }

  lemma OneSample(width: nat, o: octet)
    requires width <= 8
    ensures Receiving.Samples(width, [o]) == Receiving.SampleBits(width, o)
  {
    assert [o][..0] == [];
    assert Receiving.Samples(width, []) == [];
  }

  lemma SamplesJoin(width: nat, out: seq<octet>, more: seq<octet>)
    requires width <= 8 && |more| <= 1
    ensures Receiving.Samples(width, out + more) ==
            Receiving.Samples(width, out) + Receiving.Samples(width, more)
  {
    if |more| == 0 {
      assert out + more == out;
    } else {
      assert more == [more[0]];
      assert (out + more)[..|out|] == out;
      OneSample(width, more[0]);
    }
  }

  /** Three parts of a string without repeats have nothing in common. */
  lemma OnceEach(a: seq<Message>, b: seq<Message>, c: seq<Message>)
    requires NoTwice(a + b + c)
    ensures NoTwice(a)
    ensures forall m :: m in b ==> m !in a && m !in c
    ensures forall m :: m in c ==> m !in a
  {
    hide NoTwice;
    NoTwicePrefix(a + b, c);
    NoTwicePrefix(a, b);
    forall m | m in b ensures m !in a { TwoParts(a, b, m); }
    forall m | m in c ensures m !in a + b { TwoParts(a + b, c, m); }
    assert forall m :: m in a || m in b ==> m in a + b;
  }

  lemma TwoParts(a: seq<Message>, b: seq<Message>, m: Message)
    requires NoTwice(a + b) && m in b
    ensures m !in a
  {
    hide NoTwice;
    var j :| 0 <= j < |b| && b[j] == m;
    NextIsNew(a + b, |a| + j);
    assert (a + b)[|a| + j] == m;
    forall i | 0 <= i < |a| ensures a[i] != m {
      assert (a + b)[..|a| + j][i] == a[i];
    }
  }

  class Transmitter {
    const width: nat
    const blks: nat
    const format: Format
    const repeating: bool
    const hlen: nat
    const bcTable: seq<nat>
    const txTable: seq<TxEntry>

    var residue: nat
    var rbits: nat
    var bcc: nat
    var state: nat
    var mode: Mode
    var nxt: seq<seq<octet>>
    var msg: Option<Message>
    var cmp: Option<Message>
    var repeat: nat
    var queue: seq<Entry>

    /** `line` the bits already sent, `pending` those in the register, `slots` everything the line is
        committed to; `accepted` every message queued, `taken` those picked up, `freed` those released. */
    ghost var line: seq<bool>
    ghost var pending: seq<bool>
    ghost var reg: Reg
    ghost var slots: seq<Slot>
    ghost var accepted: seq<Message>
    ghost var taken: seq<Message>
    ghost var freed: seq<Message>

    /** Set up once: the sample size and the tables. */
    ghost predicate Ready() {
      (width == 7 || width == 8) && CrcTable.Complete(bcTable) && TxTable.Complete(txTable)
    }

    ghost predicate Registers()
      reads `residue, `rbits, `pending, `state, `bcc, `reg
    {
      && residue == Val(pending) && rbits == |pending| <= 31
      && state < TX_STATES && bcc == Val(reg)
    }

    ghost predicate Held(m: Option<Message>)
      reads `queue, `cmp, `accepted, `taken, `freed
    {
      && accepted == taken + Messages(queue)
      && AllSound(repeating, hlen, accepted) && NoTwice(accepted)
      && taken == freed + InHand(m) && cmp == Kept(repeating, hlen, taken)
    }

    /** Every message is queued, or released, or the one in hand; the one kept for repeating is the one
        in hand. */
    ghost predicate Owned()
      reads `msg, `queue, `cmp, `accepted, `taken, `freed
    {
      Held(msg) && (cmp.Some? ==> cmp == msg)
    }

    ghost predicate Chained()
      reads `mode, `msg, `taken, `nxt
    {
      && (mode == Idle || mode == FlagIdle <==> msg.None?)
      && (mode == Idle ==> taken == []) && (mode == FlagIdle ==> taken != [])
      && (mode == Bof || mode == Mof <==> |nxt| > 0) && ChainOk(nxt)
    }

    ghost predicate Accounted()
      reads `line, `pending, `mode, `state, `reg, `nxt, `queue, `slots, `accepted
    {
      Account(format, line, pending, CurrentBits(format, mode, state, reg, nxt), Messages(queue), slots, accepted)
    }

    ghost predicate Valid()
      reads this
    {
      Registers() && Owned() && Chained() && Accounted()
    }

    constructor (width: nat, blks: nat, format: Format, repeating: bool, hlen: nat,
                 bcTable: seq<nat>, txTable: seq<TxEntry>)
      requires width == 7 || width == 8
      requires CrcTable.Complete(bcTable) && TxTable.Complete(txTable)
      ensures Ready() && Valid()
      ensures this.width == width && this.blks == blks && this.format == format
      ensures this.repeating == repeating && this.hlen == hlen
      ensures line == [] && slots == [] && accepted == [] && queue == []
    {
      this.width, this.blks, this.format := width, blks, format;
      this.repeating, this.hlen, this.bcTable, this.txTable := repeating, hlen, bcTable, txTable;
      residue, rbits, bcc, state, mode, repeat := 0, 0, 0, 0, Idle, 0;
      nxt, msg, cmp, queue := [], None, None, [];
      line, pending, slots, accepted, taken, freed := [], [], [], [], [], [];
      reg := ZERO;
      new;
      hide NoTwice, AllSound;
      assert Val(ZERO) == 0 by {
        ValZeros([], 16);
        assert [] + Repeat(false, 16) == ZERO;
      }
    }

    /** A message for the line, or an entry of another kind, joins the queue. */
    method Enqueue(e: Entry)
      requires Valid()
      requires !e.Other? ==> Sound(repeating, hlen, e.message) && e.message !in accepted
      modifies `queue, `slots, `accepted
      ensures Valid() && queue == old(queue) + [e]
      ensures e.Other? ==> accepted == old(accepted) && slots == old(slots)
      ensures !e.Other? ==> accepted == old(accepted) + [e.message] && slots == old(slots) + [Fresh(e.message)]
    {
      hide Account, AllSound, Sound, NoTwice, CurrentBits, QueueBits, Messages, Kept, Val;
      MessagesSnoc(queue, e);
      assert Messages(queue) + [] == Messages(queue);
      if !e.Other? {
        LedgerQueued(repeating, hlen, accepted, e.message);
        AccountQueued(format, line, pending, CurrentBits(format, mode, state, reg, nxt), Messages(queue),
                      slots, accepted, e.message);
        assert taken + Messages(queue) + [e.message] == taken + (Messages(queue) + [e.message]);
        accepted := accepted + [e.message];
        slots := slots + [Fresh(e.message)];
      }
      queue := queue + [e];
    }

    /** Or a field in above the bits held. */
    method PutBits(word: nat, n: nat, ghost bits: seq<bool>)
      requires Registers() && word == Val(bits) && n == |bits| && |pending| + n <= 31
      modifies `residue, `rbits, `pending
      ensures Registers() && pending == old(pending) + bits
      ensures residue < U32
    {
      RegisterAppend(pending, bits);
      residue := Or(residue, Shl(word, rbits) % U32);
      rbits := rbits + n;
      pending := pending + bits;
    }

    /** Stuff one octet and put it in the register. */
    method BitStuff(byte: octet)
      requires Ready() && Registers() && |pending| < width
      modifies `residue, `rbits, `pending, `state
      ensures Registers() && pending == old(pending + Stuff(state, OctetBits(byte)))
      ensures state == OnesAfter(old(state), OctetBits(byte))
      ensures 8 <= |pending| <= 17 && residue < U32
    {
      hide Val, CrcTable.Complete, Stuff, OnesAfter;
      var t := txTable[state * 256 + byte];
      LookUp(txTable, state, byte);
      ghost var bits := Stuff(state, OctetBits(byte));
      state := t.state;
      PutBits(t.bitString, t.bitLength + 8, bits);
    }

    /** The position of the first data message in the queue. */
    method FindMessage() returns (i: nat)
      ensures i <= |queue| && forall j :: 0 <= j < i ==> queue[j].Other?
      ensures i < |queue| ==> !queue[i].Other?
    {
      i := 0;
      while i < |queue| && queue[i].Other?
        invariant i <= |queue| && forall j :: 0 <= j < i ==> queue[j].Other?
      {
        i := i + 1;
      }
    }

    /** Take the first data message off the queue, or else the message kept for repeating, rewound to the
        base of its buffer. */
    method TxBuffer() returns (dp: Option<Message>, chain: seq<seq<octet>>)
      requires Held(cmp)
      modifies `queue, `cmp, `repeat, `taken, `freed
      ensures Held(dp)
      ensures old(Messages(queue)) == [] ==>
                && dp == cmp == old(cmp) && Messages(queue) == [] && taken == old(taken) && freed == old(freed)
      ensures repeat == old(repeat) + (if old(Messages(queue)) == [] && dp.Some? then 1 else 0)
      ensures old(Messages(queue)) != [] ==>
                && dp == Some(old(Messages(queue)[0])) && Messages(queue) == old(Messages(queue)[1..])
                && taken == old(taken) + [dp.value] && freed == old(taken)
      ensures cmp.Some? ==> cmp == dp
      ensures old(Messages(queue)) != [] ==>
                (cmp == dp <==> repeating && hlen <= |Payload(dp.value)| && |Payload(dp.value)| <= hlen + 2)
      ensures dp.Some? ==> |chain| > 0 && ChainOk(chain) && taken != []
      ensures dp.Some? ==> Flatten(chain) == if old(Messages(queue)) == [] then Rerun(dp.value) else Payload(dp.value)
    {
      hide AllSound, NoTwice, Payload, Messages, Flatten;
      chain := [];
      var i := FindMessage();
      if i < |queue| {
        var m := queue[i].message;
        RemoveFirst(queue, i);
        KeptSnoc(repeating, hlen, taken, m);
        queue := queue[..i] + queue[i + 1..];
        assert taken + ([m] + Messages(queue)) == taken + [m] + Messages(queue);
        dp := Some(m);
        if cmp.Some? {
          freed := freed + [cmp.value];
          cmp := None;
        }
        taken := taken + [m];
        SoundAt(repeating, hlen, accepted, |taken| - 1);
        PayloadOf(m);
        chain := m.blocks;
        if repeating && hlen <= |Payload(m)| <= hlen + 2 {
          cmp := dp;
        }
      } else {
        OthersHoldNone(queue);
        dp := cmp;
        if dp.Some? {
          SoundAt(repeating, hlen, accepted, |taken| - 1);
          RerunChain(dp.value);
          chain := [dp.value.head + dp.value.blocks[0]];
          repeat := repeat + 1;
        }
      }
    }

    /** Release the message that was sent, unless it is kept for repeating, and pick up another. */
    method PickUp() returns (chain: seq<seq<octet>>)
      requires Owned()
      modifies `msg, `queue, `cmp, `repeat, `taken, `freed
      ensures Owned() && (old(taken) != [] ==> taken != [])
      ensures msg.Some? ==> |chain| > 0 && ChainOk(chain) && taken != []
      ensures msg.Some? ==>
                Flatten(chain) == if old(Messages(queue)) == [] then Rerun(msg.value) else Payload(msg.value)
      ensures old(Messages(queue)) == [] ==>
                Messages(queue) == [] && taken == old(taken) && msg == Kept(repeating, hlen, accepted)
      ensures old(Messages(queue)) != [] ==>
                msg == Some(old(Messages(queue)[0])) && Messages(queue) == old(Messages(queue)[1..])
    {
      hide AllSound, NoTwice, Messages, Payload, ChainOk, Flatten;
      if msg.Some? && msg != cmp {
        freed := freed + [msg.value];
      }
      msg, chain := TxBuffer();
      assert taken + [] == taken;
    }

    /** Between frames: take the next message to the line, or the one to repeat, or nothing. */
    method NextMessage()
      requires Registers() && Accounted() && Owned() && nxt == [] && ChainOk(nxt)
      requires (mode == Idle && taken == []) || (mode == FlagIdle && taken != [])
      modifies `mode, `nxt, `msg, `queue, `cmp, `repeat, `slots, `taken, `freed
      ensures Valid() && (mode == old(mode) || mode == Bof)
      ensures mode == old(mode) ==> Messages(queue) == [] && slots == old(slots)
      ensures slots == old(slots) ||
              (Messages(queue) == [] && slots == old(slots) + [Filler(repeating, hlen, accepted)])
      ensures !repeating ==> slots == old(slots)
      ensures mode == FlagIdle ==> Filler(repeating, hlen, accepted) == FlagFill
      ensures old(Messages(queue)) == [] ==> Messages(queue) == []
    {
      hide Account, AllSound, NoTwice, CurrentBits, QueueBits, Messages, Val, Flatten, FrameBits, ChainOk, Sound,
           Registers, Kept, Filler, Payload, Rerun, InHand, CrcTable.Complete, TxTable.Complete;
      KeptIsFiller(repeating, hlen, accepted);
      NothingInHand(format, mode, state, reg, nxt);
      ghost var before := Messages(queue);
      var chain := PickUp();
      if msg.Some? {
        nxt := chain;
        mode := Bof;
        NothingInHand(format, mode, state, reg, nxt);
        if before != [] {
          AccountTaken(format, line, pending, before, slots, accepted);
          assert Accounted();
        } else {
          AccountAgain(format, line, pending, slots, accepted, msg.value);
          slots := slots + [Again(msg.value)];
          assert Accounted();
        }
      }
    }

    /** Mark or flag idle: fill, because nothing is queued. */
    method StepIdle()
      requires Registers() && Accounted() && |pending| < width <= 8
      requires mode == Idle || mode == FlagIdle
      requires Messages(queue) == [] && (mode == Idle <==> accepted == [])
      modifies `residue, `rbits, `pending, `slots
      ensures Registers() && Accounted() && 8 <= |pending| <= 31
      ensures slots == old(slots) + [if mode == Idle then MarkFill else FlagFill]
      ensures pending == old(pending) + (if mode == Idle then Repeat(true, 8) else FLAG)
    {
      hide Account, CurrentBits, Messages, Val;
      NothingInHand(format, mode, state, reg, nxt);
      if mode == Idle {
        MarkWord();
        AccountFill(format, line, pending, slots, accepted, MarkFill);
        PutBits(0xff, 8, Repeat(true, 8));
        slots := slots + [MarkFill];
      } else {
        FlagWords();
        AccountFill(format, line, pending, slots, accepted, FlagFill);
        PutBits(0x7e, 8, FLAG);
        slots := slots + [FlagFill];
      }
    }

    /** The opening flags, which also close the frame before. */
    method StepBof()
      requires Registers() && Accounted() && |pending| < width <= 8 && mode == Bof
      modifies `residue, `rbits, `pending, `state, `bcc, `reg, `mode
      ensures Registers() && Accounted() && 8 <= |pending| <= 31 && mode == Mof
      ensures state == 0 && bcc == 0x00ff && pending == old(pending) + OpeningFlags(format.style)
    {
      hide Account, CurrentBits, Messages, Val;
      FlagWords();
      CrcTable.StartWord();
      OpeningBits(format, state, reg, nxt);
      AccountMoved(format, line, pending, OpeningFlags(format.style),
                   CurrentBits(format, Mof, 0, START, nxt), Messages(queue), slots, accepted);
      match format.style {
        case One => PutBits(0x7e, 8, FLAG);
        case Shared => PutBits(0x3f7e, 15, FLAG + FLAG[1..]);
        case Two => PutBits(0x7e7e, 16, FLAG + FLAG);
        case Three => PutBits(0x7e7e7e, 24, FLAG + FLAG + FLAG);
      }
      state, bcc, reg, mode := 0, 0x00ff, START, Mof;
    }

    /** One octet of the frame, or its first check octet when the message is finished. */
    method StepMof()
      requires Ready() && Registers() && Accounted() && |pending| < width && mode == Mof
      requires |nxt| > 0 && ChainOk(nxt)
      modifies `residue, `rbits, `pending, `state, `bcc, `reg, `mode, `nxt
      ensures Registers() && Accounted() && 8 <= |pending| <= 31 && ChainOk(nxt)
      ensures if mode == Mof then |nxt| > 0 else mode == Bcc && nxt == []
    {
      hide Account, CurrentBits, Messages, Val, Stuff, OnesAfter, Flatten, ChainOk, CrcTable.Complete, TxTable.Complete;
      if |nxt[0]| == 0 {
        SkipEmpty(format, state, reg, nxt);
        nxt := nxt[1..];
      }
      if |nxt| > 0 {
        var byte := nxt[0][0];
        ghost var was := nxt;
        nxt := [nxt[0][1..]] + nxt[1..];
        ChainStep(was);
        FlattenStep(was);
        MofStep(format, state, reg, was, byte, nxt);
        AccountMoved(format, line, pending, Stuff(state, OctetBits(byte)),
                     CurrentBits(format, Mof, OnesAfter(state, OctetBits(byte)), CrcBits(reg, OctetBits(byte)), nxt),
                     Messages(queue), slots, accepted);
        Fold(byte);
        BitStuff(byte);
      } else {
        FirstCheck();
      }
    }

    /** The check register over one octet, by table. */
    method Fold(byte: octet)
      requires Ready() && bcc == Val(reg)
      modifies `bcc, `reg
      ensures bcc == Val(reg) && reg == CrcBits(old(reg), OctetBits(byte))
    {
      hide TxTable.Complete, Val, CrcBits;
      CrcTable.WordStep(reg, byte);
      CrcTable.CompleteEntry(bcTable, Xor(bcc, byte) % 256);
      bcc := Xor(bcc / 256, bcTable[Xor(bcc, byte) % 256]);
      reg := CrcBits(reg, OctetBits(byte));
    }

    method FirstCheck()
      requires Ready() && Registers() && Accounted() && |pending| < width && mode == Mof && nxt == []
      modifies `residue, `rbits, `pending, `state, `mode
      ensures Registers() && Accounted() && 8 <= |pending| <= 31 && mode == Bcc
    {
      hide Account, Messages, Val, Stuff, OnesAfter, CrcTable.Complete, TxTable.Complete;
      ghost var low := CheckBits(format.complement, reg)[..8];
      MofEnd(format, state, reg, nxt);
      AccountMoved(format, line, pending, Stuff(state, low),
                   CurrentBits(format, Bcc, OnesAfter(state, low), reg, []), Messages(queue), slots, accepted);
      CheckWords(format.complement, reg);
      OctetVal(low);
      BitStuff(CheckWord(format.complement, bcc) % 256);
      mode := Bcc;
    }

    /** The second check octet ends the frame. */
    method StepBcc()
      requires Ready() && Registers() && Accounted() && |pending| < width && mode == Bcc && nxt == []
      modifies `residue, `rbits, `pending, `state, `mode
      ensures Registers() && Accounted() && 8 <= |pending| <= 31 && mode == FlagIdle
    {
      hide Account, Messages, Val, Stuff, OnesAfter, CrcTable.Complete, TxTable.Complete;
      ghost var high := CheckBits(format.complement, reg)[8..];
      assert Stuff(state, high) + [] == Stuff(state, high);
      AccountMoved(format, line, pending, Stuff(state, high), [], Messages(queue), slots, accepted);
      CheckWords(format.complement, reg);
      OctetVal(high);
      BitStuff(CheckWord(format.complement, bcc) / 256);
      mode := FlagIdle;
    }

    /** Move one sample from the register to the line. */
    method Drain() returns (o: octet)
      requires Ready() && Registers() && Accounted() && |pending| >= width
      modifies `residue, `rbits, `pending, `line
      ensures Registers() && Accounted() && pending == old(pending)[width..]
      ensures line == old(line) + Receiving.SampleBits(width, o)
    {
      hide Account, Messages, Val, CrcTable.Complete, TxTable.Complete, CurrentBits;
      assert Pow2(width) == if width == 8 then 256 else 128 by { PowersOfTwo(); }
      ghost var bits := pending[..width];
      RegisterTake(pending, width);
      ValBound(bits);
      var low: octet := residue % (if width == 8 then 256 else 128);
      o := Rev(low);
      SampleOf(bits, width, low, o);
      AccountSent(format, line, pending, CurrentBits(format, mode, state, reg, nxt), Messages(queue),
                  slots, accepted, width);
      residue := residue / (if width == 8 then 256 else 128);
      rbits := rbits - width;
      pending := pending[width..];
      line := line + bits;
    }

    lemma PowersOfTwo()
      ensures Pow2(7) == 128 && Pow2(8) == 256
    {
      assert Pow2(4) == 16;
    }

    /** Nothing is queued and the engine idles: what it fills with. */
    ghost predicate Filling()
      reads `mode, `queue, `accepted
    {
      mode == Idle || mode == FlagIdle ==>
        Messages(queue) == [] && Filler(repeating, hlen, accepted) == (if mode == Idle then MarkFill else FlagFill)
    }

    /** Where every message is: queued, in hand or released, in one of the three and once; the one kept
        for repeating is the one in hand, so nothing is released while it can still be sent. */
    lemma EachMessageOnce()
      requires Valid()
      ensures accepted == freed + InHand(msg) + Messages(queue)
      ensures NoTwice(freed) && (cmp.Some? ==> cmp == msg)
      ensures msg.Some? ==> msg.value !in freed && msg.value !in Messages(queue)
      ensures forall m :: m in Messages(queue) ==> m !in freed
    {
      hide Sound, AllSound, Registers, Chained, Accounted, Kept, Messages, NoTwice;
      OnceEach(freed, InHand(msg), Messages(queue));
    }

    /** No frame is in hand. */
    predicate Idles()
      reads `mode
    {
      mode == Idle || mode == FlagIdle
    }

    /** What the line is committed to and has not been sent: between frames only what the register holds. */
    lemma IdleBacklog()
      requires Valid() && Idles() && Messages(queue) == []
      ensures |LineBits(format, Items(slots))| <= |line| + 31
    {
      hide LineBits, Items, FreshOnes, WellFormed, AllMarks;
      NothingInHand(format, mode, state, reg, nxt);
    }

    /** One pass of the switch, when less than a sample is held. */
    method Step()
      requires Ready() && Valid() && Filling() && |pending| < width
      modifies this
      ensures Valid() && Filling() && accepted == old(accepted) && line == old(line)
      ensures old(mode) != Bcc ==> |pending| >= 8
      ensures old(mode) == Bcc ==> mode != Bcc
      ensures Grown(old(slots), slots, Filler(repeating, hlen, accepted), Messages(queue) == [])
      ensures !repeating && slots != old(slots) ==> Idles()
      ensures old(Idles()) ==> Idles()
      ensures old(Messages(queue)) == [] ==> Messages(queue) == []
    {
      hide Account, Val, CurrentBits, AllSound, NoTwice, Messages, CrcTable.Complete, TxTable.Complete;
      match mode {
        case Idle => StepIdle();
        case FlagIdle => StepIdle();
        case Bof => StepBof();
        case Mof => StepMof();
        case Bcc =>
          StepBcc();
          NextMessage();
      }
    }

    /** One pass of the loop: a step if less than a sample is held, then at most one octet out. */
    method Pass() returns (out: seq<octet>)
      requires Ready() && Valid() && Filling()
      modifies this
      ensures Valid() && Filling() && accepted == old(accepted)
      ensures |out| <= 1 && line == old(line) + Receiving.Samples(width, out)
      ensures out == [] ==> old(mode) == Bcc && mode != Bcc
      ensures Grown(old(slots), slots, Filler(repeating, hlen, accepted), Messages(queue) == [])
      ensures !repeating && slots != old(slots) ==> Idles()
      ensures old(Idles()) ==> Idles()
      ensures old(Messages(queue)) == [] ==> Messages(queue) == []
    {
      hide Registers, Account, CurrentBits, AllSound, NoTwice, Messages, CrcTable.Complete, TxTable.Complete;
      out := [];
      assert rbits == |pending| by { RegisterCount(); }
      if rbits < width {
        Step();
        assert rbits == |pending| by { RegisterCount(); }
      }
      if rbits >= width {
        var o := Drain();
        out := [o];
        OneSample(width, o);
      }
    }

    lemma RegisterCount()
      requires Registers()
      ensures rbits == |pending| <= 31
    {
    }

    /** The block so far, since the line and the slots stood at `line0` and `slots0`. */
    ghost predicate Filled(line0: seq<bool>, slots0: seq<Slot>, out: seq<octet>)
      requires width <= 8
      reads this
    {
      && Valid() && Filling()
      && line == line0 + Receiving.Samples(width, out)
      && Grown(slots0, slots, Filler(repeating, hlen, accepted), Messages(queue) == [])
      && (!repeating && slots != slots0 ==> Idles())
    }

    /** One more pass over the block. */
    method FillMore(out: seq<octet>, ghost line0: seq<bool>, ghost slots0: seq<Slot>) returns (out': seq<octet>)
      requires Ready() && Filled(line0, slots0, out)
      modifies this
      ensures Filled(line0, slots0, out') && accepted == old(accepted)
      ensures |out| <= |out'| <= |out| + 1
      ensures |out'| == |out| ==> old(mode) == Bcc && mode != Bcc
    {
      hide Valid, Filling, Messages, CrcTable.Complete, TxTable.Complete, Filler;
      ghost var before, empty := slots, Messages(queue) == [];
      var more := Pass();
      SamplesJoin(width, out, more);
      GrownAgain(slots0, before, slots, Filler(repeating, hlen, accepted), empty, Messages(queue) == []);
      out' := out + more;
    }

    /** Fill one block.  The line grows by exactly the samples put out; what the line is committed to
        grows only by fill, only when nothing is left in the queue, and only by the fill that is due. */
    method TxBlock() returns (out: seq<octet>)
      requires Ready() && Valid()
      modifies this
      ensures Valid() && |out| == blks && accepted == old(accepted)
      ensures line == old(line) + Receiving.Samples(width, out)
      ensures Grown(old(slots), slots, Filler(repeating, hlen, accepted), Messages(queue) == [])
      ensures !repeating && slots != old(slots) ==> Idles()
      ensures forall i :: |old(slots)| <= i < |slots| ==>
                Messages(queue) == [] && Due(repeating, hlen, accepted, slots[i])
    {
      hide Registers, Owned, Chained, Accounted, Messages, CrcTable.Complete, TxTable.Complete, Due;
      FillerIsDue(repeating, hlen, accepted);
      out := [];
      if mode == Idle || mode == FlagIdle {
        StartBlock();
      }
      while |out| < blks
        invariant Filled(old(line), old(slots), out) && |out| <= blks && accepted == old(accepted)
        decreases blks - |out|, if mode == Bcc then 1 else 0
      {
        out := FillMore(out, old(line), old(slots));
      }
    }

    /** At the start of a block an idle engine looks at the queue. */
    method StartBlock()
      requires Valid() && (mode == Idle || mode == FlagIdle)
      modifies this
      ensures Valid() && Filling() && accepted == old(accepted) && line == old(line)
      ensures Grown(old(slots), slots, Filler(repeating, hlen, accepted), Messages(queue) == [])
      ensures !repeating ==> slots == old(slots)
    {
      hide Registers, Account, CurrentBits, AllSound, NoTwice, Messages;
      NextMessage();
    }
  }
}
