/** The two engines back to back. */
module Loopback {
  import opened Bits
  import opened Sequences
  import opened Line
  import opened Transmitting
  import opened RoundTrip
  import opened Crc
  import CrcTable
  import TxTable
  import RxTable
  import TxEngine
  import RxEngine
  import Holding
  import Receiving

  lemma {:induction false} DeliveredPrefix(f: Format, items: seq<Item>, n: nat)
    ensures Delivered(f, items, n) <= Frames(items)
    decreases |items|
  {
    if |items| > 0 { DeliveredPrefix(f, items[..|items| - 1], n); }
  }

  function Payloads(messages: seq<Message>): (s: seq<seq<octet>>)
    ensures |s| == |messages|
  {
    seq(|messages|, i requires 0 <= i < |messages| => Payload(messages[i]))
  }

  /** Without repeating, the frames on the line are the messages accepted, in order. */
  lemma {:induction false} FramesAreMessages(slots: seq<Slot>)
    requires forall i :: 0 <= i < |slots| ==> !slots[i].Again?
    ensures Frames(Items(slots)) == Payloads(FreshOnes(slots))
    decreases |slots|
  {
    if |slots| > 0 {
      var front := slots[..|slots| - 1];
      FramesAreMessages(front);
      assert Items(slots)[..|slots| - 1] == Items(front);
    }
  }

  function Flow(rounds: seq<seq<Message>>): seq<Message>
    decreases |rounds|
  {
    if |rounds| == 0 then [] else Flow(rounds[..|rounds| - 1]) + rounds[|rounds| - 1]
  }

  /** A message the transmitter takes and the receiver's limit lets through, its repeats included. */
  ghost predicate Fits(c: Receiving.Config, repeating: bool, m: Message) {
    && TxEngine.Sound(repeating, c.hlen, m) && |Payload(m)| <= c.mlen
    && (Repeatable(repeating, c.hlen, m) ==> |Rerun(m)| <= c.mlen)
  }

  ghost predicate Arriving(c: Receiving.Config, repeating: bool, messages: seq<Message>) {
    NoTwice(messages) && forall i :: 0 <= i < |messages| ==> Fits(c, repeating, messages[i])
  }

  /** How many bits the line is committed to. */
  ghost function Committed(tx: TxEngine.Transmitter): nat
    reads tx`slots
  {
    |LineBits(tx.format, Items(tx.slots))|
  }

  lemma NoBits(f: Format)
    ensures QueueBits(f, []) == []
  {
  }

  lemma FreshBits(f: Format, m: Message)
    ensures ItemBits(f, ToItem(Fresh(m))) == FrameBits(f, Payload(m))
  {
  }

  method EnqueueOne(tx: TxEngine.Transmitter, m: Message)
    requires tx.Valid() && TxEngine.Sound(tx.repeating, tx.hlen, m) && m !in tx.accepted
    modifies tx
    ensures tx.Valid() && tx.accepted == old(tx.accepted) + [m] && tx.line == old(tx.line)
    ensures Proper(tx.repeating, tx.hlen, old(tx.slots)) ==> Proper(tx.repeating, tx.hlen, tx.slots)
    ensures Committed(tx) == old(Committed(tx)) + |FrameBits(tx.format, Payload(m))|
  {
    hide TxEngine.Transmitter.Valid, FrameBits, LineBits, Items, TxEngine.Sound, Proper;
    if Proper(tx.repeating, tx.hlen, tx.slots) { ProperSnoc(tx.repeating, tx.hlen, tx.slots, Fresh(m)); }
    SlotSnoc(tx.format, tx.slots, Fresh(m));
    FreshBits(tx.format, m);
    tx.Enqueue(Data(m));
  }

  /** Queue the messages of one round. */
  method EnqueueAll(tx: TxEngine.Transmitter, messages: seq<Message>, ghost c: Receiving.Config)
    requires tx.Valid() && tx.hlen == c.hlen
    requires Arriving(c, tx.repeating, tx.accepted + messages)
    modifies tx
    ensures tx.Valid() && tx.accepted == old(tx.accepted) + messages && tx.line == old(tx.line)
    ensures Proper(tx.repeating, tx.hlen, old(tx.slots)) ==> Proper(tx.repeating, tx.hlen, tx.slots)
    ensures Committed(tx) == old(Committed(tx)) + |QueueBits(tx.format, messages)|
    ensures messages == [] ==> tx.slots == old(tx.slots)
  {
    hide TxEngine.Transmitter.Valid, NoTwice, QueueBits, FrameBits, Committed, Proper, TxEngine.Sound;
    var i := 0;
    assert tx.accepted + [] == tx.accepted;
    NoBits(tx.format);
    assert messages[..0] == [];
    while i < |messages|
      invariant 0 <= i <= |messages| && tx.Valid()
      invariant tx.accepted == old(tx.accepted) + messages[..i] && tx.line == old(tx.line)
      invariant Proper(tx.repeating, tx.hlen, old(tx.slots)) ==> Proper(tx.repeating, tx.hlen, tx.slots)
      invariant Committed(tx) == old(Committed(tx)) + |QueueBits(tx.format, messages[..i])|
      invariant i == 0 ==> tx.slots == old(tx.slots)
    {
      ghost var all := old(tx.accepted) + messages;
      NextIsNew(all, |old(tx.accepted)| + i);
      assert all[..|old(tx.accepted)| + i] == tx.accepted;
      assert all[|old(tx.accepted)| + i] == messages[i];
      assert Fits(c, tx.repeating, messages[i]);
      QueueSnoc(tx.format, messages[..i], messages[i]);
      EnqueueOne(tx, messages[i]);
      assert messages[..i + 1] == messages[..i] + [messages[i]];
      i := i + 1;
    }
    assert messages[..i] == messages;
  }

  /** Every fill is the one due after the messages before it. */
  ghost predicate Proper(repeating: bool, hlen: nat, slots: seq<Slot>)
    decreases |slots|
  {
    |slots| == 0 ||
    (var front, last := slots[..|slots| - 1], slots[|slots| - 1];
     && Proper(repeating, hlen, front)
     && (last.Fresh? || last == Filler(repeating, hlen, FreshOnes(front))))
  }

  lemma {:induction false} ProperTells(repeating: bool, hlen: nat, slots: seq<Slot>)
    requires Proper(repeating, hlen, slots)
    ensures forall i :: 0 <= i < |slots| ==> slots[i].Fresh? || Due(repeating, hlen, FreshOnes(slots[..i]), slots[i])
    decreases |slots|
  {
    if |slots| > 0 {
      hide Payload, FreshOnes, Due, Filler;
      var n := |slots| - 1;
      FillerIsDue(repeating, hlen, FreshOnes(slots[..n]));
      ProperTells(repeating, hlen, slots[..n]);
      assert forall i :: 0 <= i < n ==> slots[..n][i] == slots[i] && slots[..n][..i] == slots[..i];
    }
  }

  lemma ProperSnoc(repeating: bool, hlen: nat, slots: seq<Slot>, s: Slot)
    requires Proper(repeating, hlen, slots) && (s.Fresh? || s == Filler(repeating, hlen, FreshOnes(slots)))
    ensures Proper(repeating, hlen, slots + [s])
  {
    assert (slots + [s])[..|slots|] == slots;
  }

  lemma {:induction false} FillIsProper(a: seq<Slot>, b: seq<Slot>, repeating: bool, hlen: nat, empty: bool)
    requires Proper(repeating, hlen, a)
    requires TxEngine.Grown(a, b, Filler(repeating, hlen, FreshOnes(a)), empty)
    ensures Proper(repeating, hlen, b) && FreshOnes(b) == FreshOnes(a)
    decreases |b|
  {
    hide Filler;
    if |b| > |a| {
      var front := b[..|b| - 1];
      FillIsNotFresh(repeating, hlen, FreshOnes(a));
      FillIsProper(a, front, repeating, hlen, true);
      assert FreshOnes(a) + [] == FreshOnes(a);
    } else {
      assert a == b;
    }
  }

  lemma FillIsNotFresh(repeating: bool, hlen: nat, accepted: seq<Message>)
    ensures !Filler(repeating, hlen, accepted).Fresh?
  {
  }

  lemma {:induction false} ProperHasNone(hlen: nat, slots: seq<Slot>)
    requires Proper(false, hlen, slots)
    ensures forall i :: 0 <= i < |slots| ==> !slots[i].Again?
    decreases |slots|
  {
    if |slots| > 0 {
      ProperHasNone(hlen, slots[..|slots| - 1]);
      assert forall i :: 0 <= i < |slots| - 1 ==> slots[i] == slots[..|slots| - 1][i];
    }
  }

  lemma {:induction false} FlowPrefixArrives(c: Receiving.Config, repeating: bool, a: seq<Message>, b: seq<Message>)
    requires Arriving(c, repeating, a + b)
    ensures Arriving(c, repeating, a)
  {
    NoTwicePrefix(a, b);
    forall i | 0 <= i < |a|
      ensures Fits(c, repeating, a[i])
    {
      assert (a + b)[i] == a[i];
    }
  }

  lemma {:induction false} FlowSplit(rounds: seq<seq<Message>>, i: nat)
    requires i <= |rounds|
    ensures exists rest :: Flow(rounds) == Flow(rounds[..i]) + rest
    decreases |rounds| - i
  {
    if i == |rounds| {
      assert rounds[..i] == rounds;
      assert Flow(rounds) == Flow(rounds[..i]) + [];
    } else {
      FlowSplit(rounds, i + 1);
      var rest :| Flow(rounds) == Flow(rounds[..i + 1]) + rest;
      assert rounds[..i + 1][..i] == rounds[..i];
      assert Flow(rounds) == Flow(rounds[..i]) + (rounds[i] + rest);
    }
  }

  lemma {:induction false} RoundArrives(c: Receiving.Config, repeating: bool, rounds: seq<seq<Message>>, i: nat)
    requires i < |rounds| && Arriving(c, repeating, Flow(rounds))
    ensures Flow(rounds[..i + 1]) == Flow(rounds[..i]) + rounds[i]
    ensures Arriving(c, repeating, Flow(rounds[..i]) + rounds[i])
  {
    assert rounds[..i + 1][..i] == rounds[..i];
    FlowSplit(rounds, i + 1);
    var rest :| Flow(rounds) == Flow(rounds[..i + 1]) + rest;
    FlowPrefixArrives(c, repeating, Flow(rounds[..i + 1]), rest);
  }

  lemma {:induction false} FreshFit(c: Receiving.Config, repeating: bool, slots: seq<Slot>)
    requires Arriving(c, repeating, FreshOnes(slots)) && Proper(repeating, c.hlen, slots)
    ensures FramesFit(Items(slots), c.mlen)
    decreases |slots|
  {
    if |slots| > 0 {
      var front, last := slots[..|slots| - 1], slots[|slots| - 1];
      var tail := if last.Fresh? then [last.message] else [];
      FlowPrefixArrives(c, repeating, FreshOnes(front), tail);
      FreshFit(c, repeating, front);
      LastFits(c, repeating, slots);
      forall i | 0 <= i < |slots| && Items(slots)[i].Frame?
        ensures |Items(slots)[i].data| <= c.mlen
      {
        if i < |front| { assert Items(front)[i] == Items(slots)[i]; }
      }
    }
  }

  lemma LastFits(c: Receiving.Config, repeating: bool, slots: seq<Slot>)
    requires Arriving(c, repeating, FreshOnes(slots)) && Proper(repeating, c.hlen, slots) && |slots| > 0
    ensures var item := ToItem(slots[|slots| - 1]); item.Frame? ==> |item.data| <= c.mlen
  {
    hide NoTwice, TxEngine.Sound, Payload, Rerun;
    var front, last := slots[..|slots| - 1], slots[|slots| - 1];
    var sent := FreshOnes(front);
    if last.Fresh? {
      assert FreshOnes(slots)[|sent|] == last.message;
      assert Fits(c, repeating, last.message);
    } else if last.Again? {
      assert FreshOnes(slots) == sent;
      assert Fits(c, repeating, sent[|sent| - 1]);
    }
  }

  /** Everything sent is part of the line that the engine is committed to. */
  lemma SentIsPrefix(tx: TxEngine.Transmitter)
    requires tx.Valid()
    ensures tx.line <= LineBits(tx.format, Items(tx.slots)) && FreshOnes(tx.slots) == tx.accepted
    ensures WellFormed(Items(tx.slots))
    ensures tx.pending == [] && tx.mode == FlagIdle && Messages(tx.queue) == [] ==>
              tx.line == LineBits(tx.format, Items(tx.slots))
  {
    TxEngine.NothingInHand(tx.format, tx.mode, tx.state, tx.reg, tx.nxt);
    assert tx.line + [] + ([] + []) == tx.line;
  }

  lemma RxRunSnoc(c: Receiving.Config, blocks: seq<Block>, b: Block)
    requires Receiving.ConfigOk(c)
    ensures Flat(blocks + [b]) == Flat(blocks) + b.octets
    ensures RxRun(c, blocks + [b]) ==
            Receiving.BlockRun(c, RxRun(c, blocks).(err := Receiving.NoError), b.octets, b.canPut)
    ensures AllCanPut(blocks) && b.canPut ==> AllCanPut(blocks + [b])
  {
    assert (blocks + [b])[..|blocks|] == blocks;
  }

  /** The engines after the transmitter has put out, and the receiver taken in, the same blocks. */
  ghost predicate Linked(c: Receiving.Config, f: Format, tx: TxEngine.Transmitter, rx: RxEngine.Receiver,
                         blocks: seq<Block>, accepted: seq<Message>)
    requires Receiving.ConfigOk(c)
    reads tx, rx
  {
    && tx.Ready() && rx.Ready() && tx.Valid() && rx.Valid()
    && tx.width == c.width && tx.format == f && tx.hlen == c.hlen && rx.config == c
    && tx.accepted == accepted && Proper(tx.repeating, c.hlen, tx.slots)
    && AllCanPut(blocks) && rx.Abs() == RxRun(c, blocks)
    && tx.line == Receiving.Samples(c.width, Flat(blocks))
    && |Flat(blocks)| == tx.blks * |blocks|
  }

  /** One round: messages queued, a block transmitted, the same block received.  Either everything the line
      is committed to has gone out but for what the register holds, or the round committed the line to its
      messages and nothing else. */
  method Round(c: Receiving.Config, f: Format, tx: TxEngine.Transmitter, rx: RxEngine.Receiver,
               messages: seq<Message>, ghost blocks: seq<Block>, ghost accepted: seq<Message>)
      returns (ghost more: seq<Block>)
    requires Receiving.ConfigOk(c) && Linked(c, f, tx, rx, blocks, accepted)
    requires Arriving(c, tx.repeating, accepted + messages)
    modifies tx, rx
    ensures Linked(c, f, tx, rx, more, accepted + messages) && |more| == |blocks| + 1
    ensures |tx.line| == old(|tx.line|) + c.width * tx.blks
    ensures !tx.repeating ==>
              || Committed(tx) <= |tx.line| + 31
              || Committed(tx) == old(Committed(tx)) + |QueueBits(f, messages)|
    ensures messages == [] ==> Extended(old(tx.slots), tx.slots, Filler(tx.repeating, c.hlen, accepted))
  {
    hide TxEngine.Transmitter.Valid, RxEngine.Receiver.Valid, CrcTable.Complete, TxTable.Complete, RxTable.Complete;
    hide NoTwice, RxRun, LineBits, Items, QueueBits, FreshOnes, Filler, Proper;
    EnqueueAll(tx, messages, c);
    ghost var before := tx.slots;
    SentIsPrefix(tx);
    var block := tx.TxBlock();
    FillIsProper(before, tx.slots, tx.repeating, c.hlen, Messages(tx.queue) == []);
    if tx.slots != before && !tx.repeating { tx.IdleBacklog(); }
    assert messages == [] ==> accepted + messages == accepted;
    rx.RxBlock(block, true);
    RxRunSnoc(c, blocks, Block(block, true));
    SamplesAppend(c.width, Flat(blocks), block);
    more := blocks + [Block(block, true)];
    OneMore(tx.blks, |blocks|);
  }

  /** Nothing but `fill` was added. */
  ghost predicate Extended(before: seq<Slot>, after: seq<Slot>, fill: Slot) {
    before <= after && forall i :: |before| <= i < |after| ==> after[i] == fill
  }

  lemma ExtendedAgain(a: seq<Slot>, b: seq<Slot>, c: seq<Slot>, fill: Slot)
    requires Extended(a, b, fill) && Extended(b, c, fill)
    ensures Extended(a, c, fill)
  {
    forall i | |a| <= i < |c| ensures c[i] == fill { if i < |b| { assert c[i] == b[i]; } }
  }

  /** The bits that so many blocks carry. */
  function Capacity(c: Receiving.Config, blks: nat, n: nat): nat { c.width * (blks * n) }

  lemma CapacityOneMore(c: Receiving.Config, blks: nat, n: nat)
    ensures Capacity(c, blks, n + 1) == Capacity(c, blks, n) + c.width * blks
    ensures Capacity(c, blks, 0) == 0
  {
    OneMore(blks, n);
    assert c.width * (blks * n + blks) == c.width * (blks * n) + c.width * blks;
  }

  lemma OneMore(m: nat, n: nat)
    ensures m * (n + 1) == m * n + m
  {
  }

  lemma {:induction false} QueueAppend(f: Format, a: seq<Message>, b: seq<Message>)
    ensures QueueBits(f, a + b) == QueueBits(f, a) + QueueBits(f, b)
    decreases |b|
  {
    hide QueueBits, FrameBits, Payload;
    NoBits(f);
    if |b| == 0 {
      assert a + b == a;
    } else {
      var n := |b| - 1;
      QueueAppend(f, a, b[..n]);
      QueueSnoc(f, a + b[..n], b[n]);
      QueueSnoc(f, b[..n], b[n]);
      assert a + b == a + b[..n] + [b[n]] && b == b[..n] + [b[n]];
    }
  }

  /** However the messages came, the line is never behind by more than the register and all their bits. */
  method Rounds(c: Receiving.Config, f: Format, tx: TxEngine.Transmitter, rx: RxEngine.Receiver,
                rounds: seq<seq<Message>>) returns (ghost blocks: seq<Block>)
    requires Receiving.ConfigOk(c) && Linked(c, f, tx, rx, [], []) && tx.slots == [] && tx.line == [] && tx.format == f
    requires Arriving(c, tx.repeating, Flow(rounds))
    modifies tx, rx
    ensures Linked(c, f, tx, rx, blocks, Flow(rounds)) && |blocks| == |rounds| && tx.format == f
    ensures !tx.repeating ==> Committed(tx) <= |tx.line| + 31 + |QueueBits(f, Flow(rounds))|
  {
    hide Linked, Arriving, QueueBits, Filler, Extended;
    blocks := [];
    var i := 0;
    assert rounds[..0] == [] && Flow([]) == [];
    while i < |rounds|
      invariant 0 <= i <= |rounds| && |blocks| == i
      invariant Linked(c, f, tx, rx, blocks, Flow(rounds[..i]))
      invariant !tx.repeating ==> Committed(tx) <= |tx.line| + 31 + |QueueBits(f, Flow(rounds[..i]))|
    {
      RoundArrives(c, tx.repeating, rounds, i);
      QueueAppend(f, Flow(rounds[..i]), rounds[i]);
      blocks := Round(c, f, tx, rx, rounds[i], blocks, Flow(rounds[..i]));
      i := i + 1;
    }
    assert rounds[..i] == rounds;
  }

  /** Rounds in which nothing more is queued. */
  method IdleRounds(c: Receiving.Config, f: Format, tx: TxEngine.Transmitter, rx: RxEngine.Receiver,
                    idle: nat, ghost blocks: seq<Block>, ghost flow: seq<Message>)
      returns (ghost more: seq<Block>)
    requires Receiving.ConfigOk(c) && Linked(c, f, tx, rx, blocks, flow) && Arriving(c, tx.repeating, flow)
    modifies tx, rx
    ensures Linked(c, f, tx, rx, more, flow) && |more| == |blocks| + idle
    ensures |tx.line| == old(|tx.line|) + Capacity(c, tx.blks, idle)
    ensures Extended(old(tx.slots), tx.slots, Filler(tx.repeating, c.hlen, flow))
  {
    hide Linked, Arriving, QueueBits, Filler, Extended, Capacity;
    more := blocks;
    var i := 0;
    Unextended(tx.slots, Filler(tx.repeating, c.hlen, flow));
    CapacityOneMore(c, tx.blks, 0);
    assert flow + [] == flow;
    while i < idle
      invariant 0 <= i <= idle && |more| == |blocks| + i
      invariant Linked(c, f, tx, rx, more, flow)
      invariant |tx.line| == old(|tx.line|) + Capacity(c, tx.blks, i)
      invariant Extended(old(tx.slots), tx.slots, Filler(tx.repeating, c.hlen, flow))
    {
      ghost var before := tx.slots;
      CapacityOneMore(c, tx.blks, i);
      more := Round(c, f, tx, rx, [], more, flow);
      ExtendedAgain(old(tx.slots), before, tx.slots, Filler(tx.repeating, c.hlen, flow));
      i := i + 1;
    }
  }

  lemma Unextended(slots: seq<Slot>, fill: Slot)
    ensures Extended(slots, slots, fill)
  {
  }

  /** What is reported of the messages delivered: with one convention for the check on both sides every
      acceptable one is handed up; with different conventions every one is a check error. */
  ghost predicate Judged(c: Receiving.Config, f: Format, flow: seq<Message>, delivered: nat,
                         events: seq<Receiving.Event>)
    requires Receiving.ConfigOk(c) && delivered <= |flow|
  {
    && |events| == delivered
    && forall i :: 0 <= i < delivered ==>
         && (c.complement != f.complement ==> events[i] == Receiving.Bad(Receiving.CrcError, Payload(flow[i])))
         && (c.complement == f.complement && Acceptable(c, Payload(flow[i])) ==>
               events[i] == Receiving.Good(Payload(flow[i])))
  }

  lemma {:induction false} Verdicts(c: Receiving.Config, f: Format, flow: seq<Message>, delivered: nat)
    requires Receiving.ConfigOk(c) && delivered <= |flow|
    ensures Judged(c, f, flow, delivered, Outcomes(c, Ends(f.complement, Payloads(flow)[..delivered])))
  {
    forall i | 0 <= i < delivered
      ensures Ends(f.complement, Payloads(flow)[..delivered])[i] ==
              (Payload(flow[i]), CheckBits(f.complement, MessageCrc(Payload(flow[i]))))
    {
      assert Payloads(flow)[..delivered][i] == Payload(flow[i]);
    }
    forall i | 0 <= i < delivered
      ensures Outcomes(c, Ends(f.complement, Payloads(flow)[..delivered]))[i] ==
              Outcome(c, (Payload(flow[i]), CheckBits(f.complement, MessageCrc(Payload(flow[i])))))
    {
      CheckVerdict(c, f, Payload(flow[i]));
    }
    forall i | 0 <= i < delivered { CheckVerdict(c, f, Payload(flow[i])); }
  }

  /** Any run of the two engines: in each round some messages are queued, one block is transmitted and
      the same block received; then `idle` rounds bring nothing new.  The receiver has reached the end of
      a frame once for each of the first `delivered` messages, in order, with the message and the sixteen
      check bits that were sent, and nothing is reported but the outcome of each of those frames.  Every
      message has been delivered once the idle rounds have carried as many bits as all the frames, the
      register and one flag. */
  method Run(c: Receiving.Config, f: Format, blks: nat, rounds: seq<seq<Message>>, idle: nat)
      returns (tx: TxEngine.Transmitter, rx: RxEngine.Receiver, ghost delivered: nat)
    requires Receiving.ConfigOk(c) && !c.counting && Arriving(c, false, Flow(rounds))
    ensures tx.Valid() && rx.Valid() && tx.accepted == Flow(rounds)
    ensures |tx.line| == Capacity(c, blks, |rounds| + idle)
    ensures delivered <= |Flow(rounds)|
    ensures rx.ends == Ends(f.complement, Payloads(Flow(rounds))[..delivered])
    ensures rx.events == Outcomes(c, rx.ends)
    ensures |QueueBits(f, Flow(rounds))| + 31 + 8 <= Capacity(c, blks, idle) ==> delivered == |Flow(rounds)|
    ensures Judged(c, f, Flow(rounds), delivered, rx.events)
    ensures Holding.Expand(rx.up) + Holding.HeldCopies(rx.Kept()) == rx.events
  {
    hide Capacity, Linked, Arriving, QueueBits, Extended, Flow, Outcomes, Ends, Payloads, Judged, Filler, LineBits;
    hide RxEngine.Receiver.Valid, TxEngine.Transmitter.Valid, RxEngine.Receiver.Kept;
    hide Holding.Expand, Holding.HeldCopies;
    tx, rx := Start(c, f, blks, false);
    ghost var blocks := Rounds(c, f, tx, rx, rounds);
    ghost var mark, sent := tx.slots, |tx.line|;
    blocks := IdleRounds(c, f, tx, rx, idle, blocks, Flow(rounds));
    delivered := Conclude(c, f, tx, rx, blocks, Flow(rounds), mark, sent, idle);
  }

  /** The tables made once, and both engines fresh. */
  method Start(c: Receiving.Config, f: Format, blks: nat, repeating: bool)
      returns (tx: TxEngine.Transmitter, rx: RxEngine.Receiver)
    requires Receiving.ConfigOk(c)
    ensures Linked(c, f, tx, rx, [], []) && fresh(tx) && fresh(rx)
    ensures tx.slots == [] && tx.line == [] && tx.blks == blks && tx.format == f && tx.repeating == repeating
  {
    hide TxEngine.Transmitter.Valid, RxEngine.Receiver.Valid, CrcTable.Complete, TxTable.Complete, RxTable.Complete;
    hide NoTwice, RxRun, Flow;
    var bc := CrcTable.BcTableGenerate();
    var txTable := TxTable.TxTableGenerate();
    var rxTable := RxTable.RxTableGenerate(c.width);
    tx := new TxEngine.Transmitter(c.width, blks, f, repeating, c.hlen, bc, txTable);
    rx := new RxEngine.Receiver(c, bc, rxTable);
    FreshRun(c);
  }

  lemma FreshRun(c: Receiving.Config)
    requires Receiving.ConfigOk(c)
    ensures RxRun(c, []) == Receiving.START_RX && Flat([]) == [] && Receiving.Samples(c.width, []) == []
    ensures Flow([]) == []
  {
  }

  /** A whole flag after the last frame delivers every frame. */
  lemma {:induction false} FlagsDeliverAll(f: Format, mark: seq<Slot>, slots: seq<Slot>, n: nat)
    requires Extended(mark, slots, FlagFill) && |slots| > |mark|
    requires |LineBits(f, Items(mark))| + 8 <= n
    ensures Delivered(f, Items(slots), n) == Frames(Items(slots))
    decreases |slots|
  {
    hide ItemBits, LineBits;
    var front := slots[..|slots| - 1];
    assert Items(slots)[..|slots| - 1] == Items(front);
    assert Items(slots)[|slots| - 1] == Flag;
    if |front| > |mark| {
      FlagsDeliverAll(f, mark, front, n);
    } else {
      assert front == mark;
    }
  }

  /** What has been received of the line: the frames that a whole flag has followed. */
  lemma {:induction false} FramesReceived(c: Receiving.Config, f: Format, tx: TxEngine.Transmitter,
                                          rx: RxEngine.Receiver, blocks: seq<Block>, flow: seq<Message>)
    requires Receiving.ConfigOk(c) && !c.counting && Arriving(c, tx.repeating, flow)
    requires Linked(c, f, tx, rx, blocks, flow)
    ensures rx.ends == Ends(f.complement, Delivered(f, Items(tx.slots), |tx.line|))
    ensures rx.events == Outcomes(c, rx.ends) && FreshOnes(tx.slots) == flow
    ensures tx.line <= LineBits(f, Items(tx.slots)) && |tx.line| == Capacity(c, tx.blks, |blocks|)
    ensures tx.Valid() && rx.Valid() && tx.accepted == flow && Proper(tx.repeating, c.hlen, tx.slots)
    ensures Holding.Expand(rx.up) + Holding.HeldCopies(rx.Kept()) == rx.events
  {
    hide TxEngine.Transmitter.Valid, NoTwice, RxRun, LineBits, Delivered, Outcomes, WellFormed, Payload, Proper;
    hide RxEngine.Receiver.Valid, RxEngine.Receiver.Ready, RxEngine.Receiver.Kept, Holding.Expand, Holding.HeldCopies;
    var items := Items(tx.slots);
    SentIsPrefix(tx);
    FreshFit(c, tx.repeating, tx.slots);
    FramesReturn(c, f, items, blocks);
    RunOnLine(c, f, items, blocks);
    rx.Dues();
  }

  lemma {:induction false} Received(c: Receiving.Config, f: Format, tx: TxEngine.Transmitter,
                                    rx: RxEngine.Receiver, blocks: seq<Block>, flow: seq<Message>)
      returns (delivered: nat)
    requires Receiving.ConfigOk(c) && !c.counting && !tx.repeating && Arriving(c, false, flow)
    requires Linked(c, f, tx, rx, blocks, flow)
    ensures delivered == |Delivered(f, Items(tx.slots), |tx.line|)| <= |flow|
    ensures rx.ends == Ends(f.complement, Payloads(flow)[..delivered])
    ensures rx.events == Outcomes(c, rx.ends)
    ensures Frames(Items(tx.slots)) == Payloads(flow) && |tx.line| <= |LineBits(f, Items(tx.slots))|
    ensures tx.Valid() && rx.Valid() && tx.accepted == flow && |tx.line| == Capacity(c, tx.blks, |blocks|)
    ensures Holding.Expand(rx.up) + Holding.HeldCopies(rx.Kept()) == rx.events
  {
    hide TxEngine.Transmitter.Valid, NoTwice, RxRun, LineBits, Delivered, Outcomes, WellFormed, Payload, Linked,
         Arriving, Proper, Ends, Capacity;
    hide RxEngine.Receiver.Valid, RxEngine.Receiver.Kept, Holding.Expand, Holding.HeldCopies;
    FramesReceived(c, f, tx, rx, blocks, flow);
    ProperHasNone(c.hlen, tx.slots);
    FramesAreMessages(tx.slots);
    var frames := Delivered(f, Items(tx.slots), |tx.line|);
    DeliveredPrefix(f, Items(tx.slots), |tx.line|);
    delivered := |frames|;
    assert frames == Payloads(flow)[..delivered];
  }

  lemma SameLength(a: seq<Slot>, b: seq<Slot>)
    requires a <= b
    ensures |a| == |b| ==> a == b
  {
  }

  lemma {:induction false} AllReceived(c: Receiving.Config, f: Format, mark: seq<Slot>, slots: seq<Slot>,
                                       flow: seq<Message>, n: nat)
    requires Extended(mark, slots, Filler(false, c.hlen, flow)) && Frames(Items(slots)) == Payloads(flow)
    requires |LineBits(f, Items(mark))| + 8 <= n <= |LineBits(f, Items(slots))|
    ensures |Delivered(f, Items(slots), n)| == |flow|
  {
    hide LineBits, Delivered;
    DeliveredPrefix(f, Items(slots), n);
    if |flow| > 0 {
      SameLength(mark, slots);
      FlagsDeliverAll(f, mark, slots, n);
    }
  }

  lemma {:induction false} Conclude(c: Receiving.Config, f: Format, tx: TxEngine.Transmitter,
                                    rx: RxEngine.Receiver, blocks: seq<Block>, flow: seq<Message>,
                                    mark: seq<Slot>, sent: nat, idle: nat) returns (delivered: nat)
    requires Receiving.ConfigOk(c) && !c.counting && !tx.repeating && Arriving(c, false, flow)
    requires Linked(c, f, tx, rx, blocks, flow)
    requires Extended(mark, tx.slots, Filler(false, c.hlen, flow))
    requires |LineBits(f, Items(mark))| <= sent + 31 + |QueueBits(f, flow)|
    requires |tx.line| == sent + Capacity(c, tx.blks, idle)
    ensures delivered <= |flow|
    ensures rx.ends == Ends(f.complement, Payloads(flow)[..delivered])
    ensures rx.events == Outcomes(c, rx.ends)
    ensures |QueueBits(f, flow)| + 31 + 8 <= Capacity(c, tx.blks, idle) ==> delivered == |flow|
    ensures tx.Valid() && rx.Valid() && tx.accepted == flow && |tx.line| == Capacity(c, tx.blks, |blocks|)
    ensures Judged(c, f, flow, delivered, rx.events)
    ensures Holding.Expand(rx.up) + Holding.HeldCopies(rx.Kept()) == rx.events
  {
    hide LineBits, Items, Frames, Delivered, Outcomes, Ends, Payloads, Judged, Extended, Filler, QueueBits, RxRun;
    hide TxEngine.Transmitter.Valid, TxEngine.Transmitter.Ready, RxEngine.Receiver.Valid, RxEngine.Receiver.Ready;
    hide Holding.Expand, Holding.HeldCopies, RxEngine.Receiver.Kept, Arriving;
    delivered := Received(c, f, tx, rx, blocks, flow);
    Verdicts(c, f, flow, delivered);
    if |QueueBits(f, flow)| + 31 + 8 <= Capacity(c, tx.blks, idle) {
      AllReceived(c, f, mark, tx.slots, flow, |tx.line|);
    }
  }

  /** Any run of the two engines with repeating: the line carries the messages in order and, while nothing is
      queued, the one sent last again and again if it is of the repeatable kind.  The receiver has reached the
      end of a frame for each message and repeat that a whole flag has followed, in order, and nothing is
      reported but the outcome of each. */
  method RunRepeating(c: Receiving.Config, f: Format, blks: nat, rounds: seq<seq<Message>>)
      returns (tx: TxEngine.Transmitter, rx: RxEngine.Receiver)
    requires Receiving.ConfigOk(c) && !c.counting && Arriving(c, true, Flow(rounds))
    ensures tx.Valid() && rx.Valid() && tx.accepted == FreshOnes(tx.slots) == Flow(rounds)
    ensures forall i :: 0 <= i < |tx.slots| ==>
              tx.slots[i].Fresh? || Due(true, c.hlen, FreshOnes(tx.slots[..i]), tx.slots[i])
    ensures tx.line <= LineBits(f, Items(tx.slots)) && |tx.line| == Capacity(c, blks, |rounds|)
    ensures rx.ends == Ends(f.complement, Delivered(f, Items(tx.slots), |tx.line|))
    ensures rx.events == Outcomes(c, rx.ends)
    ensures Holding.Expand(rx.up) + Holding.HeldCopies(rx.Kept()) == rx.events
  {
    hide Capacity, Linked, Arriving, QueueBits, Flow, Outcomes, Ends, LineBits, Delivered, Proper, FreshOnes,
         Items, Due;
    hide RxEngine.Receiver.Valid, TxEngine.Transmitter.Valid, RxEngine.Receiver.Kept;
    hide Holding.Expand, Holding.HeldCopies;
    tx, rx := Start(c, f, blks, true);
    ghost var blocks := Rounds(c, f, tx, rx, rounds);
    FramesReceived(c, f, tx, rx, blocks, Flow(rounds));
    ProperTells(true, c.hlen, tx.slots);
  }
}
