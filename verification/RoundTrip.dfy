/** The receiver on the transmitter's line: every frame comes back, once and in order. */
module RoundTrip {
  import opened Bits
  import opened Crc
  import opened Deleter
  import opened RxTable
  import opened Line
  import opened LineRun
  import Receiving

  type Config = Receiving.Config
  type Rx = Receiving.Rx

  /** One receive block and whether the user above could take data while it was processed. */
  datatype Block = Block(octets: seq<octet>, canPut: bool)

  function Flat(blocks: seq<Block>): seq<octet>
    decreases |blocks|
  {
    if |blocks| == 0 then [] else Flat(blocks[..|blocks| - 1]) + blocks[|blocks| - 1].octets
  }

  /** A fresh hunting receiver after some blocks. */
  function RxRun(c: Config, blocks: seq<Block>): (s: Rx)
    requires Receiving.ConfigOk(c)
    ensures s.q < RX_STATES
    decreases |blocks|
  {
    if |blocks| == 0 then Receiving.START_RX
    else
      var s := RxRun(c, blocks[..|blocks| - 1]);
      var b := blocks[|blocks| - 1];
      Receiving.BlockRun(c, s.(err := Receiving.NoError), b.octets, b.canPut)
  }

  predicate FramesFit(items: seq<Item>, mlen: nat) {
    forall i :: 0 <= i < |items| && items[i].Frame? ==> |items[i].data| <= mlen
  }

  /** What the receiver holds at the end of each frame: the message, and sixteen odd bits. */
  function Ends(complement: bool, frames: seq<seq<octet>>): (s: seq<(seq<octet>, seq<bool>)>)
    ensures |s| == |frames|
  {
    seq(|frames|, i requires 0 <= i < |frames| => (frames[i], CheckBits(complement, MessageCrc(frames[i]))))
  }

  /** Rejected for the check bits alone, or taken, or refused for its length. */
  function Outcome(c: Config, end: (seq<octet>, seq<bool>)): Receiving.Event
    requires Receiving.ConfigOk(c)
  {
    var v := Receiving.Verdict(c, end.0, end.1, true);
    if v == Receiving.NoError then Receiving.Good(end.0) else Receiving.Bad(v, end.0)
  }

  function Outcomes(c: Config, ends: seq<(seq<octet>, seq<bool>)>): (s: seq<Receiving.Event>)
    requires Receiving.ConfigOk(c)
    ensures |s| == |ends|
  {
    seq(|ends|, i requires 0 <= i < |ends| => Outcome(c, ends[i]))
  }

  /** Nothing has been reported but the outcome of each frame. */
  ghost predicate Tally(c: Config, s: Rx)
    requires Receiving.ConfigOk(c)
  {
    s.events == Outcomes(c, s.ends)
  }

  // ---- one sample of the line ----

  /** The conditions under which a sample is its bits hold everywhere on the transmitter's line. */
  lemma {:induction false} SampleOnLine(c: Config, f: Format, items: seq<Item>, p: seq<bool>, x: seq<bool>)
    requires WellFormed(items) && FramesFit(items, c.mlen)
    requires p + x <= LineBits(f, items)
    ensures var d := DelRun(FRESH, p);
            && DelOk(d) && (d.synced ==> NoAbort(d.q, x))
            && DelRun(d, x) == DelRun(FRESH, p + x)
            && |d.acc| <= Receiving.Limit(c) && |DelRun(d, x).acc| <= Receiving.Limit(c)
            && DelRun(d, x).ends == Bodies(f.complement, Delivered(f, items, |p + x|))
            && forall i :: 0 <= i < |DelRun(d, x).ends| ==> |DelRun(d, x).ends[i]| >= 8
  {
    hide LineBits, Frames, Delivered, WellFormed, NoAbort, Tame, DelRun;
    var line, max := LineBits(f, items), 16 + 8 * c.mlen;
    var d, t := DelRun(FRESH, p), line[|p + x|..];
    assert line == (p + x) + t;
    WholeLine(f, items, max);
    TameAppend(FRESH, p + x, t, max);
    TameAppend(FRESH, p, x, max);
    DelAppend(FRESH, p, x);
    DelState(FRESH, p);
    if d.synced { TameNoAbort(d, x, max); }
    assert line[..|p + x|] == p + x;
    PrefixEnds(f, items, |p + x|, max);
    TameEnd(FRESH, p + x, max);
    TameEnd(FRESH, p, max);
  }

  ghost predicate OnLine(c: Config, f: Format, items: seq<Item>, s: Rx, octets: seq<octet>)
    requires Receiving.ConfigOk(c)
  {
    && Receiving.Samples(c.width, octets) <= LineBits(f, items)
    && Receiving.Follows(s, DelRun(FRESH, Receiving.Samples(c.width, octets)))
  }

  lemma OctetOnLine(c: Config, f: Format, items: seq<Item>, s: Rx, octets: seq<octet>, o: octet, canPut: bool)
    requires Receiving.ConfigOk(c) && WellFormed(items) && FramesFit(items, c.mlen)
    requires Receiving.Samples(c.width, octets + [o]) <= LineBits(f, items)
    requires OnLine(c, f, items, s, octets)
    ensures var s' := Receiving.SampleStep(c, s, Receiving.SampleBits(c.width, o), canPut);
            && OnLine(c, f, items, s', octets + [o])
            && (canPut && !c.counting && Tally(c, s) ==> Tally(c, s'))
  {
    var p, x := Receiving.Samples(c.width, octets), Receiving.SampleBits(c.width, o);
    assert (octets + [o])[..|octets|] == octets;
    SampleOnLine(c, f, items, p, x);
    var d := DelRun(FRESH, p);
    Receiving.QuietIsFaithful(c, d, x);
    Receiving.SampleExactly(c, s, d, x, canPut);
    if canPut && !c.counting && Tally(c, s) { StepTallies(c, s, d, x); }
  }

  /** On such a line nothing is reported but the outcome of each frame. */
  lemma StepTallies(c: Config, s: Rx, d: Del, x: seq<bool>)
    requires Receiving.ConfigOk(c) && !c.counting && Receiving.Follows(s, d) && |x| <= 8
    requires d.synced ==> NoAbort(d.q, x)
    requires |DelRun(d, x).acc| <= 16 + 8 * c.mlen
    requires Tally(c, s)
    ensures Tally(c, Receiving.SampleStep(c, s, x, true))
  {
    var e := FeedAll(Begin(d.q), x);
    if s.mode == Receiving.Mof {
      EntryIsBits(d, x);
      FeedQuiet(d.q, x);
      FeedShape(d.q, x);
      if e.flag {
        Receiving.StepEndIs(c, s, x, e, true);
        var rest := if e.sync then s.rest else s.rest + e.out;
        OutcomesSnoc(c, s.ends, (s.octets, rest));
      } else {
        Receiving.MiddleDrain(c, s, d, e);
        var drained := Receiving.Drain(c.mlen, s.octets, s.rest + e.out);
        Receiving.StepMiddleIs(c, s, x, e, true, drained.0, drained.1);
      }
    }
  }

  lemma OutcomesSnoc(c: Config, ends: seq<(seq<octet>, seq<bool>)>, end: (seq<octet>, seq<bool>))
    requires Receiving.ConfigOk(c)
    ensures Outcomes(c, ends + [end]) == Outcomes(c, ends) + [Outcome(c, end)]
  {
  }

  // ---- blocks ----

  lemma {:induction false} SamplesAppend(width: nat, a: seq<octet>, b: seq<octet>)
    requires width <= 8
    ensures Receiving.Samples(width, a + b) == Receiving.Samples(width, a) + Receiving.Samples(width, b)
    decreases |b|
  {
    hide Receiving.SampleBits;
    if |b| == 0 {
      assert a + b == a;
    } else {
      assert (a + b)[..|a + b| - 1] == a + b[..|b| - 1];
      assert (a + b)[|a + b| - 1] == b[|b| - 1];
      SamplesAppend(width, a, b[..|b| - 1]);
    }
  }

  lemma PrefixOf(p: seq<bool>, x: seq<bool>, line: seq<bool>)
    requires p + x <= line
    ensures p <= line
  {
  }

  lemma {:induction false} BlockOnLine(c: Config, f: Format, items: seq<Item>, s: Rx,
                                       done: seq<octet>, octets: seq<octet>, canPut: bool)
    requires Receiving.ConfigOk(c) && WellFormed(items) && FramesFit(items, c.mlen)
    requires Receiving.Samples(c.width, done + octets) <= LineBits(f, items)
    requires OnLine(c, f, items, s, done)
    ensures var s' := Receiving.BlockRun(c, s, octets, canPut);
            && OnLine(c, f, items, s', done + octets)
            && (canPut && !c.counting && Tally(c, s) ==> Tally(c, s'))
    decreases |octets|
  {
    if |octets| == 0 {
      assert done + octets == done;
    } else {
      hide OnLine, LineBits, Tally, WellFormed, FramesFit, Receiving.BlockRun, Receiving.SampleStep,
           Receiving.SampleBits, Receiving.Samples;
      var front, o := octets[..|octets| - 1], octets[|octets| - 1];
      var before := done + front;
      assert done + octets == before + [o];
      SamplesShorter(c.width, before, o, LineBits(f, items));
      BlockOnLine(c, f, items, s, done, front, canPut);
      BlockRunSnoc(c, s, octets, canPut);
      OctetOnLine(c, f, items, Receiving.BlockRun(c, s, front, canPut), before, o, canPut);
    }
  }

  lemma SamplesShorter(width: nat, octets: seq<octet>, o: octet, line: seq<bool>)
    requires width <= 8 && Receiving.Samples(width, octets + [o]) <= line
    ensures Receiving.Samples(width, octets) <= line
  {
    SamplesAppend(width, octets, [o]);
    PrefixOf(Receiving.Samples(width, octets), Receiving.Samples(width, [o]), line);
  }

  lemma BlockRunSnoc(c: Config, s: Rx, octets: seq<octet>, canPut: bool)
    requires Receiving.ConfigOk(c) && s.q < RX_STATES && |octets| > 0
    ensures Receiving.BlockRun(c, s, octets, canPut) ==
            Receiving.SampleStep(c, Receiving.BlockRun(c, s, octets[..|octets| - 1], canPut),
                                 Receiving.SampleBits(c.width, octets[|octets| - 1]), canPut)
  {
  }

  predicate AllCanPut(blocks: seq<Block>) { forall i :: 0 <= i < |blocks| ==> blocks[i].canPut }

  lemma {:induction false} RunOnLine(c: Config, f: Format, items: seq<Item>, blocks: seq<Block>)
    requires Receiving.ConfigOk(c) && WellFormed(items) && FramesFit(items, c.mlen)
    requires Receiving.Samples(c.width, Flat(blocks)) <= LineBits(f, items)
    ensures OnLine(c, f, items, RxRun(c, blocks), Flat(blocks))
    ensures AllCanPut(blocks) && !c.counting ==>
              Tally(c, RxRun(c, blocks))
    decreases |blocks|
  {
    if |blocks| > 0 {
      hide OnLine, LineBits, Tally, WellFormed, FramesFit;
      var front, b := blocks[..|blocks| - 1], blocks[|blocks| - 1];
      var done := Flat(front);
      SamplesAppend(c.width, done, b.octets);
      PrefixOf(Receiving.Samples(c.width, done), Receiving.Samples(c.width, b.octets), LineBits(f, items));
      RunOnLine(c, f, items, front);
      var s := RxRun(c, front).(err := Receiving.NoError);
      BlockOnLine(c, f, items, s, done, b.octets, b.canPut);
    }
  }

  lemma EndIsFrame(end: (seq<octet>, seq<bool>), complement: bool, data: seq<octet>)
    requires Receiving.SameBody(end, Body(complement, data))
    ensures end == (data, CheckBits(complement, MessageCrc(data)))
  {
    var check := CheckBits(complement, MessageCrc(data));
    var body := Spread(data) + check;
    assert body == Spread(end.0) + end.1;
    assert 8 * |end.0| + |end.1| == 8 * |data| + 16;
    assert |end.1| == 16;
    assert Spread(end.0) == body[..8 * |data|] == Spread(data);
    assert end.1 == body[8 * |data|..] == check;
    SpreadInjective(end.0, data);
  }

  /** Framing round trip.  Whatever frames and idle flags the transmitter has put on the line, in
      whatever flag style and sample size, and however its octets are cut into blocks: the receiver
      reaches the end of a frame once for each frame that a flag has followed, in order, holding the
      octets of the message and the sixteen check bits that were sent. */
  lemma {:induction false} FramesReturn(c: Config, f: Format, items: seq<Item>, blocks: seq<Block>)
    requires Receiving.ConfigOk(c) && WellFormed(items) && FramesFit(items, c.mlen)
    requires Receiving.Samples(c.width, Flat(blocks)) <= LineBits(f, items)
    ensures RxRun(c, blocks).ends ==
            Ends(f.complement, Delivered(f, items, c.width * |Flat(blocks)|))
  {
    RunOnLine(c, f, items, blocks);
    var p := Receiving.Samples(c.width, Flat(blocks));
    var frames := Delivered(f, items, |p|);
    SampleOnLine(c, f, items, p, []);
    assert p + [] == p;
    var ends := RxRun(c, blocks).ends;
    assert Receiving.SameBodies(ends, Bodies(f.complement, frames));
    forall i | 0 <= i < |ends|
      ensures ends[i] == Ends(f.complement, frames)[i]
    {
      assert Bodies(f.complement, frames)[i] == Body(f.complement, frames[i]);
      EndIsFrame(ends[i], f.complement, frames[i]);
    }
  }

  // ---- verdicts ----

  predicate Acceptable(c: Config, data: seq<octet>)
    requires Receiving.ConfigOk(c)
  {
    && c.hlen <= |data| <= c.mlen
    && (c.signalling ==> Receiving.Carried(c.hlen, data) == Receiving.Indicated(c.hlen, data))
  }

  /** The receiver's check passes on a transmitted frame exactly when both sides use one convention. */
  lemma {:induction false} CheckVerdict(c: Config, f: Format, data: seq<octet>)
    requires Receiving.ConfigOk(c)
    ensures Outcome(c, (data, CheckBits(f.complement, MessageCrc(data)))) ==
            if c.complement != f.complement then Receiving.Bad(Receiving.CrcError, data)
            else if |data| < c.hlen then Receiving.Bad(Receiving.TooShort, data)
            else if Acceptable(c, data) then Receiving.Good(data)
            else Receiving.Bad(Receiving.Format, data)
  {
    var r := MessageCrc(data);
    if c.complement != f.complement {
      assert CheckBits(c.complement, r)[0] != CheckBits(f.complement, r)[0];
    }
  }

  /** One convention on both sides: every frame of an acceptable length is delivered, and nothing else
      is reported. */
  lemma {:induction false} FramesDelivered(c: Config, f: Format, items: seq<Item>, blocks: seq<Block>)
    requires Receiving.ConfigOk(c) && WellFormed(items) && FramesFit(items, c.mlen)
    requires Receiving.Samples(c.width, Flat(blocks)) <= LineBits(f, items)
    requires AllCanPut(blocks) && !c.counting && c.complement == f.complement
    requires forall i :: 0 <= i < |items| && items[i].Frame? ==> Acceptable(c, items[i].data)
    ensures var frames := Delivered(f, items, c.width * |Flat(blocks)|);
            RxRun(c, blocks).events == seq(|frames|, i requires 0 <= i < |frames| => Receiving.Good(frames[i]))
  {
    var n := c.width * |Flat(blocks)|;
    var frames := Delivered(f, items, n);
    FramesReturn(c, f, items, blocks);
    RunOnLine(c, f, items, blocks);
    forall i | 0 <= i < |frames|
      ensures RxRun(c, blocks).events[i] == Receiving.Good(frames[i])
    {
      DeliveredAreFrames(f, items, n, frames[i]);
      CheckVerdict(c, f, frames[i]);
    }
  }

  /** The conventions as the driver has them, the check sent plain and expected complemented: every
      frame of the transmitter is reported as a check error and none is delivered. */
  lemma {:induction false} NoFrameDelivered(c: Config, f: Format, items: seq<Item>, blocks: seq<Block>)
    requires Receiving.ConfigOk(c) && WellFormed(items) && FramesFit(items, c.mlen)
    requires Receiving.Samples(c.width, Flat(blocks)) <= LineBits(f, items)
    requires AllCanPut(blocks) && !c.counting && c.complement && !f.complement
    ensures var frames := Delivered(f, items, c.width * |Flat(blocks)|);
            RxRun(c, blocks).events ==
            seq(|frames|, i requires 0 <= i < |frames| => Receiving.Bad(Receiving.CrcError, frames[i]))
  {
    var frames := Delivered(f, items, c.width * |Flat(blocks)|);
    FramesReturn(c, f, items, blocks);
    RunOnLine(c, f, items, blocks);
    forall i | 0 <= i < |frames|
      ensures RxRun(c, blocks).events[i] == Receiving.Bad(Receiving.CrcError, frames[i])
    {
      CheckVerdict(c, f, frames[i]);
    }
  }

  lemma {:induction false} FramesAreItems(items: seq<Item>, data: seq<octet>)
    requires data in Frames(items)
    ensures exists i :: 0 <= i < |items| && items[i].Frame? && items[i].data == data
    decreases |items|
  {
    var n := |items| - 1;
    if n >= 0 && data in Frames(items[..n]) {
      FramesAreItems(items[..n], data);
      var i :| 0 <= i < n && items[..n][i].Frame? && items[..n][i].data == data;
      assert items[i].Frame? && items[i].data == data;
    } else {
      assert items[n].Frame? && items[n].data == data;
    }
  }

  lemma {:induction false} DeliveredAreFrames(f: Format, items: seq<Item>, n: nat, data: seq<octet>)
    requires data in Delivered(f, items, n)
    ensures exists i :: 0 <= i < |items| && items[i].Frame? && items[i].data == data
    decreases |items|
  {
    if |items| > 0 {
      var front := items[..|items| - 1];
      if |LineBits(f, front)| + 8 <= n { FramesAreItems(front, data); }
      else { DeliveredAreFrames(f, front, n, data); }
      var i :| 0 <= i < |front| && front[i].Frame? && front[i].data == data;
      assert items[i].Frame? && items[i].data == data;
    }
  }
}
