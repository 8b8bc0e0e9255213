/** The receiver on any line: exactly when it follows the line, and what it hands up whatever it is given. */
module AnyLine {
  import opened Bits
  import opened Stuffing
  import opened Deleter
  import opened Receiving
  import opened RoundTrip
  import Line
  import Holding
  import Sequences
  import RxEngine
  import CrcTable
  import RxTable

  /** Every sample is one that the code reads as its bits. */
  predicate AllFaithful(c: Receiving.Config, d: Del, octets: seq<octet>)
    requires ConfigOk(c) && d.q < RX_STATES
    decreases |octets|
  {
    |octets| == 0 ||
    (var front := octets[..|octets| - 1];
     && AllFaithful(c, d, front)
     && Faithful(c, DelRun(d, Samples(c.width, front)), SampleBits(c.width, octets[|octets| - 1])))
  }

  lemma {:induction false} FaithfulJoined(c: Receiving.Config, d: Del, a: seq<octet>, b: seq<octet>)
    requires ConfigOk(c) && d.q < RX_STATES
    ensures AllFaithful(c, d, a + b) <==>
            AllFaithful(c, d, a) && AllFaithful(c, DelRun(d, Samples(c.width, a)), b)
    ensures DelRun(d, Samples(c.width, a + b)) == DelRun(DelRun(d, Samples(c.width, a)), Samples(c.width, b))
    decreases |b|
  {
    hide Samples, SampleBits, DelRun, Faithful;
    SamplesAppend(c.width, a, b);
    DelAppend(d, Samples(c.width, a), Samples(c.width, b));
    if |b| == 0 {
      assert a + b == a;
    } else {
      var front := b[..|b| - 1];
      assert (a + b)[..|a + b| - 1] == a + front && (a + b)[|a + b| - 1] == b[|b| - 1];
      FaithfulJoined(c, d, a, front);
    }
  }

  /** The receiver stands where the bit machine stands after every octet. */
  ghost predicate FollowsAlong(c: Receiving.Config, s: Receiving.Rx, d: Del, octets: seq<octet>, canPut: bool)
    requires ConfigOk(c) && s.q < RX_STATES && d.q < RX_STATES
  {
    forall k :: 0 <= k <= |octets| ==>
      Follows(BlockRun(c, s, octets[..k], canPut), DelRun(d, Samples(c.width, octets[..k])))
  }

  lemma OneOctetMore(c: Receiving.Config, s: Receiving.Rx, d: Del, octets: seq<octet>, canPut: bool)
    requires ConfigOk(c) && s.q < RX_STATES && d.q < RX_STATES && |octets| > 0
    ensures var front, x := octets[..|octets| - 1], SampleBits(c.width, octets[|octets| - 1]);
            && (FollowsAlong(c, s, d, octets, canPut) <==>
                  FollowsAlong(c, s, d, front, canPut)
                  && Follows(BlockRun(c, s, octets, canPut), DelRun(d, Samples(c.width, octets))))
            && BlockRun(c, s, octets, canPut) == SampleStep(c, BlockRun(c, s, front, canPut), x, canPut)
            && DelRun(d, Samples(c.width, octets)) == DelRun(DelRun(d, Samples(c.width, front)), x)
  {
    hide Follows, DelRun, SampleStep, SampleBits;
    var n := |octets| - 1;
    var front := octets[..n];
    assert octets[..|octets|] == octets;
    assert forall k :: 0 <= k <= n ==> front[..k] == octets[..k];
    DelAppend(d, Samples(c.width, front), SampleBits(c.width, octets[n]));
    if FollowsAlong(c, s, d, octets, canPut) {
      forall k | 0 <= k <= n
        ensures Follows(BlockRun(c, s, front[..k], canPut), DelRun(d, Samples(c.width, front[..k])))
      {
        assert Follows(BlockRun(c, s, octets[..k], canPut), DelRun(d, Samples(c.width, octets[..k])));
      }
      assert Follows(BlockRun(c, s, octets[..n + 1], canPut), DelRun(d, Samples(c.width, octets[..n + 1])));
    }
    if FollowsAlong(c, s, d, front, canPut)
       && Follows(BlockRun(c, s, octets, canPut), DelRun(d, Samples(c.width, octets))) {
      forall k | 0 <= k <= |octets|
        ensures Follows(BlockRun(c, s, octets[..k], canPut), DelRun(d, Samples(c.width, octets[..k])))
      {
        if k <= n {
          assert Follows(BlockRun(c, s, front[..k], canPut), DelRun(d, Samples(c.width, front[..k])));
        }
      }
    }
  }

  /** Over any octets the receiver follows the line all along if and only if every sample is faithful. */
  lemma {:induction false} BlockExactly(c: Receiving.Config, s: Receiving.Rx, d: Del, octets: seq<octet>, canPut: bool)
    requires ConfigOk(c) && Follows(s, d) && |d.acc| <= Limit(c)
    ensures FollowsAlong(c, s, d, octets, canPut) <==> AllFaithful(c, d, octets)
    ensures AllFaithful(c, d, octets) ==> |DelRun(d, Samples(c.width, octets)).acc| <= Limit(c)
    ensures AllFaithful(c, d, octets) ==>
              Follows(BlockRun(c, s, octets, canPut), DelRun(d, Samples(c.width, octets)))
    decreases |octets|
  {
    assert Samples(c.width, []) == [] && DelRun(d, []) == d;
    hide Follows, DelRun, SampleStep, SampleBits, Faithful, Samples;
    if |octets| == 0 {
      assert octets == [] && octets[..0] == [];
    } else {
      var front, x := octets[..|octets| - 1], SampleBits(c.width, octets[|octets| - 1]);
      OneOctetMore(c, s, d, octets, canPut);
      BlockExactly(c, s, d, front, canPut);
      if AllFaithful(c, d, front) {
        SampleExactly(c, BlockRun(c, s, front, canPut), DelRun(d, Samples(c.width, front)), x, canPut);
      }
    }
  }

  // ---- runs of blocks ----

  function Heard(c: Receiving.Config, blocks: seq<Block>): seq<bool>
    requires ConfigOk(c)
  {
    Samples(c.width, Flat(blocks))
  }

  /** The receiver follows the line all along, through every block. */
  ghost predicate RunFollows(c: Receiving.Config, blocks: seq<Block>)
    requires ConfigOk(c)
    decreases |blocks|
  {
    |blocks| == 0 ||
    (var front, b := blocks[..|blocks| - 1], blocks[|blocks| - 1];
     && RunFollows(c, front)
     && FollowsAlong(c, RxRun(c, front).(err := NoError), DelRun(Line.FRESH, Heard(c, front)), b.octets, b.canPut))
  }

  /** A fresh receiver given any blocks: it follows the line all along if and only if every sample is
      faithful; and then it stands where the bit machine stands. */
  lemma {:induction false} RunExactly(c: Receiving.Config, blocks: seq<Block>)
    requires ConfigOk(c)
    ensures RunFollows(c, blocks) <==> AllFaithful(c, Line.FRESH, Flat(blocks))
    ensures AllFaithful(c, Line.FRESH, Flat(blocks)) ==>
              Follows(RxRun(c, blocks), DelRun(Line.FRESH, Heard(c, blocks)))
              && |DelRun(Line.FRESH, Heard(c, blocks)).acc| <= Limit(c)
    decreases |blocks|
  {
    if |blocks| > 0 {
      hide FollowsAlong, AllFaithful, DelRun, Samples, BlockRun;
      var front, b := blocks[..|blocks| - 1], blocks[|blocks| - 1];
      var s, d := RxRun(c, front).(err := NoError), DelRun(Line.FRESH, Heard(c, front));
      RunExactly(c, front);
      FaithfulJoined(c, Line.FRESH, Flat(front), b.octets);
      if AllFaithful(c, Line.FRESH, Flat(front)) {
        BlockExactly(c, s, d, b.octets, b.canPut);
      }
    }
  }

  const START_REF := Ref(0, false, false, [], [])

  /** And when no flag is forged either, the bodies received are those that counting ones finds. */
  lemma {:induction false} LineIsRead(c: Receiving.Config, blocks: seq<Block>)
    requires ConfigOk(c) && AllFaithful(c, Line.FRESH, Flat(blocks)) && NoForgedFlag(0, Heard(c, blocks))
    ensures SameBodies(RxRun(c, blocks).ends, RefRun(START_REF, Heard(c, blocks)).ends)
    ensures (RxRun(c, blocks).mode == Hunt) == !RefRun(START_REF, Heard(c, blocks)).synced
  {
    var line := Heard(c, blocks);
    RunExactly(c, blocks);
    StatesCountOnes(Line.FRESH, START_REF, line);
    assert line[..|line|] == line;
  }

  /** The receive engine, fresh, given any blocks: it is the sample machine; what it has sent up, expanded,
      and the copies it holds are what that machine reports; and it has given no buffer away twice if and
      only if none of those reports gives one away again. */
  method Listen(c: Receiving.Config, blocks: seq<Block>) returns (rx: RxEngine.Receiver)
    requires ConfigOk(c)
    ensures rx.Valid() && rx.Abs() == RxRun(c, blocks)
    ensures Holding.Expand(rx.up) + Holding.HeldCopies(rx.Kept()) == RxRun(c, blocks).events
    ensures Sequences.NoTwice(rx.given) <==> Holding.NeverAgain(c, RxRun(c, blocks).events)
  {
    hide CrcTable.Complete, RxTable.Complete, BlockRun, RxEngine.Receiver.Valid;
    var bc := CrcTable.BcTableGenerate();
    var table := RxTable.RxTableGenerate(c.width);
    rx := new RxEngine.Receiver(c, bc, table);
    var i := 0;
    assert blocks[..0] == [];
    while i < |blocks|
      invariant 0 <= i <= |blocks| && fresh(rx) && rx.Ready() && rx.Valid() && rx.config == c
      invariant rx.Abs() == RxRun(c, blocks[..i])
    {
      assert blocks[..i + 1][..i] == blocks[..i];
      rx.RxBlock(blocks[i].octets, blocks[i].canPut);
      i := i + 1;
    }
    assert blocks[..i] == blocks;
    rx.Dues();
  }
}
