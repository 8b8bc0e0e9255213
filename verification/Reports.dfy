/** What the receiver makes of frames whatever the line: which it hands up, what the check has to do with it,
    why it reports an error, and how it counts octets. */
module Reports {
  import opened Bits
  import opened Crc
  import opened Deleter
  import opened RxTable
  import opened Receiving
  import opened RoundTrip
  import CrcTable
  import Line
  import Transmitting

  // ---- the verdict and the check ----

  /** The end of a frame that passes every test: sixteen odd bits, which with the octets leave the good remainder,
      a length within the limits, and the length field right where there is one. */
  predicate Sealed(c: Receiving.Config, end: (seq<octet>, seq<bool>))
    requires ConfigOk(c)
  {
    && |end.1| == 16
    && Val(CrcBits(START, Spread(end.0) + end.1)) == (if c.complement then 0xf0b8 else 0)
    && c.hlen <= |end.0| <= c.mlen && (c.signalling ==> LengthTold(c.hlen, end.0))
  }

  lemma PassesIs(complement: bool, octets: seq<octet>, rest: seq<bool>)
    requires |rest| == 16
    ensures Passes(complement, Spread(octets) + rest) <==> rest == CheckBits(complement, MessageCrc(octets))
  {
    var body := Spread(octets) + rest;
    assert body[..|body| - 16] == Spread(octets) && body[|body| - 16..] == rest;
  }

  /** Each verdict by what is wrong with the frame; the first three tests come before the length limits, and
      whether the user can take the frame is asked last. */
  lemma VerdictTells(c: Receiving.Config, octets: seq<octet>, rest: seq<bool>, canPut: bool)
    requires ConfigOk(c)
    ensures var v := Verdict(c, octets, rest, canPut);
            var body, n := Spread(octets) + rest, |octets|;
            && (v == Incomplete <==> |rest| != 16)
            && (v != Incomplete && v != CrcError <==> |rest| == 16 && Passes(c.complement, body))
            && (v == CrcError <==> |rest| == 16 && !Passes(c.complement, body))
            && (v == TooShort <==> |rest| == 16 && Passes(c.complement, body) && n < c.hlen)
            && (v == Format <==> |rest| == 16 && Passes(c.complement, body) && n >= c.hlen &&
                                 (n > c.mlen || (c.signalling && !LengthTold(c.hlen, octets))))
            && (v == Overrun <==> Sealed(c, (octets, rest)) && !canPut)
            && (v == NoError <==> Sealed(c, (octets, rest)) && canPut)
            && v != HdlcAbort
  {
    hide Passes, CheckBits, MessageCrc, CrcBits, Val, Carried, Indicated, LengthTold;
    if |rest| == 16 {
      PassesIs(c.complement, octets, rest);
      CrcTable.PassesIsWord(c.complement, Spread(octets) + rest);
    }
    if c.hlen <= |octets| { LengthTells(c.hlen, octets); }
  }

  /** A transmitted frame received with an error burst of at most sixteen bits is a check error. */
  lemma {:induction false} BurstIsCrcError(c: Receiving.Config, data: seq<octet>, end: (seq<octet>, seq<bool>),
                                           at: nat, width: nat, canPut: bool)
    requires ConfigOk(c) && |end.1| <= 23 && (|end.0| > 0 ==> |end.1| >= 9)
    requires Burst(Line.Body(c.complement, data), Spread(end.0) + end.1, at, width)
    ensures Verdict(c, end.0, end.1, canPut) == CrcError
  {
    hide Passes, MessageCrc, CheckBits;
    var body, sent := Spread(end.0) + end.1, Line.Body(c.complement, data);
    assert |end.1| == 16 by { assert 8 * |end.0| + |end.1| == 8 * |data| + 16; }
    PassesIs(c.complement, data, CheckBits(c.complement, MessageCrc(data)));
    BurstDetected(c.complement, sent, body, at, width);
    VerdictTells(c, end.0, end.1, canPut);
  }

  /** Behind the octets 01 02 03 a receiver that expects the check complemented takes 62fb and no other word. */
  lemma {:induction false} KnownFrame(c: Receiving.Config, rest: seq<bool>, canPut: bool)
    requires ConfigOk(c) && c.complement && |rest| == 16
    ensures Verdict(c, [1, 2, 3], rest, canPut) == CrcError <==> Val(rest) != 0x62fb
  {
    hide MessageCrc, Val, Indicated, Carried;
    var check := CheckBits(true, MessageCrc([1, 2, 3]));
    CrcTable.KnownCheck();
    Transmitting.CheckWords(true, MessageCrc([1, 2, 3]));
    assert Val(check) == 0x62fb;
    if Val(rest) == Val(check) { ValInjective(rest, check); }
  }

  // ---- what is handed up ----

  /** The frames among what is reported. */
  function HandedUp(events: seq<Event>): seq<seq<octet>>
    decreases |events|
  {
    if |events| == 0 then []
    else
      var last := events[|events| - 1];
      HandedUp(events[..|events| - 1]) + (match last case Good(data) => [data] case Bad(_, _) => [])
  }

  /** The frames among what has been ended that pass every test. */
  function SealedOnes(c: Receiving.Config, ends: seq<(seq<octet>, seq<bool>)>): seq<seq<octet>>
    requires ConfigOk(c)
    decreases |ends|
  {
    if |ends| == 0 then []
    else
      var last := ends[|ends| - 1];
      SealedOnes(c, ends[..|ends| - 1]) + (if Sealed(c, last) then [last.0] else [])
  }

  lemma {:induction false} SealedJoined(c: Receiving.Config, a: seq<(seq<octet>, seq<bool>)>,
                                        b: seq<(seq<octet>, seq<bool>)>)
    requires ConfigOk(c)
    ensures SealedOnes(c, a + b) == SealedOnes(c, a) + SealedOnes(c, b)
    decreases |b|
  {
    hide Sealed;
    if |b| == 0 {
      assert a + b == a;
    } else {
      assert (a + b)[..|a + b| - 1] == a + b[..|b| - 1];
      SealedJoined(c, a, b[..|b| - 1]);
    }
  }

  lemma {:induction false} SealedMember(c: Receiving.Config, ends: seq<(seq<octet>, seq<bool>)>, data: seq<octet>)
      returns (i: nat)
    requires ConfigOk(c) && data in SealedOnes(c, ends)
    ensures i < |ends| && ends[i].0 == data && Sealed(c, ends[i])
    decreases |ends|
  {
    hide Sealed;
    var n := |ends| - 1;
    if data in SealedOnes(c, ends[..n]) { i := SealedMember(c, ends[..n], data); } else { i := n; }
  }

  lemma {:induction false} HandedMember(events: seq<Event>, data: seq<octet>)
    ensures Good(data) in events <==> data in HandedUp(events)
    decreases |events|
  {
    if |events| > 0 {
      var n := |events| - 1;
      HandedMember(events[..n], data);
      assert events == events[..n] + [events[n]];
    }
  }

  /** One report more, which is no frame's end: an error, with the cause that is the last one from then on. */
  ghost predicate Fails(s: Rx, s': Rx, data: seq<octet>) {
    s'.ends == s.ends && s'.events == s.events + [Bad(s'.err, data)]
  }

  /** One frame's end more, and what becomes of it. */
  ghost predicate Finishes(c: Receiving.Config, s: Rx, s': Rx, canPut: bool, end: (seq<octet>, seq<bool>))
    requires ConfigOk(c)
  {
    && s'.ends == s.ends + [end]
    && if Sealed(c, end) && canPut then s'.events == s.events + [Good(end.0)] && s'.err == s.err
       else s'.err == Verdict(c, end.0, end.1, canPut) != NoError && s'.events == s.events + [Bad(s'.err, end.0)]
  }

  /** What a sample adds: nothing, or one report. */
  ghost predicate Adds(c: Receiving.Config, s: Rx, s': Rx, canPut: bool)
    requires ConfigOk(c)
  {
    || (s'.ends == s.ends && s'.events == s.events && s'.err == s.err)
    || (exists data :: Fails(s, s', data))
    || (exists end :: Finishes(c, s, s', canPut, end))
  }

  lemma EndFrameFinishes(c: Receiving.Config, s: Rx, e: Sample, canPut: bool)
    requires ConfigOk(c)
    ensures Finishes(c, s, EndFrame(c, s, e, canPut), canPut, (s.octets, s.rest))
  {
    VerdictTells(c, s.octets, s.rest, canPut);
    hide Verdict, Sealed;
  }

  lemma {:induction false} StepAdds(c: Receiving.Config, s: Rx, x: seq<bool>, canPut: bool)
    requires ConfigOk(c) && s.q < RX_STATES
    ensures Adds(c, s, SampleStep(c, s, x, canPut), canPut)
  {
    var e := FeedAll(Begin(s.q), x);
    var s', rest := SampleStep(c, s, x, canPut), if e.sync then s.rest else s.rest + e.out;
    hide FeedAll, Drain, Verdict, Sealed;
    match s.mode {
      case Hunt =>
        if !e.flag && s'.events != s.events { assert Fails(s, s', []); }
      case Sync =>
      case Mof =>
        var d := Drain(c.mlen, s.octets, rest);
        if e.flag {
          EndFrameFinishes(c, s.(q := e.q, rest := rest), e, canPut);
          assert Finishes(c, s, s', canPut, (s.octets, rest));
        } else if e.hunt || e.idle {
          assert Fails(s, s', s.octets);
        } else if d.2 {
          assert Fails(s, s', d.0);
        }
    }
  }

  /** From `s` on: reports and frame ends are only added, and the frames handed up are those among the ends that
      pass every test, if the user can take them, and none if not. */
  ghost predicate Hands(c: Receiving.Config, s: Rx, s': Rx, canPut: bool)
    requires ConfigOk(c)
  {
    && s.ends <= s'.ends && s.events <= s'.events
    && HandedUp(s'.events) == HandedUp(s.events) + (if canPut then SealedOnes(c, s'.ends[|s.ends|..]) else [])
  }

  lemma HandedSnoc(events: seq<Event>, e: Event)
    ensures HandedUp(events + [e]) == HandedUp(events) + (match e case Good(data) => [data] case Bad(_, _) => [])
  {
    assert (events + [e])[..|events|] == events;
  }

  lemma SealedOne(c: Receiving.Config, end: (seq<octet>, seq<bool>))
    requires ConfigOk(c)
    ensures SealedOnes(c, [end]) == if Sealed(c, end) then [end.0] else []
  {
    assert SealedOnes(c, [end][..0]) == [];
  }

  lemma AddsHands(c: Receiving.Config, s: Rx, s': Rx, canPut: bool)
    requires ConfigOk(c) && Adds(c, s, s', canPut)
    ensures Hands(c, s, s', canPut)
  {
    assert SealedOnes(c, []) == [];
    hide Sealed, Verdict, HandedUp;
    if s'.events == s.events {
      assert s'.ends == s.ends && s'.ends[|s.ends|..] == [];
    } else if data :| Fails(s, s', data) {
      HandedSnoc(s.events, Bad(s'.err, data));
      assert s'.ends[|s.ends|..] == [];
    } else {
      var end :| Finishes(c, s, s', canPut, end);
      SealedOne(c, end);
      assert s'.ends[|s.ends|..] == [end];
      HandedSnoc(s.events, s'.events[|s.events|]);
    }
  }

  lemma HandsAgain(c: Receiving.Config, s: Rx, t: Rx, u: Rx, canPut: bool)
    requires ConfigOk(c) && Hands(c, s, t, canPut) && Hands(c, t, u, canPut)
    ensures Hands(c, s, u, canPut)
  {
    hide SealedOnes, HandedUp;
    assert u.ends[|s.ends|..] == t.ends[|s.ends|..] + u.ends[|t.ends|..];
    SealedJoined(c, t.ends[|s.ends|..], u.ends[|t.ends|..]);
  }

  lemma {:induction false} BlockHands(c: Receiving.Config, s: Rx, octets: seq<octet>, canPut: bool)
    requires ConfigOk(c) && s.q < RX_STATES
    ensures Hands(c, s, BlockRun(c, s, octets, canPut), canPut)
    decreases |octets|
  {
    if |octets| == 0 {
      AddsHands(c, s, s, canPut);
    } else {
      hide Hands, Adds, SampleStep;
      var front, x := octets[..|octets| - 1], SampleBits(c.width, octets[|octets| - 1]);
      var t := BlockRun(c, s, front, canPut);
      BlockHands(c, s, front, canPut);
      StepAdds(c, t, x, canPut);
      AddsHands(c, t, SampleStep(c, t, x, canPut), canPut);
      HandsAgain(c, s, t, SampleStep(c, t, x, canPut), canPut);
    }
  }

  /** The frame ends of a run that pass every test, but for those in blocks that the user could not take. */
  function TakenUp(c: Receiving.Config, blocks: seq<Block>): seq<seq<octet>>
    requires ConfigOk(c)
    decreases |blocks|
  {
    if |blocks| == 0 then []
    else
      var front := blocks[..|blocks| - 1];
      var before, after := RxRun(c, front).ends, RxRun(c, blocks).ends;
      TakenUp(c, front) +
        (if blocks[|blocks| - 1].canPut && |before| <= |after| then SealedOnes(c, after[|before|..]) else [])
  }

  /** Over any line, in any blocks: the frames handed up are exactly the frames ended that pass every test, in
      order, in the blocks that the user could take. */
  lemma {:induction false} HandedUpExactly(c: Receiving.Config, blocks: seq<Block>)
    requires ConfigOk(c)
    ensures HandedUp(RxRun(c, blocks).events) == TakenUp(c, blocks)
    ensures forall data :: data in TakenUp(c, blocks) ==> data in SealedOnes(c, RxRun(c, blocks).ends)
    ensures AllCanPut(blocks) ==> TakenUp(c, blocks) == SealedOnes(c, RxRun(c, blocks).ends)
    decreases |blocks|
  {
    if |blocks| > 0 {
      hide Sealed, BlockRun, SealedOnes, HandedUp;
      var front, b := blocks[..|blocks| - 1], blocks[|blocks| - 1];
      HandedUpExactly(c, front);
      var s, s' := RxRun(c, front), RxRun(c, blocks);
      BlockHands(c, s.(err := NoError), b.octets, b.canPut);
      assert s'.ends == s.ends + s'.ends[|s.ends|..];
      SealedJoined(c, s.ends, s'.ends[|s.ends|..]);
    } else {
      assert SealedOnes(c, []) == [] && HandedUp([]) == [];
    }
  }

  /** Whatever is on the line: a frame handed up is what was collected of one whose octets and sixteen last bits
      leave the good remainder, whose length is within the limits and whose length field is right; and what was
      collected is no transmitted frame with an error burst of at most sixteen bits in it. */
  lemma {:induction false} GoodIsSealed(c: Receiving.Config, blocks: seq<Block>, data: seq<octet>)
      returns (i: nat)
    requires ConfigOk(c) && Good(data) in RxRun(c, blocks).events
    ensures i < |RxRun(c, blocks).ends|
    ensures var end := RxRun(c, blocks).ends[i];
            && end.0 == data && Sealed(c, end)
            && forall sent, at, width :: !Burst(Line.Body(c.complement, sent), Spread(end.0) + end.1, at, width)
  {
    hide Sealed, RxRun, Burst;
    HandedMember(RxRun(c, blocks).events, data);
    HandedUpExactly(c, blocks);
    i := SealedMember(c, RxRun(c, blocks).ends, data);
    var end := RxRun(c, blocks).ends[i];
    SealedPasses(c, end);
    forall sent, at, width
      ensures !Burst(Line.Body(c.complement, sent), Spread(end.0) + end.1, at, width)
    {
      if Burst(Line.Body(c.complement, sent), Spread(end.0) + end.1, at, width) {
        BodyPasses(c.complement, sent);
        BurstDetected(c.complement, Line.Body(c.complement, sent), Spread(end.0) + end.1, at, width);
      }
    }
  }

  lemma SealedPasses(c: Receiving.Config, end: (seq<octet>, seq<bool>))
    requires ConfigOk(c) && Sealed(c, end)
    ensures |end.1| == 16 && Passes(c.complement, Spread(end.0) + end.1)
  {
    CrcTable.PassesIsWord(c.complement, Spread(end.0) + end.1);
  }

  lemma BodyPasses(complement: bool, data: seq<octet>)
    ensures Passes(complement, Line.Body(complement, data))
  {
    PassesIs(complement, data, CheckBits(complement, MessageCrc(data)));
  }

  // ---- the cause reported while hunting ----

  /** The cause of the last error reported. */
  function LastCause(events: seq<Event>): Cause
    decreases |events|
  {
    if |events| == 0 then NoError
    else match events[|events| - 1] case Bad(cause, _) => cause case Good(_) => LastCause(events[..|events| - 1])
  }

  lemma LastSnoc(events: seq<Event>, e: Event)
    ensures LastCause(events + [e]) == match e case Bad(cause, _) => cause case Good(_) => LastCause(events)
  {
    assert (events + [e])[..|events|] == events;
  }

  lemma ErrStep(c: Receiving.Config, t: Rx, u: Rx, canPut: bool, n: nat)
    requires ConfigOk(c) && Adds(c, t, u, canPut) && n <= |t.events| && t.err == LastCause(t.events[n..])
    ensures t.events <= u.events && u.err == LastCause(u.events[n..])
  {
    hide LastCause, Verdict, Sealed;
    if u.events != t.events {
      var e := u.events[|t.events|];
      assert u.events == t.events + [e] && u.events[n..] == t.events[n..] + [e];
      LastSnoc(t.events[n..], e);
    }
  }

  /** Within a block the cause kept is that of the last error reported in it. */
  lemma {:induction false} ErrIsLast(c: Receiving.Config, s: Rx, octets: seq<octet>, canPut: bool)
    requires ConfigOk(c) && s.q < RX_STATES && s.err == NoError
    ensures var s' := BlockRun(c, s, octets, canPut);
            s.events <= s'.events && s'.err == LastCause(s'.events[|s.events|..])
    decreases |octets|
  {
    if |octets| == 0 {
      assert s.events[|s.events|..] == [];
    } else {
      hide SampleStep, LastCause, Adds;
      var front, x := octets[..|octets| - 1], SampleBits(c.width, octets[|octets| - 1]);
      var t := BlockRun(c, s, front, canPut);
      ErrIsLast(c, s, front, canPut);
      StepAdds(c, t, x, canPut);
      ErrStep(c, t, SampleStep(c, t, x, canPut), canPut, |s.events|);
    }
  }

  // ---- counting octets ----

  /** Hunting all along. */
  predicate HuntsAlong(c: Receiving.Config, s: Rx, octets: seq<octet>, canPut: bool)
    requires ConfigOk(c) && s.q < RX_STATES
    decreases |octets|
  {
    && BlockRun(c, s, octets, canPut).mode == Hunt
    && (|octets| > 0 ==> HuntsAlong(c, s, octets[..|octets| - 1], canPut))
  }

  lemma OneCounted(n: nat, d: nat)
    requires d > 0
    ensures if n % d + 1 >= d then (n + 1) / d == n / d + 1 && (n + 1) % d == 0 && n % d + 1 == d
            else (n + 1) / d == n / d && (n + 1) % d == n % d + 1
  {
    var q, r := n / d, n % d;
    assert n == q * d + r;
    if r + 1 >= d {
      assert (q + 1) * d == q * d + d;
      DivModUnique(n + 1, d, q + 1, 0);
    } else {
      DivModUnique(n + 1, d, q, r + 1);
    }
  }

  ghost predicate Counted(c: Receiving.Config, s: Rx, s': Rx, n: nat)
    requires ConfigOk(c)
  {
    && s'.ends == s.ends && s'.err == s.err
    && s'.hunted == (if c.counting then n % c.count else s.hunted)
    && s'.events == s.events + Same(if c.counting then n / c.count else 0, Bad(s.err, []))
  }

  /** Hunting, with octet counting on: one error for every `count` octets, with the cause of the last one and no
      octets, and the rest carried over; with counting off, nothing. */
  lemma {:induction false} OctetsCounted(c: Receiving.Config, s: Rx, octets: seq<octet>, canPut: bool)
    requires ConfigOk(c) && s.q < RX_STATES && HuntsAlong(c, s, octets, canPut) && s.hunted < c.count
    ensures Counted(c, s, BlockRun(c, s, octets, canPut), s.hunted + |octets|)
    decreases |octets|
  {
    if |octets| == 0 {
      DivModUnique(s.hunted, c.count, 0, s.hunted);
      assert s.events + [] == s.events;
    } else {
      hide SampleStep;
      var front, x := octets[..|octets| - 1], SampleBits(c.width, octets[|octets| - 1]);
      var t := BlockRun(c, s, front, canPut);
      OctetsCounted(c, s, front, canPut);
      HuntStays(c, t, x, canPut);
      hide BlockRun, HuntsAlong;
      CountStep(s.hunted + |front|, c.count, Bad(s.err, []), s.events);
    }
  }

  lemma CountStep(n: nat, d: nat, e: Event, events: seq<Event>)
    requires d > 0
    ensures if n % d + 1 >= d
            then (n + 1) % d == n % d + 1 - d && events + Same(n / d, e) + [e] == events + Same((n + 1) / d, e)
            else (n + 1) % d == n % d + 1 && (n + 1) / d == n / d
  {
    OneCounted(n, d);
    SameSnoc(n / d, e);
  }

  lemma HuntStays(c: Receiving.Config, s: Rx, x: seq<bool>, canPut: bool)
    requires ConfigOk(c) && s.q < RX_STATES && s.mode == Hunt && SampleStep(c, s, x, canPut).mode == Hunt
    ensures var s' := SampleStep(c, s, x, canPut);
            && s'.ends == s.ends && s'.err == s.err
            && if !c.counting then s'.hunted == s.hunted && s'.events == s.events
               else if s.hunted + 1 >= c.count then
                 s'.hunted == s.hunted + 1 - c.count && s'.events == s.events + [Bad(s.err, [])]
               else s'.hunted == s.hunted + 1 && s'.events == s.events
  {
    hide FeedAll;
  }

  /** The count begins when hunting does. */
  lemma {:induction false} CountBegins(c: Receiving.Config, s: Rx, x: seq<bool>, canPut: bool)
    requires ConfigOk(c) && s.q < RX_STATES && s.mode != Hunt && SampleStep(c, s, x, canPut).mode == Hunt
    ensures SampleStep(c, s, x, canPut).hunted == 0
  {
    hide FeedAll, Drain, Verdict;
  }

  function Same(n: nat, e: Event): (s: seq<Event>)
    ensures |s| == n && forall i :: 0 <= i < n ==> s[i] == e
  {
    seq(n, _ => e)
  }

  lemma SameSnoc(n: nat, e: Event)
    ensures Same(n, e) + [e] == Same(n + 1, e)
  {
  }
}
