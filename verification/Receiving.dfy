/** The receiver one sample at a time: what each sample does to the frame being collected, and when
    that is the same as following the line bit by bit. */
module Receiving {
  import opened Bits
  import opened Crc
  import opened Stuffing
  import opened Deleter
  import opened RxTable

  /** `hlen`, `mlen` bound the octets of a frame; `count` is the octet-counting interval. */
  datatype Config = Config(width: nat, hlen: nat, mlen: nat, count: nat,
                           signalling: bool, counting: bool, compression: bool, complement: bool)

  const FASTBUF := 64

  predicate ConfigOk(c: Config) {
    (c.width == 7 || c.width == 8) && 1 <= c.hlen <= FASTBUF && c.count >= 1
  }

  datatype Mode = Hunt | Sync | Mof

  datatype Cause = NoError | Format | Overrun | HdlcAbort | TooShort | CrcError | Incomplete

  datatype Event = Good(data: seq<octet>) | Bad(cause: Cause, data: seq<octet>)

  /** `octets` and `rest`: the octets and the odd bits of the frame being collected; `hunted`: octets
      counted while hunting; `err`: the last error in this block; `ends`: what was collected each time
      the end of a frame was reached; `events`: what was made of it. */
  datatype Rx = Rx(q: nat, mode: Mode, octets: seq<octet>, rest: seq<bool>, hunted: nat, err: Cause,
                   ends: seq<(seq<octet>, seq<bool>)>, events: seq<Event>)

  const START_RX := Rx(0, Hunt, [], [], 0, NoError, [], [])

  function TakeOctet(rest: seq<bool>): octet
    requires |rest| >= 8
  {
    OctetVal(rest[..8]);
    Val(rest[..8])
  }

  /** Move whole octets out while more than sixteen bits are held; stop when the frame is too long. */
  function Drain(mlen: nat, octets: seq<octet>, rest: seq<bool>): (r: (seq<octet>, seq<bool>, bool))
    decreases |rest|
  {
    if |rest| <= 16 then (octets, rest, false)
    else
      var more := octets + [TakeOctet(rest)];
      if |more| > mlen then (more, rest[8..], true) else Drain(mlen, more, rest[8..])
  }

  /** The length indicator of a signalling unit: six bits, or nine in the long form. */
  function Indicated(hlen: nat, data: seq<octet>): nat
    requires 1 <= hlen <= |data|
  {
    var low: nat := data[hlen - 1];
    if hlen > 3 then
      var high: nat := data[hlen - 2];
      (high * 256 + low) % 512
    else low % 64
  }

  function Carried(hlen: nat, data: seq<octet>): nat
    requires hlen <= |data|
  {
    if hlen > 3 || |data| - hlen < 63 then |data| - hlen else 63
  }

  /** The length field of a signalling unit: in its short form the low six bits of the octet before the rest,
      with 63 for all from 63 on; in its long form that octet below the lowest bit of the one before it. */
  predicate LengthTold(hlen: nat, data: seq<octet>)
    requires 1 <= hlen <= |data|
  {
    var n, low: int := |data| - hlen, data[hlen - 1];
    if hlen > 3 then n == 256 * (data[hlen - 2] as int % 2) + low
    else low % 64 == (if n < 63 then n else 63)
  }

  lemma LengthTells(hlen: nat, data: seq<octet>)
    requires 1 <= hlen <= |data|
    ensures Carried(hlen, data) == Indicated(hlen, data) <==> LengthTold(hlen, data)
  {
    if hlen > 3 { LongForm(data[hlen - 2], data[hlen - 1]); }
  }

  lemma LongForm(high: octet, low: octet)
    ensures (high as int * 256 + low as int) % 512 == 256 * (high as int % 2) + low as int
  {
  }

  /** Units of the short form with 5 octets and with 70, and of the long form with 300. */
  lemma LengthsRead(short: seq<octet>, long: seq<octet>, longer: seq<octet>)
    requires |short| == 5 && |long| == 70 && |longer| == 300
    ensures Indicated(3, [0, 0, 5] + short) == 5 == Carried(3, [0, 0, 5] + short)
    ensures Indicated(3, [0, 0, 255] + long) == 63 == Carried(3, [0, 0, 255] + long)
    ensures Indicated(6, [0, 0, 0, 0, 253, 44] + longer) == 300 == Carried(6, [0, 0, 0, 0, 253, 44] + longer)
  {
    LongForm(253, 44);
  }

  function Verdict(c: Config, octets: seq<octet>, rest: seq<bool>, canPut: bool): Cause
    requires ConfigOk(c)
  {
    if |rest| != 16 then Incomplete
    else if rest != CheckBits(c.complement, MessageCrc(octets)) then CrcError
    else if |octets| < c.hlen then TooShort
    else if |octets| > c.mlen then Format
    else if c.signalling && Carried(c.hlen, octets) != Indicated(c.hlen, octets) then Format
    else if !canPut then Overrun
    else NoError
  }

  function BeginFrame(s: Rx, e: Sample): Rx {
    if e.out == [] then s else s.(mode := Mof, octets := [], rest := e.out)
  }

  function NewFrame(s: Rx, e: Sample): Rx {
    var s' := s.(mode := Sync, octets := [], rest := [], hunted := 0);
    if e.sync then BeginFrame(s', e) else s'
  }

  function Abandon(s: Rx, cause: Cause, octets: seq<octet>): Rx {
    s.(mode := Hunt, octets := [], rest := [], hunted := 0, err := cause,
       events := s.events + [Bad(cause, octets)])
  }

  function EndFrame(c: Config, s: Rx, e: Sample, canPut: bool): Rx
    requires ConfigOk(c)
  {
    var v := Verdict(c, s.octets, s.rest, canPut);
    var s' := s.(ends := s.ends + [(s.octets, s.rest)],
                 err := if v == NoError then s.err else v,
                 events := s.events + [if v == NoError then Good(s.octets) else Bad(v, s.octets)]);
    NewFrame(s', e)
  }

  function Hunting(c: Config, s: Rx): Rx {
    if !c.counting then s
    else if s.hunted + 1 >= c.count then
      s.(hunted := s.hunted + 1 - c.count, events := s.events + [Bad(s.err, [])])
    else s.(hunted := s.hunted + 1)
  }

  function SampleStep(c: Config, s: Rx, x: seq<bool>, canPut: bool): (s': Rx)
    requires ConfigOk(c) && s.q < RX_STATES
    ensures s'.q < RX_STATES
  {
    var e := FeedAll(Begin(s.q), x);
    var s1 := s.(q := e.q);
    match s.mode
    case Hunt =>
      if e.flag then NewFrame(s1, e) else Hunting(c, s1)
    case Sync =>
      if e.hunt || e.idle then s1.(mode := Hunt, hunted := 0) else BeginFrame(s1, e)
    case Mof =>
      var s2 := if e.sync then s1 else s1.(rest := s1.rest + e.out);
      if e.flag then EndFrame(c, s2, e, canPut)
      else if e.hunt || e.idle then Abandon(s2, HdlcAbort, s2.octets)
      else
        var (octets, rest, long) := Drain(c.mlen, s2.octets, s2.rest);
        if long then Abandon(s2, Format, octets) else s2.(octets := octets, rest := rest)
  }

  /** The bits of a sample in the order they arrived: the octet is reversed on the line. */
  function SampleBits(width: nat, o: octet): (x: seq<bool>)
    requires width <= 8
    ensures |x| == width
  {
    Reverse(OctetBits(o))[..width]
  }

  /** The octet's highest bit comes first. */
  lemma SampleBitAt(width: nat, o: octet, i: nat)
    requires i < width <= 8
    ensures SampleBits(width, o)[i] <==> HasBit(o, 7 - i)
  {
    hide HasBit;
    ReverseAt(OctetBits(o), i);
    DigitsAt(o, 8, 7 - i);
  }

  function Samples(width: nat, octets: seq<octet>): (s: seq<bool>)
    requires width <= 8
    ensures |s| == width * |octets|
    decreases |octets|
  {
    if |octets| == 0 then []
    else Samples(width, octets[..|octets| - 1]) + SampleBits(width, octets[|octets| - 1])
  }

  function BlockRun(c: Config, s: Rx, octets: seq<octet>, canPut: bool): (s': Rx)
    requires ConfigOk(c) && s.q < RX_STATES
    ensures s'.q < RX_STATES
    decreases |octets|
  {
    if |octets| == 0 then s
    else SampleStep(c, BlockRun(c, s, octets[..|octets| - 1], canPut),
                    SampleBits(c.width, octets[|octets| - 1]), canPut)
  }

  // ---- samples against bits ----

  ghost predicate SameBody(end: (seq<octet>, seq<bool>), body: seq<bool>) {
    && body == Spread(end.0) + end.1
    && |end.1| <= 23 && (|end.0| > 0 ==> |end.1| >= 9)
  }

  ghost predicate SameBodies(ends: seq<(seq<octet>, seq<bool>)>, bodies: seq<seq<bool>>) {
    |ends| == |bodies| && forall i :: 0 <= i < |ends| ==> SameBody(ends[i], bodies[i])
  }

  /** The receiver stands where the bit-by-bit machine stands. */
  ghost predicate Follows(s: Rx, d: Del) {
    && DelOk(d) && s.q == d.q
    && (s.mode == Hunt <==> !d.synced)
    && (s.mode == Sync <==> d.synced && d.acc == [])
    && (s.mode == Mof ==> d.acc == Spread(s.octets) + s.rest && |s.rest| <= 16)
    && (s.mode == Mof && |s.octets| > 0 ==> |s.rest| >= 9)
    && SameBodies(s.ends, d.ends)
  }

  lemma {:induction false} DrainKeeps(mlen: nat, octets: seq<octet>, rest: seq<bool>)
    requires 8 * |octets| + |rest| <= 16 + 8 * mlen
    requires |octets| > 0 ==> |rest| >= 9
    ensures var (o, r, long) := Drain(mlen, octets, rest);
            && !long && Spread(o) + r == Spread(octets) + rest
            && |r| <= 16 && (|o| > 0 ==> |r| >= 9)
    decreases |rest|
  {
    if |rest| > 16 {
      var b := TakeOctet(rest);
      OctetVal(rest[..8]);
      SpreadAppend(octets, [b]);
      SpreadOne(b);
      DrainKeeps(mlen, octets + [b], rest[8..]);
      assert Spread(octets) + rest[..8] + rest[8..] == Spread(octets) + rest;
    }
  }

  lemma FlaggedOutput(q: nat, x: seq<bool>)
    requires q < RX_STATES && |x| <= 8
    requires var e := FeedAll(Begin(q), x); e.flag && !e.sync
    ensures |FeedAll(Begin(q), x).out| <= 7
  {
    var n := |x| - 1;
    var e := FeedAll(Begin(q), x[..n]);
    FeedShape(q, x[..n]);
    if n > 0 { OutputWeight(q, x[..n]); }
  }

  lemma SameBodiesSnoc(ends: seq<(seq<octet>, seq<bool>)>, bodies: seq<seq<bool>>,
                       end: (seq<octet>, seq<bool>), body: seq<bool>)
    requires SameBodies(ends, bodies) && SameBody(end, body)
    ensures SameBodies(ends + [end], bodies + [body])
  {
  }

  lemma NewFrameFollows(s: Rx, e: Sample, ends: seq<seq<bool>>)
    requires SameBodies(s.ends, ends) && s.q == e.q < RX_STATES
    requires e.flag && |e.out| <= 12
    ensures Follows(NewFrame(s, e), Del(e.q, true, if e.sync then e.out else [], ends))
  {
    assert Spread([]) + e.out == e.out;
  }

  lemma {:induction false} StepHunt(c: Config, s: Rx, d: Del, x: seq<bool>, e: Sample, canPut: bool)
    requires ConfigOk(c) && Follows(s, d) && |x| <= 8 && s.mode == Hunt
    requires e == FeedAll(Begin(d.q), x) && Shape(e, |x|)
    ensures Follows(SampleStep(c, s, x, canPut), DelEntry(d, e))
  {
    hide FeedAll, SameBodies, Spread, Drain, Verdict;
    OutputBound(d.q, x);
    if e.flag { NewFrameFollows(s.(q := e.q), e, d.ends); }
  }

  lemma StepSync(c: Config, s: Rx, d: Del, x: seq<bool>, e: Sample, canPut: bool)
    requires ConfigOk(c) && Follows(s, d) && |x| <= 8 && s.mode == Sync
    requires e == FeedAll(Begin(d.q), x) && Shape(e, |x|) && !e.hunt && !e.idle
    requires !(e.flag && !e.sync && e.out != [])
    ensures Follows(SampleStep(c, s, x, canPut), DelEntry(d, e))
  {
    assert Spread([]) + e.out == e.out;
    hide FeedAll, SameBodies, Spread, Drain, Verdict;
    OutputBound(d.q, x);
    assert [] + e.out == e.out;
  }

  lemma {:induction false} StepEnd(c: Config, s: Rx, d: Del, x: seq<bool>, e: Sample, canPut: bool)
    requires ConfigOk(c) && Follows(s, d) && |x| <= 8 && s.mode == Mof
    requires e == FeedAll(Begin(d.q), x) && Shape(e, |x|) && e.flag
    ensures Follows(SampleStep(c, s, x, canPut), DelEntry(d, e))
  {
    var rest := if e.sync then s.rest else s.rest + e.out;
    var body := if e.sync then d.acc else d.acc + e.out;
    StepEndIs(c, s, x, e, canPut);
    if !e.sync { FlaggedOutput(d.q, x); }
    StepEndBody(s, d, e);
    OutputBound(d.q, x);
    SameBodiesSnoc(s.ends, d.ends, (s.octets, rest), body);
    EndFrameFollows(c, s.(q := e.q, rest := rest), e, canPut, d.ends + [body]);
  }

  lemma StepEndIs(c: Config, s: Rx, x: seq<bool>, e: Sample, canPut: bool)
    requires ConfigOk(c) && s.mode == Mof && s.q < RX_STATES
    requires e == FeedAll(Begin(s.q), x) && e.flag
    ensures SampleStep(c, s, x, canPut) ==
            EndFrame(c, s.(q := e.q, rest := if e.sync then s.rest else s.rest + e.out), e, canPut)
  {
  }

  lemma StepEndBody(s: Rx, d: Del, e: Sample)
    requires Follows(s, d) && s.mode == Mof && e.flag
    requires !e.sync ==> |e.out| <= 7
    ensures var rest := if e.sync then s.rest else s.rest + e.out;
            var body := if e.sync then d.acc else d.acc + e.out;
            SameBody((s.octets, rest), body) &&
            DelEntry(d, e) == Del(e.q, true, if e.sync then e.out else [], d.ends + [body])
  {
    if !e.sync {
      assert Spread(s.octets) + s.rest + e.out == Spread(s.octets) + (s.rest + e.out);
    }
  }

  lemma EndFrameFollows(c: Config, s: Rx, e: Sample, canPut: bool, ends: seq<seq<bool>>)
    requires ConfigOk(c) && s.q == e.q < RX_STATES && e.flag && |e.out| <= 12
    requires SameBodies(s.ends + [(s.octets, s.rest)], ends)
    ensures Follows(EndFrame(c, s, e, canPut), Del(e.q, true, if e.sync then e.out else [], ends))
  {
    var v := Verdict(c, s.octets, s.rest, canPut);
    var s' := s.(ends := s.ends + [(s.octets, s.rest)],
                 err := if v == NoError then s.err else v,
                 events := s.events + [if v == NoError then Good(s.octets) else Bad(v, s.octets)]);
    NewFrameFollows(s', e, ends);
  }

  lemma {:induction false} StepMiddle(c: Config, s: Rx, d: Del, x: seq<bool>, e: Sample, canPut: bool)
    requires ConfigOk(c) && Follows(s, d) && |x| <= 8 && s.mode == Mof
    requires e == FeedAll(Begin(d.q), x) && Shape(e, |x|) && !e.flag && !e.hunt && !e.idle
    requires |DelEntry(d, e).acc| <= 16 + 8 * c.mlen
    ensures Follows(SampleStep(c, s, x, canPut), DelEntry(d, e))
  {
    var drained := Drain(c.mlen, s.octets, s.rest + e.out);
    MiddleDrain(c, s, d, e);
    StepMiddleIs(c, s, x, e, canPut, drained.0, drained.1);
  }

  lemma MiddleDrain(c: Config, s: Rx, d: Del, e: Sample)
    requires Follows(s, d) && s.mode == Mof && !e.flag && e.q < RX_STATES
    requires |DelEntry(d, e).acc| <= 16 + 8 * c.mlen
    ensures var (o, r, long) := Drain(c.mlen, s.octets, s.rest + e.out);
            !long && Follows(s.(q := e.q, octets := o, rest := r), DelEntry(d, e))
  {
    var rest := s.rest + e.out;
    assert d.acc + e.out == Spread(s.octets) + rest;
    DrainKeeps(c.mlen, s.octets, rest);
    var (o, r, long) := Drain(c.mlen, s.octets, rest);
    MiddleFollows(s.(q := e.q, octets := o, rest := r), DelEntry(d, e));
  }

  lemma StepMiddleIs(c: Config, s: Rx, x: seq<bool>, e: Sample, canPut: bool, o: seq<octet>, r: seq<bool>)
    requires ConfigOk(c) && s.mode == Mof && s.q < RX_STATES
    requires e == FeedAll(Begin(s.q), x) && !e.flag && !e.hunt && !e.idle && !e.sync
    requires Drain(c.mlen, s.octets, s.rest + e.out) == (o, r, false)
    ensures SampleStep(c, s, x, canPut) == s.(q := e.q, octets := o, rest := r)
  {
  }

  lemma MiddleFollows(s: Rx, d: Del)
    requires s.mode == Mof && d.synced && d.acc != [] && s.q == d.q < RX_STATES
    requires d.acc == Spread(s.octets) + s.rest && |s.rest| <= 16
    requires |s.octets| > 0 ==> |s.rest| >= 9
    requires SameBodies(s.ends, d.ends)
    ensures Follows(s, d)
  {
  }

  /** A body held back from before the sample and closed inside it has at most seven bits. */
  lemma RuntIsShort(d: Del, x: seq<bool>)
    requires DelOk(d) && |x| <= 8 && d.synced && d.acc == []
    requires var e := FeedAll(Begin(d.q), x); e.flag && !e.sync && e.out != []
    ensures var ends := DelEntry(d, FeedAll(Begin(d.q), x)).ends;
            |ends| == |d.ends| + 1 && |ends[|d.ends|]| <= 7
  {
    FlaggedOutput(d.q, x);
    ClosedAtOnce(d, FeedAll(Begin(d.q), x));
  }

  lemma ClosedAtOnce(d: Del, e: Sample)
    requires d.synced && d.acc == [] && e.flag && !e.sync && 0 < |e.out| <= 7
    ensures DelEntry(d, e).ends == d.ends + [e.out]
  {
    assert d.acc + e.out == e.out;
  }

  // ---- exactly when a sample is its bits ----

  /** The most bits that a frame being collected may have without being called too long. */
  function Limit(c: Config): nat { 16 + 8 * c.mlen }

  /** A flag closes, inside the sample, bits that were held back from before it. */
  predicate Runt(q: nat, x: seq<bool>)
    requires q < RX_STATES
  {
    var e := FeedAll(Begin(q), x);
    e.flag && !e.sync && e.out != []
  }

  /** The samples that the code reads as their bits.  Hunting: all.  Between frames: all but those that make
      a runt.  In a frame: all but those with both a flag and an abort; and those with neither when the frame
      grows too long. */
  predicate Faithful(c: Config, d: Del, x: seq<bool>)
    requires d.q < RX_STATES
  {
    || !d.synced
    || (d.acc == [] && !Runt(d.q, x))
    || (d.acc != [] && (NoFlag(d.q, x) || NoAbort(d.q, x))
        && (NoFlag(d.q, x) && NoAbort(d.q, x) ==> |DelRun(d, x).acc| <= Limit(c)))
  }

  /** A frame beyond the limit is called too long with its first octets, one more than the limit. */
  lemma {:induction false} DrainLong(mlen: nat, octets: seq<octet>, rest: seq<bool>)
    requires 8 * |octets| + |rest| > 16 + 8 * mlen && |octets| <= mlen
    ensures var (o, r, long) := Drain(mlen, octets, rest);
            long && |o| == mlen + 1 && Spread(o) + r == Spread(octets) + rest
    decreases |rest|
  {
    var b := TakeOctet(rest);
    OctetVal(rest[..8]);
    SpreadAppend(octets, [b]);
    SpreadOne(b);
    assert Spread(octets) + rest[..8] + rest[8..] == Spread(octets) + rest;
    if |octets| + 1 <= mlen { DrainLong(mlen, octets + [b], rest[8..]); }
  }

  /** One sample in a frame. */
  lemma {:induction false} MofExactly(c: Config, s: Rx, d: Del, x: seq<bool>, canPut: bool)
    requires ConfigOk(c) && Follows(s, d) && |x| <= 8 && s.mode == Mof && |d.acc| <= Limit(c)
    ensures Follows(SampleStep(c, s, x, canPut), DelRun(d, x)) <==> Faithful(c, d, x)
  {
    var e := FeedAll(Begin(d.q), x);
    EntryTells(d, x);
    if NoAbort(d.q, x) {
      if e.flag { StepEnd(c, s, d, x, e, canPut); }
      else if |DelRun(d, x).acc| <= Limit(c) { StepMiddle(c, s, d, x, e, canPut); }
      else { StepLong(c, s, d, x, e, canPut); }
    } else {
      StepAbort(c, s, d, x, e, canPut);
    }
  }

  lemma StepLong(c: Config, s: Rx, d: Del, x: seq<bool>, e: Sample, canPut: bool)
    requires ConfigOk(c) && Follows(s, d) && |x| <= 8 && s.mode == Mof && |d.acc| <= Limit(c)
    requires e == FeedAll(Begin(d.q), x) && !e.sync && !e.flag && !e.hunt && !e.idle
    requires |d.acc + e.out| > Limit(c)
    ensures var s' := SampleStep(c, s, x, canPut);
            && s'.mode == Hunt && s'.ends == s.ends && |s'.events| == |s.events| + 1
            && s'.events[..|s.events|] == s.events && s'.events[|s.events|].Bad?
            && s'.events[|s.events|].cause == Format && |s'.events[|s.events|].data| == c.mlen + 1
            && Spread(s'.events[|s.events|].data) <= d.acc + e.out
  {
    var d' := Drain(c.mlen, s.octets, s.rest + e.out);
    assert d.acc + e.out == Spread(s.octets) + (s.rest + e.out);
    DrainLong(c.mlen, s.octets, s.rest + e.out);
    assert SampleStep(c, s, x, canPut).events == s.events + [Bad(Format, d'.0)];
  }

  /** An abort in a frame: without a flag the frame is given up, as on the line; with a flag before or after
      it, one frame too few or too many is ended. */
  lemma StepAbort(c: Config, s: Rx, d: Del, x: seq<bool>, e: Sample, canPut: bool)
    requires ConfigOk(c) && Follows(s, d) && |x| <= 8 && s.mode == Mof
    requires e == FeedAll(Begin(d.q), x) && !NoAbort(d.q, x)
    requires Tells(d, e, DelRun(d, x), |x|, false, NoFlag(d.q, x))
    ensures Follows(SampleStep(c, s, x, canPut), DelRun(d, x)) <==> NoFlag(d.q, x)
    ensures NoFlag(d.q, x) ==>
              SampleStep(c, s, x, canPut) ==
              Abandon(s.(q := e.q, rest := s.rest + e.out), HdlcAbort, s.octets)
    ensures NoFlag(d.q, x) ==> SampleStep(c, s, x, canPut).events == s.events + [Bad(HdlcAbort, s.octets)]
  {
    hide FeedAll, NoFlag, NoAbort, DelRun, SameBody, Drain, Verdict, Spread;
    var s' := SampleStep(c, s, x, canPut);
    if e.flag {
      assert |s'.ends| == |s.ends| + 1;
    } else {
      assert s'.ends == s.ends && s'.mode == Hunt;
    }
  }

  /** One sample between frames. */
  lemma {:induction false} SyncExactly(c: Config, s: Rx, d: Del, x: seq<bool>, canPut: bool)
    requires ConfigOk(c) && Follows(s, d) && |x| <= 8 && s.mode == Sync
    ensures Follows(SampleStep(c, s, x, canPut), DelRun(d, x)) <==> !Runt(d.q, x)
  {
    var e := FeedAll(Begin(d.q), x);
    EntryTells(d, x);
    OutputBound(d.q, x);
    if NoAbort(d.q, x) {
      if !Runt(d.q, x) { StepSync(c, s, d, x, e, canPut); }
    } else {
      assert Spread([]) + e.out == e.out;
    }
  }

  /** A sample is its bits exactly when it is one of the faithful ones, whatever is on the line. */
  lemma {:induction false} SampleExactly(c: Config, s: Rx, d: Del, x: seq<bool>, canPut: bool)
    requires ConfigOk(c) && Follows(s, d) && |x| <= 8 && |d.acc| <= Limit(c)
    ensures Follows(SampleStep(c, s, x, canPut), DelRun(d, x)) <==> Faithful(c, d, x)
    ensures Faithful(c, d, x) ==> |DelRun(d, x).acc| <= Limit(c)
  {
    hide Follows, SampleStep, DelRun, FeedAll, Runt, Tells;
    FollowsMode(s, d);
    BoundKept(c, d, x);
    match s.mode {
      case Hunt => HuntExactly(c, s, d, x, canPut);
      case Sync => SyncExactly(c, s, d, x, canPut);
      case Mof => MofExactly(c, s, d, x, canPut);
    }
  }

  lemma FollowsMode(s: Rx, d: Del)
    requires Follows(s, d)
    ensures DelOk(d) && (s.mode == Hunt <==> !d.synced) && (s.mode == Sync <==> d.synced && d.acc == [])
  {
  }

  lemma {:induction false} HuntExactly(c: Config, s: Rx, d: Del, x: seq<bool>, canPut: bool)
    requires ConfigOk(c) && Follows(s, d) && |x| <= 8 && s.mode == Hunt
    ensures Follows(SampleStep(c, s, x, canPut), DelRun(d, x))
  {
    FeedShape(d.q, x);
    HuntingEntryIsBits(d, x);
    StepHunt(c, s, d, x, FeedAll(Begin(d.q), x), canPut);
  }

  lemma {:induction false} BoundKept(c: Config, d: Del, x: seq<bool>)
    requires DelOk(d) && |x| <= 8 && |d.acc| <= Limit(c)
    ensures Faithful(c, d, x) ==> |DelRun(d, x).acc| <= Limit(c)
  {
    OutputBound(d.q, x);
    if d.synced { EntryTells(d, x); } else { HuntingEntryIsBits(d, x); }
  }

  /** On a line with no seven ones, a frame in the limit and no closed body shorter than eight bits, every
      sample is faithful. */
  lemma {:induction false} QuietIsFaithful(c: Config, d: Del, x: seq<bool>)
    requires DelOk(d) && |x| <= 8 && (d.synced ==> NoAbort(d.q, x)) && |DelRun(d, x).acc| <= Limit(c)
    requires forall i :: |d.ends| <= i < |DelRun(d, x).ends| ==> |DelRun(d, x).ends[i]| >= 8
    ensures Faithful(c, d, x)
  {
    if d.synced && d.acc == [] && Runt(d.q, x) {
      EntryIsBits(d, x);
      RuntIsShort(d, x);
    }
  }

  lemma {:induction false} FeedOnes(e: Sample, k: nat)
    requires e.q == 1 && !e.flag && k <= 6
    ensures FeedAll(e, Repeat(true, k)) == e.(q := 1 + k)
    decreases k
  {
    if k > 0 {
      FeedOnes(e, k - 1);
      RepeatSnoc(k - 1);
      assert Repeat(true, k)[..k - 1] == Repeat(true, k - 1);
      assert e.out + [] == e.out;
    }
  }

  lemma {:induction false} FeedJoined(e: Sample, s: seq<bool>, t: seq<bool>)
    requires e.q < RX_STATES
    ensures FeedAll(e, s + t) == FeedAll(FeedAll(e, s), t)
    decreases |t|
  {
    if |t| == 0 {
      assert s + t == s;
    } else {
      assert (s + t)[..|s + t| - 1] == s + t[..|t| - 1];
      FeedJoined(e, s, t[..|t| - 1]);
    }
  }

  lemma FeedBit(e: Sample, b: bool)
    requires e.q < RX_STATES
    ensures FeedAll(e, [b]) == Feed(e, b)
  {
    assert [b][..0] == [];
    assert FeedAll(e, []) == e;
  }

  lemma FlagAfterTwo()
    ensures FeedAll(Begin(2), FLAG) == Sample(0, [false, true], false, false, true, false)
  {
    var e := Begin(2);
    assert Pending(2) == [false, true] by { assert Repeat(true, 1) == [true]; }
    var e1 := Sample(1, [false, true], false, false, false, false);
    assert [] + [false, true] == [false, true];
    assert Feed(e, false) == e1;
    assert Feed(e1.(q := 7), false) == Sample(0, [false, true], false, false, true, false);
    assert FLAG == [false] + Repeat(true, 6) + [false];
    hide *;
    FeedBit(e, false);
    FeedOnes(e1, 6);
    FeedBit(e1.(q := 7), false);
    FeedJoined(e, [false], Repeat(true, 6));
    FeedJoined(e, [false] + Repeat(true, 6), [false]);
  }

  /** Such a sample exists: two bits held back, then the eight bits of a flag. */
  lemma {:induction false} RuntMisread(c: Config, s: Rx, canPut: bool)
    requires ConfigOk(c) && s.mode == Sync && s.q == 2
    ensures var s' := SampleStep(c, s, FLAG, canPut); s'.mode == Mof && s'.rest == [false, true]
  {
    FlagAfterTwo();
    hide FeedAll, Drain, Verdict;
  }

  /** A flag followed in the same sample by seven ones is lost: the frame it closed is thrown away as
      aborted instead of being taken. */
  lemma {:induction false} FlagThenOnesLost(c: Config, s: Rx, canPut: bool)
    requires ConfigOk(c) && s.mode == Mof && s.q == 7
    ensures SampleStep(c, s, [false] + Repeat(true, 7), canPut).events ==
            s.events + [Bad(HdlcAbort, s.octets)]
    ensures SampleStep(c, s, [false] + Repeat(true, 7), canPut).ends == s.ends
    ensures !NoAbort(s.q, [false] + Repeat(true, 7))
  {
    var e := Begin(7);
    var e0 := Sample(0, [], false, false, true, false);
    FeedBit(e, false);
    FeedFreshOnes(e0, 7);
    FeedJoined(e, [false], Repeat(true, 7));
    StateAppend(7, [false], Repeat(true, 7));
    NoAbortIsShortRuns(0, Repeat(true, 7));
    assert [false][..0] == [];
    assert StateAfter(7, []) == 7;
    SevenOnes(0, 7);
  }

  lemma {:induction false} SevenOnes(ones: nat, k: nat)
    requires ones + k == 7 && k > 0
    ensures !RunsAtMost(6, ones, Repeat(true, k))
    decreases k
  {
    SevenOnesStep(k);
    if ones < 6 { SevenOnes(ones + 1, k - 1); }
  }

  lemma SevenOnesStep(k: nat)
    requires k > 0
    ensures Repeat(true, k)[1..] == Repeat(true, k - 1)
  {
  }

  /** Ones straight after a flag: up to six are held, the seventh is an abort. */
  lemma {:induction false} FeedFreshOnes(e: Sample, k: nat)
    requires e == Sample(0, [], false, false, true, false) && k <= 7
    ensures FeedAll(e, Repeat(true, k)) ==
            if k == 0 then e
            else if k <= 6 then Sample(7 + k, [], true, false, true, false)
            else Sample(12, [], false, true, false, true)
    decreases k
  {
    if k > 0 {
      FeedFreshOnes(e, k - 1);
      RepeatSnoc(k - 1);
      assert Repeat(true, k)[..k - 1] == Repeat(true, k - 1);
    }
  }
}
