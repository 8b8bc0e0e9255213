/** A receiver that is out of step with the line: what brings it back, and what it then receives. */
module Resync {
  import opened Bits
  import opened Stuffing
  import opened Deleter
  import opened RxTable
  import opened Receiving
  import opened RoundTrip
  import opened Line
  import opened LineRun
  import opened AnyLine

  /** The receiver stands where the bit machine stands, apart from what has been received. */
  ghost predicate Stands(s: Receiving.Rx, d: Del) { Follows(s.(ends := []), d.(ends := [])) }

  lemma {:induction false} EntryAlone(q: nat, x: seq<bool>)
    requires q < RX_STATES && |x| <= 8 && !(NoFlag(q, x) && NoAbort(q, x))
    ensures var e := FeedAll(Begin(q), x);
            && e.q < RX_STATES && |e.out| <= 12
            && (e.flag ==> !e.hunt && !e.idle) && (!e.flag ==> e.hunt)
  {
    EntryTells(Del(q, true, [], []), x);
    OutputBound(q, x);
  }

  /** A sample with a flag or an abort leaves the bit machine where its entry says, whatever was open. */
  lemma {:induction false} EntryDecides(d: Del, x: seq<bool>)
    requires DelOk(d) && |x| <= 8 && !(NoFlag(d.q, x) && NoAbort(d.q, x))
    ensures var e, d' := FeedAll(Begin(d.q), x), DelRun(d, x);
            && d'.q == e.q && d'.synced == e.flag
            && d'.acc == if e.flag && e.sync then e.out else []
  {
    if d.synced {
      EntryTells(d, x);
    } else {
      EntryTells(Del(d.q, true, [], []), x);
      HuntingEntryIsBits(d, x);
    }
  }

  /** Where such a sample leaves the receiver. */
  lemma StepDecides(c: Receiving.Config, s: Receiving.Rx, x: seq<bool>, canPut: bool)
    requires ConfigOk(c) && s.q < RX_STATES && |x| <= 8 && !(s.mode == Sync && Runt(s.q, x))
    requires var e := FeedAll(Begin(s.q), x); (e.flag ==> !e.hunt && !e.idle) && (!e.flag ==> e.hunt)
    ensures var e, s' := FeedAll(Begin(s.q), x), SampleStep(c, s, x, canPut);
            var open := if e.flag && e.sync then e.out else [];
            && s'.q == e.q
            && s'.mode == (if !e.flag then Hunt else if open == [] then Sync else Mof)
            && (s'.mode == Mof ==> s'.octets == [] && s'.rest == open)
  {
    hide FeedAll, Verdict, Drain;
  }

  /** Whatever the receiver holds, in whatever mode: a sample with a flag or an abort in it brings it in step,
      unless it is between frames and the sample makes a runt. */
  lemma {:induction false} Regains(c: Receiving.Config, s: Receiving.Rx, d: Del, x: seq<bool>, canPut: bool)
    requires ConfigOk(c) && DelOk(d) && s.q == d.q && |x| <= 8
    requires !(NoFlag(d.q, x) && NoAbort(d.q, x)) && !(s.mode == Sync && Runt(d.q, x))
    ensures Stands(SampleStep(c, s, x, canPut), DelRun(d, x))
  {
    EntryAlone(d.q, x);
    EntryDecides(d, x);
    StepDecides(c, s, x, canPut);
    DelState(d, x);
    hide *;
    var e, d' := FeedAll(Begin(d.q), x), DelRun(d, x);
    StandsIf(SampleStep(c, s, x, canPut), d', d'.acc);
  }

  lemma StandsIf(s: Receiving.Rx, d: Del, open: seq<bool>)
    requires s.q == d.q && DelOk(d) && d.acc == open && |open| <= 12
    requires s.mode == if !d.synced then Hunt else if open == [] then Sync else Mof
    requires s.mode == Mof ==> s.octets == [] && s.rest == open
    ensures Stands(s, d)
  {
    assert Spread([]) + open == open;
  }

  /** The state of the table is the same for both, in step or not. */
  lemma {:induction false} StatesTrack(c: Receiving.Config, s: Receiving.Rx, d: Del, x: seq<bool>, canPut: bool)
    requires ConfigOk(c) && DelOk(d) && s.q == d.q && |x| <= 8
    ensures SampleStep(c, s, x, canPut).q == DelRun(d, x).q && DelOk(DelRun(d, x))
  {
    FeedShape(d.q, x);
    DelState(d, x);
    hide FeedAll, DelRun, StateAfter, Verdict, Drain;
  }

  // ---- what was received before ----

  lemma {:induction false} DelEnds(d: Del, x: seq<bool>)
    requires d.q < RX_STATES
    ensures DelRun(d, x) == DelRun(d.(ends := []), x).(ends := d.ends + DelRun(d.(ends := []), x).ends)
    decreases |x|
  {
    if |x| == 0 {
      assert d.ends + [] == d.ends;
    } else {
      DelEnds(d, x[..|x| - 1]);
    }
  }

  lemma EndFrameEnds(c: Receiving.Config, s: Receiving.Rx, e: Sample, canPut: bool)
    requires ConfigOk(c)
    ensures var t := EndFrame(c, s.(ends := []), e, canPut);
            EndFrame(c, s, e, canPut) == t.(ends := s.ends + t.ends)
  {
    hide Verdict;
    assert [] + [(s.octets, s.rest)] == [(s.octets, s.rest)];
  }

  lemma StepEnds(c: Receiving.Config, s: Receiving.Rx, x: seq<bool>, canPut: bool)
    requires ConfigOk(c) && s.q < RX_STATES
    ensures var t := SampleStep(c, s.(ends := []), x, canPut);
            SampleStep(c, s, x, canPut) == t.(ends := s.ends + t.ends)
  {
    var e, s0 := FeedAll(Begin(s.q), x), s.(ends := []);
    assert s.ends + [] == s.ends;
    if s.mode == Mof && e.flag {
      StepEndIs(c, s, x, e, canPut);
      StepEndIs(c, s0, x, e, canPut);
      hide *;
      EndFrameEnds(c, s.(q := e.q, rest := if e.sync then s.rest else s.rest + e.out), e, canPut);
    } else {
      hide FeedAll, Drain, EndFrame;
    }
  }

  /** In step, with the ends from the `m`-th and the bodies from the `n`-th the same. */
  ghost predicate InStep(s: Receiving.Rx, d: Del, m: nat, n: nat) {
    && m <= |s.ends| && n <= |d.ends|
    && Follows(s.(ends := s.ends[m..]), d.(ends := d.ends[n..]))
  }

  lemma FromHere(s: Receiving.Rx, d: Del)
    requires Stands(s, d)
    ensures InStep(s, d, |s.ends|, |d.ends|)
  {
  }

  lemma FaithfulEnds(c: Receiving.Config, d: Del, ends: seq<seq<bool>>, x: seq<bool>)
    requires d.q < RX_STATES
    ensures Faithful(c, d.(ends := ends), x) == Faithful(c, d, x)
    ensures DelRun(d.(ends := ends), x).acc == DelRun(d, x).acc
  {
    DelEnds(d, x);
    DelEnds(d.(ends := ends), x);
  }

  lemma InStepOk(s: Receiving.Rx, d: Del, m: nat, n: nat)
    requires InStep(s, d, m, n)
    ensures m <= |s.ends| && n <= |d.ends| && DelOk(d) && s.q == d.q < RX_STATES
  {
  }

  /** Faithful samples keep it in step. */
  lemma {:induction false} StaysInStep(c: Receiving.Config, s: Receiving.Rx, d: Del, x: seq<bool>, canPut: bool,
                                       m: nat, n: nat)
    requires ConfigOk(c) && InStep(s, d, m, n) && |x| <= 8 && |d.acc| <= Limit(c) && Faithful(c, d, x)
    ensures InStep(SampleStep(c, s, x, canPut), DelRun(d, x), m, n) && |DelRun(d, x).acc| <= Limit(c)
  {
    hide Follows, SampleStep, DelRun, Faithful;
    InStepOk(s, d, m, n);
    var s0, d0 := s.(ends := s.ends[m..]), d.(ends := d.ends[n..]);
    FaithfulEnds(c, d, d.ends[n..], x);
    SampleExactly(c, s0, d0, x, canPut);
    StepEnds(c, s, x, canPut);
    StepEnds(c, s0, x, canPut);
    DelEnds(d, x);
    DelEnds(d0, x);
    var e, b := SampleStep(c, s.(ends := []), x, canPut).ends, DelRun(d.(ends := []), x).ends;
    assert (s.ends + e)[m..] == s.ends[m..] + e;
    assert (d.ends + b)[n..] == d.ends[n..] + b;
  }

  // ---- the transmitter's line after something else ----

  lemma {:induction false} OnesHold(d: Del, k: nat)
    requires d.q <= 1 && k <= 6
    ensures DelRun(d, Repeat(true, k)) == d.(q := if k == 0 then d.q else if d.q == 0 then 7 + k else 1 + k)
    decreases k
  {
    if k > 0 {
      OnesHold(d, k - 1);
      RepeatSnoc(k - 1);
      assert Repeat(true, k)[..k - 1] == Repeat(true, k - 1);
      assert d.acc + [] == d.acc;
    }
  }

  /** A whole flag is found from every state. */
  lemma {:induction false} AnyFlag(d: Del)
    requires DelOk(d)
    ensures var d' := DelRun(d, FLAG); d' == Del(0, true, [], d'.ends)
    ensures d.ends == [] && !d.synced ==> DelRun(d, FLAG).ends == []
    ensures StateAfter(d.q, FLAG[..7]) == 7 || StateAfter(d.q, FLAG[..7]) == 13
  {
    var d1 := DelStep(d, false);
    DelOne(d, false);
    OnesHold(d1, 6);
    var d2 := DelRun(d1, Repeat(true, 6));
    DelAppend(d, [false], Repeat(true, 6));
    DelAppend(d, [false] + Repeat(true, 6), [false]);
    DelOne(d2, false);
    assert FLAG == [false] + Repeat(true, 6) + [false] && FLAG[..7] == [false] + Repeat(true, 6);
    DelState(d, FLAG[..7]);
  }

  /** After a flag only what was received before it is left of what came before. */
  lemma AfterFlag(d: Del, t: seq<bool>)
    requires DelOk(d)
    ensures var g := DelRun(FRESH, FLAG + t);
            DelRun(d, FLAG + t) == g.(ends := DelRun(d, FLAG).ends + g.ends)
  {
    AnyFlag(d);
    AnyFlag(FRESH);
    DelAppend(d, FLAG, t);
    DelAppend(FRESH, FLAG, t);
    DelEnds(DelRun(d, FLAG), t);
  }

  lemma {:induction false} LineStarts(f: Format, items: seq<Item>)
    requires |items| > 0 && !items[0].Mark?
    ensures |LineBits(f, items)| >= 8 && LineBits(f, items)[..8] == FLAG
    decreases |items|
  {
    var front := items[..|items| - 1];
    if |front| == 0 {
      ItemHead(f, items[0]);
      assert LineBits(f, front) == [] && LineBits(f, items) == ItemBits(f, items[0]);
    } else {
      LineStarts(f, front);
    }
  }

  /** One sample of the line is faithful, wherever the line has come to. */
  lemma {:induction false} LineIsFaithful(c: Receiving.Config, f: Format, items: seq<Item>, p: seq<bool>, x: seq<bool>)
    requires ConfigOk(c) && WellFormed(items) && FramesFit(items, c.mlen) && |x| <= 8
    requires p + x <= LineBits(f, items)
    ensures Faithful(c, DelRun(FRESH, p), x) && |DelRun(FRESH, p).acc| <= Limit(c)
    ensures DelRun(FRESH, p + x) == DelRun(DelRun(FRESH, p), x)
    ensures DelRun(FRESH, p + x).ends == Bodies(f.complement, Delivered(f, items, |p + x|))
  {
    SampleOnLine(c, f, items, p, x);
    QuietIsFaithful(c, DelRun(FRESH, p), x);
  }

  /** The machine that has heard something else before the line, beside the one that has not: the same but for
      what was received before. */
  ghost predicate Beside(h: Del, g: Del, before: seq<seq<bool>>) { h == g.(ends := before + g.ends) }

  lemma {:induction false} OneSampleMore(c: Receiving.Config, f: Format, items: seq<Item>, s: Receiving.Rx, h: Del,
                                         p: seq<bool>, x: seq<bool>, canPut: bool, m: nat, before: seq<seq<bool>>)
    requires ConfigOk(c) && WellFormed(items) && FramesFit(items, c.mlen) && |x| <= 8
    requires p + x <= LineBits(f, items)
    requires InStep(s, h, m, |before|) && Beside(h, DelRun(FRESH, p), before)
    ensures var s' := SampleStep(c, s, x, canPut);
            && InStep(s', DelRun(h, x), m, |before|) && Beside(DelRun(h, x), DelRun(FRESH, p + x), before)
            && s'.ends[..m] == s.ends[..m]
  {
    var g := DelRun(FRESH, p);
    LineIsFaithful(c, f, items, p, x);
    hide *;
    InStepOk(s, h, m, |before|);
    DelState(FRESH, p);
    BesideFaithful(c, h, g, before, x);
    StaysInStep(c, s, h, x, canPut, m, |before|);
    InStepOk(SampleStep(c, s, x, canPut), DelRun(h, x), m, |before|);
    StepEnds(c, s, x, canPut);
    PrefixKept(s.ends, SampleStep(c, s.(ends := []), x, canPut).ends, m);
  }

  lemma PrefixKept<T>(a: seq<T>, b: seq<T>, m: nat)
    requires m <= |a|
    ensures (a + b)[..m] == a[..m]
  {
  }

  lemma BesideFaithful(c: Receiving.Config, h: Del, g: Del, before: seq<seq<bool>>, x: seq<bool>)
    requires Beside(h, g, before) && g.q < RX_STATES && Faithful(c, g, x) && |g.acc| <= Limit(c)
    ensures h.q < RX_STATES && Faithful(c, h, x) && |h.acc| <= Limit(c) && Beside(DelRun(h, x), DelRun(g, x), before)
  {
    hide DelRun, Faithful, Limit;
    FaithfulEnds(c, g, h.ends, x);
    assert g.(ends := h.ends) == h;
    BesideRun(h, g, before, x);
  }

  lemma BesideRun(h: Del, g: Del, before: seq<seq<bool>>, x: seq<bool>)
    requires Beside(h, g, before) && g.q < RX_STATES
    ensures Beside(DelRun(h, x), DelRun(g, x), before)
  {
    hide DelRun;
    DelEnds(g, x);
    DelEnds(h, x);
    assert h.(ends := []) == g.(ends := []);
    var e := DelRun(g.(ends := []), x).ends;
    assert before + g.ends + e == before + (g.ends + e);
  }

  lemma BlockRunMore(c: Receiving.Config, s: Receiving.Rx, front: seq<octet>, o: octet, canPut: bool)
    requires ConfigOk(c) && s.q < RX_STATES
    ensures BlockRun(c, s, front + [o], canPut) ==
            SampleStep(c, BlockRun(c, s, front, canPut), SampleBits(c.width, o), canPut)
  {
    assert (front + [o])[..|front|] == front;
  }

  lemma SamplesSnoc(width: nat, a: seq<octet>, o: octet)
    requires width <= 8
    ensures Samples(width, a + [o]) == Samples(width, a) + SampleBits(width, o)
  {
    assert (a + [o])[..|a|] == a;
  }

  lemma NothingMore(c: Receiving.Config, s: Receiving.Rx, h: Del, canPut: bool)
    requires ConfigOk(c) && s.q < RX_STATES && h.q < RX_STATES
    ensures BlockRun(c, s, [], canPut) == s && DelRun(h, Samples(c.width, [])) == h
  {
  }

  /** Where the receiver and the two machines are after some octets of the line. */
  ghost predicate Reached(c: Receiving.Config, s: Receiving.Rx, h: Del, done: seq<octet>, octets: seq<octet>,
                          canPut: bool, m: nat, before: seq<seq<bool>>)
    requires ConfigOk(c) && s.q < RX_STATES && h.q < RX_STATES && m <= |s.ends|
  {
    var s', h' := BlockRun(c, s, octets, canPut), DelRun(h, Samples(c.width, octets));
    && InStep(s', h', m, |before|) && Beside(h', DelRun(FRESH, Samples(c.width, done + octets)), before)
    && s'.ends[..m] == s.ends[..m]
  }

  lemma ReachedMore(c: Receiving.Config, f: Format, items: seq<Item>, s: Receiving.Rx, h: Del, done: seq<octet>,
                    front: seq<octet>, o: octet, canPut: bool, m: nat, before: seq<seq<bool>>)
    requires ConfigOk(c) && WellFormed(items) && FramesFit(items, c.mlen)
    requires Samples(c.width, done + front + [o]) <= LineBits(f, items)
    requires s.q < RX_STATES && h.q < RX_STATES && m <= |s.ends| && Reached(c, s, h, done, front, canPut, m, before)
    ensures Reached(c, s, h, done, front + [o], canPut, m, before)
  {
    hide BlockRun, Samples, SampleBits, DelRun, SampleStep, InStep, Beside, LineBits, WellFormed, FramesFit;
    assert done + (front + [o]) == done + front + [o];
    SamplesSnoc(c.width, front, o);
    SamplesSnoc(c.width, done + front, o);
    BlockRunMore(c, s, front, o, canPut);
    DelAppend(h, Samples(c.width, front), SampleBits(c.width, o));
    OneSampleMore(c, f, items, BlockRun(c, s, front, canPut), DelRun(h, Samples(c.width, front)),
                  Samples(c.width, done + front), SampleBits(c.width, o), canPut, m, before);
  }

  /** In step within the line, the receiver receives the rest of it. */
  lemma {:induction false} RestOfLine(c: Receiving.Config, f: Format, items: seq<Item>, s: Receiving.Rx, h: Del,
                                      done: seq<octet>, octets: seq<octet>, canPut: bool,
                                      m: nat, before: seq<seq<bool>>)
    requires ConfigOk(c) && WellFormed(items) && FramesFit(items, c.mlen)
    requires Samples(c.width, done + octets) <= LineBits(f, items)
    requires s.q < RX_STATES && h.q < RX_STATES && m <= |s.ends|
    requires InStep(s, h, m, |before|) && Beside(h, DelRun(FRESH, Samples(c.width, done)), before)
    ensures Reached(c, s, h, done, octets, canPut, m, before)
    decreases |octets|
  {
    assert c.width <= 8;
    if |octets| == 0 {
      hide *;
      assert octets == [] && done + octets == done;
      NothingMore(c, s, h, canPut);
      ReachedFirst(c, s, h, done, canPut, m, before);
    } else {
      hide *;
      var front, o := SplitLast(octets);
      assert done + octets == done + front + [o];
      SamplesShorter(c.width, done + front, o, LineBits(f, items));
      RestOfLine(c, f, items, s, h, done, front, canPut, m, before);
      ReachedMore(c, f, items, s, h, done, front, o, canPut, m, before);
    }
  }

  lemma SplitLast(octets: seq<octet>) returns (front: seq<octet>, o: octet)
    requires |octets| > 0
    ensures octets == front + [o] && |front| < |octets|
  {
    front, o := octets[..|octets| - 1], octets[|octets| - 1];
  }

  lemma SplitFirst(octets: seq<octet>) returns (o: octet, o': octet, rest: seq<octet>)
    requires |octets| >= 2
    ensures octets == [o] + ([o'] + rest) == [o, o'] + rest
  {
    o, o', rest := octets[0], octets[1], octets[2..];
  }

  lemma ReachedFirst(c: Receiving.Config, s: Receiving.Rx, h: Del, done: seq<octet>, canPut: bool,
                     m: nat, before: seq<seq<bool>>)
    requires ConfigOk(c) && s.q < RX_STATES && h.q < RX_STATES && m <= |s.ends|
    requires InStep(s, h, m, |before|) && Beside(h, DelRun(FRESH, Samples(c.width, done)), before)
    ensures Reached(c, s, h, done, [], canPut, m, before)
  {
    assert done + [] == done;
    NothingMore(c, s, h, canPut);
    hide InStep, Beside, BlockRun, Samples, DelRun;
  }

  // ---- any blocks ----

  /** The receiver less its errors and reports, which do not bear on what it receives. */
  function Core(s: Receiving.Rx): Receiving.Rx { s.(err := NoError, events := [], hunted := 0) }

  lemma {:induction false} CoreStep(c: Receiving.Config, s: Receiving.Rx, t: Receiving.Rx, x: seq<bool>, canPut: bool)
    requires ConfigOk(c) && s.q < RX_STATES && t.q < RX_STATES && Core(s) == Core(t)
    ensures Core(SampleStep(c, s, x, canPut)) == Core(SampleStep(c, t, x, true))
  {
    hide FeedAll, Drain, Verdict;
  }

  lemma {:induction false} CoreBlock(c: Receiving.Config, s: Receiving.Rx, t: Receiving.Rx, octets: seq<octet>,
                                     canPut: bool)
    requires ConfigOk(c) && s.q < RX_STATES && t.q < RX_STATES && Core(s) == Core(t)
    ensures Core(BlockRun(c, s, octets, canPut)) == Core(BlockRun(c, t, octets, true))
    decreases |octets|
  {
    hide SampleStep, SampleBits;
    if |octets| > 0 {
      var front := octets[..|octets| - 1];
      CoreBlock(c, s, t, front, canPut);
      CoreStep(c, BlockRun(c, s, front, canPut), BlockRun(c, t, front, true),
               SampleBits(c.width, octets[|octets| - 1]), canPut);
    }
  }

  lemma {:induction false} BlockJoined(c: Receiving.Config, s: Receiving.Rx, a: seq<octet>, b: seq<octet>, canPut: bool)
    requires ConfigOk(c) && s.q < RX_STATES
    ensures BlockRun(c, s, a + b, canPut) == BlockRun(c, BlockRun(c, s, a, canPut), b, canPut)
    decreases |b|
  {
    hide SampleStep, SampleBits;
    if |b| == 0 {
      assert a + b == a;
    } else {
      assert (a + b)[..|a + b| - 1] == a + b[..|b| - 1] && (a + b)[|a + b| - 1] == b[|b| - 1];
      BlockJoined(c, s, a, b[..|b| - 1], canPut);
    }
  }

  /** How the octets are cut into blocks does not bear on it either. */
  lemma {:induction false} CoreRun(c: Receiving.Config, blocks: seq<Block>)
    requires ConfigOk(c)
    ensures Core(RxRun(c, blocks)) == Core(BlockRun(c, START_RX, Flat(blocks), true))
    decreases |blocks|
  {
    hide BlockRun;
    if |blocks| == 0 {
      NothingMore(c, START_RX, FRESH, true);
    } else {
      var front, b := blocks[..|blocks| - 1], blocks[|blocks| - 1];
      var s := RxRun(c, front).(err := NoError);
      CoreRun(c, front);
      BlockJoined(c, START_RX, Flat(front), b.octets, true);
      CoreBlock(c, s, BlockRun(c, START_RX, Flat(front), true), b.octets, b.canPut);
    }
  }

  // ---- frames after noise ----

  lemma {:induction false} NothingYet(f: Format, items: seq<Item>, n: nat)
    requires |items| > 0 && !items[0].Mark? && (n < 16 || (n == 16 && items[0].Flag?))
    ensures Delivered(f, items, n) == []
    decreases |items|
  {
    hide ItemBits;
    var front := items[..|items| - 1];
    if |front| > 0 {
      NothingYet(f, front, n);
      if |front| == 1 {
        assert front[..0] == [] && Frames(front) == Frames([]) + (if items[0].Frame? then [items[0].data] else []);
        assert |LineBits(f, front)| >= 8;
      } else {
        assert |LineBits(f, front)| >= |LineBits(f, front[..1])| + 8 by { TwoItems(f, front); }
        assert |LineBits(f, front[..1])| >= 8;
      }
    } else {
      assert front == [] && Delivered(f, [], n) == [] && Frames([]) == [];
    }
  }

  lemma {:induction false} TwoItems(f: Format, items: seq<Item>)
    requires |items| >= 2
    ensures |LineBits(f, items)| >= |LineBits(f, items[..1])| + 8
    decreases |items|
  {
    hide ItemBits;
    var front := items[..|items| - 1];
    if |items| > 2 {
      TwoItems(f, front);
      assert front[..1] == items[..1];
    }
  }

  lemma {:induction false} TrackRun(c: Receiving.Config, s: Receiving.Rx, d: Del, octets: seq<octet>, canPut: bool)
    requires ConfigOk(c) && DelOk(d) && s.q == d.q
    ensures BlockRun(c, s, octets, canPut).q == DelRun(d, Samples(c.width, octets)).q
    ensures DelOk(DelRun(d, Samples(c.width, octets)))
    decreases |octets|
  {
    assert c.width <= 8;
    if |octets| == 0 {
      assert octets == [];
      NothingMore(c, s, d, canPut);
    } else {
      hide *;
      DelState(d, []);
      var front, o := octets[..|octets| - 1], octets[|octets| - 1];
      assert octets == front + [o];
      TrackRun(c, s, d, front, canPut);
      SamplesSnoc(c.width, front, o);
      InRange(s, d);
      BlockRunMore(c, s, front, o, canPut);
      DelAppend(d, Samples(c.width, front), SampleBits(c.width, o));
      StatesTrack(c, BlockRun(c, s, front, canPut), DelRun(d, Samples(c.width, front)), SampleBits(c.width, o), canPut);
    }
  }

  lemma InRange(s: Receiving.Rx, d: Del)
    requires DelOk(d) && s.q == d.q
    ensures s.q < RX_STATES
  {
  }

  /** One octet more, which brings the receiver in step. */
  lemma {:induction false} RegainsAt(c: Receiving.Config, s: Receiving.Rx, d: Del, front: seq<octet>, o: octet,
                                     canPut: bool)
    requires ConfigOk(c) && DelOk(d) && s.q == d.q < RX_STATES
    requires var s', d', x := BlockRun(c, s, front, canPut), DelRun(d, Samples(c.width, front)),
                              SampleBits(c.width, o);
             !NoFlag(d'.q, x) && !(s'.mode == Sync && Runt(d'.q, x))
    ensures Stands(BlockRun(c, s, front + [o], canPut), DelRun(d, Samples(c.width, front + [o])))
  {
    assert c.width <= 8;
    hide *;
    TrackRun(c, s, d, front, canPut);
    SamplesSnoc(c.width, front, o);
    BlockRunMore(c, s, front, o, canPut);
    DelAppend(d, Samples(c.width, front), SampleBits(c.width, o));
    Regains(c, BlockRun(c, s, front, canPut), DelRun(d, Samples(c.width, front)), SampleBits(c.width, o), canPut);
  }

  /** From a sample at or behind the first flag that brings it in step, the receiver receives the frames of the
      line, each with its message and check bits. */
  lemma {:induction false} AfterRegain(c: Receiving.Config, f: Format, items: seq<Item>, s: Receiving.Rx, d: Del,
                                       head: seq<octet>, tail: seq<octet>, canPut: bool)
      returns (before: seq<(seq<octet>, seq<bool>)>)
    requires ConfigOk(c) && WellFormed(items) && FramesFit(items, c.mlen) && |items| > 0 && !items[0].Mark?
    requires DelOk(d) && s.q == d.q < RX_STATES && c.width * |head| >= 8
    requires Samples(c.width, head + tail) <= LineBits(f, items) && Delivered(f, items, c.width * |head|) == []
    requires Stands(BlockRun(c, s, head, canPut), DelRun(d, Samples(c.width, head)))
    ensures BlockRun(c, s, head + tail, canPut).ends ==
            before + Ends(f.complement, Delivered(f, items, c.width * |head + tail|))
  {
    assert c.width <= 8;
    hide *;
    var p, s1 := Samples(c.width, head), BlockRun(c, s, head, canPut);
    var h1 := DelRun(d, p);
    SamplesAppend(c.width, head, tail);
    PrefixOf(p, Samples(c.width, tail), LineBits(f, items));
    BesideAtFirst(c, f, items, d, p);
    FromHere(s1, h1);
    TrackRun(c, s, d, head, canPut);
    InStepOk(s1, h1, |s1.ends|, |h1.ends|);
    RestOfLine(c, f, items, s1, h1, head, tail, canPut, |s1.ends|, h1.ends);
    ReachedIs(c, s1, h1, head, tail, canPut, |s1.ends|, h1.ends);
    BlockJoined(c, s, head, tail, canPut);
    before := s1.ends;
    var sN, hN := BlockRun(c, s1, tail, canPut), DelRun(h1, Samples(c.width, tail));
    InStepOk(sN, hN, |s1.ends|, |h1.ends|);
    assert before[..|before|] == before;
    EndsAreFrames(c, f, items, sN, hN, Samples(c.width, head + tail), before, h1.ends);
  }

  lemma ReachedIs(c: Receiving.Config, s: Receiving.Rx, h: Del, done: seq<octet>, octets: seq<octet>,
                  canPut: bool, m: nat, before: seq<seq<bool>>)
    requires ConfigOk(c) && s.q < RX_STATES && h.q < RX_STATES && m <= |s.ends|
    requires Reached(c, s, h, done, octets, canPut, m, before)
    ensures var s', h' := BlockRun(c, s, octets, canPut), DelRun(h, Samples(c.width, octets));
            && InStep(s', h', m, |before|) && Beside(h', DelRun(FRESH, Samples(c.width, done + octets)), before)
            && m <= |s'.ends| && s'.ends[..m] == s.ends[..m]
  {
    hide BlockRun, DelRun, Samples, Beside;
  }

  lemma BesideAtFirst(c: Receiving.Config, f: Format, items: seq<Item>, d: Del, p: seq<bool>)
    requires ConfigOk(c) && WellFormed(items) && FramesFit(items, c.mlen) && |items| > 0 && !items[0].Mark?
    requires DelOk(d) && |p| >= 8 && p <= LineBits(f, items) && Delivered(f, items, |p|) == []
    ensures Beside(DelRun(d, p), DelRun(FRESH, p), DelRun(d, p).ends)
  {
    hide LineBits, DelRun, WellFormed, FramesFit, Delivered, Faithful;
    LineStarts(f, items);
    assert p[..8] == FLAG && p == FLAG + p[8..];
    AfterFlag(d, p[8..]);
    assert p + [] == p;
    LineIsFaithful(c, f, items, p, []);
    NoBodies(f.complement);
    assert DelRun(d, FLAG).ends + [] == DelRun(d, FLAG).ends;
  }

  lemma EndsAreFrames(c: Receiving.Config, f: Format, items: seq<Item>, s: Receiving.Rx, h: Del, p: seq<bool>,
                      before: seq<(seq<octet>, seq<bool>)>, bodies: seq<seq<bool>>)
    requires ConfigOk(c) && WellFormed(items) && FramesFit(items, c.mlen) && p <= LineBits(f, items)
    requires InStep(s, h, |before|, |bodies|) && Beside(h, DelRun(FRESH, p), bodies)
    requires |s.ends| >= |before| && s.ends[..|before|] == before
    ensures s.ends == before + Ends(f.complement, Delivered(f, items, |p|))
  {
    hide LineBits, DelRun, WellFormed, FramesFit, Delivered, Faithful, Body, Spread;
    assert p + [] == p;
    LineIsFaithful(c, f, items, p, []);
    var frames, ends := Delivered(f, items, |p|), s.ends[|before|..];
    assert h.ends[|bodies|..] == Bodies(f.complement, frames);
    forall i | 0 <= i < |ends|
      ensures ends[i] == Ends(f.complement, frames)[i]
    {
      assert SameBody(ends[i], Bodies(f.complement, frames)[i]);
      EndIsFrame(ends[i], f.complement, frames[i]);
    }
  }

  lemma {:induction false} NoFlagPrefix(q: nat, x: seq<bool>, k: nat)
    requires q < RX_STATES && k <= |x| && !NoFlag(q, x[..k])
    ensures !NoFlag(q, x)
    decreases |x|
  {
    if k < |x| {
      assert x[..|x| - 1][..k] == x[..k];
      NoFlagPrefix(q, x[..|x| - 1], k);
    } else {
      assert x[..k] == x;
    }
  }

  lemma {:induction false} FlagIsSeen(d: Del)
    requires DelOk(d)
    ensures !NoFlag(d.q, FLAG)
  {
    AnyFlag(d);
    assert FLAG[..|FLAG| - 1] == FLAG[..7];
  }

  /** A sample of seven bits never makes a runt. */
  lemma {:induction false} SevenBitsNoRunt(q: nat, x: seq<bool>)
    requires q < RX_STATES && |x| <= 7
    ensures !Runt(q, x)
  {
    FeedShape(q, x);
  }

  lemma SamplesStart(width: nat, o: octet, rest: seq<octet>)
    requires width <= 8
    ensures Samples(width, [o] + rest) == SampleBits(width, o) + Samples(width, rest)
    ensures Samples(width, [o]) == SampleBits(width, o)
  {
    SamplesSnoc(width, [], o);
    assert [] + [o] == [o] && Samples(width, []) + SampleBits(width, o) == SampleBits(width, o);
    SamplesAppend(width, [o], rest);
  }

  /** The samples at the start of a line: of eight bits, the first is the flag. */
  lemma FirstIsFlag(f: Format, items: seq<Item>, x: seq<bool>, t: seq<bool>)
    requires |items| > 0 && !items[0].Mark? && |x| == 8 && x + t <= LineBits(f, items)
    ensures x == FLAG
  {
    LineStarts(f, items);
    assert (x + t)[..8] == x;
  }

  /** Of seven, the second holds its last bit. */
  lemma SecondEndsFlag(f: Format, items: seq<Item>, x: seq<bool>, y: seq<bool>, t: seq<bool>)
    requires |items| > 0 && !items[0].Mark? && |x| == |y| == 7 && x + (y + t) <= LineBits(f, items)
    ensures x == FLAG[..7] && y[..1] == [false]
  {
    LineStarts(f, items);
    assert (x + (y + t))[..7] == x && (x + (y + t))[7] == y[0];
    assert LineBits(f, items)[..8][..7] == LineBits(f, items)[..7];
  }

  /** Where a fresh receiver is after some octets, and the bit machine with it. */
  function Noisy(c: Receiving.Config, noise: seq<octet>): Receiving.Rx
    requires ConfigOk(c)
  {
    BlockRun(c, START_RX, noise, true)
  }

  lemma {:induction false} NoisyTracks(c: Receiving.Config, noise: seq<octet>)
    requires ConfigOk(c)
    ensures var d := DelRun(FRESH, Samples(c.width, noise)); DelOk(d) && Noisy(c, noise).q == d.q < RX_STATES
  {
    TrackRun(c, START_RX, FRESH, noise, true);
  }

  /** Samples of eight bits: the first octet is the flag. */
  lemma {:induction false} RegainsEight(c: Receiving.Config, f: Format, items: seq<Item>, s: Receiving.Rx, d: Del,
                                        o: octet, rest: seq<octet>)
    requires ConfigOk(c) && c.width == 8 && DelOk(d) && s.q == d.q < RX_STATES && |items| > 0 && !items[0].Mark?
    requires Samples(c.width, [o] + rest) <= LineBits(f, items) && !(s.mode == Sync && Runt(s.q, FLAG))
    ensures Stands(BlockRun(c, s, [o], true), DelRun(d, Samples(c.width, [o])))
  {
    hide *;
    SamplesStart(8, o, rest);
    FirstIsFlag(f, items, SampleBits(8, o), Samples(8, rest));
    FlagIsSeen(d);
    NothingMore(c, s, d, true);
    RegainsAt(c, s, d, [], o, true);
    assert [] + [o] == [o];
  }

  /** Samples of seven bits: the second octet ends the flag. */
  lemma {:induction false} RegainsSeven(c: Receiving.Config, f: Format, items: seq<Item>, s: Receiving.Rx, d: Del,
                                        o: octet, o': octet, rest: seq<octet>)
    requires ConfigOk(c) && c.width == 7 && DelOk(d) && s.q == d.q < RX_STATES && |items| > 0 && !items[0].Mark?
    requires Samples(c.width, [o] + ([o'] + rest)) <= LineBits(f, items)
    ensures Stands(BlockRun(c, s, [o, o'], true), DelRun(d, Samples(c.width, [o, o'])))
  {
    hide *;
    var x := SampleBits(7, o');
    SamplesStart(7, o, [o'] + rest);
    SamplesStart(7, o', rest);
    SecondEndsFlag(f, items, SampleBits(7, o), x, Samples(7, rest));
    EndIsSeen(d, x);
    RegainsAt(c, s, d, [o], o', true);
    assert [o] + [o'] == [o, o'];
  }

  lemma {:induction false} EndIsSeen(d: Del, x: seq<bool>)
    requires DelOk(d) && |x| == 7 && x[..1] == [false]
    ensures var q := DelRun(d, FLAG[..7]).q; !NoFlag(q, x) && !Runt(q, x)
  {
    AnyFlag(d);
    DelState(d, FLAG[..7]);
    var q := DelRun(d, FLAG[..7]).q;
    assert [false][..0] == [] && StateAfter(q, []) == q && !NoFlag(q, [false]);
    NoFlagPrefix(q, x, 1);
    SevenBitsNoRunt(q, x);
  }

  /** Frames after noise.  The receiver is given any octets at all, and then the octets of a line that begins
      with a flag or a frame, in any blocks.  If the line's first flag does not make a runt while the receiver
      takes itself to be between frames, which needs samples of eight bits, then behind whatever it made of the
      noise it has received the frames of the line that a whole flag has followed, each with its message and
      check bits. */
  lemma {:induction false} FramesAfterNoise(c: Receiving.Config, f: Format, items: seq<Item>, blocks: seq<Block>,
                                            noise: seq<octet>, data: seq<octet>)
      returns (before: seq<(seq<octet>, seq<bool>)>)
    requires ConfigOk(c) && WellFormed(items) && FramesFit(items, c.mlen) && |items| > 0 && !items[0].Mark?
    requires Flat(blocks) == noise + data && Samples(c.width, data) <= LineBits(f, items) && |data| >= 2
    requires c.width == 8 ==> Noisy(c, noise).mode != Sync || !Runt(Noisy(c, noise).q, FLAG)
    ensures RxRun(c, blocks).ends == before + Ends(f.complement, Delivered(f, items, c.width * |data|))
  {
    assert c.width == 7 || c.width == 8;
    hide *;
    var d, s := DelRun(FRESH, Samples(c.width, noise)), Noisy(c, noise);
    NoisyTracks(c, noise);
    AllTogether(c, blocks, noise, data);
    var o, o', rest := SplitFirst(data);
    if c.width == 8 {
      NothingYet(f, items, 8);
      RegainsEight(c, f, items, s, d, o, [o'] + rest);
      before := AfterRegain(c, f, items, s, d, [o], [o'] + rest, true);
    } else {
      NothingYet(f, items, 14);
      RegainsSeven(c, f, items, s, d, o, o', rest);
      before := AfterRegain(c, f, items, s, d, [o, o'], rest, true);
    }
  }

  lemma AllTogether(c: Receiving.Config, blocks: seq<Block>, noise: seq<octet>, data: seq<octet>)
    requires ConfigOk(c) && Flat(blocks) == noise + data
    ensures Noisy(c, noise).q < RX_STATES
    ensures RxRun(c, blocks).ends == BlockRun(c, Noisy(c, noise), data, true).ends
  {
    CoreRun(c, blocks);
    BlockJoined(c, START_RX, noise, data, true);
  }

  /** Two flags, samples of eight bits: whatever the first makes, the second brings the receiver in step. */
  lemma {:induction false} RegainsTwice(c: Receiving.Config, f: Format, items: seq<Item>, s: Receiving.Rx, d: Del,
                                        o: octet, o': octet, rest: seq<octet>)
    requires ConfigOk(c) && c.width == 8 && DelOk(d) && s.q == d.q < RX_STATES
    requires |items| >= 2 && items[0].Flag? && !items[1].Mark?
    requires Samples(c.width, [o] + ([o'] + rest)) <= LineBits(f, items)
    ensures Stands(BlockRun(c, s, [o, o'], true), DelRun(d, Samples(c.width, [o, o'])))
  {
    hide *;
    SamplesStart(8, o, [o'] + rest);
    SamplesStart(8, o', rest);
    FirstTwoFlags(f, items, SampleBits(8, o), SampleBits(8, o'), Samples(8, rest));
    AnyFlag(d);
    TrackRun(c, s, d, [o], true);
    FlagIsSeen(DelRun(d, FLAG));
    SameFlag(0);
    RegainsAt(c, s, d, [o], o', true);
    assert [o] + [o'] == [o, o'];
  }

  /** With an idle flag before the first frame there is no condition: after any octets whatever, in any blocks,
      the frames of the line are received. */
  lemma {:induction false} FramesAfterFlag(c: Receiving.Config, f: Format, items: seq<Item>, blocks: seq<Block>,
                                           noise: seq<octet>, data: seq<octet>)
      returns (before: seq<(seq<octet>, seq<bool>)>)
    requires ConfigOk(c) && WellFormed(items) && FramesFit(items, c.mlen)
    requires |items| >= 2 && items[0].Flag? && !items[1].Mark?
    requires Flat(blocks) == noise + data && Samples(c.width, data) <= LineBits(f, items) && |data| >= 2
    ensures RxRun(c, blocks).ends == before + Ends(f.complement, Delivered(f, items, c.width * |data|))
  {
    assert c.width == 7 || c.width == 8;
    hide *;
    if c.width == 7 {
      before := FramesAfterNoise(c, f, items, blocks, noise, data);
    } else {
      var d, s := DelRun(FRESH, Samples(c.width, noise)), Noisy(c, noise);
      NoisyTracks(c, noise);
      AllTogether(c, blocks, noise, data);
      var o, o', rest := SplitFirst(data);
      NothingYet(f, items, 16);
      RegainsTwice(c, f, items, s, d, o, o', rest);
      before := AfterRegain(c, f, items, s, d, [o, o'], rest, true);
    }
  }

  /** A flag after a flag makes no runt. */
  lemma {:induction false} SameFlag(q: nat)
    requires q == 0
    ensures !Runt(q, FLAG)
  {
    FeedFlag(7);
    assert FLAG[..|FLAG| - 1] == FLAG[..7];
  }

  lemma {:induction false} FeedFlag(k: nat)
    requires 1 <= k <= 7
    ensures FeedAll(Begin(0), FLAG[..k]) == Begin(0).(q := k)
    decreases k
  {
    assert FLAG[..k][..k - 1] == FLAG[..k - 1];
    if k > 1 { FeedFlag(k - 1); } else { assert FeedAll(Begin(0), FLAG[..0]) == Begin(0); }
  }

  lemma FirstTwoFlags(f: Format, items: seq<Item>, x: seq<bool>, y: seq<bool>, t: seq<bool>)
    requires |items| >= 2 && items[0].Flag? && !items[1].Mark?
    requires |x| == |y| == 8 && x + (y + t) <= LineBits(f, items)
    ensures x == y == FLAG
  {
    assert |FLAG| == 8;
    hide *;
    TwoFlags(f, items);
    var line, two := LineBits(f, items), FLAG + FLAG;
    assert two[..8] == FLAG && two[8..] == FLAG && line[..16] == two;
    assert line[..16] == x + y;
    assert (x + y)[..8] == x && (x + y)[8..] == y;
  }

  lemma LineMore(f: Format, items: seq<Item>)
    requires |items| > 0
    ensures LineBits(f, items) == LineBits(f, items[..|items| - 1]) + ItemBits(f, items[|items| - 1])
  {
  }

  lemma OneFlag(f: Format, items: seq<Item>)
    requires |items| == 1 && items[0].Flag?
    ensures LineBits(f, items) == FLAG
  {
    assert items[..0] == [];
    assert LineBits(f, []) + FLAG == FLAG;
  }

  lemma {:induction false} TwoFlags(f: Format, items: seq<Item>)
    requires |items| >= 2 && items[0].Flag? && !items[1].Mark?
    ensures FLAG + FLAG <= LineBits(f, items)
    decreases |items|
  {
    hide *;
    var front := items[..|items| - 1];
    LineMore(f, items);
    if |items| == 2 {
      OneFlag(f, front);
      ItemHead(f, items[1]);
      var bits := ItemBits(f, items[1]);
      assert FLAG + bits == FLAG + FLAG + bits[8..];
    } else {
      TwoFlags(f, front);
    }
  }

  // ---- inputs that put a fresh receiver out of step ----

  /** Every sample can be received. */
  lemma OctetFor(width: nat, x: seq<bool>) returns (o: octet)
    requires |x| == width <= 8
    ensures SampleBits(width, o) == x
  {
    var y := x + Repeat(false, 8 - width);
    OctetVal(Reverse(y));
    ReverseTwice(y);
    o := Val(Reverse(y));
    assert y[..width] == x;
  }

  lemma ThreeOctets(x: seq<bool>, y: seq<bool>, z: seq<bool>) returns (octets: seq<octet>)
    requires |x| == |y| == |z| == 8
    ensures |octets| == 3 && Samples(8, octets) == x + y + z
    ensures SampleBits(8, octets[0]) == x && SampleBits(8, octets[1]) == y && SampleBits(8, octets[2]) == z
  {
    var a := OctetFor(8, x);
    var b := OctetFor(8, y);
    var c := OctetFor(8, z);
    octets := [a, b, c];
    SamplesStart(8, a, []);
    SamplesSnoc(8, [a], b);
    SamplesSnoc(8, [a] + [b], c);
    assert [a] + [b] + [c] == octets;
  }

  lemma ThreeSteps(c: Receiving.Config, octets: seq<octet>, canPut: bool)
    requires ConfigOk(c) && |octets| == 3
    ensures RxRun(c, [Block(octets, canPut)]) ==
            SampleStep(c, SampleStep(c, SampleStep(c, START_RX, SampleBits(c.width, octets[0]), canPut),
                                     SampleBits(c.width, octets[1]), canPut),
                       SampleBits(c.width, octets[2]), canPut)
  {
    hide SampleStep, SampleBits;
    var blocks := [Block(octets, canPut)];
    assert blocks[..0] == [] && RxRun(c, []) == START_RX;
    assert octets[..1] == [] + [octets[0]] && octets[..2] == octets[..1] + [octets[1]];
    assert octets == octets[..2] + [octets[2]];
    NothingMore(c, START_RX, FRESH, canPut);
    BlockRunMore(c, START_RX, [], octets[0], canPut);
    BlockRunMore(c, START_RX, octets[..1], octets[1], canPut);
    BlockRunMore(c, START_RX, octets[..2], octets[2], canPut);
  }

  const BEFORE: seq<bool> := [false, false, false, false, false, false, false, true]
  const BETWEEN: seq<bool> := [true, true, true, true, true, false, false, true]

  lemma {:induction false} FeedZeros(k: nat)
    requires k > 0
    ensures var e := FeedAll(Begin(0), Repeat(false, k)); !e.flag && e.q == 1
    decreases k
  {
    assert FeedAll(Begin(0), Repeat(false, 0)) == Begin(0);
    RepeatAppend(false, k - 1, 1);
    assert Repeat(false, 1) == [false] && Repeat(false, k)[..k - 1] == Repeat(false, k - 1);
    if k > 1 { FeedZeros(k - 1); }
  }

  /** The sample before: no flag, and a zero and a one held back. */
  lemma FeedBefore()
    ensures var e := FeedAll(Begin(0), BEFORE); !e.flag && e.q == 2
  {
    FeedZeros(7);
    assert BEFORE == Repeat(false, 7) + [true];
    assert BEFORE[..7] == Repeat(false, 7);
  }

  lemma {:induction false} FeedFive(k: nat)
    requires k <= 5
    ensures FeedAll(Begin(2), Repeat(true, k)) == Begin(2).(q := 2 + k)
    decreases k
  {
    if k > 0 {
      RepeatSnoc(k - 1);
      assert Repeat(true, k)[..k - 1] == Repeat(true, k - 1);
      FeedFive(k - 1);
    }
  }

  /** The sample between: the end of a flag, and again a zero and a one held back. */
  lemma FeedBetween()
    ensures FeedAll(Begin(2), BETWEEN) == Sample(2, [], true, false, true, false)
  {
    FeedFive(5);
    var e := Begin(2).(q := 7);
    FeedBit(e, false);
    var e1 := Sample(0, [], false, false, true, false);
    FeedBit(e1, false);
    FeedBit(Sample(1, [], true, false, true, false), true);
    FeedJoined(Begin(2), Repeat(true, 5), [false]);
    FeedJoined(Begin(2), Repeat(true, 5) + [false], [false]);
    FeedJoined(Begin(2), Repeat(true, 5) + [false] + [false], [true]);
    assert BETWEEN == Repeat(true, 5) + [false] + [false] + [true];
  }

  /** Three octets given to a fresh receiver end in a runt: it collects a frame of two bits that the flag it has
      just taken in had closed. */
  lemma {:induction false} RuntReceived(c: Receiving.Config, canPut: bool) returns (octets: seq<octet>)
    requires ConfigOk(c) && c.width == 8
    ensures Samples(8, octets) == BEFORE + BETWEEN + FLAG
    ensures var s := RxRun(c, [Block(octets, canPut)]); s.mode == Mof && s.rest == [false, true]
  {
    octets := ThreeOctets(BEFORE, BETWEEN, FLAG);
    ThreeSteps(c, octets, canPut);
    FeedBefore();
    FeedBetween();
    hide FeedAll;
    var s1 := SampleStep(c, START_RX, BEFORE, canPut);
    assert s1.mode == Hunt && s1.q == 2;
    var s2 := SampleStep(c, s1, BETWEEN, canPut);
    assert s2.mode == Sync && s2.q == 2;
    RuntMisread(c, s2, canPut);
  }

  const SHORT: seq<bool> := [false, false] + Repeat(true, 6)

  lemma FeedShort()
    ensures FeedAll(Begin(0), SHORT) == Begin(0).(q := 7, out := [false])
  {
    var e1, e2 := Begin(0).(q := 1), Begin(0).(q := 1, out := [false]);
    assert Pending(1) == [false] && [] + [false] == [false];
    assert Feed(Begin(0), false) == e1 && Feed(e1, false) == e2;
    assert SHORT == [false] + [false] + Repeat(true, 6);
    hide *;
    FeedBit(Begin(0), false);
    FeedBit(e1, false);
    FeedOnes(e2, 6);
    var ones := Repeat(true, 6);
    FeedJoined(Begin(0), [false], [false]);
    FeedJoined(Begin(0), [false] + [false], ones);
  }

  lemma FeedWholeFlag()
    ensures FeedAll(Begin(0), FLAG) == Sample(0, [], false, false, true, false)
  {
    FeedFlag(7);
    assert FLAG[..|FLAG| - 1] == FLAG[..7];
  }

  /** Three octets given to a fresh receiver: the line closes a frame of one bit, and the receiver reports an
      abort and no frame. */
  lemma {:induction false} FlagLost(c: Receiving.Config, canPut: bool) returns (octets: seq<octet>)
    requires ConfigOk(c) && c.width == 8
    ensures Samples(8, octets) == FLAG + SHORT + ([false] + Repeat(true, 7))
    ensures var s := RxRun(c, [Block(octets, canPut)]); s.ends == [] && s.events == [Bad(HdlcAbort, [])]
    ensures DelRun(FRESH, Samples(8, octets)).ends == [[false]]
  {
    octets := ThreeOctets(FLAG, SHORT, [false] + Repeat(true, 7));
    ThreeSteps(c, octets, canPut);
    FeedWholeFlag();
    FeedShort();
    BodyClosed();
    hide FeedAll, DelRun;
    var s1 := SampleStep(c, START_RX, FLAG, canPut);
    assert s1 == START_RX.(mode := Sync);
    var s2 := SampleStep(c, s1, SHORT, canPut);
    assert s2 == s1.(mode := Mof, q := 7, rest := [false]);
    FlagThenOnesLost(c, s2, canPut);
  }

  lemma ShortRun()
    ensures DelRun(Del(0, true, [], []), SHORT) == Del(7, true, [false], [])
  {
    var ones, d, d1, d2 := Repeat(true, 6), Del(0, true, [], []), Del(1, true, [], []), Del(1, true, [false], []);
    assert Pending(1) == [false] && [] + [false] == [false];
    assert DelStep(d, false) == d1 && DelStep(d1, false) == d2;
    assert SHORT == [false] + [false] + ones;
    hide *;
    DelOne(d, false);
    DelOne(d1, false);
    OnesHold(d2, 6);
    DelAppend(d, [false], [false]);
    DelAppend(d, [false] + [false], ones);
  }

  lemma LostRun()
    ensures DelRun(Del(7, true, [false], []), [false] + Repeat(true, 7)).ends == [[false]]
  {
    var ones, e := Repeat(true, 6), Del(7, true, [false], []);
    var g, h := Del(0, true, [], [[false]]), Del(13, true, [], [[false]]);
    assert DelStep(e, false) == g && DelStep(h, true) == Del(12, false, [], [[false]]);
    RepeatSnoc(6);
    hide *;
    DelOne(e, false);
    DelOne(h, true);
    OnesHold(g, 6);
    DelAppend(g, ones, [true]);
    DelAppend(e, [false], Repeat(true, 7));
  }

  lemma BodyClosed()
    ensures DelRun(FRESH, FLAG + SHORT + ([false] + Repeat(true, 7))).ends == [[false]]
  {
    AnyFlag(FRESH);
    hide *;
    ShortRun();
    LostRun();
    DelAppend(FRESH, FLAG, SHORT);
    DelAppend(FRESH, FLAG + SHORT, [false] + Repeat(true, 7));
  }
}
