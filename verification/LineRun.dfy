/** Running the receiver's fourteen-state machine along everything the transmitter can send. */
module LineRun {
  import opened Bits
  import opened Crc
  import opened Stuffing
  import opened Deleter
  import opened Line

  /** A stretch of line with no seven ones, followed while synchronised. */
  lemma {:induction false} Stretch(d: Del, r: Ref, line: seq<bool>, max: nat)
    requires Agree(d, r) && d.synced && RunsAtMost(6, r.ones, line)
    requires forall k :: 0 <= k <= |line| ==> OpenBody(RefRun(r, line[..k])) <= max
    ensures Tame(d, line, max)
    ensures Agree(DelRun(d, line), RefRun(r, line)) && DelRun(d, line).synced
    decreases |line|
  {
    hide RefRun, RefStep, RunsAtMost, Pending;
    NoAbortIsShortRuns(d.q, line);
    ShortRunsAgree(d, r, line);
    assert line[..|line|] == line;
    if |line| > 0 {
      var front := line[..|line| - 1];
      assert line == front + [line[|line| - 1]];
      RunsPrefix(6, r.ones, front, [line[|line| - 1]]);
      forall k | 0 <= k <= |front|
        ensures OpenBody(RefRun(r, front[..k])) <= max
      {
        assert front[..k] == line[..k];
      }
      Stretch(d, r, front, max);
      DelState(d, front);
    }
    AgreedBody(DelRun(d, line), RefRun(r, line));
  }

  lemma FlagRuns(ones: nat)
    requires ones < 5
    ensures RunsAtMost(6, ones, FLAG)
    ensures RunsAtMost(6, 0, FLAG[1..])
  {
    var f := FLAG;
    assert RunsAtMost(6, 5, f[6..]);
    assert f[5..][1..] == f[6..] && f[4..][1..] == f[5..] && f[3..][1..] == f[4..];
    assert f[2..][1..] == f[3..] && f[1..][1..] == f[2..];
    assert RunsAtMost(6, 4, f[5..]);
    assert RunsAtMost(6, 3, f[4..]);
    assert RunsAtMost(6, 2, f[3..]);
    assert RunsAtMost(6, 1, f[2..]);
    assert RunsAtMost(6, 0, f[1..]);
  }

  lemma FlagStretch(d: Del, r: Ref, max: nat)
    requires Agree(d, r) && AtBoundary(r) && |r.held| <= max
    ensures Tame(d, FLAG, max)
    ensures Agree(DelRun(d, FLAG), Ref(0, false, true, [], Closed(r.ends, true, r.held)))
    ensures DelRun(d, FLAG[..7]).ends == d.ends
  {
    FlagRuns(r.ones);
    RefFlag(r);
    forall k | 0 <= k <= |FLAG|
      ensures OpenBody(RefRun(r, FLAG[..k])) <= max
    {
      if k == 0 {
        assert FLAG[..0] == [];
      } else if k < 8 {
        RefFlagOnes(r, k);
      } else {
        assert FLAG[..8] == FLAG;
      }
    }
    Stretch(d, r, FLAG, max);
    RefFlagOnes(r, 7);
    FlagPrefix(7);
    RunsPrefix(6, r.ones, FLAG[..7], [false]);
    ShortRunsAgree(d, r, FLAG[..7]);
  }

  lemma SharedStretch(d: Del, r: Ref, max: nat)
    requires Agree(d, r) && r == Ref(0, false, true, [], r.ends)
    ensures Tame(d, FLAG[1..], max)
    ensures Agree(DelRun(d, FLAG[1..]), r)
  {
    FlagRuns(0);
    var line := FLAG[1..];
    forall k | 0 <= k <= |line|
      ensures OpenBody(RefRun(r, line[..k])) <= max
    {
      RefSharedFlag(r, k);
    }
    Stretch(d, r, line, max);
    RefSharedFlag(r, 7);
    assert line[..7] == line;
  }

  /** The flags after the first one of an opening change nothing. */
  lemma MoreFlags(style: FlagStyle, d: Del, r: Ref, max: nat)
    requires Agree(d, r) && r == Ref(0, false, true, [], r.ends)
    ensures OpeningFlags(style)[..8] == FLAG
    ensures Tame(d, OpeningFlags(style)[8..], max)
    ensures Agree(DelRun(d, OpeningFlags(style)[8..]), r)
  {
    match style
    case One =>
      assert FLAG[8..] == [];
    case Shared =>
      assert (FLAG + FLAG[1..])[8..] == FLAG[1..];
      SharedStretch(d, r, max);
    case Two =>
      assert (FLAG + FLAG)[8..] == FLAG;
      FlagStretch(d, r, max);
    case Three =>
      assert (FLAG + FLAG + FLAG)[8..] == FLAG + FLAG;
      FlagStretch(d, r, max);
      FlagStretch(DelRun(d, FLAG), r, max);
      DelAppend(d, FLAG, FLAG);
      TameAppend(d, FLAG, FLAG, max);
  }

  lemma BodyStretch(d: Del, r: Ref, body: seq<bool>, max: nat)
    requires Agree(d, r) && r == Ref(0, false, true, [], r.ends) && |body| <= max
    ensures Tame(d, Stuff(0, body), max)
    ensures var r' := RefRun(r, Stuff(0, body));
            && Agree(DelRun(d, Stuff(0, body)), r') && AtBoundary(r')
            && r'.held == body && r'.ends == r.ends
  {
    var line := Stuff(0, body);
    StuffedRuns(0, body);
    RunsRelax(5, 6, 0, line);
    RefStuffed(r, body);
    assert [] + body == body;
    forall k | 0 <= k <= |line|
      ensures OpenBody(RefRun(r, line[..k])) <= max
    {
      assert line == line[..k] + line[k..];
      RunsPrefix(5, 0, line[..k], line[k..]);
      RefQuiet(r, line[..k]);
      HeldGrows(r, line[..k], line[k..]);
    }
    Stretch(d, r, line, max);
  }

  lemma {:induction false} HeldGrows(r: Ref, s: seq<bool>, t: seq<bool>)
    requires r.synced && r.ones <= 5 && RunsAtMost(5, r.ones, s + t)
    ensures |RefRun(r, s).held| <= |RefRun(r, s + t).held|
    decreases |s|
  {
    if |s| == 0 {
      assert s + t == t;
      RefQuiet(r, t);
    } else {
      var rest := s[1..];
      assert s == [s[0]] + rest && s + t == [s[0]] + (rest + t);
      assert (s + t)[1..] == rest + t;
      RefAppend(r, [s[0]], rest);
      RefAppend(r, [s[0]], rest + t);
      RefOne(r, s[0]);
      HeldGrows(RefStep(r, s[0]), rest, t);
    }
  }

  // ---- one item ----

  /** What the next flag will close after an item. */
  function Left(f: Format, item: Item): seq<bool> {
    if item.Frame? then Body(f.complement, item.data) else []
  }

  lemma ItemHead(f: Format, item: Item)
    requires !item.Mark?
    ensures ItemBits(f, item)[..8] == FLAG
  {
    if item.Frame? {
      assert OpeningFlags(f.style)[..8] == FLAG;
      assert ItemBits(f, item)[..8] == OpeningFlags(f.style)[..8];
    }
  }

  /** Everything in an item after its first flag. */
  lemma ItemTail(f: Format, item: Item, d: Del, r: Ref, max: nat)
    requires !item.Mark? && |Left(f, item)| <= max
    requires Agree(d, r) && r == Ref(0, false, true, [], r.ends)
    ensures Tame(d, ItemBits(f, item)[8..], max)
    ensures exists r' :: Agree(DelRun(d, ItemBits(f, item)[8..]), r') && AtBoundary(r') &&
              r'.held == Left(f, item) && r'.ends == r.ends
  {
    var line := ItemBits(f, item)[8..];
    if item.Flag? {
      assert line == [];
      assert Agree(DelRun(d, line), r) && AtBoundary(r);
    } else {
      var flags, body := OpeningFlags(f.style)[8..], Body(f.complement, item.data);
      assert line == flags + Stuff(0, body);
      MoreFlags(f.style, d, r, max);
      BodyStretch(DelRun(d, flags), r, body, max);
      DelAppend(d, flags, Stuff(0, body));
      TameAppend(d, flags, Stuff(0, body), max);
    }
  }

  /** A machine at an item boundary: hunting, or synchronised with `left` still to be closed. */
  ghost predicate Boundary(d: Del, left: seq<bool>) {
    && DelOk(d)
    && (!d.synced ==> left == [])
    && (d.synced ==> exists r :: Agree(d, r) && AtBoundary(r) && r.held == left)
  }

  lemma FlagFromHunt(d: Del, max: nat)
    requires DelOk(d) && !d.synced
    ensures Tame(d, FLAG, max)
    ensures DelRun(d, FLAG) == Del(0, true, [], d.ends)
    ensures DelRun(d, FLAG[..7]).ends == d.ends
  {
    FlagPrefix(7);
    assert FLAG[..7] == [false] + Repeat(true, 6);
    var d1 := DelStep(d, false);
    assert [false][..0] == [];
    assert DelRun(d, []) == d;
    assert DelRun(d, [false]) == d1;
    HuntOnes(d1, 6, max);
    DelAppend(d, [false], Repeat(true, 6));
    TameAppend(d, [false], Repeat(true, 6), max);
    assert Tame(d, [], max);
    assert Tame(d, [false], max);
    assert FLAG[..|FLAG| - 1] == FLAG[..7];
  }

  lemma {:induction false} HuntOnes(d: Del, k: nat, max: nat)
    requires d.q <= 1 && d.acc == [] && k <= 6
    ensures Tame(d, Repeat(true, k), max)
    ensures DelRun(d, Repeat(true, k)) ==
            d.(q := if k == 0 then d.q else if d.q == 0 then 7 + k else 1 + k)
    decreases k
  {
    if k > 0 {
      RepeatSnoc(k - 1);
      assert Repeat(true, k)[..k - 1] == Repeat(true, k - 1);
      HuntOnes(d, k - 1, max);
    }
  }

  lemma HuntMark(d: Del)
    requires DelOk(d) && !d.synced
    ensures var d' := DelStep(d, true); !d'.synced && DelOk(d') && d'.ends == d.ends && d'.acc == []
  {
  }

  lemma {:induction false} HuntMarks(d: Del, k: nat, max: nat)
    requires DelOk(d) && !d.synced
    ensures Tame(d, Repeat(true, k), max)
    ensures var d' := DelRun(d, Repeat(true, k)); !d'.synced && DelOk(d') && d'.ends == d.ends
    decreases k
  {
    if k > 0 {
      RepeatSnoc(k - 1);
      assert Repeat(true, k)[..k - 1] == Repeat(true, k - 1);
      HuntMarks(d, k - 1, max);
      HuntMark(DelRun(d, Repeat(true, k - 1)));
    }
  }

  /** One flag or frame from an item boundary. */
  lemma ItemRun(f: Format, item: Item, d: Del, left: seq<bool>, max: nat)
    requires !item.Mark? && Boundary(d, left) && |left| <= max && |Left(f, item)| <= max
    ensures Tame(d, ItemBits(f, item), max)
    ensures var d' := DelRun(d, ItemBits(f, item));
            Boundary(d', Left(f, item)) && d'.synced && d'.ends == Closed(d.ends, d.synced, left)
    ensures DelRun(d, FLAG[..7]).ends == d.ends
    ensures DelRun(d, FLAG).ends == Closed(d.ends, d.synced, left)
  {
    var line := ItemBits(f, item);
    ItemHead(f, item);
    assert line == FLAG + line[8..];
    var r0 := Ref(0, false, true, [], Closed(d.ends, d.synced, left));
    if d.synced {
      var r :| Agree(d, r) && AtBoundary(r) && r.held == left;
      FlagStretch(d, r, max);
    } else {
      FlagFromHunt(d, max);
    }
    assert Agree(DelRun(d, FLAG), r0);
    ItemTail(f, item, DelRun(d, FLAG), r0, max);
    DelAppend(d, FLAG, line[8..]);
    TameAppend(d, FLAG, line[8..], max);
  }

  // ---- the whole line ----

  /** The body left open at the end of a string of items. */
  function LeftOver(f: Format, items: seq<Item>): seq<bool> {
    if |items| == 0 then [] else Left(f, items[|items| - 1])
  }

  predicate BodiesFit(f: Format, items: seq<Item>, max: nat) {
    forall i :: 0 <= i < |items| ==> |Left(f, items[i])| <= max
  }

  lemma MarksDeliver(f: Format, items: seq<Item>, n: nat)
    requires AllMarks(items)
    ensures Frames(items) == [] && Delivered(f, items, n) == []
    decreases |items|
  {
    if |items| > 0 { MarksDeliver(f, items[..|items| - 1], n); }
  }

  lemma BodiesSnoc(complement: bool, frames: seq<seq<octet>>, data: seq<octet>)
    ensures Bodies(complement, frames + [data]) == Bodies(complement, frames) + [Body(complement, data)]
  {
  }

  /** Where the machine stands after a whole string of items: the bodies closed are those of all frames
      but one that still waits for its flag. */
  ghost predicate StandsAfter(f: Format, items: seq<Item>, d: Del) {
    && Boundary(d, LeftOver(f, items)) && (d.synced <==> !AllMarks(items))
    && Closed(d.ends, d.synced, LeftOver(f, items)) == Bodies(f.complement, Frames(items))
    && (|items| > 0 ==> d.ends == Bodies(f.complement, Frames(items[..|items| - 1])))
  }

  lemma AfterMark(f: Format, front: seq<Item>, d: Del, max: nat)
    requires StandsAfter(f, front, d) && AllMarks(front)
    ensures StandsAfter(f, front + [Mark], DelRun(d, Repeat(true, 8)))
    ensures Tame(d, Repeat(true, 8), max)
  {
    hide DelRun, Tame, Body, Repeat;
    assert (front + [Mark])[..|front|] == front;
    MarksDeliver(f, front, 0);
    MarksDeliver(f, front + [Mark], 0);
    HuntMarks(d, 8, max);
  }

  lemma AfterItem(f: Format, front: seq<Item>, item: Item, d: Del, max: nat)
    requires StandsAfter(f, front, d) && !item.Mark?
    requires |LeftOver(f, front)| <= max && |Left(f, item)| <= max
    ensures StandsAfter(f, front + [item], DelRun(d, ItemBits(f, item)))
    ensures Tame(d, ItemBits(f, item), max)
  {
    hide DelRun, Tame, Body, ItemBits, Boundary;
    var items := front + [item];
    assert items[..|front|] == front && items[|front|] == item;
    ItemRun(f, item, d, LeftOver(f, front), max);
    if item.Frame? { BodiesSnoc(f.complement, Frames(front), item.data); }
  }

  /** The whole of a line, tame throughout. */
  lemma {:induction false} WholeLine(f: Format, items: seq<Item>, max: nat)
    requires WellFormed(items) && BodiesFit(f, items, max)
    ensures StandsAfter(f, items, DelRun(FRESH, LineBits(f, items)))
    ensures Tame(FRESH, LineBits(f, items), max)
    decreases |items|
  {
    if |items| > 0 {
      hide DelRun, Tame, ItemBits, StandsAfter;
      var front, item := items[..|items| - 1], items[|items| - 1];
      assert items == front + [item];
      WholeLine(f, front, max);
      var d := DelRun(FRESH, LineBits(f, front));
      DelAppend(FRESH, LineBits(f, front), ItemBits(f, item));
      TameAppend(FRESH, LineBits(f, front), ItemBits(f, item), max);
      if item.Mark? {
        MarkItem(f);
        AfterMark(f, front, d, max);
      } else {
        AfterItem(f, front, item, d, max);
      }
    }
  }

  lemma MarkItem(f: Format)
    ensures ItemBits(f, Mark) == Repeat(true, 8)
  {
  }

  lemma Sandwich(a: seq<seq<bool>>, b: seq<seq<bool>>, c: seq<seq<bool>>)
    requires a <= b && b <= c && a == c
    ensures b == a
  {
  }

  /** Bodies that are the same at two points of the line are the same between them. */
  lemma {:induction false} EndsBetween(d: Del, s: seq<bool>, t: seq<bool>, u: seq<bool>)
    requires d.q < RX_STATES && DelRun(d, s).ends == DelRun(d, s + t + u).ends
    ensures DelRun(d, s + t).ends == DelRun(d, s).ends
  {
    hide DelRun;
    EndsGrow(d, s, t);
    EndsGrow(d, s + t, u);
    Sandwich(DelRun(d, s).ends, DelRun(d, s + t).ends, DelRun(d, s + t + u).ends);
  }

  lemma {:induction false} EndsAt(d: Del, line: seq<bool>, m: nat, k: nat, n: nat)
    requires d.q < RX_STATES && m <= k <= n <= |line|
    requires DelRun(d, line[..n]).ends == DelRun(d, line[..m]).ends
    ensures DelRun(d, line[..k]).ends == DelRun(d, line[..m]).ends
  {
    hide DelRun;
    ThreeParts(line, m, k, n);
    EndsBetween(d, line[..m], line[m..k], line[k..n]);
  }

  lemma ThreeParts(line: seq<bool>, m: nat, k: nat, n: nat)
    requires m <= k <= n <= |line|
    ensures line[..k] == line[..m] + line[m..k] && line[..n] == line[..m] + line[m..k] + line[k..n]
  {
  }

  /** Part of an item: nothing is closed before the whole of its first flag, and nothing after it. */
  lemma ItemPrefix(f: Format, item: Item, d: Del, left: seq<bool>, max: nat, k: nat)
    requires !item.Mark? && Boundary(d, left) && |left| <= max && |Left(f, item)| <= max
    requires k <= |ItemBits(f, item)|
    ensures DelRun(d, ItemBits(f, item)[..k]).ends ==
            if k < 8 then d.ends else Closed(d.ends, d.synced, left)
  {
    var line := ItemBits(f, item);
    ItemRun(f, item, d, left, max);
    ItemHead(f, item);
    hide *;
    if k < 8 { HeadEnds(d, line, k); } else { EndsFrom(d, line, k); }
  }

  lemma HeadEnds(d: Del, line: seq<bool>, k: nat)
    requires d.q < RX_STATES && k < 8 <= |line| && line[..8] == FLAG && DelRun(d, FLAG[..7]).ends == d.ends
    ensures DelRun(d, line[..k]).ends == d.ends
  {
    hide *;
    DelNothing(d);
    assert line[..7] == line[..8][..7] && line[..0] == [];
    EndsAt(d, line, 0, k, 7);
  }

  lemma DelNothing(d: Del)
    requires d.q < RX_STATES
    ensures DelRun(d, []) == d
  {
  }

  lemma EndsFrom(d: Del, line: seq<bool>, k: nat)
    requires d.q < RX_STATES && 8 <= k <= |line| && line[..8] == FLAG && DelRun(d, FLAG).ends == DelRun(d, line).ends
    ensures DelRun(d, line[..k]).ends == DelRun(d, line).ends
  {
    hide *;
    assert line[..|line|] == line;
    EndsAt(d, line, 8, k, |line|);
  }

  lemma ShortDelivered(f: Format, items: seq<Item>, n: nat)
    requires |items| > 0 && n >= |LineBits(f, items)|
    ensures Delivered(f, items, n) == Frames(items[..|items| - 1])
  {
  }

  /** After any number of bits the bodies closed are those of the frames a whole flag has followed. */
  lemma {:induction false} PrefixEnds(f: Format, items: seq<Item>, n: nat, max: nat)
    requires WellFormed(items) && BodiesFit(f, items, max)
    requires n <= |LineBits(f, items)|
    ensures DelRun(FRESH, LineBits(f, items)[..n]).ends == Bodies(f.complement, Delivered(f, items, n))
    decreases |items|
  {
    if |items| == 0 {
      assert LineBits(f, items)[..n] == [];
    } else {
      var front, item := items[..|items| - 1], items[|items| - 1];
      var line := LineBits(f, front);
      if n <= |line| {
        assert LineBits(f, items)[..n] == line[..n];
        PrefixEnds(f, front, n, max);
      } else {
        PrefixInItem(f, items, n, max);
      }
    }
  }

  /** The same when the bits end inside the last item. */
  lemma PrefixInItem(f: Format, items: seq<Item>, n: nat, max: nat)
    requires WellFormed(items) && BodiesFit(f, items, max) && |items| > 0
    requires |LineBits(f, items[..|items| - 1])| < n <= |LineBits(f, items)|
    ensures DelRun(FRESH, LineBits(f, items)[..n]).ends == Bodies(f.complement, Delivered(f, items, n))
  {
    var front, item := items[..|items| - 1], items[|items| - 1];
    var line, bits := LineBits(f, front), ItemBits(f, item);
    assert LineBits(f, items)[..n] == line + bits[..n - |line|];
    hide LineBits;
    DelAppend(FRESH, line, bits[..n - |line|]);
    if item.Mark? { PrefixInMark(f, items, n, max); } else { PrefixInFrame(f, items, n, max); }
  }

  lemma PrefixInMark(f: Format, items: seq<Item>, n: nat, max: nat)
    requires WellFormed(items) && BodiesFit(f, items, max) && |items| > 0 && items[|items| - 1].Mark?
    requires |LineBits(f, items[..|items| - 1])| < n <= |LineBits(f, items)|
    ensures var line := LineBits(f, items[..|items| - 1]);
            n - |line| <= 8 &&
            DelRun(DelRun(FRESH, line), ItemBits(f, Mark)[..n - |line|]).ends ==
            Bodies(f.complement, Delivered(f, items, n))
  {
    var front := items[..|items| - 1];
    MarkItem(f);
    assert AllMarks(front) && AllMarks(items);
    hide DelRun, ItemBits, Bodies, Body, LineBits, Boundary, LeftOver, WellFormed, Tame, Delivered, Frames;
    var d := DelRun(FRESH, LineBits(f, front));
    WholeLine(f, front, max);
    MarksDeliver(f, items, n);
    MarksDeliver(f, front, n);
    assert !d.synced && d.ends == Bodies(f.complement, Frames(front));
    NoBodies(f.complement);
    BoundaryOk(d, LeftOver(f, front));
    MarkPrefix(d, n - |LineBits(f, front)|, max);
  }

  lemma BoundaryOk(d: Del, left: seq<bool>)
    requires Boundary(d, left)
    ensures DelOk(d)
  {
  }

  lemma PrefixInFrame(f: Format, items: seq<Item>, n: nat, max: nat)
    requires WellFormed(items) && BodiesFit(f, items, max) && |items| > 0 && !items[|items| - 1].Mark?
    requires |LineBits(f, items[..|items| - 1])| < n <= |LineBits(f, items)|
    ensures var line, bits := LineBits(f, items[..|items| - 1]), ItemBits(f, items[|items| - 1]);
            n - |line| <= |bits| &&
            DelRun(DelRun(FRESH, line), bits[..n - |line|]).ends == Bodies(f.complement, Delivered(f, items, n))
  {
    var front, item := items[..|items| - 1], items[|items| - 1];
    var line := LineBits(f, front);
    assert |LineBits(f, items)| == |line| + |ItemBits(f, item)|;
    assert Delivered(f, items, n) == if |line| + 8 <= n then Frames(front) else Delivered(f, front, n);
    hide DelRun, ItemBits, Bodies, Body, LineBits, Delivered;
    WholeLine(f, front, max);
    ItemPrefix(f, item, DelRun(FRESH, line), LeftOver(f, front), max, n - |line|);
    if |front| == 0 { MarksDeliver(f, front, n); } else { ShortDelivered(f, front, n); }
    NoBodies(f.complement);
  }

  lemma NoBodies(complement: bool)
    ensures Bodies(complement, []) == []
  {
  }

  lemma MarkPrefix(d: Del, k: nat, max: nat)
    requires DelOk(d) && !d.synced && k <= 8
    ensures DelRun(d, Repeat(true, 8)[..k]).ends == d.ends
  {
    RepeatAppend(true, k, 8 - k);
    assert Repeat(true, 8)[..k] == Repeat(true, k);
    HuntMarks(d, k, max);
  }
}
