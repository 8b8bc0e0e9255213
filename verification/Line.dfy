/** The line as a string of items: idle marks before the first frame, then frames and idle flags. */
module Line {
  import opened Bits
  import opened Crc
  import opened Stuffing
  import opened Deleter

  datatype FlagStyle = One | Shared | Two | Three

  datatype Item = Mark | Flag | Frame(data: seq<octet>)

  /** The flags put before a frame; they also close the frame before it. */
  function OpeningFlags(style: FlagStyle): seq<bool> {
    match style
    case One => FLAG
    case Shared => FLAG + FLAG[1..]
    case Two => FLAG + FLAG
    case Three => FLAG + FLAG + FLAG
  }

  /** A frame between its flags: the message, then its check bits. */
  function Body(complement: bool, data: seq<octet>): (s: seq<bool>)
    ensures |s| == 8 * |data| + 16
  {
    Spread(data) + CheckBits(complement, MessageCrc(data))
  }

  datatype Format = Format(style: FlagStyle, complement: bool)

  function ItemBits(f: Format, item: Item): (s: seq<bool>)
    ensures |s| >= 8
  {
    match item
    case Mark => Repeat(true, 8)
    case Flag => FLAG
    case Frame(data) => OpeningFlags(f.style) + Stuff(0, Body(f.complement, data))
  }

  function LineBits(f: Format, items: seq<Item>): seq<bool>
    decreases |items|
  {
    if |items| == 0 then []
    else LineBits(f, items[..|items| - 1]) + ItemBits(f, items[|items| - 1])
  }

  function Frames(items: seq<Item>): seq<seq<octet>>
    decreases |items|
  {
    if |items| == 0 then []
    else Frames(items[..|items| - 1]) +
         (if items[|items| - 1].Frame? then [items[|items| - 1].data] else [])
  }

  predicate AllMarks(items: seq<Item>) { forall i :: 0 <= i < |items| ==> items[i].Mark? }

  /** Marks come before everything else. */
  predicate WellFormed(items: seq<Item>)
    decreases |items|
  {
    |items| == 0 ||
    (WellFormed(items[..|items| - 1]) && (items[|items| - 1].Mark? ==> AllMarks(items)))
  }

  /** The frames that a whole flag has followed within the first `n` bits of the line. */
  function Delivered(f: Format, items: seq<Item>, n: nat): seq<seq<octet>>
    decreases |items|
  {
    if |items| == 0 then []
    else
      var front := items[..|items| - 1];
      if |LineBits(f, front)| + 8 <= n then Frames(front) else Delivered(f, front, n)
  }

  function Bodies(complement: bool, frames: seq<seq<octet>>): (s: seq<seq<bool>>)
    ensures |s| == |frames|
  {
    seq(|frames|, i requires 0 <= i < |frames| => Body(complement, frames[i]))
  }

  lemma LineAppend(f: Format, items: seq<Item>, item: Item)
    ensures LineBits(f, items + [item]) == LineBits(f, items) + ItemBits(f, item)
    ensures Frames(items + [item]) == Frames(items) + (if item.Frame? then [item.data] else [])
    ensures WellFormed(items + [item]) <==>
            WellFormed(items) && (item.Mark? ==> AllMarks(items + [item]))
  {
    assert (items + [item])[..|items|] == items;
  }

  // ---- what the receiver's machine does along a line ----

  const FRESH := Del(0, false, [], [])

  /** At every point along the line the open body is at most `max` bits, and no abort comes while
      synchronised. */
  ghost predicate Tame(d: Del, line: seq<bool>, max: nat)
    requires d.q < RX_STATES
    decreases |line|
  {
    && |DelRun(d, line).acc| <= max
    && (|line| > 0 ==>
          var d' := DelRun(d, line[..|line| - 1]);
          Tame(d, line[..|line| - 1], max) && !(d'.synced && Aborts(d'.q, line[|line| - 1])))
  }

  lemma TameEnd(d: Del, line: seq<bool>, max: nat)
    requires d.q < RX_STATES && Tame(d, line, max) && |d.acc| <= max
    ensures |DelRun(d, line).acc| <= max
  {
  }

  lemma {:induction false} TameAppend(d: Del, s: seq<bool>, t: seq<bool>, max: nat)
    requires d.q < RX_STATES
    ensures Tame(d, s + t, max) <==> Tame(d, s, max) && Tame(DelRun(d, s), t, max)
    decreases |t|
  {
    if |t| == 0 {
      assert s + t == s;
      assert Tame(d, s, max) ==> |DelRun(d, s).acc| <= max;
    } else {
      assert (s + t)[..|s + t| - 1] == s + t[..|t| - 1];
      TameAppend(d, s, t[..|t| - 1], max);
      DelAppend(d, s, t);
      DelAppend(d, s, t[..|t| - 1]);
    }
  }

  lemma {:induction false} TameNoAbort(d: Del, line: seq<bool>, max: nat)
    requires DelOk(d) && d.synced && Tame(d, line, max)
    ensures NoAbort(d.q, line) && DelRun(d, line).synced
    decreases |line|
  {
    if |line| > 0 {
      TameNoAbort(d, line[..|line| - 1], max);
      DelState(d, line[..|line| - 1]);
    }
  }

  lemma {:induction false} TameMonotone(d: Del, line: seq<bool>, max: nat, max': nat)
    requires d.q < RX_STATES && Tame(d, line, max) && max <= max'
    ensures Tame(d, line, max')
    decreases |line|
  {
    if |line| > 0 { TameMonotone(d, line[..|line| - 1], max, max'); }
  }

  /** From agreement with the counter: the open body is what is held less the pending bits. */
  function OpenBody(r: Ref): int {
    |r.held| - (if r.ones < 5 then r.ones else 5) - Bit(r.zero)
  }

  lemma AgreedBody(d: Del, r: Ref)
    requires Agree(d, r) && d.synced
    ensures |d.acc| == OpenBody(r)
  {
  }

  // ---- along a flag ----

  /** The first `k` bits of a flag. */
  lemma FlagPrefix(k: nat)
    requires 1 <= k <= 7
    ensures FLAG[..k] == [false] + Repeat(true, k - 1)
    ensures FLAG == FLAG[..7] + [false]
  {
  }

  /** The counter at a flag boundary: `held` the body that the next flag will close. */
  ghost predicate AtBoundary(r: Ref) { r.synced && r.ones < 5 }

  lemma {:induction false} RefFlagOnes(r: Ref, k: nat)
    requires AtBoundary(r) && 1 <= k <= 7
    ensures RefRun(r, FLAG[..k]) ==
            Ref(k - 1, true, true, r.held + [false] + Repeat(true, if k <= 6 then k - 1 else 5), r.ends)
    decreases k
  {
    if k == 1 {
      RefOne(r, false);
      assert FLAG[..1] == [false];
      assert r.held + [false] + Repeat(true, 0) == r.held + [false];
    } else {
      RefFlagOnes(r, k - 1);
      assert FLAG[..k][..k - 1] == FLAG[..k - 1] && FLAG[..k][k - 1];
      RepeatSnoc(k - 2);
      assert r.held + [false] + Repeat(true, k - 2) + [true] ==
             r.held + [false] + (Repeat(true, k - 2) + [true]);
    }
  }

  lemma RefFlag(r: Ref)
    requires AtBoundary(r)
    ensures RefRun(r, FLAG) == Ref(0, false, true, [], Closed(r.ends, true, r.held))
  {
    RefFlagOnes(r, 7);
    var s := RefRun(r, FLAG[..7]);
    assert FLAG[..|FLAG| - 1] == FLAG[..7];
    assert Drop(s.held, 6) == r.held;
  }

  /** A flag that shares its opening zero with the flag before it. */
  lemma {:induction false} RefSharedFlag(r: Ref, k: nat)
    requires r == Ref(0, false, true, [], r.ends) && k <= 7
    ensures RefRun(r, FLAG[1..][..k]) ==
            if k == 7 then r else Ref(k, false, true, Repeat(true, if k <= 5 then k else 5), r.ends)
    decreases k
  {
    if k == 0 {
      assert Repeat(true, 0) == [];
    } else {
      RefSharedFlag(r, k - 1);
      assert FLAG[1..][..k][..k - 1] == FLAG[1..][..k - 1];
      RepeatSnoc(k - 1);
    }
  }

  /** How many flags the states complete along a line. */
  function FlagsIn(q: nat, line: seq<bool>): nat
    requires q < RX_STATES
    decreases |line|
  {
    if |line| == 0 then 0
    else
      var front := line[..|line| - 1];
      FlagsIn(q, front) + Bit(Completes(StateAfter(q, front), line[|line| - 1]))
  }

  lemma {:induction false} FlagsJoined(q: nat, s: seq<bool>, t: seq<bool>)
    requires q < RX_STATES
    ensures FlagsIn(q, s + t) == FlagsIn(q, s) + FlagsIn(StateAfter(q, s), t)
    decreases |t|
  {
    if |t| == 0 {
      assert s + t == s;
    } else {
      assert (s + t)[..|s + t| - 1] == s + t[..|t| - 1];
      FlagsJoined(q, s, t[..|t| - 1]);
      StateAppend(q, s, t[..|t| - 1]);
    }
  }

  lemma {:induction false} AlongFlag(k: nat)
    requires k <= 7
    ensures StateAfter(0, FLAG[..k]) == k && FlagsIn(0, FLAG[..k]) == 0
    ensures StateAfter(0, FLAG[1..][..k]) == (if k == 0 || k == 7 then 0 else 7 + k)
    ensures FlagsIn(0, FLAG[1..][..k]) == Bit(k == 7)
    decreases k
  {
    if k > 0 {
      AlongFlag(k - 1);
      assert FLAG[..k][..k - 1] == FLAG[..k - 1] && FLAG[1..][..k][..k - 1] == FLAG[1..][..k - 1];
    }
  }

  lemma OneFlagEach()
    ensures FlagsIn(0, FLAG) == 1 && StateAfter(0, FLAG) == 0
    ensures FlagsIn(0, FLAG[1..]) == 1 && StateAfter(0, FLAG[1..]) == 0
  {
    AlongFlag(7);
    assert FLAG[..|FLAG| - 1] == FLAG[..7] && FLAG[1..][..7] == FLAG[1..];
  }

  /** How many flags each style puts before a frame. */
  lemma OpeningCounts(style: FlagStyle)
    ensures FlagsIn(0, OpeningFlags(style)) == match style case One => 1 case Shared => 2 case Two => 2 case Three => 3
    ensures StateAfter(0, OpeningFlags(style)) == 0
  {
    hide FlagsIn, StateAfter;
    OneFlagEach();
    FlagsJoined(0, FLAG, FLAG[1..]);
    FlagsJoined(0, FLAG, FLAG);
    FlagsJoined(0, FLAG + FLAG, FLAG);
    StateAppend(0, FLAG, FLAG[1..]);
    StateAppend(0, FLAG, FLAG);
    StateAppend(0, FLAG + FLAG, FLAG);
  }

  // ---- along a stuffed body ----

  /** Over a stretch without six ones the counter only adds to what it holds. */
  lemma {:induction false} RefQuiet(r: Ref, line: seq<bool>)
    requires r.synced && r.ones <= 5 && RunsAtMost(5, r.ones, line)
    ensures var s := RefRun(r, line);
            s.synced && s.ones <= 5 && s.ends == r.ends && |s.held| >= |r.held|
    decreases |line|
  {
    if |line| > 0 {
      var b, rest := line[0], line[1..];
      assert line == [b] + rest;
      RefAppend(r, [b], rest);
      RefOne(r, b);
      RefQuiet(RefStep(r, b), rest);
    }
  }

  lemma {:induction false} RunsPrefix(limit: nat, ones: nat, s: seq<bool>, t: seq<bool>)
    requires RunsAtMost(limit, ones, s + t)
    ensures RunsAtMost(limit, ones, s)
    decreases |s|
  {
    if |s| > 0 {
      assert (s + t)[1..] == s[1..] + t;
      RunsPrefix(limit, if s[0] then ones + 1 else 0, s[1..], t);
    }
  }

  lemma {:induction false} RunsRelax(limit: nat, limit': nat, ones: nat, s: seq<bool>)
    requires RunsAtMost(limit, ones, s) && limit <= limit'
    ensures RunsAtMost(limit', ones, s)
    decreases |s|
  {
    if |s| > 0 { RunsRelax(limit, limit', if s[0] then ones + 1 else 0, s[1..]); }
  }

  /** Zero deletion by the counter undoes zero insertion by the transmitter. */
  lemma {:induction false} RefStuffed(r: Ref, s: seq<bool>)
    requires AtBoundary(r)
    ensures var t := RefRun(r, Stuff(r.ones, s));
            AtBoundary(t) && t.ones == OnesAfter(r.ones, s) && t.held == r.held + s && t.ends == r.ends
    decreases |s|
  {
    if |s| == 0 {
      assert r.held + s == r.held;
    } else {
      var line, rest := Stuff(r.ones, s), s[1..];
      assert r.held + [s[0]] + rest == r.held + s;
      if s[0] && r.ones == 4 {
        assert line == [true] + ([false] + Stuff(0, rest));
        RefAppend(r, [true], [false] + Stuff(0, rest));
        RefOne(r, true);
        RefAppend(RefStep(r, true), [false], Stuff(0, rest));
        RefOne(RefStep(r, true), false);
        RefStuffed(RefStep(RefStep(r, true), false), rest);
      } else {
        var r' := RefStep(r, s[0]);
        assert line == [s[0]] + Stuff(r'.ones, rest);
        RefAppend(r, [s[0]], Stuff(r'.ones, rest));
        RefOne(r, s[0]);
        RefStuffed(r', rest);
      }
    }
  }
}
