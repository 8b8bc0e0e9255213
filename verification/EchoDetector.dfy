/** The detector of the disabling tone: energy and notch levels, tone onsets, and cycles of the right
    length, against the history of what it has seen. */
module EchoDetector {
  import opened Biquad

  /** What one sample showed: enough energy in the channel, and most of it at the tone. */
  datatype Seen = Seen(energy: bool, tone: bool)

  const SHORTEST := 3400
  const LONGEST := 3800

  // ---- the history ----

  predicate Present(h: seq<Seen>, i: int) { 0 <= i < |h| && h[i].energy && h[i].tone }

  /** The tone appears at sample `i`. */
  predicate Onset(h: seq<Seen>, i: int) { Present(h, i) && !Present(h, i - 1) }

  predicate Steady(h: seq<Seen>, from: int, to: int) {
    0 <= from && to <= |h| && forall j :: from <= j < to ==> h[j].energy
  }

  /** Energy starts at sample `i`. */
  predicate Starts(h: seq<Seen>, i: int) {
    0 <= i < |h| && h[i].energy && (i == 0 || !h[i - 1].energy)
  }

  /** `m` is the last mark before `i`: the start of the stretch of energy `i` is in, or a later onset. */
  predicate LastMark(h: seq<Seen>, m: int, i: int) {
    && 0 <= m < i <= |h| && Steady(h, m, i)
    && (Starts(h, m) || Onset(h, m))
    && forall j :: m < j < i ==> !Onset(h, j)
  }

  /** An onset that comes 425 to 475 milliseconds after the last mark. */
  ghost predicate GoodOnset(h: seq<Seen>, i: int) {
    Onset(h, i) && exists m :: LastMark(h, m, i) && SHORTEST <= i - m <= LONGEST
  }

  /** Three good onsets in one uninterrupted stretch of energy. */
  ghost predicate ThreeCycles(h: seq<Seen>, a: int, b: int, c: int) {
    a < b < c && Steady(h, a, c + 1) && GoodOnset(h, a) && GoodOnset(h, b) && GoodOnset(h, c)
  }

  ghost predicate Heard(h: seq<Seen>) {
    exists a, b, c :: ThreeCycles(h, a, b, c)
  }

  // ---- the counters ----

  datatype Counters = Counters(present: bool, duration: nat, good: nat, hit: bool)

  function Tick(d: Counters, o: Seen): Counters {
    if !o.energy then Counters(false, 0, 0, d.hit)
    else if !o.tone then Counters(false, d.duration + 1, d.good, d.hit)
    else if d.present then Counters(true, d.duration + 1, d.good, d.hit)
    else
      var good := if SHORTEST <= d.duration <= LONGEST then d.good + 1 else d.good;
      Counters(true, 1, good, d.hit || (good > d.good && good > 2))
  }

  function Count(h: seq<Seen>): Counters
    decreases |h|
  {
    if |h| == 0 then Counters(false, 0, 0, false) else Tick(Count(h[..|h| - 1]), h[|h| - 1])
  }

  // ---- the counters against the history ----

  /** The last mark before the end of the history; the end itself when the last sample had no energy. */
  function MarkOf(h: seq<Seen>): (m: nat)
    ensures m <= |h|
    decreases |h|
  {
    if |h| == 0 then 0
    else if !h[|h| - 1].energy then |h|
    else if Onset(h, |h| - 1) then |h| - 1
    else MarkOf(h[..|h| - 1])
  }

  lemma HistoryPrefix(h: seq<Seen>, n: nat, i: int)
    requires n <= |h| && i < n
    ensures Onset(h, i) == Onset(h[..n], i) && Present(h, i) == Present(h[..n], i)
    ensures Starts(h, i) == Starts(h[..n], i)
  {
  }

  lemma LastMarkPrefix(h: seq<Seen>, n: nat, m: int, i: int)
    requires n <= |h| && i <= n
    ensures LastMark(h, m, i) == LastMark(h[..n], m, i)
  {
    if 0 <= m < i {
      HistoryPrefix(h, n, m);
      forall j | m < j < i ensures Onset(h, j) == Onset(h[..n], j) { HistoryPrefix(h, n, j); }
      assert forall j :: m <= j < i ==> h[j] == h[..n][j];
    }
  }

  lemma GoodPrefix(h: seq<Seen>, n: nat, i: int)
    requires n <= |h| && i < n
    ensures GoodOnset(h, i) == GoodOnset(h[..n], i)
  {
    HistoryPrefix(h, n, i);
    forall m ensures LastMark(h, m, i) == LastMark(h[..n], m, i) { LastMarkPrefix(h, n, m, i); }
  }

  lemma {:induction false} MarkIsLast(h: seq<Seen>)
    requires |h| > 0 && h[|h| - 1].energy
    ensures LastMark(h, MarkOf(h), |h|)
    decreases |h|
  {
    var n := |h| - 1;
    if !Onset(h, n) {
      if n == 0 || !h[n - 1].energy {
        assert MarkOf(h[..n]) == n;
      } else {
        MarkIsLast(h[..n]);
        LastMarkPrefix(h, n, MarkOf(h[..n]), n);
      }
    }
  }

  /** There is one last mark. */
  lemma LastMarkUnique(h: seq<Seen>, m: int, m': int, i: int)
    requires LastMark(h, m, i) && LastMark(h, m', i)
    ensures m == m'
  {
    if m < m' { NoLaterMark(h, m, m', i); }
    if m' < m { NoLaterMark(h, m', m, i); }
  }

  lemma NoLaterMark(h: seq<Seen>, m: int, m': int, i: int)
    requires LastMark(h, m, i) && m < m' < i
    ensures !LastMark(h, m', i)
  {
    assert h[m' - 1].energy;
  }

  lemma GoodByMark(h: seq<Seen>, n: nat)
    requires n < |h| && Onset(h, n)
    ensures GoodOnset(h, n) <==> SHORTEST <= n - MarkOf(h[..n]) <= LONGEST
  {
    var m := MarkOf(h[..n]);
    if n > 0 && h[n - 1].energy {
      MarkIsLast(h[..n]);
      LastMarkPrefix(h, n, m, n);
      if GoodOnset(h, n) {
        var m' :| LastMark(h, m', n) && SHORTEST <= n - m' <= LONGEST;
        LastMarkUnique(h, m, m', n);
      }
    } else {
      assert m == n;
      forall m' | 0 <= m' < n ensures !LastMark(h, m', n) { assert !h[n - 1].energy; }
    }
  }

  /** An onset is good if and only if it comes 3400 to 3800 samples, 425 to 475 milliseconds at 8000 a second,
      after the mark before it. */
  lemma OnsetTimes(h: seq<Seen>, m: int, n: int)
    requires Onset(h, n) && LastMark(h, m, n)
    ensures GoodOnset(h, n) <==> 3400 <= n - m <= 3800
  {
    if GoodOnset(h, n) {
      var m' :| LastMark(h, m', n) && SHORTEST <= n - m' <= LONGEST;
      LastMarkUnique(h, m, m', n);
    }
  }

  /** The good onsets of the stretch of energy that is open, in order. */
  ghost function GoodOnes(h: seq<Seen>): seq<int>
    decreases |h|
  {
    if |h| == 0 || !h[|h| - 1].energy then []
    else GoodOnes(h[..|h| - 1]) + (if GoodOnset(h, |h| - 1) then [|h| - 1] else [])
  }

  ghost predicate GoodHere(h: seq<Seen>, i: int) { GoodOnset(h, i) && Steady(h, i, |h|) }

  ghost predicate Increasing(g: seq<int>) { forall k, l :: 0 <= k < l < |g| ==> g[k] < g[l] }

  lemma GoodHereStep(h: seq<Seen>, i: int)
    requires |h| > 0 && h[|h| - 1].energy && i < |h| - 1
    ensures GoodHere(h, i) <==> GoodHere(h[..|h| - 1], i)
  {
    var n := |h| - 1;
    GoodPrefix(h, n, i);
    if Steady(h, i, |h|) {
      assert forall j :: i <= j < n ==> h[..n][j] == h[j];
    }
    if Steady(h[..n], i, n) {
      assert forall j :: i <= j < n ==> h[j] == h[..n][j];
    }
  }

  /** `GoodOnes` lists the good onsets of the open stretch, in increasing order, and misses none. */
  lemma {:induction false} GoodOnesListed(h: seq<Seen>)
    ensures forall i :: i in GoodOnes(h) <==> GoodHere(h, i)
    ensures Increasing(GoodOnes(h))
    decreases |h|
  {
    if |h| > 0 {
      hide GoodOnset;
      var n := |h| - 1;
      GoodOnesListed(h[..n]);
      if h[n].energy {
        forall i
          ensures i in GoodOnes(h) <==> GoodHere(h, i)
        {
          if i < n { GoodHereStep(h, i); }
          assert GoodHere(h, i) ==> i <= n by { assert GoodOnset(h, i) ==> i <= n by { OnsetInside(h, i); } }
          assert i in GoodOnes(h[..n]) ==> i < n by { OnsetInside(h[..n], i); }
        }
        forall k | 0 <= k < |GoodOnes(h[..n])|
          ensures GoodOnes(h[..n])[k] < n
        {
          assert GoodHere(h[..n], GoodOnes(h[..n])[k]);
          OnsetInside(h[..n], GoodOnes(h[..n])[k]);
        }
      } else {
        forall i ensures !GoodHere(h, i) { if 0 <= i <= n { assert !h[n].energy; } OnsetInside(h, i); }
      }
    } else {
      forall i ensures !GoodHere(h, i) { OnsetInside(h, i); }
    }
  }

  lemma OnsetInside(h: seq<Seen>, i: int)
    ensures GoodOnset(h, i) ==> 0 <= i < |h|
  {
  }

  /** What the counters hold after any history. */
  ghost predicate Counts(h: seq<Seen>, d: Counters) {
    && d.present == Present(h, |h| - 1)
    && d.duration == |h| - MarkOf(h)
    && d.good == |GoodOnes(h)|
    && (d.hit <==> Heard(h))
  }

  lemma HeardBefore(h: seq<Seen>)
    requires |h| > 0 && Heard(h[..|h| - 1])
    ensures Heard(h)
  {
    var n := |h| - 1;
    var a, b, c :| ThreeCycles(h[..n], a, b, c);
    GoodPrefix(h, n, a);
    GoodPrefix(h, n, b);
    GoodPrefix(h, n, c);
    assert forall j :: a <= j < c + 1 ==> h[j] == h[..n][j];
    assert ThreeCycles(h, a, b, c);
  }

  lemma CyclesBefore(h: seq<Seen>, a: int, b: int, c: int)
    requires |h| > 0 && ThreeCycles(h, a, b, c) && c < |h| - 1
    ensures ThreeCycles(h[..|h| - 1], a, b, c)
  {
    var n := |h| - 1;
    GoodPrefix(h, n, a);
    GoodPrefix(h, n, b);
    GoodPrefix(h, n, c);
    assert forall j :: a <= j < c + 1 ==> h[j] == h[..n][j];
  }

  /** A third good onset in the open stretch is what makes a history heard for the first time. */
  lemma HeardNow(h: seq<Seen>)
    requires |h| > 0 && !Heard(h[..|h| - 1])
    ensures Heard(h) <==> |GoodOnes(h)| > 2 && |GoodOnes(h)| > |GoodOnes(h[..|h| - 1])|
  {
    var n := |h| - 1;
    var g := GoodOnes(h);
    GoodOnesListed(h);
    if |g| > 2 && |g| > |GoodOnes(h[..n])| {
      var k := |g| - 1;
      assert g[k] == n;
      assert GoodHere(h, g[k - 2]) && GoodHere(h, g[k - 1]) && GoodHere(h, g[k]);
      assert ThreeCycles(h, g[k - 2], g[k - 1], g[k]);
    }
    if Heard(h) {
      var a, b, c :| ThreeCycles(h, a, b, c);
      if c < n { CyclesBefore(h, a, b, c); }
      assert GoodHere(h, a) && GoodHere(h, b) && GoodHere(h, c);
      ThreeInOrder(g, a, b, c);
      assert GoodOnes(h) == GoodOnes(h[..n]) + [n];
    }
  }

  lemma ThreeInOrder(g: seq<int>, a: int, b: int, c: int)
    requires a in g && b in g && c in g && a < b < c
    ensures |g| > 2
  {
    var i, j, k :| 0 <= i < |g| && 0 <= j < |g| && 0 <= k < |g| && g[i] == a && g[j] == b && g[k] == c;
    assert i != j && j != k && i != k;
  }

  /** After every history the counters hold what the history says; in particular a hit is reported exactly
      when some uninterrupted stretch of energy has had three onsets of the tone, each 3400 to 3800 samples
      after the onset before it or the start of the stretch. */
  lemma {:induction false} CountersTell(h: seq<Seen>)
    ensures Counts(h, Count(h))
    decreases |h|
  {
    if |h| > 0 {
      var n := |h| - 1;
      CountersTell(h[..n]);
      HistoryPrefix(h, n, n - 1);
      if Onset(h, n) { GoodByMark(h, n); }
      if Heard(h[..n]) { HeardBefore(h); } else { HeardNow(h); }
    } else {
      forall a, b, c ensures !ThreeCycles(h, a, b, c) {
      }
    }
  }

  /** A hit is never taken back. */
  lemma {:induction false} HitStays(h: seq<Seen>, more: seq<Seen>)
    requires Count(h).hit
    ensures Count(h + more).hit
    decreases |more|
  {
    if |more| == 0 {
      assert h + more == h;
    } else {
      assert (h + more)[..|h + more| - 1] == h + more[..|more| - 1];
      HitStays(h, more[..|more| - 1]);
    }
  }

  lemma CountNext(h: seq<Seen>, o: Seen)
    ensures Count(h + [o]) == Tick(Count(h), o)
  {
    assert (h + [o])[..|h|] == h;
  }

  /** A level moved towards the size of a sample, the difference divided down. */
  function Damped(level: int, x: int, slowness: nat): int
    requires slowness > 0
  {
    level + (Abs(x) - level) / slowness
  }

  /** The level moves by as many whole parts of the difference as there are: it never passes the size of the
      sample, comes nearer unless it is less than one part below it, and stays then. */
  lemma DampedMoves(level: int, x: int, slowness: nat)
    requires slowness > 1
    ensures var level' := Damped(level, x, slowness);
            && 0 <= Abs(x) - level - slowness * (level' - level) < slowness
            && (level <= Abs(x) ==> level <= level' <= Abs(x))
            && (level > Abs(x) ==> Abs(x) <= level' < level)
            && (level' == level <==> 0 <= Abs(x) - level < slowness)
  {
    WholeParts(Abs(x) - level, slowness);
  }

  /** A floor division by more than one. */
  lemma WholeParts(d: int, n: nat)
    requires n > 1
    ensures 0 <= d - n * (d / n) < n && (d / n == 0 <==> 0 <= d < n)
    ensures if d >= 0 then 0 <= d / n <= d else d <= d / n < 0
  {
    var m, r := d / n, d % n;
    assert d == n * m + r;
    if m >= 0 { Times(n, m); } else { Times(n, -m); }
    PartsBetween(d, n, m, r, n * m, n * -m);
  }

  lemma PartsBetween(d: int, n: nat, m: int, r: int, p: int, p': int)
    requires n > 1 && d == p + r && 0 <= r < n && p == -p'
    requires m >= 0 ==> p >= m && (m > 0 ==> p >= n + m - 1)
    requires m < 0 ==> p' >= n - m - 1
    ensures 0 <= d - p < n && (m == 0 && p == 0 ==> 0 <= d < n) && (0 <= d < n ==> m == 0)
    ensures if d >= 0 then 0 <= m <= d else d <= m < 0
  {
  }

  lemma {:induction false} Times(n: nat, m: nat)
    requires n > 1
    ensures n * m >= m && (m > 0 ==> n * m >= n + m - 1)
    decreases m
  {
    if m > 0 {
      Times(n, m - 1);
      assert n * m == n * (m - 1) + n;
    }
  }

  function DampedRun(level: int, xs: seq<int>, slowness: nat): int
    requires slowness > 0
    decreases |xs|
  {
    if |xs| == 0 then level else Damped(DampedRun(level, xs[..|xs| - 1], slowness), xs[|xs| - 1], slowness)
  }

  /** Over samples of one size a level settles less than one part below it, from wherever it was. */
  lemma {:induction false} LevelSettles(level: int, xs: seq<int>, a: nat, slowness: nat)
    requires slowness > 1 && forall i :: 0 <= i < |xs| ==> Abs(xs[i]) == a
    ensures var settled := DampedRun(level, xs, slowness);
            0 <= a - settled < slowness || Abs(a - settled) <= Abs(a - level) - |xs|
    decreases |xs|
  {
    if |xs| > 0 {
      var front, x := xs[..|xs| - 1], xs[|xs| - 1];
      LevelSettles(level, front, a, slowness);
      DampedMoves(DampedRun(level, front, slowness), x, slowness);
    }
  }

  // ---- the history of what a line of samples shows ----

  /** The line with the tone filtered out. */
  function Notched(amps: seq<int>): seq<int>
    decreases |amps|
  {
    if |amps| == 0 then []
    else
      var front := amps[..|amps| - 1];
      Notched(front) + [Wrap16(Output(After(front), amps[|amps| - 1]))]
  }

  /** What the levels show after the last of these samples: energy, and most of it at the tone. */
  function Shows(amps: seq<int>): Seen {
    var channel := DampedRun(0, amps, 32);
    Seen(channel > 280, DampedRun(0, Notched(amps), 16) * 6 < channel)
  }

  function Shown(amps: seq<int>): (h: seq<Seen>)
    ensures |h| == |amps|
    decreases |amps|
  {
    if |amps| == 0 then [] else Shown(amps[..|amps| - 1]) + [Shows(amps)]
  }

  lemma OneAmpMore(amps: seq<int>, amp: int)
    ensures After(amps + [amp]) == Next(After(amps), amp)
    ensures Notched(amps + [amp]) == Notched(amps) + [Wrap16(Output(After(amps), amp))]
    ensures DampedRun(0, amps + [amp], 32) == Damped(DampedRun(0, amps, 32), amp, 32)
    ensures DampedRun(0, Notched(amps + [amp]), 16) ==
            Damped(DampedRun(0, Notched(amps), 16), Wrap16(Output(After(amps), amp)), 16)
    ensures Shown(amps + [amp]) == Shown(amps) + [Shows(amps + [amp])]
  {
    hide Output, Wrap16, Next, Damped;
    assert (amps + [amp])[..|amps|] == amps;
    var y := Wrap16(Output(After(amps), amp));
    assert (Notched(amps) + [y])[..|Notched(amps)|] == Notched(amps);
  }

  lemma {:induction false} SoftStaysLow(amps: seq<int>, a: nat)
    requires forall i :: 0 <= i < |amps| ==> Abs(amps[i]) <= a
    ensures 0 <= DampedRun(0, amps, 32) <= a
    decreases |amps|
  {
    if |amps| > 0 {
      SoftStaysLow(amps[..|amps| - 1], a);
      DampedMoves(DampedRun(0, amps[..|amps| - 1], 32), amps[|amps| - 1], 32);
    }
  }

  /** A line with no sample beyond 280 is never taken for the tone, whatever is on it. */
  lemma {:induction false} SoftIsNeverHeard(amps: seq<int>)
    requires forall i :: 0 <= i < |amps| ==> Abs(amps[i]) <= 280
    ensures !Heard(Shown(amps))
    ensures forall i :: 0 <= i < |amps| ==> !Shown(amps)[i].energy
    decreases |amps|
  {
    if |amps| > 0 {
      SoftIsNeverHeard(amps[..|amps| - 1]);
      SoftStaysLow(amps, 280);
    }
    forall a, b, c ensures !ThreeCycles(Shown(amps), a, b, c) {
    }
  }

  class Detector {
    var notch: Filter
    var notchLevel: int
    var channelLevel: int
    var tonePresent: bool
    var toneCycleDuration: nat
    var goodCycles: nat
    var hit: bool

    /** Every sample so far, as the levels showed it. */
    ghost var history: seq<Seen>

    /** The samples themselves. */
    ghost var amps: seq<int>

    ghost predicate Valid()
      reads this, notch
    {
      && notch.Valid() && Reachable(Taps(notch.z1, notch.z2), 0x8000)
      && 0 <= notchLevel <= 0x8000 && 0 <= channelLevel <= 0x8000
      && Taps(notch.z1, notch.z2) == After(amps)
      && channelLevel == DampedRun(0, amps, 32) && notchLevel == DampedRun(0, Notched(amps), 16)
      && history == Shown(amps)
      && Counters(tonePresent, toneCycleDuration, goodCycles, hit) == Count(history)
    }

    constructor ()
      ensures Valid() && fresh(notch) && amps == [] && !hit
    {
      notch := new Filter();
      channelLevel, notchLevel, tonePresent, toneCycleDuration, goodCycles, hit := 0, 0, false, 0, 0, false;
      history, amps := [], [];
    }

    /** What the levels say of this sample, and the counters moved on by it. */
    method Judge() returns (ghost seen: Seen)
      modifies `tonePresent, `toneCycleDuration, `goodCycles, `hit
      ensures seen == Seen(channelLevel > 280, notchLevel * 6 < channelLevel) && (old(hit) ==> hit)
      ensures Counters(tonePresent, toneCycleDuration, goodCycles, hit) ==
              Tick(old(Counters(tonePresent, toneCycleDuration, goodCycles, hit)), seen)
    {
      seen := Seen(channelLevel > 280, notchLevel * 6 < channelLevel);
      if channelLevel > 280 {
        if notchLevel * 6 < channelLevel {
          if !tonePresent {
            if 425 * 8 <= toneCycleDuration <= 475 * 8 {
              goodCycles := goodCycles + 1;
              if goodCycles > 2 {
                hit := true;
              }
            }
            toneCycleDuration := 0;
          }
          tonePresent := true;
        } else {
          tonePresent := false;
        }
        toneCycleDuration := toneCycleDuration + 1;
      } else {
        tonePresent := false;
        toneCycleDuration := 0;
        goodCycles := 0;
      }
    }

    /** One sample: the levels move and stay in range, and a hit means what the line so far has shown. */
    method Update(amp: int) returns (found: bool)
      requires Valid() && Fits16(amp)
      modifies this, notch
      ensures Valid() && notch == old(notch) && amps == old(amps) + [amp]
      ensures found == hit && (found <==> Heard(Shown(amps))) && (old(hit) ==> hit)
      ensures history == old(history) + [Seen(channelLevel > 280, notchLevel * 6 < channelLevel)]
      ensures 0 <= Abs(amp) - old(channelLevel) - 32 * (channelLevel - old(channelLevel)) < 32
      ensures var y := Wrap16(Output(After(old(amps)), amp));
              0 <= Abs(y) - old(notchLevel) - 16 * (notchLevel - old(notchLevel)) < 16
    {
      hide Reachable, Heard, Count, Next, Wrap16, Output, Tick, Shown, Notched, DampedRun, After;
      OneAmpMore(amps, amp);
      var notched := notch.Biquad2(amp);
      CutTo16(Output(old(Taps(notch.z1, notch.z2)), amp));
      channelLevel := channelLevel + (Abs(amp) - channelLevel) / 32;
      notchLevel := notchLevel + (Abs(notched) - notchLevel) / 16;
      ghost var seen := Judge();
      amps := amps + [amp];
      CountNext(history, seen);
      history := history + [seen];
      CountersTell(history);
      found := hit;
    }
  }
}
