/** Copying between a channel and a block of interleaved octets: eight frames, each one octet for every
    channel of every span, spans innermost. */
module ChannelCopy {
  import opened Bits
  import opened Sequences

  // ---- the octets a channel owns, in the order they are copied ----

  /** The channels named by a mask, from the place `r` of the lowest one; channels are `step` apart. */
  function Rows(mask: nat, r: nat, step: nat): seq<nat>
    decreases mask
  {
    if mask == 0 then []
    else (if mask % 2 == 1 then [r] else []) + Rows(mask / 2, r + step, step)
  }

  /** The same channels in `n` successive spans. */
  function Spans(mask: nat, q: nat, n: nat, step: nat): seq<nat>
    decreases n
  {
    if n == 0 then [] else Rows(mask, q, step) + Spans(mask, q + 1, n - 1, step)
  }

  /** The same in `k` successive frames, `size` octets each. */
  function Frames(mask: nat, p: nat, k: nat, n: nat, step: nat, size: nat): seq<nat>
    decreases k
  {
    if k == 0 then [] else Spans(mask, p, n, step) + Frames(mask, p + size, k - 1, n, step, size)
  }

  function Order(mask: nat, n: nat, spans: nat, channels: nat): seq<nat> {
    Frames(mask, 0, 8, n, spans, spans * channels)
  }

  function Popcount(mask: nat): nat
    decreases mask
  {
    if mask == 0 then 0 else mask % 2 + Popcount(mask / 2)
  }

  // ---- copying out and in ----

  function Scatter(buf: seq<octet>, places: seq<nat>, data: seq<octet>): (r: seq<octet>)
    requires |data| == |places| && Below(places, |buf|)
    ensures |r| == |buf|
    decreases |places|
  {
    if |places| == 0 then buf
    else (BelowTail(places, |buf|); Scatter(buf[places[0] := data[0]], places[1..], data[1..]))
  }

  function Gather(buf: seq<octet>, places: seq<nat>): (r: seq<octet>)
    requires Below(places, |buf|)
    ensures |r| == |places|
  {
    seq(|places|, i requires 0 <= i < |places| => buf[places[i]])
  }

  ghost predicate Below(places: seq<nat>, limit: nat) {
    forall i :: 0 <= i < |places| ==> places[i] < limit
  }

  ghost predicate Apart(a: seq<nat>, b: seq<nat>) {
    forall x :: x in a ==> x !in b
  }

  lemma BelowTail(places: seq<nat>, limit: nat)
    requires Below(places, limit) && |places| > 0
    ensures places[0] < limit && Below(places[1..], limit)
  {
  }

  lemma BelowJoin(a: seq<nat>, b: seq<nat>, limit: nat)
    ensures Below(a + b, limit) <==> Below(a, limit) && Below(b, limit)
  {
    if Below(a + b, limit) {
      forall i | 0 <= i < |a| ensures a[i] < limit { assert (a + b)[i] == a[i]; }
      forall i | 0 <= i < |b| ensures b[i] < limit { assert (a + b)[|a| + i] == b[i]; }
    }
  }

  lemma {:induction false} ScatterJoin(buf: seq<octet>, a: seq<nat>, b: seq<nat>, d: seq<octet>, e: seq<octet>)
    requires |d| == |a| && |e| == |b| && Below(a, |buf|) && Below(b, |buf|)
    ensures Below(a + b, |buf|)
    ensures Scatter(buf, a + b, d + e) == Scatter(Scatter(buf, a, d), b, e)
    decreases |a|
  {
    BelowJoin(a, b, |buf|);
    if |a| == 0 {
      assert a + b == b && d + e == e;
    } else {
      assert (a + b)[1..] == a[1..] + b && (d + e)[1..] == d[1..] + e;
      ScatterJoin(buf[a[0] := d[0]], a[1..], b, d[1..], e);
    }
  }

  /** Places not copied to keep what they held. */
  lemma {:induction false} ScatterElsewhere(buf: seq<octet>, places: seq<nat>, data: seq<octet>, x: nat)
    requires |data| == |places| && Below(places, |buf|) && x < |buf| && x !in places
    ensures Scatter(buf, places, data)[x] == buf[x]
    decreases |places|
  {
    if |places| > 0 {
      ScatterElsewhere(buf[places[0] := data[0]], places[1..], data[1..], x);
    }
  }

  /** Copying in undoes copying out, when no place is used twice. */
  lemma {:induction false} GatherScatter(buf: seq<octet>, places: seq<nat>, data: seq<octet>)
    requires |data| == |places| && Below(places, |buf|) && NoTwice(places)
    ensures Gather(Scatter(buf, places, data), places) == data
    decreases |places|
  {
    if |places| > 0 {
      var buf' := buf[places[0] := data[0]];
      GatherScatter(buf', places[1..], data[1..]);
      var out := Scatter(buf, places, data);
      assert out == Scatter(buf', places[1..], data[1..]);
      ScatterElsewhere(buf', places[1..], data[1..], places[0]);
      forall i | 0 <= i < |places|
        ensures Gather(out, places)[i] == data[i]
      {
        if i > 0 { assert Gather(out, places[1..])[i - 1] == data[1..][i - 1]; }
      }
    }
  }

  /** Places apart from those copied to read as before. */
  lemma {:induction false} GatherElsewhere(buf: seq<octet>, places: seq<nat>, data: seq<octet>, others: seq<nat>)
    requires |data| == |places| && Below(places, |buf|) && Below(others, |buf|) && Apart(others, places)
    ensures Gather(Scatter(buf, places, data), others) == Gather(buf, others)
  {
    forall i | 0 <= i < |others|
      ensures Scatter(buf, places, data)[others[i]] == buf[others[i]]
    {
      ScatterElsewhere(buf, places, data, others[i]);
    }
  }

  // ---- where the places lie ----

  /** `x` is some whole number of steps from `q`. */
  ghost predicate OnGrid(x: int, q: int, step: int) { exists k: int :: GridAt(x, q, step, k) }

  predicate GridAt(x: int, q: int, step: int, k: int) { x == q + k * step }

  lemma {:induction false} RowsOnGrid(mask: nat, r: nat, step: nat, x: nat)
    requires x in Rows(mask, r, step)
    ensures OnGrid(x, r, step) && x >= r
    decreases mask
  {
    var rest := Rows(mask / 2, r + step, step);
    if x in rest {
      RowsOnGrid(mask / 2, r + step, step, x);
      var k :| GridAt(x, r + step, step, k);
      assert r + step + k * step == r + (k + 1) * step;
      assert GridAt(x, r, step, k + 1);
    } else {
      assert GridAt(x, r, step, 0);
    }
  }

  lemma {:induction false} RowsBound(mask: nat, r: nat, step: nat, c: nat, x: nat)
    requires mask < Pow2(c) && x in Rows(mask, r, step)
    ensures c > 0 && x + step <= r + c * step
    decreases c
  {
    if x in Rows(mask / 2, r + step, step) {
      RowsBound(mask / 2, r + step, step, c - 1, x);
      assert (c - 1) * step + step == c * step;
    } else {
      assert c * step == (c - 1) * step + step;
      assert (c - 1) * step >= 0;
    }
  }

  /** Grids that start less than a step apart do not meet. */
  lemma {:induction false} GridsApart(x: int, q: int, q': int, step: int)
    requires q < q' < q + step && OnGrid(x, q, step)
    ensures !OnGrid(x, q', step)
  {
    var k :| GridAt(x, q, step, k);
    forall k'
      ensures !GridAt(x, q', step, k')
    {
      if GridAt(x, q', step, k') { Multiple(k - k', step, q' - q); }
    }
  }

  lemma Multiple(k: int, step: int, d: int)
    requires 0 < d < step
    ensures k * step != d
  {
    if k >= 1 { assert k * step >= step by { MulAtLeast(k, step); } }
    if k <= 0 { assert k * step <= 0 by { MulUp(k, step); } }
  }

  lemma MulUp(k: int, step: int)
    requires k <= 0 && step >= 0
    ensures k * step <= 0
  {
  }

  /** The span that a place belongs to. */
  lemma {:induction false} SpanOf(mask: nat, q: nat, n: nat, step: nat, x: nat) returns (s: nat)
    requires x in Spans(mask, q, n, step)
    ensures s < n && x in Rows(mask, q + s, step) && OnGrid(x, q + s, step)
    decreases n
  {
    hide Rows, OnGrid;
    if x in Rows(mask, q, step) {
      RowsOnGrid(mask, q, step, x);
      s := 0;
    } else {
      s := SpanOf(mask, q + 1, n - 1, step, x);
      assert q + 1 + s == q + (s + 1);
      s := s + 1;
    }
  }

  lemma SpansRange(mask: nat, q: nat, n: nat, step: nat, c: nat, x: nat)
    requires mask < Pow2(c) && n <= step && x in Spans(mask, q, n, step)
    ensures q <= x < q + step * c
  {
    var s := SpanOf(mask, q, n, step, x);
    RowsOnGrid(mask, q + s, step, x);
    RowsBound(mask, q + s, step, c, x);
    assert step * c == c * step;
  }

  lemma {:induction false} FramesRange(mask: nat, p: nat, k: nat, n: nat, step: nat, c: nat, x: nat)
    requires mask < Pow2(c) && n <= step && x in Frames(mask, p, k, n, step, step * c)
    ensures p <= x < p + k * (step * c)
    decreases k
  {
    hide Spans, Pow2;
    OneLess(k, step * c);
    if x in Spans(mask, p, n, step) {
      SpansRange(mask, p, n, step, c, x);
    } else {
      FramesRange(mask, p + step * c, k - 1, n, step, c, x);
    }
  }

  lemma OneLess(k: nat, size: nat)
    requires k > 0
    ensures k * size == (k - 1) * size + size && (k - 1) * size >= 0
  {
  }

  // ---- no place twice, none shared ----

  lemma DistinctJoin(a: seq<nat>, b: seq<nat>)
    requires NoTwice(a) && NoTwice(b) && Apart(a, b)
    ensures NoTwice(a + b)
  {
    forall i, j | 0 <= i < j < |a + b|
      ensures (a + b)[i] != (a + b)[j]
    {
      if i < |a| && j >= |a| { assert a[i] in a && b[j - |a|] in b; }
    }
  }

  lemma LaterRows(mask: nat, r: nat, step: nat)
    requires step > 0
    ensures r !in Rows(mask, r + step, step)
  {
    if r in Rows(mask, r + step, step) { RowsOnGrid(mask, r + step, step, r); }
  }

  lemma {:induction false} RowsDistinct(mask: nat, r: nat, step: nat)
    requires step > 0
    ensures NoTwice(Rows(mask, r, step))
    decreases mask
  {
    if mask > 0 {
      RowsDistinct(mask / 2, r + step, step);
      LaterRows(mask / 2, r, step);
      DistinctJoin(if mask % 2 == 1 then [r] else [], Rows(mask / 2, r + step, step));
    }
  }

  /** Channels of one span are never those of a later span. */
  lemma RowsApartSpans(mask: nat, mask': nat, q: nat, n: nat, step: nat)
    requires n < step
    ensures Apart(Rows(mask, q, step), Spans(mask', q + 1, n, step))
  {
    forall x | x in Rows(mask, q, step)
      ensures x !in Spans(mask', q + 1, n, step)
    {
      RowsOnGrid(mask, q, step, x);
      if x in Spans(mask', q + 1, n, step) {
        var s := SpanOf(mask', q + 1, n, step, x);
        GridsApart(x, q, q + 1 + s, step);
      }
    }
  }

  lemma {:induction false} SpansDistinct(mask: nat, q: nat, n: nat, step: nat)
    requires n <= step
    ensures NoTwice(Spans(mask, q, n, step))
    decreases n
  {
    if n > 0 {
      RowsDistinct(mask, q, step);
      SpansDistinct(mask, q + 1, n - 1, step);
      RowsApartSpans(mask, mask, q, n - 1, step);
      DistinctJoin(Rows(mask, q, step), Spans(mask, q + 1, n - 1, step));
    }
  }

  /** Places of one frame are never those of a later frame. */
  lemma SpansApartFrames(mask: nat, mask': nat, p: nat, k: nat, n: nat, step: nat, c: nat)
    requires mask < Pow2(c) && mask' < Pow2(c) && n <= step
    ensures Apart(Spans(mask, p, n, step), Frames(mask', p + step * c, k, n, step, step * c))
    ensures Apart(Frames(mask', p + step * c, k, n, step, step * c), Spans(mask, p, n, step))
  {
    forall x | x in Spans(mask, p, n, step)
      ensures x !in Frames(mask', p + step * c, k, n, step, step * c)
    {
      SpansRange(mask, p, n, step, c, x);
      if x in Frames(mask', p + step * c, k, n, step, step * c) {
        FramesRange(mask', p + step * c, k, n, step, c, x);
      }
    }
  }

  lemma {:induction false} FramesDistinct(mask: nat, p: nat, k: nat, n: nat, step: nat, c: nat)
    requires mask < Pow2(c) && n <= step
    ensures NoTwice(Frames(mask, p, k, n, step, step * c))
    decreases k
  {
    if k > 0 {
      hide Spans, Pow2, Apart;
      SpansDistinct(mask, p, n, step);
      FramesDistinct(mask, p + step * c, k - 1, n, step, c);
      SpansApartFrames(mask, mask, p, k - 1, n, step, c);
      DistinctJoin(Spans(mask, p, n, step), Frames(mask, p + step * c, k - 1, n, step, step * c));
    }
  }

  /** No channel is named by both masks. */
  predicate Disjoint(m: nat, m': nat)
    decreases m
  {
    m == 0 || m' == 0 || (!(m % 2 == 1 && m' % 2 == 1) && Disjoint(m / 2, m' / 2))
  }

  /** That is, no bit is set in both. */
  lemma {:induction false} DisjointIs(m: nat, m': nat)
    ensures Disjoint(m, m') <==> forall c: nat :: !(HasBit(m, c) && HasBit(m', c))
    decreases m
  {
    if m == 0 || m' == 0 {
      forall c: nat ensures !(HasBit(m, c) && HasBit(m', c)) { NoBit(c); }
    } else {
      DisjointIs(m / 2, m' / 2);
      HalfBit(m, 0);
      HalfBit(m', 0);
      hide HasBit;
      if Disjoint(m, m') {
        forall c: nat ensures !(HasBit(m, c) && HasBit(m', c)) {
          HalfBit(m, c);
          HalfBit(m', c);
        }
      }
      if forall c: nat :: !(HasBit(m, c) && HasBit(m', c)) {
        forall c: nat ensures !(HasBit(m / 2, c) && HasBit(m' / 2, c)) {
          HalfBit(m, c + 1);
          HalfBit(m', c + 1);
        }
      }
    }
  }

  lemma {:induction false} RowsApart(m: nat, m': nat, r: nat, step: nat)
    requires Disjoint(m, m') && step > 0
    ensures Apart(Rows(m, r, step), Rows(m', r, step))
    decreases m
  {
    if m > 0 && m' > 0 {
      RowsApart(m / 2, m' / 2, r + step, step);
      LaterRows(m / 2, r, step);
      LaterRows(m' / 2, r, step);
    }
  }

  lemma ApartJoin(a: seq<nat>, b: seq<nat>, a': seq<nat>, b': seq<nat>)
    requires Apart(a, a') && Apart(a, b') && Apart(b, a') && Apart(b, b')
    ensures Apart(a + b, a' + b')
  {
  }

  lemma ApartSwap(a: seq<nat>, b: seq<nat>)
    requires Apart(a, b)
    ensures Apart(b, a)
  {
  }

  lemma SpansApartStep(m: nat, m': nat, q: nat, n: nat, step: nat)
    requires Disjoint(m, m') && 0 < n <= step
    requires Apart(Spans(m, q + 1, n - 1, step), Spans(m', q + 1, n - 1, step))
    ensures Apart(Spans(m, q, n, step), Spans(m', q, n, step))
  {
    hide Rows, Disjoint, Apart;
    RowsApart(m, m', q, step);
    RowsApartSpans(m, m', q, n - 1, step);
    RowsApartSpans(m', m, q, n - 1, step);
    ApartSwap(Rows(m', q, step), Spans(m, q + 1, n - 1, step));
    ApartJoin(Rows(m, q, step), Spans(m, q + 1, n - 1, step), Rows(m', q, step), Spans(m', q + 1, n - 1, step));
  }

  lemma {:induction false} SpansApart(m: nat, m': nat, q: nat, n: nat, step: nat)
    requires Disjoint(m, m') && n <= step
    ensures Apart(Spans(m, q, n, step), Spans(m', q, n, step))
    decreases n
  {
    if n == 0 {
      assert Spans(m, q, n, step) == [];
    } else {
      hide Spans, Disjoint, Apart;
      SpansApart(m, m', q + 1, n - 1, step);
      SpansApartStep(m, m', q, n, step);
    }
  }

  lemma {:induction false} FramesApart(m: nat, m': nat, p: nat, k: nat, n: nat, step: nat, c: nat)
    requires Disjoint(m, m') && m < Pow2(c) && m' < Pow2(c) && n <= step
    ensures Apart(Frames(m, p, k, n, step, step * c), Frames(m', p, k, n, step, step * c))
    decreases k
  {
    if k == 0 {
      assert Frames(m, p, k, n, step, step * c) == [];
    } else {
      hide Spans, Disjoint, Pow2, Apart;
      SpansApart(m, m', p, n, step);
      FramesApart(m, m', p + step * c, k - 1, n, step, c);
      SpansApartFrames(m, m', p, k - 1, n, step, c);
      SpansApartFrames(m', m, p, k - 1, n, step, c);
      ApartJoin(Spans(m, p, n, step), Frames(m, p + step * c, k - 1, n, step, step * c),
                Spans(m', p, n, step), Frames(m', p + step * c, k - 1, n, step, step * c));
    }
  }

  // ---- how many ----

  lemma {:induction false} RowsCount(mask: nat, r: nat, step: nat)
    ensures |Rows(mask, r, step)| == Popcount(mask)
    decreases mask
  {
    if mask > 0 { RowsCount(mask / 2, r + step, step); }
  }

  lemma {:induction false} SpansCount(mask: nat, q: nat, n: nat, step: nat)
    ensures |Spans(mask, q, n, step)| == n * Popcount(mask)
    decreases n
  {
    if n > 0 {
      hide Rows, Popcount;
      RowsCount(mask, q, step);
      SpansCount(mask, q + 1, n - 1, step);
      OneLess(n, Popcount(mask));
    }
  }

  lemma {:induction false} FramesCount(mask: nat, p: nat, k: nat, n: nat, step: nat, size: nat)
    ensures |Frames(mask, p, k, n, step, size)| == k * (n * Popcount(mask))
    decreases k
  {
    if k > 0 {
      hide Spans, Popcount;
      SpansCount(mask, p, n, step);
      FramesCount(mask, p + size, k - 1, n, step, size);
      OneLess(k, n * Popcount(mask));
    }
  }

  // ---- which octet goes to which place ----

  /** The channels a mask names below channel `c`. */
  function ChannelsBelow(mask: nat, c: nat): set<nat> { set b: nat | b < c && HasBit(mask, b) }

  function OnesBelow(mask: nat, c: nat): nat
    decreases c
  {
    if c == 0 then 0 else OnesBelow(mask, c - 1) + Bit(HasBit(mask, c - 1))
  }

  lemma {:induction false} CountBelow(mask: nat, c: nat)
    ensures |ChannelsBelow(mask, c)| == OnesBelow(mask, c)
    decreases c
  {
    hide HasBit;
    if c > 0 {
      var more := if HasBit(mask, c - 1) then {c - 1} else {};
      CountBelow(mask, c - 1);
      assert ChannelsBelow(mask, c) == ChannelsBelow(mask, c - 1) + more;
      assert c - 1 !in ChannelsBelow(mask, c - 1);
    } else {
      assert ChannelsBelow(mask, c) == {};
    }
  }

  lemma {:induction false} OnesShift(mask: nat, c: nat)
    requires c > 0
    ensures OnesBelow(mask, c) == mask % 2 + OnesBelow(mask / 2, c - 1)
    decreases c
  {
    if c > 1 { OnesShift(mask, c - 1); }
  }

  lemma {:induction false} PopcountIs(mask: nat, c: nat)
    requires mask < Pow2(c)
    ensures Popcount(mask) == OnesBelow(mask, c)
    ensures forall b: nat :: HasBit(mask, b) ==> b < c
    decreases c
  {
    if c == 0 {
      forall b: nat ensures !HasBit(mask, b) { NoBit(b); }
    } else {
      PopcountIs(mask / 2, c - 1);
      OnesShift(mask, c);
      forall b: nat | HasBit(mask, b) ensures b < c { if b > 0 { assert HasBit(mask / 2, b - 1); } }
    }
  }

  lemma {:induction false} NoBit(b: nat)
    ensures !HasBit(0, b)
    decreases b
  {
    if b > 0 { NoBit(b - 1); }
  }

  /** The place of a channel in a row is the number of channels below it. */
  lemma {:induction false} RowsAt(mask: nat, r: nat, step: nat, c: nat)
    requires HasBit(mask, c)
    ensures OnesBelow(mask, c) < |Rows(mask, r, step)| && Rows(mask, r, step)[OnesBelow(mask, c)] == r + c * step
    decreases c
  {
    if mask == 0 {
      NoBit(c);
    } else {
      RowsStep(mask, r, step);
      HalfBit(mask, c);
      hide Rows, HasBit;
      if c > 0 {
        RowsAt(mask / 2, r + step, step, c - 1);
        OnesShift(mask, c);
        OneLess(c, step);
        RowsTail(mask, r, step, OnesBelow(mask / 2, c - 1));
      }
    }
  }

  lemma HalfBit(mask: nat, c: nat)
    ensures HasBit(mask, 0) <==> mask % 2 == 1
    ensures c > 0 ==> (HasBit(mask, c) <==> HasBit(mask / 2, c - 1))
  {
  }

  lemma RowsTail(mask: nat, r: nat, step: nat, i: nat)
    requires mask != 0 && i < |Rows(mask / 2, r + step, step)|
    ensures mask % 2 + i < |Rows(mask, r, step)|
    ensures Rows(mask, r, step)[mask % 2 + i] == Rows(mask / 2, r + step, step)[i]
  {
    RowsStep(mask, r, step);
    hide Rows;
    var all := Rows(mask, r, step);
    if mask % 2 == 1 { assert all[1 + i] == all[1..][i]; }
  }

  lemma {:induction false} SpansAt(mask: nat, q: nat, n: nat, step: nat, s: nat, i: nat)
    requires s < n && i < Popcount(mask)
    ensures |Rows(mask, q + s, step)| == Popcount(mask) && s * Popcount(mask) + i < |Spans(mask, q, n, step)|
    ensures Spans(mask, q, n, step)[s * Popcount(mask) + i] == Rows(mask, q + s, step)[i]
    decreases n
  {
    hide Rows, Popcount;
    RowsCount(mask, q, step);
    if s > 0 {
      OneLess(s, Popcount(mask));
      SpansAt(mask, q + 1, n - 1, step, s - 1, i);
      assert q + 1 + (s - 1) == q + s;
    }
  }

  lemma {:induction false} FramesAt(mask: nat, p: nat, k: nat, n: nat, step: nat, size: nat, f: nat, j: nat)
    requires f < k && j < n * Popcount(mask)
    ensures |Spans(mask, p + f * size, n, step)| == n * Popcount(mask)
    ensures f * (n * Popcount(mask)) + j < |Frames(mask, p, k, n, step, size)|
    ensures Frames(mask, p, k, n, step, size)[f * (n * Popcount(mask)) + j] == Spans(mask, p + f * size, n, step)[j]
    decreases k
  {
    hide Spans, Popcount;
    SpansCount(mask, p, n, step);
    if f > 0 {
      OneLess(f, n * Popcount(mask));
      OneLess(f, size);
      FramesAt(mask, p + size, k - 1, n, step, size, f - 1, j);
      assert p + size + (f - 1) * size == p + f * size;
    } else {
      assert p + 0 * size == p;
    }
  }

  lemma Within(s: nat, n: nat, i: nat, m: nat)
    requires s < n && i < m
    ensures s * m + i < n * m
  {
    if s + 1 < n { FewerMoves(s + 1, n, m); }
    assert (s + 1) * m == s * m + m;
  }

  /** The places in closed form: the octet for frame `f`, span `s` and channel `c` comes behind those of the
      frames before, the spans before and the channels before, and its place is counted frames first, then
      channels, then spans. */
  lemma {:induction false} PlaceOf(mask: nat, n: nat, spans: nat, channels: nat, f: nat, s: nat, c: nat)
    requires mask < Pow2(channels) && n <= spans && f < 8 && s < n && HasBit(mask, c)
    ensures c < channels
    ensures var m := |ChannelsBelow(mask, channels)|;
            var k := f * (n * m) + s * m + |ChannelsBelow(mask, c)|;
            k < |Order(mask, n, spans, channels)|
            && Order(mask, n, spans, channels)[k] == f * (spans * channels) + c * spans + s
  {
    hide Rows, Spans, Frames, Popcount, HasBit, Pow2, OnesBelow, ChannelsBelow;
    var p, m, i := f * (spans * channels), Popcount(mask), OnesBelow(mask, c);
    PopcountIs(mask, channels);
    CountBelow(mask, channels);
    CountBelow(mask, c);
    assert |ChannelsBelow(mask, channels)| == m && |ChannelsBelow(mask, c)| == i;
    InFrame(mask, p, n, spans, s, c);
    FramesAt(mask, 0, 8, n, spans, spans * channels, f, s * m + i);
    assert f * (n * m) + (s * m + i) == f * (n * m) + s * m + i;
  }

  lemma InFrame(mask: nat, p: nat, n: nat, step: nat, s: nat, c: nat)
    requires s < n && HasBit(mask, c)
    ensures var k := s * Popcount(mask) + OnesBelow(mask, c);
            k < n * Popcount(mask) && k < |Spans(mask, p, n, step)| && Spans(mask, p, n, step)[k] == p + c * step + s
  {
    hide Rows, Spans, Popcount, HasBit, OnesBelow;
    RowsAt(mask, p + s, step, c);
    RowsCount(mask, p + s, step);
    Within(s, n, OnesBelow(mask, c), Popcount(mask));
    SpansAt(mask, p, n, step, s, OnesBelow(mask, c));
  }

  // ---- and no other place ----

  lemma {:induction false} RowOf(mask: nat, r: nat, step: nat, x: nat) returns (c: nat)
    requires x in Rows(mask, r, step)
    ensures HasBit(mask, c) && x == r + c * step
    decreases mask
  {
    if mask % 2 == 1 && x == r {
      c := 0;
    } else {
      c := RowOf(mask / 2, r + step, step, x);
      assert r + step + c * step == r + (c + 1) * step;
      c := c + 1;
    }
  }

  lemma {:induction false} FrameOf(mask: nat, p: nat, k: nat, n: nat, step: nat, size: nat, x: nat) returns (f: nat)
    requires x in Frames(mask, p, k, n, step, size)
    ensures f < k && x in Spans(mask, p + f * size, n, step)
    decreases k
  {
    hide Spans;
    if x in Spans(mask, p, n, step) {
      f := 0;
    } else {
      f := FrameOf(mask, p + size, k - 1, n, step, size, x);
      assert p + size + f * size == p + (f + 1) * size;
      f := f + 1;
    }
  }

  lemma PlaceParts(spans: nat, channels: nat, f: nat, s: nat, c: nat, x: nat)
    requires s < spans && c < channels && x == f * (spans * channels) + c * spans + s
    ensures spans * channels > 0 && x / (spans * channels) == f
    ensures x % (spans * channels) == c * spans + s && (c * spans + s) / spans == c && (c * spans + s) % spans == s
  {
    Within(c, channels, s, spans);
    Commutes(channels, spans);
    DivModUnique(x, spans * channels, f, c * spans + s);
    DivModUnique(c * spans + s, spans, c, s);
  }

  lemma Commutes(a: nat, b: nat)
    ensures a * b == b * a
  {
  }

  /** A place has one frame, one channel and one span. */
  lemma OnePlace(spans: nat, channels: nat, f: nat, s: nat, c: nat, f': nat, s': nat, c': nat)
    requires s < spans && s' < spans && c < channels && c' < channels
    requires f * (spans * channels) + c * spans + s == f' * (spans * channels) + c' * spans + s'
    ensures f == f' && s == s' && c == c'
  {
    var x := f * (spans * channels) + c * spans + s;
    PlaceParts(spans, channels, f, s, c, x);
    PlaceParts(spans, channels, f', s', c', x);
  }

  /** A place is in the order exactly when the channel is named by the mask and the span is walked. */
  lemma {:induction false} OrderHas(mask: nat, n: nat, spans: nat, channels: nat, f: nat, s: nat, c: nat)
    requires mask < Pow2(channels) && n <= spans && f < 8 && s < spans && c < channels
    ensures f * (spans * channels) + c * spans + s in Order(mask, n, spans, channels) <==> s < n && HasBit(mask, c)
  {
    hide *;
    var x := f * (spans * channels) + c * spans + s;
    if s < n && HasBit(mask, c) { PlaceOf(mask, n, spans, channels, f, s, c); }
    if x in Order(mask, n, spans, channels) {
      var f', s', c' := PartsOf(mask, n, spans, channels, x);
      OnePlace(spans, channels, f, s, c, f', s', c');
    }
  }

  lemma {:induction false} PartsOf(mask: nat, n: nat, spans: nat, channels: nat, x: nat)
      returns (f: nat, s: nat, c: nat)
    requires mask < Pow2(channels) && n <= spans && x in Order(mask, n, spans, channels)
    ensures f < 8 && s < n && c < channels && HasBit(mask, c) && x == f * (spans * channels) + c * spans + s
  {
    hide Rows, Spans, Frames, HasBit, Pow2, OnGrid;
    var size := spans * channels;
    f := FrameOf(mask, 0, 8, n, spans, size, x);
    s := SpanOf(mask, 0 + f * size, n, spans, x);
    c := RowOf(mask, 0 + f * size + s, spans, x);
    PopcountIs(mask, channels);
  }

  /** The octet for frame `f`, span `s` and channel `c`: where it is in the data, and where in the block. */
  ghost predicate Carries(buf: seq<octet>, data: seq<octet>, mask: nat, n: nat, spans: nat, channels: nat,
                          f: nat, s: nat, c: nat)
  {
    var m: int := |ChannelsBelow(mask, channels)|;
    var k, x := f * (n * m) + s * m + |ChannelsBelow(mask, c)|, f * (spans * channels) + c * spans + s;
    0 <= k < |data| && 0 <= x < |buf| && buf[x] == data[k]
  }

  ghost predicate CarriesAll(buf: seq<octet>, data: seq<octet>, mask: nat, n: nat, spans: nat, channels: nat) {
    forall f: nat, s: nat, c: nat :: f < 8 && s < n && HasBit(mask, c) ==>
      Carries(buf, data, mask, n, spans, channels, f, s, c)
  }

  /** What stands in the block for frame `f`, span `s` and channel `c` is unchanged. */
  ghost predicate Kept(before: seq<octet>, after: seq<octet>, spans: nat, channels: nat, f: nat, s: nat, c: nat) {
    var x := f * (spans * channels) + c * spans + s;
    0 <= x < |before| == |after| && after[x] == before[x]
  }

  ghost predicate KeepsOthers(before: seq<octet>, after: seq<octet>, mask: nat, n: nat, spans: nat, channels: nat) {
    forall f: nat, s: nat, c: nat :: f < 8 && s < spans && c < channels && !(s < n && HasBit(mask, c)) ==>
      Kept(before, after, spans, channels, f, s, c)
  }

  lemma GatherCarries(buf: seq<octet>, data: seq<octet>, mask: nat, n: nat, spans: nat, channels: nat)
    requires mask < Pow2(channels) && n <= spans
    requires var o := Order(mask, n, spans, channels);
             Below(o, |buf|) && |o| <= |data| && Gather(buf, o) == data[..|o|]
    ensures CarriesAll(buf, data, mask, n, spans, channels)
  {
    hide Order, Frames, HasBit, Pow2, ChannelsBelow, Carries, Gather, Below;
    forall f: nat, s: nat, c: nat | f < 8 && s < n && HasBit(mask, c)
      ensures Carries(buf, data, mask, n, spans, channels, f, s, c)
    {
      OneCarries(buf, data, mask, n, spans, channels, f, s, c);
    }
  }

  lemma OneCarries(buf: seq<octet>, data: seq<octet>, mask: nat, n: nat, spans: nat, channels: nat,
                   f: nat, s: nat, c: nat)
    requires mask < Pow2(channels) && n <= spans && f < 8 && s < n && HasBit(mask, c)
    requires var o := Order(mask, n, spans, channels);
             Below(o, |buf|) && |o| <= |data| && Gather(buf, o) == data[..|o|]
    ensures Carries(buf, data, mask, n, spans, channels, f, s, c)
  {
    hide *;
    PlaceOf(mask, n, spans, channels, f, s, c);
    var m := |ChannelsBelow(mask, channels)|;
    var k := f * (n * m) + s * m + |ChannelsBelow(mask, c)|;
    GatherAt(buf, data, Order(mask, n, spans, channels), k);
    CarriesIf(buf, data, mask, n, spans, channels, f, s, c, k);
  }

  lemma GatherAt(buf: seq<octet>, data: seq<octet>, o: seq<nat>, k: nat)
    requires Below(o, |buf|) && k < |o| <= |data| && Gather(buf, o) == data[..|o|]
    ensures o[k] < |buf| && buf[o[k]] == data[k]
  {
    assert Gather(buf, o)[k] == data[..|o|][k];
  }

  lemma CarriesIf(buf: seq<octet>, data: seq<octet>, mask: nat, n: nat, spans: nat, channels: nat,
                  f: nat, s: nat, c: nat, k: nat)
    requires k == f * (n * |ChannelsBelow(mask, channels)|) + s * |ChannelsBelow(mask, channels)|
                  + |ChannelsBelow(mask, c)|
    requires var x := f * (spans * channels) + c * spans + s; k < |data| && x < |buf| && buf[x] == data[k]
    ensures Carries(buf, data, mask, n, spans, channels, f, s, c)
  {
    hide ChannelsBelow;
    assert k >= 0;
  }

  lemma InBlock(spans: nat, channels: nat, f: nat, s: nat, c: nat)
    requires f < 8 && s < spans && c < channels
    ensures f * (spans * channels) + c * spans + s < 8 * (spans * channels)
  {
    Within(c, channels, s, spans);
    Commutes(channels, spans);
    Within(f, 8, c * spans + s, spans * channels);
  }

  lemma ScatterKeeps(buf: seq<octet>, data: seq<octet>, mask: nat, n: nat, spans: nat, channels: nat)
    requires mask < Pow2(channels) && n <= spans && |buf| == 8 * (spans * channels)
    requires Below(Order(mask, n, spans, channels), |buf|) && |Order(mask, n, spans, channels)| == |data|
    ensures KeepsOthers(buf, Scatter(buf, Order(mask, n, spans, channels), data), mask, n, spans, channels)
  {
    hide Frames, HasBit, Pow2, Scatter, Order, Below;
    var o := Order(mask, n, spans, channels);
    forall f: nat, s: nat, c: nat | f < 8 && s < spans && c < channels && !(s < n && HasBit(mask, c))
      ensures Kept(buf, Scatter(buf, o, data), spans, channels, f, s, c)
    {
      InBlock(spans, channels, f, s, c);
      OrderHas(mask, n, spans, channels, f, s, c);
      ScatterElsewhere(buf, o, data, f * (spans * channels) + c * spans + s);
    }
  }

  // ---- the channel and the block ----

  lemma {:induction false} OrderLies(mask: nat, n: nat, spans: nat, channels: nat)
    requires mask < Pow2(channels) && n <= spans
    ensures Below(Order(mask, n, spans, channels), 8 * (spans * channels))
    ensures NoTwice(Order(mask, n, spans, channels))
    ensures |Order(mask, n, spans, channels)| == 8 * (n * Popcount(mask))
  {
    var o := Order(mask, n, spans, channels);
    forall i | 0 <= i < |o| ensures o[i] < 8 * (spans * channels) {
      assert o[i] in o;
      FramesRange(mask, 0, 8, n, spans, channels, o[i]);
    }
    FramesDistinct(mask, 0, 8, n, spans, channels);
    FramesCount(mask, 0, 8, n, spans, spans * channels);
  }

  /** What a channel writes into a block it reads back from it: every place lies inside the block, and
      exactly eight octets move for each of its channels in each span. */
  lemma {:induction false} WriteThenRead(buf: seq<octet>, mask: nat, spans: nat, channels: nat, data: seq<octet>)
    requires mask < Pow2(channels) && |buf| == 8 * (spans * channels)
    requires |data| == 8 * (spans * Popcount(mask))
    ensures var o := Order(mask, spans, spans, channels);
            && |o| == |data| && Below(o, |buf|)
            && Gather(Scatter(buf, o, data), o) == data
  {
    OrderLies(mask, spans, spans, channels);
    GatherScatter(buf, Order(mask, spans, spans, channels), data);
  }

  /** A channel never disturbs another whose mask is disjoint from its own. */
  lemma {:induction false} OthersUndisturbed(buf: seq<octet>, mask: nat, other: nat, spans: nat,
                                             channels: nat, data: seq<octet>)
    requires mask < Pow2(channels) && other < Pow2(channels) && Disjoint(other, mask)
    requires |buf| == 8 * (spans * channels) && |data| == 8 * (spans * Popcount(mask))
    ensures var (o, p) := (Order(mask, spans, spans, channels), Order(other, spans, spans, channels));
            && |o| == |data| && Below(o, |buf|) && Below(p, |buf|)
            && Gather(Scatter(buf, o, data), p) == Gather(buf, p)
  {
    hide Below, Gather, Scatter, Apart, Pow2, Disjoint, Frames, NoTwice;
    OrderLies(mask, spans, spans, channels);
    OrderLies(other, spans, spans, channels);
    FramesApart(other, mask, 0, 8, spans, spans, channels);
    GatherElsewhere(buf, Order(mask, spans, spans, channels), data, Order(other, spans, spans, channels));
  }

  // ---- the copy loops ----

  lemma GatherJoin(buf: seq<octet>, a: seq<nat>, b: seq<nat>)
    requires Below(a, |buf|) && Below(b, |buf|)
    ensures Below(a + b, |buf|) && Gather(buf, a + b) == Gather(buf, a) + Gather(buf, b)
  {
    BelowJoin(a, b, |buf|);
  }

  lemma RowsStep(mask: nat, r: nat, step: nat)
    requires mask != 0
    ensures mask % 2 == 1 ==> |Rows(mask, r, step)| > 0 && Rows(mask, r, step)[0] == r &&
                              Rows(mask, r, step)[1..] == Rows(mask / 2, r + step, step)
    ensures mask % 2 == 0 ==> Rows(mask, r, step) == Rows(mask / 2, r + step, step)
  {
    assert [] + Rows(mask / 2, r + step, step) == Rows(mask / 2, r + step, step);
  }

  lemma NoRows(r: nat, step: nat)
    ensures Rows(0, r, step) == []
  {
  }

  lemma NoPlaces(buf: seq<octet>)
    ensures Below([], |buf|) && Scatter(buf, [], []) == buf && Gather(buf, []) == []
  {
  }

  lemma ScatterStep(buf: seq<octet>, places: seq<nat>, data: seq<octet>)
    requires |data| == |places| > 0 && Below(places, |buf|)
    ensures places[0] < |buf| && Below(places[1..], |buf|)
    ensures Scatter(buf, places, data) == Scatter(buf[places[0] := data[0]], places[1..], data[1..])
  {
  }

  lemma GatherStep(buf: seq<octet>, places: seq<nat>)
    requires |places| > 0 && Below(places, |buf|)
    ensures places[0] < |buf| && Below(places[1..], |buf|)
    ensures Gather(buf, places) == [buf[places[0]]] + Gather(buf, places[1..])
  {
  }

  /** One channel's octet out, in terms of what is left to copy. */
  lemma RowWriteStep(buf: seq<octet>, left: nat, r: nat, step: nat, data: seq<octet>, i: nat, end: nat)
    requires left % 2 == 1 && i <= end <= |data| && end - i == |Rows(left, r, step)|
    requires Below(Rows(left, r, step), |buf|)
    ensures i < end && r < |buf| && Below(Rows(left / 2, r + step, step), |buf|)
    ensures end - (i + 1) == |Rows(left / 2, r + step, step)|
    ensures Scatter(buf, Rows(left, r, step), data[i..end]) ==
            Scatter(buf[r := data[i]], Rows(left / 2, r + step, step), data[i + 1..end])
  {
    RowsStep(left, r, step);
    hide Rows, Scatter, Below;
    ScatterStep(buf, Rows(left, r, step), data[i..end]);
    assert data[i..end][1..] == data[i + 1..end];
  }

  /** One row out: `data[i..]` to the places of one span and frame. */
  method WriteRow(buf: array<octet>, mask: nat, r0: nat, step: nat, data: seq<octet>, i0: nat) returns (i: nat)
    requires Below(Rows(mask, r0, step), buf.Length)
    requires i0 + |Rows(mask, r0, step)| <= |data|
    modifies buf
    ensures i == i0 + |Rows(mask, r0, step)|
    ensures buf[..] == Scatter(old(buf[..]), Rows(mask, r0, step), data[i0..i])
  {
    hide Rows, Scatter, Below, Gather;
    var left: nat, r: nat := mask, r0;
    i := i0;
    ghost var end := i0 + |Rows(mask, r0, step)|;
    while left != 0
      invariant Below(Rows(left, r, step), buf.Length)
      invariant i0 <= i && i + |Rows(left, r, step)| == end
      invariant Scatter(buf[..], Rows(left, r, step), data[i..end]) ==
                Scatter(old(buf[..]), Rows(mask, r0, step), data[i0..end])
      decreases left
    {
      RowsStep(left, r, step);
      if left % 2 == 1 {
        RowWriteStep(buf[..], left, r, step, data, i, end);
        ghost var before := buf[..];
        buf[r] := data[i];
        assert buf[..] == before[r := data[i]];
        i := i + 1;
      }
      left, r := left / 2, r + step;
    }
    NoRows(r, step);
    assert data[i..end] == [];
    NoPlaces(buf[..]);
  }

  /** One row in: the octets at the places of one span and frame. */
  method ReadRow(buf: array<octet>, mask: nat, r0: nat, step: nat) returns (data: seq<octet>)
    requires Below(Rows(mask, r0, step), buf.Length)
    ensures data == Gather(buf[..], Rows(mask, r0, step))
  {
    var left: nat, r: nat := mask, r0;
    data := [];
    hide Rows, Gather, Below;
    while left != 0
      invariant Below(Rows(left, r, step), buf.Length)
      invariant data + Gather(buf[..], Rows(left, r, step)) == Gather(buf[..], Rows(mask, r0, step))
      decreases left
    {
      RowsStep(left, r, step);
      if left % 2 == 1 {
        ghost var rows := Rows(left, r, step);
        BelowTail(rows, buf.Length);
        GatherStep(buf[..], rows);
        data := data + [buf[r]];
      }
      left, r := left / 2, r + step;
    }
    NoRows(r, step);
    NoPlaces(buf[..]);
  }

  /** The spans of one frame out.  The walk runs from the channel's first span up to its span count. */
  method WriteSpans(buf: array<octet>, mask: nat, p: nat, first: nat, count: nat, step: nat,
                    data: seq<octet>, i0: nat) returns (i: nat)
    requires Below(Spans(mask, p, Walk(first, count), step), buf.Length)
    requires i0 + |Spans(mask, p, Walk(first, count), step)| <= |data|
    modifies buf
    ensures i == i0 + |Spans(mask, p, Walk(first, count), step)|
    ensures buf[..] == Scatter(old(buf[..]), Spans(mask, p, Walk(first, count), step), data[i0..i])
  {
    hide Rows, Scatter, Below, Gather;
    var span: nat, q: nat := first, p;
    i := i0;
    ghost var all := Spans(mask, p, Walk(first, count), step);
    ghost var end := i0 + |all|;
    while span < count
      invariant q == p + span - first && span >= first
      invariant Below(Spans(mask, q, Walk(span, count), step), buf.Length)
      invariant i0 <= i && i + |Spans(mask, q, Walk(span, count), step)| == end <= |data|
      invariant Scatter(buf[..], Spans(mask, q, Walk(span, count), step), data[i..end]) ==
                Scatter(old(buf[..]), all, data[i0..end])
    {
      ghost var row, more := Rows(mask, q, step), Spans(mask, q + 1, Walk(span + 1, count), step);
      BelowJoin(row, more, buf.Length);
      ghost var k := i + |row|;
      assert data[i..end] == data[i..k] + data[k..end];
      ScatterJoin(buf[..], row, more, data[i..k], data[k..end]);
      i := WriteRow(buf, mask, q, step, data, i);
      span, q := span + 1, q + 1;
    }
    assert data[i..end] == [];
    NoPlaces(buf[..]);
  }

  function Walk(first: nat, count: nat): (n: nat)
    ensures first + n == count || (n == 0 && first >= count)
  {
    if first < count then count - first else 0
  }

  method ReadSpans(buf: array<octet>, mask: nat, p: nat, first: nat, count: nat, step: nat)
      returns (data: seq<octet>)
    requires Below(Spans(mask, p, Walk(first, count), step), buf.Length)
    ensures data == Gather(buf[..], Spans(mask, p, Walk(first, count), step))
  {
    hide Rows, Scatter, Below, Gather;
    var span: nat, q: nat := first, p;
    data := [];
    while span < count
      invariant q == p + span - first && span >= first
      invariant Below(Spans(mask, q, Walk(span, count), step), buf.Length)
      invariant data + Gather(buf[..], Spans(mask, q, Walk(span, count), step)) ==
                Gather(buf[..], Spans(mask, p, Walk(first, count), step))
    {
      ghost var row, more := Rows(mask, q, step), Spans(mask, q + 1, Walk(span + 1, count), step);
      BelowJoin(row, more, buf.Length);
      GatherJoin(buf[..], row, more);
      var octets := ReadRow(buf, mask, q, step);
      data := data + octets;
      span, q := span + 1, q + 1;
    }
    NoPlaces(buf[..]);
  }

  /** The leading octets of `data` have gone to the places, the others are left. */
  ghost predicate Wrote(before: seq<octet>, after: seq<octet>, places: seq<nat>, data: seq<octet>, rest: seq<octet>) {
    && |places| <= |data| && Below(places, |before|)
    && after == Scatter(before, places, data[..|places|]) && rest == data[|places|..]
  }

  /** The channel's next block of data into the transmit block; `rest` is put back. */
  method WriteData(buf: array<octet>, mask: nat, first: nat, count: nat, spans: nat, channels: nat,
                   blocksize: nat, data: seq<octet>) returns (moved: bool, rest: seq<octet>)
    requires mask < Pow2(channels) && Walk(first, count) <= spans && buf.Length == 8 * (spans * channels)
    requires |Order(mask, Walk(first, count), spans, channels)| <= blocksize
    modifies buf
    ensures moved <==> |data| >= blocksize
    ensures !moved ==> buf[..] == old(buf[..]) && rest == data
    ensures moved ==> Wrote(old(buf[..]), buf[..], Order(mask, Walk(first, count), spans, channels), data, rest)
    ensures moved ==> CarriesAll(buf[..], data, mask, Walk(first, count), spans, channels)
    ensures moved ==> KeepsOthers(old(buf[..]), buf[..], mask, Walk(first, count), spans, channels)
  {
    if |data| < blocksize {
      return false, data;
    }
    OrderLies(mask, Walk(first, count), spans, channels);
    hide Spans, Scatter, Below, Pow2, NoTwice, Popcount, Gather, CarriesAll, KeepsOthers;
    ghost var o := Order(mask, Walk(first, count), spans, channels);
    var i := WriteFrames(buf, mask, first, count, spans, spans * channels, 8, data);
    GatherScatter(old(buf[..]), o, data[..i]);
    GatherCarries(buf[..], data, mask, Walk(first, count), spans, channels);
    ScatterKeeps(old(buf[..]), data[..i], mask, Walk(first, count), spans, channels);
    return true, data[i..];
  }

  /** The first `k` frames out, from the start of `data`. */
  method WriteFrames(buf: array<octet>, mask: nat, first: nat, count: nat, spans: nat, size: nat, k: nat,
                     data: seq<octet>) returns (i: nat)
    requires Below(Frames(mask, 0, k, Walk(first, count), spans, size), buf.Length)
    requires |Frames(mask, 0, k, Walk(first, count), spans, size)| <= |data|
    modifies buf
    ensures i == |Frames(mask, 0, k, Walk(first, count), spans, size)|
    ensures buf[..] == Scatter(old(buf[..]), Frames(mask, 0, k, Walk(first, count), spans, size), data[..i])
  {
    hide Spans, Scatter, Below, Gather;
    ghost var n, all := Walk(first, count), Frames(mask, 0, k, Walk(first, count), spans, size);
    ghost var end := |all|;
    var p: nat, frame: nat := 0, 0;
    i := 0;
    while frame < k
      invariant 0 <= frame <= k
      invariant Below(Frames(mask, p, k - frame, n, spans, size), buf.Length)
      invariant i + |Frames(mask, p, k - frame, n, spans, size)| == end
      invariant Scatter(buf[..], Frames(mask, p, k - frame, n, spans, size), data[i..end]) ==
                Scatter(old(buf[..]), all, data[..end])
    {
      FrameSplit(buf[..], mask, p, k - frame, n, spans, size, data, i, end);
      i := WriteSpans(buf, mask, p, first, count, spans, data, i);
      p, frame := p + size, frame + 1;
    }
    assert data[i..end] == [];
    NoPlaces(buf[..]);
  }

  /** One frame's octets out, in terms of what is left to copy. */
  lemma FrameSplit(buf: seq<octet>, mask: nat, p: nat, k: nat, n: nat, step: nat, size: nat,
                   data: seq<octet>, i: nat, end: nat)
    requires k > 0 && Below(Frames(mask, p, k, n, step, size), |buf|)
    requires i <= end <= |data| && end - i == |Frames(mask, p, k, n, step, size)|
    ensures var (here, more) := (Spans(mask, p, n, step), Frames(mask, p + size, k - 1, n, step, size));
            && Below(here, |buf|) && Below(more, |buf|) && i + |here| <= end && end - (i + |here|) == |more|
            && Scatter(buf, Frames(mask, p, k, n, step, size), data[i..end]) ==
               Scatter(Scatter(buf, here, data[i..i + |here|]), more, data[i + |here|..end])
  {
    hide Spans, Scatter, Below;
    var here, more := Spans(mask, p, n, step), Frames(mask, p + size, k - 1, n, step, size);
    assert Frames(mask, p, k, n, step, size) == here + more;
    hide Frames;
    BelowJoin(here, more, |buf|);
    assert data[i..end] == data[i..i + |here|] + data[i + |here|..end];
    ScatterJoin(buf, here, more, data[i..i + |here|], data[i + |here|..end]);
  }

  /** The channel's octets out of a received block. */
  method ReadData(buf: array<octet>, mask: nat, first: nat, count: nat, spans: nat, channels: nat)
      returns (data: seq<octet>)
    requires mask < Pow2(channels) && Walk(first, count) <= spans && buf.Length == 8 * (spans * channels)
    ensures var o := Order(mask, Walk(first, count), spans, channels);
            Below(o, buf.Length) && data == Gather(buf[..], o)
    ensures |data| == 8 * (Walk(first, count) * |ChannelsBelow(mask, channels)|)
    ensures CarriesAll(buf[..], data, mask, Walk(first, count), spans, channels)
  {
    OrderLies(mask, Walk(first, count), spans, channels);
    PopcountIs(mask, channels);
    CountBelow(mask, channels);
    hide Spans, Gather, Below, Pow2, NoTwice, Popcount, CarriesAll, ChannelsBelow, OnesBelow;
    data := ReadFrames(buf, mask, first, count, spans, spans * channels, 8);
    assert data == data[..|data|];
    GatherCarries(buf[..], data, mask, Walk(first, count), spans, channels);
  }

  method ReadFrames(buf: array<octet>, mask: nat, first: nat, count: nat, spans: nat, size: nat, k: nat)
      returns (data: seq<octet>)
    requires Below(Frames(mask, 0, k, Walk(first, count), spans, size), buf.Length)
    ensures data == Gather(buf[..], Frames(mask, 0, k, Walk(first, count), spans, size))
  {
    hide Spans, Gather, Below, Scatter;
    ghost var n, all := Walk(first, count), Frames(mask, 0, k, Walk(first, count), spans, size);
    var p: nat, frame: nat := 0, 0;
    data := [];
    while frame < k
      invariant 0 <= frame <= k
      invariant Below(Frames(mask, p, k - frame, n, spans, size), buf.Length)
      invariant data + Gather(buf[..], Frames(mask, p, k - frame, n, spans, size)) == Gather(buf[..], all)
    {
      ghost var here, more := Spans(mask, p, n, spans), Frames(mask, p + size, k - frame - 1, n, spans, size);
      BelowJoin(here, more, buf.Length);
      GatherJoin(buf[..], here, more);
      var octets := ReadSpans(buf, mask, p, first, count, spans);
      data := data + octets;
      p, frame := p + size, frame + 1;
    }
    NoPlaces(buf[..]);
  }

  /** A channel on one span, whose first span is counted from one and whose span count is one, is never
      reached by the walk: its copies move nothing. */
  lemma SingleSpanMovesNothing(mask: nat, first: nat, spans: nat, channels: nat)
    requires first >= 1
    ensures Order(mask, Walk(first, 1), spans, channels) == []
  {
    NoSpansNoPlaces(mask, 0, 8, spans, spans * channels);
  }

  /** The copies move eight octets for each of the channel's spans and channels if and only if the walk
      starts at the first span, or there is nothing to move. */
  lemma {:induction false} MovesAllExactly(mask: nat, first: nat, count: nat, spans: nat, channels: nat)
    requires mask < Pow2(channels) && Walk(first, count) <= spans
    ensures |Order(mask, Walk(first, count), spans, channels)| == 8 * (count * Popcount(mask)) <==>
            first == 0 || count == 0 || mask == 0
  {
    OrderLies(mask, Walk(first, count), spans, channels);
    NoBitsSet(mask);
    if Walk(first, count) < count { FewerMoves(Walk(first, count), count, Popcount(mask)); }
  }

  lemma {:induction false} NoBitsSet(mask: nat)
    ensures Popcount(mask) == 0 <==> mask == 0
    decreases mask
  {
    if mask != 0 { NoBitsSet(mask / 2); }
  }

  lemma {:induction false} FewerMoves(m: nat, n: nat, k: nat)
    requires m < n
    ensures m * k == n * k <==> k == 0
    ensures m * k <= n * k
  {
    if k > 0 {
      FewerMoves(m, n, k - 1);
      OneLess(k, m);
      OneLess(k, n);
    }
  }

  lemma {:induction false} NoSpansNoPlaces(mask: nat, p: nat, k: nat, step: nat, size: nat)
    ensures Frames(mask, p, k, 0, step, size) == []
    decreases k
  {
    if k > 0 { NoSpansNoPlaces(mask, p + size, k - 1, step, size); }
  }
}
