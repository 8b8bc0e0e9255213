/** What a received line means, one bit at a time: zero deletion and flag detection, first by counting
    ones, then by the fourteen states of the receiver's tables, whose output is delayed; and the lines on
    which the two differ. */
module Deleter {
  import opened Bits
  import opened Stuffing

  const FLAG: seq<bool> := [false, true, true, true, true, true, true, false]

  // ---- the reference: count ones, take the flag's own bits back when it completes ----

  /** `ones` is the length of the open run of ones; `held` is everything taken as data since the last flag;
      `zero` says that the zero before the open run is itself in `held`; `ends` lists the frame bodies closed
      by a flag. */
  datatype Ref = Ref(ones: nat, zero: bool, synced: bool, held: seq<bool>, ends: seq<seq<bool>>)

  function Drop(s: seq<bool>, n: nat): seq<bool> {
    if n <= |s| then s[..|s| - n] else []
  }

  function Closed(ends: seq<seq<bool>>, synced: bool, body: seq<bool>): seq<seq<bool>> {
    if synced && |body| > 0 then ends + [body] else ends
  }

  function Keep(r: Ref, b: bool): seq<bool> {
    if r.synced then r.held + [b] else r.held
  }

  /** Five ones and a zero: the zero is dropped.  Six and a zero: a flag.  Seven or more: an abort. */
  function RefStep(r: Ref, b: bool): Ref {
    if b then
      if r.ones < 5 then r.(ones := r.ones + 1, held := Keep(r, true))
      else if r.ones == 5 then r.(ones := 6)
      else r.(ones := r.ones + 1, synced := false, held := [])
    else if r.ones < 5 then r.(ones := 0, zero := true, held := Keep(r, false))
    else if r.ones == 6 then Ref(0, false, true, [], Closed(r.ends, r.synced, Drop(r.held, 5 + Bit(r.zero))))
    else r.(ones := 0, zero := false)
  }

  function RefRun(r: Ref, line: seq<bool>): Ref
    decreases |line|
  {
    if |line| == 0 then r else RefStep(RefRun(r, line[..|line| - 1]), line[|line| - 1])
  }

  // ---- the fourteen states ----

  const RX_STATES := 14

  /** The bits a state holds back: 1-7 a zero and up to six ones, 8-13 up to six ones alone. */
  function Pending(q: nat): (s: seq<bool>)
    requires q < RX_STATES
  {
    if q == 0 then [] else if q <= 7 then [false] + Repeat(true, q - 1) else Repeat(true, q - 7)
  }

  function Next(q: nat, b: bool): (q': nat)
    requires q < RX_STATES
    ensures q' < RX_STATES
  {
    if b then
      if q == 0 then 8 else if q == 7 || q == 13 then 12 else q + 1
    else
      if q == 0 || (q != 6 && q != 7 && q < 12) then 1 else 0
  }

  predicate Completes(q: nat, b: bool) { !b && (q == 7 || q == 13) }

  predicate Aborts(q: nat, b: bool) { b && (q == 7 || q == 13) }

  /** A zero in any other state lets the held bits go; after five ones it is itself dropped. */
  function Emits(q: nat, b: bool): seq<bool>
    requires q < RX_STATES
  {
    if b || q == 7 || q == 13 then [] else Pending(q)
  }

  datatype Del = Del(q: nat, synced: bool, acc: seq<bool>, ends: seq<seq<bool>>)

  ghost predicate DelOk(d: Del) {
    d.q < RX_STATES && (!d.synced ==> d.acc == [])
  }

  function DelStep(d: Del, b: bool): (d': Del)
    requires d.q < RX_STATES
    ensures d'.q < RX_STATES
  {
    var q := Next(d.q, b);
    if Completes(d.q, b) then Del(q, true, [], Closed(d.ends, d.synced, d.acc))
    else if Aborts(d.q, b) then Del(q, false, [], d.ends)
    else Del(q, d.synced, if d.synced then d.acc + Emits(d.q, b) else d.acc, d.ends)
  }

  function DelRun(d: Del, line: seq<bool>): (d': Del)
    requires d.q < RX_STATES
    ensures d'.q < RX_STATES
    decreases |line|
  {
    if |line| == 0 then d else DelStep(DelRun(d, line[..|line| - 1]), line[|line| - 1])
  }

  function StateAfter(q: nat, line: seq<bool>): (q': nat)
    requires q < RX_STATES
    ensures q' < RX_STATES
    decreases |line|
  {
    if |line| == 0 then q else Next(StateAfter(q, line[..|line| - 1]), line[|line| - 1])
  }

  /** No seventh one in a row is seen on the line. */
  predicate NoAbort(q: nat, line: seq<bool>)
    requires q < RX_STATES
    decreases |line|
  {
    |line| == 0 ||
    (NoAbort(q, line[..|line| - 1]) && !Aborts(StateAfter(q, line[..|line| - 1]), line[|line| - 1]))
  }

  // ---- runs over joined lines ----

  lemma {:induction false} RefAppend(r: Ref, s: seq<bool>, t: seq<bool>)
    ensures RefRun(r, s + t) == RefRun(RefRun(r, s), t)
    decreases |t|
  {
    if |t| == 0 {
      assert s + t == s;
    } else {
      assert (s + t)[..|s + t| - 1] == s + t[..|t| - 1];
      RefAppend(r, s, t[..|t| - 1]);
    }
  }

  lemma RefOne(r: Ref, b: bool)
    ensures RefRun(r, [b]) == RefStep(r, b)
  {
    assert [b][..0] == [];
    assert RefRun(r, []) == r;
  }

  lemma DelOne(d: Del, b: bool)
    requires d.q < RX_STATES
    ensures DelRun(d, [b]) == DelStep(d, b)
  {
    assert [b][..0] == [];
    assert DelRun(d, []) == d;
  }

  lemma {:induction false} DelAppend(d: Del, s: seq<bool>, t: seq<bool>)
    requires d.q < RX_STATES
    ensures DelRun(d, s + t) == DelRun(DelRun(d, s), t)
    decreases |t|
  {
    if |t| == 0 {
      assert s + t == s;
    } else {
      assert (s + t)[..|s + t| - 1] == s + t[..|t| - 1];
      DelAppend(d, s, t[..|t| - 1]);
    }
  }

  lemma {:induction false} DelState(d: Del, line: seq<bool>)
    requires DelOk(d)
    ensures DelRun(d, line).q == StateAfter(d.q, line) && DelOk(DelRun(d, line))
    decreases |line|
  {
    if |line| > 0 { DelState(d, line[..|line| - 1]); }
  }

  lemma {:induction false} StateAppend(q: nat, s: seq<bool>, t: seq<bool>)
    requires q < RX_STATES
    ensures StateAfter(q, s + t) == StateAfter(StateAfter(q, s), t)
    ensures NoAbort(q, s + t) <==> NoAbort(q, s) && NoAbort(StateAfter(q, s), t)
    decreases |t|
  {
    if |t| == 0 {
      assert s + t == s;
    } else {
      assert (s + t)[..|s + t| - 1] == s + t[..|t| - 1];
      StateAppend(q, s, t[..|t| - 1]);
    }
  }

  /** Frame bodies are only ever added. */
  lemma {:induction false} EndsGrow(d: Del, s: seq<bool>, t: seq<bool>)
    requires d.q < RX_STATES
    ensures DelRun(d, s).ends <= DelRun(d, s + t).ends
    decreases |t|
  {
    if |t| == 0 {
      assert s + t == s;
    } else {
      assert (s + t)[..|s + t| - 1] == s + t[..|t| - 1];
      EndsGrow(d, s, t[..|t| - 1]);
    }
  }

  // ---- the states against the reference ----

  /** The held bits that the reference has already taken as data: all but a sixth one. */
  function PendingData(q: nat): seq<bool>
    requires q < RX_STATES
  {
    if q == 7 then Pending(6) else if q == 13 then Pending(12) else Pending(q)
  }

  /** The ones that a state holds back. */
  function HeldOnes(q: nat): nat { if q == 0 then 0 else if q <= 7 then q - 1 else q - 7 }

  /** Up to six ones the state knows how many; from seven on it only knows whether they are odd. */
  ghost predicate Agree(d: Del, r: Ref) {
    && DelOk(d)
    && d.synced == r.synced && d.ends == r.ends
    && (r.ones <= 6 ==>
          && r.ones == HeldOnes(d.q) && r.zero == (1 <= d.q <= 7)
          && r.held == (if d.synced then d.acc + PendingData(d.q) else []))
    && (r.ones > 6 ==> !d.synced && r.held == [] && d.q == if r.ones % 2 == 1 then 12 else 13)
  }

  lemma RepeatSnoc(n: nat)
    ensures Repeat(true, n) + [true] == Repeat(true, n + 1)
  {
    RepeatAppend(true, n, 1);
    assert Repeat(true, 1) == [true];
  }

  lemma PendingOne(q: nat)
    requires q < RX_STATES && HeldOnes(q) < 6
    ensures PendingData(Next(q, true)) == PendingData(q) + (if HeldOnes(q) < 5 then [true] else [])
  {
    if q == 0 { assert Repeat(true, 1) == [true]; }
    else if HeldOnes(q) < 5 { RepeatSnoc(HeldOnes(q)); }
  }

  lemma AgreeOne(d: Del, r: Ref)
    requires Agree(d, r) && r.ones < 6
    ensures Agree(DelStep(d, true), RefStep(r, true))
  {
    hide PendingData;
    PendingOne(d.q);
    assert d.acc + Emits(d.q, true) == d.acc;
  }

  lemma AgreeZero(d: Del, r: Ref)
    requires Agree(d, r) && r.ones < 6
    ensures Agree(DelStep(d, false), RefStep(r, false))
  {
    assert Pending(1) == [false];
    assert d.acc + Pending(d.q) + [] == d.acc + Pending(d.q);
  }

  lemma AgreeFlag(d: Del, r: Ref)
    requires Agree(d, r) && r.ones == 6
    ensures Agree(DelStep(d, false), RefStep(r, false))
  {
    if d.synced { assert Drop(r.held, 5 + Bit(r.zero)) == d.acc; }
  }

  /** A zero after an even run of eight or more ones: no flag, but the states take it for one. */
  predicate Forges(ones: nat, b: bool) { !b && ones >= 8 && ones % 2 == 0 }

  predicate NoForgedFlag(ones: nat, line: seq<bool>)
    decreases |line|
  {
    |line| == 0 || (!Forges(ones, line[0]) && NoForgedFlag(if line[0] then ones + 1 else 0, line[1..]))
  }

  lemma {:induction false} AgreeStep(d: Del, r: Ref, b: bool)
    requires Agree(d, r)
    ensures Agree(DelStep(d, b), RefStep(r, b)) <==> !Forges(r.ones, b)
    ensures RefStep(r, b).ones == if b then r.ones + 1 else 0
  {
    if r.ones < 6 {
      if b { AgreeOne(d, r); } else { AgreeZero(d, r); }
    } else if r.ones == 6 && !b {
      AgreeFlag(d, r);
    }
  }

  ghost predicate AgreeAlong(d: Del, r: Ref, line: seq<bool>)
    requires d.q < RX_STATES
  {
    forall k :: 0 <= k <= |line| ==> Agree(DelRun(d, line[..k]), RefRun(r, line[..k]))
  }

  lemma AgreeSplit(d: Del, r: Ref, line: seq<bool>)
    requires d.q < RX_STATES && |line| > 0
    ensures AgreeAlong(d, r, line) <==>
            Agree(d, r) && AgreeAlong(DelStep(d, line[0]), RefStep(r, line[0]), line[1..])
  {
    var b, rest := line[0], line[1..];
    var d', r' := DelStep(d, b), RefStep(r, b);
    assert line[..0] == [] && DelRun(d, []) == d && RefRun(r, []) == r;
    forall k | 0 <= k <= |rest|
      ensures DelRun(d, line[..k + 1]) == DelRun(d', rest[..k]) && RefRun(r, line[..k + 1]) == RefRun(r', rest[..k])
    {
      assert line[..k + 1] == [b] + rest[..k];
      DelAppend(d, [b], rest[..k]);
      RefAppend(r, [b], rest[..k]);
      DelOne(d, b);
      RefOne(r, b);
    }
    if Agree(d, r) && AgreeAlong(d', r', rest) {
      forall k | 0 <= k <= |line| ensures Agree(DelRun(d, line[..k]), RefRun(r, line[..k])) {
        if k > 0 { assert Agree(DelRun(d', rest[..k - 1]), RefRun(r', rest[..k - 1])); }
      }
    }
    if AgreeAlong(d, r, line) {
      forall k | 0 <= k <= |rest| ensures Agree(DelRun(d', rest[..k]), RefRun(r', rest[..k])) {
        assert Agree(DelRun(d, line[..k + 1]), RefRun(r, line[..k + 1]));
      }
    }
  }

  /** Whatever was open before, the delayed states find the same bodies and the same flags as the counter
      at every point of a line if and only if no even run of eight or more ones on it is followed by a
      zero. */
  lemma {:induction false} StatesCountOnes(d: Del, r: Ref, line: seq<bool>)
    requires Agree(d, r)
    ensures AgreeAlong(d, r, line) <==> NoForgedFlag(r.ones, line)
    decreases |line|
  {
    if |line| == 0 {
      assert line[..0] == [];
    } else {
      AgreeSplit(d, r, line);
      AgreeStep(d, r, line[0]);
      var d', r' := DelStep(d, line[0]), RefStep(r, line[0]);
      if Agree(d', r') {
        StatesCountOnes(d', r', line[1..]);
      } else {
        assert line[1..][..0] == [] && DelRun(d', []) == d' && RefRun(r', []) == r';
      }
    }
  }

  /** In particular on a line with no run of seven ones. */
  lemma ShortRunsAgree(d: Del, r: Ref, line: seq<bool>)
    requires Agree(d, r) && r.ones <= 6 && RunsAtMost(6, r.ones, line)
    ensures Agree(DelRun(d, line), RefRun(r, line))
  {
    ShortRunsForgeNothing(r.ones, line);
    StatesCountOnes(d, r, line);
    assert line[..|line|] == line;
  }

  lemma {:induction false} ShortRunsForgeNothing(ones: nat, line: seq<bool>)
    requires ones <= 6 && RunsAtMost(6, ones, line)
    ensures NoForgedFlag(ones, line)
    decreases |line|
  {
    if |line| > 0 { ShortRunsForgeNothing(if line[0] then ones + 1 else 0, line[1..]); }
  }

  function AfterOnes(q: nat, k: nat): nat {
    if k <= 6 then (if k == 0 then q else if q == 1 then 1 + k else 7 + k) else if k % 2 == 1 then 12 else 13
  }

  lemma {:induction false} OnesFrom(q: nat, k: nat)
    requires q <= 1
    ensures StateAfter(q, Repeat(true, k)) == AfterOnes(q, k)
    decreases k
  {
    if k > 0 {
      OnesFrom(q, k - 1);
      RepeatSnoc(k - 1);
      assert Repeat(true, k)[..k - 1] == Repeat(true, k - 1);
    }
  }

  /** A run of ones after a zero, and a zero: the states complete a flag if and only if the run is even and
      at least six, where only six make a flag. */
  lemma {:induction false} RunMakesFlag(q: nat, k: nat)
    requires q <= 1
    ensures Completes(StateAfter(q, Repeat(true, k)), false) <==> k >= 6 && k % 2 == 0
    ensures StateAfter(q, Repeat(true, k)) ==
            if k <= 6 then (if k == 0 then q else if q == 1 then 1 + k else 7 + k)
            else if k % 2 == 1 then 12 else 13
  {
    OnesFrom(q, k);
    hide StateAfter, Repeat;
  }

  /** Eight ones and a zero, not a flag, leave the states synchronised and the counter not. */
  lemma {:induction false} FlagForged(d: Del, r: Ref)
    requires Agree(d, r) && r.ones == 0
    ensures DelRun(d, Repeat(true, 8) + [false]).synced && !RefRun(r, Repeat(true, 8) + [false]).synced
    ensures !NoForgedFlag(r.ones, Repeat(true, 8) + [false])
  {
    var ones := Repeat(true, 8);
    RunMakesFlag(d.q, 8);
    DelState(d, ones);
    DelAppend(d, ones, [false]);
    DelOne(DelRun(d, ones), false);
    RefOnes(r, 8);
    RefAppend(r, ones, [false]);
    RefOne(RefRun(r, ones), false);
    OnesForge(0, 8);
  }

  lemma {:induction false} RefOnes(r: Ref, k: nat)
    requires r.ones == 0
    ensures var s := RefRun(r, Repeat(true, k)); s.ones == k && (k >= 7 ==> !s.synced)
    decreases k
  {
    if k > 0 {
      RefOnes(r, k - 1);
      RepeatSnoc(k - 1);
      assert Repeat(true, k)[..k - 1] == Repeat(true, k - 1);
    }
  }

  lemma {:induction false} OnesForge(ones: nat, k: nat)
    requires ones + k == 8
    ensures !NoForgedFlag(ones, Repeat(true, k) + [false])
    decreases k
  {
    var line := Repeat(true, k) + [false];
    if k > 0 {
      assert line[1..] == Repeat(true, k - 1) + [false];
      OnesForge(ones + 1, k - 1);
    }
  }

  /** "No abort" is exactly "no run of seven ones", counting the run open in the state. */
  lemma {:induction false} NoAbortIsShortRuns(q: nat, line: seq<bool>)
    requires q < RX_STATES
    ensures NoAbort(q, line) <==>
            RunsAtMost(6, HeldOnes(q), line)
    decreases |line|
  {
    if |line| > 0 {
      var b, rest := line[0], line[1..];
      assert line == [b] + rest;
      StateAppend(q, [b], rest);
      assert [b][..0] == [];
      assert StateAfter(q, []) == q;
      assert StateAfter(q, [b]) == Next(q, b);
      assert NoAbort(q, [b]) <==> !Aborts(q, b);
      NoAbortIsShortRuns(Next(q, b), rest);
    }
  }
}
