/** The receiver's tables: the fourteen-state machine run over a whole sample of seven or eight bits. */
module RxTable {
  import opened Bits
  import opened Stuffing
  import opened TxTable
  import opened Deleter

  /** One sample, with its output as bits: `flag` a flag was completed, `sync` data follow that flag in
      the same sample (and `out` holds only those), `hunt` and `idle` seven ones or more were seen. */
  datatype Sample = Sample(q: nat, out: seq<bool>, sync: bool, hunt: bool, flag: bool, idle: bool)

  function Begin(q: nat): Sample { Sample(q, [], false, false, false, false) }

  /** Data after a flag in the same sample start afresh. */
  function Afresh(e: Sample): Sample {
    if e.q == 0 && e.flag && !e.sync then e.(out := [], sync := true) else e
  }

  function Feed(e: Sample, b: bool): (e': Sample)
    requires e.q < RX_STATES
    ensures e'.q < RX_STATES && e'.q == Next(e.q, b)
  {
    var e0 := Afresh(e);
    var q := Next(e.q, b);
    if Completes(e.q, b) then e0.(q := q, sync := false, hunt := false, idle := false, flag := true)
    else if Aborts(e.q, b) then e0.(q := q, sync := false, hunt := true, idle := e.idle || e.q == 13, flag := false)
    else e0.(q := q, out := e0.out + Emits(e.q, b))
  }

  function FeedAll(e: Sample, x: seq<bool>): (e': Sample)
    requires e.q < RX_STATES
    ensures e'.q < RX_STATES
    decreases |x|
  {
    if |x| == 0 then e else Feed(FeedAll(e, x[..|x| - 1]), x[|x| - 1])
  }

  // ---- what a sample means for the line ----

  /** The least number of bits since the last output in this sample. */
  function Depth(q: nat): int { if q <= 7 then q else q - 6 }

  /** Reading a sample's entry as a whole: close the open body at a flag, then go on. */
  function DelEntry(d: Del, e: Sample): Del {
    if !e.flag then Del(e.q, d.synced, if d.synced then d.acc + e.out else d.acc, d.ends)
    else if !e.sync then Del(e.q, true, [], Closed(d.ends, d.synced, if d.synced then d.acc + e.out else []))
    else Del(e.q, true, e.out, Closed(d.ends, d.synced, d.acc))
  }

  /** Where output can stand in a sample that `k` bits have gone into. */
  ghost predicate Shape(e: Sample, k: nat) {
    && (e.sync ==> e.flag)
    && (!e.flag && |e.out| > 0 ==> k >= Depth(e.q) && k >= 1)
    && (e.flag && !e.sync ==> e.q == 0 && (|e.out| > 0 ==> k >= 8))
    && (e.flag && e.sync && |e.out| > 0 ==> k >= Depth(e.q) + 1)
    && (e.flag ==> !e.hunt && !e.idle)
  }

  lemma {:induction false} FeedShape(q: nat, x: seq<bool>)
    requires q < RX_STATES && |x| <= 8
    ensures Shape(FeedAll(Begin(q), x), |x|)
    ensures FeedAll(Begin(q), x).q == StateAfter(q, x)
    decreases |x|
  {
    if |x| > 0 { FeedShape(q, x[..|x| - 1]); }
  }

  lemma {:induction false} FeedQuiet(q: nat, x: seq<bool>)
    requires q < RX_STATES && NoAbort(q, x)
    ensures !FeedAll(Begin(q), x).hunt && !FeedAll(Begin(q), x).idle
    ensures FeedAll(Begin(q), x).q == StateAfter(q, x)
    decreases |x|
  {
    if |x| > 0 { FeedQuiet(q, x[..|x| - 1]); }
  }

  lemma EntryStep(d: Del, e: Sample, b: bool, k: nat)
    requires DelOk(d) && e.q < RX_STATES && Shape(e, k) && k < 8
    requires !Aborts(e.q, b)
    ensures DelEntry(d, Feed(e, b)) == DelStep(DelEntry(d, e), b)
  {
    if !e.flag {
      assert d.acc + (e.out + Emits(e.q, b)) == d.acc + e.out + Emits(e.q, b);
    } else if !e.sync {
      assert e.out == [] && Emits(0, b) == [];
      assert d.acc + e.out == d.acc;
    } else if Completes(e.q, b) {
      assert e.out == [];
      assert d.acc + e.out == d.acc;
    }
  }

  /** Chaining the entries of samples of at most eight bits is the same as deleting zeros and finding
      flags one bit at a time, on every line with no run of seven ones. */
  lemma {:induction false} EntryIsBits(d: Del, x: seq<bool>)
    requires DelOk(d) && |x| <= 8 && NoAbort(d.q, x)
    ensures DelEntry(d, FeedAll(Begin(d.q), x)) == DelRun(d, x)
    decreases |x|
  {
    if |x| == 0 {
      assert d.acc + [] == d.acc;
    } else {
      var n := |x| - 1;
      EntryIsBits(d, x[..n]);
      FeedShape(d.q, x[..n]);
      EntryStep(d, FeedAll(Begin(d.q), x[..n]), x[n], n);
    }
  }

  /** While no flag has been seen the same holds on every line, seven ones or not. */
  lemma {:induction false} HuntingEntryIsBits(d: Del, x: seq<bool>)
    requires DelOk(d) && |x| <= 8 && !d.synced
    ensures DelEntry(d, FeedAll(Begin(d.q), x)) == DelRun(d, x)
    decreases |x|
  {
    if |x| > 0 {
      var n := |x| - 1;
      HuntingEntryIsBits(d, x[..n]);
      FeedShape(d.q, x[..n]);
      var e := FeedAll(Begin(d.q), x[..n]);
      if Aborts(e.q, x[n]) {
        DelState(d, x[..n]);
      } else {
        EntryStep(d, e, x[n], n);
      }
    }
  }

  // ---- samples with an abort ----

  /** No flag is completed on the line. */
  predicate NoFlag(q: nat, line: seq<bool>)
    requires q < RX_STATES
    decreases |line|
  {
    |line| == 0 ||
    (NoFlag(q, line[..|line| - 1]) && !Completes(StateAfter(q, line[..|line| - 1]), line[|line| - 1]))
  }

  /** A seventh one is seen on the line, or a later odd one, and no zero before the run. */
  ghost predicate OnesIn(q: nat, line: seq<bool>, state: nat)
    requires q < RX_STATES
  {
    exists k :: 0 <= k < |line| && line[k] && StateAfter(q, line[..k]) == state
  }

  lemma OnesInMore(q: nat, line: seq<bool>, state: nat)
    requires q < RX_STATES && |line| > 0
    ensures var n := |line| - 1;
            OnesIn(q, line, state) <==>
            OnesIn(q, line[..n], state) || (line[n] && StateAfter(q, line[..n]) == state)
  {
    var n := |line| - 1;
    assert forall k :: 0 <= k < n ==> line[..n][k] == line[k] && line[..n][..k] == line[..k];
  }

  lemma NoOnes(q: nat, line: seq<bool>)
    requires q < RX_STATES && |line| == 0
    ensures !OnesIn(q, line, 7) && !OnesIn(q, line, 13)
  {
  }

  /** While no flag comes, an entry says hunt exactly when a one comes in state 7 or in state 13, and idle
      exactly when one comes in state 13; and it never says idle without hunt. */
  lemma {:induction false} EntryHunts(q: nat, x: seq<bool>)
    requires q < RX_STATES && |x| <= 8
    ensures FeedAll(Begin(q), x).idle ==> FeedAll(Begin(q), x).hunt
    ensures NoFlag(q, x) ==>
              && (FeedAll(Begin(q), x).hunt <==> OnesIn(q, x, 7) || OnesIn(q, x, 13))
              && (FeedAll(Begin(q), x).idle <==> OnesIn(q, x, 13))
    decreases |x|
  {
    if |x| == 0 {
      assert FeedAll(Begin(q), x) == Begin(q);
      hide *;
      NoOnes(q, x);
    } else {
      hide OnesIn;
      var n := |x| - 1;
      EntryHunts(q, x[..n]);
      FeedShape(q, x[..n]);
      OnesInMore(q, x, 7);
      OnesInMore(q, x, 13);
      HuntStep(FeedAll(Begin(q), x[..n]), x[n]);
      hide OnesIn, StateAfter, Feed;
    }
  }

  lemma HuntStep(e: Sample, b: bool)
    requires e.q < RX_STATES
    ensures var e' := Feed(e, b);
            if Completes(e.q, b) then !e'.hunt && !e'.idle
            else if Aborts(e.q, b) then e'.hunt && (e'.idle <==> e.idle || e.q == 13)
            else e'.hunt == e.hunt && e'.idle == e.idle
  {
  }

  /** The least number of bits from a flag to a state, and from an abort, its last one counted. */
  function FromFlag(q: nat): nat { if q <= 7 then q else q - 7 }

  function FromAbort(q: nat): nat {
    if q == 12 then 1 else if q == 13 || q == 0 then 2 else if q <= 7 then q + 2 else q - 5
  }

  /** After `k` bits with an abort and no flag. */
  ghost predicate Aborted(e: Sample, k: nat) {
    && !e.flag && !e.sync && e.hunt && k >= FromAbort(e.q)
    && (e.out != [] && e.q == 12 ==> k >= 7) && (e.out != [] && e.q == 13 ==> k >= 8)
  }

  /** After `k` bits with an abort and then a flag: what was put out before the flag is nothing. */
  ghost predicate Restarted(e: Sample, k: nat) {
    e.flag && !e.hunt && !e.idle && k >= 3 + FromFlag(e.q) && (!e.sync ==> e.q == 0 && e.out == [])
  }

  /** What the entry of `k` bits says of the line when a frame may be open: without an abort it is to be
      read as a whole; an abort drops the frame; a flag and an abort take eight bits, the flag first; an
      abort and a flag open a new frame. */
  ghost predicate Tells(d: Del, e: Sample, d': Del, k: nat, quiet: bool, flagless: bool) {
    && e.q == d'.q < RX_STATES
    && if quiet then
         && d' == DelEntry(d, e) && Shape(e, k) && !e.hunt && !e.idle
         && (e.flag <==> !flagless) && (e.flag ==> k >= 1 + FromFlag(e.q))
         && (e.flag && e.sync && e.out != [] && e.q == 0 ==> k >= 7)
       else if flagless then Aborted(e, k) && d' == Del(e.q, false, [], d.ends)
       else
         || (k == 8 && !e.flag && e.hunt && d' == Del(12, false, [], Closed(d.ends, true, d.acc)))
         || (Restarted(e, k) && d' == Del(e.q, true, if e.sync then e.out else [], d.ends))
  }

  lemma TellsMore(d: Del, e: Sample, d': Del, k: nat, quiet: bool, flagless: bool, b: bool)
    requires DelOk(d) && d.synced && k < 8 && Tells(d, e, d', k, quiet, flagless)
    ensures Tells(d, Feed(e, b), DelStep(d', b), k + 1,
                  quiet && !Aborts(d'.q, b), flagless && !Completes(d'.q, b))
  {
    if quiet && !Aborts(e.q, b) {
      EntryStep(d, e, b, k);
    }
  }

  /** What the entry of a sample of at most eight bits says of the line, whatever is on it. */
  lemma {:induction false} EntryTells(d: Del, x: seq<bool>)
    requires DelOk(d) && d.synced && |x| <= 8
    ensures Tells(d, FeedAll(Begin(d.q), x), DelRun(d, x), |x|, NoAbort(d.q, x), NoFlag(d.q, x))
    decreases |x|
  {
    if |x| == 0 {
      assert d.acc + [] == d.acc;
    } else {
      hide Tells, Feed, DelStep, Next, Aborts, Completes;
      var n := |x| - 1;
      EntryTells(d, x[..n]);
      DelState(d, x[..n]);
      TellsMore(d, FeedAll(Begin(d.q), x[..n]), DelRun(d, x[..n]), n, NoAbort(d.q, x[..n]), NoFlag(d.q, x[..n]), x[n]);
    }
  }

  // ---- nothing is lost ----

  /** The zeros dropped after five ones. */
  function Deleted(q: nat, x: seq<bool>): nat
    requires q < RX_STATES
    decreases |x|
  {
    if |x| == 0 then 0
    else var p := StateAfter(q, x[..|x| - 1]);
         Deleted(q, x[..|x| - 1]) + Bit(!x[|x| - 1] && (p == 6 || p == 12))
  }

  /** Away from flags: bits put out, bits held and zeros dropped account for every bit taken in. */
  lemma {:induction false} Conservation(q: nat, x: seq<bool>)
    requires q < RX_STATES && NoAbort(q, x) && !FeedAll(Begin(q), x).flag
    ensures |FeedAll(Begin(q), x).out| + |Pending(StateAfter(q, x))| + Deleted(q, x) ==
            |Pending(q)| + |x|
    decreases |x|
  {
    if |x| > 0 {
      FeedQuiet(q, x[..|x| - 1]);
      Conservation(q, x[..|x| - 1]);
    }
  }

  /** Bits a sample may still put out, beyond those it has. */
  function Weight(q: nat): nat {
    if q <= 6 then q else if 8 <= q <= 12 then q - 7 else 5
  }

  predicate Light(e: Sample, k: nat) {
    if e.q == 0 then |e.out| <= k + 4 || (k == 1 && |e.out| <= 6) else |e.out| + Weight(e.q) <= k + 5
  }

  lemma LightStep(e: Sample, b: bool, k: nat)
    requires e.q < RX_STATES && k >= 1 && Light(e, k)
    ensures Light(Feed(e, b), k + 1)
  {
  }

  lemma {:induction false} OutputWeight(q: nat, x: seq<bool>)
    requires q < RX_STATES && 1 <= |x|
    ensures Light(FeedAll(Begin(q), x), |x|)
    decreases |x|
  {
    var n := |x| - 1;
    if n == 0 {
      assert FeedAll(Begin(q), x[..0]) == Begin(q);
      assert Begin(q).out + Emits(q, x[0]) == Emits(q, x[0]);
    } else {
      hide Light;
      OutputWeight(q, x[..n]);
      LightStep(FeedAll(Begin(q), x[..n]), x[n], n);
    }
  }

  /** An entry puts out at most twelve bits. */
  lemma OutputBound(q: nat, x: seq<bool>)
    requires q < RX_STATES && |x| <= 8
    ensures |FeedAll(Begin(q), x).out| <= 12
  {
    if |x| > 0 { OutputWeight(q, x); }
  }

  // ---- the generator ----

  datatype RxEntry = RxEntry(bitString: nat, bitLength: nat, state: nat,
                             sync: bool, hunt: bool, flag: bool, idle: bool)

  ghost predicate Shows(r: RxEntry, e: Sample) {
    && r.bitString == Val(e.out) && r.bitLength == |e.out| && r.state == e.q
    && r.sync == e.sync && r.hunt == e.hunt && r.flag == e.flag && r.idle == e.idle
  }

  /** `ones` ones on the end of the output word. */
  method PutOnes(bitString: nat, bitMask: nat, ones: nat, ghost out: seq<bool>)
      returns (bitString': nat, bitMask': nat)
    requires bitString == Val(out) && bitMask == Pow2(|out|)
    ensures bitString' == Val(out + Repeat(true, ones))
    ensures bitMask' == Pow2(|out| + ones)
  {
    bitString', bitMask' := bitString, bitMask;
    ghost var done := out;
    var i := 0;
    assert out + Repeat(true, 0) == out;
    while i < ones
      invariant 0 <= i <= ones && done == out + Repeat(true, i)
      invariant bitString' == Val(done) && bitMask' == Pow2(|done|)
    {
      PutOne(done);
      RepeatSnoc(i);
      assert out + Repeat(true, i) + [true] == out + Repeat(true, i + 1);
      bitString' := Or(bitString', bitMask');
      bitMask' := 2 * bitMask';
      done := done + [true];
      i := i + 1;
    }
  }

  /** A zero in a state that holds data: put the held bits out, the zero of states 1-6 first. */
  method PutPending(r: RxEntry, bitMask: nat, ghost e: Sample) returns (r': RxEntry, bitMask': nat)
    requires e.q < RX_STATES && e.q != 7 && e.q != 13
    requires Shows(r, e) && bitMask == Pow2(|e.out|)
    ensures Shows(r', e.(q := Next(e.q, false), out := e.out + Pending(e.q)))
    ensures bitMask' == Pow2(|e.out + Pending(e.q)|)
  {
    ghost var out := e.out;
    bitMask' := bitMask;
    if 1 <= r.state <= 6 {
      PutZero(out);
      out := out + [false];
      bitMask' := 2 * bitMask';
    }
    var ones := if r.state == 0 then 0 else if r.state <= 6 then r.state - 1 else r.state - 7;
    var word: nat;
    word, bitMask' := PutOnes(r.bitString, bitMask', ones, out);
    assert out + Repeat(true, ones) == e.out + Pending(e.q);
    r' := r.(bitString := word,
             bitLength := r.bitLength + (if r.state <= 6 then r.state else r.state - 7),
             state := if r.state == 6 || r.state == 12 then 0 else 1);
  }

  /** The switch on the state, for one bit. */
  method RxStep(r0: RxEntry, bitMask0: nat, one: bool, ghost e: Sample) returns (r: RxEntry, bitMask: nat)
    requires e.q < RX_STATES && Shows(r0, e) && bitMask0 == Pow2(|e.out|)
    ensures Shows(r, Feed(e, one)) && bitMask == Pow2(|Feed(e, one).out|)
  {
    r, bitMask := r0, bitMask0;
    if r.state == 0 && r.flag && !r.sync {
      bitMask := 1;
      r := r.(bitString := 0, bitLength := 0, sync := true);
    }
    if one {
      if r.state == 7 {
        r := r.(sync := false, flag := false, hunt := true, state := 12);
      } else if r.state == 13 {
        r := r.(hunt := true, sync := false, idle := true, flag := false, state := 12);
      } else if r.state == 0 {
        r := r.(state := 8);
      } else {
        r := r.(state := r.state + 1);
      }
      assert Afresh(e).out + [] == Afresh(e).out;
    } else if r.state == 7 || r.state == 13 {
      r := r.(sync := false, hunt := false, idle := false, flag := true, state := 0);
    } else {
      r, bitMask := PutPending(r, bitMask, Afresh(e));
    }
  }

  method RxTableValueN(state: nat, byte: octet, len: nat) returns (r: RxEntry)
    requires state < RX_STATES && len <= 8
    ensures Shows(r, FeedAll(Begin(state), Digits(byte, len)))
  {
    hide Val, Feed, Or;
    assert Val([]) == 0 && Pow2(0) == 1 by { NoBits(); }
    ghost var bits, e := Digits(byte, len), Begin(state);
    var rest: nat, left, bitMask := byte, len, 1;
    r := RxEntry(0, 0, state, false, false, false, false);
    assert bits[..0] == [];
    while left > 0
      invariant 0 <= left <= len && Digits(rest, left) == bits[len - left..]
      invariant e == FeedAll(Begin(state), bits[..len - left])
      invariant Shows(r, e) && bitMask == Pow2(|e.out|)
    {
      ghost var k := len - left;
      assert (rest % 2 == 1) == bits[k];
      assert bits[..k + 1][..k] == bits[..k];
      assert Digits(rest, left)[1..] == Digits(rest / 2, left - 1);
      left := left - 1;
      r, bitMask := RxStep(r, bitMask, rest % 2 == 1, e);
      e := FeedAll(Begin(state), bits[..k + 1]);
      rest := rest / 2;
    }
    assert bits[..len] == bits;
  }

  /** Entry `state * 256 + byte` for samples of `width` bits. */
  ghost predicate Complete(table: seq<RxEntry>, width: nat)
  {
    |table| == RX_STATES * 256 && Filled(table, |table|, width)
  }

  ghost predicate Filled(table: seq<RxEntry>, count: nat, width: nat)
    requires count <= |table| <= RX_STATES * 256
  {
    forall i :: 0 <= i < count ==> Shows(table[i], FeedAll(Begin(i / 256), Digits(i % 256, width)))
  }

  lemma {:induction false} FillOne(table: seq<RxEntry>, j: nat, k: octet, width: nat, r: RxEntry)
    requires j * 256 + k < |table| <= RX_STATES * 256 && Filled(table, j * 256 + k, width)
    requires j < RX_STATES && Shows(r, FeedAll(Begin(j), Digits(k, width)))
    ensures Filled(table[j * 256 + k := r], j * 256 + k + 1, width)
  {
    var n := j * 256 + k;
    assert n / 256 == j && n % 256 == k;
    forall i | 0 <= i < n + 1
      ensures Shows(table[n := r][i], FeedAll(Begin(i / 256), Digits(i % 256, width)))
    {
      if i < n { assert Shows(table[i], FeedAll(Begin(i / 256), Digits(i % 256, width))); }
    }
  }

  method RxTableGenerate(width: nat) returns (table: seq<RxEntry>)
    requires width <= 8
    ensures Complete(table, width)
  {
    var a := new RxEntry[RX_STATES * 256](_ => RxEntry(0, 0, 0, false, false, false, false));
    var j := 0;
    while j < RX_STATES
      invariant 0 <= j <= RX_STATES && Filled(a[..], j * 256, width)
    {
      var k := 0;
      while k < 256
        invariant 0 <= k <= 256 && Filled(a[..], j * 256 + k, width)
      {
        var r := RxTableValueN(j, k, width);
        FillOne(a[..], j, k, width, r);
        a[j * 256 + k] := r;
        k := k + 1;
      }
      j := j + 1;
    }
    table := a[..];
  }

  /** A look-up runs the machine over the low bits of the octet; its word fits the sixteen bits, and
      its length the four bits, of their fields. */
  lemma {:induction false} LookUp(table: seq<RxEntry>, width: nat, state: nat, byte: octet)
    requires width <= 8 && Complete(table, width) && state < RX_STATES
    ensures |table| == RX_STATES * 256
    ensures Shows(table[state * 256 + byte], FeedAll(Begin(state), Digits(byte, width)))
    ensures table[state * 256 + byte].bitLength <= 12 && table[state * 256 + byte].bitString < 4096
  {
    var i: nat := state * 256 + byte;
    assert i / 256 == state && i % 256 == byte;
    OutputBound(state, Digits(byte, width));
    ValBound(FeedAll(Begin(state), Digits(byte, width)).out);
    Pow2Monotone(|FeedAll(Begin(state), Digits(byte, width)).out|, 12);
    assert Pow2(12) == 4096 by { assert Pow2(6) == 64; }
  }
}
