/** Sending a message buffer by buffer, and sending it again and again: what the pointers do. */
module Repeating {
  import opened Bits
  import Transmitting

  /** A buffer of memory with its read and write pointers, and what lies behind the memory. */
  datatype Buffer = Buffer(mem: seq<octet>, rptr: nat, wptr: nat, beyond: nat -> octet)

  predicate Sound(b: Buffer) { b.wptr <= |b.mem| }

  predicate AllSound(bufs: seq<Buffer>) { forall i :: 0 <= i < |bufs| ==> Sound(bufs[i]) }

  function Held(b: Buffer): seq<octet>
    requires Sound(b)
  {
    if b.rptr <= b.wptr then b.mem[b.rptr..b.wptr] else []
  }

  function Payload(bufs: seq<Buffer>): seq<octet>
    requires AllSound(bufs)
  {
    if |bufs| == 0 then [] else Held(bufs[0]) + Payload(bufs[1..])
  }

  function At(b: Buffer, i: nat): octet { if i < |b.mem| then b.mem[i] else b.beyond(i) }

  /** What is sent of a continuation buffer: one octet is read before the pointers are compared. */
  function Drawn(b: Buffer): seq<octet>
    requires Sound(b)
  {
    if b.rptr < b.wptr then Held(b) else [At(b, b.rptr)]
  }

  function DrawnAll(bufs: seq<Buffer>): seq<octet>
    requires AllSound(bufs)
  {
    if |bufs| == 0 then [] else Drawn(bufs[0]) + DrawnAll(bufs[1..])
  }

  /** What is sent of a message. */
  function Sent(bufs: seq<Buffer>): seq<octet>
    requires AllSound(bufs)
  {
    if |bufs| == 0 then [] else Held(bufs[0]) + DrawnAll(bufs[1..])
  }

  /** A continuation buffer once it has been sent. */
  function Spent(b: Buffer): Buffer { b.(rptr := if b.rptr < b.wptr then b.wptr else b.rptr + 1) }

  function SpentAll(bufs: seq<Buffer>): (s: seq<Buffer>)
    ensures |s| == |bufs| && forall i :: 0 <= i < |s| ==> s[i] == Spent(bufs[i])
  {
    seq(|bufs|, i requires 0 <= i < |bufs| => Spent(bufs[i]))
  }

  /** The message sent, and rewound for a repeat: the first buffer to its base, and only that. */
  function Rewound(bufs: seq<Buffer>): (s: seq<Buffer>)
    ensures |s| == |bufs| && (AllSound(bufs) ==> AllSound(s))
  {
    if |bufs| == 0 then [] else [bufs[0].(rptr := 0)] + SpentAll(bufs[1..])
  }

  /** The message before its repeat number `k`; before it is sent at all when that is nought. */
  function Repeated(bufs: seq<Buffer>, k: nat): (s: seq<Buffer>)
    ensures |s| == |bufs| && (AllSound(bufs) ==> AllSound(s))
  {
    if k == 0 then bufs else Rewound(Repeated(bufs, k - 1))
  }

  // ---- the loop ----

  ghost function Rest(bufs: seq<Buffer>, i: nat, r: nat): seq<octet>
    requires i < |bufs| && AllSound(bufs)
  {
    (if r <= bufs[i].wptr then bufs[i].mem[r..bufs[i].wptr] else []) + DrawnAll(bufs[i + 1..])
  }

  lemma SameBuffer(bufs: seq<Buffer>, i: nat, r: nat)
    requires i < |bufs| && AllSound(bufs) && r < bufs[i].wptr
    ensures Rest(bufs, i, r) == [At(bufs[i], r)] + Rest(bufs, i, r + 1)
  {
    var b := bufs[i];
    assert Sound(b);
    assert b.mem[r..b.wptr] == [b.mem[r]] + b.mem[r + 1..b.wptr];
  }

  lemma NextBuffer(bufs: seq<Buffer>, i: nat, r: nat)
    requires i < |bufs| && AllSound(bufs) && r >= bufs[i].wptr
    ensures i + 1 == |bufs| ==> Rest(bufs, i, r) == []
    ensures i + 1 < |bufs| ==>
              Rest(bufs, i, r) == [At(bufs[i + 1], bufs[i + 1].rptr)] + Rest(bufs, i + 1, bufs[i + 1].rptr + 1)
  {
    assert Sound(bufs[i]);
    if i + 1 < |bufs| {
      var b := bufs[i + 1];
      assert Sound(b);
      assert bufs[i + 1..][0] == b && bufs[i + 1..][1..] == bufs[i + 2..];
      if b.rptr < b.wptr { SameBuffer(bufs, i + 1, b.rptr); }
    }
  }

  lemma FromTheStart(bufs: seq<Buffer>)
    requires |bufs| > 0 && AllSound(bufs)
    ensures Rest(bufs, 0, bufs[0].rptr) == Sent(bufs)
  {
    assert Sound(bufs[0]);
  }

  /** The read pointer of buffer `i` while it is being sent, and once it has been. */
  predicate Under(bufs: seq<Buffer>, i: nat, r: nat)
    requires i < |bufs|
  {
    var b := bufs[i];
    if i == 0 then b.rptr <= r && (r <= b.wptr || r == b.rptr) else b.rptr < r <= Spent(b).rptr
  }

  function Done(bufs: seq<Buffer>, i: nat): Buffer
    requires i < |bufs|
  {
    var b := bufs[i];
    if i > 0 then Spent(b) else if b.rptr < b.wptr then b.(rptr := b.wptr) else b
  }

  lemma UnderEnds(bufs: seq<Buffer>, i: nat, r: nat)
    requires i < |bufs| && Under(bufs, i, r) && r >= bufs[i].wptr
    ensures bufs[i].(rptr := r) == Done(bufs, i)
  {
  }

  lemma UnderMore(bufs: seq<Buffer>, i: nat, r: nat)
    requires i < |bufs|
    ensures Under(bufs, i, r) && r < bufs[i].wptr ==> Under(bufs, i, r + 1)
    ensures i > 0 ==> Under(bufs, i, bufs[i].rptr + 1)
  {
  }

  /** The buffers while buffer `i` is being sent. */
  ghost predicate Midway(bufs: seq<Buffer>, now: seq<Buffer>, i: nat, r: nat) {
    && i < |bufs| == |now| && Under(bufs, i, r)
    && (forall j :: 0 <= j < i ==> now[j] == Done(bufs, j))
    && now[i] == bufs[i].(rptr := r)
    && (forall j :: i < j < |bufs| ==> now[j] == bufs[j])
  }

  lemma SentBuffers(bufs: seq<Buffer>, after: seq<Buffer>)
    requires |bufs| == |after| > 0 && forall j :: 0 <= j < |bufs| ==> after[j] == Done(bufs, j)
    ensures Rewound(bufs) == [after[0].(rptr := 0)] + after[1..]
  {
    hide Spent;
    var s, t := Rewound(bufs), [after[0].(rptr := 0)] + after[1..];
    assert s[0] == t[0];
    forall i | 1 <= i < |bufs| ensures s[i] == t[i] {
      assert s[i] == SpentAll(bufs[1..])[i - 1] == Spent(bufs[i]);
      assert t[i] == after[i] == Done(bufs, i);
    }
  }

  /** The octets of a frame as the transmit block takes them, and where it leaves the pointers: the next octet of
      the buffer in hand if its pointers say that there is one, or else the first of the next buffer.  Rewound for
      a repeat, the first buffer begins at its base. */
  method Send(bufs: seq<Buffer>) returns (out: seq<octet>, after: seq<Buffer>)
    requires |bufs| > 0 && AllSound(bufs)
    ensures out == Sent(bufs) && |after| == |bufs|
    ensures Rewound(bufs) == [after[0].(rptr := 0)] + after[1..]
  {
    hide Rest, Sent, At, AllSound, Under, Done, Rewound;
    out, after := [], bufs;
    var i: nat, r: nat := 0, bufs[0].rptr;
    FromTheStart(bufs);
    assert Under(bufs, 0, r) by { Begins(bufs); }
    assert [] + Sent(bufs) == Sent(bufs);
    while true
      invariant Midway(bufs, after, i, r) && out + Rest(bufs, i, r) == Sent(bufs)
      decreases |bufs| - i, if r <= bufs[i].wptr then bufs[i].wptr - r else 0
    {
      if r < bufs[i].wptr {
        SameBuffer(bufs, i, r);
        UnderMore(bufs, i, r);
      } else {
        NextBuffer(bufs, i, r);
        UnderEnds(bufs, i, r);
        if i + 1 == |bufs| {
          SentBuffers(bufs, after);
          return;
        }
        i := i + 1;
        r := bufs[i].rptr;
        UnderMore(bufs, i, r);
      }
      var o := At(bufs[i], r);
      Shift(out, o, Rest(bufs, i, r + 1));
      out := out + [o];
      r := r + 1;
      after := after[i := after[i].(rptr := r)];
    }
  }

  lemma Begins(bufs: seq<Buffer>)
    requires |bufs| > 0
    ensures Under(bufs, 0, bufs[0].rptr)
  {
  }

  lemma Shift(s: seq<octet>, o: octet, t: seq<octet>)
    ensures s + ([o] + t) == (s + [o]) + t
  {
  }

  // ---- when the payload is sent ----

  predicate NoneEmpty(bufs: seq<Buffer>) { forall i :: 0 <= i < |bufs| ==> bufs[i].rptr < bufs[i].wptr }

  lemma DrawnOne(b: Buffer)
    requires Sound(b)
    ensures |Drawn(b)| >= 1
    ensures if b.rptr < b.wptr then Drawn(b) == Held(b) else |Drawn(b)| > |Held(b)|
  {
  }

  lemma NoneEmptySplit(bufs: seq<Buffer>)
    requires |bufs| > 0
    ensures NoneEmpty(bufs) <==> bufs[0].rptr < bufs[0].wptr && NoneEmpty(bufs[1..])
    ensures AllSound(bufs) ==> Sound(bufs[0]) && AllSound(bufs[1..])
  {
    var rest := bufs[1..];
    assert forall i :: 1 <= i < |bufs| ==> bufs[i] == rest[i - 1];
  }

  lemma {:induction false} DrawnExactly(bufs: seq<Buffer>)
    requires AllSound(bufs)
    ensures |DrawnAll(bufs)| >= |Payload(bufs)|
    ensures DrawnAll(bufs) == Payload(bufs) <==> NoneEmpty(bufs)
    ensures |DrawnAll(bufs)| == |Payload(bufs)| <==> NoneEmpty(bufs)
    decreases |bufs|
  {
    if |bufs| > 0 {
      NoneEmptySplit(bufs);
      hide NoneEmpty, AllSound, Held, Drawn, Sound;
      DrawnExactly(bufs[1..]);
      DrawnOne(bufs[0]);
    }
  }

  /** A message goes out as it is if and only if none of its continuation buffers is empty. */
  lemma {:induction false} SentExactly(bufs: seq<Buffer>)
    requires AllSound(bufs) && |bufs| > 0
    ensures Sent(bufs) == Payload(bufs) <==> NoneEmpty(bufs[1..])
  {
    DrawnExactly(bufs[1..]);
    var a, b, c := Held(bufs[0]), DrawnAll(bufs[1..]), Payload(bufs[1..]);
    if a + b == a + c { assert (a + b)[|a|..] == b && (a + c)[|a|..] == c; }
  }

  // ---- what the repeats send ----

  /** The octets that come next in each continuation buffer, `j` repeats on. */
  function Behind(tail: seq<Buffer>, j: nat): (s: seq<octet>)
    ensures |s| == |tail|
  {
    seq(|tail|, i requires 0 <= i < |tail| => At(tail[i], Spent(tail[i]).rptr + j))
  }

  lemma {:induction false} RepeatedBuffers(bufs: seq<Buffer>, k: nat)
    requires |bufs| > 0
    ensures var s := Repeated(bufs, k + 1);
            && s[0] == bufs[0].(rptr := 0)
            && forall i :: 1 <= i < |s| ==>
                 s[i] == bufs[i].(rptr := Spent(bufs[i]).rptr + k) && s[i].rptr >= s[i].wptr
    decreases k
  {
    var t := Repeated(bufs, k);
    if k > 0 { RepeatedBuffers(bufs, k - 1); }
    assert forall i :: 1 <= i < |bufs| ==> Rewound(t)[i] == Spent(t[1..][i - 1]) == Spent(t[i]);
  }

  lemma {:induction false} DrawnSpent(tail: seq<Buffer>)
    requires AllSound(tail) && forall i :: 0 <= i < |tail| ==> tail[i].rptr >= tail[i].wptr
    ensures |DrawnAll(tail)| == |tail|
    ensures forall i :: 0 <= i < |tail| ==> DrawnAll(tail)[i] == At(tail[i], tail[i].rptr)
    decreases |tail|
  {
    if |tail| > 0 { DrawnSpent(tail[1..]); }
  }

  lemma {:induction false} DrawnRepeated(bufs: seq<Buffer>, k: nat)
    requires AllSound(bufs) && |bufs| > 0
    ensures DrawnAll(Repeated(bufs, k + 1)[1..]) == Behind(bufs[1..], k)
  {
    hide *;
    RepeatedBuffers(bufs, k);
    var s, tail := Repeated(bufs, k + 1), bufs[1..];
    var t := s[1..];
    TailSound(s);
    assert forall i :: 0 <= i < |t| ==> t[i] == s[i + 1];
    DrawnSpent(t);
    forall i | 0 <= i < |tail| ensures DrawnAll(t)[i] == Behind(tail, k)[i] {
      assert tail[i] == bufs[i + 1];
      BehindIs(tail, k, i);
      SameMemory(tail[i], t[i], t[i].rptr);
    }
  }

  lemma BehindIs(tail: seq<Buffer>, k: nat, i: nat)
    requires i < |tail|
    ensures Behind(tail, k)[i] == At(tail[i], Spent(tail[i]).rptr + k)
  {
  }

  lemma TailSound(bufs: seq<Buffer>)
    requires AllSound(bufs) && |bufs| > 0
    ensures AllSound(bufs[1..])
  {
  }

  lemma SameMemory(b: Buffer, b': Buffer, i: nat)
    requires b' == b.(rptr := b'.rptr)
    ensures At(b, i) == At(b', i)
  {
  }

  /** A repeat sends all that the first buffer's memory holds up to the write pointer, and one octet for each
      continuation buffer, from behind what it held and one further each time. */
  lemma {:induction false} RepeatSends(bufs: seq<Buffer>, k: nat)
    requires AllSound(bufs) && |bufs| > 0
    ensures Sound(bufs[0]) && Sent(Repeated(bufs, k + 1)) == bufs[0].mem[..bufs[0].wptr] + Behind(bufs[1..], k)
    ensures forall i :: 1 <= i < |bufs| ==>
              Behind(bufs[1..], k)[i - 1] ==
              At(bufs[i], (if bufs[i].rptr < bufs[i].wptr then bufs[i].wptr else bufs[i].rptr + 1) + k)
  {
    RepeatedBuffers(bufs, k);
    DrawnRepeated(bufs, k);
    BehindWhere(bufs, k);
    hide Repeated, DrawnAll, Behind, Spent, At;
    var s := Repeated(bufs, k + 1);
    assert Sound(bufs[0]) && Held(s[0]) == bufs[0].mem[..bufs[0].wptr];
  }

  lemma BehindWhere(bufs: seq<Buffer>, k: nat)
    requires |bufs| > 0
    ensures forall i :: 1 <= i < |bufs| ==>
              Behind(bufs[1..], k)[i - 1] ==
              At(bufs[i], (if bufs[i].rptr < bufs[i].wptr then bufs[i].wptr else bufs[i].rptr + 1) + k)
  {
    hide At;
    forall i | 1 <= i < |bufs|
      ensures Behind(bufs[1..], k)[i - 1] ==
              At(bufs[i], (if bufs[i].rptr < bufs[i].wptr then bufs[i].wptr else bufs[i].rptr + 1) + k)
    {
      BehindIs(bufs[1..], k, i - 1);
    }
  }

  // ---- when they send the same ----

  /** Nothing else comes behind the first octet behind each continuation buffer. */
  ghost predicate Steady(tail: seq<Buffer>) {
    forall j: nat :: Behind(tail, j) == Behind(tail, 0)
  }

  /** The first buffer's memory has the length of what lies ahead of the message as a period, and what the
      continuation buffers send at first is the end of that memory and the octets behind them. */
  predicate Shifted(bufs: seq<Buffer>)
    requires |bufs| > 0 && AllSound(bufs)
  {
    var b := bufs[0];
    && b.rptr <= b.wptr <= |b.mem|
    && (forall j :: 0 <= j < b.wptr - b.rptr ==> b.mem[j] == b.mem[j + b.rptr])
    && DrawnAll(bufs[1..]) == b.mem[b.wptr - b.rptr..b.wptr] + Behind(bufs[1..], 0)
  }

  lemma PeriodIs(b: Buffer)
    requires b.rptr <= b.wptr <= |b.mem|
    ensures var n := b.wptr - b.rptr;
            b.mem[..n] == b.mem[b.rptr..b.wptr] <==> forall j :: 0 <= j < n ==> b.mem[j] == b.mem[j + b.rptr]
  {
    var n := b.wptr - b.rptr;
    var p, q := b.mem[..n], b.mem[b.rptr..b.wptr];
    assert forall j :: 0 <= j < n ==> p[j] == b.mem[j] && q[j] == b.mem[j + b.rptr];
  }

  lemma ShiftedIs(bufs: seq<Buffer>)
    requires AllSound(bufs) && |bufs| > 0 && bufs[0].rptr <= bufs[0].wptr <= |bufs[0].mem|
    ensures var (b, n) := (bufs[0], bufs[0].wptr - bufs[0].rptr);
            && Sent(bufs) == b.mem[b.rptr..b.wptr] + DrawnAll(bufs[1..])
            && (Shifted(bufs) <==>
                  b.mem[..n] == b.mem[b.rptr..b.wptr] && DrawnAll(bufs[1..]) == b.mem[n..b.wptr] + Behind(bufs[1..], 0))
  {
    PeriodIs(bufs[0]);
    hide DrawnAll, Behind;
  }

  lemma OverlapAt(b: Buffer, o: seq<octet>, d: seq<octet>)
    requires b.rptr <= b.wptr <= |b.mem|
    ensures var n := b.wptr - b.rptr;
            b.mem[..b.wptr] + o == b.mem[b.rptr..b.wptr] + d <==>
            b.mem[..n] == b.mem[b.rptr..b.wptr] && d == b.mem[n..b.wptr] + o
  {
    var n, h := b.wptr - b.rptr, b.mem[..b.wptr];
    assert h[n..] == b.mem[n..b.wptr] && h[..n] == b.mem[..n];
    Overlap(h, b.mem[b.rptr..b.wptr], o, d);
  }

  lemma FirstRepeatExactly(bufs: seq<Buffer>)
    requires AllSound(bufs) && |bufs| > 0 && bufs[0].rptr <= bufs[0].wptr
    ensures Sent(Repeated(bufs, 1)) == Sent(bufs) <==> Shifted(bufs)
  {
    hide *;
    SoundFirst(bufs);
    RepeatSends(bufs, 0);
    ShiftedIs(bufs);
    OverlapAt(bufs[0], Behind(bufs[1..], 0), DrawnAll(bufs[1..]));
  }

  lemma SoundFirst(bufs: seq<Buffer>)
    requires AllSound(bufs) && |bufs| > 0
    ensures bufs[0].wptr <= |bufs[0].mem| && AllSound(bufs[1..])
  {
    assert Sound(bufs[0]);
  }

  lemma Overlap(h: seq<octet>, q: seq<octet>, o: seq<octet>, d: seq<octet>)
    requires |q| <= |h|
    ensures h + o == q + d <==> h[..|q|] == q && d == h[|q|..] + o
  {
    var n := |q|;
    assert h + o == h[..n] + (h[n..] + o);
    if h + o == q + d {
      assert (h + o)[..n] == h[..n] && (q + d)[..n] == q;
      assert (h + o)[n..] == h[n..] + o && (q + d)[n..] == d;
    }
  }

  ghost predicate AllTheSame(bufs: seq<Buffer>)
    requires AllSound(bufs)
  {
    forall k: nat :: Sent(Repeated(bufs, k)) == Sent(bufs)
  }

  lemma SteadyIfSame(bufs: seq<Buffer>, j: nat)
    requires AllSound(bufs) && |bufs| > 0 && AllTheSame(bufs)
    ensures Behind(bufs[1..], j) == Behind(bufs[1..], 0)
  {
    assert Sent(Repeated(bufs, j + 1)) == Sent(bufs) == Sent(Repeated(bufs, 0 + 1));
    RepeatSends(bufs, j);
    RepeatSends(bufs, 0);
    hide Sent, Repeated, Behind;
    var h, x, y := bufs[0].mem[..bufs[0].wptr], Behind(bufs[1..], j), Behind(bufs[1..], 0);
    assert (h + x)[|h|..] == x && (h + y)[|h|..] == y;
  }

  lemma SameIfSteady(bufs: seq<Buffer>, k: nat)
    requires AllSound(bufs) && |bufs| > 0 && Steady(bufs[1..]) && Sent(Repeated(bufs, 1)) == Sent(bufs)
    ensures Sent(Repeated(bufs, k)) == Sent(bufs)
  {
    if k > 0 {
      RepeatSends(bufs, k - 1);
      RepeatSends(bufs, 0);
      assert Behind(bufs[1..], k - 1) == Behind(bufs[1..], 0);
    }
  }

  /** Every repeat sends what was sent at first if and only if the first one does and nothing changes behind
      the continuation buffers. */
  lemma {:induction false} RepeatsExactly(bufs: seq<Buffer>)
    requires AllSound(bufs) && |bufs| > 0 && bufs[0].rptr <= bufs[0].wptr
    ensures AllTheSame(bufs) <==> Shifted(bufs) && Steady(bufs[1..])
  {
    FirstRepeatExactly(bufs);
    hide Sent, Repeated, Behind, Shifted;
    if Shifted(bufs) && Steady(bufs[1..]) {
      forall k: nat ensures Sent(Repeated(bufs, k)) == Sent(bufs) { SameIfSteady(bufs, k); }
    }
    if AllTheSame(bufs) {
      forall j: nat ensures Behind(bufs[1..], j) == Behind(bufs[1..], 0) { SteadyIfSame(bufs, j); }
      assert Sent(Repeated(bufs, 1)) == Sent(bufs);
    }
  }

  /** One octet sent of the buffer, and every octet from it on the same. */
  ghost predicate Constant(b: Buffer) {
    b.wptr <= b.rptr + 1 && forall i :: i >= b.rptr ==> At(b, i) == At(b, b.rptr)
  }

  lemma {:induction false} DrawnSingly(tail: seq<Buffer>)
    requires AllSound(tail)
    ensures |DrawnAll(tail)| >= |tail|
    ensures |DrawnAll(tail)| == |tail| <==> forall i :: 0 <= i < |tail| ==> tail[i].wptr <= tail[i].rptr + 1
    ensures |DrawnAll(tail)| == |tail| ==>
              forall i :: 0 <= i < |tail| ==> DrawnAll(tail)[i] == At(tail[i], tail[i].rptr)
    decreases |tail|
  {
    if |tail| > 0 {
      var b, rest := tail[0], tail[1..];
      assert Sound(b);
      DrawnSingly(rest);
      assert forall i :: 1 <= i < |tail| ==> tail[i] == rest[i - 1];
      assert |Drawn(b)| >= 1 && (|Drawn(b)| == 1 <==> b.wptr <= b.rptr + 1);
      if |DrawnAll(tail)| == |tail| { assert Drawn(b) == [At(b, b.rptr)]; }
    }
  }

  lemma BehindAt(tail: seq<Buffer>, i: nat, j: nat)
    requires i < |tail| && tail[i].wptr <= tail[i].rptr + 1
    ensures Behind(tail, j)[i] == At(tail[i], tail[i].rptr + j + 1)
  {
  }

  lemma {:induction false} ConstantExactly(tail: seq<Buffer>)
    requires AllSound(tail)
    ensures DrawnAll(tail) == Behind(tail, 0) && Steady(tail) <==> forall i :: 0 <= i < |tail| ==> Constant(tail[i])
  {
    DrawnSingly(tail);
    hide DrawnAll, At;
    if DrawnAll(tail) == Behind(tail, 0) && Steady(tail) {
      forall i | 0 <= i < |tail| ensures Constant(tail[i]) {
        var b := tail[i];
        forall p | p >= b.rptr ensures At(b, p) == At(b, b.rptr) {
          if p > b.rptr {
            BehindAt(tail, i, p - b.rptr - 1);
            BehindAt(tail, i, 0);
            assert Behind(tail, p - b.rptr - 1) == Behind(tail, 0);
          }
        }
      }
    }
    if forall i :: 0 <= i < |tail| ==> Constant(tail[i]) {
      forall j: nat ensures Behind(tail, j) == DrawnAll(tail) {
        forall i | 0 <= i < |tail| ensures Behind(tail, j)[i] == DrawnAll(tail)[i] {
          assert Constant(tail[i]);
          BehindAt(tail, i, j);
        }
      }
    }
  }

  /** Of a message that begins at the base of its first buffer, every repeat sends the same if and only if each
      continuation buffer sends one octet and every octet behind that is equal to it. */
  lemma {:induction false} RepeatsFromBase(bufs: seq<Buffer>)
    requires AllSound(bufs) && |bufs| > 0 && bufs[0].rptr == 0
    ensures AllTheSame(bufs) <==> forall i :: 1 <= i < |bufs| ==> Constant(bufs[i])
  {
    var b, tail := bufs[0], bufs[1..];
    RepeatsExactly(bufs);
    ConstantExactly(tail);
    assert Sound(b);
    assert b.mem[b.wptr..b.wptr] + Behind(tail, 0) == Behind(tail, 0);
    hide DrawnAll, Behind, Constant, Steady, AllTheSame;
    assert Shifted(bufs) <==> DrawnAll(tail) == Behind(tail, 0);
    assert forall i :: 0 <= i < |tail| ==> tail[i] == bufs[i + 1];
    assert forall i :: 1 <= i < |bufs| ==> bufs[i] == tail[i - 1];
  }

  /** Of a message in one buffer, the first repeat and every repeat send the same if and only if it begins at
      the base of the buffer. */
  lemma {:induction false} OneBufferExactly(b: Buffer)
    requires b.rptr <= b.wptr <= |b.mem|
    ensures Sent(Repeated([b], 1)) == Sent([b]) <==> b.rptr == 0
    ensures AllTheSame([b]) <==> b.rptr == 0
  {
    var bufs := [b];
    assert bufs[1..] == [];
    assert DrawnAll([]) == [] && forall j: nat :: Behind([], j) == [];
    FirstRepeatExactly(bufs);
    RepeatsExactly(bufs);
    assert |b.mem[b.wptr - b.rptr..b.wptr]| == b.rptr;
  }

  /** The engine's repeat of a message in one buffer is what the pointers make of it, every time. */
  lemma {:induction false} EngineRepeats(m: Transmitting.Message, beyond: nat -> octet, k: nat)
    requires |m.blocks| == 1
    ensures var bufs := [Buffer(m.head + m.blocks[0], |m.head|, |m.head| + |m.blocks[0]|, beyond)];
            Sent(bufs) == Transmitting.Payload(m) && Sent(Repeated(bufs, k + 1)) == Transmitting.Rerun(m)
  {
    var d := m.blocks[0];
    var b := Buffer(m.head + d, |m.head|, |m.head| + |d|, beyond);
    var bufs := [b];
    assert bufs[1..] == [] && DrawnAll([]) == [] && Behind([], k) == [];
    RepeatSends(bufs, k);
    assert b.mem[..b.wptr] == m.head + d;
    assert Transmitting.Flatten(m.blocks[1..]) == [];
    assert Transmitting.Payload(m) == d;
    assert Held(b) == d;
  }

  // ---- inputs that show it ----

  /** A message of one octet behind its base: the repeat sends what lay ahead of it too. */
  lemma {:induction false} RepeatSendsHead(x: octet, y: octet)
    ensures var bufs := [Buffer([x, y], 1, 2, _ => 0)];
            Sent(bufs) == [y] && Sent(Repeated(bufs, 1)) == [x, y]
  {
    var bufs := [Buffer([x, y], 1, 2, _ => 0)];
    RepeatSends(bufs, 0);
    assert bufs[1..] == [] && DrawnAll([]) == [] && Behind([], 0) == [];
  }

  /** A repeat of a message in two buffers: one octet of the second, from behind what it held. */
  lemma {:induction false} RepeatTruncates(a: octet, b: octet, c: octet, d: octet)
    ensures var bufs := [Buffer([a], 0, 1, _ => 0), Buffer([b, c, d], 0, 2, _ => 0)];
            Sent(bufs) == [a, b, c] && Sent(Repeated(bufs, 1)) == [a, d]
  {
    var y := Buffer([b, c, d], 0, 2, _ => 0);
    var bufs := [Buffer([a], 0, 1, _ => 0), y];
    RepeatSends(bufs, 0);
    assert bufs[1..] == [y] && [y][1..] == [];
    assert DrawnAll([y]) == Held(y) + DrawnAll([]) == [b, c];
    assert Behind([y], 0) == [d];
  }

  /** The first repeat is lucky and the second is not. */
  lemma {:induction false} SecondRepeatDiffers(a: octet, b: octet, c: octet)
    ensures var bufs := [Buffer([a], 0, 1, _ => 0), Buffer([b, b, c], 0, 1, _ => 0)];
            Sent(bufs) == Sent(Repeated(bufs, 1)) == [a, b] && Sent(Repeated(bufs, 2)) == [a, c]
  {
    var y := Buffer([b, b, c], 0, 1, _ => 0);
    var bufs := [Buffer([a], 0, 1, _ => 0), y];
    RepeatSends(bufs, 0);
    RepeatSends(bufs, 1);
    assert bufs[1..] == [y] && [y][1..] == [];
    assert DrawnAll([y]) == Held(y) + DrawnAll([]) == [b];
    assert Behind([y], 0) == [b] && Behind([y], 1) == [c];
  }
}
