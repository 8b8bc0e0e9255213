/** The intrusive message queue: messages linked both ways through themselves, each a chain of blocks, with
    cached counts of messages and octets. */
module BufQ {
  import opened Sequences

  function Sum(lens: seq<nat>): nat {
    if |lens| == 0 then 0 else lens[0] + Sum(lens[1..])
  }

  lemma SumFirst(lens: seq<nat>)
    requires |lens| > 0
    ensures Sum(lens) == lens[0] + Sum(lens[1..]) && (|lens| == 1 ==> Sum(lens) == lens[0])
  {}

  /** What supplying blocks of these lengths over-counts: each block is counted once for every block before
      it, and only then emptied. */
  function Excess(lens: seq<nat>): nat {
    if |lens| == 0 then 0 else Sum(lens[1..]) + Excess(lens[1..])
  }

  lemma ExcessStep(lens: seq<nat>, k: nat)
    requires k < |lens|
    ensures Excess(lens[k..]) == Sum(lens[k + 1..]) + Excess(lens[k + 1..])
  {
    assert lens[k..][1..] == lens[k + 1..];
  }

  lemma Slices(c: seq<Block>, lens: seq<nat>, k: nat)
    requires k < |c| == |lens|
    ensures c[k..][1..] == c[k + 1..] && lens[k..][1..] == lens[k + 1..] && c[k..][0] == c[k]
    ensures c[..k + 1] == c[..k] + [c[k]]
  {
  }

  lemma NoExcess()
    ensures Excess([]) == 0
  {
  }

  function Weighted(lens: seq<nat>, from: nat): nat {
    if |lens| == 0 then 0 else from * lens[0] + Weighted(lens[1..], from + 1)
  }

  lemma {:induction false} WeightedShift(lens: seq<nat>, from: nat)
    ensures Weighted(lens, from + 1) == Weighted(lens, from) + Sum(lens)
  {
    if |lens| > 0 { WeightedShift(lens[1..], from + 1); }
  }

  /** The over-count in closed form: the block in position k counts k times. */
  lemma {:induction false} ExcessIsWeighted(lens: seq<nat>)
    ensures Excess(lens) == Weighted(lens, 0)
  {
    if |lens| > 0 {
      ExcessIsWeighted(lens[1..]);
      WeightedShift(lens[1..], 0);
    }
  }

  lemma {:induction false} SumIsZero(lens: seq<nat>)
    ensures Sum(lens) == 0 <==> forall k :: 0 <= k < |lens| ==> lens[k] == 0
  {
    if |lens| > 0 {
      SumIsZero(lens[1..]);
      if Sum(lens) == 0 {
        forall k | 0 <= k < |lens| ensures lens[k] == 0 {
          if k > 0 { assert lens[k] == lens[1..][k - 1]; }
        }
      } else if lens[0] == 0 {
        var k :| 0 <= k < |lens[1..]| && lens[1..][k] != 0;
        assert lens[k + 1] != 0;
      }
    }
  }

  /** Supplying counts right exactly when every block after the first was empty already. */
  lemma {:induction false} ExcessIsZero(lens: seq<nat>)
    ensures Excess(lens) == 0 <==> forall k :: 1 <= k < |lens| ==> lens[k] == 0
  {
    if |lens| > 0 {
      ExcessIsZero(lens[1..]);
      SumIsZero(lens[1..]);
      var rest := lens[1..];
      assert forall k :: 0 <= k < |rest| ==> rest[k] == lens[k + 1];
      if Sum(rest) == 0 {
        assert forall k :: 1 <= k < |lens| ==> lens[k] == rest[k - 1];
      }
    }
  }

  // ---- blocks and messages ----

  class Block {
    var next: Block?
    var prev: Block?
    var cont: Block?
    var rptr: int
    var wptr: int
    const start: int

    /** The blocks of the message that begins here, and their octets. */
    ghost var chain: seq<Block>
    ghost var size: nat

    function Len(): (n: nat)
      reads `rptr, `wptr
      ensures rptr <= wptr ==> rptr + n == wptr
      ensures wptr <= rptr ==> n == 0
    {
      if wptr > rptr then wptr - rptr else 0
    }

    /** A whole message: the continuation pointers follow the chain to its end. */
    ghost predicate Whole()
      reads `chain, `size, chain`cont, chain`rptr, chain`wptr
    {
      && |chain| > 0 && chain[0] == this && Conts(chain)
      && size == Sum(Lens(chain))
    }

    /** Reset the block to hold nothing; the blocks behind it still count. */
    method Empty()
      requires Whole() && NoTwice(chain)
      modifies `rptr, `wptr, `size
      ensures Whole() && rptr == wptr == start
      ensures Lens(chain)[1..] == old(Lens(chain))[1..] && size == Sum(Lens(chain)[1..])
    {
      hide Sum, Lens;
      ghost var was := Lens(chain);
      wptr := start;
      rptr := start;
      size := Sum(was[1..]);
      SumFirst(Lens(chain));
      assert Lens(chain)[1..] == was[1..];
    }

    /** Unlink the blocks behind this one, which become a message by themselves. */
    method Cut() returns (rest: Block?)
      requires Whole() && NoTwice(chain)
      modifies `cont, chain`chain, chain`size
      ensures Whole() && chain == [this] && cont == null && size == Len() <= old(size)
      ensures rest == null <==> |old(chain)| == 1
      ensures rest != null ==> rest.Whole() && rest.chain == old(chain)[1..]
    {
      hide Sum, Lens;
      ghost var c := chain;
      assert |c| > 1 ==> c[0].cont == c[1];
      SumFirst(Lens(c));
      rest := cont;
      cont := null;
      chain := [this];
      size := Len();
      SumFirst(Lens(chain));
      if rest != null {
        rest.chain := c[1..];
        rest.size := Sum(Lens(c[1..]));
        assert Conts(c[1..]);
      }
    }
  }

  ghost predicate Conts(c: seq<Block>)
    reads c`cont
  {
    && (|c| > 0 ==> c[|c| - 1].cont == null)
    && forall i, j :: 0 <= i < |c| && j == i + 1 < |c| ==> c[i].cont == c[j]
  }

  ghost function Lens(c: seq<Block>): (lens: seq<nat>)
    reads c`rptr, c`wptr
    ensures |lens| == |c| && forall i :: 0 <= i < |c| ==> lens[i] == c[i].Len()
  {
    if |c| == 0 then [] else [c[0].Len()] + Lens(c[1..])
  }

  /** The octets held by a sequence of messages. */
  ghost function Total(msgs: seq<Block>): nat
    reads msgs`size
  {
    if |msgs| == 0 then 0 else Total(msgs[..|msgs| - 1]) + msgs[|msgs| - 1].size
  }

  lemma {:induction false} TotalSplit(l: seq<Block>, r: seq<Block>)
    ensures Total(l + r) == Total(l) + Total(r)
  {
    if |r| == 0 {
      assert l + r == l;
    } else {
      TotalSplit(l, r[..|r| - 1]);
      assert (l + r)[..|l + r| - 1] == l + r[..|r| - 1];
    }
  }

  ghost predicate AllWhole(msgs: seq<Block>)
    reads msgs`chain, msgs`size
    reads (set m, i | m in msgs && 0 <= i < |m.chain| :: m.chain[i])`cont
    reads (set m, i | m in msgs && 0 <= i < |m.chain| :: m.chain[i])`rptr
    reads (set m, i | m in msgs && 0 <= i < |m.chain| :: m.chain[i])`wptr
  {
    forall m :: m in msgs ==> m.Whole()
  }

  /** One message more. */
  lemma With(l: seq<Block>, m: Block, r: seq<Block>)
    ensures Total(l + [m] + r) == Total(l + r) + m.size
    ensures AllWhole(l + [m] + r) <==> AllWhole(l + r) && m.Whole()
  {
    hide Block.Whole;
    TotalSplit(l + [m], r);
    TotalSplit(l, r);
    TotalSplit(l, [m]);
    assert [m][..0] == [] && Total([m]) == m.size;
    assert m in l + [m] + r;
    assert forall x :: x in l + r ==> x in l + [m] + r;
  }

  lemma WithFirst(msgs: seq<Block>)
    requires |msgs| > 0
    ensures Total(msgs) == Total(msgs[1..]) + msgs[0].size
    ensures AllWhole(msgs) <==> AllWhole(msgs[1..]) && msgs[0].Whole()
  {
    hide Total, AllWhole, Block.Whole;
    With([], msgs[0], msgs[1..]);
    assert [] + [msgs[0]] + msgs[1..] == msgs && [] + msgs[1..] == msgs[1..];
  }

  // ---- the queue ----

  /** An `int` converted to the unsigned type of the counts. */
  function Word(x: int): nat { x % 0x1_0000_0000_0000_0000 }

  /** A limit that is not negative is itself; a negative one is no limit to any count that memory can hold. */
  lemma {:induction false} LimitIs(count: nat, limit: int)
    requires -0x8000_0000 <= limit < 0x8000_0000 && count < 0x8000_0000_0000_0000
    ensures count > Word(limit) <==> 0 <= limit < count
    ensures Word(-1) == 0xffff_ffff_ffff_ffff
  {
  }

  function Less(x: nat, y: nat): nat { if x >= y then x - y else 0 }

  class Queue {
    var head: Block?
    var tail: Block?
    var length: int
    var count: nat

    /** The messages in order; and how far the octet count is above the octets held. */
    ghost var msgs: seq<Block>
    ghost var slack: nat

    ghost predicate Chained()
      reads `head, `tail, `msgs, msgs`next, msgs`prev
    {
      && NoTwice(msgs)
      && head == (if |msgs| == 0 then null else msgs[0])
      && tail == (if |msgs| == 0 then null else msgs[|msgs| - 1])
      && (|msgs| > 0 ==> msgs[0].prev == null && msgs[|msgs| - 1].next == null)
      && forall i, j :: 0 <= i < |msgs| && j == i + 1 < |msgs| ==>
           msgs[i].next == msgs[j] && msgs[j].prev == msgs[i]
    }

    ghost predicate Counted()
      reads `length, `count, `msgs, `slack, msgs`size
    {
      length == |msgs| && count == Total(msgs) + slack && (|msgs| == 0 ==> slack == 0)
    }

    ghost predicate Valid()
      reads this, msgs
      reads (set m, i | m in msgs && 0 <= i < |m.chain| :: m.chain[i])`cont
      reads (set m, i | m in msgs && 0 <= i < |m.chain| :: m.chain[i])`rptr
      reads (set m, i | m in msgs && 0 <= i < |m.chain| :: m.chain[i])`wptr
    {
      Chained() && Counted() && AllWhole(msgs)
    }

    constructor ()
      ensures Valid() && msgs == []
    {
      head, tail, length, count := null, null, 0, 0;
      msgs, slack := [], 0;
    }

    /** Count a message in, block by block. */
    method Add(mp: Block)
      requires mp.Whole()
      modifies `length, `count
      ensures length == old(length) + 1 && count == old(count) + mp.size
    {
      var md: Block? := mp;
      length := length + 1;
      ghost var i, lens := 0, Lens(mp.chain);
      assert lens[0..] == lens;
      while md != null
        invariant 0 <= i <= |lens| && md == if i < |lens| then mp.chain[i] else null
        invariant length == old(length) + 1
        invariant count + Sum(lens[i..]) == old(count) + mp.size
        decreases |lens| - i
      {
        assert lens[i..][1..] == lens[i + 1..];
        if md.wptr > md.rptr {
          count := count + (md.wptr - md.rptr);
        }
        assert i + 1 < |lens| ==> mp.chain[i].cont == mp.chain[i + 1];
        md := md.cont;
        i := i + 1;
      }
    }

    /** Count a message out; the subtraction stops at nought, and an empty queue counts nothing. */
    method Sub(mp: Block)
      requires mp.Whole()
      modifies `length, `count
      ensures length == old(length) - 1
      ensures count == if length == 0 || old(count) < mp.size then 0 else old(count) - mp.size
    {
      var md: Block? := mp;
      ghost var i, lens := 0, Lens(mp.chain);
      assert lens[0..] == lens;
      while md != null
        invariant 0 <= i <= |lens| && md == if i < |lens| then mp.chain[i] else null
        invariant length == old(length)
        invariant Less(count, Sum(lens[i..])) == Less(old(count), mp.size)
        decreases |lens| - i
      {
        assert lens[i..][1..] == lens[i + 1..];
        if md.wptr > md.rptr {
          if count >= md.wptr - md.rptr {
            count := count - (md.wptr - md.rptr);
          } else {
            count := 0;
          }
        }
        assert i + 1 < |lens| ==> mp.chain[i].cont == mp.chain[i + 1];
        md := md.cont;
        i := i + 1;
      }
      length := length - 1;
      if length == 0 {
        count := 0;
      }
    }

    /** Count out a message just unlinked; an emptied queue has nothing over-counted. */
    method CountOut(mp: Block)
      requires Chained() && AllWhole(msgs) && mp.Whole()
      requires length == |msgs| + 1 && count == Total(msgs) + mp.size + slack
      modifies `length, `count, `slack
      ensures Valid() && slack == if |msgs| == 0 then 0 else old(slack)
    {
      hide Chained, AllWhole;
      Sub(mp);
      if |msgs| == 0 { slack := 0; }
    }

    // ---- the links ----

    method LinkLast(mp: Block)
      requires Chained() && mp !in msgs
      modifies `head, `tail, `msgs, msgs`next, mp`next, mp`prev
      ensures Chained() && msgs == old(msgs) + [mp]
    {
      mp.prev := tail;
      if mp.prev != null {
        mp.prev.next := mp;
      } else {
        head := mp;
      }
      mp.next := null;
      tail := mp;
      msgs := msgs + [mp];
    }

    method LinkFirst(mp: Block)
      requires Chained() && mp !in msgs
      modifies `head, `tail, `msgs, msgs`prev, mp`next, mp`prev
      ensures Chained() && msgs == [mp] + old(msgs)
    {
      mp.next := head;
      if mp.next != null {
        mp.next.prev := mp;
      } else {
        tail := mp;
      }
      mp.prev := null;
      head := mp;
      msgs := [mp] + msgs;
      assert forall i :: 1 <= i < |msgs| ==> msgs[i] == old(msgs)[i - 1];
    }

    /** The links with `np` put in at `k`. */
    lemma Inserted(was: seq<Block>, k: nat, np: Block)
      requires NoTwice(was) && np !in was && k <= |was| && msgs == was[..k] + [np] + was[k..]
      requires if k == 0 then np.prev == null && head == np
               else was[k - 1].next == np && np.prev == was[k - 1] && head == was[0] && was[0].prev == null
      requires if k == |was| then np.next == null && tail == np
               else was[k].prev == np && np.next == was[k] && tail == was[|was| - 1] && was[|was| - 1].next == null
      requires forall i, j :: 0 <= i < |was| && j == i + 1 < |was| && j != k ==>
                 was[i].next == was[j] && was[j].prev == was[i]
      ensures Chained()
    {
      NoTwiceInsert(was, k, np);
      hide NoTwice;
      assert forall j :: 0 <= j < k ==> msgs[j] == was[j];
      assert forall j :: k < j < |msgs| ==> msgs[j] == was[j - 1];
      forall i, j | 0 <= i < |msgs| && j == i + 1 < |msgs|
        ensures msgs[i].next == msgs[j] && msgs[j].prev == msgs[i]
      {
        if j < k { assert was[i].next == was[j]; }
        else if i > k { assert was[i - 1].next == was[j - 1]; }
      }
    }

    /** Put `np` before `mp`. */
    method LinkBefore(mp: Block, np: Block, ghost i: nat)
      requires Chained() && np !in msgs && i < |msgs| && msgs[i] == mp
      modifies `head, `msgs, msgs`next, msgs`prev, np`next, np`prev
      ensures Chained() && msgs == old(msgs[..i] + [np] + msgs[i..])
    {
      assert i > 0 ==> msgs[i - 1].next == mp && mp.prev == msgs[i - 1];
      np.prev := mp.prev;
      if np.prev != null {
        np.prev.next := np;
      } else {
        head := np;
      }
      mp.prev := np;
      np.next := mp;
      ghost var was := msgs;
      msgs := was[..i] + [np] + was[i..];
      Inserted(was, i, np);
    }

    /** Put `np` after `mp`. */
    method LinkAfter(mp: Block, np: Block, ghost i: nat)
      requires Chained() && np !in msgs && i < |msgs| && msgs[i] == mp
      modifies `tail, `msgs, msgs`next, msgs`prev, np`next, np`prev
      ensures Chained() && msgs == old(msgs[..i + 1] + [np] + msgs[i + 1..])
    {
      assert i + 1 < |msgs| ==> msgs[i + 1].prev == mp && mp.next == msgs[i + 1];
      np.next := mp.next;
      if np.next != null {
        np.next.prev := np;
      } else {
        tail := np;
      }
      mp.next := np;
      np.prev := mp;
      ghost var was := msgs;
      msgs := was[..i + 1] + [np] + was[i + 1..];
      Inserted(was, i + 1, np);
    }

    /** Take the first message off. */
    method UnlinkFirst(mp: Block)
      requires Chained() && |msgs| > 0 && msgs[0] == mp
      modifies `head, `tail, `msgs, msgs`next, msgs`prev
      ensures Chained() && msgs == old(msgs[1..]) && mp.next == null && mp.prev == null && mp !in msgs
    {
      assert |msgs| > 1 ==> mp.next == msgs[1] && msgs[1].prev == mp;
      head := mp.next;
      if head != null {
        mp.next.prev := null;
      } else {
        tail := null;
      }
      mp.next := null;
      mp.prev := null;
      msgs := msgs[1..];
      assert forall i :: 0 <= i < |msgs| ==> msgs[i] == old(msgs)[i + 1];
    }

    method UnlinkLast(mp: Block)
      requires Chained() && |msgs| > 0 && msgs[|msgs| - 1] == mp
      modifies `head, `tail, `msgs, msgs`next, msgs`prev
      ensures Chained() && msgs == old(msgs[..|msgs| - 1]) && mp.next == null && mp.prev == null && mp !in msgs
    {
      ghost var n := |msgs| - 1;
      assert n > 0 ==> mp.prev == msgs[n - 1] && msgs[n - 1].next == mp;
      tail := mp.prev;
      if tail != null {
        mp.prev.next := null;
      } else {
        head := null;
      }
      mp.next := null;
      mp.prev := null;
      msgs := msgs[..n];
    }

    /** The links with the message at `k` taken out. */
    lemma Removed(was: seq<Block>, k: nat)
      requires NoTwice(was) && k < |was| && msgs == was[..k] + was[k + 1..]
      requires if k == 0 then head == if |was| > 1 then was[1] else null
               else head == was[0] && was[0].prev == null
      requires if k + 1 == |was| then tail == if k > 0 then was[k - 1] else null
               else tail == was[|was| - 1] && was[|was| - 1].next == null
      requires k > 0 ==> was[k - 1].next == if k + 1 < |was| then was[k + 1] else null
      requires k + 1 < |was| ==> was[k + 1].prev == if k > 0 then was[k - 1] else null
      requires forall i, j :: 0 <= i < |was| && j == i + 1 < |was| && i != k && j != k ==>
                 was[i].next == was[j] && was[j].prev == was[i]
      ensures Chained()
    {
      NoTwiceWithout(was, k);
      hide NoTwice;
      assert forall j :: 0 <= j < k ==> msgs[j] == was[j];
      assert forall j :: k <= j < |msgs| ==> msgs[j] == was[j + 1];
      forall i, j | 0 <= i < |msgs| && j == i + 1 < |msgs|
        ensures msgs[i].next == msgs[j] && msgs[j].prev == msgs[i]
      {
        if j < k { assert was[i].next == was[j]; }
        else if i >= k { assert was[i + 1].next == was[j + 1]; }
      }
    }

    method UnlinkAt(mp: Block, ghost i: nat)
      requires Chained() && i < |msgs| && msgs[i] == mp
      modifies `head, `tail, `msgs, msgs`next, msgs`prev
      ensures Chained() && msgs == old(msgs[..i] + msgs[i + 1..])
      ensures mp.next == null && mp.prev == null && mp !in msgs
    {
      assert i > 0 ==> msgs[i - 1].next == mp && mp.prev == msgs[i - 1];
      assert i + 1 < |msgs| ==> msgs[i + 1].prev == mp && mp.next == msgs[i + 1];
      if mp.next != null {
        mp.next.prev := mp.prev;
      } else {
        tail := mp.prev;
      }
      if mp.prev != null {
        mp.prev.next := mp.next;
      } else {
        head := mp.next;
      }
      mp.next := null;
      mp.prev := null;
      ghost var was := msgs;
      msgs := was[..i] + was[i + 1..];
      Removed(was, i);
      NotLeft(was, i);
    }

    // ---- the operations ----

    method Put(mp: Block)
      requires Valid() && mp.Whole() && mp !in msgs
      modifies `head, `tail, `length, `count, `msgs, msgs`next, mp`next, mp`prev
      ensures Valid() && msgs == old(msgs) + [mp] && slack == old(slack) && count == old(count) + mp.size
    {
      hide Chained, Block.Whole, Total, AllWhole, Conts, Sum, Lens, NoTwice;
      With(msgs, mp, []);
      assert msgs + [mp] + [] == msgs + [mp] && msgs + [] == msgs;
      LinkLast(mp);
      Add(mp);
    }

    method PutHead(mp: Block)
      requires Valid() && mp.Whole() && mp !in msgs
      modifies `head, `tail, `length, `count, `msgs, msgs`prev, mp`next, mp`prev
      ensures Valid() && msgs == [mp] + old(msgs) && slack == old(slack)
    {
      hide Chained, Block.Whole, Total, AllWhole, Conts, Sum, Lens, NoTwice;
      With([], mp, msgs);
      assert [] + [mp] + msgs == [mp] + msgs && [] + msgs == msgs;
      LinkFirst(mp);
      Add(mp);
    }

    method Insert(mp: Block, np: Block, ghost i: nat)
      requires Valid() && np.Whole() && np !in msgs && i < |msgs| && msgs[i] == mp
      modifies `head, `length, `count, `msgs, msgs`next, msgs`prev, np`next, np`prev
      ensures Valid() && msgs == old(msgs[..i] + [np] + msgs[i..]) && slack == old(slack)
    {
      hide Chained, Block.Whole, Total, AllWhole, Conts, Sum, Lens, NoTwice;
      With(msgs[..i], np, msgs[i..]);
      assert msgs[..i] + msgs[i..] == msgs;
      ghost var all := msgs[..i] + [np] + msgs[i..];
      LinkBefore(mp, np, i);
      assert msgs == all && AllWhole(all);
      Add(np);
    }

    method Append(mp: Block, np: Block, ghost i: nat)
      requires Valid() && np.Whole() && np !in msgs && i < |msgs| && msgs[i] == mp
      modifies `tail, `length, `count, `msgs, msgs`next, msgs`prev, np`next, np`prev
      ensures Valid() && msgs == old(msgs[..i + 1] + [np] + msgs[i + 1..]) && slack == old(slack)
    {
      hide Chained, Block.Whole, Total, AllWhole, Conts, Sum, Lens, NoTwice;
      With(msgs[..i + 1], np, msgs[i + 1..]);
      assert msgs[..i + 1] + msgs[i + 1..] == msgs;
      ghost var all := msgs[..i + 1] + [np] + msgs[i + 1..];
      LinkAfter(mp, np, i);
      assert msgs == all && AllWhole(all);
      Add(np);
    }

    /** A message leaves; the over-count stays until the queue is empty. */
    method Dequeue() returns (mp: Block?)
      requires Valid()
      modifies `head, `tail, `length, `count, `msgs, `slack, msgs`next, msgs`prev
      ensures Valid() && slack == if |msgs| == 0 then 0 else old(slack)
      ensures if |old(msgs)| == 0 then mp == null && msgs == []
              else mp == old(msgs)[0] && msgs == old(msgs)[1..]
      ensures mp != null ==> mp.next == null && mp.prev == null && mp !in msgs && mp.Whole()
    {
      hide Chained, Block.Whole, Block.Len, Total, AllWhole, Conts, Sum, Lens, NoTwice, Less, Word;
      HeadAndTail();
      mp := head;
      if mp != null {
        WithFirst(msgs);
        UnlinkFirst(mp);
        CountOut(mp);
      }
    }

    method DequeueTail() returns (mp: Block?)
      requires Valid()
      modifies `head, `tail, `length, `count, `msgs, `slack, msgs`next, msgs`prev
      ensures Valid() && slack == if |msgs| == 0 then 0 else old(slack)
      ensures var n := |old(msgs)|;
              if n == 0 then mp == null && msgs == []
              else mp == old(msgs)[n - 1] && msgs == old(msgs)[..n - 1]
      ensures mp != null ==> mp.next == null && mp.prev == null && mp !in msgs && mp.Whole()
    {
      hide Chained, Block.Whole, Total, AllWhole, Conts, Sum, Lens, NoTwice;
      HeadAndTail();
      mp := tail;
      if mp != null {
        ghost var front := msgs[..|msgs| - 1];
        With(front, mp, []);
        assert front + [mp] + [] == msgs && front + [] == front;
        UnlinkLast(mp);
        CountOut(mp);
      }
    }

    method Unlink(mp: Block, ghost i: nat)
      requires Valid() && i < |msgs| && msgs[i] == mp
      modifies `head, `tail, `length, `count, `msgs, `slack, msgs`next, msgs`prev
      ensures Valid() && slack == if |msgs| == 0 then 0 else old(slack)
      ensures msgs == old(msgs[..i] + msgs[i + 1..])
      ensures mp.next == null && mp.prev == null && mp !in msgs
    {
      hide Chained, Block.Whole, Total, AllWhole, Conts, Sum, Lens, NoTwice;
      With(msgs[..i], mp, msgs[i + 1..]);
      assert msgs[..i] + [mp] + msgs[i + 1..] == msgs;
      UnlinkAt(mp, i);
      CountOut(mp);
    }

    lemma HeadAndTail()
      requires Chained()
      ensures head == (if |msgs| == 0 then null else msgs[0])
      ensures tail == (if |msgs| == 0 then null else msgs[|msgs| - 1])
    {}

    /** Empty the queue, giving the messages up in order. */
    method Purge() returns (freed: seq<Block>)
      requires Valid()
      modifies `head, `tail, `length, `count, `msgs, `slack, msgs`next, msgs`prev
      ensures Valid() && msgs == [] && freed == old(msgs)
    {
      hide Chained, Counted, AllWhole;
      freed := [];
      assert msgs == old(msgs)[0..];
      HeadIsNull();
      while head != null
        invariant Valid() && |freed| <= |old(msgs)| && freed == old(msgs)[..|freed|]
        invariant msgs == old(msgs)[|freed|..] && (head == null <==> |msgs| == 0)
        decreases |msgs|
      {
        var mp := Dequeue();
        freed := freed + [mp];
        HeadIsNull();
      }
    }

    lemma HeadIsNull()
      requires Chained()
      ensures head == null <==> |msgs| == 0
    {}

    /** The last message of another queue goes before this queue's. */
    method MoveLast(that: Queue) returns (mp: Block?)
      requires Valid() && that.Valid() && that != this && Apart(msgs, that.msgs)
      modifies this, that, msgs`next, msgs`prev, that.msgs`next, that.msgs`prev
      ensures Valid() && that.Valid() && slack == old(slack)
      ensures if mp == null then that.msgs == [] else |that.msgs| == |old(that.msgs)| - 1
      ensures that.msgs + msgs == old(that.msgs + msgs) && Apart(msgs, that.msgs)
    {
      hide Chained, Counted, AllWhole, Block.Whole;
      mp := that.DequeueTail();
      if mp != null {
        PutHead(mp);
      }
    }

    /** Move every message of another queue before this queue's, in their order. */
    method SpliceHead(that: Queue)
      requires Valid() && that.Valid() && that != this && Apart(msgs, that.msgs)
      modifies this, that, msgs`next, msgs`prev, that.msgs`next, that.msgs`prev
      ensures Valid() && that.Valid() && that.msgs == []
      ensures msgs == old(that.msgs) + old(msgs) && slack == old(slack)
    {
      hide Valid;
      ghost var theirs, mine := that.msgs, msgs;
      var mp := MoveLast(that);
      while mp != null
        invariant Valid() && that.Valid() && Apart(msgs, that.msgs) && slack == old(slack)
        invariant that.msgs + msgs == theirs + mine && (mp == null ==> that.msgs == [])
        decreases |that.msgs|, mp != null
      {
        Within(that.msgs, msgs, theirs, mine);
        mp := MoveLast(that);
      }
    }
 
    /** The first message of another queue goes after this queue's. */
    method MoveFirst(that: Queue) returns (mp: Block?)
      requires Valid() && that.Valid() && that != this && Apart(msgs, that.msgs)
      modifies this, that, msgs`next, msgs`prev, that.msgs`next, that.msgs`prev
      ensures Valid() && that.Valid() && slack == old(slack)
      ensures if mp == null then that.msgs == [] else |that.msgs| == |old(that.msgs)| - 1
      ensures msgs + that.msgs == old(msgs + that.msgs) && Apart(msgs, that.msgs)
    {
      hide Chained, Counted, AllWhole, Block.Whole;
      mp := that.Dequeue();
      if mp != null {
        Put(mp);
      }
    }

    /** Move every message of another queue after this queue's, in their order. */
    method SpliceTail(that: Queue)
      requires Valid() && that.Valid() && that != this && Apart(msgs, that.msgs)
      modifies this, that, msgs`next, msgs`prev, that.msgs`next, that.msgs`prev
      ensures Valid() && that.Valid() && that.msgs == []
      ensures msgs == old(msgs) + old(that.msgs) && slack == old(slack)
    {
      hide Valid;
      ghost var mine, theirs := msgs, that.msgs;
      var mp := MoveFirst(that);
      while mp != null
        invariant Valid() && that.Valid() && Apart(msgs, that.msgs) && slack == old(slack)
        invariant msgs + that.msgs == mine + theirs && (mp == null ==> that.msgs == [])
        decreases |that.msgs|, mp != null
      {
        Within(msgs, that.msgs, mine, theirs);
        mp := MoveFirst(that);
      }
    }

    // ---- supplying blocks ----

    /** The last message of the queue loses the blocks behind its first; they stay counted. */
    method CutLast(md: Block, ghost front: seq<Block>) returns (rest: Block?)
      requires Valid() && msgs == front + [md]
      requires NoTwice(md.chain) && Apart(front, md.chain) && Clear(front, md.chain)
      modifies `slack, md`cont, md.chain`chain, md.chain`size
      ensures Valid() && slack + md.size == old(slack + md.size)
      ensures md.chain == [md] && md.cont == null && md.size == md.Len()
      ensures rest == null <==> |old(md.chain)| == 1
      ensures rest != null ==> rest.Whole() && rest.chain == old(md.chain)[1..]
    {
      hide Total, Block.Whole, AllWhole, Conts;
      With(front, md, []);
      assert front + [md] + [] == msgs && front + [] == front;
      ghost var all := md.size;
      rest := md.Cut();
      slack := slack + (all - md.size);
      With(front, md, []);
    }

    /** Queue a message with its first block emptied; the blocks behind still count. */
    method PutEmptied(md: Block)
      requires Valid() && md.Whole() && NoTwice(md.chain) && Apart(msgs, md.chain) && Clear(msgs, md.chain)
      modifies this, msgs`next, md`next, md`prev, md`rptr, md`wptr, md`size
      ensures Valid() && msgs == old(msgs) + [md] && md.Whole()
      ensures md.rptr == md.wptr == md.start && md.size == Sum(old(Lens(md.chain))[1..])
      ensures Lens(md.chain)[1..] == old(Lens(md.chain))[1..]
      ensures slack == old(slack) && count == old(count) + md.size
    {
      hide Chained, Total, Block.Whole, AllWhole, Sum, Conts, Lens;
      FirstBlock(md);
      md.Empty();
      Put(md);
    }

    /** Queue the first block of a message, emptied, as a message of its own. It is counted together with the
        blocks behind it, which are unlinked from it only afterwards. */
    method SupplyFirst(md: Block) returns (rest: Block?)
      requires Valid() && md.Whole() && NoTwice(md.chain) && Apart(msgs, md.chain) && Clear(msgs, md.chain)
      modifies this, msgs`next, md.chain
      ensures Valid() && msgs == old(msgs) + [md] && Emptied(md)
      ensures slack == old(slack) + Sum(old(Lens(md.chain))[1..])
      ensures count == old(count) + Sum(old(Lens(md.chain))[1..])
      ensures rest == null <==> |old(md.chain)| == 1
      ensures rest != null ==> rest.Whole() && rest.chain == old(md.chain)[1..]
      ensures rest != null ==> rest == old(md.chain)[1] && Lens(rest.chain) == old(Lens(md.chain))[1..]
      ensures rest != null ==> Apart(msgs, rest.chain) && Clear(msgs, rest.chain)
    {
      hide Valid, Block.Whole, Sum, Clear, Lens, Conts, NoTwice;
      FirstBlock(md);
      ghost var was, c := msgs, md.chain;
      PutEmptied(md);
      rest := CutLast(md, was);
      ClearWith(was, md, c);
      ApartWith(was, md, c);
      LensRest(c);
      if rest != null { FirstBlock(rest); }
    }

    /** Break a message up and queue each of its blocks, emptied, in order. */
    method Supply(mp: Block)
      requires Valid() && mp.Whole() && Apart(msgs, mp.chain) && Clear(msgs, mp.chain)
      modifies this, msgs`next, mp.chain
      ensures Valid() && msgs == old(msgs) + old(mp.chain)
      ensures slack == old(slack) + Excess(old(Lens(mp.chain)))
      ensures count == old(count) + Excess(old(Lens(mp.chain)))
      ensures forall j :: 0 <= j < |old(mp.chain)| ==> Emptied(old(mp.chain)[j])
    {
      NoExcess();
      hide Valid, Sum, Block.Whole, Clear, Lens, Conts, Total, Apart, AllWhole, NoTwice, Excess, Emptied;
      ghost var was, c, lens, k := msgs, mp.chain, Lens(mp.chain), 0;
      var md: Block? := mp;
      FirstBlock(mp);
      NoBlockTwice(mp);
      while md != null
        invariant 0 <= k <= |c| && Valid() && msgs == was + c[..k]
        invariant md == if k < |c| then c[k] else null
        invariant md != null ==> md.Whole() && md.chain == c[k..] && Lens(md.chain) == lens[k..]
        invariant md != null ==> Apart(msgs, md.chain) && Clear(msgs, md.chain)
        invariant slack + Excess(lens[k..]) == old(slack) + Excess(lens)
        invariant count + Excess(lens[k..]) == old(count) + Excess(lens)
        invariant forall j :: 0 <= j < k ==> Emptied(c[j])
        decreases |c| - k
      {
        EarlierApart(c, k);
        ExcessStep(lens, k);
        Slices(c, lens, k);
        md := SupplyFirst(md);
        k := k + 1;
      }
    }

    /** Supply a message unless the queue is over either limit; the limits are compared as unsigned words.
        The message comes back exactly when it is refused. */
    method Resupply(mp: Block, maxsize: int, maxcount: int) returns (back: Block?)
      requires Valid() && mp.Whole() && Apart(msgs, mp.chain) && Clear(msgs, mp.chain)
      modifies this, msgs`next, mp.chain
      ensures Valid() && back == if old(length) > Word(maxcount) || old(count) > Word(maxsize) then mp else null
      ensures old(length) < 0x8000_0000_0000_0000 && old(count) < 0x8000_0000_0000_0000
              && -0x8000_0000 <= maxcount < 0x8000_0000 && -0x8000_0000 <= maxsize < 0x8000_0000 ==>
                (back == mp <==> 0 <= maxcount < old(length) || 0 <= maxsize < old(count))
      ensures back != null ==> msgs == old(msgs) && count == old(count) && mp.chain == old(mp.chain) && mp.Whole()
      ensures back == null ==> msgs == old(msgs) + old(mp.chain)
      ensures back == null ==> count == old(count) + Excess(old(Lens(mp.chain)))
    {
      hide Valid, Sum, Block.Whole, Clear, Lens, Excess;
      Length();
      if -0x8000_0000 <= maxcount < 0x8000_0000 && length < 0x8000_0000_0000_0000 { LimitIs(length, maxcount); }
      if -0x8000_0000 <= maxsize < 0x8000_0000 && count < 0x8000_0000_0000_0000 { LimitIs(count, maxsize); }
      if length > Word(maxcount) || count > Word(maxsize) {
        return mp;
      }
      Supply(mp);
      return null;
    }

    /** The cached counts: messages exactly, octets never too few. */
    lemma Length()
      requires Valid()
      ensures length == |msgs| && count >= Total(msgs) && (slack == 0 ==> count == Total(msgs))
    {}
  }

  lemma ApartWith(msgs: seq<Block>, md: Block, c: seq<Block>)
    requires Apart(msgs, c) && |c| > 0 && c[0] == md && NoTwice(c)
    ensures Apart(msgs + [md], c[1..])
  {
  }

  lemma LensRest(c: seq<Block>)
    requires |c| > 0
    ensures Lens(c[1..]) == Lens(c)[1..]
  {
  }

  lemma ClearWith(msgs: seq<Block>, md: Block, c: seq<Block>)
    requires Clear(msgs, c) && |c| > 0 && c[0] == md && NoTwice(c) && md.chain == [md]
    ensures Clear(msgs + [md], c[1..])
  {
    assert forall i, j :: 0 <= i < |msgs| && 0 <= j < |msgs[i].chain| ==> msgs[i].chain[j] !in c;
  }

  /** A chain that ends has no block twice. */
  lemma {:induction false} Distinct(c: seq<Block>, i: nat, j: nat)
    requires Conts(c) && i < j < |c|
    ensures c[i] != c[j]
    decreases |c| - j
  {
    assert c[i].cont == c[i + 1];
    if j + 1 < |c| {
      assert c[j].cont == c[j + 1];
      Distinct(c, i + 1, j + 1);
    }
  }

  lemma EarlierApart(c: seq<Block>, k: nat)
    requires NoTwice(c) && k <= |c|
    ensures NoTwice(c[k..]) && forall j :: 0 <= j < k ==> c[j] !in c[k..]
  {
  }

  lemma NoBlockTwice(mp: Block)
    requires mp.Whole()
    ensures NoTwice(mp.chain)
  {
    forall i, j | 0 <= i < j < |mp.chain| ensures mp.chain[i] != mp.chain[j] { Distinct(mp.chain, i, j); }
  }

  lemma FirstBlock(mp: Block)
    requires mp.Whole()
    ensures |mp.chain| > 0 && mp.chain[0] == mp
  {}

  /** None of the messages has a block in the chain. */
  ghost predicate Clear(msgs: seq<Block>, c: seq<Block>)
    reads msgs`chain
  {
    forall m, i :: m in msgs && 0 <= i < |m.chain| ==> m.chain[i] !in c
  }

  /** A message of one block with nothing in it. */
  ghost predicate Emptied(m: Block)
    reads m`chain, m`cont, m`rptr, m`wptr
  {
    m.chain == [m] && m.cont == null && m.rptr == m.wptr == m.start
  }

  ghost predicate Apart(x: seq<Block>, y: seq<Block>) {
    forall i, j :: 0 <= i < |x| && 0 <= j < |y| ==> x[i] != y[j]
  }

  lemma Within(x: seq<Block>, y: seq<Block>, l: seq<Block>, r: seq<Block>)
    requires x + y == l + r
    ensures forall i :: 0 <= i < |x| ==> x[i] in l || x[i] in r
    ensures forall i :: 0 <= i < |y| ==> y[i] in l || y[i] in r
  {
    forall i | 0 <= i < |x| ensures x[i] in l || x[i] in r { assert x[i] == (l + r)[i]; }
    forall i | 0 <= i < |y| ensures y[i] in l || y[i] in r { assert y[i] == (l + r)[|x| + i]; }
  }
}
