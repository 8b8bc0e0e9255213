/** The intrusive channel lists of a multiplex: each link's `prev` names the pointer that points to it, so
    a link can be taken out without knowing the list, and a link in no list points to itself. */
module ChannelLists {
  import opened Bits
  import opened Sequences

  /** What a `prev` pointer points to: the head of the list, or the `next` field of a link. */
  datatype Place = Head | NextOf(link: Link)

  class Link {
    var next: Link?
    var prev: Place
    const kind: nat
    const id: nat
    const masks: seq<nat>

    constructor (kind: nat, id: nat, masks: seq<nat>)
      ensures this.kind == kind && this.id == id && this.masks == masks && Free()
    {
      this.kind, this.id, this.masks := kind, id, masks;
      next, prev := null, Head;
      new;
      prev := NextOf(this);
    }

    /** In no list. */
    ghost predicate Free()
      reads this
    {
      next == null && prev == NextOf(this)
    }
  }

  // ---- masks ----

  lemma {:induction false} OrBits(x: nat, y: nat, b: nat)
    ensures HasBit(Or(x, y), b) <==> HasBit(x, b) || HasBit(y, b)
    decreases b
  {
    ShrOfZero(b);
    if x != 0 && y != 0 {
      assert Or(x, y) % 2 == Bit(x % 2 == 1 || y % 2 == 1) && Or(x, y) / 2 == Or(x / 2, y / 2);
      if b > 0 { OrBits(x / 2, y / 2, b - 1); }
    }
  }

  lemma {:induction false} ShrOfZero(b: nat)
    ensures Shr(0, b) == 0
  {
    if b > 0 { ShrOfZero(b - 1); }
  }

  ghost predicate MasksFit(links: seq<Link>, spans: nat) {
    forall l :: l in links ==> |l.masks| >= spans
  }

  /** The members' masks for one span, or-ed together in order. */
  function OrAll(links: seq<Link>, span: nat): nat
    requires forall i :: 0 <= i < |links| ==> span < |links[i].masks|
    decreases |links|
  {
    if |links| == 0 then 0
    else Or(OrAll(links[..|links| - 1], span), links[|links| - 1].masks[span])
  }

  /** A channel is in the mask of a span exactly when some member has it. */
  lemma {:induction false} OrAllBits(links: seq<Link>, span: nat, b: nat)
    requires forall i :: 0 <= i < |links| ==> span < |links[i].masks|
    ensures HasBit(OrAll(links, span), b) <==>
            exists i :: 0 <= i < |links| && HasBit(links[i].masks[span], b)
    decreases |links|
  {
    if |links| == 0 {
      ShrOfZero(b);
    } else {
      var front, last := links[..|links| - 1], links[|links| - 1];
      OrAllBits(front, span, b);
      OrBits(OrAll(front, span), last.masks[span], b);
      if HasBit(OrAll(front, span), b) {
        var i :| 0 <= i < |front| && HasBit(front[i].masks[span], b);
        assert HasBit(links[i].masks[span], b);
      }
      if HasBit(last.masks[span], b) { assert HasBit(links[|links| - 1].masks[span], b); }
      if i :| 0 <= i < |links| && HasBit(links[i].masks[span], b) {
        if i < |front| { assert HasBit(front[i].masks[span], b); }
      }
    }
  }

  function OrSeq(masks: seq<nat>): nat
    decreases |masks|
  {
    if |masks| == 0 then 0 else Or(OrSeq(masks[..|masks| - 1]), masks[|masks| - 1])
  }

  /** Some member has the channel in the span. */
  ghost predicate SomeHas(links: seq<Link>, span: nat, b: nat) {
    exists i :: 0 <= i < |links| && span < |links[i].masks| && HasBit(links[i].masks[span], b)
  }

  /** A channel is in the whole mask exactly when it is in the mask of some span. */
  lemma {:induction false} OrSeqBits(masks: seq<nat>, b: nat)
    ensures HasBit(OrSeq(masks), b) <==> exists span :: 0 <= span < |masks| && HasBit(masks[span], b)
    decreases |masks|
  {
    if |masks| == 0 {
      ShrOfZero(b);
    } else {
      hide HasBit, Or;
      var front, last := masks[..|masks| - 1], masks[|masks| - 1];
      OrSeqBits(front, b);
      OrBits(OrSeq(front), last, b);
      assert forall i :: 0 <= i < |front| ==> front[i] == masks[i];
    }
  }

  /** The derived masks of a list. */
  ghost predicate Derived(masks: seq<nat>, links: seq<Link>, spans: nat) {
    && MasksFit(links, spans) && |masks| == spans
    && forall span :: 0 <= span < spans ==> masks[span] == OrAll(links, span)
  }

  // ---- one list of a multiplex, with its masks ----

  /** Every member of a list has the list's kind, so no link is in two lists. */
  ghost predicate AllOfKind(links: seq<Link>, kind: nat) {
    forall i :: 0 <= i < |links| ==> links[i].kind == kind
  }

  /** The list without one link, the others in their order. */
  ghost function Minus(links: seq<Link>, l: Link): seq<Link> {
    if |links| == 0 then []
    else (if links[0] == l then [] else [links[0]]) + Minus(links[1..], l)
  }

  lemma {:induction false} MinusMembers(links: seq<Link>, l: Link)
    ensures forall x :: x in Minus(links, l) <==> x in links && x != l
  {
    if |links| > 0 { MinusMembers(links[1..], l); }
  }

  lemma {:induction false} MinusAbsent(links: seq<Link>, l: Link)
    requires l !in links
    ensures Minus(links, l) == links
  {
    if |links| > 0 { MinusAbsent(links[1..], l); }
  }

  lemma {:induction false} MinusIs(links: seq<Link>, i: nat)
    requires NoTwice(links) && i < |links|
    ensures Minus(links, links[i]) == links[..i] + links[i + 1..]
  {
    if i == 0 {
      assert links[0] !in links[1..];
      MinusAbsent(links[1..], links[0]);
    } else {
      MinusIs(links[1..], i - 1);
      assert links[1..][..i - 1] == links[1..i];
    }
  }

  class List {
    const kind: nat
    const spans: nat
    var head: Link?
    var masks: seq<nat>
    var mask: nat

    /** The links in order, from the head. */
    ghost var links: seq<Link>

    ghost predicate Chained()
      reads `head, `links, links
    {
      && NoTwice(links)
      && head == (if |links| == 0 then null else links[0])
      && (|links| > 0 ==> links[0].prev == Head && links[|links| - 1].next == null)
      && (forall i, j :: 0 <= i < |links| && j == i + 1 < |links| ==>
            links[i].next == links[j] && links[j].prev == NextOf(links[i]))
    }

    ghost predicate Valid()
      reads this, links
    {
      && Chained() && AllOfKind(links, kind) && MasksFit(links, spans)
      && Derived(masks, links, spans) && mask == OrSeq(masks)
    }

    constructor (kind: nat, spans: nat)
      ensures Valid() && links == [] && this.kind == kind && this.spans == spans
    {
      this.kind, this.spans := kind, spans;
      head, masks, mask := null, [], 0;
      links := [];
      new;
      Recompute();
    }

    /** What the masks of a list say: a channel is in the mask of a span when some member has it there, and in
        the whole mask when some member has it in some span. */
    lemma {:induction false} MasksTell(b: nat)
      requires Valid()
      ensures |masks| == spans
      ensures forall span :: 0 <= span < spans ==> (HasBit(masks[span], b) <==> SomeHas(links, span, b))
      ensures HasBit(mask, b) <==> exists span :: 0 <= span < spans && SomeHas(links, span, b)
    {
      forall span | 0 <= span < spans
        ensures HasBit(masks[span], b) <==> SomeHas(links, span, b)
      {
        hide HasBit, OrAll, OrSeq, Chained;
        OrAllBits(links, span, b);
      }
      hide HasBit, OrAll, OrSeq, Chained, SomeHas;
      OrSeqBits(masks, b);
      assert forall span :: 0 <= span < spans ==> (HasBit(masks[span], b) <==> SomeHas(links, span, b));
    }

    lemma Follow(i: nat)
      requires Chained() && i < |links|
      ensures links[i].next == if i + 1 < |links| then links[i + 1] else null
    {
      if i + 1 < |links| { assert links[i].next == links[i + 1]; }
    }

    /** Put a link at the head. */
    method Push(l: Link)
      requires Chained() && l !in links
      modifies `head, `links, links, l
      ensures Chained() && links == [l] + old(links)
    {
      l.next := head;
      if l.next != null {
        l.next.prev := NextOf(l);
      }
      l.prev := Head;
      head := l;
      links := [l] + links;
      assert forall i :: 1 <= i < |links| ==> links[i] == old(links)[i - 1];
    }

    /** Take a link out; a link that points to itself stays as it is, and so does the list. */
    method Unlink(l: Link, ghost i: nat)
      requires Chained()
      requires if l in links then i < |links| && links[i] == l else l.Free()
      modifies `head, `links, links, l
      ensures Chained() && l.Free()
      ensures links == if l in old(links) then old(links[..i] + links[i + 1..]) else old(links)
    {
      ghost var was, found := links, l in links;
      if found {
        assert i > 0 ==> l.prev == NextOf(was[i - 1]) && was[i - 1].next == l;
        assert i + 1 < |was| ==> l.next == was[i + 1] && was[i + 1].prev == NextOf(l);
      }
      match l.prev {
        case Head => head := l.next;
        case NextOf(p) => p.next := l.next;
      }
      if l.next != null {
        l.next.prev := l.prev;
      }
      l.next := null;
      l.prev := NextOf(l);
      if found {
        links := was[..i] + was[i + 1..];
        assert forall j :: 0 <= j < |links| ==> links[j] == was[if j < i then j else j + 1];
      }
    }

    /** Recompute the masks by walking the list once for each span. */
    method Recompute()
      requires Chained() && MasksFit(links, spans)
      modifies `masks, `mask
      ensures Derived(masks, links, spans) && mask == OrSeq(masks)
    {
      masks, mask := [], 0;
      var span := 0;
      while span < spans
        invariant 0 <= span <= spans && |masks| == span && mask == OrSeq(masks)
        invariant forall k :: 0 <= k < span ==> masks[k] == OrAll(links, k)
      {
        var m := SpanMask(span);
        assert (masks + [m])[..span] == masks;
        masks := masks + [m];
        mask := Or(mask, m);
        span := span + 1;
      }
    }

    method SpanMask(span: nat) returns (m: nat)
      requires Chained() && MasksFit(links, spans) && span < spans
      ensures m == OrAll(links, span)
    {
      m := 0;
      var ch := head;
      ghost var i := 0;
      while ch != null
        invariant 0 <= i <= |links| && ch == if i < |links| then links[i] else null
        invariant m == OrAll(links[..i], span)
        decreases |links| - i
      {
        assert links[..i + 1][..i] == links[..i];
        m := Or(m, ch.masks[span]);
        Follow(i);
        ch := ch.next;
        i := i + 1;
      }
      assert links[..i] == links;
    }

    method Add(l: Link)
      requires Valid() && l !in links && l.kind == kind && |l.masks| >= spans
      modifies this, links, l
      ensures Valid() && links == [l] + old(links)
    {
      hide OrAll, OrSeq;
      Push(l);
      Recompute();
    }

    /** Take a link out if it is in; the other members keep their order. */
    method Remove(l: Link)
      requires Valid() && (l in links || l.Free())
      modifies this, links, l
      ensures Valid() && l.Free() && links == Minus(old(links), l)
    {
      hide OrAll, OrSeq, Minus, NoTwice, Derived;
      ghost var i: nat, was := 0, links;
      if l in links {
        i :| 0 <= i < |links| && links[i] == l;
        MinusIs(was, i);
      } else {
        MinusAbsent(was, l);
      }
      Unlink(l, i);
      MinusMembers(was, l);
      Recompute();
    }
  }

  // ---- channels and the multiplex ----

  datatype State = Detached | Attached | Enabled | Connected | Changing

  function Rank(s: State): nat {
    match s case Attached => 1 case Enabled => 2 case Connected => 3 case _ => 0
  }

  /** A channel: its state and its link in each of the three lists. */
  class Channel {
    var state: State
    const a: Link
    const e: Link
    const c: Link

    constructor (id: nat, masks: seq<nat>)
      ensures state == Detached && Own(id) && a.masks == e.masks == c.masks == masks
      ensures fresh(a) && fresh(e) && fresh(c) && a.Free() && e.Free() && c.Free()
    {
      a := new Link(0, id, masks);
      e := new Link(1, id, masks);
      c := new Link(2, id, masks);
      state := Detached;
    }

    ghost predicate Own(id: nat) {
      && a.kind == 0 && e.kind == 1 && c.kind == 2
      && a.id == e.id == c.id == id && a.masks == e.masks == c.masks
    }
  }

  class Mux {
    const spans: nat
    const a: List
    const e: List
    const c: List

    /** The channels of this multiplex. */
    ghost var chans: set<Channel>

    ghost predicate Lists()
      reads a, e, c, a.links, e.links, c.links
    {
      && a.Valid() && e.Valid() && c.Valid()
      && a.kind == 0 && e.kind == 1 && c.kind == 2
      && a.spans == e.spans == c.spans == spans
    }

    /** Channels are told apart by their links. */
    ghost predicate Identities()
      reads `chans
    {
      && (forall ch :: ch in chans ==> ch.Own(ch.a.id) && |ch.a.masks| >= spans)
      && (forall x, y :: x in chans && y in chans && x.a.id == y.a.id ==> x == y)
    }

    /** A link outside its list points to itself. */
    ghost predicate FreeOutside()
      reads `chans, a`links, e`links, c`links,
            set ch | ch in chans :: ch.a, set ch | ch in chans :: ch.e, set ch | ch in chans :: ch.c
    {
      forall ch :: ch in chans ==>
        (ch.a in a.links || ch.a.Free()) && (ch.e in e.links || ch.e.Free()) && (ch.c in c.links || ch.c.Free())
    }

    /** How far up the channel is linked: nowhere, attached, enabled or connected. */
    ghost function Level(ch: Channel): nat
      reads a`links, e`links, c`links
    {
      if ch.c in c.links then 3 else if ch.e in e.links then 2 else if ch.a in a.links then 1 else 0
    }

    /** Connected channels are enabled, enabled channels attached; and a settled state says exactly which
        lists the channel is in. */
    ghost predicate Nested(ch: Channel)
      reads a`links, e`links, c`links, ch`state
    {
      && (ch.c in c.links ==> ch.e in e.links)
      && (ch.e in e.links ==> ch.a in a.links)
      && (ch.state != Changing ==> Level(ch) == Rank(ch.state))
    }

    ghost predicate OthersNested(ch: Channel)
      reads `chans, a`links, e`links, c`links, chans
    {
      forall x :: x in chans && x != ch ==> Nested(x)
    }

    ghost predicate AllNested()
      reads `chans, a`links, e`links, c`links, chans
    {
      forall ch :: ch in chans ==> Nested(ch)
    }

    /** Everything but the nesting. */
    ghost predicate Linked()
      reads `chans, a, e, c, a.links, e.links, c.links,
            set ch | ch in chans :: ch.a, set ch | ch in chans :: ch.e, set ch | ch in chans :: ch.c
    {
      Lists() && Identities() && FreeOutside()
    }

    ghost predicate Valid()
      reads `chans, a, e, c, a.links, e.links, c.links, chans,
            set ch | ch in chans :: ch.a, set ch | ch in chans :: ch.e, set ch | ch in chans :: ch.c
    {
      Linked() && AllNested()
    }

    constructor (spans: nat)
      ensures Valid() && chans == {} && this.spans == spans
      ensures fresh(a) && fresh(e) && fresh(c)
    {
      this.spans := spans;
      a := new List(0, spans);
      e := new List(1, spans);
      c := new List(2, spans);
      chans := {};
    }

    /** A new channel, in no list. */
    method Open(id: nat, masks: seq<nat>) returns (ch: Channel)
      requires Valid() && |masks| >= spans && (forall x :: x in chans ==> x.a.id != id)
      modifies `chans
      ensures Valid() && fresh(ch) && chans == old(chans) + {ch} && Level(ch) == 0
      ensures ch.state == Detached && ch.a.id == id && ch.a.masks == masks
    {
      hide List.Chained, Derived, NoTwice, MasksFit;
      ch := new Channel(id, masks);
      chans := chans + {ch};
    }

    method Attach(ch: Channel)
      requires Valid() && ch in chans && Level(ch) == 0
      modifies a, a.links, ch`state, ch.a
      ensures Valid() && ch.state == Attached
      ensures a.links == [ch.a] + old(a.links) && e.links == old(e.links) && c.links == old(c.links)
    {
      hide List.Chained, Derived, NoTwice, MasksFit;
      ch.state := Attached;
      a.Add(ch.a);
    }

    method Enable(ch: Channel)
      requires Valid() && ch in chans && Level(ch) == 1
      modifies e, e.links, ch`state, ch.e
      ensures Valid() && ch.state == Enabled
      ensures a.links == old(a.links) && e.links == [ch.e] + old(e.links) && c.links == old(c.links)
    {
      hide List.Chained, Derived, NoTwice, MasksFit;
      ch.state := Enabled;
      e.Add(ch.e);
    }

    method Connect(ch: Channel)
      requires Valid() && ch in chans && Level(ch) == 2
      modifies c, c.links, ch`state, ch.c
      ensures Valid() && ch.state == Connected
      ensures a.links == old(a.links) && e.links == old(e.links) && c.links == [ch.c] + old(c.links)
    {
      hide List.Chained, Derived, NoTwice, MasksFit;
      ch.state := Connected;
      c.Add(ch.c);
    }

    /** Out of the connected list, if the channel is in it; likewise below. */
    method Disconnect(ch: Channel)
      requires Linked() && ch in chans
      modifies c, c.links, ch`state, ch.c
      ensures Linked() && ch.state == Enabled
      ensures a.links == old(a.links) && e.links == old(e.links) && c.links == Minus(old(c.links), ch.c)
      ensures old(OthersNested(ch)) ==> OthersNested(ch)
      ensures old(AllNested() && Level(ch) == 3) ==> AllNested()
    {
      hide List.Chained, Derived, NoTwice, MasksFit, Minus;
      MinusMembers(c.links, ch.c);
      ch.state := Enabled;
      c.Remove(ch.c);
    }

    method Disable(ch: Channel)
      requires Linked() && ch in chans
      modifies e, e.links, ch`state, ch.e
      ensures Linked() && ch.state == Attached
      ensures a.links == old(a.links) && e.links == Minus(old(e.links), ch.e) && c.links == old(c.links)
      ensures old(OthersNested(ch)) ==> OthersNested(ch)
      ensures old(AllNested() && Level(ch) == 2) ==> AllNested()
    {
      hide List.Chained, Derived, NoTwice, MasksFit, Minus;
      MinusMembers(e.links, ch.e);
      e.Remove(ch.e);
      ch.state := Attached;
    }

    method Detach(ch: Channel)
      requires Linked() && ch in chans
      modifies a, a.links, ch`state, ch.a
      ensures Linked() && ch.state == Detached
      ensures a.links == Minus(old(a.links), ch.a) && e.links == old(e.links) && c.links == old(c.links)
      ensures old(OthersNested(ch)) ==> OthersNested(ch)
      ensures old(AllNested() && Level(ch) == 1) ==> AllNested()
    {
      hide List.Chained, Derived, NoTwice, MasksFit, Minus;
      MinusMembers(a.links, ch.a);
      ch.state := Detached;
      a.Remove(ch.a);
    }

    /** Waiting for an answer to a request: the lists do not move. */
    method Await(ch: Channel)
      requires Valid() && ch in chans
      modifies ch`state
      ensures Valid() && ch.state == Changing
      ensures a.links == old(a.links) && e.links == old(e.links) && c.links == old(c.links)
    {
      ch.state := Changing;
    }

    /** Forced teardown: from whatever state, the channel leaves every list it is in, and nothing else
        moves. */
    method Terminate(ch: Channel)
      requires Valid() && ch in chans
      modifies a, e, c, a.links, e.links, c.links, ch`state, ch.a, ch.e, ch.c
      ensures Valid() && ch.state == Detached
      ensures a.links == Minus(old(a.links), ch.a)
      ensures e.links == Minus(old(e.links), ch.e)
      ensures c.links == Minus(old(c.links), ch.c)
    {
      hide Linked, OthersNested, AllNested, Minus;
      AllIfOthers(ch);
      MinusMembers(a.links, ch.a);
      MinusMembers(e.links, ch.e);
      MinusMembers(c.links, ch.c);
      if ch.c !in c.links { MinusAbsent(c.links, ch.c); }
      if ch.e !in e.links { MinusAbsent(e.links, ch.e); }
      if ch.a !in a.links { MinusAbsent(a.links, ch.a); }
      var state := ch.state;
      if state == Changing || state == Connected { Disconnect(ch); }
      if state == Changing || state == Connected || state == Enabled { Disable(ch); }
      if state != Detached { Detach(ch); }
      AllIfOthers(ch);
    }

    lemma AllIfOthers(ch: Channel)
      requires ch in chans
      ensures AllNested() <==> OthersNested(ch) && Nested(ch)
    {}
  }
}
