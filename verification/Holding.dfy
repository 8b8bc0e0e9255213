/** Repeat compression: the frame held for comparison, what goes up, and who owns each buffer. */
module Holding {
  import opened Bits
  import opened Sequences
  import opened Options
  import opened Receiving

  // ---- what goes up ----

  /** What goes up: a frame with its repeat count, or an error with what had been collected. */
  datatype Indication = DataInd(count: nat, data: seq<octet>) | ErrorInd(cause: Cause, data: seq<octet>)

  function Copies(n: nat, data: seq<octet>): (s: seq<Event>)
    ensures |s| == n && forall i :: 0 <= i < n ==> s[i] == Good(data)
  {
    seq(n, _ => Good(data))
  }

  /** The indications read back as frames and errors one by one. */
  function Expand(up: seq<Indication>): seq<Event>
    decreases |up|
  {
    if |up| == 0 then []
    else
      var last := up[|up| - 1];
      Expand(up[..|up| - 1]) +
        (match last case DataInd(n, data) => Copies(n, data) case ErrorInd(cause, data) => [Bad(cause, data)])
  }

  lemma ExpandData(up: seq<Indication>, n: nat, data: seq<octet>)
    ensures Expand(up + [DataInd(n, data)]) == Expand(up) + Copies(n, data)
  {
    assert (up + [DataInd(n, data)])[..|up|] == up;
  }

  lemma ExpandError(up: seq<Indication>, cause: Cause, data: seq<octet>)
    ensures Expand(up + [ErrorInd(cause, data)]) == Expand(up) + [Bad(cause, data)]
  {
    assert (up + [ErrorInd(cause, data)])[..|up|] == up;
  }

  lemma CopiesSnoc(n: nat, data: seq<octet>)
    ensures Copies(n, data) + [Good(data)] == Copies(n + 1, data)
    ensures Copies(1, data) == [Good(data)]
  {
  }

  // ---- the frame held ----

  datatype Buffer = Buffer(id: nat, data: seq<octet>)

  /** `held` the frame kept for comparison and `repeat` how often it has come again since it was last sent
      up; `up` what went up; `made` how many buffers there have been, `given` those sent up or freed. */
  datatype Store = Store(held: Option<Buffer>, repeat: nat, up: seq<Indication>, made: nat, given: seq<nat>)

  const EMPTY := Store(None, 0, [], 0, [])

  /** Only the first block of a frame is duplicated for comparison. */
  function FirstBlock(data: seq<octet>): seq<octet> { if |data| <= FASTBUF then data else data[..FASTBUF] }

  /** Send the held frame up with its count, and keep the pointer to it; with nothing counted, free it. */
  function Deliver(st: Store): Store
    requires st.held.Some?
  {
    var b := st.held.value;
    if st.repeat > 0 then
      st.(up := st.up + [DataInd(st.repeat, b.data)], given := st.given + [b.id], repeat := 0)
    else st.(held := None, given := st.given + [b.id])
  }

  function Flush(st: Store): Store { if st.held.Some? then Deliver(st) else st }

  predicate Counts(c: Config, st: Store, data: seq<octet>) {
    st.held.Some? && st.held.value.data == data && st.repeat <= 50 && |data| == c.hlen
  }

  predicate Keeps(c: Config, data: seq<octet>) { c.compression && c.hlen <= |data| <= c.hlen + 2 }

  /** A good frame: counted and freed, or sent up after what was counted. */
  function Accept(c: Config, st: Store, data: seq<octet>): Store {
    if Counts(c, st, data) then st.(repeat := st.repeat + 1, made := st.made + 1, given := st.given + [st.made])
    else
      var s := Flush(st);
      var t := if Keeps(c, data) then
                 s.(held := Some(Buffer(st.made + 1, FirstBlock(data))), repeat := 0, made := st.made + 2)
               else s.(made := st.made + 1);
      t.(up := t.up + [DataInd(1, data)], given := t.given + [st.made])
  }

  /** A bad frame: what was counted goes up, then the error.  The indication returns nought for success, so
      the buffer that went up with it, if there was one, is freed as well. */
  function Fail(st: Store, cause: Cause, data: seq<octet>): Store {
    var s := Flush(st);
    var t := s.(up := s.up + [ErrorInd(cause, data)]);
    if data == [] then t else t.(made := st.made + 1, given := t.given + [st.made, st.made])
  }

  function Handle(c: Config, st: Store, e: Event): Store {
    match e case Good(data) => Accept(c, st, data) case Bad(cause, data) => Fail(st, cause, data)
  }

  /** The store after these frames and errors. */
  function StoreAfter(c: Config, events: seq<Event>): Store
    decreases |events|
  {
    if |events| == 0 then EMPTY else Handle(c, StoreAfter(c, events[..|events| - 1]), events[|events| - 1])
  }

  // ---- nothing is lost ----

  function HeldCopies(st: Store): seq<Event> {
    if st.held.Some? then Copies(st.repeat, st.held.value.data) else []
  }

  ghost predicate Sized(c: Config, st: Store) {
    && (st.held.Some? ==> c.hlen <= |st.held.value.data| <= c.hlen + 2)
    && st.repeat <= 51 && (st.held.None? ==> st.repeat == 0)
  }

  lemma FlushLossless(st: Store)
    requires st.held.None? ==> st.repeat == 0
    ensures Expand(Flush(st).up) == Expand(st.up) + HeldCopies(st) && Flush(st).repeat == 0
  {
    if st.held.Some? && st.repeat > 0 {
      ExpandData(st.up, st.repeat, st.held.value.data);
    } else {
      assert Expand(st.up) + [] == Expand(st.up);
    }
  }

  /** Compression is lossless and ordered: what went up, expanded by the counts, and then the copies held
      are the frames accepted and the errors, in order. */
  lemma {:induction false} Lossless(c: Config, events: seq<Event>)
    requires ConfigOk(c)
    ensures var st := StoreAfter(c, events); Expand(st.up) + HeldCopies(st) == events && Sized(c, st)
    decreases |events|
  {
    hide *;
    if |events| == 0 {
      LosslessStart(c);
      assert events == [];
    } else {
      var front, e := events[..|events| - 1], events[|events| - 1];
      StoreLast(c, events);
      Lossless(c, front);
      HandleLossless(c, StoreAfter(c, front), e);
      assert events == front + [e];
    }
  }

  lemma LosslessStart(c: Config)
    ensures var st := StoreAfter(c, []); Expand(st.up) + HeldCopies(st) == [] && Sized(c, st)
  {
  }

  lemma StoreLast(c: Config, events: seq<Event>)
    requires |events| > 0
    ensures StoreAfter(c, events) == Handle(c, StoreAfter(c, events[..|events| - 1]), events[|events| - 1])
  {
  }

  lemma HandleLossless(c: Config, st: Store, e: Event)
    requires ConfigOk(c) && Sized(c, st)
    ensures var st' := Handle(c, st, e);
            Expand(st'.up) + HeldCopies(st') == Expand(st.up) + HeldCopies(st) + [e] && Sized(c, st')
  {
    hide Expand;
    var st' := Handle(c, st, e);
    FlushLossless(st);
    match e {
      case Good(data) =>
        CopiesSnoc(st.repeat, data);
        ExpandData(Flush(st).up, 1, data);
        assert Expand(st'.up) + [] == Expand(st'.up);
        assert Expand(st.up) + Copies(st.repeat, data) + [e] == Expand(st.up) + (Copies(st.repeat, data) + [e]);
      case Bad(cause, data) =>
        ExpandError(Flush(st).up, cause, data);
        assert Expand(st'.up) + [] == Expand(st'.up);
    }
  }

  // ---- what compression makes of a line ----

  /** One copy more of the frame held. */
  lemma AnotherCopy(c: Config, st: Store, a: seq<octet>)
    requires ConfigOk(c) && c.compression && |a| == c.hlen && st.held.Some? && st.held.value.data == a
    ensures var st' := Accept(c, st, a);
            && st'.held.Some? && st'.held.value.data == a
            && if st.repeat <= 50 then st'.repeat == st.repeat + 1 && st'.up == st.up
               else st'.repeat == 0 && st'.up == st.up + [DataInd(st.repeat, a), DataInd(1, a)]
  {
    var up, x, y := st.up, DataInd(st.repeat, a), DataInd(1, a);
    assert up + [x] + [y] == up + [x, y];
  }

  ghost predicate Alternate(up: seq<Indication>, a: seq<octet>) {
    forall i :: 0 <= i < |up| ==> up[i] == DataInd(if i % 2 == 0 then 1 else 51, a)
  }

  lemma AlternateMore(up: seq<Indication>, a: seq<octet>)
    requires Alternate(up, a) && |up| % 2 == 1
    ensures Alternate(up + [DataInd(51, a), DataInd(1, a)], a)
  {
  }

  lemma FirstCopy(c: Config, a: seq<octet>)
    requires ConfigOk(c) && c.compression && |a| == c.hlen
    ensures StoreAfter(c, Copies(1, a)) == Store(Some(Buffer(1, a)), 0, [DataInd(1, a)], 2, [0])
  {
    CopiesSnoc(0, a);
    HeldSteps(c, a);
    assert StoreAfter(c, []) == EMPTY;
    hide *;
    StoreSnoc(c, [], Good(a));
    assert [] + [Good(a)] == [Good(a)];
  }

  lemma CopyMore(c: Config, a: seq<octet>, n: nat)
    ensures StoreAfter(c, Copies(n + 1, a)) == Accept(c, StoreAfter(c, Copies(n, a)), a)
  {
    CopiesSnoc(n, a);
    StoreSnoc(c, Copies(n, a), Good(a));
    hide StoreAfter, Accept;
  }

  /** The store after `n` copies more than one. */
  ghost predicate Counted(st: Store, a: seq<octet>, n: nat) {
    && st.held.Some? && st.held.value.data == a && st.repeat == n % 52
    && |st.up| == 1 + 2 * (n / 52) && Alternate(st.up, a)
  }

  lemma CountedMore(c: Config, st: Store, a: seq<octet>, n: nat)
    requires ConfigOk(c) && c.compression && |a| == c.hlen && Counted(st, a, n)
    ensures Counted(Accept(c, st, a), a, n + 1)
  {
    hide Accept, Alternate;
    AnotherCopy(c, st, a);
    if st.repeat > 50 { AlternateMore(st.up, a); }
  }

  /** The same frame again and again: it goes up once, then every fifty-two times the count of fifty-one that
      came between and the frame itself; the rest is held. */
  lemma {:induction false} RunOfCopies(c: Config, a: seq<octet>, n: nat)
    requires ConfigOk(c) && c.compression && |a| == c.hlen
    ensures Counted(StoreAfter(c, Copies(n + 1, a)), a, n)
    decreases n
  {
    if n == 0 {
      FirstCopy(c, a);
    } else {
      hide *;
      RunOfCopies(c, a, n - 1);
      CopyMore(c, a, n);
      assert n - 1 + 1 == n;
      CountedMore(c, StoreAfter(c, Copies(n, a)), a, n - 1);
    }
  }

  function Singly(events: seq<Event>): (up: seq<Indication>)
    ensures |up| == |events|
  {
    seq(|events|, i requires 0 <= i < |events| =>
      match events[i] case Good(data) => DataInd(1, data) case Bad(cause, data) => ErrorInd(cause, data))
  }

  /** Without compression, or when no frame is of the least length, everything goes up by itself. */
  lemma {:induction false} NoneCounted(c: Config, events: seq<Event>)
    requires ConfigOk(c)
    requires !c.compression || forall i :: 0 <= i < |events| && events[i].Good? ==> |events[i].data| != c.hlen
    ensures StoreAfter(c, events).up == Singly(events) && StoreAfter(c, events).repeat == 0
    ensures !c.compression ==> StoreAfter(c, events).held == None
    decreases |events|
  {
    if |events| > 0 {
      var front, e := events[..|events| - 1], events[|events| - 1];
      assert forall i :: 0 <= i < |front| ==> front[i] == events[i];
      NoneCounted(c, front);
      SinglyMore(front, e);
      StoreSnoc(c, front, e);
      assert events == front + [e];
      hide StoreAfter, Singly;
    }
  }

  lemma SinglyMore(events: seq<Event>, e: Event)
    ensures Singly(events + [e]) ==
            Singly(events) +
            [match e case Good(data) => DataInd(1, data) case Bad(cause, data) => ErrorInd(cause, data)]
  {
  }

  /** Only a frame's first sixty-four octets are compared: with a least length of sixty-four, a frame of
      sixty-five and then its first sixty-four alone is counted as the same again. */
  lemma {:induction false} PrefixCounted(c: Config, a: seq<octet>, x: octet)
    requires ConfigOk(c) && c.compression && c.hlen == 64 && |a| == 64
    ensures var st := StoreAfter(c, [Good(a + [x]), Good(a)]);
            st.repeat == 1 && st.up == [DataInd(1, a + [x])]
  {
    var e, f := Good(a + [x]), Good(a);
    assert StoreAfter(c, []) == EMPTY;
    PrefixSteps(c, a, x);
    hide *;
    StoreSnoc(c, [], e);
    StoreSnoc(c, [] + [e], f);
    assert [] + [e] + [f] == [e, f];
  }

  lemma PrefixSteps(c: Config, a: seq<octet>, x: octet)
    requires ConfigOk(c) && c.compression && c.hlen == 64 && |a| == 64
    ensures var st := Store(Some(Buffer(1, a)), 0, [DataInd(1, a + [x])], 2, [0]);
            && Handle(c, EMPTY, Good(a + [x])) == st
            && Handle(c, st, Good(a)) == st.(repeat := 1, made := 3, given := [0, 2])
  {
    assert (a + [x])[..64] == a;
  }

  // ---- each buffer is given away once ----

  /** The pointer is to a buffer that has been given away. */
  predicate Stale(st: Store) { st.held.Some? && st.held.value.id in st.given }

  /** This frame or error gives a buffer away that has been given away before: it is not counted while the
      pointer is stale, or it is an error with something collected. */
  predicate GivesAgain(c: Config, st: Store, e: Event) {
    match e
    case Good(data) => Stale(st) && !Counts(c, st, data)
    case Bad(_, data) => Stale(st) || data != []
  }

  /** Every buffer so far has been given away or is the one held. */
  ghost predicate Accounted(st: Store) {
    && (forall i :: 0 <= i < |st.given| ==> st.given[i] < st.made)
    && (st.held.Some? ==> st.held.value.id < st.made)
    && (forall id :: 0 <= id < st.made ==> id in st.given || (st.held.Some? && id == st.held.value.id))
  }

  lemma FlushGives(st: Store)
    requires Accounted(st)
    ensures Accounted(Flush(st)) && Flush(st).made == st.made
    ensures NoTwice(Flush(st).given) <==> NoTwice(st.given) && !Stale(st)
    ensures Stale(Flush(st)) <==> st.held.Some? && st.repeat > 0
  {
    if st.held.Some? {
      var id := st.held.value.id;
      NoTwiceSnoc(st.given, id);
      assert forall k :: k in st.given + [id] <==> k in st.given || k == id;
    }
  }

  /** One frame or error: it gives a buffer away again exactly in the cases above, and leaves a pointer to
      what has been given away exactly when a count has gone up and no frame was kept in its place, or when
      it was counted on such a pointer. */
  lemma {:induction false} HandleGives(c: Config, st: Store, e: Event)
    requires Accounted(st)
    ensures var st' := Handle(c, st, e);
            && Accounted(st')
            && (NoTwice(st'.given) <==> NoTwice(st.given) && !GivesAgain(c, st, e))
            && (Stale(st') <==>
                  if e.Good? && Counts(c, st, e.data) then Stale(st)
                  else st.held.Some? && st.repeat > 0 && !(e.Good? && Keeps(c, e.data)))
  {
    hide NoTwice;
    var s := Flush(st);
    FlushGives(st);
    match e {
      case Good(data) =>
        if Counts(c, st, data) {
          NoTwiceSnoc(st.given, st.made);
        } else {
          NoTwiceSnoc(s.given, st.made);
        }
      case Bad(cause, data) =>
        NoTwiceSnoc(s.given, st.made);
        NoTwiceSnoc(s.given + [st.made], st.made);
        assert s.given + [st.made] + [st.made] == s.given + [st.made, st.made];
    }
  }

  ghost predicate NeverAgain(c: Config, events: seq<Event>)
    decreases |events|
  {
    |events| == 0 ||
    (var front := events[..|events| - 1];
     NeverAgain(c, front) && !GivesAgain(c, StoreAfter(c, front), events[|events| - 1]))
  }

  /** Over any run: every buffer is sent up or freed at most once if and only if no error comes with octets
      collected, and none that is not counted comes while the pointer is stale. */
  lemma {:induction false} OnceExactly(c: Config, events: seq<Event>)
    ensures Accounted(StoreAfter(c, events))
    ensures NoTwice(StoreAfter(c, events).given) <==> NeverAgain(c, events)
    decreases |events|
  {
    if |events| > 0 {
      var front := events[..|events| - 1];
      OnceExactly(c, front);
      HandleGives(c, StoreAfter(c, front), events[|events| - 1]);
    }
  }

  lemma StoreSnoc(c: Config, events: seq<Event>, e: Event)
    ensures StoreAfter(c, events + [e]) == Handle(c, StoreAfter(c, events), e)
  {
    assert (events + [e])[..|events|] == events;
  }

  /** A frame, the same again, and two errors: the second error frees what the first sent up.  With the frame
      a third time between the errors, the one buffer goes up twice. */
  lemma {:induction false} HeldGivenTwice(c: Config, a: seq<octet>)
    requires ConfigOk(c) && c.compression && |a| == c.hlen
    ensures var st := StoreAfter(c, [Good(a), Good(a), Bad(HdlcAbort, []), Bad(HdlcAbort, [])]);
            st.given == [0, 2, 1, 1] && !NoTwice(st.given)
    ensures var st := StoreAfter(c, [Good(a), Good(a), Bad(HdlcAbort, []), Good(a), Bad(HdlcAbort, [])]);
            && st.given == [0, 2, 1, 3, 1]
            && st.up == [DataInd(1, a), DataInd(1, a), ErrorInd(HdlcAbort, []), DataInd(1, a), ErrorInd(HdlcAbort, [])]
  {
    hide *;
    HeldSteps(c, a);
    HeldAfterThree(c, a);
    var bad, three := Bad(HdlcAbort, []), [Good(a), Good(a), Bad(HdlcAbort, [])];
    StoreSnoc(c, three, bad);
    StoreSnoc(c, three, Good(a));
    StoreSnoc(c, three + [Good(a)], bad);
    assert three + [bad] == [Good(a), Good(a), bad, bad];
    assert three + [Good(a)] + [bad] == [Good(a), Good(a), bad, Good(a), bad];
    Twice([0, 2, 1, 1], 2, 3);
  }

  lemma HeldAfterThree(c: Config, a: seq<octet>)
    requires ConfigOk(c) && c.compression && |a| == c.hlen
    ensures StoreAfter(c, [Good(a), Good(a), Bad(HdlcAbort, [])]) ==
            Store(Some(Buffer(1, a)), 0, [DataInd(1, a), DataInd(1, a), ErrorInd(HdlcAbort, [])], 3, [0, 2, 1])
  {
    assert StoreAfter(c, []) == EMPTY;
    hide *;
    HeldSteps(c, a);
    StoreSnoc(c, [], Good(a));
    StoreSnoc(c, [] + [Good(a)], Good(a));
    StoreSnoc(c, [] + [Good(a)] + [Good(a)], Bad(HdlcAbort, []));
    assert [] + [Good(a)] + [Good(a)] + [Bad(HdlcAbort, [])] == [Good(a), Good(a), Bad(HdlcAbort, [])];
  }

  /** The steps of that run, one by one. */
  lemma HeldSteps(c: Config, a: seq<octet>)
    requires ConfigOk(c) && c.compression && |a| == c.hlen
    ensures var bad, held, d, e := Bad(HdlcAbort, []), Some(Buffer(1, a)), DataInd(1, a), ErrorInd(HdlcAbort, []);
            var one, two := Store(held, 0, [d], 2, [0]), Store(held, 1, [d], 3, [0, 2]);
            var three, four := Store(held, 0, [d, d, e], 3, [0, 2, 1]), Store(held, 1, [d, d, e], 4, [0, 2, 1, 3]);
            && Handle(c, EMPTY, Good(a)) == one && Handle(c, one, Good(a)) == two && Handle(c, two, bad) == three
            && Handle(c, three, bad) == Store(None, 0, [d, d, e, e], 3, [0, 2, 1, 1])
            && Handle(c, three, Good(a)) == four
            && Handle(c, four, bad) == Store(held, 0, [d, d, e, d, e], 4, [0, 2, 1, 3, 1])
  {
  }

  lemma Twice(given: seq<nat>, i: nat, j: nat)
    requires i < j < |given| && given[i] == given[j]
    ensures !NoTwice(given)
  {
  }

  /** An error with one octet collected: the buffer goes up and is freed. */
  lemma {:induction false} ErrorGivenTwice(c: Config, b: octet)
    ensures var st := StoreAfter(c, [Bad(CrcError, [b])]); st.given == [0, 0] && !NoTwice(st.given)
  {
    var e := Bad(CrcError, [b]);
    assert StoreAfter(c, []) == EMPTY;
    assert Handle(c, EMPTY, e).given == [0, 0];
    hide *;
    StoreSnoc(c, [], e);
    assert [] + [e] == [e];
    Twice([0, 0], 0, 1);
  }
}
