/** The stream lock: a try-lock with one waiter slot.  A queue that fails takes the slot and the queue it
    displaces is enabled again; the holder enables the waiter when it lets go.  Enabling happens after the
    spin lock is dropped, so it interleaves with everything else. */
module TryLock {
  import opened Options

  datatype State = State(users: nat, waiter: Option<nat>)

  datatype Outcome = Outcome(next: State, got: bool, wake: Option<nat>)

  /** One attempt by queue `q`, under the spin lock. */
  function Attempted(s: State, q: nat): Outcome {
    if s.users == 0 then Outcome(s.(users := 1), true, None)
    else Outcome(s.(waiter := Some(q)), false, s.waiter)
  }

  /** Letting go, under the spin lock. */
  function Released(s: State): Outcome {
    Outcome(State(0, None), true, s.waiter)
  }

  class StreamLock {
    var users: nat
    var waiter: Option<nat>

    constructor ()
      ensures users == 0 && waiter == None
    {
      users, waiter := 0, None;
    }

    /** `wake` is the queue to enable once the spin lock has been dropped. */
    method TryAcquire(q: nat) returns (got: bool, wake: Option<nat>)
      modifies this
      ensures Outcome(State(users, waiter), got, wake) == Attempted(old(State(users, waiter)), q)
      ensures got <==> old(users) == 0
      ensures got ==> users == 1 && waiter == old(waiter) && wake == None
      ensures !got ==> users == old(users) && waiter == Some(q) && wake == old(waiter)
    {
      if users == 0 {
        wake := None;
        users := users + 1;
        got := true;
      } else {
        got := false;
        wake := waiter;
        waiter := Some(q);
      }
    }

    method Release() returns (wake: Option<nat>)
      modifies this
      ensures Outcome(State(users, waiter), true, wake) == Released(old(State(users, waiter)))
      ensures users == 0 && waiter == None && wake == old(waiter)
    {
      users := 0;
      wake := waiter;
      if wake != None {
        waiter := None;
      }
    }
  }

  // ---- every interleaving of any number of queues ----

  datatype Event = Attempt(q: nat) | LetGo(q: nat) | Enable(q: nat)

  /** `holders` the queues that got the lock and have not let go; `parked` those whose last attempt
      failed and which have not been enabled since; `failures` counts failed attempts, `flying` the
      enables still to be done, `done` the enables done. */
  datatype World = World(lock: State, holders: multiset<nat>, parked: set<nat>,
                         failures: multiset<nat>, flying: multiset<nat>, done: multiset<nat>)

  const START := World(State(0, None), multiset{}, {}, multiset{}, multiset{}, multiset{})

  function Token(w: Option<nat>): multiset<nat> {
    if w.Some? then multiset{w.value} else multiset{}
  }

  /** Only a holder lets go, and only an enable that is due is done. */
  predicate Possible(w: World, e: Event) {
    match e
    case Attempt(q) => true
    case LetGo(q) => q in w.holders
    case Enable(q) => q in w.flying
  }

  function Step(w: World, e: Event): World
    requires Possible(w, e)
  {
    match e
    case Attempt(q) =>
      var o := Attempted(w.lock, q);
      if o.got then w.(lock := o.next, holders := w.holders + multiset{q}, parked := w.parked - {q})
      else w.(lock := o.next, parked := w.parked + {q}, failures := w.failures + multiset{q},
              flying := w.flying + Token(o.wake))
    case LetGo(q) =>
      var o := Released(w.lock);
      w.(lock := o.next, holders := w.holders - multiset{q}, flying := w.flying + Token(o.wake))
    case Enable(q) =>
      w.(flying := w.flying - multiset{q}, done := w.done + multiset{q}, parked := w.parked - {q})
  }

  predicate Run(w: World, events: seq<Event>)
    decreases |events|
  {
    |events| == 0 || (Possible(w, events[0]) && Run(Step(w, events[0]), events[1..]))
  }

  function After(w: World, events: seq<Event>): World
    requires Run(w, events)
    decreases |events|
  {
    if |events| == 0 then w else After(Step(w, events[0]), events[1..])
  }

  ghost predicate Inv(w: World) {
    && w.lock.users == |w.holders| <= 1
    && (w.lock.waiter.Some? ==> w.lock.users == 1)
    && (forall q :: q in w.parked ==> w.lock.waiter == Some(q) || q in w.flying)
    && w.failures == w.done + w.flying + Token(w.lock.waiter)
  }

  lemma SingleHolder(holders: multiset<nat>, q: nat)
    requires |holders| <= 1 && q in holders
    ensures holders == multiset{q} && holders - multiset{q} == multiset{}
  {
    assert holders == (holders - multiset{q}) + multiset{q};
    assert |holders - multiset{q}| == 0;
  }

  lemma {:induction false} InvStep(w: World, e: Event)
    requires Inv(w) && Possible(w, e)
    ensures Inv(Step(w, e))
  {
    match e {
      case Attempt(q) => InvAttempt(w, q);
      case LetGo(q) => InvLetGo(w, q);
      case Enable(q) => InvEnable(w, q);
    }
  }

  lemma InvAttempt(w: World, q: nat)
    requires Inv(w)
    ensures Inv(Step(w, Attempt(q)))
  {
    if w.lock.users == 0 { assert w.holders == multiset{}; }
  }

  lemma InvLetGo(w: World, q: nat)
    requires Inv(w) && q in w.holders
    ensures Inv(Step(w, LetGo(q)))
  {
    SingleHolder(w.holders, q);
  }

  lemma InvEnable(w: World, q: nat)
    requires Inv(w) && q in w.flying
    ensures Inv(Step(w, Enable(q)))
  {
    assert w.flying == (w.flying - multiset{q}) + multiset{q};
  }

  /** Whatever happens in whatever order: at most one queue holds the lock; a waiter is recorded only
      while it is held; a queue that failed and has not been enabled since is the recorded waiter or is
      about to be enabled; and every failed attempt is paid for by exactly one enable, done, due, or owed
      by the waiter slot. */
  lemma {:induction false} InvAlways(w: World, events: seq<Event>)
    requires Inv(w) && Run(w, events)
    ensures Inv(After(w, events))
    decreases |events|
  {
    if |events| > 0 {
      InvStep(w, events[0]);
      InvAlways(Step(w, events[0]), events[1..]);
    }
  }

  /** No wake-up is lost: when the lock is free, every queue that is still parked is about to be enabled,
      and the enables done and due are exactly the failed attempts. */
  lemma {:induction false} NoLostWakeUp(events: seq<Event>)
    requires Run(START, events)
    ensures var w := After(START, events);
            && |w.holders| <= 1
            && (w.lock.users == 0 ==>
                  w.lock.waiter == None && w.failures == w.done + w.flying &&
                  forall q :: q in w.parked ==> q in w.flying)
  {
    InvAlways(START, events);
  }

  /** When nothing holds the lock and no enable is due, nobody is left waiting. */
  lemma {:induction false} QuietMeansNobodyWaits(events: seq<Event>)
    requires Run(START, events)
    ensures var w := After(START, events);
            w.holders == multiset{} && w.flying == multiset{} ==> w.parked == {}
  {
    InvAlways(START, events);
    var w := After(START, events);
    if w.holders == multiset{} && w.flying == multiset{} {
      assert forall q :: q !in w.parked;
    }
  }

  // ---- who is recorded, and who is woken ----

  /** The lock has been asked for since it was last let go. */
  predicate Taken(events: seq<Event>)
    decreases |events|
  {
    |events| > 0 &&
    match events[|events| - 1]
    case Attempt(_) => true
    case LetGo(_) => false
    case Enable(_) => Taken(events[..|events| - 1])
  }

  /** The queue that asked last, since the lock was taken, when it was taken already. */
  function LastFailed(events: seq<Event>): Option<nat>
    decreases |events|
  {
    if |events| == 0 then None
    else
      var front := events[..|events| - 1];
      match events[|events| - 1]
      case Attempt(q) => if Taken(front) then Some(q) else None
      case LetGo(_) => None
      case Enable(_) => LastFailed(front)
  }

  lemma {:induction false} RunSnoc(w: World, events: seq<Event>, e: Event)
    ensures Run(w, events + [e]) <==> Run(w, events) && Possible(After(w, events), e)
    ensures Run(w, events + [e]) ==> After(w, events + [e]) == Step(After(w, events), e)
    decreases |events|
  {
    if |events| == 0 {
      assert (events + [e])[1..] == [];
    } else {
      assert (events + [e])[1..] == events[1..] + [e];
      if Possible(w, events[0]) { RunSnoc(Step(w, events[0]), events[1..], e); }
    }
  }

  lemma RunFront(events: seq<Event>)
    requires Run(START, events) && |events| > 0
    ensures var front, e := events[..|events| - 1], events[|events| - 1];
            && Run(START, front) && Possible(After(START, front), e)
            && After(START, events) == Step(After(START, front), e)
  {
    var front, e := events[..|events| - 1], events[|events| - 1];
    assert events == front + [e];
    RunSnoc(START, front, e);
  }

  /** After any history the lock is held exactly when it has been taken and not let go since, and the waiter
      recorded is the queue whose attempt failed last since it was taken. */
  lemma {:induction false} WaiterIsLast(events: seq<Event>)
    requires Run(START, events)
    ensures After(START, events).lock == State(if Taken(events) then 1 else 0, LastFailed(events))
    decreases |events|
  {
    if |events| > 0 {
      RunFront(events);
      WaiterIsLast(events[..|events| - 1]);
      FreeHasNoWaiter(events[..|events| - 1]);
    }
  }

  lemma {:induction false} FreeHasNoWaiter(events: seq<Event>)
    ensures LastFailed(events) != None ==> Taken(events)
    decreases |events|
  {
    if |events| > 0 { FreeHasNoWaiter(events[..|events| - 1]); }
  }

  /** An attempt gets the lock exactly when it is not taken.  One that fails makes one enable due at most: for
      the attempt that failed before it, never for itself; when it is the first to fail it makes none. */
  lemma {:induction false} AttemptWakes(events: seq<Event>, q: nat)
    requires Run(START, events)
    ensures var w, w' := After(START, events), Step(After(START, events), Attempt(q));
            && w'.holders == (if Taken(events) then w.holders else w.holders + multiset{q})
            && (q in w'.parked <==> Taken(events))
            && w'.flying == w.flying + (if LastFailed(events) == None then multiset{}
                                        else multiset{LastFailed(events).value})
            && LastFailed(events + [Attempt(q)]) == (if Taken(events) then Some(q) else None)
  {
    WaiterIsLast(events);
    FreeHasNoWaiter(events);
    assert (events + [Attempt(q)])[..|events|] == events;
  }

  /** Letting go frees the lock and makes an enable due for the queue that failed last, if one has. */
  lemma {:induction false} LetGoWakes(events: seq<Event>, q: nat)
    requires Run(START, events) && q in After(START, events).holders
    ensures var w, w' := After(START, events), Step(After(START, events), LetGo(q));
            && Taken(events) && w'.lock == State(0, None) && w'.holders == multiset{} && w'.parked == w.parked
            && w'.flying == w.flying + (if LastFailed(events) == None then multiset{}
                                        else multiset{LastFailed(events).value})
  {
    WaiterIsLast(events);
    InvAlways(START, events);
    SingleHolder(After(START, events).holders, q);
  }

  /** The lock held, a second queue fails and then a third: the third is recorded and the second enabled. */
  lemma {:induction false} ThirdDisplacesSecond(a: nat, b: nat, c: nat)
    ensures var events := [Attempt(a), Attempt(b), Attempt(c)];
            && Run(START, events) && After(START, events).lock == State(1, Some(c))
            && After(START, events).flying == multiset{b}
  {
    var one, two := [Attempt(a)], [Attempt(a), Attempt(b)];
    assert one[1..] == [] && two[1..] == [Attempt(b)] && [Attempt(b)][1..] == [];
    assert [Attempt(a), Attempt(b), Attempt(c)] == two + [Attempt(c)] && two == one + [Attempt(b)];
    RunSnoc(START, [], Attempt(a));
    assert [] + [Attempt(a)] == one;
    RunSnoc(START, one, Attempt(b));
    RunSnoc(START, two, Attempt(c));
  }
}
