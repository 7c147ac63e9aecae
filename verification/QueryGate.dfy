/** The gate that lets the file watcher wait for live queries to end, as the
    interleaving of the atomic steps of its guards and waiters. */
module QueryGate {
  import opened Wrappers

  type Task = nat

  /** Dropping a guard is two steps: the decrement, and a notification if the decrement saw the last guard. */
  datatype Guard = Held | MustNotify | Dropped

  /** A waiter creates its notification future, checks the count, and either returns or awaits the future.
      A future created at `epoch` is woken by any later notification. */
  datatype Waiter = Created(epoch: nat) | Sleeping(epoch: nat) | Looping | Returned

  /** `active` is the shared counter; `epoch` counts the calls that notified all waiters. */
  datatype Gate = Gate(active: nat, epoch: nat, guards: map<Task, Guard>, waiters: map<Task, Waiter>)

  datatype Event =
    | Enter(guard: Task) | Decrement(guard: Task) | Notify(guard: Task)
    | Create(waiter: Task) | Check(waiter: Task) | Wake(waiter: Task)

  const OPEN := Gate(0, 0, map[], map[])

  predicate Is<T(==)>(m: map<Task, T>, t: Task, phase: T) {
    t in m && m[t] == phase
  }

  /** The state after `e`, if `e` can happen now. */
  function Next(g: Gate, e: Event): Option<Gate> {
    match e
    case Enter(t) =>
      if t in g.guards then None else Some(g.(active := g.active + 1, guards := g.guards[t := Held]))
    case Decrement(t) =>
      if !Is(g.guards, t, Held) || g.active == 0 then None
      else Some(g.(active := g.active - 1, guards := g.guards[t := if g.active == 1 then MustNotify else Dropped]))
    case Notify(t) =>
      if !Is(g.guards, t, MustNotify) then None else Some(g.(epoch := g.epoch + 1, guards := g.guards[t := Dropped]))
    case Create(w) =>
      if w in g.waiters && g.waiters[w] != Looping then None else Some(g.(waiters := g.waiters[w := Created(g.epoch)]))
    case Check(w) =>
      if !(w in g.waiters && g.waiters[w].Created?) then None
      else Some(g.(waiters := g.waiters[w := if g.active == 0 then Returned else Sleeping(g.waiters[w].epoch)]))
    case Wake(w) =>
      if !(w in g.waiters && g.waiters[w].Sleeping? && g.waiters[w].epoch < g.epoch) then None
      else Some(g.(waiters := g.waiters[w := Looping]))
  }

  /** `events` can happen one after the other from `g`; the state they lead to. */
  function Run(g: Gate, events: seq<Event>): Option<Gate> {
    if events == [] then Some(g)
    else
      match Run(g, events[..|events| - 1])
      case None => None
      case Some(mid) => Next(mid, events[|events| - 1])
  }

  ghost function LiveGuards(g: Gate): set<Task> {
    set t | t in g.guards && g.guards[t] == Held
  }

  ghost predicate NotificationDue(g: Gate) {
    exists t :: Is(g.guards, t, MustNotify)
  }

  /** The count is the number of live guards, and a waiter no notification has reached
      can only be asleep while there is still one to come. */
  ghost predicate Sound(g: Gate) {
    && g.active == |LiveGuards(g)|
    && (forall w :: w in g.waiters && (g.waiters[w].Created? || g.waiters[w].Sleeping?) ==>
        g.waiters[w].epoch <= g.epoch)
    && (forall w :: Is(g.waiters, w, Sleeping(g.epoch)) ==> g.active > 0 || NotificationDue(g))
  }

  lemma SoundStep(g: Gate, e: Event)
    requires Sound(g) && Next(g, e).Some?
    ensures Sound(Next(g, e).value)
  {
    match e {
      case Enter(t) => EnterIsSound(g, t);
      case Decrement(t) => DecrementIsSound(g, t);
      case Notify(t) => NotifyIsSound(g, t);
      case Create(w) => WaiterStepsSoundly(g, Next(g, e).value, w);
      case Check(w) => WaiterStepsSoundly(g, Next(g, e).value, w);
      case Wake(w) => WaiterStepsSoundly(g, Next(g, e).value, w);
    }
  }

  lemma EnterIsSound(g: Gate, t: Task)
    requires Sound(g) && t !in g.guards
    ensures Sound(Next(g, Enter(t)).value)
  {
    assert LiveGuards(Next(g, Enter(t)).value) == LiveGuards(g) + {t};
  }

  lemma DecrementIsSound(g: Gate, t: Task)
    requires Sound(g) && Is(g.guards, t, Held) && g.active > 0
    ensures Sound(Next(g, Decrement(t)).value)
  {
    var g' := Next(g, Decrement(t)).value;
    assert LiveGuards(g') == LiveGuards(g) - {t};
    assert g.active == 1 ==> Is(g'.guards, t, MustNotify);
  }

  lemma NotifyIsSound(g: Gate, t: Task)
    requires Sound(g) && Is(g.guards, t, MustNotify)
    ensures Sound(Next(g, Notify(t)).value)
  {
    assert LiveGuards(Next(g, Notify(t)).value) == LiveGuards(g);
  }

  lemma WaiterStepsSoundly(g: Gate, g': Gate, w: Task)
    requires Sound(g) && w in g'.waiters && g' == g.(waiters := g.waiters[w := g'.waiters[w]])
    requires g'.waiters[w].Created? ==> g'.waiters[w].epoch <= g.epoch
    requires g'.waiters[w].Sleeping? ==> g'.waiters[w].epoch <= g.epoch && g.active > 0
    ensures Sound(g')
  {
    assert LiveGuards(g') == LiveGuards(g);
    forall u | Is(g'.waiters, u, Sleeping(g'.epoch))
      ensures g'.active > 0 || NotificationDue(g')
    {
      if u != w {
        assert Is(g.waiters, u, Sleeping(g.epoch));
        if t :| Is(g.guards, t, MustNotify) {
          assert Is(g'.guards, t, MustNotify);
        }
      }
    }
  }

  lemma SomeoneIsLive(g: Gate)
    requires Sound(g)
    ensures g.active > 0 ==> exists t :: Is(g.guards, t, Held)
  {
    if g.active > 0 {
      var t :| t in LiveGuards(g);
      assert Is(g.guards, t, Held);
    }
  }

  lemma {:induction false} RunsStaySound(events: seq<Event>)
    requires Run(OPEN, events).Some?
    ensures Sound(Run(OPEN, events).value)
  {
    if events == [] {
      assert LiveGuards(OPEN) == {};
    } else {
      RunsStaySound(events[..|events| - 1]);
      SoundStep(Run(OPEN, events[..|events| - 1]).value, events[|events| - 1]);
    }
  }

  /** No wakeup is lost: in every interleaving, a waiter asleep on a future that nothing has woken yet
      implies a live guard or a guard about to notify. */
  lemma NoLostWakeup(events: seq<Event>, w: Task)
    requires Run(OPEN, events).Some?
    ensures var g := Run(OPEN, events).value;
            w in g.waiters && g.waiters[w].Sleeping? && Next(g, Wake(w)).None? ==>
              (exists t :: Is(g.guards, t, Held) || Is(g.guards, t, MustNotify))
  {
    RunsStaySound(events);
    var g := Run(OPEN, events).value;
    if w in g.waiters && g.waiters[w].Sleeping? && Next(g, Wake(w)).None? {
      assert Is(g.waiters, w, Sleeping(g.epoch));
      SomeoneIsLive(g);
    }
  }

  /** A waiter that has returned did so at a moment when no guard was live. */
  lemma {:induction false} ReturnedAtAnIdleMoment(events: seq<Event>, w: Task) returns (k: nat)
    requires Run(OPEN, events).Some? && Is(Run(OPEN, events).value.waiters, w, Returned)
    ensures k < |events| && events[k] == Check(w)
    ensures Run(OPEN, events[..k]).Some? && forall t :: !Is(Run(OPEN, events[..k]).value.guards, t, Held)
  {
    var n := |events| - 1;
    var before := Run(OPEN, events[..n]).value;
    if Is(before.waiters, w, Returned) {
      k := ReturnedAtAnIdleMoment(events[..n], w);
      assert events[..n][..k] == events[..k];
    } else {
      k := n;
      RunsStaySound(events[..n]);
      forall t
        ensures !Is(before.guards, t, Held)
      {
        assert Is(before.guards, t, Held) ==> t in LiveGuards(before);
      }
    }
  }

  // ----- what wakes a waiter -----

  lemma {:induction false} PrefixRuns(events: seq<Event>, n: nat)
    requires Run(OPEN, events).Some? && n <= |events|
    ensures Run(OPEN, events[..n]).Some?
  {
    if n == |events| {
      assert events[..n] == events;
    } else {
      PrefixRuns(events[..|events| - 1], n);
      assert events[..|events| - 1][..n] == events[..n];
    }
  }

  /** The future a waiter holds is as old as its latest `Create`. */
  lemma {:induction false} HeldSince(events: seq<Event>, w: Task) returns (j: nat)
    requires Run(OPEN, events).Some? && w in Run(OPEN, events).value.waiters
    requires var held := Run(OPEN, events).value.waiters[w]; held.Created? || held.Sleeping?
    ensures j < |events| && events[j] == Create(w) && forall m :: j < m < |events| ==> events[m] != Create(w)
    ensures Run(OPEN, events[..j]).Some?
    ensures Run(OPEN, events).value.waiters[w].epoch == Run(OPEN, events[..j]).value.epoch
  {
    var n := |events| - 1;
    if events[n] == Create(w) {
      j := n;
    } else {
      j := HeldSince(events[..n], w);
      assert events[..n][..j] == events[..j];
    }
  }

  lemma {:induction false} SomeoneNotified(events: seq<Event>, j: nat) returns (m: nat)
    requires Run(OPEN, events).Some? && j <= |events| && Run(OPEN, events[..j]).Some?
    requires Run(OPEN, events[..j]).value.epoch < Run(OPEN, events).value.epoch
    ensures j <= m < |events| && events[m].Notify?
  {
    var n := |events| - 1;
    assert events[..|events|] == events;
    if events[n].Notify? {
      m := n;
    } else {
      assert events[..n][..j] == events[..j];
      m := SomeoneNotified(events[..n], j);
    }
  }

  /** A waiter is woken only by a guard that notified after the waiter last created its future. */
  lemma WokenByNotification(events: seq<Event>, k: nat, w: Task) returns (j: nat, m: nat)
    requires Run(OPEN, events).Some? && k < |events| && events[k] == Wake(w)
    ensures j < m < k && events[j] == Create(w) && events[m].Notify?
    ensures forall i :: j < i < k ==> events[i] != Create(w)
  {
    PrefixRuns(events, k + 1);
    var before := events[..k];
    assert events[..k + 1] == before + [Wake(w)];
    assert (before + [Wake(w)])[..k] == before;
    j := HeldSince(before, w);
    m := SomeoneNotified(before, j);
    assert forall i :: 0 <= i < k ==> before[i] == events[i];
  }

  // ----- once the queries are gone, waiters finish -----

  ghost predicate Quiet(g: Gate) {
    forall t :: !Is(g.guards, t, Held) && !Is(g.guards, t, MustNotify)
  }

  function OwnSteps(g: Gate, w: Task): nat {
    if w !in g.waiters then 2
    else
      match g.waiters[w]
      case Returned => 0
      case Created(_) => 1
      case Looping => 2
      case Sleeping(_) => 3
  }

  predicate Own(e: Event, w: Task) {
    e == Create(w) || e == Check(w) || e == Wake(w)
  }

  function CountOwn(events: seq<Event>, w: Task): nat {
    if events == [] then 0 else CountOwn(events[..|events| - 1], w) + (if Own(events[|events| - 1], w) then 1 else 0)
  }

  lemma QuietStep(g: Gate, e: Event, w: Task)
    requires Sound(g) && Quiet(g) && !e.Enter? && Next(g, e).Some?
    ensures Quiet(Next(g, e).value)
    ensures OwnSteps(g, w) == OwnSteps(Next(g, e).value, w) + (if Own(e, w) then 1 else 0)
  {
    SomeoneIsLive(g);
  }

  lemma NeverStuck(g: Gate, w: Task)
    requires Sound(g) && Quiet(g) && !Is(g.waiters, w, Returned)
    ensures exists e :: Own(e, w) && Next(g, e).Some?
  {
    if w in g.waiters && g.waiters[w].Sleeping? {
      SomeoneIsLive(g);
      assert !Is(g.waiters, w, Sleeping(g.epoch));
      assert Own(Wake(w), w) && Next(g, Wake(w)).Some?;
    } else if w in g.waiters && g.waiters[w].Created? {
      assert Own(Check(w), w) && Next(g, Check(w)).Some?;
    } else {
      assert Own(Create(w), w) && Next(g, Create(w)).Some?;
    }
  }

  /** Once every guard is dropped and none enters, each step of a waiter brings it nearer to returning,
      whatever the others do; three of its own steps always suffice, and it is never stuck before. */
  lemma {:induction false} QuietWaitersReturn(before: seq<Event>, events: seq<Event>, w: Task)
    requires Run(OPEN, before).Some? && Quiet(Run(OPEN, before).value)
    requires Run(OPEN, before + events).Some? && forall e :: e in events ==> !e.Enter?
    ensures var g, g' := Run(OPEN, before).value, Run(OPEN, before + events).value;
            && Quiet(g')
            && CountOwn(events, w) + OwnSteps(g', w) == OwnSteps(g, w) <= 3
            && (OwnSteps(g', w) == 0 <==> Is(g'.waiters, w, Returned))
            && (OwnSteps(g', w) > 0 ==> exists e :: Own(e, w) && Next(g', e).Some?)
  {
    var g := Run(OPEN, before).value;
    if events == [] {
      assert before + events == before;
    } else {
      var n := |events| - 1;
      assert (before + events)[..|before + events| - 1] == before + events[..n];
      QuietWaitersReturn(before, events[..n], w);
      RunsStaySound(before + events[..n]);
      QuietStep(Run(OPEN, before + events[..n]).value, events[n], w);
    }
    var g' := Run(OPEN, before + events).value;
    if !Is(g'.waiters, w, Returned) {
      RunsStaySound(before + events);
      NeverStuck(g', w);
    }
  }
}
