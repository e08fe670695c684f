/**
 What every run of the connection lifecycle keeps: one terminal status per generation, one
 clean-up per retired connection, and a worker that leaves nothing behind.
 */
module Lifecycle {
  import opened LifecycleModel

  lemma InitialInv()
    ensures Inv(INITIAL)
  {
  }

  /** The generation a user's map entry leaves behind is not live any more, and no other
      generation is touched. */
  lemma LiveAfterRemoval(s: State, t: State, user: User, g: Generation)
    requires user in s.connections && t.connections == s.connections - {user}
    requires forall u, v :: u in s.connections && v in s.connections && s.connections[u] == s.connections[v] ==> u == v
    ensures Live(t, g) <==> Live(s, g) && g != s.connections[user]
    ensures Live(s, s.connections[user])
  {
    if Live(s, g) && g != s.connections[user] {
      var u :| u in s.connections && s.connections[u] == g;
      assert u in t.connections && t.connections[u] == g;
    }
  }

  lemma LiveAfterReplace(s: State, t: State, user: User, g: Generation)
    requires t.connections == s.connections[user := s.created]
    requires forall u, v :: u in s.connections && v in s.connections && s.connections[u] == s.connections[v] ==> u == v
    requires !Live(s, s.created)
    ensures Live(t, g) <==> g == s.created || (Live(s, g) && !(user in s.connections && g == s.connections[user]))
  {
    assert user in t.connections && t.connections[user] == s.created;
    if Live(s, g) && !(user in s.connections && g == s.connections[user]) {
      var u :| u in s.connections && s.connections[u] == g;
      assert u in t.connections && t.connections[u] == g;
    }
    if Live(t, g) && g != s.created {
      var u :| u in t.connections && t.connections[u] == g;
      assert u != user && u in s.connections && s.connections[u] == g;
    }
  }

  // ---------------------------------------------------------------------------
  // Steps keep the fate of every generation

  lemma ReplaceFate(s: State, user: User, g: Generation)
    requires Inv(s) && s.retiring.None?
    ensures OneFate(Apply(s, Replace(user)), g) && QueuedOnce(Apply(s, Replace(user)), g)
  {
    hide Terminals, Times;
    var t := Apply(s, Replace(user));
    assert OneFate(s, s.created) && OneFate(s, g) && QueuedOnce(s, g) && QueuedOnce(s, s.created);
    LiveAfterReplace(s, t, user, g);
    if user in s.connections {
      assert Live(s, s.connections[user]);
    }
    assert Terminals(t, g) == Terminals(s, g) by {
      SameTerminals(s, t, g);
    }
  }

  lemma SameTerminals(s: State, t: State, g: Generation)
    requires s.pending == t.pending && s.delivered == t.delivered
    ensures Terminals(s, g) == Terminals(t, g)
  {
  }

  lemma QueueFate(s: State, user: User, x: Generation, status: Status, g: Generation)
    requires Inv(s) && s.retiring.None?
    ensures OneFate(Apply(s, RetireQueue(user, x, status)), g) && QueuedOnce(Apply(s, RetireQueue(user, x, status)), g)
  {
    hide Times;
    var t := Apply(s, RetireQueue(user, x, status));
    assert OneFate(s, g) && QueuedOnce(s, g);
    SameTerminals(s, t, g);
    assert Live(t, g) <==> Live(s, g);
    if MayRetire(s, user, x) {
      assert Live(s, x) && OneFate(s, x) && QueuedOnce(s, x);
      TimesAppend(s.enqueued, x, g);
    }
  }

  lemma EraseFate(s: State, g: Generation)
    requires Inv(s) && s.retiring.Some?
    ensures OneFate(Apply(s, RetireErase), g) && QueuedOnce(Apply(s, RetireErase), g)
  {
    hide Times;
    var t, r := Apply(s, RetireErase), s.retiring.value;
    assert OneFate(s, g) && QueuedOnce(s, g);
    LiveAfterRemoval(s, t, r.user, g);
    CountOne(s.pending, Delivery(r.generation, r.status), g);
  }

  lemma LeaveFate(s: State, user: User, g: Generation)
    requires Inv(s) && s.retiring.None?
    ensures OneFate(Apply(s, Leave(user)), g) && QueuedOnce(Apply(s, Leave(user)), g)
  {
    hide Times;
    var t := Apply(s, Leave(user));
    assert OneFate(s, g) && QueuedOnce(s, g);
    if user in s.connections {
      LiveAfterRemoval(s, t, user, g);
      CountOne(s.pending, Delivery(s.connections[user], Closed), g);
    }
  }

  lemma ClearFate(s: State, order: seq<User>, g: Generation)
    requires Inv(s) && s.retiring.None? && Lists(order, s.connections)
    ensures OneFate(Apply(s, Clear(order)), g) && QueuedOnce(Apply(s, Clear(order)), g)
  {
    hide Times;
    var t := Apply(s, Clear(order));
    assert OneFate(s, g) && QueuedOnce(s, g);
    CountClosed(order, s.connections, g);
    CountAppend(s.pending, ClosedFor(order, s.connections), g);
    assert (exists u :: u in order && s.connections[u] == g) <==> Live(s, g);
    assert !Live(t, g);
  }

  lemma DeliverFate(s: State, index: nat, g: Generation)
    requires Inv(s) && index < |s.pending|
    ensures OneFate(Apply(s, Deliver(index)), g) && QueuedOnce(Apply(s, Deliver(index)), g)
  {
    hide Times;
    var t := Apply(s, Deliver(index));
    assert OneFate(s, g) && QueuedOnce(s, g);
    CountMove(s.pending, index, g);
    CountOne(s.delivered, s.pending[index], g);
    assert Live(t, g) <==> Live(s, g);
  }

  lemma StepFate(s: State, step: Step, g: Generation)
    requires Inv(s) && Enabled(s, step)
    ensures OneFate(Apply(s, step), g) && QueuedOnce(Apply(s, step), g)
  {
    match step
    case Replace(user) => ReplaceFate(s, user, g);
    case RetireQueue(user, x, status) => QueueFate(s, user, x, status, g);
    case RetireErase => EraseFate(s, g);
    case Clear(order) => ClearFate(s, order, g);
    case Leave(user) => LeaveFate(s, user, g);
    case Deliver(index) => DeliverFate(s, index, g);
    case _ =>
      assert OneFate(s, g) && QueuedOnce(s, g);
      SameTerminals(s, Apply(s, step), g);
      assert Live(Apply(s, step), g) <==> Live(s, g);
  }

  /** The map stays injective, a retirement stays that of a current connection, the queue
      accounts for everything, and the worker stays gone only with an empty queue. */
  lemma StepRest(s: State, step: Step)
    requires Inv(s) && Enabled(s, step)
    ensures var t := Apply(s, step);
            (forall u, v :: u in t.connections && v in t.connections && t.connections[u] == t.connections[v] ==> u == v) &&
            (t.retiring.Some? ==>
               t.retiring.value.user in t.connections &&
               t.connections[t.retiring.value.user] == t.retiring.value.generation) &&
            t.enqueued == t.released + t.cleanup &&
            (t.exited ==> t.cleanup == [] && !t.running)
  {
    hide OneFate, QueuedOnce, ClosedFor, Lists;
    if step.Replace? {
      assert OneFate(s, s.created);
      NewIsNotLive(s);
    }
  }

  lemma NewIsNotLive(s: State)
    requires OneFate(s, s.created)
    ensures forall u :: u in s.connections ==> s.connections[u] != s.created
  {
  }

  lemma StepInv(s: State, step: Step)
    requires Inv(s) && Enabled(s, step)
    ensures Inv(Apply(s, step))
  {
    hide OneFate, QueuedOnce, Apply, Enabled;
    forall g
      ensures OneFate(Apply(s, step), g)
    {
      StepFate(s, step, g);
    }
    forall g
      ensures QueuedOnce(Apply(s, step), g)
    {
      StepFate(s, step, g);
    }
    StepRest(s, step);
  }

  lemma {:induction false} RunInv(s: State, steps: seq<Step>)
    requires Inv(s) && IsRun(s, steps)
    ensures Inv(After(s, steps))
    decreases |steps|
  {
    hide Inv, Apply, Enabled;
    if steps != [] {
      StepInv(s, steps[0]);
      RunInv(Apply(s, steps[0]), steps[1..]);
    }
  }

  // ---------------------------------------------------------------------------
  // Main results

  /** In every interleaving each generation has at most one terminal status callback, made or
      about to be made; none while it is current or if it was replaced; and exactly one if it is
      gone otherwise. */
  lemma OneTerminalStatus(steps: seq<Step>, g: Generation)
    requires IsRun(INITIAL, steps)
    ensures var s := After(INITIAL, steps);
            Terminals(s, g) <= 1 &&
            (Live(s, g) || g in s.replaced ==> Terminals(s, g) == 0) &&
            (g < s.created && !Live(s, g) && g !in s.replaced ==> Terminals(s, g) == 1)
  {
    InitialInv();
    RunInv(INITIAL, steps);
    assert OneFate(After(INITIAL, steps), g);
  }

  /** In every interleaving each generation is queued for clean-up at most once; the worker
      takes them in the order they were queued; and once it has left, it has taken all of them
      and nothing is queued behind it. */
  lemma WorkerLeavesNothing(steps: seq<Step>, g: Generation)
    requires IsRun(INITIAL, steps)
    ensures var s := After(INITIAL, steps);
            Times(s.enqueued, g) <= 1 && s.released <= s.enqueued &&
            (s.exited ==> s.cleanup == [] && s.released == s.enqueued)
  {
    InitialInv();
    RunInv(INITIAL, steps);
    assert QueuedOnce(After(INITIAL, steps), g);
  }

  lemma {:induction false} DeliveredStays(s: State, steps: seq<Step>, g: Generation)
    requires IsRun(s, steps)
    ensures Count(After(s, steps).delivered, g) >= Count(s.delivered, g)
    ensures After(s, steps).created >= s.created
    decreases |steps|
  {
    if steps != [] {
      var t := Apply(s, steps[0]);
      if steps[0].Deliver? {
        CountOne(s.delivered, s.pending[steps[0].index], g);
      }
      DeliveredStays(t, steps[1..], g);
    }
  }

  /** Once its terminal status has been delivered, a generation never becomes current again, is
      never retired again, and no second terminal status is delivered, whatever late callbacks
      its transport still makes. */
  lemma DeliveredIsFinal(before: seq<Step>, s: State, later: seq<Step>, g: Generation)
    requires IsRun(INITIAL, before) && s == After(INITIAL, before) && Count(s.delivered, g) > 0
    requires IsRun(s, later)
    ensures var t := After(s, later); !Live(t, g) && Terminals(t, g) == 1 && g !in t.replaced
    ensures forall user :: !MayRetire(After(s, later), user, g)
  {
    InitialInv();
    RunInv(INITIAL, before);
    RunInv(s, later);
    DeliveredStays(s, later, g);
    assert OneFate(After(s, later), g);
  }

  lemma {:induction false} QueuedStays(s: State, steps: seq<Step>, g: Generation)
    requires IsRun(s, steps)
    requires !s.running && forall i :: 0 <= i < |steps| ==> !steps[i].StartWorker?
    ensures After(s, steps).enqueued == s.enqueued && !After(s, steps).running
    decreases |steps|
  {
    if steps != [] {
      QueuedStays(Apply(s, steps[0]), steps[1..], g);
    }
  }

  /** After StopIceWorker nothing is queued any more, also by a retirement that was under way:
      the worker has only what is on the queue to clean up, and then leaves. */
  lemma NothingQueuedAfterStop(s: State, steps: seq<Step>)
    requires Inv(s) && IsRun(s, [StopWorker] + steps)
    requires forall i :: 0 <= i < |steps| ==> !steps[i].StartWorker?
    ensures After(s, [StopWorker] + steps).enqueued == s.enqueued
  {
    assert ([StopWorker] + steps)[1..] == steps;
    QueuedStays(Apply(s, StopWorker), steps, 0);
  }
}
