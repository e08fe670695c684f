/**
 The connection lifecycle methods of PeerConnection. Each is proved to be a run of the steps
 of LifecycleModel; interleaved with other threads, its steps are those of a run too.
 */
module PeerConnections {
  import opened Options
  import opened LifecycleModel
  import opened Lifecycle

  lemma OneStep(s: State, step: Step)
    requires Enabled(s, step)
    ensures IsRun(s, [step]) && After(s, [step]) == Apply(s, step)
  {
    assert [step][1..] == [];
  }

  lemma {:induction false} RunsCompose(s: State, a: seq<Step>, b: seq<Step>)
    requires IsRun(s, a) && IsRun(After(s, a), b)
    ensures IsRun(s, a + b) && After(s, a + b) == After(After(s, a), b)
    decreases |a|
  {
    hide Apply, Enabled;
    if a == [] {
      assert a + b == b;
    } else {
      assert (a + b)[1..] == a[1..] + b;
      RunsCompose(Apply(s, a[0]), a[1..], b);
    }
  }

  /** `t` is reached from `s` by some run. */
  ghost predicate Reaches(s: State, t: State) {
    exists steps: seq<Step> :: IsRun(s, steps) && After(s, steps) == t
  }

  lemma ReachesSelf(s: State)
    ensures Reaches(s, s)
  {
    assert IsRun(s, []) && After(s, []) == s;
  }

  lemma ReachesStep(s: State, t: State, step: Step)
    requires Reaches(s, t) && Enabled(t, step)
    ensures Reaches(s, Apply(t, step))
  {
    hide Apply, Enabled;
    var steps :| IsRun(s, steps) && After(s, steps) == t;
    OneStep(t, step);
    RunsCompose(s, steps, [step]);
  }

  lemma ReachesInv(s: State, t: State)
    requires Inv(s) && Reaches(s, t)
    ensures Inv(t)
  {
    var steps :| IsRun(s, steps) && After(s, steps) == t;
    RunInv(s, steps);
  }

  /** What the callbacks made from `s` to `t` are: exactly `made`, in this order. */
  predicate Made(s: State, t: State, made: seq<Delivery>) {
    t.delivered == s.delivered + made && t.pending == s.pending
  }

  class PeerConnection {
    var peerConnectionMap: map<User, Generation>
    var terminalConnectionCleanupQueue: seq<Generation>
    var iceWorkerRunning: bool
    var iceWorkerExited: bool
    var nextGeneration: nat
    /** What other threads are about to tell the application, and what it has been told. */
    ghost var pending: seq<Delivery>
    ghost var delivered: seq<Delivery>
    ghost var enqueued: seq<Generation>
    ghost var released: seq<Generation>
    ghost var replaced: set<Generation>

    ghost function Snapshot(): State
      reads this
    {
      State(peerConnectionMap, nextGeneration, iceWorkerRunning, iceWorkerExited, terminalConnectionCleanupQueue,
            None, pending, delivered, enqueued, released, replaced)
    }

    constructor ()
      ensures Snapshot() == INITIAL && Inv(Snapshot())
    {
      peerConnectionMap, terminalConnectionCleanupQueue := map[], [];
      iceWorkerRunning, iceWorkerExited, nextGeneration := true, false, 0;
      pending, delivered, enqueued, released, replaced := [], [], [], [], {};
      new;
      InitialInv();
    }

    /** Queue the connection for clean-up and take it out of the map, if it is the current one
        and the worker runs. On success the caller owes the application the status. */
    method RetirePeerConnection(user: User, connection: Generation, status: Status) returns (retired: bool)
      requires Inv(Snapshot())
      modifies this
      ensures retired <==> old(MayRetire(Snapshot(), user, connection))
      ensures Reaches(old(Snapshot()), Snapshot()) && Inv(Snapshot())
      ensures !retired ==> Snapshot() == old(Snapshot())
      ensures retired ==> pending == old(pending) + [Delivery(connection, status)] && delivered == old(delivered) &&
                          peerConnectionMap == old(peerConnectionMap) - {user} &&
                          terminalConnectionCleanupQueue == old(terminalConnectionCleanupQueue) + [connection]
    {
      hide Inv, Reaches;
      ghost var s := Snapshot();
      ReachesSelf(s);
      if user in peerConnectionMap && peerConnectionMap[user] == connection {
        if !iceWorkerRunning {
          return false;
        }
        terminalConnectionCleanupQueue := terminalConnectionCleanupQueue + [connection];
        enqueued := enqueued + [connection];
        ReachesStep(s, s, RetireQueue(user, connection, status));
        ghost var t := Apply(s, RetireQueue(user, connection, status));
        ReachesStep(s, t, RetireErase);
        peerConnectionMap := peerConnectionMap - {user};
        pending := pending + [Delivery(connection, status)];
        assert Snapshot() == Apply(t, RetireErase);
        ReachesInv(s, Snapshot());
        return true;
      }
      return false;
    }

    /** Tell the application one of the statuses owed. */
    ghost method Tell(index: nat)
      requires Inv(Snapshot()) && index < |pending|
      modifies this`pending, this`delivered
      ensures pending == old(pending)[..index] + old(pending)[index + 1..]
      ensures delivered == old(delivered) + [old(pending)[index]]
      ensures Reaches(old(Snapshot()), Snapshot()) && Inv(Snapshot())
    {
      hide Inv, Reaches;
      ghost var s := Snapshot();
      ReachesSelf(s);
      ReachesStep(s, s, Deliver(index));
      delivered := delivered + [pending[index]];
      pending := pending[..index] + pending[index + 1..];
      assert Snapshot() == Apply(s, Deliver(index));
      ReachesInv(s, Snapshot());
    }

    /** The wrapped callback for a terminal status: told only if this call retires the
        connection. */
    method OnTerminalStatus(user: User, connection: Generation, status: Status) returns (told: bool)
      requires Inv(Snapshot())
      modifies this
      ensures told <==> old(MayRetire(Snapshot(), user, connection))
      ensures Reaches(old(Snapshot()), Snapshot()) && Inv(Snapshot())
      ensures Made(old(Snapshot()), Snapshot(), if told then [Delivery(connection, status)] else [])
    {
      hide Inv, Reaches;
      told := RetirePeerConnection(user, connection, status);
      if told {
        ghost var s, t := old(Snapshot()), Snapshot();
        Tell(|pending| - 1);
        ReachesTrans(s, t, Snapshot());
      }
    }

    /** A new connection takes the user's place in the map; if its Init fails, it is retired as
        failed. */
    method ReplaceOrCreatePeerConnection(user: User, initFails: bool) returns (connection: Option<Generation>)
      requires Inv(Snapshot())
      modifies this
      ensures Reaches(old(Snapshot()), Snapshot()) && Inv(Snapshot())
      ensures connection.None? <==> initFails
      ensures !initFails ==> connection.value == old(nextGeneration) &&
                             peerConnectionMap == old(peerConnectionMap)[user := connection.value]
      ensures Made(old(Snapshot()), Snapshot(),
                   if initFails && old(iceWorkerRunning) then [Delivery(old(nextGeneration), Failed)] else [])
    {
      hide Inv, Reaches;
      ghost var s := Snapshot();
      ReachesSelf(s);
      ReachesStep(s, s, Replace(user));
      if user in peerConnectionMap {
        replaced := replaced + {peerConnectionMap[user]};
      }
      var made := nextGeneration;
      peerConnectionMap, nextGeneration := peerConnectionMap[user := made], made + 1;
      ghost var t := Snapshot();
      assert t == Apply(s, Replace(user));
      ReachesInv(s, t);
      connection := Some(made);
      if initFails {
        var told := OnTerminalStatus(user, made, Failed);
        ReachesTrans(s, t, Snapshot());
        connection := None;
      }
    }

    /** Every connection leaves the map in one critical section; then every user is told once
        that its connection is closed. */
    method ClearPeerConnections()
      requires Inv(Snapshot())
      modifies this
      ensures Reaches(old(Snapshot()), Snapshot()) && Inv(Snapshot())
      ensures peerConnectionMap == map[] && pending == old(pending) && old(delivered) <= delivered
      ensures iceWorkerRunning == old(iceWorkerRunning) && iceWorkerExited == old(iceWorkerExited)
      ensures forall u :: u in old(peerConnectionMap) ==> Delivery(old(peerConnectionMap)[u], Closed) in delivered
      ensures nextGeneration == old(nextGeneration) && replaced == old(replaced)
    {
      hide Inv, Reaches;
      ghost var s := Snapshot();
      var order := UsersOf(peerConnectionMap);
      var removed := peerConnectionMap;
      ghost var owed := ClosedFor(order, removed);
      ReachesSelf(s);
      ReachesStep(s, s, Clear(order));
      peerConnectionMap := map[];
      pending := pending + owed;
      ReachesInv(s, Snapshot());
      var i := 0;
      while i < |order|
        invariant 0 <= i <= |order| && peerConnectionMap == map[]
        invariant Reaches(s, Snapshot()) && Inv(Snapshot())
        invariant pending == old(pending) + owed[i..] && delivered == old(delivered) + owed[..i]
        invariant nextGeneration == s.created && replaced == s.replaced
        invariant iceWorkerRunning == s.running && iceWorkerExited == s.exited
      {
        ghost var t := Snapshot();
        Tell(|old(pending)|);
        ReachesTrans(s, t, Snapshot());
        i := i + 1;
      }
      forall u | u in removed
        ensures Delivery(removed[u], Closed) in delivered
      {
        var k :| 0 <= k < |order| && order[k] == u;
        assert delivered[|old(delivered)| + k] == owed[k];
      }
    }

    /** The users of the map in some order. */
    static method UsersOf(connections: map<User, Generation>) returns (order: seq<User>)
      ensures Lists(order, connections)
    {
      order := [];
      var rest := connections.Keys;
      while rest != {}
        invariant forall i, j :: 0 <= i < j < |order| ==> order[i] != order[j]
        invariant forall u :: u in connections <==> u in order || u in rest
        invariant forall u :: u in order ==> u !in rest
        decreases |rest|
      {
        var u :| u in rest;
        order, rest := order + [u], rest - {u};
      }
    }

    /** A leave message of a remote user. */
    method RemoveAfterLeave(user: User)
      requires Inv(Snapshot())
      modifies this
      ensures Reaches(old(Snapshot()), Snapshot()) && Inv(Snapshot())
      ensures peerConnectionMap == old(peerConnectionMap) - {user}
      ensures Made(old(Snapshot()), Snapshot(),
                   if user in old(peerConnectionMap) then [Delivery(old(peerConnectionMap)[user], Closed)] else [])
    {
      hide Inv, Reaches;
      ghost var s := Snapshot();
      ReachesSelf(s);
      if user in peerConnectionMap {
        ReachesStep(s, s, Leave(user));
        pending := pending + [Delivery(peerConnectionMap[user], Closed)];
        peerConnectionMap := peerConnectionMap - {user};
        ghost var t := Snapshot();
        ReachesInv(s, t);
        Tell(|pending| - 1);
        ReachesTrans(s, t, Snapshot());
      }
    }

    /** One round of the worker once it may go on: clean-up first, then leaving, then a
        message. */
    method WorkerRound() returns (cleaned: Option<Generation>)
      requires Inv(Snapshot()) && !iceWorkerExited && (terminalConnectionCleanupQueue != [] || !iceWorkerRunning)
      modifies this
      ensures Reaches(old(Snapshot()), Snapshot()) && Inv(Snapshot())
      ensures if old(terminalConnectionCleanupQueue) != [] then
                cleaned == Some(old(terminalConnectionCleanupQueue)[0]) && !iceWorkerExited &&
                terminalConnectionCleanupQueue == old(terminalConnectionCleanupQueue)[1..]
              else cleaned == None && iceWorkerExited && terminalConnectionCleanupQueue == []
      ensures pending == old(pending) && delivered == old(delivered) && replaced == old(replaced) &&
              peerConnectionMap == old(peerConnectionMap) && nextGeneration == old(nextGeneration) &&
              iceWorkerRunning == old(iceWorkerRunning) && enqueued == old(enqueued)
    {
      hide Inv, Reaches;
      ghost var s := Snapshot();
      ReachesSelf(s);
      if terminalConnectionCleanupQueue != [] {
        ReachesStep(s, s, WorkerTake);
        cleaned := Some(terminalConnectionCleanupQueue[0]);
        released := released + [terminalConnectionCleanupQueue[0]];
        terminalConnectionCleanupQueue := terminalConnectionCleanupQueue[1..];
      } else {
        ReachesStep(s, s, WorkerExit);
        cleaned := None;
        iceWorkerExited := true;
      }
      ReachesInv(s, Snapshot());
    }

    /** Clear the flag and join the worker. */
    method StopIceWorker()
      requires Inv(Snapshot())
      modifies this
      ensures Reaches(old(Snapshot()), Snapshot()) && Inv(Snapshot())
      ensures iceWorkerExited && terminalConnectionCleanupQueue == [] && released == enqueued
      ensures pending == old(pending) && delivered == old(delivered) && replaced == old(replaced) &&
              peerConnectionMap == old(peerConnectionMap) && nextGeneration == old(nextGeneration)
    {
      hide Inv, Reaches;
      ghost var s := Snapshot();
      ReachesSelf(s);
      ReachesStep(s, s, StopWorker);
      iceWorkerRunning := false;
      ReachesInv(s, Snapshot());
      while !iceWorkerExited
        invariant Reaches(s, Snapshot()) && Inv(Snapshot()) && !iceWorkerRunning
        invariant pending == old(pending) && delivered == old(delivered) && replaced == old(replaced) &&
                  peerConnectionMap == old(peerConnectionMap) && nextGeneration == old(nextGeneration)
        decreases !iceWorkerExited, |terminalConnectionCleanupQueue|
      {
        ghost var t := Snapshot();
        var _ := WorkerRound();
        ReachesTrans(s, t, Snapshot());
      }
      QueueIsDone(Snapshot());
    }

    /** Afterwards every generation ever made was replaced or its application was told exactly
        once, apart from what other threads are still to tell, and every retired connection was
        cleaned up. */
    method Destroy()
      requires Inv(Snapshot())
      modifies this
      ensures Reaches(old(Snapshot()), Snapshot()) && Inv(Snapshot())
      ensures peerConnectionMap == map[] && pending == old(pending)
      ensures iceWorkerExited && released == enqueued
      ensures forall g: nat :: g < nextGeneration ==>
                if g in replaced then Count(delivered, g) + Count(pending, g) == 0
                else Count(delivered, g) + Count(pending, g) == 1
    {
      hide Inv, Reaches;
      ghost var s := Snapshot();
      ClearPeerConnections();
      ghost var t := Snapshot();
      StopIceWorker();
      ReachesTrans(s, t, Snapshot());
      AllToldOnce(Snapshot());
    }
  }

  lemma ReachesTrans(s: State, t: State, u: State)
    requires Reaches(s, t) && Reaches(t, u)
    ensures Reaches(s, u)
  {
    var a :| IsRun(s, a) && After(s, a) == t;
    var b :| IsRun(t, b) && After(t, b) == u;
    RunsCompose(s, a, b);
  }

  lemma QueueIsDone(s: State)
    requires Inv(s) && s.exited
    ensures s.cleanup == [] && s.released == s.enqueued
  {
  }

  lemma AllToldOnce(s: State)
    requires Inv(s) && s.connections == map[]
    ensures forall g: nat :: g < s.created ==>
              if g in s.replaced then Count(s.delivered, g) + Count(s.pending, g) == 0
              else Count(s.delivered, g) + Count(s.pending, g) == 1
  {
    forall g: nat | g < s.created
      ensures Count(s.delivered, g) + Count(s.pending, g) == if g in s.replaced then 0 else 1
    {
      assert OneFate(s, g);
    }
  }
}
