/**
 Connection generations and the ICE worker of PeerConnection, as a state machine whose
 steps are the critical sections of its threads. Any interleaving of steps is a run.

 A generation is one connection object; a user may have several in turn, at most one of
 them in the map.
 */
module LifecycleModel {
  import opened Options

  type User = string
  type Generation = nat

  /** The terminal ones among the connection states. */
  datatype Status = Disconnected | Failed | Closed

  datatype Delivery = Delivery(generation: Generation, status: Status)

  /** A thread inside RetirePeerConnection that has queued the connection and still holds the
      map lock. */
  datatype Retirement = Retirement(user: User, generation: Generation, status: Status)

  datatype State = State(
    connections: map<User, Generation>,  // peer_connection_map_
    created: nat,                        // generations made so far: 0 up to this
    running: bool,                       // ice_worker_running_
    exited: bool,                        // the worker has left its loop
    cleanup: seq<Generation>,            // terminal_connection_cleanup_queue_
    retiring: Option<Retirement>,
    pending: seq<Delivery>,              // status callbacks a thread is about to make
    delivered: seq<Delivery>,            // status callbacks made
    enqueued: seq<Generation>,           // everything ever put on the cleanup queue
    released: seq<Generation>,           // everything the worker has taken from it
    replaced: set<Generation>)           // taken over by a new generation of the same user

  const INITIAL := State(map[], 0, true, false, [], None, [], [], [], [], {})

  // ---------------------------------------------------------------------------
  // Steps

  datatype Step =
    | Replace(user: User)                                      // ReplaceOrCreatePeerConnection
    | RetireQueue(user: User, generation: Generation, status: Status)
    | RetireErase
    | Clear(order: seq<User>)                                  // ClearPeerConnections
    | Leave(user: User)                                        // a leave message
    | Deliver(index: nat)                                      // on_connection_status_
    | WorkerTake                                               // the worker takes a connection to clean up
    | WorkerExit
    | StopWorker                                               // StopIceWorker sets the flag
    | StartWorker                                              // StartIceWorker

  /** The first critical section of RetirePeerConnection does something only for a connection
      that is the current one of its user, and only while the worker is meant to run. */
  predicate MayRetire(s: State, user: User, g: Generation) {
    user in s.connections && s.connections[user] == g && s.running
  }

  /** `order` lists the users of the map, each once. */
  predicate Lists(order: seq<User>, connections: map<User, Generation>) {
    (forall i, j :: 0 <= i < j < |order| ==> order[i] != order[j]) &&
    (forall u :: u in order ==> u in connections) && (forall u :: u in connections ==> u in order)
  }

  /** Whether a step can be taken: steps on the map wait for the map lock. */
  predicate Enabled(s: State, step: Step) {
    match step
    case Replace(_) => s.retiring.None?
    case RetireQueue(_, _, _) => s.retiring.None?
    case RetireErase => s.retiring.Some?
    case Clear(order) => s.retiring.None? && Lists(order, s.connections)
    case Leave(_) => s.retiring.None?
    case Deliver(index) => index < |s.pending|
    case WorkerTake => !s.exited && s.cleanup != []
    case WorkerExit => !s.exited && s.cleanup == [] && !s.running
    case StopWorker => true
    case StartWorker => s.exited
  }

  function ClosedFor(order: seq<User>, connections: map<User, Generation>): (r: seq<Delivery>)
    requires forall u :: u in order ==> u in connections
    ensures |r| == |order| && forall i :: 0 <= i < |r| ==> r[i] == Delivery(connections[order[i]], Closed)
  {
    seq(|order|, i requires 0 <= i < |order| => Delivery(connections[order[i]], Closed))
  }

  function Apply(s: State, step: Step): State
    requires Enabled(s, step)
  {
    match step
    case Replace(user) =>
      s.(connections := s.connections[user := s.created], created := s.created + 1,
         replaced := if user in s.connections then s.replaced + {s.connections[user]} else s.replaced)
    case RetireQueue(user, g, status) =>
      if MayRetire(s, user, g) then
        s.(cleanup := s.cleanup + [g], enqueued := s.enqueued + [g], retiring := Some(Retirement(user, g, status)))
      else s
    case RetireErase =>
      var r := s.retiring.value;
      s.(connections := s.connections - {r.user}, retiring := None,
         pending := s.pending + [Delivery(r.generation, r.status)])
    case Clear(order) =>
      s.(connections := map[], pending := s.pending + ClosedFor(order, s.connections))
    case Leave(user) =>
      if user in s.connections then
        s.(connections := s.connections - {user},
           pending := s.pending + [Delivery(s.connections[user], Closed)])
      else s
    case Deliver(index) =>
      s.(pending := s.pending[..index] + s.pending[index + 1..], delivered := s.delivered + [s.pending[index]])
    case WorkerTake =>
      s.(cleanup := s.cleanup[1..], released := s.released + [s.cleanup[0]])
    case WorkerExit =>
      s.(exited := true)
    case StopWorker =>
      s.(running := false)
    case StartWorker =>
      s.(running := true, exited := false)
  }

  predicate IsRun(s: State, steps: seq<Step>)
    decreases |steps|
  {
    steps == [] || (Enabled(s, steps[0]) && IsRun(Apply(s, steps[0]), steps[1..]))
  }

  function After(s: State, steps: seq<Step>): State
    requires IsRun(s, steps)
    decreases |steps|
  {
    if steps == [] then s else After(Apply(s, steps[0]), steps[1..])
  }

  // ---------------------------------------------------------------------------
  // The fate of a generation

  predicate Live(s: State, g: Generation) {
    exists u :: u in s.connections && s.connections[u] == g
  }

  /** How many terminal status callbacks for `g` a list holds. */
  function Count(ds: seq<Delivery>, g: Generation): nat {
    if ds == [] then 0 else (if ds[0].generation == g then 1 else 0) + Count(ds[1..], g)
  }

  /** Terminal callbacks made or about to be made. */
  function Terminals(s: State, g: Generation): nat {
    Count(s.delivered, g) + Count(s.pending, g)
  }

  function Times(gs: seq<Generation>, g: Generation): nat {
    if gs == [] then 0 else (if gs[0] == g then 1 else 0) + Times(gs[1..], g)
  }

  function Truth(b: bool): nat {
    if b then 1 else 0
  }

  /** Every generation made has exactly one fate: it is the current one of a user, was replaced,
      or has one terminal callback. */
  predicate OneFate(s: State, g: Generation) {
    Truth(Live(s, g)) + Truth(g in s.replaced) + Terminals(s, g) == Truth(g < s.created)
  }

  /** A generation is on the cleanup queue at most once over the whole run, and never while it
      can still be retired. */
  predicate QueuedOnce(s: State, g: Generation) {
    Times(s.enqueued, g) <= 1 &&
    (Live(s, g) && !(s.retiring.Some? && s.retiring.value.generation == g) ==> Times(s.enqueued, g) == 0) &&
    (Times(s.enqueued, g) > 0 ==> g < s.created)
  }

  ghost predicate Inv(s: State) {
    (forall u, v :: u in s.connections && v in s.connections && s.connections[u] == s.connections[v] ==> u == v) &&
    (forall g :: OneFate(s, g)) &&
    (forall g :: QueuedOnce(s, g)) &&
    (s.retiring.Some? ==>
       s.retiring.value.user in s.connections && s.connections[s.retiring.value.user] == s.retiring.value.generation) &&
    s.enqueued == s.released + s.cleanup &&
    (s.exited ==> s.cleanup == [] && !s.running)
  }

  // ---------------------------------------------------------------------------
  // Counting

  lemma {:induction false} CountAppend(a: seq<Delivery>, b: seq<Delivery>, g: Generation)
    ensures Count(a + b, g) == Count(a, g) + Count(b, g)
  {
    if a == [] {
      assert a + b == b;
    } else {
      assert (a + b)[1..] == a[1..] + b;
      CountAppend(a[1..], b, g);
    }
  }

  lemma CountOne(a: seq<Delivery>, d: Delivery, g: Generation)
    ensures Count(a + [d], g) == Count(a, g) + Truth(d.generation == g)
  {
    CountAppend(a, [d], g);
    assert Count([d], g) == Truth(d.generation == g) + Count([d][1..], g);
  }

  lemma CountMove(pending: seq<Delivery>, index: nat, g: Generation)
    requires index < |pending|
    ensures Count(pending, g) ==
            Count(pending[..index] + pending[index + 1..], g) + Truth(pending[index].generation == g)
  {
    var a, b := pending[..index], pending[index + 1..];
    assert pending == (a + [pending[index]]) + b;
    CountAppend(a + [pending[index]], b, g);
    CountOne(a, pending[index], g);
    CountAppend(a, b, g);
  }

  lemma {:induction false} TimesAppend(a: seq<Generation>, x: Generation, g: Generation)
    ensures Times(a + [x], g) == Times(a, g) + Truth(x == g)
  {
    if a == [] {
      assert a + [x] == [x];
      assert Times([x], g) == Truth(x == g) + Times([x][1..], g);
    } else {
      assert (a + [x])[1..] == a[1..] + [x];
      TimesAppend(a[1..], x, g);
    }
  }

  /** Closing every listed connection counts once for each live generation. */
  lemma {:induction false} CountClosed(order: seq<User>, connections: map<User, Generation>, g: Generation)
    requires forall u :: u in order ==> u in connections
    requires forall i, j :: 0 <= i < j < |order| ==> order[i] != order[j]
    requires forall u, v :: u in connections && v in connections && connections[u] == connections[v] ==> u == v
    ensures Count(ClosedFor(order, connections), g) == Truth(exists u :: u in order && connections[u] == g)
  {
    if order != [] {
      var rest := order[1..];
      CountClosed(rest, connections, g);
      assert ClosedFor(order, connections)[1..] == ClosedFor(rest, connections);
      assert forall u :: u in order <==> u == order[0] || u in rest;
      if connections[order[0]] == g {
        assert forall u :: u in rest ==> connections[u] != g;
        assert order[0] in order && connections[order[0]] == g;
      } else if u :| u in order && connections[u] == g {
        assert u in rest;
      }
    }
  }
}
