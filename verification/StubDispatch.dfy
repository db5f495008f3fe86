/**
 The stub that serves redirected transactions: libbinder reads a buffer, dispatches its
 transactions one after another, nested ones while an earlier one is still being served, and
 the stub takes what each asked for from the front of the thread's queue.
 */
module StubDispatch {
  import opened Common
  import opened BinderStream

  /** Who serves a dispatched transaction: its own target, or the stub with what it popped. */
  datatype Service = Direct(t: Transaction) | Stub(popped: Option<Origin>)

  /** libbinder on one thread: a read is possible only once the stream is consumed; calls nest. */
  datatype Event = Read(buffer: Bytes, h: Hooked) | Dispatch | Return

  /** The undispatched part of the stream, the hook's queue, and the calls being served, innermost last. */
  datatype Thread = Thread(stream: seq<Transaction>, queue: seq<Origin>, serving: seq<Service>)

  const IDLE_THREAD := Thread([], [], [])

  function Pop(queue: seq<Origin>): (Option<Origin>, seq<Origin>) {
    if queue == [] then (None, []) else (Some(queue[0]), queue[1..])
  }

  /** One event, or nothing if libbinder cannot do it now; `stub` is the stub's cookie. */
  function Act(thread: Thread, stub: UInt64, e: Event): Option<Thread> {
    match e
    case Read(buffer, h) =>
      if thread.stream != [] then None
      else Some(thread.(stream := Transactions(Rewrite(buffer, 0, h), 0),
                        queue := thread.queue + Origins(h, Transactions(buffer, 0))))
    case Dispatch =>
      if thread.stream == [] then None
      else if thread.stream[0].cookie != stub then
        Some(thread.(stream := thread.stream[1..], serving := thread.serving + [Direct(thread.stream[0])]))
      else
        var (popped, rest) := Pop(thread.queue);
        Some(Thread(thread.stream[1..], rest, thread.serving + [Stub(popped)]))
    case Return =>
      if thread.serving == [] then None else Some(thread.(serving := thread.serving[..|thread.serving| - 1]))
  }

  function Run(thread: Thread, stub: UInt64, events: seq<Event>): Option<Thread>
    decreases |events|
  {
    if events == [] then Some(thread)
    else
      var next :- Act(thread, stub, events[0]);
      Run(next, stub, events[1..])
  }

  // ---- the intended behaviour: every transaction keeps its own origin ----

  datatype Arrival = Arrival(t: Transaction, origin: Option<Origin>)

  datatype Ideal = Ideal(pending: seq<Arrival>, serving: seq<Service>)

  function Arrivals(h: Hooked, ts: seq<Transaction>): seq<Arrival> {
    if ts == [] then [] else [Arrival(ts[0], OriginOf(h, ts[0]))] + Arrivals(h, ts[1..])
  }

  function Serve(a: Arrival): Service {
    if a.origin.Some? then Stub(a.origin) else Direct(a.t)
  }

  function ActIdeal(ideal: Ideal, e: Event): Option<Ideal> {
    match e
    case Read(buffer, h) =>
      if ideal.pending != [] then None else Some(ideal.(pending := Arrivals(h, Transactions(buffer, 0))))
    case Dispatch =>
      if ideal.pending == [] then None
      else Some(Ideal(ideal.pending[1..], ideal.serving + [Serve(ideal.pending[0])]))
    case Return =>
      if ideal.serving == [] then None else Some(ideal.(serving := ideal.serving[..|ideal.serving| - 1]))
  }

  function RunIdeal(ideal: Ideal, events: seq<Event>): Option<Ideal>
    decreases |events|
  {
    if events == [] then Some(ideal)
    else
      var next :- ActIdeal(ideal, events[0]);
      RunIdeal(next, events[1..])
  }

  // ---- the stub serves as intended ----

  /** The origins of the redirected arrivals, in order. */
  function Redirected(arrivals: seq<Arrival>): seq<Origin> {
    if arrivals == [] then []
    else (match arrivals[0].origin case Some(o) => [o] case None => []) + Redirected(arrivals[1..])
  }

  /** What the stream holds for an arrival: the stub's cookie if it is redirected, else the transaction itself. */
  ghost predicate Carries(t: Transaction, a: Arrival, stub: UInt64) {
    if a.origin.Some? then t.cookie == stub else t == a.t && t.cookie != stub
  }

  /** The queue is exactly the redirected transactions not yet dispatched, in stream order. */
  ghost predicate InStep(thread: Thread, ideal: Ideal, stub: UInt64) {
    && thread.serving == ideal.serving
    && |thread.stream| == |ideal.pending|
    && (forall i :: 0 <= i < |thread.stream| ==> Carries(thread.stream[i], ideal.pending[i], stub))
    && thread.queue == Redirected(ideal.pending)
  }

  /** The hook redirects to this stub, and nothing else addresses it: its reference is never handed out. */
  ghost predicate Genuine(e: Event, stub: UInt64) {
    e.Read? ==>
      && e.h.stubCookie == stub
      && forall t :: t in Transactions(e.buffer, 0) && OriginOf(e.h, t).None? ==> t.cookie != stub
  }

  lemma {:induction false} ArrivalsMatch(h: Hooked, ts: seq<Transaction>)
    requires forall t :: t in ts && OriginOf(h, t).None? ==> t.cookie != h.stubCookie
    ensures var arrivals, delivered := Arrivals(h, ts), DeliveredAll(h, ts);
            && Redirected(arrivals) == Origins(h, ts)
            && |delivered| == |arrivals|
            && forall i :: 0 <= i < |delivered| ==> Carries(delivered[i], arrivals[i], h.stubCookie)
  {
    if ts != [] {
      var rest := ts[1..];
      assert forall t :: t in rest ==> t in ts;
      ArrivalsMatch(h, rest);
      assert Carries(Delivered(h, ts[0]), Arrival(ts[0], OriginOf(h, ts[0])), h.stubCookie);
      forall i | 0 <= i < |DeliveredAll(h, ts)|
        ensures Carries(DeliveredAll(h, ts)[i], Arrivals(h, ts)[i], h.stubCookie)
      {
        if i > 0 { assert Carries(DeliveredAll(h, rest)[i - 1], Arrivals(h, rest)[i - 1], h.stubCookie); }
      }
    }
  }

  lemma EventKeepsStep(thread: Thread, ideal: Ideal, stub: UInt64, e: Event)
    requires InStep(thread, ideal, stub) && Genuine(e, stub)
    ensures Act(thread, stub, e).Some? <==> ActIdeal(ideal, e).Some?
    ensures Act(thread, stub, e).Some? ==>
              InStep(Act(thread, stub, e).value, ActIdeal(ideal, e).value, stub)
  {
    match e
    case Read(buffer, h) =>
      FramingKept(buffer, 0, h);
      ArrivalsMatch(h, Transactions(buffer, 0));
    case Dispatch =>
      if thread.stream != [] {
        var rest := ideal.pending[1..];
        assert Carries(thread.stream[0], ideal.pending[0], stub);
        forall i | 0 <= i < |rest| ensures Carries(thread.stream[1..][i], rest[i], stub) {
          assert Carries(thread.stream[i + 1], ideal.pending[i + 1], stub);
        }
        assert Redirected(ideal.pending)
            == (match ideal.pending[0].origin case Some(o) => [o] case None => []) + Redirected(rest);
      }
    case Return =>
  }

  /**
   Over every run, nested calls included, the stub serves each redirected transaction with the
   target and code that very transaction had, everything else goes to its own target, and the
   queue holds exactly the origins of the redirected transactions not yet dispatched.
   */
  lemma {:induction false} StubServesItsOwn(thread: Thread, ideal: Ideal, stub: UInt64, events: seq<Event>)
    requires InStep(thread, ideal, stub) && forall e :: e in events ==> Genuine(e, stub)
    ensures Run(thread, stub, events).Some? <==> RunIdeal(ideal, events).Some?
    ensures Run(thread, stub, events).Some? ==>
              InStep(Run(thread, stub, events).value, RunIdeal(ideal, events).value, stub)
    decreases |events|
  {
    if events != [] {
      assert events[0] in events;
      EventKeepsStep(thread, ideal, stub, events[0]);
      if Act(thread, stub, events[0]).Some? {
        var rest := events[1..];
        assert forall e :: e in rest ==> e in events;
        StubServesItsOwn(Act(thread, stub, events[0]).value, ActIdeal(ideal, events[0]).value, stub, rest);
      }
    }
  }

  // ---- which calls are taken, and what of them is served ----

  /** A user call to a live binder that is registered for its code, or for all codes. */
  predicate Registered(h: Hooked, t: Transaction) {
    && t.ptr != 0 && t.ptr in h.live && t.code <= 0x00ff_ffff
    && t.cookie in h.registry && (|h.registry[t.cookie]| == 0 || t.code in h.registry[t.cookie])
  }

  /** The module's own entry: one code, from root, to whatever binder. */
  predicate Backdoor(t: Transaction) {
    t.ptr != 0 && t.code == 0xdead_beef && t.euid == 0
  }

  /** How a call is to be served. */
  function ServedAs(h: Hooked, t: Transaction): Service {
    if Backdoor(t) then Stub(Some(Origin(0xdead_beef, None)))
    else if Registered(h, t) then Stub(Some(Origin(t.code, Some(t.cookie))))
    else Direct(t)
  }

  /**
   A call that arrives alone reaches libbinder addressed to the stub exactly if it is the backdoor or
   registered, and is then served with its own code and its own binder; any other arrives as it was.
   */
  lemma ServedExactly(buffer: Bytes, h: Hooked, t: Transaction)
    requires Transactions(buffer, 0) == [t] && (Backdoor(t) || Registered(h, t) || t.cookie != h.stubCookie)
    ensures Transactions(Rewrite(buffer, 0, h), 0)
         == [if Backdoor(t) || Registered(h, t) then Transaction(h.stubPtr, h.stubCookie, 0xdead_beef, t.euid) else t]
    ensures Run(IDLE_THREAD, h.stubCookie, [Read(buffer, h), Dispatch]) == Some(Thread([], [], [ServedAs(h, t)]))
  {
    FramingKept(buffer, 0, h);
    assert [t][1..] == [];
    assert DeliveredAll(h, [t]) == [Delivered(h, t)] && Origins(h, [t]) == match OriginOf(h, t) case Some(o) => [o] case None => [];
    var read := Act(IDLE_THREAD, h.stubCookie, Read(buffer, h)).value;
    assert read == Thread([Delivered(h, t)], Origins(h, [t]), []);
    DispatchesAlone(read, h, t);
    TwoEvents(IDLE_THREAD, h.stubCookie, Read(buffer, h), Dispatch);
  }

  lemma DispatchesAlone(read: Thread, h: Hooked, t: Transaction)
    requires read == Thread([Delivered(h, t)], match OriginOf(h, t) case Some(o) => [o] case None => [], [])
    requires Backdoor(t) || Registered(h, t) || t.cookie != h.stubCookie
    ensures Act(read, h.stubCookie, Dispatch) == Some(Thread([], [], [ServedAs(h, t)]))
  {
    assert read.stream[1..] == [] && forall served: Service :: read.serving + [served] == [served];
    if OriginOf(h, t).Some? { assert read.queue[1..] == []; }
  }

  lemma TwoEvents(thread: Thread, stub: UInt64, first: Event, second: Event)
    requires Act(thread, stub, first).Some?
    ensures Run(thread, stub, [first, second]) == Act(Act(thread, stub, first).value, stub, second)
  {
    var next := Act(thread, stub, first).value;
    assert [first, second][1..] == [second] && [second][1..] == [];
    assert Run(next, stub, [second]) == Act(next, stub, second);
  }

  /** In a buffer of many, each is queued, or not, as if it were alone. */
  lemma {:induction false} QueuedExactly(h: Hooked, ts: seq<Transaction>)
    ensures Origins(h, ts) == Stubbed(h, ts)
  {
    if ts != [] {
      QueuedExactly(h, ts[1..]);
      assert OriginOf(h, ts[0]) == match ServedAs(h, ts[0]) case Stub(origin) => origin case Direct(_) => None;
    }
  }

  /** What the calls that are served by the stub are served as. */
  function Stubbed(h: Hooked, ts: seq<Transaction>): seq<Origin> {
    if ts == [] then []
    else
      var served := ServedAs(h, ts[0]);
      (if served.Stub? && served.popped.Some? then [served.popped.value] else []) + Stubbed(h, ts[1..])
  }

  /** So a run from an idle thread never leaves the stub without the transaction it serves. */
  lemma StubIsNeverLost(stub: UInt64, events: seq<Event>, service: Service)
    requires forall e :: e in events ==> Genuine(e, stub)
    requires var end := Run(IDLE_THREAD, stub, events); end.Some? && service in end.value.serving
    ensures service != Stub(None)
  {
    StubServesItsOwn(IDLE_THREAD, Ideal([], []), stub, events);
    NeverLost(Ideal([], []), events);
  }

  lemma {:induction false} NeverLost(ideal: Ideal, events: seq<Event>)
    requires Stub(None) !in ideal.serving && RunIdeal(ideal, events).Some?
    ensures Stub(None) !in RunIdeal(ideal, events).value.serving
    decreases |events|
  {
    if events != [] { NeverLost(ActIdeal(ideal, events[0]).value, events[1..]); }
  }

  /** Were the stub addressed directly, its service would take the origin of another transaction. */
  lemma StrayCallStealsOrigin(stub: UInt64, stray: Transaction, redirected: Transaction, origin: Origin)
    requires stray.cookie == stub && redirected.cookie == stub
    ensures var thread := Thread([stray, redirected], [origin], []);
            var end := Run(thread, stub, [Dispatch, Dispatch]);
            end.Some? && end.value.serving == [Stub(Some(origin)), Stub(None)]
  {
    var thread := Thread([stray, redirected], [origin], []);
    var one := Act(thread, stub, Dispatch).value;
    assert one == Thread([redirected], [], [Stub(Some(origin))]);
    assert Act(one, stub, Dispatch).value == Thread([], [], [Stub(Some(origin)), Stub(None)]);
    assert [Dispatch, Dispatch][1..] == [Dispatch];
  }

  // ---- the stub ----

  datatype StubResult = UnknownTransaction | BackdoorGranted | DeadObject | Forward(target: UInt64, code: UInt32)

  /** BinderStub::onTransact up to the call of the target; `alive` are the targets that can still be promoted. */
  method OnTransact(thread: BinderThread, hasReply: bool, alive: set<UInt64>) returns (r: StubResult)
    modifies thread
    ensures var (popped, rest) := Pop(old(thread.queue));
            && thread.queue == rest
            && match popped
               case None => r == UnknownTransaction
               case Some(Origin(code, Some(target))) => r == if target in alive then Forward(target, code) else DeadObject
               case Some(Origin(code, None)) => r == if hasReply && code == BACKDOOR_CODE then BackdoorGranted else DeadObject
  {
    if |thread.queue| == 0 { return UnknownTransaction; }
    var info := thread.queue[0];
    thread.queue := thread.queue[1..];
    if info.target.None? && info.code == BACKDOOR_CODE && hasReply { return BackdoorGranted; }
    if info.target.Some? && info.target.value in alive { return Forward(info.target.value, info.code); }
    return DeadObject;
  }
}
