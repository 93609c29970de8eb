/**
 The analytics queue as a state machine: any number of droppable senders, flush
 callers waiting for room, and one worker that reduces, batches and posts. A run
 is any sequence of steps; a step that is not possible leaves the state alone.
 */
module AnalyticsQueue {
  import opened AnalyticsBatches
  import opened Wrappers

  const QUEUE_SIZE := 256

  datatype Msg<+F> = Fact(fact: F) | Flush(call: nat)

  /** The opaque reducer: what ingesting a fact or flushing emits. */
  datatype Reducer<!R, !F> = Reducer(init: R, ingest: (R, F) -> (R, seq<Event>), flush: R -> (R, seq<Event>))

  /** The worker waits for a message, or is posting batches before it answers a flush. */
  datatype Worker = Idle | Sending(rest: seq<Batch>, answer: Option<nat>)

  /** `accepted` and `handled` record what entered the channel and what the worker took out. */
  datatype State<+R, +F> = State(queue: seq<Msg<F>>, waiting: seq<nat>, calls: nat, worker: Worker, reducer: R,
                                 posted: seq<Batch>, acked: seq<nat>,
                                 accepted: seq<Msg<F>>, handled: seq<(Msg<F>, Auth)>)

  datatype Step<+F> =
    | TrySend(fact: F)
    | CallFlush
    | FlushSend(place: nat)
    | FlushGiveUp(place: nat)
    | Receive(auth: Auth)
    | Post
    | Finish

  function Start<R, F>(red: Reducer<R, F>): State<R, F> {
    State([], [], 0, Idle, red.init, [], [], [], [])
  }

  function Handle<R, F>(red: Reducer<R, F>, r: R, m: Msg<F>): (R, seq<Event>) {
    match m
    case Fact(f) => red.ingest(r, f)
    case Flush(_) => red.flush(r)
  }

  function Without<T>(xs: seq<T>, k: nat): seq<T>
    requires k < |xs|
  {
    xs[..k] + xs[k + 1..]
  }

  /**
   One step. A try_send succeeds when a slot is neither used nor promised to a waiting flush;
   slots are promised to waiting flushes first come, first served.
   */
  function Next<R, F>(red: Reducer<R, F>, s: State<R, F>, step: Step<F>): State<R, F> {
    match step
    case TrySend(f) =>
      if |s.queue| + |s.waiting| < QUEUE_SIZE
      then s.(queue := s.queue + [Fact(f)], accepted := s.accepted + [Fact(f)]) else s
    case CallFlush =>
      s.(waiting := s.waiting + [s.calls], calls := s.calls + 1)
    case FlushSend(k) =>
      if k < |s.waiting| && |s.queue| + k < QUEUE_SIZE
      then s.(queue := s.queue + [Flush(s.waiting[k])], accepted := s.accepted + [Flush(s.waiting[k])],
              waiting := Without(s.waiting, k)) else s
    case FlushGiveUp(k) =>
      if k < |s.waiting| then s.(waiting := Without(s.waiting, k)) else s
    case Receive(auth) =>
      if s.worker.Idle? && s.queue != [] then
        var (reducer, events) := Handle(red, s.reducer, s.queue[0]);
        s.(queue := s.queue[1..], reducer := reducer, handled := s.handled + [(s.queue[0], auth)],
           worker := Sending(Batches(Sendable(auth, events)),
                             if s.queue[0].Flush? then Some(s.queue[0].call) else None))
      else s
    case Post =>
      if s.worker.Sending? && s.worker.rest != []
      then s.(posted := s.posted + [s.worker.rest[0]], worker := s.worker.(rest := s.worker.rest[1..])) else s
    case Finish =>
      if s.worker.Sending? && s.worker.rest == []
      then s.(worker := Idle, acked := s.acked + if s.worker.answer.Some? then [s.worker.answer.value] else []) else s
  }

  function Run<R, F>(red: Reducer<R, F>, steps: seq<Step<F>>): State<R, F> {
    if steps == [] then Start(red) else Next(red, Run(red, steps[..|steps| - 1]), steps[|steps| - 1])
  }

  // ---------------------------------------------------------------- the sequential reference

  function ReducerAfter<R, F>(red: Reducer<R, F>, hs: seq<(Msg<F>, Auth)>): R {
    if hs == [] then red.init
    else Handle(red, ReducerAfter(red, hs[..|hs| - 1]), hs[|hs| - 1].0).0
  }

  /** The batches a worker alone would post for these messages, each under its authentication. */
  function BatchesAfter<R, F>(red: Reducer<R, F>, hs: seq<(Msg<F>, Auth)>): seq<Batch> {
    if hs == [] then [] else
      var before, last := hs[..|hs| - 1], hs[|hs| - 1];
      BatchesAfter(red, before) + Batches(Sendable(last.1, Handle(red, ReducerAfter(red, before), last.0).1))
  }

  /** Everything the reducer emits over these messages. */
  function EventsAfter<R, F>(red: Reducer<R, F>, hs: seq<(Msg<F>, Auth)>): seq<Event> {
    if hs == [] then [] else
      var before, last := hs[..|hs| - 1], hs[|hs| - 1];
      EventsAfter(red, before) + Handle(red, ReducerAfter(red, before), last.0).1
  }

  function Messages<F>(hs: seq<(Msg<F>, Auth)>): seq<Msg<F>> {
    seq(|hs|, k requires 0 <= k < |hs| => hs[k].0)
  }

  function Rest(w: Worker): seq<Batch> {
    if w.Idle? then [] else w.rest
  }

  /** `send_track_events`: the requests made for one message's events. */
  method SendTrackEvents(auth: Auth, events: seq<Event>) returns (requests: seq<Batch>)
    ensures requests == Batches(Sendable(auth, events))
  {
    if events == [] || auth == NoAuth {
      return [];
    }
    var sendable := events;
    if auth == ApiKey {
      sendable := RetainEvents(events);
    } else if auth != CodexBackend {
      return [];
    }
    if sendable == [] {
      return [];
    }
    requests := TrackEventRequestBatches(sendable);
  }

  method RetainEvents(events: seq<Event>) returns (kept: seq<Event>)
    ensures kept == Retain(events)
  {
    kept := [];
    for k := 0 to |events|
      invariant kept == Retain(events[..k])
    {
      assert events[..k + 1][..k] == events[..k];
      if events[k].ApiKeyOk() {
        kept := kept + [events[k]];
      }
    }
    assert events[..|events|] == events;
  }

  /** The worker's loop over the messages it receives, with the authentication found for each. */
  method WorkerLoop<R, F>(red: Reducer<R, F>, inbox: seq<(Msg<F>, Auth)>)
    returns (reducer: R, posted: seq<Batch>, acked: seq<nat>)
    ensures reducer == ReducerAfter(red, inbox) && posted == BatchesAfter(red, inbox)
    ensures acked == FlushCalls(inbox)
  {
    reducer, posted, acked := red.init, [], [];
    for k := 0 to |inbox|
      invariant reducer == ReducerAfter(red, inbox[..k]) && posted == BatchesAfter(red, inbox[..k])
      invariant acked == FlushCalls(inbox[..k])
    {
      assert inbox[..k + 1][..k] == inbox[..k];
      var (input, auth) := inbox[k];
      var events;
      if input.Flush? {
        reducer, events := red.flush(reducer).0, red.flush(reducer).1;
      } else {
        reducer, events := red.ingest(reducer, input.fact).0, red.ingest(reducer, input.fact).1;
      }
      var requests := SendTrackEvents(auth, events);
      posted := posted + requests;
      if input.Flush? {
        acked := acked + [input.call];
      }
    }
    assert inbox[..|inbox|] == inbox;
  }

  function FlushCalls<F>(hs: seq<(Msg<F>, Auth)>): seq<nat> {
    if hs == [] then []
    else FlushCalls(hs[..|hs| - 1]) + if hs[|hs| - 1].0.Flush? then [hs[|hs| - 1].0.call] else []
  }

  // ---------------------------------------------------------------- the invariant

  /** A flush was answered: it was handled, and all batches up to and including it were posted. */
  ghost predicate Barrier<R(!new), F(!new)>(red: Reducer<R, F>, s: State<R, F>, call: nat) {
    exists k :: 0 <= k < |s.handled| && s.handled[k].0 == Flush(call)
      && BatchesAfter(red, s.handled[..k + 1]) <= s.posted
  }

  ghost predicate Inv<R(!new), F(!new)>(red: Reducer<R, F>, s: State<R, F>) {
    && |s.queue| <= QUEUE_SIZE
    && s.accepted == Messages(s.handled) + s.queue
    && s.reducer == ReducerAfter(red, s.handled)
    && s.posted + Rest(s.worker) == BatchesAfter(red, s.handled)
    && (s.worker.Sending? && s.worker.answer.Some? ==>
          s.handled != [] && s.handled[|s.handled| - 1].0 == Flush(s.worker.answer.value))
    && (forall call :: call in s.acked ==> Barrier(red, s, call))
  }

  /** Every flush call enters the channel at most once. */
  ghost predicate Unlike<F(!new)>(waiting: seq<nat>, accepted: seq<Msg<F>>, calls: nat) {
    && (forall k :: 0 <= k < |waiting| ==> waiting[k] < calls)
    && (forall j, k :: 0 <= j < k < |waiting| ==> waiting[j] != waiting[k])
    && (forall j :: 0 <= j < |accepted| && accepted[j].Flush? ==>
        accepted[j].call < calls && accepted[j].call !in waiting)
    && (forall j, k :: 0 <= j < k < |accepted| && accepted[j].Flush? ==> accepted[j] != accepted[k])
  }

  ghost predicate FlushesDistinct<R, F(!new)>(s: State<R, F>) {
    Unlike(s.waiting, s.accepted, s.calls)
  }

  lemma PostedOnlyGrows<R(!new), F(!new)>(red: Reducer<R, F>, s: State<R, F>, t: State<R, F>)
    requires forall call :: call in s.acked ==> Barrier(red, s, call)
    requires s.posted <= t.posted && s.handled <= t.handled
    ensures forall call :: call in s.acked ==> Barrier(red, t, call)
  {
    forall call | call in s.acked
      ensures Barrier(red, t, call)
    {
      var k :| 0 <= k < |s.handled| && s.handled[k].0 == Flush(call)
        && BatchesAfter(red, s.handled[..k + 1]) <= s.posted;
      assert t.handled[..k + 1] == s.handled[..k + 1];
      assert t.handled[k] == s.handled[k];
    }
  }

  lemma ReceiveKeeps<R(!new), F(!new)>(red: Reducer<R, F>, s: State<R, F>, auth: Auth)
    requires Inv(red, s) && s.worker.Idle? && s.queue != []
    ensures Inv(red, Next(red, s, Receive(auth)))
  {
    var t := Next(red, s, Receive(auth));
    assert t.handled[..|t.handled| - 1] == s.handled;
    assert Messages(t.handled) == Messages(s.handled) + [s.queue[0]];
    assert s.accepted == Messages(t.handled) + t.queue;
    assert s.posted + [] == s.posted;
    PostedOnlyGrows(red, s, t);
  }

  lemma PostKeeps<R(!new), F(!new)>(red: Reducer<R, F>, s: State<R, F>)
    requires Inv(red, s) && s.worker.Sending? && s.worker.rest != []
    ensures Inv(red, Next(red, s, Post))
  {
    var t := Next(red, s, Post);
    assert t.posted + Rest(t.worker) == s.posted + Rest(s.worker);
    PostedOnlyGrows(red, s, t);
  }

  lemma FinishKeeps<R(!new), F(!new)>(red: Reducer<R, F>, s: State<R, F>)
    requires Inv(red, s) && s.worker.Sending? && s.worker.rest == []
    ensures Inv(red, Next(red, s, Finish))
  {
    var t := Next(red, s, Finish);
    assert s.posted + [] == s.posted;
    PostedOnlyGrows(red, s, t);
    if s.worker.answer.Some? {
      var call, k := s.worker.answer.value, |s.handled| - 1;
      assert t.handled[k].0 == Flush(call) && t.handled[..k + 1] == t.handled;
      assert Barrier(red, t, call);
      assert forall c :: c in t.acked <==> c in s.acked || c == call;
    }
  }

  lemma ClientKeeps<R(!new), F(!new)>(red: Reducer<R, F>, s: State<R, F>, step: Step<F>)
    requires Inv(red, s) && (step.TrySend? || step.CallFlush? || step.FlushSend? || step.FlushGiveUp?)
    ensures Inv(red, Next(red, s, step))
  {
    PostedOnlyGrows(red, s, Next(red, s, step));
  }

  /** Every step, by whichever party, keeps the invariant. */
  lemma StepKeeps<R(!new), F(!new)>(red: Reducer<R, F>, s: State<R, F>, step: Step<F>)
    requires Inv(red, s)
    ensures Inv(red, Next(red, s, step))
  {
    match step
    case TrySend(_) => ClientKeeps(red, s, step);
    case CallFlush => ClientKeeps(red, s, step);
    case FlushSend(_) => ClientKeeps(red, s, step);
    case FlushGiveUp(_) => ClientKeeps(red, s, step);
    case Receive(auth) => if s.worker.Idle? && s.queue != [] { ReceiveKeeps(red, s, auth); }
    case Post => if s.worker.Sending? && s.worker.rest != [] { PostKeeps(red, s); }
    case Finish => if s.worker.Sending? && s.worker.rest == [] { FinishKeeps(red, s); }
  }

  lemma {:induction false} EveryRunKeeps<R(!new), F(!new)>(red: Reducer<R, F>, steps: seq<Step<F>>)
    ensures Inv(red, Run(red, steps))
  {
    if steps == [] {
      assert Messages<F>([]) == [];
    } else {
      EveryRunKeeps(red, steps[..|steps| - 1]);
      StepKeeps(red, Run(red, steps[..|steps| - 1]), steps[|steps| - 1]);
    }
  }

  lemma WithoutMeaning(xs: seq<nat>, k: nat)
    requires k < |xs| && forall i, j :: 0 <= i < j < |xs| ==> xs[i] != xs[j]
    ensures forall x :: x in Without(xs, k) <==> x in xs && x != xs[k]
    ensures forall i, j :: 0 <= i < j < |xs| - 1 ==> Without(xs, k)[i] != Without(xs, k)[j]
  {
    var ys := Without(xs, k);
    assert forall i :: 0 <= i < |ys| ==> ys[i] == if i < k then xs[i] else xs[i + 1];
    forall x | x in xs && x != xs[k]
      ensures x in ys
    {
      var i :| 0 <= i < |xs| && xs[i] == x;
      assert x == ys[if i < k then i else i - 1];
    }
  }

  lemma GivingUpKeepsUnlike<F(!new)>(waiting: seq<nat>, accepted: seq<Msg<F>>, calls: nat, k: nat)
    requires Unlike(waiting, accepted, calls) && k < |waiting|
    ensures Unlike(Without(waiting, k), accepted, calls) && waiting[k] !in Without(waiting, k) && waiting[k] < calls
  {
    var left := Without(waiting, k);
    WithoutMeaning(waiting, k);
    assert forall i :: 0 <= i < |left| ==> left[i] in left;
  }

  lemma SendingKeepsUnlike<F(!new)>(waiting: seq<nat>, accepted: seq<Msg<F>>, calls: nat, k: nat)
    requires Unlike(waiting, accepted, calls) && k < |waiting|
    ensures Unlike(Without(waiting, k), accepted + [Flush(waiting[k])], calls)
  {
    GivingUpKeepsUnlike(waiting, accepted, calls, k);
    assert waiting[k] in waiting;
  }

  lemma StepKeepsDistinct<R, F(!new)>(red: Reducer<R, F>, s: State<R, F>, step: Step<F>)
    requires FlushesDistinct(s)
    ensures FlushesDistinct(Next(red, s, step))
  {
    match step
    case FlushSend(k) => if k < |s.waiting| { SendingKeepsUnlike(s.waiting, s.accepted, s.calls, k); }
    case FlushGiveUp(k) => if k < |s.waiting| { GivingUpKeepsUnlike(s.waiting, s.accepted, s.calls, k); }
    case _ =>
  }

  lemma {:induction false} FlushesStayDistinct<R, F(!new)>(red: Reducer<R, F>, steps: seq<Step<F>>)
    ensures FlushesDistinct(Run(red, steps))
  {
    if steps != [] {
      FlushesStayDistinct(red, steps[..|steps| - 1]);
      StepKeepsDistinct(red, Run(red, steps[..|steps| - 1]), steps[|steps| - 1]);
    }
  }

  // ---------------------------------------------------------------- what every run delivers

  lemma {:induction false} ReferenceBatches<R(!new), F(!new)>(red: Reducer<R, F>, hs: seq<(Msg<F>, Auth)>)
    ensures forall b :: b in BatchesAfter(red, hs) ==> WellFormed(b)
  {
    if hs != [] {
      var before, last := hs[..|hs| - 1], hs[|hs| - 1];
      ReferenceBatches(red, before);
      BatchesAreBatching(Sendable(last.1, Handle(red, ReducerAfter(red, before), last.0).1));
    }
  }

  lemma {:induction false} ReferenceEvents<R(!new), F(!new)>(red: Reducer<R, F>, hs: seq<(Msg<F>, Auth)>, auth: Auth)
    requires forall h :: h in hs ==> h.1 == auth
    ensures Flatten(BatchesAfter(red, hs)) == Sendable(auth, EventsAfter(red, hs))
  {
    if hs != [] {
      var before, last := hs[..|hs| - 1], hs[|hs| - 1];
      assert forall h :: h in before ==> h in hs;
      assert last in hs;
      ReferenceEvents(red, before, auth);
      var events := Handle(red, ReducerAfter(red, before), last.0).1;
      BatchesAreBatching(Sendable(auth, events));
      FlattenConcat(BatchesAfter(red, before), Batches(Sendable(auth, events)));
      SendableConcat(auth, EventsAfter(red, before), events);
    }
  }

  /**
   In every run the worker has posted, in order, a prefix of what a lone worker would post for the
   accepted messages, is about to post the rest of it, and the messages it has not taken are still
   queued in order. No posted batch is empty and isolated events travel alone.
   */
  lemma RunsDeliverInOrder<R(!new), F(!new)>(red: Reducer<R, F>, steps: seq<Step<F>>)
    ensures var s := Run(red, steps);
            && |s.queue| <= QUEUE_SIZE
            && Messages(s.handled) <= s.accepted && s.accepted[|s.handled|..] == s.queue
            && s.posted <= BatchesAfter(red, s.handled)
            && (s.worker.Idle? ==> s.posted == BatchesAfter(red, s.handled))
            && (forall b :: b in s.posted ==> WellFormed(b))
  {
    var s := Run(red, steps);
    EveryRunKeeps(red, steps);
    ReferenceBatches(red, s.handled);
    assert s.accepted[|s.handled|..] == s.queue;
    assert s.posted + [] == s.posted;
    assert forall b :: b in s.posted ==> b in s.posted + Rest(s.worker);
  }

  /**
   With one authentication throughout, an idle worker has posted exactly the sendable output of a sequential
   reducer.
   */
  lemma RunsDeliverTheReducer<R(!new), F(!new)>(red: Reducer<R, F>, steps: seq<Step<F>>, auth: Auth)
    requires forall step :: step in steps && step.Receive? ==> step.auth == auth
    ensures var s := Run(red, steps);
            && Flatten(s.posted + Rest(s.worker)) == Sendable(auth, EventsAfter(red, s.handled))
            && (s.worker.Idle? && s.queue == [] ==>
                  Messages(s.handled) == s.accepted && Flatten(s.posted) == Sendable(auth, EventsAfter(red, s.handled)))
  {
    var s := Run(red, steps);
    EveryRunKeeps(red, steps);
    HandledUnder(red, steps, auth);
    ReferenceEvents(red, s.handled, auth);
    assert s.posted + [] == s.posted;
  }

  lemma {:induction false} HandledUnder<R(!new), F(!new)>(red: Reducer<R, F>, steps: seq<Step<F>>, auth: Auth)
    requires forall step :: step in steps && step.Receive? ==> step.auth == auth
    ensures forall h :: h in Run(red, steps).handled ==> h.1 == auth
  {
    if steps != [] {
      var n := |steps| - 1;
      assert forall step :: step in steps[..n] ==> step in steps;
      assert steps[n] in steps;
      HandledUnder(red, steps[..n], auth);
    }
  }

  /**
   A flush is acknowledged only when it entered the channel, at one place, and the batches of
   everything accepted up to that place have been posted.
   */
  lemma FlushIsABarrier<R(!new), F(!new)>(red: Reducer<R, F>, steps: seq<Step<F>>, call: nat)
    requires call in Run(red, steps).acked
    ensures var s := Run(red, steps);
            exists k :: 0 <= k < |s.handled| <= |s.accepted| && s.accepted[..k + 1] == Messages(s.handled[..k + 1])
                        && s.accepted[k] == Flush(call)
                        && (forall j :: 0 <= j < |s.accepted| && s.accepted[j] == Flush(call) ==> j == k)
                        && BatchesAfter(red, s.handled[..k + 1]) <= s.posted
  {
    var s := Run(red, steps);
    EveryRunKeeps(red, steps);
    FlushesStayDistinct(red, steps);
    assert Barrier(red, s, call);
    var k :| 0 <= k < |s.handled| && s.handled[k].0 == Flush(call) && BatchesAfter(red, s.handled[..k + 1]) <= s.posted;
    assert s.accepted[..k + 1] == Messages(s.handled[..k + 1]);
    assert s.accepted[k] == Messages(s.handled)[k];
  }
}
