/**
 From every state a run can reach, the worker alone empties the queue and
 answers every flush that was accepted, in the order they were accepted.
 */
module AnalyticsLiveness {
  import opened AnalyticsBatches
  import opened AnalyticsQueue
  import opened Sequences

  // ---------------------------------------------------------------- which flushes are answered

  /** The flush the worker answers once its batches are posted. */
  function Owed(w: Worker): seq<nat> {
    if w.Sending? && w.answer.Some? then [w.answer.value] else []
  }

  /** Answers are given, in order, to exactly the flushes taken from the queue; at most the last is owed. */
  ghost predicate Answered<R, F>(s: State<R, F>) {
    s.acked + Owed(s.worker) == FlushCalls(s.handled)
  }

  lemma StepKeepsAnswered<R, F>(red: Reducer<R, F>, s: State<R, F>, step: Step<F>)
    requires Answered(s)
    ensures Answered(Next(red, s, step))
  {
    var t := Next(red, s, step);
    match step
    case Receive(auth) =>
      if s.worker.Idle? && s.queue != [] {
        assert t.handled[..|t.handled| - 1] == s.handled;
        NothingAfter(s.acked);
      }
    case Finish =>
      if s.worker.Sending? && s.worker.rest == [] {
        NothingAfter(t.acked);
      }
    case _ =>
  }

  lemma {:induction false} EveryRunAnswers<R, F>(red: Reducer<R, F>, steps: seq<Step<F>>)
    ensures Answered(Run(red, steps))
  {
    if steps != [] {
      EveryRunAnswers(red, steps[..|steps| - 1]);
      StepKeepsAnswered(red, Run(red, steps[..|steps| - 1]), steps[|steps| - 1]);
    }
  }

  lemma {:induction false} FlushCallsMeaning<F>(hs: seq<(Msg<F>, Auth)>, k: nat, call: nat)
    requires k < |hs| && hs[k].0 == Flush(call)
    ensures call in FlushCalls(hs)
  {
    if k < |hs| - 1 {
      FlushCallsMeaning(hs[..|hs| - 1], k, call);
    }
  }

  // ---------------------------------------------------------------- draining

  predicate Drained<R, F>(s: State<R, F>) {
    s.worker.Idle? && s.queue == []
  }

  predicate IsWorkers<F>(step: Step<F>) {
    step.Receive? || step.Post? || step.Finish?
  }

  /** The one step the worker can take; `auth(k)` is the authentication found for the k-th message. */
  function Move<R, F>(s: State<R, F>, auth: nat -> Auth): Step<F> {
    if s.worker.Idle? then Receive(auth(|s.handled|)) else if s.worker.rest != [] then Post else Finish
  }

  function WorkLeft(w: Worker): nat {
    if w.Idle? then 0 else |w.rest| + 1
  }

  /** The worker's steps until nothing is left to do. */
  function Moves<R, F>(red: Reducer<R, F>, s: State<R, F>, auth: nat -> Auth): seq<Step<F>>
    decreases |s.queue|, WorkLeft(s.worker)
  {
    if s.worker.Idle? && s.queue == [] then []
    else [Move(s, auth)] + Moves(red, Next(red, s, Move(s, auth)), auth)
  }

  function From<R, F>(red: Reducer<R, F>, s: State<R, F>, steps: seq<Step<F>>): State<R, F>
    decreases |steps|
  {
    if steps == [] then s else From(red, Next(red, s, steps[0]), steps[1..])
  }

  lemma {:induction false} RunFrom<R, F>(red: Reducer<R, F>, steps: seq<Step<F>>, more: seq<Step<F>>)
    ensures Run(red, steps + more) == From(red, Run(red, steps), more)
    decreases |more|
  {
    if more == [] {
      NothingAfter(steps);
    } else {
      var next := steps + [more[0]];
      assert next[..|next| - 1] == steps;
      assert steps + more == next + more[1..];
      RunFrom(red, next, more[1..]);
    }
  }

  /** A worker step takes nothing back: what was accepted stays, and no one else moves. */
  lemma {:induction false} MovesDrain<R, F>(red: Reducer<R, F>, s: State<R, F>, auth: nat -> Auth)
    ensures var t := From(red, s, Moves(red, s, auth));
            Drained(t) && t.accepted == s.accepted && t.waiting == s.waiting && t.calls == s.calls
    ensures forall step :: step in Moves(red, s, auth) ==> IsWorkers(step)
    decreases |s.queue|, WorkLeft(s.worker)
  {
    if !(s.worker.Idle? && s.queue == []) {
      var next := Next(red, s, Move(s, auth));
      MovesDrain(red, next, auth);
      var moves := Moves(red, s, auth);
      assert moves[0] == Move(s, auth) && moves[1..] == Moves(red, next, auth);
    }
  }

  /**
   After any run, the worker's own steps empty the queue, post everything the reducer emitted for
   every accepted message, and answer every accepted flush in order.
   */
  lemma EveryRunDrains<R(!new), F(!new)>(red: Reducer<R, F>, steps: seq<Step<F>>, auth: nat -> Auth)
    ensures var more := Moves(red, Run(red, steps), auth);
            var s, t := Run(red, steps), Run(red, steps + more);
            && (forall step :: step in more ==> IsWorkers(step))
            && Drained(t) && t.accepted == s.accepted == Messages(t.handled)
            && t.posted == BatchesAfter(red, t.handled)
            && t.acked == FlushCalls(t.handled)
            && forall call :: Flush(call) in s.accepted ==> call in t.acked
  {
    var s := Run(red, steps);
    var more := Moves(red, s, auth);
    var t := Run(red, steps + more);
    RunFrom(red, steps, more);
    MovesDrain(red, s, auth);
    EveryRunKeeps(red, steps + more);
    EveryRunAnswers(red, steps + more);
    NothingAfter(t.acked);
    NothingAfter(t.posted);
    NothingAfter(Messages(t.handled));
    forall call | Flush(call) in s.accepted
      ensures call in t.acked
    {
      var k :| 0 <= k < |t.accepted| && t.accepted[k] == Flush(call);
      assert t.handled[k].0 == Flush(call);
      FlushCallsMeaning(t.handled, k, call);
    }
  }
}
