/** Analytics events, the authentication filter and request batching. */
module AnalyticsBatches {
  import opened Sequences
  import opened Wrappers

  /** Events by what decides their delivery; `body` is everything else they carry. */
  datatype Event =
    | AcceptedLineFingerprints(body: string)
    | PluginUsed(plugin: Option<string>, body: string)
    | SkillInvocation(plugin: Option<string>, body: string)
    | McpToolCall(plugin: Option<string>, body: string)
    | ArtifactOperation(pluginId: string, body: string)
    | PluginMeasurement(pluginId: string, body: string)
    | OtherEvent(body: string)
  {
    predicate Isolated() {
      AcceptedLineFingerprints?
    }

    predicate ApiKeyOk() {
      match this
      case PluginUsed(p, _) => p.Some?
      case SkillInvocation(p, _) => p.Some?
      case McpToolCall(p, _) => p.Some?
      case ArtifactOperation(id, _) => id != ""
      case PluginMeasurement(id, _) => id != ""
      case _ => false
    }
  }

  datatype Auth = NoAuth | ApiKey | CodexBackend | OtherAuth

  function Retain(events: seq<Event>): seq<Event> {
    if events == [] then []
    else Retain(events[..|events| - 1]) + if events[|events| - 1].ApiKeyOk() then [events[|events| - 1]] else []
  }

  /** The events of one call that may be sent under an authentication. */
  function Sendable(auth: Auth, events: seq<Event>): seq<Event> {
    match auth
    case NoAuth => []
    case ApiKey => Retain(events)
    case CodexBackend => events
    case OtherAuth => []
  }

  lemma {:induction false} RetainConcat(a: seq<Event>, b: seq<Event>)
    ensures Retain(a + b) == Retain(a) + Retain(b)
  {
    if b == [] {
      NothingAfter(a);
      NothingAfter(Retain(a));
    } else {
      var n := |b| - 1;
      var last := if b[n].ApiKeyOk() then [b[n]] else [];
      assert (a + b)[..|a + b| - 1] == a + b[..n] && (a + b)[|a + b| - 1] == b[n];
      RetainConcat(a, b[..n]);
      Associate(Retain(a), Retain(b[..n]), last);
    }
  }

  lemma SendableConcat(auth: Auth, a: seq<Event>, b: seq<Event>)
    ensures Sendable(auth, a + b) == Sendable(auth, a) + Sendable(auth, b)
  {
    RetainConcat(a, b);
  }

  // ---------------------------------------------------------------- batching

  type Batch = seq<Event>

  function Flatten(batches: seq<Batch>): seq<Event> {
    if batches == [] then [] else batches[0] + Flatten(batches[1..])
  }

  lemma {:induction false} FlattenConcat(a: seq<Batch>, b: seq<Batch>)
    ensures Flatten(a + b) == Flatten(a) + Flatten(b)
  {
    if a == [] {
      assert a + b == b;
    } else {
      FlattenConcat(a[1..], b);
      assert (a + b)[0] == a[0] && (a + b)[1..] == a[1..] + b;
      Associate(a[0], Flatten(a[1..]), Flatten(b));
    }
  }

  predicate Plain(b: Batch) {
    forall e :: e in b ==> !e.Isolated()
  }

  /** Not empty, and an isolated event travels alone. */
  predicate WellFormed(b: Batch) {
    b != [] && (Plain(b) || |b| == 1)
  }

  /** Splits the events in order into well-formed batches, no two adjacent ones mergeable. */
  ghost predicate IsBatching(batches: seq<Batch>, events: seq<Event>) {
    && Flatten(batches) == events
    && (forall b :: b in batches ==> WellFormed(b))
    && (forall k :: 0 <= k < |batches| - 1 ==> !Plain(batches[k]) || !Plain(batches[k + 1]))
  }

  function PlainPrefix(events: seq<Event>): (n: nat)
    ensures n <= |events| && Plain(events[..n])
    ensures n < |events| ==> events[n].Isolated()
  {
    if events == [] || events[0].Isolated() then 0 else
      var n := PlainPrefix(events[1..]);
      assert events[..n + 1] == [events[0]] + events[1..][..n];
      n + 1
  }

  function Batches(events: seq<Event>): seq<Batch>
    decreases |events|
  {
    if events == [] then []
    else if events[0].Isolated() then [[events[0]]] + Batches(events[1..])
    else [events[..PlainPrefix(events)]] + Batches(events[PlainPrefix(events)..])
  }

  lemma {:induction false} BatchesAreBatching(events: seq<Event>)
    ensures IsBatching(Batches(events), events)
    decreases |events|
  {
    if events != [] {
      var n := if events[0].Isolated() then 1 else PlainPrefix(events);
      var rest := Batches(events[n..]);
      BatchesAreBatching(events[n..]);
      assert events[0].Isolated() ==> events[..1] == [events[0]];
      assert events == events[..n] + events[n..];
      if !events[0].Isolated() && n < |events| {
        assert rest[0] == [events[n]];
      }
      OneMoreBatch(events[..n], rest, events[n..]);
    }
  }

  lemma OneMoreBatch(first: Batch, rest: seq<Batch>, tail: seq<Event>)
    requires IsBatching(rest, tail) && WellFormed(first)
    requires rest != [] ==> !Plain(first) || !Plain(rest[0])
    ensures IsBatching([first] + rest, first + tail)
  {
    var all := [first] + rest;
    assert all[1..] == rest;
    forall k | 0 <= k < |all| - 1
      ensures !Plain(all[k]) || !Plain(all[k + 1])
    {
      if k > 0 {
        assert all[k] == rest[k - 1] && all[k + 1] == rest[k];
      }
    }
  }

  /** There is no other way to batch events: the result is fully determined. */
  lemma {:induction false} BatchingIsUnique(batches: seq<Batch>, events: seq<Event>)
    requires IsBatching(batches, events)
    ensures batches == Batches(events)
  {
    if batches != [] {
      var first, rest := batches[0], batches[1..];
      assert first in batches && WellFormed(first);
      assert events[..|first|] == first && events[|first|..] == Flatten(rest);
      assert IsBatching(rest, events[|first|..]) by {
        assert forall b :: b in rest ==> b in batches;
        forall k | 0 <= k < |rest| - 1
          ensures !Plain(rest[k]) || !Plain(rest[k + 1])
        {
          assert rest[k] == batches[k + 1] && rest[k + 1] == batches[k + 2];
        }
      }
      BatchingIsUnique(rest, events[|first|..]);
      assert events[0] == first[0];
      if events[0].Isolated() {
        assert !Plain(first) && first == [events[0]];
      } else {
        FirstBatchIsPrefix(batches, events);
      }
      assert batches == [first] + rest;
    }
  }

  /** The plain prefix is the one that ends at an isolated event or at the end. */
  lemma {:induction false} PlainPrefixIs(events: seq<Event>, n: nat)
    requires n <= |events| && Plain(events[..n]) && (n == |events| || events[n].Isolated())
    ensures PlainPrefix(events) == n
  {
    if n > 0 {
      assert events[0] == events[..n][0];
      assert forall e :: e in events[1..][..n - 1] ==> e in events[..n];
      PlainPrefixIs(events[1..], n - 1);
    }
  }

  lemma FirstBatchIsPrefix(batches: seq<Batch>, events: seq<Event>)
    requires IsBatching(batches, events) && batches != [] && events != [] && !events[0].Isolated()
    requires events[..|batches[0]|] == batches[0] && events[|batches[0]|..] == Flatten(batches[1..])
    ensures PlainPrefix(events) == |batches[0]|
  {
    var first := batches[0];
    assert first in batches && first[0] == events[0] && Plain(first) by {
      assert |first| == 1 ==> first == [first[0]];
    }
    if |batches| > 1 {
      var next := batches[1];
      assert next in batches && batches[1..][0] == next;
      assert !Plain(batches[0]) || !Plain(batches[1]);
      assert next == [next[0]] && next[0].Isolated();
      assert next[0] == events[|first|..][0];
    } else {
      assert batches[1..] == [];
    }
    PlainPrefixIs(events, |first|);
  }

  /** `track_event_request_batches`. */
  method TrackEventRequestBatches(events: seq<Event>) returns (batches: seq<Batch>)
    ensures batches == Batches(events)
    ensures IsBatching(batches, events)
  {
    batches := [];
    var current: Batch := [];
    assert [] + events[0..] == events;
    for k := 0 to |events|
      invariant Plain(current) && Pending(events, k, batches, current)
    {
      if events[k].Isolated() {
        IsolatedStep(events, k, batches, current);
        if current != [] {
          batches := batches + [current];
          current := [];
        } else {
          assert batches + [] == batches;
        }
        batches := batches + [[events[k]]];
      } else {
        PlainStep(events, k, batches, current);
        current := current + [events[k]];
      }
    }
    LastStep(events, batches, current);
    if current != [] {
      batches := batches + [current];
    }
    BatchesAreBatching(events);
  }

  /** What remains to be done: batch the current run together with the events not yet seen. */
  ghost predicate Pending(events: seq<Event>, k: nat, batches: seq<Batch>, current: Batch) {
    k <= |events| && Batches(events) == batches + Batches(current + events[k..])
  }

  lemma PlainStep(events: seq<Event>, k: nat, batches: seq<Batch>, current: Batch)
    requires k < |events| && Pending(events, k, batches, current)
    ensures Pending(events, k + 1, batches, current + [events[k]])
  {
    assert current + events[k..] == current + [events[k]] + events[k + 1..];
  }

  lemma IsolatedStep(events: seq<Event>, k: nat, batches: seq<Batch>, current: Batch)
    requires k < |events| && Plain(current) && events[k].Isolated() && Pending(events, k, batches, current)
    ensures Pending(events, k + 1, batches + (if current == [] then [] else [current]) + [[events[k]]], [])
  {
    var rest := events[k + 1..];
    assert current + events[k..] == current + [events[k]] + rest;
    BatchesAfterPlain(current, events[k], rest);
    assert [] + rest == rest;
    var done := if current == [] then [] else [current];
    Associate(batches, done + [[events[k]]], Batches(rest));
    Associate(batches, done, [[events[k]]]);
  }

  lemma LastStep(events: seq<Event>, batches: seq<Batch>, current: Batch)
    requires Plain(current) && Pending(events, |events|, batches, current)
    ensures Batches(events) == if current == [] then batches else batches + [current]
  {
    assert current + events[|events|..] == current;
    if current != [] {
      PlainIsOneBatch(current);
    }
  }

  lemma PlainIsOneBatch(current: Batch)
    requires Plain(current) && current != []
    ensures Batches(current) == [current]
  {
    assert Flatten([current]) == current by {
      assert [current][1..] == [];
    }
    BatchingIsUnique([current], current);
  }

  lemma BatchesAfterPlain(current: Batch, event: Event, rest: seq<Event>)
    requires Plain(current) && event.Isolated()
    ensures Batches(current + [event] + rest) == (if current == [] then [] else [current]) + [[event]] + Batches(rest)
  {
    var all := current + [event] + rest;
    if current == [] {
      assert all[0] == event && all[1..] == rest;
    } else {
      var n := |current|;
      assert all[n] == event && all[..n] == current;
      PlainPrefixIs(all, n);
      assert all[0] == current[0] && current[0] in current;
      assert all[..n] == current && all[n..] == [event] + rest;
      assert all[n..][0] == event && all[n..][1..] == rest;
    }
  }
}
