/** Once-per-turn deduplication of app and plugin usage, with a capped key set. */
module AnalyticsDedupe {
  import opened Wrappers

  const MAX_KEYS := 4096

  /** A turn and the app or plugin used in it. */
  type Key = (string, string)

  datatype Kind = App | Plugin

  datatype PluginMetadata = PluginMetadata(pluginId: Option<string>, remoteId: Option<string>)
  {
    function KeyId(): Option<string> {
      if pluginId.Some? then pluginId else remoteId
    }
  }

  function KeyOf(turn: string, id: Option<string>): Option<Key> {
    if id.Some? then Some((turn, id.value)) else None
  }

  /** An app call without a key leaves the set alone; every other call first clears a full set. */
  predicate Clears(kind: Kind, keys: set<Key>, key: Option<Key>) {
    |keys| >= MAX_KEYS && (kind == Plugin || key.Some?)
  }

  function Kept(kind: Kind, keys: set<Key>, key: Option<Key>): set<Key> {
    if Clears(kind, keys, key) then {} else keys
  }

  function KeysAfter(kind: Kind, keys: set<Key>, key: Option<Key>): set<Key> {
    Kept(kind, keys, key) + if key.Some? then {key.value} else {}
  }

  predicate Answer(kind: Kind, keys: set<Key>, key: Option<Key>) {
    key.None? || key.value !in Kept(kind, keys, key)
  }

  /** The two guarded key sets of the queue. */
  class EmittedKeys {
    var appUsed: set<Key>
    var pluginUsed: set<Key>

    constructor ()
      ensures appUsed == {} && pluginUsed == {}
    {
      appUsed, pluginUsed := {}, {};
    }

    method ShouldEnqueueAppUsed(turn: string, connectorId: Option<string>) returns (answer: bool)
      modifies this
      ensures appUsed == KeysAfter(App, old(appUsed), KeyOf(turn, connectorId))
      ensures answer == Answer(App, old(appUsed), KeyOf(turn, connectorId))
      ensures pluginUsed == old(pluginUsed)
    {
      if connectorId.None? {
        return true;
      }
      if |appUsed| >= MAX_KEYS {
        appUsed := {};
      }
      answer := (turn, connectorId.value) !in appUsed;
      appUsed := appUsed + {(turn, connectorId.value)};
    }

    method ShouldEnqueuePluginUsed(turn: string, plugin: PluginMetadata) returns (answer: bool)
      modifies this
      ensures pluginUsed == KeysAfter(Plugin, old(pluginUsed), KeyOf(turn, plugin.KeyId()))
      ensures answer == Answer(Plugin, old(pluginUsed), KeyOf(turn, plugin.KeyId()))
      ensures appUsed == old(appUsed)
    {
      if |pluginUsed| >= MAX_KEYS {
        pluginUsed := {};
      }
      var id := plugin.KeyId();
      if id.None? {
        return true;
      }
      answer := (turn, id.value) !in pluginUsed;
      pluginUsed := pluginUsed + {(turn, id.value)};
    }
  }

  // ---------------------------------------------------------------- whole call sequences

  type Calls = seq<Option<Key>>

  function KeysOver(kind: Kind, calls: Calls): set<Key> {
    if calls == [] then {} else KeysAfter(kind, KeysOver(kind, calls[..|calls| - 1]), calls[|calls| - 1])
  }

  predicate ClearsAt(kind: Kind, calls: Calls, i: nat)
    requires i < |calls|
  {
    Clears(kind, KeysOver(kind, calls[..i]), calls[i])
  }

  /** The i-th call carried a key and was answered true. */
  predicate EmitsAt(kind: Kind, calls: Calls, i: nat)
    requires i < |calls|
  {
    calls[i].Some? && Answer(kind, KeysOver(kind, calls[..i]), calls[i])
  }

  function ClearCount(kind: Kind, calls: Calls): nat {
    if calls == [] then 0
    else ClearCount(kind, calls[..|calls| - 1]) + if ClearsAt(kind, calls, |calls| - 1) then 1 else 0
  }

  function EmitCount(kind: Kind, calls: Calls): nat {
    if calls == [] then 0
    else EmitCount(kind, calls[..|calls| - 1]) + if EmitsAt(kind, calls, |calls| - 1) then 1 else 0
  }

  function KeyEmitCount(kind: Kind, calls: Calls, key: Key): nat {
    if calls == [] then 0
    else KeyEmitCount(kind, calls[..|calls| - 1], key)
         + if EmitsAt(kind, calls, |calls| - 1) && calls[|calls| - 1].value == key then 1 else 0
  }

  /** Every emitted key is either still held or was one of the 4096 dropped by some clear. */
  lemma {:induction false} EmitsAreConserved(kind: Kind, calls: Calls, key: Key)
    ensures |KeysOver(kind, calls)| <= MAX_KEYS
    ensures EmitCount(kind, calls) == MAX_KEYS * ClearCount(kind, calls) + |KeysOver(kind, calls)|
    ensures KeyEmitCount(kind, calls, key) <= ClearCount(kind, calls) + if key in KeysOver(kind, calls) then 1 else 0
  {
    if calls != [] {
      var n := |calls| - 1;
      EmitsAreConserved(kind, calls[..n], key);
      var before, call := KeysOver(kind, calls[..n]), calls[n];
      assert calls[..n] == calls[..|calls| - 1];
      assert EmitsAt(kind, calls, n) ==> |KeysAfter(kind, before, call)| == |Kept(kind, before, call)| + 1;
      assert !EmitsAt(kind, calls, n) ==> KeysAfter(kind, before, call) == Kept(kind, before, call);
    }
  }

  /** No key is emitted more than once, plus once for every 4096 emissions. */
  lemma EmitBound(kind: Kind, calls: Calls, key: Key)
    ensures |KeysOver(kind, calls)| <= MAX_KEYS
    ensures KeyEmitCount(kind, calls, key) <= 1 + EmitCount(kind, calls) / MAX_KEYS
  {
    EmitsAreConserved(kind, calls, key);
    var c, e := ClearCount(kind, calls), EmitCount(kind, calls);
    assert c <= e / MAX_KEYS;
  }

  /** Between two emissions of the same key the set was cleared. */
  lemma RepeatsNeedAClear(kind: Kind, calls: Calls, i: nat, j: nat)
    requires i < j < |calls| && EmitsAt(kind, calls, i) && EmitsAt(kind, calls, j) && calls[i] == calls[j]
    ensures exists c :: i < c <= j && ClearsAt(kind, calls, c)
  {
    if !ClearsAt(kind, calls, j) && forall c :: i < c < j ==> !ClearsAt(kind, calls, c) {
      HeldUntilClear(kind, calls, i, j);
      assert false;
    }
  }

  lemma {:induction false} HeldUntilClear(kind: Kind, calls: Calls, i: nat, j: nat)
    requires i < j < |calls| && calls[i].Some?
    requires forall c :: i < c < j ==> !ClearsAt(kind, calls, c)
    ensures calls[i].value in KeysOver(kind, calls[..j])
  {
    assert calls[..j][..j - 1] == calls[..j - 1];
    if i < j - 1 {
      HeldUntilClear(kind, calls, i, j - 1);
      assert !ClearsAt(kind, calls, j - 1);
    }
  }
}
