/**
 The legacy MCP handshake of the fixture server, over stdio and over HTTP
 sessions served by concurrent request threads.
 */
module FixtureSessions {
  import opened Wrappers

  /** The methods the handshake distinguishes; `Feature` is any other text. */
  datatype Verb = NotText | Initialize | Initialized | Discover | Feature(name: string)

  /** The params field; a missing one counts as an empty object. */
  datatype Params = NotObject | Object(versionText: bool)

  datatype Message = Message(version2: bool, verb: Verb, hasId: bool, params: Params, body: string)

  /** What a line or request body parses to. */
  datatype Input = NotJson | NotAnObject | Parsed(message: Message)

  datatype Reply = NoReply | Accepted | Result(body: string) | Error(code: int)

  /** `ResponsePlan`: notifications to send first, and the reply. */
  datatype Plan = Plan(notifications: seq<string>, reply: Reply)

  const PARSE_ERROR := -32700
  const INVALID_REQUEST := -32600
  const METHOD_NOT_FOUND := -32601
  const INVALID_PARAMS := -32602

  datatype Handshake = Handshake(seen: bool, initialized: bool)

  const NEW: Handshake := Handshake(false, false)

  /** What the server does with a feature request once initialized; arbitrary. */
  type Features = Message -> Plan

  function Only(reply: Reply): Plan {
    Plan([], reply)
  }

  predicate WellFormed(m: Message) {
    m.version2 && !m.verb.NotText? && m.params.Object?
  }

  predicate ValidInitialize(m: Message) {
    WellFormed(m) && m.hasId && m.verb.Initialize? && m.params.versionText
  }

  predicate InitializedNotification(m: Message) {
    WellFormed(m) && !m.hasId && m.verb.Initialized?
  }

  /** `ProtocolServer.handle` in a legacy mode. */
  function Handle(features: Features, m: Message, st: Handshake): (Handshake, Plan) {
    if !m.version2 || m.verb.NotText? then (st, Only(Error(INVALID_REQUEST)))
    else if m.params.NotObject? then (st, Only(if m.hasId then Error(INVALID_PARAMS) else NoReply))
    else if !m.hasId then (if m.verb.Initialized? && st.seen then st.(initialized := true) else st, Only(Accepted))
    else match m.verb
      case Initialize =>
        if m.params.versionText then (st.(seen := true), Only(Result("initialize")))
        else (st, Only(Error(INVALID_PARAMS)))
      case Discover => (st, Only(Error(METHOD_NOT_FOUND)))
      case _ => (st, if st.initialized then features(m) else Only(Error(INVALID_REQUEST)))
  }

  // ---------------------------------------------------------------- one connection

  class ConnectionState {
    var initializeSeen: bool
    var initialized: bool

    constructor ()
      ensures Value() == NEW
    {
      initializeSeen, initialized := false, false;
    }

    function Value(): Handshake
      reads this
    {
      Handshake(initializeSeen, initialized)
    }

    method HandleMessage(features: Features, m: Message) returns (plan: Plan)
      modifies this
      ensures (Value(), plan) == Handle(features, m, old(Value()))
    {
      if !m.version2 || m.verb.NotText? {
        return Only(Error(INVALID_REQUEST));
      }
      if m.params.NotObject? {
        return Only(if m.hasId then Error(INVALID_PARAMS) else NoReply);
      }
      if !m.hasId {
        if m.verb.Initialized? && initializeSeen {
          initialized := true;
        }
        return Only(Accepted);
      }
      if m.verb.Initialize? {
        if !m.params.versionText {
          return Only(Error(INVALID_PARAMS));
        }
        initializeSeen := true;
        return Only(Result("initialize"));
      }
      if m.verb.Discover? {
        return Only(Error(METHOD_NOT_FOUND));
      }
      if !initialized {
        return Only(Error(INVALID_REQUEST));
      }
      plan := features(m);
    }
  }

  function StdioStep(features: Features, input: Input, st: Handshake): (Handshake, Plan) {
    match input
    case NotJson => (st, Only(Error(PARSE_ERROR)))
    case NotAnObject => (st, Only(Error(INVALID_REQUEST)))
    case Parsed(m) => Handle(features, m, st)
  }

  function StdioState(features: Features, lines: seq<Input>): Handshake {
    if lines == [] then NEW
    else StdioStep(features, lines[|lines| - 1], StdioState(features, lines[..|lines| - 1])).0
  }

  function StdioPlan(features: Features, lines: seq<Input>, k: nat): Plan
    requires k < |lines|
  {
    StdioStep(features, lines[k], StdioState(features, lines[..k])).1
  }

  /** A line of output: a notification, or the response to the line being handled. */
  datatype Output = Notification(text: string) | Response(reply: Reply)

  predicate HasResponse(plan: Plan) {
    plan.reply.Result? || plan.reply.Error?
  }

  /** What is written for a plan: the notifications in order, then the response when there is one. */
  function Printed(plan: Plan): seq<Output> {
    Notices(plan.notifications) + if HasResponse(plan) then [Response(plan.reply)] else []
  }

  function Notices(texts: seq<string>): seq<Output> {
    seq(|texts|, k requires 0 <= k < |texts| => Notification(texts[k]))
  }

  /** `run_stdio`: for each line, in order, what is written before the next line is read. */
  method RunStdio(features: Features, lines: seq<Input>) returns (written: seq<seq<Output>>)
    ensures |written| == |lines|
    ensures forall k :: 0 <= k < |lines| ==> written[k] == Printed(StdioPlan(features, lines, k))
  {
    var state := new ConnectionState();
    written := [];
    for k := 0 to |lines|
      invariant fresh(state) && state.Value() == StdioState(features, lines[..k])
      invariant |written| == k && forall j :: 0 <= j < k ==> written[j] == Printed(StdioPlan(features, lines, j))
    {
      assert lines[..k + 1][..k] == lines[..k];
      var plan;
      match lines[k] {
        case NotJson => plan := Only(Error(PARSE_ERROR));
        case NotAnObject => plan := Only(Error(INVALID_REQUEST));
        case Parsed(m) => plan := state.HandleMessage(features, m);
      }
      var group := WritePlan(plan);
      written := written + [group];
    }
  }

  method WritePlan(plan: Plan) returns (group: seq<Output>)
    ensures group == Printed(plan)
  {
    group := [];
    for j := 0 to |plan.notifications|
      invariant group == Notices(plan.notifications[..j])
    {
      group := group + [Notification(plan.notifications[j])];
    }
    assert plan.notifications[..|plan.notifications|] == plan.notifications;
    if HasResponse(plan) {
      group := group + [Response(plan.reply)];
    }
  }

  predicate IsInit(input: Input) {
    input.Parsed? && ValidInitialize(input.message)
  }

  predicate IsReady(input: Input) {
    input.Parsed? && InitializedNotification(input.message)
  }

  /** A valid initialize followed, not necessarily at once, by the initialized notification. */
  ghost predicate ShookHands(lines: seq<Input>) {
    exists i, j :: 0 <= i < j < |lines| && IsInit(lines[i]) && IsReady(lines[j])
  }

  ghost predicate SawInit(lines: seq<Input>) {
    exists i :: 0 <= i < |lines| && IsInit(lines[i])
  }

  lemma LineMeaning(features: Features, input: Input, st: Handshake)
    ensures StdioStep(features, input, st).0
         == Handshake(st.seen || IsInit(input), st.initialized || (st.seen && IsReady(input)))
  {
  }

  /** On stdio the handshake is complete exactly after both messages arrived in order. */
  lemma {:induction false} StdioHandshake(features: Features, lines: seq<Input>)
    ensures StdioState(features, lines).seen <==> SawInit(lines)
    ensures StdioState(features, lines).initialized <==> ShookHands(lines)
  {
    if lines != [] {
      var before, last := lines[..|lines| - 1], lines[|lines| - 1];
      StdioHandshake(features, before);
      LineMeaning(features, last, StdioState(features, before));
      assert lines == before + [last];
      OneMoreLine(before, last);
    }
  }

  lemma OneMoreLine(before: seq<Input>, last: Input)
    ensures SawInit(before + [last]) <==> SawInit(before) || IsInit(last)
    ensures ShookHands(before + [last]) <==> ShookHands(before) || (SawInit(before) && IsReady(last))
  {
    var lines, n := before + [last], |before|;
    assert lines[n] == last && forall k :: 0 <= k < n ==> lines[k] == before[k];
    if i :| 0 <= i < n && IsInit(before[i]) {
      assert IsInit(lines[i]);
    }
    if ShookHands(before) {
      var i, j :| 0 <= i < j < n && IsInit(before[i]) && IsReady(before[j]);
      assert IsInit(lines[i]) && IsReady(lines[j]);
    }
    if ShookHands(lines) {
      var i, j :| 0 <= i < j < |lines| && IsInit(lines[i]) && IsReady(lines[j]);
      assert IsInit(before[i]) && (j < n ==> IsReady(before[j]));
    }
  }

  /**
   Before the handshake is complete no line other than initialize is answered with a result, and no
   notification is written.
   */
  lemma StdioResultsNeedHandshake(features: Features, lines: seq<Input>, k: nat)
    requires k < |lines|
    ensures StdioPlan(features, lines, k).reply.Result? ==> IsInit(lines[k]) || ShookHands(lines[..k])
    ensures StdioPlan(features, lines, k).notifications != [] ==> ShookHands(lines[..k])
  {
    StdioHandshake(features, lines[..k]);
  }

  // ---------------------------------------------------------------- HTTP sessions

  /** A connection state object in use, and the request that obtained it: its session header and its message. */
  datatype Job = Job(ref: nat, header: Option<string>, message: Message)

  datatype Served = Served(ref: nat, header: Option<string>, message: Message, plan: Plan)

  /** The message a state was allocated for, and the session id it was registered under, if any. */
  datatype Origin = Origin(message: Message, session: Option<string>)

  /**
   `states[ref]` is the ref-th connection state ever allocated and `origins[ref]` what it was
   allocated for. A request thread first obtains a state under the lock, then handles its message
   on that state, whether or not the session still exists.
   */
  datatype Server = Server(sessions: map<string, nat>, states: seq<Handshake>, origins: seq<Origin>,
                           jobs: map<nat, Job>, log: seq<Served>)

  datatype Step =
    | Arrive(thread: nat, header: Option<string>, message: Message, freshId: string)
    | Serve(thread: nat)
    | Delete(header: Option<string>)

  function OriginOf(m: Message, freshId: string): Origin {
    Origin(m, if m.verb.Initialize? then Some(freshId) else None)
  }

  const START: Server := Server(map[], [], [], map[], [])

  /** `_legacy_state`: initialize opens a session, discovery gets a throwaway state, the rest need a known session. */
  function Acquire(s: Server, thread: nat, header: Option<string>, m: Message, freshId: string): Server {
    var ref := |s.states|;
    if m.verb.Initialize? then
      s.(sessions := s.sessions[freshId := ref], states := s.states + [NEW],
         origins := s.origins + [OriginOf(m, freshId)], jobs := s.jobs[thread := Job(ref, header, m)])
    else if m.verb.Discover? then
      s.(states := s.states + [NEW], origins := s.origins + [OriginOf(m, freshId)],
         jobs := s.jobs[thread := Job(ref, header, m)])
    else if header.Some? && header.value in s.sessions then
      s.(jobs := s.jobs[thread := Job(s.sessions[header.value], header, m)])
    else s
  }

  function Next(features: Features, s: Server, step: Step): Server {
    match step
    case Arrive(thread, header, m, freshId) =>
      if thread in s.jobs then s else Acquire(s, thread, header, m, freshId)
    case Serve(thread) =>
      if thread !in s.jobs || s.jobs[thread].ref >= |s.states| then s else
        var job := s.jobs[thread];
        var (state, plan) := Handle(features, job.message, s.states[job.ref]);
        s.(states := s.states[job.ref := state], jobs := s.jobs - {thread},
           log := s.log + [Served(job.ref, job.header, job.message, plan)])
    case Delete(header) =>
      if header.Some? then s.(sessions := s.sessions - {header.value}) else s
  }

  function Run(features: Features, steps: seq<Step>): Server {
    if steps == [] then START else Next(features, Run(features, steps[..|steps| - 1]), steps[|steps| - 1])
  }

  /** The message that created `ref` was a valid initialize and the k-th message served. */
  ghost predicate OpenedAt(s: Server, ref: nat, k: int) {
    && 0 <= k < |s.log| && ref < |s.origins| && ValidInitialize(s.origins[ref].message)
    && s.log[k].ref == ref && s.log[k].message == s.origins[ref].message
  }

  ghost predicate ReadyAt(s: Server, ref: nat, k: int) {
    0 <= k < |s.log| && s.log[k].ref == ref && InitializedNotification(s.log[k].message)
  }

  ghost predicate Opened(s: Server, ref: nat) {
    exists k :: OpenedAt(s, ref, k)
  }

  /** The creating initialize, then an initialized notification, both served on this very state before position `n`. */
  ghost predicate ReadyBefore(s: Server, ref: nat, n: int) {
    exists i, j :: 0 <= i < j < n && OpenedAt(s, ref, i) && ReadyAt(s, ref, j)
  }

  ghost predicate Inv(s: Server) {
    && |s.origins| == |s.states|
    && (forall id :: id in s.sessions ==> EntryFits(s, id))
    && (forall t :: t in s.jobs ==> JobFits(s, s.jobs[t]))
    && (forall ref :: 0 <= ref < |s.states| ==> (s.states[ref].seen <==> Opened(s, ref)))
    && (forall ref :: 0 <= ref < |s.states| ==> (s.states[ref].initialized <==> ReadyBefore(s, ref, |s.log|)))
    && (forall k :: 0 <= k < |s.log| ==> ServedFits(s, k))
  }

  /** A session's state was allocated by an initialize and registered under that session's id. */
  ghost predicate EntryFits(s: Server, id: string)
    requires id in s.sessions
  {
    && s.sessions[id] < |s.states| == |s.origins|
    && s.origins[s.sessions[id]].message.verb.Initialize? && s.origins[s.sessions[id]].session == Some(id)
  }

  /** The message allocated the state itself, or carried the id the state is registered under. */
  predicate Belongs(origin: Origin, header: Option<string>, m: Message) {
    if m.verb.Initialize? || m.verb.Discover? then origin.message == m else header.Some? && origin.session == header
  }

  /** An initialize is only ever served on the state it created, and any other message on a state of its session. */
  ghost predicate JobFits(s: Server, job: Job) {
    job.ref < |s.states| == |s.origins| && Belongs(s.origins[job.ref], job.header, job.message)
  }

  /** A result was either the answer to the creating initialize or came after the full handshake. */
  ghost predicate ServedFits(s: Server, k: int)
    requires 0 <= k < |s.log|
  {
    && s.log[k].ref < |s.origins| && Belongs(s.origins[s.log[k].ref], s.log[k].header, s.log[k].message)
    && (s.log[k].plan.reply.Result? ==> OpenedAt(s, s.log[k].ref, k) || ReadyBefore(s, s.log[k].ref, k))
    && (s.log[k].plan.notifications != [] ==> ReadyBefore(s, s.log[k].ref, k))
  }

  /** Facts about past log entries survive any step. */
  lemma HistoryStays(s: Server, t: Server, ref: nat, n: int)
    requires s.log <= t.log && s.origins <= t.origins && ref < |s.origins| && n <= |s.log|
    ensures forall k :: 0 <= k < |s.log| ==>
            (OpenedAt(t, ref, k) <==> OpenedAt(s, ref, k)) && (ReadyAt(t, ref, k) <==> ReadyAt(s, ref, k))
    ensures ReadyBefore(t, ref, n) <==> ReadyBefore(s, ref, n)
  {
    assert forall k :: 0 <= k < |s.log| ==> t.log[k] == s.log[k];
    assert t.origins[ref] == s.origins[ref];
    if ReadyBefore(s, ref, n) {
      var i, j :| 0 <= i < j < n && OpenedAt(s, ref, i) && ReadyAt(s, ref, j);
      assert OpenedAt(t, ref, i) && ReadyAt(t, ref, j);
    }
    if ReadyBefore(t, ref, n) {
      var i, j :| 0 <= i < j < n && OpenedAt(t, ref, i) && ReadyAt(t, ref, j);
      assert OpenedAt(s, ref, i) && ReadyAt(s, ref, j);
    }
  }

  /** Allocation and session bookkeeping do not touch any existing state. */
  lemma QuietStepKeeps(s: Server, t: Server)
    requires Inv(s) && t.log == s.log && s.origins <= t.origins && s.states <= t.states && |t.origins| == |t.states|
    requires forall ref :: |s.states| <= ref < |t.states| ==> t.states[ref] == NEW
    requires forall id :: id in t.sessions ==> EntryFits(t, id)
    requires forall th :: th in t.jobs ==> JobFits(t, t.jobs[th])
    ensures Inv(t)
  {
    forall ref | 0 <= ref < |t.states|
      ensures t.states[ref].seen <==> Opened(t, ref)
      ensures t.states[ref].initialized <==> ReadyBefore(t, ref, |t.log|)
    {
      if ref < |s.states| {
        HistoryStays(s, t, ref, |s.log|);
        assert t.states[ref] == s.states[ref];
        if k :| OpenedAt(s, ref, k) { assert OpenedAt(t, ref, k); }
        if k :| OpenedAt(t, ref, k) { assert OpenedAt(s, ref, k); }
      } else {
        forall k | 0 <= k < |s.log|
          ensures !OpenedAt(t, ref, k)
        {
          assert ServedFits(s, k) && t.log[k] == s.log[k];
        }
      }
    }
    forall k | 0 <= k < |t.log|
      ensures ServedFits(t, k)
    {
      assert ServedFits(s, k);
      HistoryStays(s, t, s.log[k].ref, k);
    }
  }

  lemma ArrivalFits(s: Server, thread: nat, header: Option<string>, m: Message, freshId: string)
    requires Inv(s)
    ensures var t := Acquire(s, thread, header, m, freshId);
            && (forall id :: id in t.sessions ==> EntryFits(t, id))
            && (thread in t.jobs && thread !in s.jobs ==> JobFits(t, t.jobs[thread]))
  {
    var t := Acquire(s, thread, header, m, freshId);
    assert header.Some? && header.value in s.sessions ==> EntryFits(s, header.value);
    forall id | id in t.sessions
      ensures EntryFits(t, id)
    {
      assert id in s.sessions ==> EntryFits(s, id);
    }
  }

  lemma ArriveKeeps(features: Features, s: Server, thread: nat, header: Option<string>, m: Message, freshId: string)
    requires Inv(s) && thread !in s.jobs
    ensures Inv(Next(features, s, Arrive(thread, header, m, freshId)))
  {
    var t := Acquire(s, thread, header, m, freshId);
    ArrivalFits(s, thread, header, m, freshId);
    forall th | th in t.jobs
      ensures JobFits(t, t.jobs[th])
    {
      assert th != thread ==> JobFits(s, s.jobs[th]);
    }
    QuietStepKeeps(s, t);
  }

  lemma ServeKeeps(features: Features, s: Server, thread: nat)
    requires Inv(s) && thread in s.jobs && s.jobs[thread].ref < |s.states|
    ensures Inv(Next(features, s, Serve(thread)))
  {
    var t, job := Next(features, s, Serve(thread)), s.jobs[thread];
    var n := |s.log|;
    assert JobFits(s, job);
    assert forall th :: th in t.jobs ==> JobFits(s, s.jobs[th]);
    assert forall id :: id in t.sessions ==> EntryFits(s, id);
    forall ref | 0 <= ref < |t.states|
      ensures t.states[ref].seen <==> Opened(t, ref)
      ensures t.states[ref].initialized <==> ReadyBefore(t, ref, |t.log|)
    {
      ServedState(features, s, t, job, ref);
    }
    forall k | 0 <= k < |t.log|
      ensures ServedFits(t, k)
    {
      if k < n {
        assert ServedFits(s, k);
        HistoryStays(s, t, s.log[k].ref, k);
      } else {
        HistoryStays(s, t, job.ref, n);
      }
    }
  }

  /** Serving a message moves exactly one state, in the way the history says. */
  lemma ServedState(features: Features, s: Server, t: Server, job: Job, ref: nat)
    requires Inv(s) && JobFits(s, job) && ref < |s.states|
    requires t.origins == s.origins
    requires t.states == s.states[job.ref := Handle(features, job.message, s.states[job.ref]).0]
    requires t.log == s.log + [Served(job.ref, job.header, job.message,
                                      Handle(features, job.message, s.states[job.ref]).1)]
    ensures t.states[ref].seen <==> Opened(t, ref)
    ensures t.states[ref].initialized <==> ReadyBefore(t, ref, |t.log|)
  {
    var n := |s.log|;
    HistoryStays(s, t, ref, n);
    assert Opened(t, ref) <==> Opened(s, ref) || OpenedAt(t, ref, n) by {
      if k :| OpenedAt(s, ref, k) { assert OpenedAt(t, ref, k); }
      if k :| OpenedAt(t, ref, k) { assert k < n ==> OpenedAt(s, ref, k); }
    }
    assert OpenedAt(t, ref, n) <==> ref == job.ref && ValidInitialize(job.message);
    assert ReadyAt(t, ref, n) <==> ref == job.ref && InitializedNotification(job.message);
    ReadyStep(s, t, ref);
  }

  lemma ReadyStep(s: Server, t: Server, ref: nat)
    requires |t.log| == |s.log| + 1 && s.log <= t.log && t.origins == s.origins && ref < |s.origins|
    ensures ReadyBefore(t, ref, |t.log|) <==>
            ReadyBefore(s, ref, |s.log|) || (Opened(s, ref) && ReadyAt(t, ref, |s.log|))
  {
    var n := |s.log|;
    HistoryStays(s, t, ref, n);
    if ReadyBefore(t, ref, n + 1) {
      var i, j :| 0 <= i < j < n + 1 && OpenedAt(t, ref, i) && ReadyAt(t, ref, j);
      assert OpenedAt(s, ref, i);
      if j < n { assert ReadyBefore(t, ref, n); }
    }
    if ReadyBefore(s, ref, n) {
      var i, j :| 0 <= i < j < n && OpenedAt(t, ref, i) && ReadyAt(t, ref, j);
    }
    if Opened(s, ref) && ReadyAt(t, ref, n) {
      var i :| OpenedAt(s, ref, i);
      assert OpenedAt(t, ref, i);
    }
  }

  lemma StepKeeps(features: Features, s: Server, step: Step)
    requires Inv(s)
    ensures Inv(Next(features, s, step))
  {
    match step
    case Arrive(thread, header, m, freshId) =>
      if thread !in s.jobs { ArriveKeeps(features, s, thread, header, m, freshId); }
    case Serve(thread) =>
      if thread in s.jobs && s.jobs[thread].ref < |s.states| { ServeKeeps(features, s, thread); }
    case Delete(header) =>
      assert forall id :: id in Next(features, s, step).sessions ==> EntryFits(s, id);
      QuietStepKeeps(s, Next(features, s, step));
  }

  lemma {:induction false} EveryRunKeeps(features: Features, steps: seq<Step>)
    ensures Inv(Run(features, steps))
  {
    if steps != [] {
      EveryRunKeeps(features, steps[..|steps| - 1]);
      StepKeeps(features, Run(features, steps[..|steps| - 1]), steps[|steps| - 1]);
    }
  }

  /**
   Over every run of concurrent requests and deletions, a session is initialized exactly when the
   message that created it was a valid initialize, was served, and an initialized notification was
   served on that same session later, under its id.
   */
  lemma SessionHandshake(features: Features, steps: seq<Step>, id: string)
    requires id in Run(features, steps).sessions
    ensures var s := Run(features, steps);
            var ref := s.sessions[id];
            && ref < |s.states| == |s.origins|
            && s.origins[ref].message.verb.Initialize? && s.origins[ref].session == Some(id)
            && (s.states[ref].seen <==> Opened(s, ref))
            && (s.states[ref].initialized <==> ReadyBefore(s, ref, |s.log|))
            && (forall k :: ReadyAt(s, ref, k) ==> s.log[k].header == Some(id))
            && (!ValidInitialize(s.origins[ref].message) ==> s.states[ref] == NEW)
  {
    EveryRunKeeps(features, steps);
    var s := Run(features, steps);
    assert EntryFits(s, id);
    assert s.states[s.sessions[id]].initialized ==> ReadyBefore(s, s.sessions[id], |s.log|);
    forall k | ReadyAt(s, s.sessions[id], k)
      ensures s.log[k].header == Some(id)
    {
      assert ServedFits(s, k);
    }
  }

  /** No feature is ever served with a result or a notification on a state whose handshake is not complete. */
  lemma ResultsNeedHandshake(features: Features, steps: seq<Step>, k: nat)
    requires k < |Run(features, steps).log|
    ensures var s := Run(features, steps);
            var ref := s.log[k].ref;
            && (s.log[k].plan.reply.Result? ==> OpenedAt(s, ref, k) || ReadyBefore(s, ref, k))
            && (s.log[k].plan.notifications != [] ==> ReadyBefore(s, ref, k))
  {
    EveryRunKeeps(features, steps);
    assert ServedFits(Run(features, steps), k);
  }

  // ---------------------------------------------------------------- sessions do not mix

  /** In every run two live session ids name two different states. */
  lemma SessionsAreUnshared(features: Features, steps: seq<Step>)
    ensures var sessions := Run(features, steps).sessions;
            forall a, b :: a in sessions && b in sessions && a != b ==> sessions[a] != sessions[b]
  {
    EveryRunKeeps(features, steps);
    var s := Run(features, steps);
    assert forall id :: id in s.sessions ==> EntryFits(s, id);
  }

  /** Whatever was served on a live session's state is the initialize that created it or carried its id. */
  lemma SessionServesItsOwn(features: Features, steps: seq<Step>, id: string, k: nat)
    requires id in Run(features, steps).sessions && k < |Run(features, steps).log|
    requires Run(features, steps).log[k].ref == Run(features, steps).sessions[id]
    ensures var s := Run(features, steps);
            && s.sessions[id] < |s.origins|
            && (s.log[k].header == Some(id)
                || (s.log[k].message.verb.Initialize? && s.log[k].message == s.origins[s.sessions[id]].message))
  {
    EveryRunKeeps(features, steps);
    var s := Run(features, steps);
    assert EntryFits(s, id) && ServedFits(s, k);
  }

  /** A step touches at most the one state its thread holds, and at most the one session it names. */
  lemma StepsDoNotInterfere(features: Features, s: Server, step: Step, ref: nat, id: string)
    requires ref < |s.states|
    requires step.Serve? && step.thread in s.jobs ==> s.jobs[step.thread].ref != ref
    requires step.Arrive? && step.thread !in s.jobs && step.message.verb.Initialize? ==> step.freshId != id
    requires step.Delete? ==> step.header != Some(id)
    ensures ref < |Next(features, s, step).states| && Next(features, s, step).states[ref] == s.states[ref]
    ensures id in Next(features, s, step).sessions <==> id in s.sessions
    ensures id in s.sessions ==> Next(features, s, step).sessions[id] == s.sessions[id]
  {
  }

  /** The session id a request is answered under: the one it opens, none for discovery, else the one in its header. */
  function SessionOf(s: Server, ref: nat, header: Option<string>, m: Message): Option<string> {
    if m.verb.Initialize? then (if ref < |s.origins| then s.origins[ref].session else None)
    else if m.verb.Discover? then None
    else header
  }

  /** The step deletes the session, registers a new one under its id, or serves one of its requests. */
  predicate Concerns(s: Server, step: Step, id: string) {
    match step
    case Arrive(thread, _, m, freshId) => thread !in s.jobs && m.verb.Initialize? && freshId == id
    case Serve(thread) =>
      thread in s.jobs && SessionOf(s, s.jobs[thread].ref, s.jobs[thread].header, s.jobs[thread].message) == Some(id)
    case Delete(header) => header == Some(id)
  }

  /** The session is live, with this state object in this condition. */
  predicate HeldAs(s: Server, id: string, ref: nat, state: Handshake) {
    id in s.sessions && s.sessions[id] == ref && ref < |s.states| && s.states[ref] == state
  }

  lemma OtherStepsKeep(features: Features, s: Server, step: Step, id: string, ref: nat, state: Handshake)
    requires Inv(s) && HeldAs(s, id, ref, state) && !Concerns(s, step, id)
    ensures HeldAs(Next(features, s, step), id, ref, state)
  {
    assert EntryFits(s, id);
    StepsDoNotInterfere(features, s, step, ref, id);
  }

  /** No step of `more`, taken after `steps`, concerns the session. */
  ghost predicate LeavesAlone(features: Features, steps: seq<Step>, more: seq<Step>, id: string) {
    more == [] ||
    (LeavesAlone(features, steps, more[..|more| - 1], id)
     && !Concerns(Run(features, steps + more[..|more| - 1]), more[|more| - 1], id))
  }

  lemma OneMoreStep(features: Features, steps: seq<Step>, step: Step, id: string, ref: nat, state: Handshake)
    requires HeldAs(Run(features, steps), id, ref, state) && !Concerns(Run(features, steps), step, id)
    ensures HeldAs(Run(features, steps + [step]), id, ref, state)
  {
    EveryRunKeeps(features, steps);
    OtherStepsKeep(features, Run(features, steps), step, id, ref, state);
    assert (steps + [step])[..|steps|] == steps;
  }

  lemma LiveSessionIsHeld(features: Features, steps: seq<Step>, id: string)
    requires id in Run(features, steps).sessions
    ensures var s := Run(features, steps);
            s.sessions[id] < |s.states| && HeldAs(s, id, s.sessions[id], s.states[s.sessions[id]])
  {
    EveryRunKeeps(features, steps);
    assert EntryFits(Run(features, steps), id);
  }

  /**
   From any point of any run, for as long as no step concerns a live session, however many requests
   of other sessions arrive, are served or deleted, its entry and its state stay as they are.
   */
  lemma {:induction false} OtherSessionsAreUntouched(features: Features, steps: seq<Step>, more: seq<Step>, id: string)
    requires id in Run(features, steps).sessions && LeavesAlone(features, steps, more, id)
    ensures var s := Run(features, steps);
            && s.sessions[id] < |s.states|
            && HeldAs(Run(features, steps + more), id, s.sessions[id], s.states[s.sessions[id]])
  {
    LiveSessionIsHeld(features, steps, id);
    if more == [] {
      assert steps + more == steps;
    } else {
      var s, before, step := Run(features, steps), more[..|more| - 1], more[|more| - 1];
      OtherSessionsAreUntouched(features, steps, before, id);
      OneMoreStep(features, steps + before, step, id, s.sessions[id], s.states[s.sessions[id]]);
      assert steps + more == steps + before + [step];
    }
  }

  /** Serving a request of one live session changes nothing of another. */
  lemma ServingLeavesOthers(features: Features, steps: seq<Step>, thread: nat, a: string, b: string)
    requires a in Run(features, steps).sessions && b in Run(features, steps).sessions && a != b
    requires thread in Run(features, steps).jobs
    requires Run(features, steps).jobs[thread].ref == Run(features, steps).sessions[a]
    ensures var s := Run(features, steps);
            && s.sessions[b] < |s.states|
            && HeldAs(Run(features, steps + [Serve(thread)]), b, s.sessions[b], s.states[s.sessions[b]])
  {
    var s := Run(features, steps);
    EveryRunKeeps(features, steps);
    assert EntryFits(s, a) && EntryFits(s, b) && JobFits(s, s.jobs[thread]);
    OneMoreStep(features, steps, Serve(thread), b, s.sessions[b], s.states[s.sessions[b]]);
  }

  // ---------------------------------------------------------------- fresh session ids

  predicate Opens(step: Step) {
    step.Arrive? && step.message.verb.Initialize?
  }

  /** No two initialize requests draw the same session id. */
  ghost predicate FreshIds(steps: seq<Step>) {
    forall i, j :: 0 <= i < j < |steps| && Opens(steps[i]) && Opens(steps[j]) ==> steps[i].freshId != steps[j].freshId
  }

  /** Every registered id was drawn by an initialize request, and no two states are registered under one id. */
  ghost predicate IdsNameStates(steps: seq<Step>, origins: seq<Origin>) {
    && (forall a :: 0 <= a < |origins| && origins[a].session.Some? ==>
          exists i :: 0 <= i < |steps| && Opens(steps[i]) && steps[i].freshId == origins[a].session.value)
    && (forall a, b :: 0 <= a < b < |origins| && origins[a].session.Some? ==> origins[a].session != origins[b].session)
  }

  lemma {:induction false} IdsStayNames(features: Features, steps: seq<Step>)
    requires FreshIds(steps)
    ensures IdsNameStates(steps, Run(features, steps).origins)
  {
    if steps != [] {
      var before, step := steps[..|steps| - 1], steps[|steps| - 1];
      IdsStayNames(features, before);
      OriginsStep(features, Run(features, before), step);
      assert steps == before + [step];
      NamesStep(before, step, Run(features, before).origins, Run(features, steps).origins);
    }
  }

  lemma OriginsStep(features: Features, s: Server, step: Step)
    ensures var origins := Next(features, s, step).origins;
            || origins == s.origins
            || (step.Arrive? && origins == s.origins + [OriginOf(step.message, step.freshId)])
  {
  }

  lemma NamesStep(before: seq<Step>, step: Step, origins: seq<Origin>, more: seq<Origin>)
    requires FreshIds(before + [step]) && IdsNameStates(before, origins)
    requires
      || more == origins
      || (step.Arrive? && more == origins + [OriginOf(step.message, step.freshId)])
    ensures IdsNameStates(before + [step], more)
  {
    var steps := before + [step];
    forall a | 0 <= a < |more| && more[a].session.Some?
      ensures exists i :: 0 <= i < |steps| && Opens(steps[i]) && steps[i].freshId == more[a].session.value
    {
      if a < |origins| {
        var i :| 0 <= i < |before| && Opens(before[i]) && before[i].freshId == origins[a].session.value;
        assert steps[i] == before[i];
      } else {
        assert steps[|before|] == step && Opens(step);
      }
    }
    forall a | 0 <= a < |origins| && |origins| < |more| && origins[a].session.Some?
      ensures origins[a].session != more[|origins|].session
    {
      var i :| 0 <= i < |before| && Opens(before[i]) && before[i].freshId == origins[a].session.value;
      assert steps[i] == before[i] && steps[|before|] == step;
    }
  }

  /** The k-th message was answered under this session id: it opened the session, or its header named it. */
  ghost predicate Under(s: Server, k: int, id: string) {
    0 <= k < |s.log| && SessionOf(s, s.log[k].ref, s.log[k].header, s.log[k].message) == Some(id)
  }

  /** A valid initialize, then an initialized notification, both answered under this session id. */
  ghost predicate ReadyUnder(s: Server, id: string) {
    exists i, j :: 0 <= i < j < |s.log| && Under(s, i, id) && ValidInitialize(s.log[i].message)
                && Under(s, j, id) && InitializedNotification(s.log[j].message)
  }

  /**
   With fresh ids a session is its id: all messages served under one id were served on one state, and
   a live session is initialized exactly when an initialize was answered with its id and an initialized
   notification carrying that id was served later.
   */
  lemma FreshSessionHandshake(features: Features, steps: seq<Step>, id: string)
    requires FreshIds(steps) && id in Run(features, steps).sessions
    ensures var s := Run(features, steps);
            && s.sessions[id] < |s.states|
            && (forall k :: 0 <= k < |s.log| ==> (s.log[k].ref == s.sessions[id] <==> Under(s, k, id)))
            && (s.states[s.sessions[id]].initialized <==> ReadyUnder(s, id))
  {
    var s := Run(features, steps);
    var ref := s.sessions[id];
    EveryRunKeeps(features, steps);
    IdsStayNames(features, steps);
    assert EntryFits(s, id);
    forall k | 0 <= k < |s.log|
      ensures s.log[k].ref == ref <==> Under(s, k, id)
      ensures OpenedAt(s, ref, k) <==> Under(s, k, id) && ValidInitialize(s.log[k].message)
      ensures ReadyAt(s, ref, k) <==> Under(s, k, id) && InitializedNotification(s.log[k].message)
    {
      assert ServedFits(s, k);
    }
    assert s.states[ref].initialized <==> ReadyBefore(s, ref, |s.log|);
    if ReadyBefore(s, ref, |s.log|) {
      var i, j :| 0 <= i < j < |s.log| && OpenedAt(s, ref, i) && ReadyAt(s, ref, j);
      assert Under(s, i, id) && Under(s, j, id);
    }
    if ReadyUnder(s, id) {
      var i, j :| 0 <= i < j < |s.log| && Under(s, i, id) && ValidInitialize(s.log[i].message)
               && Under(s, j, id) && InitializedNotification(s.log[j].message);
      assert OpenedAt(s, ref, i) && ReadyAt(s, ref, j);
    }
  }
}
