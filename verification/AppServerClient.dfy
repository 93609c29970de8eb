/**
 The JSONL app-server client: numbered requests whose answers arrive interleaved
 with notifications, server requests and late answers. The inbox holds what the
 reader thread delivers; `patience` is how many messages a call dequeues before
 its deadline, and `writes` how many more sends the process survives.
 */
module AppServerClient {
  import opened Sequences
  import opened Wrappers

  /** The id field; Python compares JSON true and false with 1 and 0. */
  datatype IdField = NoId | Numeric(n: int) | Flag(b: bool) | OtherId(text: string)

  datatype VerbField = NoVerb | Named(name: string) | NotText

  datatype ParamsField = NotObject | Object(content: string)

  datatype Message = Message(id: IdField, verb: VerbField, params: ParamsField, body: string)

  /** What comes off the queue: a message, or the end of the process's output. */
  datatype Incoming = Arrived(message: Message) | Closed

  datatype Outgoing =
    | Call(id: nat, verb: string) | Notify(verb: string)
    | Accept(to: IdField, content: string) | Refuse(to: IdField, unsupported: string)

  datatype Outcome = Returned(message: Message) | Done | TimedOut | OutputClosed | ProcessExited

  /** What an elicitation is answered with, from its params; without one, a fixed confirmation. */
  type Policy = Option<string -> string>

  datatype Client = Client(nextId: nat, inbox: seq<Incoming>, events: seq<Message>, elicitations: seq<string>,
                           sent: seq<Outgoing>, writes: nat, policy: Policy)

  const ELICITATION := "mcpServer/elicitation/request"
  const CONFIRMATION := "{\"confirmation\": \"confirmed\"}"
  const NO_PARAMS := "{}"

  predicate Matches(id: IdField, request: nat) {
    match id
    case Numeric(n) => n == request
    case Flag(b) => (if b then 1 else 0) == request
    case _ => false
  }

  predicate Answers(m: Message, request: nat) {
    Matches(m.id, request) && m.verb.NoVerb?
  }

  predicate IsServerRequest(m: Message) {
    !m.id.NoId? && m.verb.Named?
  }

  predicate IsElicitation(m: Message) {
    m.verb == Named(ELICITATION)
  }

  function ContentFor(policy: Policy, params: ParamsField): string {
    if policy.None? then CONFIRMATION else policy.value(if params.Object? then params.content else NO_PARAMS)
  }

  function ReplyTo(policy: Policy, m: Message): Outgoing
    requires m.verb.Named?
  {
    if IsElicitation(m) then Accept(m.id, ContentFor(policy, m.params)) else Refuse(m.id, m.verb.name)
  }

  /** `_handle_server_request`: recorded, then answered unless the process is gone. */
  function Serve(c: Client, m: Message): (Client, bool)
    requires m.verb.Named?
  {
    var asked := if IsElicitation(m) && m.params.Object? then [m.params.content] else [];
    var heard := c.(events := c.events + [m], elicitations := c.elicitations + asked);
    if c.writes == 0 then (heard, false)
    else (heard.(sent := c.sent + [ReplyTo(c.policy, m)], writes := c.writes - 1), true)
  }

  // ---------------------------------------------------------------- calls

  function AwaitAnswer(c: Client, request: nat, patience: nat): (Client, Outcome)
    decreases patience
  {
    if patience == 0 || c.inbox == [] then (c, TimedOut) else
      var rest := c.(inbox := c.inbox[1..]);
      if c.inbox[0].Closed? then (rest, OutputClosed) else
        var m := c.inbox[0].message;
        if Answers(m, request) then (rest, Returned(m))
        else if IsServerRequest(m) then
          var (served, alive) := Serve(rest, m);
          if alive then AwaitAnswer(served, request, patience - 1) else (served, ProcessExited)
        else AwaitAnswer(rest.(events := rest.events + [m]), request, patience - 1)
  }

  /** `request`: the id is spent even when the send fails. */
  function Request(c: Client, verb: string, patience: nat): (Client, Outcome) {
    var numbered := c.(nextId := c.nextId + 1);
    if c.writes == 0 then (numbered, ProcessExited)
    else AwaitAnswer(numbered.(sent := c.sent + [Call(c.nextId, verb)], writes := c.writes - 1), c.nextId, patience)
  }

  /** A notification some caller waits for: a method name and a test of its params. */
  datatype Wanted = Wanted(verb: string, accepts: string -> bool)

  predicate IsWanted(w: Wanted, m: Message) {
    m.verb == Named(w.verb) && m.params.Object? && w.accepts(m.params.content)
  }

  /** The first wanted event from position `k` on, or the number of events. */
  function FirstWanted(w: Wanted, events: seq<Message>, k: nat): (i: nat)
    requires k <= |events|
    ensures k <= i <= |events|
    ensures i < |events| ==> IsWanted(w, events[i])
    ensures forall j :: k <= j < i ==> !IsWanted(w, events[j])
    decreases |events| - k
  {
    if k == |events| || IsWanted(w, events[k]) then k else FirstWanted(w, events, k + 1)
  }

  function AwaitEvent(c: Client, w: Wanted, patience: nat): (Client, Outcome)
    decreases patience
  {
    if patience == 0 || c.inbox == [] then (c, TimedOut) else
      var rest := c.(inbox := c.inbox[1..]);
      if c.inbox[0].Closed? then (rest, OutputClosed) else
        var m := c.inbox[0].message;
        if IsServerRequest(m) then
          var (served, alive) := Serve(rest, m);
          if alive then AwaitEvent(served, w, patience - 1) else (served, ProcessExited)
        else
          var heard := rest.(events := rest.events + [m]);
          if IsWanted(w, m) then (heard, Returned(m)) else AwaitEvent(heard, w, patience - 1)
  }

  /** `wait_for_notification`: past events first, then the queue. */
  function WaitFor(c: Client, w: Wanted, after: nat, patience: nat): (Client, Outcome) {
    var start := if after <= |c.events| then after else |c.events|;
    var i := FirstWanted(w, c.events, start);
    if i < |c.events| then (c, Returned(c.events[i])) else AwaitEvent(c, w, patience)
  }

  function SendNotice(c: Client, verb: string): (Client, Outcome) {
    if c.writes == 0 then (c, ProcessExited) else (c.(sent := c.sent + [Notify(verb)], writes := c.writes - 1), Done)
  }

  // ---------------------------------------------------------------- the object

  class AppServer {
    var nextId: nat
    var inbox: seq<Incoming>
    var events: seq<Message>
    var elicitations: seq<string>
    var sent: seq<Outgoing>
    var writes: nat
    const policy: Policy

    constructor (delivered: seq<Incoming>, lifetime: nat, elicitationContent: Policy)
      ensures State() == Client(1, delivered, [], [], [], lifetime, elicitationContent)
    {
      nextId, inbox, events, elicitations, sent, writes := 1, delivered, [], [], [], lifetime;
      policy := elicitationContent;
    }

    function State(): Client
      reads this
    {
      Client(nextId, inbox, events, elicitations, sent, writes, policy)
    }

    method Send(message: Outgoing) returns (alive: bool)
      modifies this
      ensures alive == (old(writes) > 0)
      ensures State() == if alive then old(State()).(sent := old(sent) + [message], writes := old(writes) - 1)
                         else old(State())
    {
      alive := writes > 0;
      if alive {
        sent, writes := sent + [message], writes - 1;
      }
    }

    method HandleServerRequest(m: Message) returns (alive: bool)
      requires m.verb.Named?
      modifies this
      ensures (State(), alive) == Serve(old(State()), m)
    {
      assert elicitations + [] == elicitations;
      events := events + [m];
      if m.verb.name == ELICITATION {
        var params := NO_PARAMS;
        if m.params.Object? {
          params := m.params.content;
          elicitations := elicitations + [params];
        }
        var content := CONFIRMATION;
        if policy.Some? {
          content := policy.value(params);
        }
        alive := Send(Accept(m.id, content));
      } else {
        alive := Send(Refuse(m.id, m.verb.name));
      }
    }

    method DoRequest(verb: string, patience: nat) returns (outcome: Outcome)
      modifies this
      ensures (State(), outcome) == Request(old(State()), verb, patience)
    {
      var id := nextId;
      nextId := nextId + 1;
      var alive := Send(Call(id, verb));
      if !alive {
        return ProcessExited;
      }
      var left: nat := patience;
      while left > 0 && inbox != []
        invariant Request(old(State()), verb, patience) == AwaitAnswer(State(), id, left)
        decreases left
      {
        var message := inbox[0];
        inbox := inbox[1..];
        left := left - 1;
        if message.Closed? {
          return OutputClosed;
        }
        var m := message.message;
        if Answers(m, id) {
          return Returned(m);
        }
        if IsServerRequest(m) {
          alive := HandleServerRequest(m);
          if !alive {
            return ProcessExited;
          }
        } else {
          events := events + [m];
        }
      }
      outcome := TimedOut;
    }

    method WaitForNotification(w: Wanted, after: nat, patience: nat) returns (outcome: Outcome)
      modifies this
      ensures (State(), outcome) == WaitFor(old(State()), w, after, patience)
    {
      var k := if after <= |events| then after else |events|;
      ghost var first := FirstWanted(w, events, k);
      while k < |events|
        invariant k <= |events| && FirstWanted(w, events, k) == first
        invariant State() == old(State())
      {
        if IsWanted(w, events[k]) {
          return Returned(events[k]);
        }
        k := k + 1;
      }
      var left: nat := patience;
      while left > 0 && inbox != []
        invariant WaitFor(old(State()), w, after, patience) == AwaitEvent(State(), w, left)
        decreases left
      {
        var message := inbox[0];
        inbox := inbox[1..];
        left := left - 1;
        if message.Closed? {
          return OutputClosed;
        }
        var m := message.message;
        if IsServerRequest(m) {
          var alive := HandleServerRequest(m);
          if !alive {
            return ProcessExited;
          }
        } else {
          events := events + [m];
          if IsWanted(w, m) {
            return Returned(m);
          }
        }
      }
      outcome := TimedOut;
    }
  }

  // ---------------------------------------------------------------- whole sessions

  datatype Op =
    | RequestOp(verb: string, patience: nat)
    | WaitOp(wanted: Wanted, after: nat, patience: nat)
    | NoticeOp(notice: string)

  function Exec(c: Client, op: Op): (Client, Outcome) {
    match op
    case RequestOp(verb, patience) => Request(c, verb, patience)
    case WaitOp(w, after, patience) => WaitFor(c, w, after, patience)
    case NoticeOp(verb) => SendNotice(c, verb)
  }

  function RunState(c: Client, ops: seq<Op>): Client {
    if ops == [] then c else Exec(RunState(c, ops[..|ops| - 1]), ops[|ops| - 1]).0
  }

  /** What became of a dequeued item: kept as an event, handed to a request, or the end of output. */
  datatype Fate = Kept(message: Message) | Given(request: nat, message: Message) | End

  function Item(f: Fate): Incoming {
    if f.End? then Closed else Arrived(f.message)
  }

  function Items(h: seq<Fate>): seq<Incoming> {
    seq(|h|, k requires 0 <= k < |h| => Item(h[k]))
  }

  function KeptIn(h: seq<Fate>): seq<Message> {
    if h == [] then [] else (if h[0].Kept? then [h[0].message] else []) + KeptIn(h[1..])
  }

  function ReplyIf(policy: Policy, m: Message): seq<Outgoing> {
    if IsServerRequest(m) then [ReplyTo(policy, m)] else []
  }

  function RepliesFor(policy: Policy, ms: seq<Message>): seq<Outgoing> {
    if ms == [] then [] else ReplyIf(policy, ms[0]) + RepliesFor(policy, ms[1..])
  }

  function RepliesIn(out: seq<Outgoing>): seq<Outgoing> {
    if out == [] then [] else (if out[0].Accept? || out[0].Refuse? then [out[0]] else []) + RepliesIn(out[1..])
  }

  function AnswerFates(c: Client, request: nat, patience: nat): seq<Fate>
    decreases patience
  {
    if patience == 0 || c.inbox == [] then [] else
      var rest := c.(inbox := c.inbox[1..]);
      if c.inbox[0].Closed? then [End] else
        var m := c.inbox[0].message;
        if Answers(m, request) then [Given(request, m)]
        else if IsServerRequest(m) then
          var (served, alive) := Serve(rest, m);
          [Kept(m)] + if alive then AnswerFates(served, request, patience - 1) else []
        else [Kept(m)] + AnswerFates(rest.(events := rest.events + [m]), request, patience - 1)
  }

  function EventFates(c: Client, w: Wanted, patience: nat): seq<Fate>
    decreases patience
  {
    if patience == 0 || c.inbox == [] then [] else
      var rest := c.(inbox := c.inbox[1..]);
      if c.inbox[0].Closed? then [End] else
        var m := c.inbox[0].message;
        if IsServerRequest(m) then
          var (served, alive) := Serve(rest, m);
          [Kept(m)] + if alive then EventFates(served, w, patience - 1) else []
        else [Kept(m)] + if IsWanted(w, m) then [] else EventFates(rest.(events := rest.events + [m]), w, patience - 1)
  }

  function Fates(c: Client, op: Op): seq<Fate> {
    match op
    case RequestOp(verb, patience) =>
      if c.writes == 0 then [] else
        AnswerFates(c.(nextId := c.nextId + 1, sent := c.sent + [Call(c.nextId, verb)], writes := c.writes - 1),
                    c.nextId, patience)
    case WaitOp(w, after, patience) =>
      var start := if after <= |c.events| then after else |c.events|;
      if FirstWanted(w, c.events, start) < |c.events| then [] else EventFates(c, w, patience)
    case NoticeOp(_) => []
  }

  function RunFates(c: Client, ops: seq<Op>): seq<Fate> {
    if ops == [] then [] else RunFates(c, ops[..|ops| - 1]) + Fates(RunState(c, ops[..|ops| - 1]), ops[|ops| - 1])
  }

  /**
   `d` is `c` after the items with fates `h` were dequeued: they came off the front of the inbox in
   order, the kept ones were appended to the events in order, and server requests among them were
   answered one by one, in order, for as long as the process lived. All were answered if `d` can
   still write, or if no send failed (`lived`).
   */
  ghost predicate Accounts(c: Client, h: seq<Fate>, d: Client, lived: bool) {
    && c.inbox == Items(h) + d.inbox && d.policy == c.policy
    && d.events == c.events + KeptIn(h)
    && RepliesIn(d.sent) <= RepliesIn(c.sent) + RepliesFor(c.policy, KeptIn(h))
    && (d.writes > 0 || lived ==> RepliesIn(d.sent) == RepliesIn(c.sent) + RepliesFor(c.policy, KeptIn(h)))
    && (c.writes == 0 ==> d.sent == c.sent && d.writes == 0)
  }

  lemma {:induction false} KeptConcat(a: seq<Fate>, b: seq<Fate>)
    ensures KeptIn(a + b) == KeptIn(a) + KeptIn(b)
  {
    if a == [] {
      assert a + b == b;
    } else {
      KeptConcat(a[1..], b);
      assert (a + b)[0] == a[0] && (a + b)[1..] == a[1..] + b;
      Associate(if a[0].Kept? then [a[0].message] else [], KeptIn(a[1..]), KeptIn(b));
    }
  }

  lemma {:induction false} RepliesForConcat(policy: Policy, a: seq<Message>, b: seq<Message>)
    ensures RepliesFor(policy, a + b) == RepliesFor(policy, a) + RepliesFor(policy, b)
  {
    if a == [] {
      assert a + b == b;
    } else {
      RepliesForConcat(policy, a[1..], b);
      assert (a + b)[0] == a[0] && (a + b)[1..] == a[1..] + b;
      Associate(ReplyIf(policy, a[0]), RepliesFor(policy, a[1..]), RepliesFor(policy, b));
    }
  }

  lemma {:induction false} RepliesInConcat(a: seq<Outgoing>, b: seq<Outgoing>)
    ensures RepliesIn(a + b) == RepliesIn(a) + RepliesIn(b)
  {
    if a == [] {
      assert a + b == b;
    } else {
      RepliesInConcat(a[1..], b);
      assert (a + b)[0] == a[0] && (a + b)[1..] == a[1..] + b;
      Associate(if a[0].Accept? || a[0].Refuse? then [a[0]] else [], RepliesIn(a[1..]), RepliesIn(b));
    }
  }

  /** Accounts of consecutive stretches join. */
  lemma AccountsJoin(c: Client, h: seq<Fate>, d: Client, first: bool, g: seq<Fate>, e: Client, second: bool)
    requires Accounts(c, h, d, first) && Accounts(d, g, e, second)
    ensures Accounts(c, h + g, e, first && second)
  {
    KeptConcat(h, g);
    RepliesForConcat(c.policy, KeptIn(h), KeptIn(g));
    ItemsJoin(c.inbox, h, g, d.inbox, e.inbox);
    Associate(c.events, KeptIn(h), KeptIn(g));
    Associate(RepliesIn(c.sent), RepliesFor(c.policy, KeptIn(h)), RepliesFor(c.policy, KeptIn(g)));
  }

  lemma ItemsJoin(all: seq<Incoming>, h: seq<Fate>, g: seq<Fate>, mid: seq<Incoming>, rest: seq<Incoming>)
    requires all == Items(h) + mid && mid == Items(g) + rest
    ensures all == Items(h + g) + rest
  {
    assert Items(h + g) == Items(h) + Items(g);
  }

  lemma NothingHappened(c: Client, d: Client)
    requires c.inbox == d.inbox && c.events == d.events && d.policy == c.policy
            && RepliesIn(d.sent) == RepliesIn(c.sent)
    requires c.writes == 0 ==> d.sent == c.sent && d.writes == 0
    ensures Accounts(c, [], d, true)
  {
  }

  lemma ServeAccounts(c: Client, m: Message)
    requires c.inbox != [] && c.inbox[0] == Arrived(m) && IsServerRequest(m)
    ensures var (served, alive) := Serve(c.(inbox := c.inbox[1..]), m); Accounts(c, [Kept(m)], served, alive)
  {
    var h := [Kept(m)];
    var reply := ReplyTo(c.policy, m);
    assert h[1..] == [] && KeptIn(h) == [m] && [m][1..] == [] && RepliesFor(c.policy, [m]) == [reply];
    RepliesInConcat(c.sent, [reply]);
    assert RepliesIn([reply]) == [reply] by { assert [reply][1..] == []; }
    assert c.inbox == Items(h) + c.inbox[1..];
  }

  lemma TakeAccounts(c: Client, f: Fate)
    requires c.inbox != [] && c.inbox[0] == Item(f) && (f.Kept? ==> !IsServerRequest(f.message))
    ensures Accounts(c, [f], c.(inbox := c.inbox[1..], events := c.events + if f.Kept? then [f.message] else []), true)
  {
    var h := [f];
    assert h[1..] == [] && KeptIn(h) == if f.Kept? then [f.message] else [];
    assert f.Kept? ==> [f.message][1..] == [];
    assert RepliesFor(c.policy, KeptIn(h)) == [];
    assert c.inbox == Items(h) + c.inbox[1..];
  }

  lemma AfterServing(c: Client, m: Message, g: seq<Fate>, d: Client, lived: bool)
    requires c.inbox != [] && c.inbox[0] == Arrived(m) && IsServerRequest(m)
    requires var (served, alive) := Serve(c.(inbox := c.inbox[1..]), m); alive && Accounts(served, g, d, lived)
    ensures Accounts(c, [Kept(m)] + g, d, lived)
  {
    ServeAccounts(c, m);
    AccountsJoin(c, [Kept(m)], Serve(c.(inbox := c.inbox[1..]), m).0, true, g, d, lived);
  }

  lemma AfterKeeping(c: Client, m: Message, g: seq<Fate>, d: Client, lived: bool)
    requires c.inbox != [] && c.inbox[0] == Arrived(m) && !IsServerRequest(m)
    requires Accounts(c.(inbox := c.inbox[1..], events := c.events + [m]), g, d, lived)
    ensures Accounts(c, [Kept(m)] + g, d, lived)
  {
    TakeAccounts(c, Kept(m));
    AccountsJoin(c, [Kept(m)], c.(inbox := c.inbox[1..], events := c.events + [m]), true, g, d, lived);
  }

  lemma {:induction false} AnswerAccounts(c: Client, request: nat, patience: nat)
    ensures var (d, outcome) := AwaitAnswer(c, request, patience);
            Accounts(c, AnswerFates(c, request, patience), d, outcome != ProcessExited)
    decreases patience
  {
    if patience == 0 || c.inbox == [] {
      NothingHappened(c, c);
    } else if c.inbox[0].Closed? {
      TakeAccounts(c, End);
    } else {
      var m, rest := c.inbox[0].message, c.(inbox := c.inbox[1..]);
      if Answers(m, request) {
        TakeAccounts(c, Given(request, m));
      } else if IsServerRequest(m) {
        var (served, alive) := Serve(rest, m);
        if alive {
          AnswerAccounts(served, request, patience - 1);
          var (d, outcome) := AwaitAnswer(served, request, patience - 1);
          AfterServing(c, m, AnswerFates(served, request, patience - 1), d, outcome != ProcessExited);
        } else {
          ServeAccounts(c, m);
          NothingAfter([Kept(m)]);
        }
      } else {
        var heard := rest.(events := rest.events + [m]);
        AnswerAccounts(heard, request, patience - 1);
        var (d, outcome) := AwaitAnswer(heard, request, patience - 1);
        AfterKeeping(c, m, AnswerFates(heard, request, patience - 1), d, outcome != ProcessExited);
      }
    }
  }

  lemma {:induction false} EventAccounts(c: Client, w: Wanted, patience: nat)
    ensures var (d, outcome) := AwaitEvent(c, w, patience);
            Accounts(c, EventFates(c, w, patience), d, outcome != ProcessExited)
    decreases patience
  {
    if patience == 0 || c.inbox == [] {
      NothingHappened(c, c);
    } else if c.inbox[0].Closed? {
      TakeAccounts(c, End);
    } else {
      var m, rest := c.inbox[0].message, c.(inbox := c.inbox[1..]);
      if IsServerRequest(m) {
        var (served, alive) := Serve(rest, m);
        if alive {
          EventAccounts(served, w, patience - 1);
          var (d, outcome) := AwaitEvent(served, w, patience - 1);
          AfterServing(c, m, EventFates(served, w, patience - 1), d, outcome != ProcessExited);
        } else {
          ServeAccounts(c, m);
          NothingAfter([Kept(m)]);
        }
      } else {
        var heard := rest.(events := rest.events + [m]);
        if IsWanted(w, m) {
          TakeAccounts(c, Kept(m));
          NothingAfter([Kept(m)]);
        } else {
          EventAccounts(heard, w, patience - 1);
          var (d, outcome) := AwaitEvent(heard, w, patience - 1);
          AfterKeeping(c, m, EventFates(heard, w, patience - 1), d, outcome != ProcessExited);
        }
      }
    }
  }

  lemma AskingAccounts(c: Client, verb: string, patience: nat)
    requires c.writes > 0
    ensures var asked := c.(nextId := c.nextId + 1, sent := c.sent + [Call(c.nextId, verb)], writes := c.writes - 1);
            var (d, outcome) := AwaitAnswer(asked, c.nextId, patience);
            Accounts(c, AnswerFates(asked, c.nextId, patience), d, outcome != ProcessExited)
  {
    var asked := c.(nextId := c.nextId + 1, sent := c.sent + [Call(c.nextId, verb)], writes := c.writes - 1);
    RepliesInConcat(c.sent, [Call(c.nextId, verb)]);
    assert RepliesIn([Call(c.nextId, verb)]) == [] by { assert [Call(c.nextId, verb)][1..] == []; }
    NothingHappened(c, asked);
    AnswerAccounts(asked, c.nextId, patience);
    var (d, outcome) := AwaitAnswer(asked, c.nextId, patience);
    AccountsJoin(c, [], asked, true, AnswerFates(asked, c.nextId, patience), d, outcome != ProcessExited);
    NothingBefore(AnswerFates(asked, c.nextId, patience));
  }

  lemma ExecAccounts(c: Client, op: Op)
    ensures Accounts(c, Fates(c, op), Exec(c, op).0, Exec(c, op).1 != ProcessExited)
  {
    match op
    case RequestOp(verb, patience) =>
      if c.writes == 0 {
        NothingHappened(c, c.(nextId := c.nextId + 1));
      } else {
        AskingAccounts(c, verb, patience);
      }
    case WaitOp(w, after, patience) =>
      var start := if after <= |c.events| then after else |c.events|;
      if FirstWanted(w, c.events, start) < |c.events| {
        NothingHappened(c, c);
      } else {
        EventAccounts(c, w, patience);
      }
    case NoticeOp(verb) =>
      RepliesInConcat(c.sent, [Notify(verb)]);
      assert RepliesIn([Notify(verb)]) == [] by { assert [Notify(verb)][1..] == []; }
      NothingHappened(c, Exec(c, op).0);
  }

  /** No operation of the session found the process gone. */
  ghost predicate Lived(c: Client, ops: seq<Op>) {
    ops == [] || (Lived(c, ops[..|ops| - 1]) && Exec(RunState(c, ops[..|ops| - 1]), ops[|ops| - 1]).1 != ProcessExited)
  }

  /**
   Over any session every dequeued message is either handed to the request it answers or kept as
   an event, exactly once and in arrival order, and every kept server request gets exactly one
   reply, carrying its id, unless some operation found the process gone; even then the replies sent
   are the first ones, in order.
   */
  lemma {:induction false} SessionAccounts(c: Client, ops: seq<Op>)
    ensures Accounts(c, RunFates(c, ops), RunState(c, ops), Lived(c, ops))
  {
    if ops == [] {
      NothingHappened(c, c);
    } else {
      var before, op := ops[..|ops| - 1], ops[|ops| - 1];
      var d := RunState(c, before);
      SessionAccounts(c, before);
      ExecAccounts(d, op);
      AccountsJoin(c, RunFates(c, before), d, Lived(c, before), Fates(d, op), RunState(c, ops),
                   Exec(d, op).1 != ProcessExited);
    }
  }

  // ---------------------------------------------------------------- own answers only

  /** Nothing but a final answer to the request is handed over, and no answer to it is kept. */
  ghost predicate OwnFates(h: seq<Fate>, request: nat, o: Outcome) {
    && (o.Returned? ==> Answers(o.message, request) && h != [] && h[|h| - 1] == Given(request, o.message))
    && (forall k :: 0 <= k < |h| && h[k].Given? ==> k == |h| - 1 && o == Returned(h[k].message))
    && (forall k :: 0 <= k < |h| && h[k].Kept? ==> !Answers(h[k].message, request))
  }

  lemma OneMoreKept(m: Message, tail: seq<Fate>, request: nat, o: Outcome)
    requires !Answers(m, request) && OwnFates(tail, request, o)
    ensures OwnFates([Kept(m)] + tail, request, o)
  {
    var h := [Kept(m)] + tail;
    forall k | 0 <= k < |h|
      ensures h[k].Given? ==> k == |h| - 1 && o == Returned(h[k].message)
      ensures h[k].Kept? ==> !Answers(h[k].message, request)
    {
      if k > 0 {
        assert h[k] == tail[k - 1];
      }
    }
  }

  lemma {:induction false} AnswerIsOwn(c: Client, request: nat, patience: nat)
    ensures AwaitAnswer(c, request, patience).0.nextId == c.nextId
    ensures OwnFates(AnswerFates(c, request, patience), request, AwaitAnswer(c, request, patience).1)
    decreases patience
  {
    if patience > 0 && c.inbox != [] && c.inbox[0].Arrived? {
      var m, rest := c.inbox[0].message, c.(inbox := c.inbox[1..]);
      if !Answers(m, request) {
        OneMoreKept(m, [], request, ProcessExited);
        NothingAfter([Kept(m)]);
        if !IsServerRequest(m) {
          var heard := rest.(events := rest.events + [m]);
          AnswerIsOwn(heard, request, patience - 1);
          OneMoreKept(m, AnswerFates(heard, request, patience - 1), request,
                      AwaitAnswer(heard, request, patience - 1).1);
        } else if Serve(rest, m).1 {
          var served := Serve(rest, m).0;
          AnswerIsOwn(served, request, patience - 1);
          OneMoreKept(m, AnswerFates(served, request, patience - 1), request,
                      AwaitAnswer(served, request, patience - 1).1);
        }
      }
    }
  }

  lemma {:induction false} WaitGivesNothing(c: Client, w: Wanted, patience: nat)
    ensures AwaitEvent(c, w, patience).0.nextId == c.nextId
    ensures forall k :: 0 <= k < |EventFates(c, w, patience)| ==> !EventFates(c, w, patience)[k].Given?
    decreases patience
  {
    if patience > 0 && c.inbox != [] && c.inbox[0].Arrived? {
      var m, rest := c.inbox[0].message, c.(inbox := c.inbox[1..]);
      if IsServerRequest(m) {
        if Serve(rest, m).1 { WaitGivesNothing(Serve(rest, m).0, w, patience - 1); }
      } else if !IsWanted(w, m) {
        WaitGivesNothing(rest.(events := rest.events + [m]), w, patience - 1);
      }
    }
  }

  lemma RequestIds(c: Client, verb: string, patience: nat)
    ensures var op := RequestOp(verb, patience);
            && Exec(c, op).0.nextId == c.nextId + 1
            && (Exec(c, op).1.Returned? ==> Answers(Exec(c, op).1.message, c.nextId))
            && forall k :: 0 <= k < |Fates(c, op)| && Fates(c, op)[k].Given? ==>
                 Fates(c, op)[k].request == c.nextId && Exec(c, op).1 == Returned(Fates(c, op)[k].message)
  {
    if c.writes > 0 {
      var asked := c.(nextId := c.nextId + 1, sent := c.sent + [Call(c.nextId, verb)], writes := c.writes - 1);
      AnswerIsOwn(asked, c.nextId, patience);
      assert Fates(c, RequestOp(verb, patience)) == AnswerFates(asked, c.nextId, patience);
    }
  }

  /** Each operation spends at most one id, and a request hands out at most the answer to its own id. */
  lemma ExecIds(c: Client, op: Op)
    ensures Exec(c, op).0.nextId == c.nextId + if op.RequestOp? then 1 else 0
    ensures op.RequestOp? && Exec(c, op).1.Returned? ==> Answers(Exec(c, op).1.message, c.nextId)
    ensures forall k :: 0 <= k < |Fates(c, op)| && Fates(c, op)[k].Given? ==>
              op.RequestOp? && Fates(c, op)[k].request == c.nextId && Exec(c, op).1 == Returned(Fates(c, op)[k].message)
  {
    match op
    case RequestOp(verb, patience) => RequestIds(c, verb, patience);
    case WaitOp(w, after, patience) => WaitGivesNothing(c, w, patience);
    case NoticeOp(_) =>
  }

  lemma {:induction false} IdsOnlyGrow(c: Client, ops: seq<Op>, j: nat, k: nat)
    requires j <= k <= |ops|
    ensures RunState(c, ops[..j]).nextId <= RunState(c, ops[..k]).nextId
    ensures j < k && ops[j].RequestOp? ==> RunState(c, ops[..j]).nextId < RunState(c, ops[..k]).nextId
  {
    if j < k {
      IdsOnlyGrow(c, ops, j, k - 1);
      ExecIds(RunState(c, ops[..k - 1]), ops[k - 1]);
      assert ops[..k][..k - 1] == ops[..k - 1];
    }
  }

  /** A late answer to an earlier request is never returned by a later one. */
  lemma LateAnswersAreNotReturned(c: Client, ops: seq<Op>, j: nat, k: nat)
    requires j < k < |ops| && ops[j].RequestOp? && ops[k].RequestOp?
    requires Exec(RunState(c, ops[..k]), ops[k]).1.Returned?
    ensures var m := Exec(RunState(c, ops[..k]), ops[k]).1.message;
            Answers(m, RunState(c, ops[..k]).nextId) && !Answers(m, RunState(c, ops[..j]).nextId)
  {
    IdsOnlyGrow(c, ops, j, k);
    ExecIds(RunState(c, ops[..k]), ops[k]);
  }
}
