/** JSON-RPC over a websocket: requests wait in a table under their id until a response, their timer or
    close settles their promise. */
module Rpc {
  import opened Common

  datatype Outcome = Resolved | TimedOut | Closed

  /** A call of resolve or reject on the promise of the ticket-th request. */
  datatype Call = Call(ticket: nat, outcome: Outcome)

  /** An armed timer and the request id its callback will clear. */
  datatype Timer = Timer(requestId: int, deadline: int)

  /** `pending` is the request map; `sentAt[t]` is when request t was sent; `calls` are all calls of resolve
      and reject so far. */
  datatype State = State(now: int, connected: bool, pending: map<int, nat>, timers: map<nat, Timer>,
                         sentAt: seq<int>, calls: multiset<Call>)

  const MAX_TIMEOUT := 3000
  const DEFAULT_TIMEOUT := 10000

  /** setTimeout raises delays below one millisecond to one. */
  function Delay(timeout: Option<int>): (d: int)
    ensures timeout.Some? && 1 <= timeout.value <= MAX_TIMEOUT ==> d == timeout.value
    ensures timeout.Some? && timeout.value < 1 ==> d == 1
    ensures timeout.None? || timeout.value > MAX_TIMEOUT ==> d == MAX_TIMEOUT
  {
    var wanted := if timeout.Some? then timeout.value else DEFAULT_TIMEOUT;
    var capped := if wanted < MAX_TIMEOUT then wanted else MAX_TIMEOUT;
    if capped < 1 then 1 else capped
  }

  datatype Step =
    | Connect
    | Send(id: int, timeout: Option<int>)
    | Receive(responseId: Option<int>)
    | Fire(ticket: nat)
    | Lose
    | Close
    | Tick

  /** Timers fire when they are due, and time does not pass over one. */
  predicate Enabled(s: State, step: Step) {
    match step
    case Fire(ticket) => ticket in s.timers && s.timers[ticket].deadline <= s.now
    case Tick => forall t :: t in s.timers ==> s.now < s.timers[t].deadline
    case _ => true
  }

  function Sent(s: State, id: int, timeout: Option<int>): State {
    var ticket := |s.sentAt|;
    s.(pending := s.pending[id := ticket], timers := s.timers[ticket := Timer(id, s.now + Delay(timeout))],
       sentAt := s.sentAt + [s.now])
  }

  /** clearRequest: forget the request now registered under this id, and its timer. */
  function Cleared(s: State, id: int): State {
    if id in s.pending then s.(timers := s.timers - {s.pending[id]}, pending := s.pending - {id}) else s
  }

  function Received(s: State, id: int): State {
    if id in s.pending then Cleared(s, id).(calls := s.calls + multiset{Call(s.pending[id], Resolved)}) else s
  }

  function Fired(s: State, ticket: nat): State
    requires ticket in s.timers
  {
    var spent := s.(timers := s.timers - {ticket});
    Cleared(spent, s.timers[ticket].requestId).(calls := s.calls + multiset{Call(ticket, TimedOut)})
  }

  function Waiting(s: State): set<nat> {
    set id | id in s.pending :: s.pending[id]
  }

  function CloseCalls(tickets: set<nat>): multiset<Call> {
    multiset(set t | t in tickets :: Call(t, Closed))
  }

  function ClosedDown(s: State): State {
    s.(pending := map[], timers := s.timers - Waiting(s), connected := false,
       calls := s.calls + CloseCalls(Waiting(s)))
  }

  /** Responses without an id, or with id 0, are treated as events. */
  function Apply(s: State, step: Step): State {
    match step
    case Connect => s.(connected := true)
    case Send(id, timeout) => if s.connected then Sent(s, id, timeout) else s
    case Receive(id) => if id.None? || id.value == 0 then s else Received(s, id.value)
    case Fire(ticket) => if Enabled(s, step) then Fired(s, ticket) else s
    case Lose => s.(connected := false)
    case Close => ClosedDown(s)
    case Tick => if Enabled(s, step) then s.(now := s.now + 1) else s
  }

  function Run(s: State, steps: seq<Step>): State
    decreases |steps|
  {
    if steps == [] then s else Run(Apply(s, steps[0]), steps[1..])
  }

  const INITIAL := State(0, false, map[], map[], [], multiset{})

  // ---------- whatever the ids ----------

  /** How often the promise of request t has been settled by these calls. */
  function Settled(calls: multiset<Call>, t: nat): nat {
    calls[Call(t, Resolved)] + calls[Call(t, TimedOut)] + calls[Call(t, Closed)]
  }

  /** Every waiting request has its own armed timer; nothing that waits or is armed has been settled; nothing
      has been settled twice; timers are due within MAX_TIMEOUT of sending. */
  ghost predicate Inv(s: State) {
    && (forall id :: id in s.pending ==> s.pending[id] in s.timers && s.timers[s.pending[id]].requestId == id)
    && (forall t :: t in s.timers ==> t < |s.sentAt| && Settled(s.calls, t) == 0
                                      && s.now <= s.timers[t].deadline <= s.sentAt[t] + MAX_TIMEOUT)
    && (forall t: nat :: Settled(s.calls, t) <= 1)
    && (forall t: nat :: t >= |s.sentAt| ==> Settled(s.calls, t) == 0)
  }

  /** How a step settles: a response resolves, a timer rejects as timed out, close rejects as closed. */
  function OutcomeOf(step: Step): Option<Outcome> {
    match step
    case Receive(_) => Some(Resolved)
    case Fire(_) => Some(TimedOut)
    case Close => Some(Closed)
    case _ => None
  }

  /** What each step adds to the calls, outcome by outcome. */
  lemma StepCalls(s: State, step: Step)
    ensures forall t: nat, o :: Apply(s, step).calls[Call(t, o)]
                                == s.calls[Call(t, o)]
                                   + if SettlesNow(s, step, t) && OutcomeOf(step) == Some(o) then 1 else 0
    ensures forall t: nat ::
              Settled(Apply(s, step).calls, t) == Settled(s.calls, t) + if SettlesNow(s, step, t) then 1 else 0
  {
    if step.Close? {
      var closing := set t | t in Waiting(s) :: Call(t, Closed);
      forall t: nat
        ensures Call(t, Closed) in closing <==> t in Waiting(s)
        ensures Call(t, Resolved) !in closing && Call(t, TimedOut) !in closing
      {}
    }
    forall t: nat, o
      ensures Apply(s, step).calls[Call(t, o)]
              == s.calls[Call(t, o)] + if SettlesNow(s, step, t) && OutcomeOf(step) == Some(o) then 1 else 0
    {}
  }

  /** At some moment of the run, request t was settled in this way: a response to its id came while it was
      registered, its own timer fired, or close found it waiting. */
  ghost predicate SettledDuring(s: State, steps: seq<Step>, t: nat, o: Outcome)
    decreases |steps|
  {
    steps != [] && ((SettlesNow(s, steps[0], t) && OutcomeOf(steps[0]) == Some(o))
                    || SettledDuring(Apply(s, steps[0]), steps[1..], t, o))
  }

  lemma OneOutcomeCounts(calls: multiset<Call>, t: nat, o: Outcome)
    ensures calls[Call(t, o)] <= Settled(calls, t)
  {
    match o
    case Resolved =>
    case TimedOut =>
    case Closed =>
  }

  /** For any ids, a promise is resolved, timed out or closed exactly if that happened to its request. */
  lemma {:induction false} OutcomesOverRuns(s: State, steps: seq<Step>, t: nat, o: Outcome)
    requires Inv(s)
    ensures Run(s, steps).calls[Call(t, o)]
            == s.calls[Call(t, o)] + if SettledDuring(s, steps, t, o) then 1 else 0
    decreases |steps|
  {
    if steps != [] {
      var next := Apply(s, steps[0]);
      StepCalls(s, steps[0]);
      StepKeepsInv(s, steps[0]);
      OutcomesOverRuns(next, steps[1..], t, o);
      NeverSettledTwice(next, steps[1..]);
      OneOutcomeCounts(Run(next, steps[1..]).calls, t, o);
    }
  }

  /** What a request leaves in the table, and that nothing else but connecting, losing the socket and closing
      changes the connection. */
  lemma SendRegisters(s: State, id: int, timeout: Option<int>)
    ensures !s.connected ==> Apply(s, Send(id, timeout)) == s
    ensures s.connected ==>
              var (after, t) := (Apply(s, Send(id, timeout)), |s.sentAt|);
              && after.sentAt == s.sentAt + [s.now] && after.connected && after.now == s.now && after.calls == s.calls
              && (forall i :: i in after.pending <==> i == id || i in s.pending)
              && (forall i :: i in after.pending ==> after.pending[i] == if i == id then t else s.pending[i])
              && (forall u :: u in after.timers <==> u == t || u in s.timers)
              && (forall u :: u in after.timers && u != t ==> after.timers[u] == s.timers[u])
              && after.timers[t].requestId == id
              && after.timers[t].deadline
                 == s.now + if timeout.None? || timeout.value > MAX_TIMEOUT then MAX_TIMEOUT
                            else if timeout.value < 1 then 1 else timeout.value
  {
  }

  lemma ConnectionAfter(s: State, step: Step)
    ensures Apply(s, step).connected == (step.Connect? || (s.connected && !step.Lose? && !step.Close?))
    ensures Apply(s, step).now == s.now + if step.Tick? && Enabled(s, step) then 1 else 0
  {
  }

  /** The step settles the promise of request t. */
  predicate SettlesNow(s: State, step: Step, t: nat) {
    match step
    case Receive(id) => id.Some? && id.value != 0 && id.value in s.pending && s.pending[id.value] == t
    case Fire(ticket) => Enabled(s, step) && ticket == t
    case Close => t in Waiting(s)
    case _ => false
  }

  /** Settling steps only take timers and entries away, and what they settle loses its timer. */
  ghost predicate OnlySettles(s: State, step: Step, after: State) {
    && after.sentAt == s.sentAt && after.now == s.now
    && (forall t :: t in after.timers ==> t in s.timers && after.timers[t] == s.timers[t] && !SettlesNow(s, step, t))
    && (forall id :: id in after.pending ==>
            id in s.pending && after.pending[id] == s.pending[id] && after.pending[id] in after.timers)
    && (forall t :: SettlesNow(s, step, t) ==> t in s.timers)
  }

  lemma ReceiveOnlySettles(s: State, id: Option<int>)
    requires Inv(s)
    ensures OnlySettles(s, Receive(id), Apply(s, Receive(id)))
  {
    if id.Some? && id.value in s.pending {
      assert forall i :: i in s.pending && s.pending[i] == s.pending[id.value] ==> i == id.value;
    }
  }

  lemma TicketHasOneId(s: State, i: int, k: int)
    requires Inv(s) && i in s.pending && k in s.pending && s.pending[i] == s.pending[k]
    ensures i == k
  {
  }

  lemma FireOnlySettles(s: State, ticket: nat)
    requires Inv(s)
    ensures OnlySettles(s, Fire(ticket), Apply(s, Fire(ticket)))
  {
    if Enabled(s, Fire(ticket)) {
      var (id, after) := (s.timers[ticket].requestId, Fired(s, ticket));
      forall i | i in after.pending
        ensures i in s.pending && after.pending[i] == s.pending[i] && after.pending[i] in after.timers
      {
        if id in s.pending && s.pending[i] == s.pending[id] { TicketHasOneId(s, i, id); }
      }
    }
  }

  lemma CloseOnlySettles(s: State)
    requires Inv(s)
    ensures OnlySettles(s, Close, Apply(s, Close))
  {
  }

  lemma SettlingStep(s: State, step: Step)
    requires Inv(s) && (step.Receive? || step.Fire? || step.Close?)
    ensures OnlySettles(s, step, Apply(s, step))
  {
    match step
    case Receive(id) => ReceiveOnlySettles(s, id);
    case Fire(ticket) => FireOnlySettles(s, ticket);
    case _ => CloseOnlySettles(s);
  }

  lemma OnlySettlesKeepsInv(s: State, step: Step, after: State)
    requires Inv(s) && OnlySettles(s, step, after)
    requires forall t: nat :: Settled(after.calls, t) == Settled(s.calls, t) + if SettlesNow(s, step, t) then 1 else 0
    ensures Inv(after)
  {
  }

  lemma StepKeepsInv(s: State, step: Step)
    requires Inv(s)
    ensures Inv(Apply(s, step))
  {
    StepCalls(s, step);
    if step.Receive? || step.Fire? || step.Close? {
      SettlingStep(s, step);
      OnlySettlesKeepsInv(s, step, Apply(s, step));
    }
  }

  /** No promise is ever settled twice, whatever ids are used; and whoever still waits for its response or
      its timer does so for at most MAX_TIMEOUT milliseconds. */
  lemma {:induction false} NeverSettledTwice(s: State, steps: seq<Step>)
    requires Inv(s)
    ensures Inv(Run(s, steps))
    ensures forall t: nat :: Settled(Run(s, steps).calls, t) <= 1
    decreases |steps|
  {
    if steps != [] {
      StepKeepsInv(s, steps[0]);
      NeverSettledTwice(Apply(s, steps[0]), steps[1..]);
    }
  }

  // ---------- ids that do not collide in flight ----------

  /** Pending entries, armed timers and unsettled promises correspond one to one. */
  ghost predicate Matched(s: State) {
    && (forall t :: t in s.timers ==> s.timers[t].requestId in s.pending && s.pending[s.timers[t].requestId] == t)
    && (forall t: nat :: t < |s.sentAt| ==> (Settled(s.calls, t) == 0 <==> t in s.timers))
  }

  /** The id of a request is not in use by a request in flight. */
  predicate FreshId(s: State, step: Step) {
    step.Send? && s.connected ==> step.id !in s.pending
  }

  /** The correspondence survives a step exactly when a request does not reuse an id in flight. */
  lemma StepKeepsMatchedIff(s: State, step: Step)
    requires Inv(s) && Matched(s)
    ensures Matched(Apply(s, step)) <==> FreshId(s, step)
  {
    StepCalls(s, step);
    if step.Receive? || step.Fire? || step.Close? {
      SettlingStepKeepsMatched(s, step);
    } else if step.Send? && s.connected && step.id in s.pending {
      var after := Apply(s, step);
      assert s.pending[step.id] in after.timers && after.timers[s.pending[step.id]].requestId == step.id;
    }
  }

  /** With matching tables, a settling step settles exactly the requests whose timers it takes away. */
  lemma SettlingStepKeepsMatched(s: State, step: Step)
    requires Inv(s) && Matched(s) && (step.Receive? || step.Fire? || step.Close?)
    ensures Matched(Apply(s, step))
  {
    StepCalls(s, step);
    SettlingStep(s, step);
    LostTimersSettled(s, step);
    MatchedAfter(s, step, Apply(s, step));
  }

  lemma LostTimersSettled(s: State, step: Step)
    requires Inv(s) && Matched(s) && (step.Receive? || step.Fire? || step.Close?)
    ensures forall t :: t in s.timers && t !in Apply(s, step).timers ==> SettlesNow(s, step, t)
    ensures forall id :: id in s.pending && id !in Apply(s, step).pending ==> s.pending[id] !in Apply(s, step).timers
  {
    assert forall t :: t in s.timers ==> t in Waiting(s);
  }

  lemma MatchedAfter(s: State, step: Step, after: State)
    requires Matched(s) && OnlySettles(s, step, after)
    requires forall t: nat :: Settled(after.calls, t) == Settled(s.calls, t) + if SettlesNow(s, step, t) then 1 else 0
    requires forall t :: t in s.timers && t !in after.timers ==> SettlesNow(s, step, t)
    requires forall id :: id in s.pending && id !in after.pending ==> s.pending[id] !in after.timers
    ensures Matched(after)
  {
  }

  ghost predicate FreshIds(s: State, steps: seq<Step>)
    decreases |steps|
  {
    steps == [] || (FreshId(s, steps[0]) && FreshIds(Apply(s, steps[0]), steps[1..]))
  }

  lemma WaitingOrSettled(s: State)
    requires Inv(s) && Matched(s)
    ensures forall t: nat :: t < |s.sentAt| ==>
              Settled(s.calls, t) == 1 || (Settled(s.calls, t) == 0 && t in Waiting(s) && t in s.timers)
    ensures forall t: nat :: t < |s.sentAt| && s.now > s.sentAt[t] + MAX_TIMEOUT ==> Settled(s.calls, t) == 1
  {
    forall t: nat | t < |s.sentAt| && Settled(s.calls, t) == 0 ensures t in Waiting(s) && t in s.timers {
      assert s.pending[s.timers[t].requestId] == t;
    }
  }

  lemma ClosingSettlesAll(s: State)
    requires Inv(s) && Matched(s)
    ensures var c := Apply(s, Close);
            c.pending == map[] && c.timers == map[] && forall t: nat :: t < |c.sentAt| ==> Settled(c.calls, t) == 1
  {
    StepCalls(s, Close);
    assert forall t :: t in s.timers ==> t in Waiting(s);
    WaitingOrSettled(s);
  }

  /** If no request reuses an id in flight, then in every reachable state each request has been settled exactly
      once, in the way that matches what settled it, or still waits in the table with its timer armed;
      MAX_TIMEOUT milliseconds after sending it has been settled; and closing settles all that still wait and leaves
      no timer armed. */
  lemma {:induction false} EveryRequestSettled(s: State, steps: seq<Step>)
    requires Inv(s) && Matched(s) && FreshIds(s, steps)
    ensures forall t: nat, o ::
              Run(s, steps).calls[Call(t, o)] == s.calls[Call(t, o)] + if SettledDuring(s, steps, t, o) then 1 else 0
    ensures var r := Run(s, steps);
            && Inv(r) && Matched(r)
            && (forall t: nat :: t < |r.sentAt| ==>
                    Settled(r.calls, t) == 1 || (Settled(r.calls, t) == 0 && t in Waiting(r) && t in r.timers))
            && (forall t: nat :: t < |r.sentAt| && r.now > r.sentAt[t] + MAX_TIMEOUT ==> Settled(r.calls, t) == 1)
    ensures var c := Apply(Run(s, steps), Close);
            c.pending == map[] && c.timers == map[] && forall t: nat :: t < |c.sentAt| ==> Settled(c.calls, t) == 1
    decreases |steps|
  {
    forall t: nat, o
      ensures Run(s, steps).calls[Call(t, o)]
              == s.calls[Call(t, o)] + if SettledDuring(s, steps, t, o) then 1 else 0
    {
      OutcomesOverRuns(s, steps, t, o);
    }
    if steps == [] {
      WaitingOrSettled(s);
      ClosingSettlesAll(s);
    } else {
      StepKeepsInv(s, steps[0]);
      StepKeepsMatchedIff(s, steps[0]);
      EveryRequestSettled(Apply(s, steps[0]), steps[1..]);
    }
  }

  // ---------- what a reused id costs ----------

  /** Request t is unsettled, and neither table nor timer knows it. */
  ghost predicate Stranded(s: State, t: nat) {
    t < |s.sentAt| && Settled(s.calls, t) == 0 && t !in s.timers
  }

  /** A stranded request is never settled again, not even by close. */
  lemma {:induction false} StrandedForever(s: State, steps: seq<Step>, t: nat)
    requires Inv(s) && Stranded(s, t)
    ensures Stranded(Run(s, steps), t)
    decreases |steps|
  {
    if steps != [] {
      StepKeepsInv(s, steps[0]);
      StrandedStep(s, steps[0], t);
      StrandedForever(Apply(s, steps[0]), steps[1..], t);
    }
  }

  lemma StrandedStep(s: State, step: Step, t: nat)
    requires Inv(s) && Stranded(s, t)
    ensures Stranded(Apply(s, step), t)
  {
    StepCalls(s, step);
    if step.Receive? || step.Fire? || step.Close? { SettlingStep(s, step); }
  }

  /** The step strands request t: the timer of another request under the same id fires while t is registered. */
  predicate StrandsNow(s: State, step: Step, t: nat) {
    && step.Fire? && Enabled(s, step) && step.ticket != t
    && s.timers[step.ticket].requestId in s.pending && s.pending[s.timers[step.ticket].requestId] == t
  }

  /** That is the only way for a request to become stranded. */
  lemma StepStrandsIff(s: State, step: Step, t: nat)
    requires Inv(s) && !Stranded(s, t)
    ensures Stranded(Apply(s, step), t) <==> StrandsNow(s, step, t)
  {
    StepCalls(s, step);
    if step.Receive? || step.Fire? || step.Close? {
      SettlingStep(s, step);
      LostUnsettled(s, step, t);
    }
  }

  /** A timer that goes without its promise being settled goes in that way. */
  lemma LostUnsettled(s: State, step: Step, t: nat)
    requires Inv(s) && (step.Receive? || step.Fire? || step.Close?)
    ensures StrandsNow(s, step, t) ==> t in s.timers && t !in Apply(s, step).timers && !SettlesNow(s, step, t)
    ensures t in s.timers && t !in Apply(s, step).timers && !SettlesNow(s, step, t) ==> StrandsNow(s, step, t)
  {
  }

  ghost predicate StrandedDuring(s: State, steps: seq<Step>, t: nat)
    decreases |steps|
  {
    steps != [] && (StrandsNow(s, steps[0], t) || StrandedDuring(Apply(s, steps[0]), steps[1..], t))
  }

  /** Over every run, with ids reused at will, a promise is stranded exactly when at some moment the timer of
      another request under its id fires while it is the one registered. */
  lemma {:induction false} StrandedIff(s: State, steps: seq<Step>, t: nat)
    requires Inv(s) && !Stranded(s, t)
    ensures Stranded(Run(s, steps), t) <==> StrandedDuring(s, steps, t)
    decreases |steps|
  {
    if steps != [] {
      var next := Apply(s, steps[0]);
      StepKeepsInv(s, steps[0]);
      StepStrandsIff(s, steps[0], t);
      if Stranded(next, t) { StrandedForever(next, steps[1..], t); } else { StrandedIff(next, steps[1..], t); }
    }
  }

  lemma NeverRegisteredAgain(s: State, step: Step, t: nat)
    requires Inv(s) && t < |s.sentAt| && t !in Waiting(s)
    ensures t < |Apply(s, step).sentAt| && t !in Waiting(Apply(s, step)) && !StrandsNow(s, step, t)
  {
    if step.Receive? || step.Fire? || step.Close? { SettlingStep(s, step); }
  }

  /** A request that has been answered, closed, timed out on its own or superseded in the table is out of danger. */
  lemma {:induction false} OutOfDanger(s: State, steps: seq<Step>, t: nat)
    requires Inv(s) && t < |s.sentAt| && t !in Waiting(s) && !Stranded(s, t)
    ensures !Stranded(Run(s, steps), t)
    decreases |steps|
  {
    if steps != [] {
      StepKeepsInv(s, steps[0]);
      StepStrandsIff(s, steps[0], t);
      NeverRegisteredAgain(s, steps[0], t);
      OutOfDanger(Apply(s, steps[0]), steps[1..], t);
    }
  }

  /** Request t is registered under an id for which the timer of another request is still armed. */
  ghost predicate Endangered(s: State, id: int, t: nat, other: nat, deadline: int) {
    id in s.pending && s.pending[id] == t && other != t && other in s.timers && s.timers[other] == Timer(id, deadline)
  }

  /** The steps that take request t, registered under this id, out of danger. */
  predicate Rescues(step: Step, id: int, t: nat) {
    match step
    case Receive(response) => response == Some(id) && id != 0
    case Send(i, timeout) => i == id
    case Fire(ticket) => ticket == t
    case Close => true
    case _ => false
  }

  lemma DangerStays(s: State, step: Step, id: int, t: nat, other: nat, deadline: int)
    requires Inv(s) && Endangered(s, id, t, other, deadline) && !Rescues(step, id, t)
    ensures Stranded(Apply(s, step), t) || Endangered(Apply(s, step), id, t, other, deadline)
  {
    StepCalls(s, step);
    if step.Receive? || step.Fire? { SettlingStep(s, step); }
  }

  /** If none of these happens before the older timer is due, the request is stranded. */
  lemma {:induction false} UnansweredReuseStrands(s: State, steps: seq<Step>, id: int, t: nat, other: nat,
                                                  deadline: int)
    requires Inv(s) && Endangered(s, id, t, other, deadline)
    requires (forall i :: 0 <= i < |steps| ==> !Rescues(steps[i], id, t)) && Run(s, steps).now > deadline
    ensures Stranded(Run(s, steps), t)
    decreases |steps|
  {
    if steps != [] {
      var next := Apply(s, steps[0]);
      StepKeepsInv(s, steps[0]);
      DangerStays(s, steps[0], id, t, other, deadline);
      if Stranded(next, t) {
        StrandedForever(next, steps[1..], t);
      } else {
        UnansweredReuseStrands(next, steps[1..], id, t, other, deadline);
      }
    }
  }

  /** Sending twice under one id: the first request's timer takes the second request's entry and timer with
      it, and the second promise is stranded. */
  lemma ReusedIdStrands(id: int)
    ensures var s := Run(INITIAL, [Connect, Send(id, Some(1)), Send(id, None), Tick, Fire(0)]);
            Stranded(s, 1) && Settled(s.calls, 0) == 1
  {
    var s2 := Apply(Apply(INITIAL, Connect), Send(id, Some(1)));
    assert Run(INITIAL, [Connect, Send(id, Some(1)), Send(id, None), Tick, Fire(0)])
           == Run(s2, [Send(id, None), Tick, Fire(0)]) by {
      var steps := [Connect, Send(id, Some(1)), Send(id, None), Tick, Fire(0)];
      assert steps[1..] == [Send(id, Some(1)), Send(id, None), Tick, Fire(0)];
      assert steps[1..][1..] == [Send(id, None), Tick, Fire(0)];
    }
    SecondSendStrands(id, s2);
  }

  lemma SecondSendStrands(id: int, s2: State)
    requires s2 == State(0, true, map[id := 0], map[0 := Timer(id, 1)], [0], multiset{})
    ensures var s := Run(s2, [Send(id, None), Tick, Fire(0)]); Stranded(s, 1) && Settled(s.calls, 0) == 1
  {
    var s3 := Apply(s2, Send(id, None));
    var s4 := Apply(s3, Tick);
    var s5 := Apply(s4, Fire(0));
    assert s3.timers == map[0 := Timer(id, 1), 1 := Timer(id, MAX_TIMEOUT)];
    assert s4.now == 1 && s5.calls == multiset{Call(0, TimedOut)};
    assert [Send(id, None), Tick, Fire(0)][1..] == [Tick, Fire(0)] && [Tick, Fire(0)][1..] == [Fire(0)];
    assert Run(s2, [Send(id, None), Tick, Fire(0)]) == Run(s3, [Tick, Fire(0)]) == Run(s4, [Fire(0)]) == s5;
  }
}
