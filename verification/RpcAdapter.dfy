/** WebsocketRpcExtendedAdapter: the request table and its timers, method by method. */
module RpcAdapterModel {
  import opened Common
  import opened Rpc

  class WebsocketRpcExtendedAdapter {
    var socket: bool
    /** Request id to ticket; the ticket stands for resolve, reject and timeout. */
    var requestMap: map<int, nat>
    /** The runtime around the adapter: clock, armed timers, promises. */
    var now: int
    var timers: map<nat, Timer>
    var sentAt: seq<int>
    ghost var calls: multiset<Call>

    ghost function State(): Rpc.State
      reads this
    {
      Rpc.State(now, socket, requestMap, timers, sentAt, calls)
    }

    constructor ()
      ensures State() == INITIAL
    {
      socket, requestMap, now, timers, sentAt, calls := false, map[], 0, map[], [], multiset{};
    }

    method Open()
      modifies this
      ensures State() == Apply(old(State()), Connect)
    {
      socket := true;
    }

    /** Throws when there is no socket. */
    method SendRequest(requestId: int, timeout: Option<int>) returns (promise: Option<nat>)
      modifies this
      ensures State() == Apply(old(State()), Send(requestId, timeout))
      ensures promise == if old(socket) then Some(|old(sentAt)|) else None
    {
      if !socket { return None; }
      var ticket := |sentAt|;
      timers := timers[ticket := Timer(requestId, now + Delay(timeout))];
      requestMap := requestMap[requestId := ticket];
      sentAt := sentAt + [now];
      return Some(ticket);
    }

    method ClearRequest(requestId: int)
      modifies this
      ensures State() == Cleared(old(State()), requestId)
    {
      if requestId in requestMap {
        timers := timers - {requestMap[requestId]};
        requestMap := requestMap - {requestId};
      }
    }

    /** The callback of a timer that is due. */
    method OnTimeout(ticket: nat)
      requires ticket in timers && timers[ticket].deadline <= now
      modifies this
      ensures State() == Apply(old(State()), Fire(ticket))
    {
      var requestId := timers[ticket].requestId;
      timers := timers - {ticket};
      ClearRequest(requestId);
      calls := calls + multiset{Call(ticket, TimedOut)};
    }

    method OnMessage(responseId: Option<int>)
      modifies this
      ensures State() == Apply(old(State()), Receive(responseId))
    {
      if responseId.None? || responseId.value == 0 { return; }
      var requestId := responseId.value;
      if requestId !in requestMap { return; }
      var ticket := requestMap[requestId];
      timers := timers - {ticket};
      calls := calls + multiset{Call(ticket, Resolved)};
      requestMap := requestMap - {requestId};
    }

    /** Clear the timer of a request and reject its promise. */
    method RejectRequest(id: int)
      requires id in requestMap
      modifies this
      ensures State() == old(State()).(timers := old(timers) - {old(requestMap)[id]},
                                       calls := old(calls) + multiset{Call(old(requestMap)[id], Closed)})
    {
      timers := timers - {requestMap[id]};
      calls := calls + multiset{Call(requestMap[id], Closed)};
    }

    method ClearAllRequests()
      requires Inv(State())
      modifies this
      ensures State() == ClosedDown(old(State())).(connected := old(socket))
    {
      var ids := requestMap.Keys;
      ghost var (start, gone) := (State(), {});
      NoneRejected(start);
      while ids != {}
        invariant State() == Rejected(start, gone)
        invariant forall id :: id in ids <==> id in start.pending && id !in gone
        decreases ids
      {
        var id := Any(ids);
        OneMoreRejected(start, gone, id);
        RejectRequest(id);
        ids := ids - {id};
        gone := gone + {id};
      }
      AllRejected(start, gone);
      requestMap := map[];
    }

    method Close()
      requires Inv(State())
      modifies this
      ensures State() == Apply(old(State()), Step.Close)
    {
      ClearAllRequests();
      socket := false;
    }
  }

  method Any<T(==)>(s: set<T>) returns (x: T)
    requires s != {}
    ensures x in s
  {
    x :| x in s;
  }

  function Tickets(entries: map<int, nat>, ids: set<int>): set<nat> {
    set id | id in ids && id in entries :: entries[id]
  }

  /** The entries `gone` have had their timers cleared and their promises rejected. */
  function Rejected(s: Rpc.State, gone: set<int>): Rpc.State {
    s.(timers := s.timers - Tickets(s.pending, gone), calls := s.calls + CloseCalls(Tickets(s.pending, gone)))
  }

  lemma NoneRejected(s: Rpc.State)
    ensures Rejected(s, {}) == s
  {
    assert s.timers - {} == s.timers;
    assert CloseCalls({}) == multiset{};
  }

  lemma AllRejected(s: Rpc.State, gone: set<int>)
    requires forall id :: id in s.pending ==> id in gone
    ensures Rejected(s, gone).(pending := map[]) == ClosedDown(s).(connected := s.connected)
  {
    assert Tickets(s.pending, gone) == Waiting(s);
  }

  /** No two entries share a ticket, so each request is rejected once. */
  lemma OneMoreRejected(s: Rpc.State, gone: set<int>, id: int)
    requires Inv(s) && id in s.pending && id !in gone
    ensures var r := Rejected(s, gone);
            Rejected(s, gone + {id}) == r.(timers := r.timers - {s.pending[id]},
                calls := r.calls + multiset{Call(s.pending[id], Closed)})
  {
    var (done, t) := (Tickets(s.pending, gone), s.pending[id]);
    assert t !in done;
    assert Tickets(s.pending, gone + {id}) == done + {t};
    assert s.timers - (done + {t}) == s.timers - done - {t};
    OneMoreClosed(done, t);
  }

  lemma OneMoreClosed(done: set<nat>, t: nat)
    requires t !in done
    ensures CloseCalls(done + {t}) == CloseCalls(done) + multiset{Call(t, Closed)}
  {
    var before := set u | u in done :: Call(u, Closed);
    assert (set u | u in done + {t} :: Call(u, Closed)) == before + {Call(t, Closed)};
    assert Call(t, Closed) !in before;
  }
}
