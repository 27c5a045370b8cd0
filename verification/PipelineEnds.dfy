/** How event streams end: exactly which requests get a terminal event, and when completion is early. */
module PipelineEnds {
  import opened Core
  import opened Pipeline
  import opened PipelineRuns

  // ---------------------------------------------------------------------------------------------
  // Cancelled requests
  // ---------------------------------------------------------------------------------------------

  /** Places name what happened, and only a stop request or a failed pass makes a request inactive. */
  ghost predicate Accounted(p: Pipe) {
    forall id :: id in p.requests ==> AccountedFor(p, id)
  }

  ghost predicate AccountedFor(p: Pipe, id: RequestId)
    requires id in p.requests
  {
    var r := p.requests[id];
    && (r.place == Dropped ==> id in p.dropped)
    && (r.place == Withdrawn ==> id in p.removed)
    && (!r.active ==> r.stopRequested || r.worker.Finished?)
  }

  lemma OneAccountedChange(p: Pipe, q: Pipe, id: RequestId)
    requires Accounted(p)
    requires id in q.requests && q.requests == p.requests[id := q.requests[id]]
    requires p.dropped <= q.dropped && p.removed <= q.removed
    requires AccountedFor(q, id)
    ensures Accounted(q)
  {
    forall x | x in q.requests
      ensures AccountedFor(q, x)
    {
      if x != id {
        assert AccountedFor(p, x);
      }
    }
  }

  lemma {:induction false} GatherKeepsAccounted(p: Pipe)
    requires Accounted(p) && p.phase.Waiting?
    requires forall id :: id in p.pending ==> id in p.requests
    ensures Accounted(Gather(p))
    decreases |p.pending|
  {
    if p.pending != [] && |p.phase.batch| < p.phase.config.maxBatch && !IsLong(p.requests[p.pending[0]], p.phase.config) {
      var q := if !p.requests[p.pending[0]].active then DropFront(p) else TakeFront(p);
      assert AccountedFor(p, p.pending[0]);
      OneAccountedChange(p, q, p.pending[0]);
      hide Accounted;
      GatherKeepsAccounted(q);
    }
  }

  lemma CollectKeepsAccounted(p: Pipe)
    requires Accounted(p)
    requires forall id :: id in p.pending ==> id in p.requests
    ensures Accounted(CollectFirst(p))
  {
    if p.pending != [] && p.config.mode != Immediate {
      if p.config.mode == Serial || IsLong(p.requests[p.pending[0]], p.config) {
        assert AccountedFor(p, p.pending[0]);
        OneAccountedChange(p, PopSolo(p), p.pending[0]);
      } else {
        var w := p.(phase := Waiting(p.config, []));
        OnlyPhase(p, w);
        GatherKeepsAccounted(w);
        OnlyPhase(Gather(w), CollectFirst(p));
      }
    }
  }

  lemma OnlyPhase(p: Pipe, q: Pipe)
    requires Accounted(p)
    requires q.requests == p.requests && q.dropped == p.dropped && q.removed == p.removed
    ensures Accounted(q)
  {
    forall x | x in q.requests
      ensures AccountedFor(q, x)
    {
      assert AccountedFor(p, x);
    }
  }

  lemma NextKeepsAccounted(p: Pipe, a: Action)
    requires Accounted(p)
    requires KnownIds(p) && Enabled(p, a)
    ensures Accounted(Next(p, a))
  {
    var q := Next(p, a);
    match a
    case SetConfig(_) => OnlyPhase(p, q);
    case Collect => CollectKeepsAccounted(p);
    case CollectMore =>
      GatherKeepsAccounted(p);
      OnlyPhase(Gather(p), q);
    case DispatchNext =>
      if p.phase.rest == [] {
        OnlyPhase(p, q);
      } else {
        var id := p.phase.rest[0];
        assert id in InHandOf(p.phase) && AccountedFor(p, id);
        OneAccountedChange(p, q, id);
      }
    case Admit(id, _, _) => OneAccountedChange(p, q, id);
    case RemoveQueued(id) =>
      assert AccountedFor(p, id);
      if Find(p.pending, id) < |p.pending| {
        OneAccountedChange(p, q, id);
      }
    case Push(id) =>
      assert AccountedFor(p, id);
      TouchKeepsAccounted(p, q, id);
    case RequestStop(id) =>
      TouchKeepsAccounted(p, q, id);
    case Deactivate(id) =>
      TouchKeepsAccounted(p, q, id);
    case Work(id, _) =>
      assert AccountedFor(p, id);
      TouchKeepsAccounted(p, q, id);
  }

  lemma TouchKeepsAccounted(p: Pipe, q: Pipe, id: RequestId)
    requires Accounted(p) && id in p.requests && id in q.requests
    requires q.requests == p.requests[id := q.requests[id]] && q.dropped == p.dropped && q.removed == p.removed
    requires q.requests[id].place == p.requests[id].place || q.requests[id].place == Pending
    requires !q.requests[id].active ==> q.requests[id].stopRequested || q.requests[id].worker.Finished?
    ensures Accounted(q)
  {
    assert AccountedFor(p, id);
    OneAccountedChange(p, q, id);
  }

  lemma {:induction false} RunIsAccounted(states: seq<Pipe>, actions: seq<Action>, n: nat)
    requires IsRun(states, actions) && n < |states|
    ensures Accounted(states[n])
    decreases n
  {
    if n > 0 {
      assert FollowsBy(states, actions, n);
      hide Accounted, Next;
      RunIsAccounted(states, actions, n - 1);
      NextKeepsAccounted(states[n - 1], actions[n - 1]);
    }
  }

  // ---------------------------------------------------------------------------------------------
  // Terminal events
  // ---------------------------------------------------------------------------------------------

  predicate IsTerminal(e: Event) {
    e.Completed? || e.Failed?
  }

  ghost predicate HasTerminal(events: seq<Event>) {
    exists i :: 0 <= i < |events| && IsTerminal(events[i])
  }

  /** The last event is terminal and no other is. */
  ghost predicate EndsInOneTerminal(events: seq<Event>) {
    && events != [] && IsTerminal(events[|events| - 1])
    && forall i :: 0 <= i < |events| - 1 ==> !IsTerminal(events[i])
  }

  /** Nothing more will happen to the request. */
  predicate Over(r: Request) {
    r.place in {Withdrawn, Dropped} || r.worker.Finished?
  }

  lemma {:induction false} StreamEnds(r: Request, opening: seq<Event>)
    requires GenerationStream(r, opening)
    requires opening == [Queued] || opening == []
    ensures if r.worker.Finished? then EndsInOneTerminal(r.events) else !HasTerminal(r.events)
  {
    TokenEventsAt(r.history);
    var tokens := TokenEvents(r.history);
    hide TokenEvents;
    var body := opening + [Started] + tokens;
    forall i | 0 <= i < |body|
      ensures !IsTerminal(body[i])
    {
      assert i > |opening| ==> body[i] == tokens[i - |opening| - 1];
    }
    assert r.events == body + TerminalOf(r.worker);
    assert forall i :: 0 <= i < |body| ==> r.events[i] == body[i];
  }

  lemma LawfulEnds(r: Request)
    requires Lawful(r)
    ensures if r.place == Withdrawn || r.worker.Finished? then EndsInOneTerminal(r.events) else !HasTerminal(r.events)
  {
    if r.place in {Launched, Direct} {
      StreamEnds(r, if r.place == Launched then [Queued] else []);
    }
  }

  /** In every state of every interleaving: a terminal event has been sent exactly to the requests that are
      over and were not dropped, and it is their only terminal event and their last event.  Only requests
      that were asked to stop are dropped, so every other request that is over got exactly one. */
  lemma {:induction false} TerminalIffNotDropped(states: seq<Pipe>, actions: seq<Action>, n: nat, id: RequestId)
    requires IsRun(states, actions)
    requires n < |states| && id in states[n].requests
    ensures var p := states[n]; var r := p.requests[id];
            && (HasTerminal(r.events) <==> Over(r) && id !in p.dropped)
            && (HasTerminal(r.events) ==> EndsInOneTerminal(r.events))
            && (id in p.dropped ==> r.stopRequested && r.events == [Queued])
  {
    RunKeepsInvariant(states, actions, n);
    RunIsAccounted(states, actions, n);
    var p := states[n];
    var r := p.requests[id];
    assert Lawful(r) && AccountedFor(p, id);
    LawfulEnds(r);
    if EndsInOneTerminal(r.events) {
      assert IsTerminal(r.events[|r.events| - 1]);
    }
    hide IsRun, TokenEvents;
  }

  // ---------------------------------------------------------------------------------------------
  // Building runs
  // ---------------------------------------------------------------------------------------------

  lemma {:induction false} ExtendRun(states: seq<Pipe>, actions: seq<Action>, a: Action)
    returns (longer: seq<Pipe>, more: seq<Action>)
    requires IsRun(states, actions) && Enabled(states[|actions|], a)
    ensures KnownIds(states[|actions|])
    ensures IsRun(longer, more)
    ensures more == actions + [a] && longer == states + [Next(states[|actions|], a)]
  {
    RunKeepsInvariant(states, actions, |actions|);
    InvariantKnowsIds(states[|actions|]);
    more := actions + [a];
    longer := states + [Next(states[|actions|], a)];
    hide Next, Invariant, KnownIds;
    forall i | 0 < i < |longer|
      ensures FollowsBy(longer, more, i)
    {
      if i < |states| {
        assert FollowsBy(states, actions, i);
      }
    }
  }

  lemma EmptyRun(config: BatchingConfig) returns (states: seq<Pipe>, actions: seq<Action>)
    ensures IsRun(states, actions)
    ensures actions == [] && states == [InitialPipe(config)]
  {
    states, actions := [InitialPipe(config)], [];
  }

  /** A request is admitted and pushed to an empty queue. */
  lemma {:induction false} QueuedRun(config: BatchingConfig, id: RequestId, m: U32)
    returns (states: seq<Pipe>, actions: seq<Action>)
    requires config.mode != Immediate
    ensures IsRun(states, actions) && actions == [Admit(id, 0, m), Push(id)]
    ensures var p := states[|actions|];
            p == Pipe(config, map[id := NewRequest(0, m, false).(place := Pending)], [id], Idle, [id], [], {}, {}, [])
  {
    states, actions := EmptyRun(config);
    states, actions := ExtendRun(states, actions, Admit(id, 0, m));
    var p1 := states[|actions|];
    assert p1 == InitialPipe(config).(requests := map[id := NewRequest(0, m, false)]);
    states, actions := ExtendRun(states, actions, Push(id));
    assert [] + [id] == [id];
    assert p1.requests[id := p1.requests[id].(place := Pending)] == map[id := NewRequest(0, m, false).(place := Pending)];
  }

  // ---------------------------------------------------------------------------------------------
  // Failing inputs
  // ---------------------------------------------------------------------------------------------

  /** A request cancelled in the queue, before the cancelling thread reaches the queue lock, is dropped by the
      dispatcher without any terminal event. */
  lemma {:induction false} CancelledRequestIsDroppedSilently(id: RequestId)
    returns (states: seq<Pipe>, actions: seq<Action>)
    ensures IsRun(states, actions)
    ensures actions == [Admit(id, 0, 5), Push(id), RequestStop(id), Deactivate(id), Collect]
    ensures var p := states[|actions|];
            id in p.dropped && id in p.requests && Over(p.requests[id]) && p.requests[id].events == [Queued]
  {
    var config := BatchingConfig(Adaptive, 1, 10);
    states, actions := QueuedRun(config, id, 5);
    var p2 := states[|actions|];
    states, actions := ExtendRun(states, actions, RequestStop(id));
    states, actions := ExtendRun(states, actions, Deactivate(id));
    var p4 := states[|actions|];
    assert p4.pending == [id] && !p4.requests[id].active && p4.config == config && p4.phase == Idle;
    states, actions := ExtendRun(states, actions, Collect);
    var w := p4.(phase := Waiting(config, []));
    assert Gather(w) == Gather(DropFront(w));
    assert DropFront(w).pending == [];
    assert Gather(DropFront(w)) == DropFront(w);
  }

  /** With a batch limit of zero the dispatcher spins on a queued request for ever: its iteration changes
      nothing at all. */
  lemma {:induction false} ZeroLimitStalls(id: RequestId) returns (states: seq<Pipe>, actions: seq<Action>)
    ensures IsRun(states, actions)
    ensures var p := states[|actions|];
            && p.pending == [id] && p.phase.Idle? && p.config.mode == Adaptive
            && KnownIds(p) && Next(p, Collect) == p
  {
    states, actions := QueuedRun(BatchingConfig(Adaptive, 0, 10), id, 5);
  }

  // ---------------------------------------------------------------------------------------------
  // Early completion
  // ---------------------------------------------------------------------------------------------

  lemma {:induction false} WorkOnce(states: seq<Pipe>, actions: seq<Action>, id: RequestId, r: Request, outcome: Outcome)
    returns (longer: seq<Pipe>, more: seq<Action>)
    requires IsRun(states, actions)
    requires states[|actions|].requests == map[id := r] && r.place == Direct
    ensures IsRun(longer, more)
    ensures longer[|more|].requests == map[id := WorkStep(r, outcome)]
  {
    longer, more := ExtendRun(states, actions, Work(id, outcome));
    hide IsRun, WorkStep;
    assert map[id := r][id := WorkStep(r, outcome)] == map[id := WorkStep(r, outcome)];
  }

  /** A request that has produced `k` of its tokens and is about to look at its flags again. */
  ghost predicate Midway(r: Request, m: U32, k: nat) {
    && r.place == Direct && r.worker == AtLoop && r.active && !r.stopRequested
    && r.maximumNewTokens == m && |r.history| == k
  }

  lemma {:induction false} RunToToken(id: RequestId, m: U32, k: nat)
    returns (states: seq<Pipe>, actions: seq<Action>, r: Request)
    requires k <= m
    ensures IsRun(states, actions) && states[|actions|].requests == map[id := r] && Midway(r, m, k)
    decreases k
  {
    if k == 0 {
      states, actions := EmptyRun(BatchingConfig(Immediate, 1, 10));
      states, actions := ExtendRun(states, actions, Admit(id, 0, m));
      r := NewRequest(0, m, true);
      assert states[|actions|].requests == map[id := r];
    } else {
      states, actions, r := RunToToken(id, m, k - 1);
      hide IsRun;
      states, actions := WorkOnce(states, actions, id, r, Produced(0));
      r := WorkStep(r, Produced(0));
      states, actions := WorkOnce(states, actions, id, r, Produced(0));
      r := WorkStep(r, Produced(0));
      states, actions := WorkOnce(states, actions, id, r, Produced(0));
      r := WorkStep(r, Produced(0));
    }
  }

  /** `CompletedMeansFull` cannot be sharpened: for every maximum and every smaller count there is a run in
      which a stop request makes the stream complete after just that many tokens. */
  lemma {:induction false} StopCompletesEarly(id: RequestId, m: U32, k: nat)
    returns (states: seq<Pipe>, actions: seq<Action>)
    requires k < m
    ensures IsRun(states, actions)
    ensures id in states[|actions|].requests
    ensures var r := states[|actions|].requests[id];
            && r.maximumNewTokens == m && r.stopRequested && |r.history| == k
            && r.events != [] && r.events[|r.events| - 1] == Completed(k)
  {
    var r: Request;
    states, actions, r := RunToToken(id, m, k);
    hide IsRun;
    states, actions := WorkOnce(states, actions, id, r, Produced(0));
    r := WorkStep(r, Produced(0));
    states, actions := StopOnce(states, actions, id, r);
    r := r.(stopRequested := true);
    states, actions := WorkOnce(states, actions, id, r, Produced(0));
    r := WorkStep(r, Produced(0));
    states, actions := WorkOnce(states, actions, id, r, Produced(0));
    r := WorkStep(r, Produced(0));
    states, actions := WorkOnce(states, actions, id, r, Produced(0));
  }

  lemma {:induction false} StopOnce(states: seq<Pipe>, actions: seq<Action>, id: RequestId, r: Request)
    returns (longer: seq<Pipe>, more: seq<Action>)
    requires IsRun(states, actions)
    requires states[|actions|].requests == map[id := r]
    ensures IsRun(longer, more)
    ensures longer[|more|].requests == map[id := r.(stopRequested := true)]
  {
    longer, more := ExtendRun(states, actions, RequestStop(id));
    hide IsRun;
    assert map[id := r][id := r.(stopRequested := true)] == map[id := r.(stopRequested := true)];
  }
}
