/** Runs of the pipeline: every interleaving of callers, cancellers, configuration changes, the
    dispatcher and the workers. */
module PipelineRuns {
  import opened Core
  import opened Pipeline

  function InitialPipe(config: BatchingConfig): Pipe {
    Pipe(config, map[], [], Idle, [], [], {}, {}, [])
  }

  // ---------------------------------------------------------------------------------------------
  // Sequences without some elements
  // ---------------------------------------------------------------------------------------------

  /** `ids` without the members of `gone`, in order. */
  function Survivors(ids: seq<RequestId>, gone: set<RequestId>): seq<RequestId> {
    if ids == [] then []
    else (if ids[0] in gone then [] else [ids[0]]) + Survivors(ids[1..], gone)
  }

  ghost predicate Distinct(ids: seq<RequestId>) {
    forall i, j :: 0 <= i < j < |ids| ==> ids[i] != ids[j]
  }

  lemma {:induction false} SurvivorsOfConcatenation(a: seq<RequestId>, b: seq<RequestId>, gone: set<RequestId>)
    ensures Survivors(a + b, gone) == Survivors(a, gone) + Survivors(b, gone)
    decreases |a|
  {
    if a == [] {
      assert a + b == b;
    } else {
      assert (a + b)[1..] == a[1..] + b;
      SurvivorsOfConcatenation(a[1..], b, gone);
    }
  }

  lemma {:induction false} SurvivorsTwice(ids: seq<RequestId>, gone: set<RequestId>, more: set<RequestId>)
    ensures Survivors(Survivors(ids, gone), more) == Survivors(ids, gone + more)
    decreases |ids|
  {
    if ids != [] {
      SurvivorsTwice(ids[1..], gone, more);
      var rest := Survivors(ids[1..], gone);
      if ids[0] !in gone {
        assert Survivors(ids, gone)[1..] == rest;
      } else {
        assert Survivors(ids, gone) == rest;
      }
    }
  }

  lemma {:induction false} SurvivorsIfNoneGone(ids: seq<RequestId>, gone: set<RequestId>)
    requires forall id :: id in ids ==> id !in gone
    ensures Survivors(ids, gone) == ids
    decreases |ids|
  {
    if ids != [] {
      SurvivorsIfNoneGone(ids[1..], gone);
    }
  }

  lemma {:induction false} SurvivorsMembers(ids: seq<RequestId>, gone: set<RequestId>, id: RequestId)
    ensures id in Survivors(ids, gone) <==> id in ids && id !in gone
    decreases |ids|
  {
    if ids != [] {
      SurvivorsMembers(ids[1..], gone, id);
    }
  }

  lemma {:induction false} SurvivorsDistinct(ids: seq<RequestId>, gone: set<RequestId>)
    requires Distinct(ids)
    ensures Distinct(Survivors(ids, gone))
    decreases |ids|
  {
    if ids != [] {
      var rest := ids[1..];
      SurvivorsDistinct(rest, gone);
      SurvivorsMembers(rest, gone, ids[0]);
      assert ids[0] !in rest;
    }
  }

  /** Without one element that occurs once: the parts around it. */
  lemma SurvivorsAround(a: seq<RequestId>, id: RequestId, b: seq<RequestId>)
    requires id !in a && id !in b
    ensures Survivors(a + [id] + b, {id}) == a + b
  {
    hide Survivors;
    SurvivorsOfConcatenation(a + [id], b, {id});
    SurvivorsOfConcatenation(a, [id], {id});
    SurvivorsIfNoneGone(a, {id});
    SurvivorsIfNoneGone(b, {id});
    SurvivorsOfGone(id);
  }

  lemma SurvivorsOfGone(id: RequestId)
    ensures Survivors([id], {id}) == []
  {
    assert [id][1..] == [];
  }

  // ---------------------------------------------------------------------------------------------
  // The queue
  // ---------------------------------------------------------------------------------------------

  function Gone(p: Pipe): set<RequestId> {
    p.removed + p.dropped
  }

  /** Launched, in hand and pending requests are exactly the enqueued ones that were not withdrawn or
      dropped, in the order in which they were enqueued. */
  ghost predicate InOrder(p: Pipe) {
    && Distinct(p.enqueued)
    && p.launched + InHandOf(p.phase) + p.pending == Survivors(p.enqueued, Gone(p))
    && p.removed !! p.dropped
    && (forall id :: id in Gone(p) ==> id in p.enqueued)
  }

  /** Lists and places agree. */
  ghost predicate Placed(p: Pipe) {
    && (forall id :: id in p.enqueued ==> id in p.requests)
    && (forall id :: id in p.pending ==> id in p.requests && p.requests[id].place == Pending)
    && (forall id :: id in InHandOf(p.phase) ==> id in p.requests && p.requests[id].place == InHand)
    && (forall id :: id in p.launched ==> id in p.requests && p.requests[id].place == Launched)
    && (forall id :: id in p.removed ==> id in p.requests && p.requests[id].place == Withdrawn && !p.requests[id].active)
    && (forall id :: id in p.dropped ==> id in p.requests && p.requests[id].place == Dropped && !p.requests[id].active)
    && (forall id :: id in p.requests && p.requests[id].place in {Admitting, Direct} ==> id !in p.enqueued)
  }

  ghost predicate ShortBatch(ids: seq<RequestId>, config: BatchingConfig, requests: map<RequestId, Request>) {
    && |ids| <= config.maxBatch
    && forall id :: id in ids ==> id in requests && !IsLong(requests[id], config)
  }

  /** Batches respect the configuration snapshot they were collected under. */
  ghost predicate BatchesFit(p: Pipe) {
    && (forall i :: 0 <= i < |p.batches| ==> ShortBatch(p.batches[i].ids, p.batches[i].config, p.requests))
    && (p.phase.Waiting? ==> ShortBatch(p.phase.batch, p.phase.config, p.requests))
  }

  // ---------------------------------------------------------------------------------------------
  // Event streams
  // ---------------------------------------------------------------------------------------------

  function TokenEvents(history: seq<TokenRecord>): seq<Event> {
    if history == [] then []
    else TokenEvents(history[..|history| - 1]) + [Token(|history| - 1, history[|history| - 1].token)]
  }

  function TerminalOf(w: Worker): seq<Event> {
    if w.Finished? then [w.terminal] else []
  }

  ghost predicate GenerationStream(r: Request, opening: seq<Event>) {
    var k := |r.history|;
    && r.events == opening + [Started] + TokenEvents(r.history) + TerminalOf(r.worker)
    && (forall i :: 0 <= i < k ==> r.history[i].position == i)
    && k <= r.maximumNewTokens
    && (match r.worker
        case NotStarted => false
        case AtLoop => true
        case Admitted => k < r.maximumNewTokens
        case Generating => k < r.maximumNewTokens
        case Leaving => k == r.maximumNewTokens || r.stopRequested || !r.active
        case Closing(success) => success ==> k == r.maximumNewTokens || r.stopRequested
        case Finished(e) =>
          (e == Completed(k) && (k == r.maximumNewTokens || r.stopRequested)) || e == Failed(k))
  }

  /** What the callback of a request has received, by where the request is. */
  ghost predicate Lawful(r: Request) {
    match r.place
    case Launched => GenerationStream(r, [Queued])
    case Direct => GenerationStream(r, [])
    case Withdrawn => r.events == [Queued, Failed(0)] && r.worker == NotStarted && r.history == []
    case _ => r.events == [Queued] && r.worker == NotStarted && r.history == []
  }

  ghost predicate AllLawful(p: Pipe) {
    forall id :: id in p.requests ==> Lawful(p.requests[id])
  }

  // ---------------------------------------------------------------------------------------------
  // The invariant
  // ---------------------------------------------------------------------------------------------

  ghost predicate Invariant(p: Pipe) {
    InOrder(p) && Placed(p) && BatchesFit(p) && AllLawful(p)
  }

  lemma InvariantKnowsIds(p: Pipe)
    requires Placed(p)
    ensures KnownIds(p)
  {
  }

  /** Launched, in-hand and pending identifiers are all different. */
  lemma ListsAreDisjoint(p: Pipe)
    requires InOrder(p)
    ensures Distinct(p.launched + InHandOf(p.phase) + p.pending)
  {
    SurvivorsDistinct(p.enqueued, Gone(p));
  }

  /** Batches stay within their snapshots as long as context windows do not change. */
  lemma BatchesStillFit(p: Pipe, q: Pipe)
    requires BatchesFit(p)
    requires q.batches == p.batches
    requires q.phase.Waiting? ==> q.phase == p.phase
    requires forall id :: id in p.requests ==> id in q.requests && q.requests[id].contextWindow == p.requests[id].contextWindow
    ensures BatchesFit(q)
  {
    forall i | 0 <= i < |q.batches|
      ensures ShortBatch(q.batches[i].ids, q.batches[i].config, q.requests)
    {
      assert ShortBatch(p.batches[i].ids, p.batches[i].config, p.requests);
    }
  }

  lemma OneLawfulChange(p: Pipe, q: Pipe, id: RequestId, r: Request)
    requires AllLawful(p)
    requires Lawful(r)
    requires q.requests == p.requests[id := r]
    ensures AllLawful(q)
  {
    hide Lawful;
  }

  // ---------------------------------------------------------------------------------------------
  // Flags and workers
  // ---------------------------------------------------------------------------------------------

  lemma TouchKeepsPlaced(p: Pipe, id: RequestId, r: Request)
    requires Placed(p)
    requires id in p.requests
    requires r.place == p.requests[id].place
    requires r.active ==> p.requests[id].active
    ensures Placed(With(p, id, r))
  {
  }

  /** Changing one request that stays in its place keeps everything except its own stream. */
  lemma TouchKeepsInvariant(p: Pipe, id: RequestId, r: Request)
    requires Invariant(p)
    requires id in p.requests
    requires r.place == p.requests[id].place && r.contextWindow == p.requests[id].contextWindow
    requires r.active ==> p.requests[id].active
    requires Lawful(r)
    ensures Invariant(With(p, id, r))
  {
    hide Lawful, Survivors, Placed, BatchesFit, AllLawful;
    var q := With(p, id, r);
    TouchKeepsPlaced(p, id, r);
    BatchesStillFit(p, q);
    OneLawfulChange(p, q, id, r);
  }

  lemma TokenEventsGrow(history: seq<TokenRecord>, t: TokenRecord)
    ensures TokenEvents(history + [t]) == TokenEvents(history) + [Token(|history|, t.token)]
  {
    assert (history + [t])[..|history|] == history;
  }

  lemma {:induction false} WorkKeepsStream(r: Request, outcome: Outcome, opening: seq<Event>)
    requires GenerationStream(r, opening)
    ensures GenerationStream(WorkStep(r, outcome), opening)
  {
    hide TokenEvents;
    var s := WorkStep(r, outcome);
    if r.worker.Generating? && outcome.Produced? {
      TokenEventsGrow(r.history, TokenRecord(|r.history|, outcome.token));
      assert r.events == opening + [Started] + TokenEvents(r.history);
      assert s.events == opening + [Started] + TokenEvents(s.history) + [];
    } else if s.worker.Finished? && !r.worker.Finished? {
      assert r.events == opening + [Started] + TokenEvents(r.history);
    }
  }

  lemma WorkKeepsLawful(r: Request, outcome: Outcome)
    requires Lawful(r) && r.place in {Launched, Direct}
    ensures Lawful(WorkStep(r, outcome))
  {
    WorkKeepsStream(r, outcome, if r.place == Launched then [Queued] else []);
  }

  lemma RaisingFlagsKeepsLawful(r: Request)
    requires Lawful(r)
    ensures Lawful(r.(stopRequested := true))
    ensures Lawful(r.(active := false))
  {
  }

  lemma OpeningStream(r: Request, opening: seq<Event>)
    requires r.events == opening + [Started] && r.history == [] && r.worker == AtLoop
    ensures GenerationStream(r, opening)
  {
    assert TokenEvents([]) == [];
    assert opening + [Started] + [] + [] == opening + [Started];
  }

  // ---------------------------------------------------------------------------------------------
  // Admission
  // ---------------------------------------------------------------------------------------------

  lemma AdmitKeeps(p: Pipe, id: RequestId, r: Request)
    requires Invariant(p)
    requires id !in p.requests
    requires r.place in {Admitting, Direct} && Lawful(r)
    ensures Invariant(With(p, id, r))
  {
    hide Lawful, Survivors, BatchesFit, AllLawful;
    var q := With(p, id, r);
    assert Placed(q);
    BatchesStillFit(p, q);
    OneLawfulChange(p, q, id, r);
  }

  lemma NewRequestIsLawful(contextWindow: U32, maximumNewTokens: U32, immediate: bool)
    ensures Lawful(NewRequest(contextWindow, maximumNewTokens, immediate))
  {
    if immediate {
      var r := NewRequest(contextWindow, maximumNewTokens, immediate);
      assert r.events == [] + [Started];
      OpeningStream(r, []);
    }
  }

  function Pushed(p: Pipe, id: RequestId): Pipe
    requires id in p.requests
  {
    With(p, id, p.requests[id].(place := Pending)).(pending := p.pending + [id], enqueued := p.enqueued + [id])
  }

  lemma PushKeepsOrder(p: Pipe, id: RequestId)
    requires InOrder(p)
    requires id in p.requests && id !in p.enqueued
    ensures InOrder(Pushed(p, id))
  {
    var q := Pushed(p, id);
    SurvivorsOfConcatenation(p.enqueued, [id], Gone(p));
    SurvivorsIfNoneGone([id], Gone(p));
    hide Survivors;
    assert q.launched + InHandOf(q.phase) + q.pending == p.launched + InHandOf(p.phase) + p.pending + [id];
  }

  lemma PushKeepsPlaced(p: Pipe, id: RequestId)
    requires Placed(p)
    requires id in p.requests && p.requests[id].place == Admitting
    ensures Placed(Pushed(p, id))
  {
  }

  lemma PushKeeps(p: Pipe, id: RequestId)
    requires Invariant(p)
    requires id in p.requests && p.requests[id].place == Admitting
    ensures Invariant(Pushed(p, id))
  {
    var r := p.requests[id].(place := Pending);
    assert Lawful(r) by {
      assert Lawful(p.requests[id]);
    }
    assert id !in p.enqueued;
    hide Lawful, Survivors, InOrder, Placed, BatchesFit, AllLawful;
    PushKeepsOrder(p, id);
    PushKeepsPlaced(p, id);
    BatchesStillFit(p, Pushed(p, id));
    OneLawfulChange(p, Pushed(p, id), id, r);
  }

  // ---------------------------------------------------------------------------------------------
  // Removal
  // ---------------------------------------------------------------------------------------------

  /** One identifier leaves the three lists for good. */
  lemma GoneFromLists(p: Pipe, before: seq<RequestId>, id: RequestId, after: seq<RequestId>)
    requires InOrder(p)
    requires p.launched + InHandOf(p.phase) + p.pending == before + [id] + after
    ensures before + after == Survivors(p.enqueued, Gone(p) + {id})
    ensures id in p.enqueued && id !in before && id !in after && id !in Gone(p)
  {
    ListsAreDisjoint(p);
    hide InOrder, Survivors;
    var all := before + [id] + after;
    assert all[|before|] == id;
    assert forall i :: 0 <= i < |before| ==> all[i] == before[i];
    assert forall i :: 0 <= i < |after| ==> all[|before| + 1 + i] == after[i];
    GoneFromSurvivors(p, all, before, id, after);
  }

  lemma GoneFromSurvivors(p: Pipe, all: seq<RequestId>, before: seq<RequestId>, id: RequestId, after: seq<RequestId>)
    requires InOrder(p)
    requires all == p.launched + InHandOf(p.phase) + p.pending == before + [id] + after
    requires id !in before && id !in after
    ensures before + after == Survivors(p.enqueued, Gone(p) + {id})
    ensures id in p.enqueued && id !in Gone(p)
  {
    SurvivorsMembers(p.enqueued, Gone(p), id);
    SurvivorsTwice(p.enqueued, Gone(p), {id});
    SurvivorsAround(before, id, after);
    assert id in all;
  }

  function Withdraw(p: Pipe, id: RequestId, i: nat): Pipe
    requires id in p.requests && i < |p.pending|
  {
    With(p, id, p.requests[id].(place := Withdrawn, events := p.requests[id].events + [Failed(0)]))
    .(pending := Without(p.pending, i), removed := p.removed + {id})
  }

  lemma RemoveKeepsOrder(p: Pipe, id: RequestId, i: nat)
    requires InOrder(p)
    requires i < |p.pending| && p.pending[i] == id
    requires id in p.requests
    ensures InOrder(Withdraw(p, id, i))
    ensures id !in p.launched && id !in InHandOf(p.phase) && id !in p.pending[..i] && id !in p.pending[i + 1..]
    ensures id !in Gone(p) && id in p.enqueued
  {
    var q := Withdraw(p, id, i);
    var front := p.launched + InHandOf(p.phase);
    var before := front + p.pending[..i];
    var after := p.pending[i + 1..];
    assert p.pending == p.pending[..i] + [id] + after;
    assert front + p.pending == before + [id] + after;
    GoneFromLists(p, before, id, after);
    hide Survivors;
    assert q.launched + InHandOf(q.phase) + q.pending == before + after;
    assert Gone(q) == Gone(p) + {id};
    MembersOfParts(p.launched, InHandOf(p.phase), p.pending[..i], before);
  }

  lemma MembersOfParts(a: seq<RequestId>, b: seq<RequestId>, c: seq<RequestId>, all: seq<RequestId>)
    requires all == a + b + c
    ensures forall x :: x in all <==> x in a || x in b || x in c
  {
  }

  lemma RemoveKeepsPlaced(p: Pipe, id: RequestId, i: nat)
    requires Placed(p)
    requires i < |p.pending| && p.pending[i] == id
    requires id in p.requests && !p.requests[id].active
    requires id !in p.launched && id !in InHandOf(p.phase) && id !in p.pending[..i] && id !in p.pending[i + 1..]
    requires id !in Gone(p) && id in p.enqueued
    ensures Placed(Withdraw(p, id, i))
  {
    var q := Withdraw(p, id, i);
    assert forall x :: x in q.pending ==> x in p.pending && x != id;
  }

  lemma RemoveKeeps(p: Pipe, id: RequestId, i: nat)
    requires Invariant(p)
    requires i < |p.pending| && p.pending[i] == id
    requires id in p.requests && !p.requests[id].active
    ensures Invariant(Withdraw(p, id, i))
  {
    var r := p.requests[id].(place := Withdrawn, events := p.requests[id].events + [Failed(0)]);
    assert Lawful(r) by {
      assert Lawful(p.requests[id]) && p.requests[id].place == Pending;
    }
    hide Lawful, Survivors, InOrder, Placed, BatchesFit, AllLawful;
    RemoveKeepsOrder(p, id, i);
    RemoveKeepsPlaced(p, id, i);
    BatchesStillFit(p, Withdraw(p, id, i));
    OneLawfulChange(p, Withdraw(p, id, i), id, r);
  }

  // ---------------------------------------------------------------------------------------------
  // Dispatch
  // ---------------------------------------------------------------------------------------------

  lemma DispatchKeepsOrder(p: Pipe)
    requires InOrder(p)
    requires p.phase.Dispatching? && KnownIds(p) && p.phase.rest != []
    ensures InOrder(Dispatch(p))
    ensures var id := p.phase.rest[0];
            id !in p.launched && id !in p.phase.rest[1..] && id !in p.pending && id !in Gone(p) && id in p.enqueued
  {
    var id := p.phase.rest[0];
    var rest := p.phase.rest[1..];
    var q := Dispatch(p);
    assert p.phase.rest == [id] + rest;
    assert p.launched + InHandOf(p.phase) + p.pending == p.launched + [id] + (rest + p.pending);
    GoneFromLists(p, p.launched, id, rest + p.pending);
    hide Survivors;
    if p.requests[id].active {
      assert q.launched + InHandOf(q.phase) + q.pending == p.launched + [id] + (rest + p.pending);
      assert Gone(q) == Gone(p);
    } else {
      assert q.launched + InHandOf(q.phase) + q.pending == p.launched + (rest + p.pending);
      assert Gone(q) == Gone(p) + {id};
    }
    MembersOfParts(rest, p.pending, [], rest + p.pending);
  }

  lemma DispatchKeepsPlaced(p: Pipe)
    requires Placed(p)
    requires p.phase.Dispatching? && KnownIds(p) && p.phase.rest != []
    requires var id := p.phase.rest[0];
             id !in p.launched && id !in p.phase.rest[1..] && id !in p.pending && id !in Gone(p) && id in p.enqueued
    ensures Placed(Dispatch(p))
  {
    var q := Dispatch(p);
    assert forall x :: x in p.phase.rest[1..] ==> x in p.phase.rest;
    assert p.phase.rest[0] in InHandOf(p.phase);
  }

  lemma DispatchKeepsStream(p: Pipe)
    requires Placed(p) && AllLawful(p)
    requires p.phase.Dispatching? && KnownIds(p) && p.phase.rest != []
    ensures Lawful(Dispatch(p).requests[p.phase.rest[0]])
  {
    var id := p.phase.rest[0];
    assert id in InHandOf(p.phase);
    var r := p.requests[id];
    assert Lawful(r) && r.place == InHand;
    if r.active {
      OpeningStream(r.(place := Launched, events := r.events + [Started], worker := AtLoop), [Queued]);
    }
  }

  lemma DispatchKeeps(p: Pipe)
    requires Invariant(p)
    requires p.phase.Dispatching? && KnownIds(p)
    ensures Invariant(Dispatch(p))
  {
    if p.phase.rest == [] {
      hide Lawful, Survivors;
      assert BatchesFit(p.(phase := Idle));
      PhaseChangeKeeps(p, p.(phase := Idle));
    } else {
      var id := p.phase.rest[0];
      hide Lawful, Survivors, InOrder, Placed, BatchesFit, AllLawful;
      var q := Dispatch(p);
      DispatchKeepsOrder(p);
      DispatchKeepsPlaced(p);
      DispatchKeepsStream(p);
      BatchesStillFit(p, q);
      OneLawfulChange(p, q, id, q.requests[id]);
    }
  }

  // ---------------------------------------------------------------------------------------------
  // Collecting
  // ---------------------------------------------------------------------------------------------

  /** The front of the queue is in no other list and not behind itself. */
  lemma FrontIsAlone(p: Pipe)
    requires InOrder(p)
    requires p.pending != []
    ensures var id := p.pending[0];
            id !in p.launched && id !in InHandOf(p.phase) && id !in p.pending[1..] && id !in Gone(p) && id in p.enqueued
    ensures p.launched + InHandOf(p.phase) + p.pending[1..] == Survivors(p.enqueued, Gone(p) + {p.pending[0]})
  {
    var id := p.pending[0];
    var rest := p.pending[1..];
    assert p.pending == [id] + rest;
    assert p.launched + InHandOf(p.phase) + p.pending == (p.launched + InHandOf(p.phase)) + [id] + rest;
    GoneFromLists(p, p.launched + InHandOf(p.phase), id, rest);
    hide Survivors, InOrder;
    MembersOfParts(p.launched, InHandOf(p.phase), [], p.launched + InHandOf(p.phase));
  }

  lemma FrontMovesPlaced(p: Pipe, q: Pipe, r: Request)
    requires Placed(p) && p.pending != []
    requires var id := p.pending[0];
             id !in p.launched && id !in InHandOf(p.phase) && id !in p.pending[1..] && id !in Gone(p) && id in p.enqueued
    requires q.requests == p.requests[p.pending[0] := r]
    requires q.enqueued == p.enqueued && q.launched == p.launched && q.removed == p.removed && q.pending == p.pending[1..]
    requires (r.place == InHand && InHandOf(q.phase) == InHandOf(p.phase) + [p.pending[0]] && q.dropped == p.dropped)
          || (r.place == Dropped && !r.active && q.phase == p.phase && q.dropped == p.dropped + {p.pending[0]})
    ensures Placed(q)
  {
    assert forall x :: x in q.pending ==> x in p.pending && x != p.pending[0];
  }

  lemma DropFrontKeeps(p: Pipe)
    requires Invariant(p)
    requires p.pending != [] && p.pending[0] in p.requests && !p.requests[p.pending[0]].active
    ensures Invariant(DropFront(p))
  {
    var id := p.pending[0];
    var r := p.requests[id].(place := Dropped);
    var q := DropFront(p);
    FrontIsAlone(p);
    assert Lawful(r) by {
      assert Lawful(p.requests[id]) && p.requests[id].place == Pending;
    }
    assert Gone(q) == Gone(p) + {id};
    hide Lawful, Survivors, Placed, BatchesFit, AllLawful;
    FrontMovesPlaced(p, q, r);
    BatchesStillFit(p, q);
    OneLawfulChange(p, q, id, r);
  }

  /** The front of the queue is taken in hand, under whatever phase the dispatcher then is. */
  lemma TakeFrontKeeps(p: Pipe, q: Pipe)
    requires Invariant(p)
    requires p.pending != [] && p.pending[0] in p.requests
    requires q == With(p, p.pending[0], p.requests[p.pending[0]].(place := InHand)).(pending := p.pending[1..], phase := q.phase)
    requires InHandOf(q.phase) == InHandOf(p.phase) + [p.pending[0]]
    requires q.phase.Waiting? ==> ShortBatch(q.phase.batch, q.phase.config, p.requests)
    ensures Invariant(q)
  {
    var id := p.pending[0];
    var r := p.requests[id].(place := InHand);
    FrontIsAlone(p);
    assert Lawful(r) by {
      assert Lawful(p.requests[id]) && p.requests[id].place == Pending;
    }
    assert q.launched + InHandOf(q.phase) + q.pending == p.launched + InHandOf(p.phase) + p.pending by {
      assert p.pending == [id] + p.pending[1..];
    }
    assert Gone(q) == Gone(p);
    hide Lawful, Survivors, Placed, BatchesFit, AllLawful;
    FrontMovesPlaced(p, q, r);
    OneLawfulChange(p, q, id, r);
    BatchesStillFit(p, q.(phase := Idle));
    assert q.phase.Waiting? ==> ShortBatch(q.phase.batch, q.phase.config, q.requests);
    PhaseBatchFits(q);
  }

  lemma PhaseBatchFits(q: Pipe)
    requires BatchesFit(q.(phase := Idle))
    requires q.phase.Waiting? ==> ShortBatch(q.phase.batch, q.phase.config, q.requests)
    ensures BatchesFit(q)
  {
  }

  lemma {:induction false} GatherKeeps(p: Pipe)
    requires Invariant(p) && p.phase.Waiting?
    requires forall id :: id in p.pending ==> id in p.requests
    ensures Invariant(Gather(p))
    ensures forall id :: id in Gather(p).pending ==> id in Gather(p).requests
    decreases |p.pending|
  {
    if p.pending != [] && |p.phase.batch| < p.phase.config.maxBatch && !IsLong(p.requests[p.pending[0]], p.phase.config) {
      if !p.requests[p.pending[0]].active {
        DropFrontKeeps(p);
        hide Invariant;
        GatherKeeps(DropFront(p));
      } else {
        assert ShortBatch(TakeFront(p).phase.batch, p.phase.config, p.requests) by {
          assert ShortBatch(p.phase.batch, p.phase.config, p.requests);
        }
        TakeFrontKeeps(p, TakeFront(p));
        hide Invariant;
        GatherKeeps(TakeFront(p));
      }
    }
  }

  /** Only the phase changes, the requests in hand stay the same. */
  lemma PhaseChangeKeeps(p: Pipe, q: Pipe)
    requires Invariant(p)
    requires q == p.(phase := q.phase, batches := q.batches)
    requires InHandOf(q.phase) == InHandOf(p.phase)
    requires BatchesFit(q)
    ensures Invariant(q)
  {
    hide Survivors, Lawful;
  }

  lemma SendKeeps(p: Pipe)
    requires Invariant(p) && p.phase.Waiting?
    ensures Invariant(SendBatch(p))
  {
    var q := SendBatch(p);
    forall i | 0 <= i < |q.batches|
      ensures ShortBatch(q.batches[i].ids, q.batches[i].config, q.requests)
    {
      if i < |p.batches| {
        assert ShortBatch(p.batches[i].ids, p.batches[i].config, p.requests);
      }
    }
    PhaseChangeKeeps(p, q);
  }

  lemma CollectKeeps(p: Pipe)
    requires Invariant(p) && p.phase.Idle?
    requires forall id :: id in p.pending ==> id in p.requests
    ensures Invariant(CollectFirst(p))
  {
    if p.pending == [] || p.config.mode == Immediate {
    } else if p.config.mode == Serial || IsLong(p.requests[p.pending[0]], p.config) {
      TakeFrontKeeps(p, PopSolo(p));
    } else {
      var w := p.(phase := Waiting(p.config, []));
      assert ShortBatch([], p.config, p.requests);
      PhaseChangeKeeps(p, w);
      GatherKeeps(w);
      var q := Gather(w);
      if q.phase.batch == [] {
        PhaseChangeKeeps(q, q.(phase := Idle));
      } else if |q.phase.batch| >= p.config.maxBatch {
        SendKeeps(q);
      }
    }
  }

  // ---------------------------------------------------------------------------------------------
  // Every interleaving
  // ---------------------------------------------------------------------------------------------

  lemma FlagsKeep(p: Pipe, id: RequestId)
    requires Invariant(p) && id in p.requests
    ensures Invariant(With(p, id, p.requests[id].(stopRequested := true)))
    ensures Invariant(With(p, id, p.requests[id].(active := false)))
  {
    RaisingFlagsKeepsLawful(p.requests[id]);
    hide Invariant, Lawful;
    TouchKeepsInvariant(p, id, p.requests[id].(stopRequested := true));
    TouchKeepsInvariant(p, id, p.requests[id].(active := false));
  }

  lemma WorkKeeps(p: Pipe, id: RequestId, outcome: Outcome)
    requires Invariant(p) && id in p.requests && p.requests[id].place in {Launched, Direct}
    ensures Invariant(With(p, id, WorkStep(p.requests[id], outcome)))
  {
    WorkKeepsLawful(p.requests[id], outcome);
    hide Invariant, Lawful;
    TouchKeepsInvariant(p, id, WorkStep(p.requests[id], outcome));
  }

  lemma ConfigKeeps(p: Pipe, config: BatchingConfig)
    requires Invariant(p)
    ensures Invariant(p.(config := config))
  {
    hide Survivors, Lawful;
  }

  lemma NextKeepsInvariant(p: Pipe, a: Action)
    requires Invariant(p)
    requires KnownIds(p) && Enabled(p, a)
    ensures Invariant(Next(p, a))
  {
    hide Invariant, Lawful, Gather, WorkStep;
    match a
    case Admit(id, c, m) =>
      NewRequestIsLawful(c, m, p.config.mode == Immediate);
      AdmitKeeps(p, id, NewRequest(c, m, p.config.mode == Immediate));
    case Push(id) =>
      PushKeeps(p, id);
    case RequestStop(id) =>
      FlagsKeep(p, id);
    case Deactivate(id) =>
      FlagsKeep(p, id);
    case RemoveQueued(id) =>
      var i := Find(p.pending, id);
      if i < |p.pending| {
        RemoveKeeps(p, id, i);
      }
    case SetConfig(config) =>
      ConfigKeeps(p, config);
    case Collect =>
      CollectKeeps(p);
    case CollectMore =>
      GatherKeeps(p);
      SendKeeps(Gather(p));
    case DispatchNext =>
      DispatchKeeps(p);
    case Work(id, outcome) =>
      WorkKeeps(p, id, outcome);
  }

  /** A run of the pipeline from its creation. */
  ghost predicate IsRun(states: seq<Pipe>, actions: seq<Action>) {
    && |states| == |actions| + 1
    && states[0] == InitialPipe(states[0].config)
    && forall i :: 0 < i < |states| ==> FollowsBy(states, actions, i)
  }

  ghost predicate FollowsBy(states: seq<Pipe>, actions: seq<Action>, i: nat)
    requires 0 < i < |states| <= |actions| + 1
  {
    KnownIds(states[i - 1]) && Enabled(states[i - 1], actions[i - 1]) && states[i] == Next(states[i - 1], actions[i - 1])
  }

  /** The invariant holds in every state of every interleaving. */
  lemma {:induction false} RunKeepsInvariant(states: seq<Pipe>, actions: seq<Action>, n: nat)
    requires IsRun(states, actions)
    requires n < |states|
    ensures Invariant(states[n])
    decreases n
  {
    hide Invariant, Next;
    if n == 0 {
      StartsWell(states[0].config);
    } else {
      assert FollowsBy(states, actions, n);
      RunKeepsInvariant(states, actions, n - 1);
      NextKeepsInvariant(states[n - 1], actions[n - 1]);
    }
  }

  lemma StartsWell(config: BatchingConfig)
    ensures Invariant(InitialPipe(config))
  {
    assert Survivors([], {}) == [];
  }

  // ---------------------------------------------------------------------------------------------
  // What holds in every state of every interleaving
  // ---------------------------------------------------------------------------------------------

  function Bit(b: bool): nat {
    if b then 1 else 0
  }

  /** Every enqueued request is in exactly one place, and was launched at most once. */
  lemma {:induction false} ExactlyOnePlace(states: seq<Pipe>, actions: seq<Action>, n: nat, id: RequestId)
    requires IsRun(states, actions)
    requires n < |states| && id in states[n].enqueued
    ensures var p := states[n];
            Bit(id in p.launched) + Bit(id in InHandOf(p.phase)) + Bit(id in p.pending)
            + Bit(id in p.removed) + Bit(id in p.dropped) == 1
    ensures Distinct(states[n].launched)
  {
    RunKeepsInvariant(states, actions, n);
    var p := states[n];
    ListsAreDisjoint(p);
    SurvivorsMembers(p.enqueued, Gone(p), id);
    hide IsRun, Survivors, Lawful, BatchesFit;
    var all := p.launched + InHandOf(p.phase) + p.pending;
    MembersOfParts(p.launched, InHandOf(p.phase), p.pending, all);
    assert forall i :: 0 <= i < |p.launched| ==> all[i] == p.launched[i];
  }

  lemma {:induction false} SurvivorsKeepOrder(ids: seq<RequestId>, gone: set<RequestId>, i: nat, j: nat) returns (a: nat, b: nat)
    requires i < j < |Survivors(ids, gone)|
    ensures a < b < |ids| && ids[a] == Survivors(ids, gone)[i] && ids[b] == Survivors(ids, gone)[j]
    decreases |ids|
  {
    var rest := Survivors(ids[1..], gone);
    if ids[0] in gone {
      a, b := SurvivorsKeepOrder(ids[1..], gone, i, j);
      a, b := a + 1, b + 1;
    } else if i == 0 {
      assert Survivors(ids, gone)[j] == rest[j - 1];
      SurvivorsMembers(ids[1..], gone, rest[j - 1]);
      var k :| 0 <= k < |ids[1..]| && ids[1..][k] == rest[j - 1];
      a, b := 0, k + 1;
    } else {
      a, b := SurvivorsKeepOrder(ids[1..], gone, i - 1, j - 1);
      a, b := a + 1, b + 1;
    }
  }

  /** Launches follow the order in which requests were enqueued. */
  lemma {:induction false} LaunchesFollowQueue(states: seq<Pipe>, actions: seq<Action>, n: nat, i: nat, j: nat)
    returns (a: nat, b: nat)
    requires IsRun(states, actions)
    requires n < |states| && i < j < |states[n].launched|
    ensures var p := states[n]; a < b < |p.enqueued| && p.enqueued[a] == p.launched[i] && p.enqueued[b] == p.launched[j]
  {
    RunKeepsInvariant(states, actions, n);
    var p := states[n];
    var all := p.launched + InHandOf(p.phase) + p.pending;
    assert all[i] == p.launched[i] && all[j] == p.launched[j];
    a, b := SurvivorsKeepOrder(p.enqueued, Gone(p), i, j);
  }

  /** No batch exceeds the size limit of the configuration it was collected under or holds a request
      that this configuration calls long. */
  lemma {:induction false} BatchesAreShort(states: seq<Pipe>, actions: seq<Action>, n: nat, i: nat)
    requires IsRun(states, actions)
    requires n < |states| && i < |states[n].batches|
    ensures var b := states[n].batches[i];
            && |b.ids| <= b.config.maxBatch
            && forall id :: id in b.ids ==>
                 id in states[n].requests && states[n].requests[id].contextWindow <= b.config.longThreshold
  {
    RunKeepsInvariant(states, actions, n);
    assert ShortBatch(states[n].batches[i].ids, states[n].batches[i].config, states[n].requests);
  }

  lemma {:induction false} GatherNeverGrows(p: Pipe)
    requires p.phase.Waiting?
    requires forall id :: id in p.pending ==> id in p.requests
    ensures |Gather(p).pending| <= |p.pending|
    decreases |p.pending|
  {
    if p.pending != [] && |p.phase.batch| < p.phase.config.maxBatch && !IsLong(p.requests[p.pending[0]], p.phase.config) {
      if !p.requests[p.pending[0]].active {
        GatherNeverGrows(DropFront(p));
      } else {
        GatherNeverGrows(TakeFront(p));
      }
    }
  }

  /** A dispatcher iteration on a non-empty queue shortens it exactly when the mode is not immediate and
      the iteration can take a request alone or the batch limit is at least one. */
  lemma {:induction false} IterationShortensIff(p: Pipe)
    requires p.phase.Idle? && p.pending != []
    requires forall id :: id in p.pending ==> id in p.requests
    ensures |CollectFirst(p).pending| < |p.pending| <==>
            p.config.mode != Immediate
            && (p.config.mode == Serial || IsLong(p.requests[p.pending[0]], p.config) || p.config.maxBatch >= 1)
  {
    if p.config.mode == Adaptive && !IsLong(p.requests[p.pending[0]], p.config) && p.config.maxBatch >= 1 {
      var w := p.(phase := Waiting(p.config, []));
      if !p.requests[p.pending[0]].active {
        GatherNeverGrows(DropFront(w));
      } else {
        GatherNeverGrows(TakeFront(w));
      }
    }
  }

  /** The grammar of a request's event stream, by positions in the stream: nothing but Queued; Queued and a
      failure while queued; or an optional Queued, Started, tokens numbered without gaps that are exactly
      the recorded history, and at most one terminal event that carries the number of tokens. */
  ghost predicate StreamGrammar(e: seq<Event>, history: seq<TokenRecord>, maximum: nat) {
    || e == [Queued]
    || e == [Queued, Failed(0)]
    || (var b := if |e| > 0 && e[0] == Queued then 1 else 0;
        var k := |history|;
        && k <= maximum
        && b + 1 + k <= |e| <= b + 2 + k
        && e[b] == Started
        && (forall i :: 0 <= i < k ==> e[b + 1 + i] == Token(i, history[i].token) && history[i].position == i)
        && (|e| == b + 2 + k ==> e[b + 1 + k] == Completed(k) || e[b + 1 + k] == Failed(k)))
  }

  lemma {:induction false} TokenEventsAt(history: seq<TokenRecord>)
    ensures |TokenEvents(history)| == |history|
    ensures forall i :: 0 <= i < |history| ==> TokenEvents(history)[i] == Token(i, history[i].token)
    decreases |history|
  {
    if history != [] {
      var n := |history| - 1;
      TokenEventsAt(history[..n]);
      forall i | 0 <= i < |history|
        ensures TokenEvents(history)[i] == Token(i, history[i].token)
      {
        if i < n {
          assert history[..n][i] == history[i];
        }
      }
    }
  }

  lemma StreamShape(e: seq<Event>, opening: seq<Event>, tokens: seq<Event>, terminal: seq<Event>)
    requires e == opening + [Started] + tokens + terminal
    ensures |e| == |opening| + 1 + |tokens| + |terminal|
    ensures e[|opening|] == Started
    ensures forall i :: 0 <= i < |tokens| ==> e[|opening| + 1 + i] == tokens[i]
    ensures terminal != [] ==> e[|opening| + 1 + |tokens|] == terminal[0]
    ensures |opening| > 0 ==> e[0] == opening[0]
  {
  }

  lemma {:induction false} LawfulIsGrammatical(r: Request)
    requires Lawful(r)
    ensures StreamGrammar(r.events, r.history, r.maximumNewTokens)
  {
    if r.place in {Launched, Direct} {
      var opening := if r.place == Launched then [Queued] else [];
      assert GenerationStream(r, opening);
      hide Lawful, TokenEvents;
      StreamIsGrammatical(r, opening);
    }
  }

  lemma StreamIsGrammatical(r: Request, opening: seq<Event>)
    requires GenerationStream(r, opening)
    requires opening == [Queued] || opening == []
    ensures StreamGrammar(r.events, r.history, r.maximumNewTokens)
  {
    TokenEventsAt(r.history);
    hide TokenEvents, StreamGrammar;
    StreamShape(r.events, opening, TokenEvents(r.history), TerminalOf(r.worker));
    ShapeIsGrammatical(r.events, opening, r.history, r.maximumNewTokens);
  }

  lemma ShapeIsGrammatical(e: seq<Event>, opening: seq<Event>, history: seq<TokenRecord>, maximum: nat)
    requires opening == [Queued] || opening == []
    requires var b, k := |opening|, |history|;
             && k <= maximum && b + 1 + k <= |e| <= b + 2 + k && e[b] == Started && (b > 0 ==> e[0] == Queued)
             && (forall i :: 0 <= i < k ==> e[b + 1 + i] == Token(i, history[i].token) && history[i].position == i)
             && (|e| == b + 2 + k ==> e[b + 1 + k] == Completed(k) || e[b + 1 + k] == Failed(k))
    ensures StreamGrammar(e, history, maximum)
  {
  }

  /** In every state of every interleaving every request's callback has received a stream of the grammar. */
  lemma {:induction false} StreamsFollowGrammar(states: seq<Pipe>, actions: seq<Action>, n: nat, id: RequestId)
    requires IsRun(states, actions)
    requires n < |states| && id in states[n].requests
    ensures var r := states[n].requests[id]; StreamGrammar(r.events, r.history, r.maximumNewTokens)
  {
    RunKeepsInvariant(states, actions, n);
    LawfulIsGrammatical(states[n].requests[id]);
  }

  /** A completed stream is full unless a stop was requested. */
  lemma {:induction false} CompletedMeansFull(states: seq<Pipe>, actions: seq<Action>, n: nat, id: RequestId, k: nat)
    requires IsRun(states, actions)
    requires n < |states| && id in states[n].requests
    requires Completed(k) in states[n].requests[id].events
    ensures k == |states[n].requests[id].history|
    ensures k == states[n].requests[id].maximumNewTokens || states[n].requests[id].stopRequested
  {
    RunKeepsInvariant(states, actions, n);
    var r := states[n].requests[id];
    assert Lawful(r);
    TokenEventsAt(r.history);
    hide TokenEvents;
    assert Completed(k) !in TokenEvents(r.history);
  }

  // ---------------------------------------------------------------------------------------------
  // The generation loop as a whole
  // ---------------------------------------------------------------------------------------------

  /** Any run of a worker, with any interference, keeps to the stream it was opened with. */
  lemma {:induction false} TraceKeepsStream(trace: seq<Request>, opening: seq<Event>, n: nat)
    requires IsTrace(trace) && n < |trace|
    requires GenerationStream(trace[0], opening)
    ensures GenerationStream(trace[n], opening)
    decreases n
  {
    if n > 0 {
      TraceKeepsStream(trace, opening, n - 1);
      assert MoveAt(trace, n);
      MoveKeepsStream(trace[n - 1], trace[n], opening);
    }
  }

  lemma MoveKeepsStream(a: Request, b: Request, opening: seq<Event>)
    requires WorkerMove(a, b)
    requires GenerationStream(a, opening)
    ensures GenerationStream(b, opening)
  {
    if outcome :| b == WorkStep(a, outcome) {
      WorkKeepsStream(a, outcome, opening);
    } else {
      hide TokenEvents;
    }
  }
}
