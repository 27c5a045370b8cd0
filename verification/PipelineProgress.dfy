/** Progress: what the dispatcher and a worker achieve when only they take steps. */
module PipelineProgress {
  import opened Pipeline
  import opened PipelineRuns

  // ---------------------------------------------------------------------------------------------
  // The dispatcher
  // ---------------------------------------------------------------------------------------------

  function DispatcherAction(p: Pipe): (a: Action)
    ensures Enabled(p, a)
  {
    match p.phase
    case Idle => Collect
    case Waiting(_, _) => CollectMore
    case Dispatching(_) => DispatchNext
  }

  /** The pipe after one step of the dispatcher. */
  ghost function Driven(p: Pipe): (q: Pipe)
    requires Invariant(p)
    ensures Invariant(q)
  {
    InvariantKnowsIds(p);
    NextKeepsInvariant(p, DispatcherAction(p));
    Next(p, DispatcherAction(p))
  }

  /** The pipe after `n` steps of the dispatcher alone. */
  ghost function Drive(p: Pipe, n: nat): Pipe
    requires Invariant(p)
    decreases n
  {
    if n == 0 then p else Drive(Driven(p), n - 1)
  }

  /** The configuration lets every iteration take something. */
  predicate Progressive(config: BatchingConfig) {
    config.mode == Serial || (config.mode == Adaptive && config.maxBatch >= 1)
  }

  /** A bound on the dispatcher steps still to come. */
  function StepsLeft(p: Pipe): nat {
    4 * |p.pending| + |InHandOf(p.phase)|
    + match p.phase
      case Idle => 0
      case Waiting(_, _) => 2
      case Dispatching(_) => 1
  }

  function Inactive(p: Pipe): set<RequestId> {
    set id | id in p.requests && !p.requests[id].active
  }

  /** The queued requests that are still wanted, in order. */
  function Wanted(p: Pipe): seq<RequestId> {
    Survivors(InHandOf(p.phase) + p.pending, Inactive(p))
  }

  lemma InactiveStays(p: Pipe, q: Pipe, id: RequestId)
    requires id in p.requests && id in q.requests
    requires q.requests == p.requests[id := q.requests[id]]
    requires q.requests[id].active == p.requests[id].active
    ensures Inactive(q) == Inactive(p)
  {
  }

  lemma WantedWithoutInactive(a: seq<RequestId>, id: RequestId, b: seq<RequestId>, gone: set<RequestId>)
    requires id in gone
    ensures Survivors(a + [id] + b, gone) == Survivors(a + b, gone)
  {
    SurvivorsOfConcatenation(a + [id], b, gone);
    SurvivorsOfConcatenation(a, [id], gone);
    SurvivorsOfConcatenation(a, b, gone);
    assert [id][1..] == [];
    assert Survivors([id], gone) == [];
  }

  /** One request leaves the front of the queue, into the batch or out. */
  lemma {:induction false} FrontStep(p: Pipe)
    requires p.phase.Waiting? && p.pending != [] && p.pending[0] in p.requests
    ensures var q := if p.requests[p.pending[0]].active then TakeFront(p) else DropFront(p);
            Wanted(q) == Wanted(p) && Inactive(q) == Inactive(p) && q.launched == p.launched && q.config == p.config
  {
    var id := p.pending[0];
    var q := if p.requests[id].active then TakeFront(p) else DropFront(p);
    InactiveStays(p, q, id);
    assert p.pending == [id] + p.pending[1..];
    hide Survivors;
    if p.requests[id].active {
      assert InHandOf(q.phase) + q.pending == InHandOf(p.phase) + p.pending;
    } else {
      assert id in Inactive(p);
      assert InHandOf(p.phase) + p.pending == InHandOf(p.phase) + [id] + p.pending[1..];
      WantedWithoutInactive(InHandOf(p.phase), id, p.pending[1..], Inactive(p));
    }
  }

  lemma {:induction false} GatherConserves(p: Pipe)
    requires p.phase.Waiting?
    requires forall id :: id in p.pending ==> id in p.requests
    ensures var q := Gather(p);
            && Wanted(q) == Wanted(p) && Inactive(q) == Inactive(p) && q.launched == p.launched && q.config == p.config
            && |q.pending| <= |p.pending|
            && |q.pending| + |q.phase.batch| <= |p.pending| + |p.phase.batch|
    decreases |p.pending|
  {
    if p.pending != [] && |p.phase.batch| < p.phase.config.maxBatch && !IsLong(p.requests[p.pending[0]], p.phase.config) {
      var q := if p.requests[p.pending[0]].active then TakeFront(p) else DropFront(p);
      FrontStep(p);
      hide Wanted, Inactive;
      GatherConserves(q);
    }
  }

  /** What is launched followed by what is still wanted stays, and what is left to do gets less. */
  ghost predicate Advances(p: Pipe, q: Pipe) {
    && q.launched + Wanted(q) == p.launched + Wanted(p) && Inactive(q) == Inactive(p) && q.config == p.config
    && (Progressive(p.config) && StepsLeft(p) > 0 ==> StepsLeft(q) < StepsLeft(p))
    && (StepsLeft(p) == 0 ==> q == p)
  }

  lemma {:induction false} DispatcherStep(p: Pipe)
    requires Invariant(p)
    ensures Advances(p, Driven(p))
  {
    InvariantKnowsIds(p);
    PendingIsKnown(p);
    DrivenIs(p);
    hide Invariant, Advances, CollectFirst, CollectAgain, Dispatch, KnownIds, Driven, Next;
    match p.phase
    case Idle =>
      CollectStep(p);
    case Waiting(_, _) =>
      CollectMoreStep(p);
    case Dispatching(rest) =>
      LaunchStep(p);
  }

  lemma DrivenIs(p: Pipe)
    requires Invariant(p) && KnownIds(p)
    ensures Driven(p) == match p.phase
                         case Idle => CollectFirst(p)
                         case Waiting(_, _) => CollectAgain(p)
                         case Dispatching(_) => Dispatch(p)
  {
    hide Invariant, CollectFirst, CollectAgain, Dispatch;
  }

  lemma PendingIsKnown(p: Pipe)
    requires KnownIds(p)
    ensures forall id :: id in p.pending ==> id in p.requests
    ensures p.phase.Dispatching? ==> forall id :: id in p.phase.rest ==> id in p.requests
  {
  }

  lemma CollectMoreStep(p: Pipe)
    requires p.phase.Waiting?
    requires forall id :: id in p.pending ==> id in p.requests
    ensures Advances(p, CollectAgain(p))
  {
    GatherConserves(p);
    SameWanted(Gather(p), CollectAgain(p));
    hide Gather, Wanted, Inactive;
  }

  lemma {:induction false} CollectStep(p: Pipe)
    requires p.phase.Idle?
    requires forall id :: id in p.pending ==> id in p.requests
    ensures Advances(p, CollectFirst(p))
  {
    if p.pending != [] && p.config.mode != Immediate {
      var id := p.pending[0];
      if p.config.mode == Serial || IsLong(p.requests[id], p.config) {
        InactiveStays(p, PopSolo(p), id);
        assert [id] + p.pending[1..] == [] + p.pending;
      } else {
        var w := p.(phase := Waiting(p.config, []));
        assert Wanted(w) == Wanted(p) && Inactive(w) == Inactive(p);
        GatherConserves(w);
        IterationShortensIff(p);
        var q := Gather(w);
        SameWanted(q, CollectFirst(p));
        hide Gather, Wanted, Inactive, IsLong;
      }
    }
  }

  lemma SameWanted(p: Pipe, q: Pipe)
    requires q.requests == p.requests && q.pending == p.pending && InHandOf(q.phase) == InHandOf(p.phase)
    ensures Wanted(q) == Wanted(p) && Inactive(q) == Inactive(p)
  {
  }

  lemma {:induction false} LaunchStep(p: Pipe)
    requires p.phase.Dispatching? && forall id :: id in p.phase.rest ==> id in p.requests
    ensures Advances(p, Dispatch(p))
  {
    var q := Dispatch(p);
    if p.phase.rest == [] {
      SameWanted(p, q);
    } else {
      var id := p.phase.rest[0];
      InactiveStays(p, q, id);
      LaunchWanted(p);
      hide Wanted, Inactive;
      if p.requests[id].active {
        assert q.launched + Wanted(q) == p.launched + ([id] + Wanted(q));
      }
    }
  }

  lemma {:induction false} LaunchWanted(p: Pipe)
    requires p.phase.Dispatching? && p.phase.rest != [] && forall id :: id in p.phase.rest ==> id in p.requests
    ensures var id := p.phase.rest[0];
            Wanted(p) == if p.requests[id].active then [id] + Wanted(Dispatch(p)) else Wanted(Dispatch(p))
  {
    var id := p.phase.rest[0];
    var rest := p.phase.rest[1..];
    var q := Dispatch(p);
    assert q.pending == p.pending && InHandOf(q.phase) == rest;
    InactiveStays(p, q, id);
    assert id in Inactive(p) <==> !p.requests[id].active;
    hide Dispatch, Survivors, Inactive;
    assert p.phase.rest + p.pending == [id] + (rest + p.pending);
    WantedFront(id, rest + p.pending, Inactive(p));
  }

  lemma WantedFront(id: RequestId, ids: seq<RequestId>, gone: set<RequestId>)
    ensures Survivors([id] + ids, gone) == if id in gone then Survivors(ids, gone) else [id] + Survivors(ids, gone)
  {
    assert ([id] + ids)[1..] == ids;
    assert [] + Survivors(ids, gone) == Survivors(ids, gone);
  }

  lemma NothingLeft(p: Pipe)
    requires StepsLeft(p) == 0
    ensures p.phase.Idle? && p.pending == [] && Wanted(p) == []
  {
    assert InHandOf(p.phase) + p.pending == [];
  }

  lemma {:induction false} DriveDrains(p: Pipe, n: nat)
    requires Invariant(p) && Progressive(p.config)
    requires n >= StepsLeft(p)
    ensures var q := Drive(p, n);
            q.phase.Idle? && q.pending == [] && q.launched == p.launched + Wanted(p)
    decreases n
  {
    hide Invariant, StepsLeft, Wanted, Inactive, Driven, Progressive;
    if n == 0 {
      NothingLeft(p);
    } else {
      DispatcherStep(p);
      DriveDrains(Driven(p), n - 1);
    }
  }

  /** From every state of every interleaving, if the mode is serial, or adaptive with a batch limit of at
      least one: dispatcher steps alone empty the queue, within four steps for each pending and one for
      each collected request and two more, and launch exactly the requests that were still wanted, in
      order. */
  lemma {:induction false} DispatcherDrainsQueue(states: seq<Pipe>, actions: seq<Action>, n: nat, steps: nat)
    requires IsRun(states, actions) && n < |states|
    requires Progressive(states[n].config)
    requires steps >= 4 * |states[n].pending| + |InHandOf(states[n].phase)| + 2
    ensures Invariant(states[n])
    ensures var p := states[n]; var q := Drive(p, steps);
            && q.pending == [] && q.phase.Idle?
            && q.launched == p.launched + Survivors(InHandOf(p.phase) + p.pending, Inactive(p))
  {
    RunKeepsInvariant(states, actions, n);
    hide Invariant;
    DriveDrains(states[n], steps);
  }

  // ---------------------------------------------------------------------------------------------
  // A worker
  // ---------------------------------------------------------------------------------------------

  /** The request after `n` steps of its worker alone; `passes` is what the pass for each position yields. */
  function Worked(r: Request, passes: nat -> Outcome, n: nat): Request
    decreases n
  {
    if n == 0 then r else Worked(WorkStep(r, passes(|r.history|)), passes, n - 1)
  }

  function WorkLeft(r: Request): int {
    var tokens := r.maximumNewTokens - |r.history|;
    match r.worker
    case NotStarted => 0
    case AtLoop => 3 * tokens + 3
    case Admitted => 3 * tokens + 2
    case Generating => 3 * tokens + 1
    case Leaving => 2
    case Closing(_) => 1
    case Finished(_) => 0
  }

  /** Whatever the passes yield, a worker left alone finishes, within three steps for each token it may still
      produce and three more. */
  lemma {:induction false} WorkerFinishes(r: Request, opening: seq<Event>, passes: nat -> Outcome, n: nat)
    requires GenerationStream(r, opening)
    requires n >= WorkLeft(r)
    ensures Worked(r, passes, n).worker.Finished?
    ensures GenerationStream(Worked(r, passes, n), opening)
    decreases n
  {
    if n > 0 {
      WorkKeepsStream(r, passes(|r.history|), opening);
      hide TokenEvents;
      WorkerFinishes(WorkStep(r, passes(|r.history|)), opening, passes, n - 1);
    }
  }
}
