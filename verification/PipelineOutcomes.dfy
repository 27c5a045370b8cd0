/** What a generation ends with, and where its tokens come from. */
module PipelineOutcomes {
  import opened Core
  import opened Pipeline
  import opened PipelineRuns
  import opened PipelineProgress

  // ---------------------------------------------------------------------------------------------
  // A worker left alone
  // ---------------------------------------------------------------------------------------------

  lemma {:induction false} FinishedStays(r: Request, passes: nat -> Outcome, n: nat)
    requires r.worker.Finished?
    ensures Worked(r, passes, n) == r
    decreases n
  {
    if n > 0 {
      FinishedStays(r, passes, n - 1);
    }
  }

  lemma LeavingCloses(r: Request, passes: nat -> Outcome, n: nat)
    requires r.worker == Leaving && n >= 2
    ensures var k := |r.history|; var e := if r.active then Completed(k) else Failed(k);
            Worked(r, passes, n) == r.(worker := Finished(e), events := r.events + [e])
  {
    var k := |r.history|;
    var c := WorkStep(r, passes(k));
    var f := WorkStep(c, passes(k));
    hide WorkStep;
    assert Worked(r, passes, n) == Worked(c, passes, n - 1) == Worked(f, passes, n - 2);
    FinishedStays(f, passes, n - 2);
  }

  /** A worker that finds its request inactive fails it; one that finds a stop requested, or nothing left to
      produce, completes it.  Neither produces another token. */
  lemma {:induction false} AloneLeaves(r: Request, opening: seq<Event>, passes: nat -> Outcome, n: nat)
    requires GenerationStream(r, opening) && r.worker in {AtLoop, Admitted}
    requires n >= WorkLeft(r)
    requires !r.active || r.stopRequested || |r.history| == r.maximumNewTokens
    ensures var e, k := Worked(r, passes, n), |r.history|;
            && e.worker == Finished(if r.active then Completed(k) else Failed(k))
            && e.history == r.history && e.active == r.active
  {
    var k := |r.history|;
    var a := WorkStep(r, passes(k));
    assert Worked(r, passes, n) == Worked(a, passes, n - 1);
    if a.worker == Leaving {
      LeavingCloses(a, passes, n - 1);
    } else {
      var b := WorkStep(a, passes(k));
      assert b.worker == Leaving;
      assert Worked(a, passes, n - 1) == Worked(b, passes, n - 2);
      LeavingCloses(b, passes, n - 2);
    }
  }

  /** Otherwise it produces the token of every pass until the first pass that fails, and the request fails there;
      if none fails, it completes with the maximum. */
  lemma {:induction false} AloneProduces(r: Request, opening: seq<Event>, passes: nat -> Outcome, n: nat, j: nat)
    requires GenerationStream(r, opening) && r.worker == AtLoop && r.active && !r.stopRequested
    requires n >= WorkLeft(r)
    requires |r.history| <= j <= r.maximumNewTokens
    requires forall i :: |r.history| <= i < j ==> passes(i).Produced?
    requires j < r.maximumNewTokens ==> passes(j) == PassFailed
    ensures var e := Worked(r, passes, n);
            && e.worker == Finished(if j == r.maximumNewTokens then Completed(j) else Failed(j))
            && |e.history| == j && r.history <= e.history && (e.active <==> j == r.maximumNewTokens)
            && forall i :: |r.history| <= i < j ==> passes(i) == Produced(e.history[i].token)
    decreases j - |r.history|
  {
    var k := |r.history|;
    if k == r.maximumNewTokens {
      AloneLeaves(r, opening, passes, n);
    } else {
      var a := WorkStep(r, passes(k));
      var b := WorkStep(a, passes(k));
      var c := WorkStep(b, passes(k));
      assert a.worker == Admitted && b.worker == Generating;
      WorkKeepsStream(r, passes(k), opening);
      WorkKeepsStream(a, passes(k), opening);
      WorkKeepsStream(b, passes(k), opening);
      assert Worked(r, passes, n) == Worked(a, passes, n - 1) == Worked(b, passes, n - 2) == Worked(c, passes, n - 3);
      if k == j {
        FinishedStays(c, passes, n - 3);
      } else {
        assert c.history == r.history + [TokenRecord(k, passes(k).token)];
        hide GenerationStream, Worked, WorkStep;
        AloneProduces(c, opening, passes, n - 3, j);
        assert Worked(r, passes, n).history[k] == c.history[k];
      }
    }
  }

  /** The ordinary case: a request that is never cancelled and whose passes all yield a token completes with all
      of its tokens. */
  lemma {:induction false} UndisturbedCompletes(r: Request, opening: seq<Event>, passes: nat -> Outcome, n: nat)
    requires GenerationStream(r, opening) && r.worker == AtLoop && r.history == [] && r.active && !r.stopRequested
    requires forall i :: 0 <= i < r.maximumNewTokens ==> passes(i).Produced?
    requires n >= 3 * r.maximumNewTokens + 3
    ensures var e := Worked(r, passes, n);
            && e.events != [] && e.events[|e.events| - 1] == Completed(r.maximumNewTokens)
            && |e.history| == r.maximumNewTokens
            && forall i :: 0 <= i < r.maximumNewTokens ==> passes(i) == Produced(e.history[i].token)
  {
    AloneProduces(r, opening, passes, n, r.maximumNewTokens);
    WorkerFinishes(r, opening, passes, n);
    hide Worked, TokenEvents;
  }

  // ---------------------------------------------------------------------------------------------
  // Every interleaving
  // ---------------------------------------------------------------------------------------------

  /** Nothing but its worker, or its launch, touches a request's worker state and history. */
  ghost predicate Untouched(r: Request, q: Request) {
    && q.history == r.history && q.maximumNewTokens == r.maximumNewTokens
    && (q.worker == r.worker || (r.worker == NotStarted && q.worker == AtLoop))
  }

  ghost predicate AllUntouched(p: Pipe, q: Pipe) {
    forall id :: id in p.requests ==> id in q.requests && Untouched(p.requests[id], q.requests[id])
  }

  lemma OneUntouched(p: Pipe, q: Pipe, id: RequestId)
    requires id in p.requests && id in q.requests && q.requests == p.requests[id := q.requests[id]]
    requires Untouched(p.requests[id], q.requests[id])
    ensures AllUntouched(p, q)
  {
  }

  lemma {:induction false} GatherLeavesWorkers(p: Pipe)
    requires p.phase.Waiting?
    requires forall id :: id in p.pending ==> id in p.requests
    ensures forall id :: id in p.requests ==>
              && id in Gather(p).requests && Gather(p).requests[id].worker == p.requests[id].worker
              && Gather(p).requests[id].history == p.requests[id].history
              && Gather(p).requests[id].maximumNewTokens == p.requests[id].maximumNewTokens
    decreases |p.pending|
  {
    if p.pending != [] && |p.phase.batch| < p.phase.config.maxBatch && !IsLong(p.requests[p.pending[0]], p.phase.config) {
      GatherLeavesWorkers(if !p.requests[p.pending[0]].active then DropFront(p) else TakeFront(p));
    }
  }

  lemma CollectLeavesWorkers(p: Pipe)
    requires forall id :: id in p.pending ==> id in p.requests
    ensures AllUntouched(p, CollectFirst(p))
  {
    if p.pending != [] && p.config.mode != Immediate {
      if p.config.mode == Serial || IsLong(p.requests[p.pending[0]], p.config) {
        OneUntouched(p, PopSolo(p), p.pending[0]);
      } else {
        GatherLeavesWorkers(p.(phase := Waiting(p.config, [])));
      }
    }
  }

  /** A step leaves every request's worker and history alone, except that a working step moves its own. */
  lemma {:induction false} StepMovesOneWorker(p: Pipe, a: Action, id: RequestId)
    requires Invariant(p) && KnownIds(p) && Enabled(p, a)
    requires id in p.requests
    ensures id in Next(p, a).requests
    ensures if a.Work? && a.id == id then Next(p, a).requests[id] == WorkStep(p.requests[id], a.outcome)
            else Untouched(p.requests[id], Next(p, a).requests[id])
  {
    hide WorkStep, Gather, CollectFirst, Dispatch, Invariant;
    match a
    case Collect => CollectLeavesWorkers(p);
    case CollectMore => GatherLeavesWorkers(p);
    case DispatchNext => DispatchLeavesWorkers(p);
    case _ =>
  }

  lemma DispatchLeavesWorkers(p: Pipe)
    requires Invariant(p) && KnownIds(p) && p.phase.Dispatching?
    ensures AllUntouched(p, Dispatch(p))
  {
    if p.phase.rest != [] {
      var front := p.phase.rest[0];
      assert front in InHandOf(p.phase) && Lawful(p.requests[front]) && p.requests[front].place == InHand;
      hide Invariant, Lawful;
      OneUntouched(p, Dispatch(p), front);
    }
  }

  lemma AdmittedIsNew(p: Pipe, a: Action, id: RequestId)
    requires Invariant(p) && KnownIds(p) && Enabled(p, a)
    requires id !in p.requests && id in Next(p, a).requests
    ensures Next(p, a).requests[id].history == [] && Next(p, a).requests[id].worker in {NotStarted, AtLoop}
  {
    match a
    case Collect => CollectAddsNothing(p);
    case CollectMore => GatherAddsNothing(p);
    case _ =>
      hide Invariant, WorkStep, Gather;
  }

  lemma {:induction false} GatherAddsNothing(p: Pipe)
    requires p.phase.Waiting?
    requires forall id :: id in p.pending ==> id in p.requests
    ensures Gather(p).requests.Keys == p.requests.Keys
    decreases |p.pending|
  {
    if p.pending != [] && |p.phase.batch| < p.phase.config.maxBatch && !IsLong(p.requests[p.pending[0]], p.phase.config) {
      GatherAddsNothing(if !p.requests[p.pending[0]].active then DropFront(p) else TakeFront(p));
    }
  }

  lemma CollectAddsNothing(p: Pipe)
    requires forall id :: id in p.pending ==> id in p.requests
    ensures CollectFirst(p).requests.Keys == p.requests.Keys
  {
    if p.pending != [] && p.config.mode != Immediate && !(p.config.mode == Serial || IsLong(p.requests[p.pending[0]], p.config)) {
      GatherAddsNothing(p.(phase := Waiting(p.config, [])));
    }
  }

  /** What the last step of a run did to a request's worker. */
  ghost predicate Moved(states: seq<Pipe>, actions: seq<Action>, n: nat, id: RequestId)
    requires 0 < n < |states| <= |actions| + 1 && id in states[n].requests
  {
    var q := states[n].requests[id];
    if id !in states[n - 1].requests then q.history == [] && q.worker in {NotStarted, AtLoop}
    else if actions[n - 1].Work? && actions[n - 1].id == id then q == WorkStep(states[n - 1].requests[id], actions[n - 1].outcome)
    else Untouched(states[n - 1].requests[id], q)
  }

  lemma {:induction false} RunMovesWorker(states: seq<Pipe>, actions: seq<Action>, n: nat, id: RequestId)
    requires IsRun(states, actions) && n < |states| && id in states[n].requests
    ensures n > 0 && Moved(states, actions, n, id)
  {
    if n > 0 {
      assert FollowsBy(states, actions, n);
      RunKeepsInvariant(states, actions, n - 1);
      hide Invariant, Next, IsRun, WorkStep;
      if id in states[n - 1].requests {
        StepMovesOneWorker(states[n - 1], actions[n - 1], id);
      } else {
        AdmittedIsNew(states[n - 1], actions[n - 1], id);
      }
    }
  }

  /** Every token in a history was yielded by the pass for its position. */
  lemma {:induction false} TokenHasPass(states: seq<Pipe>, actions: seq<Action>, n: nat, id: RequestId, i: nat) returns (m: nat)
    requires IsRun(states, actions) && n < |states| && id in states[n].requests
    requires i < |states[n].requests[id].history|
    ensures m < n && id in states[m].requests
    ensures states[m].requests[id].worker == Generating && |states[m].requests[id].history| == i
    ensures actions[m] == Work(id, Produced(states[n].requests[id].history[i].token))
    decreases n
  {
    RunMovesWorker(states, actions, n, id);
    assert |states| == |actions| + 1;
    hide IsRun;
    if i < |states[n - 1].requests[id].history| {
      m := TokenHasPass(states, actions, n - 1, id, i);
    } else {
      m := n - 1;
    }
  }

  /** What a worker at its end goes back to: a pass that failed, or the moment it left the loop. */
  ghost predicate Cause(w: Request, outcome: Outcome, k: nat, success: bool) {
    && |w.history| == k
    && ((w.worker == Generating && outcome == PassFailed && !success) || (w.worker == Leaving && success == w.active))
  }

  /** A finished stream ends in Completed exactly when no pass failed and the request was active when its worker
      left the loop; otherwise in Failed. */
  lemma {:induction false} TerminalHasCause(states: seq<Pipe>, actions: seq<Action>, n: nat, id: RequestId) returns (m: nat)
    requires IsRun(states, actions) && n < |states| && id in states[n].requests
    requires states[n].requests[id].worker.Finished?
    ensures m < n && id in states[m].requests && actions[m].Work? && actions[m].id == id
    ensures var k := |states[n].requests[id].history|; var e := states[n].requests[id].worker.terminal;
            && (e == Completed(k) || e == Failed(k))
            && Cause(states[m].requests[id], actions[m].outcome, k, e == Completed(k))
    decreases n
  {
    RunMovesWorker(states, actions, n, id);
    FinishedIsTerminal(states, actions, n, id);
    assert |states| == |actions| + 1;
    hide IsRun;
    var r := states[n - 1].requests[id];
    if r.worker.Finished? {
      m := TerminalHasCause(states, actions, n - 1, id);
    } else if r.worker == Generating {
      m := n - 1;
    } else {
      assert r.worker.Closing?;
      m := ClosingHasCause(states, actions, n - 1, id);
    }
  }

  lemma FinishedIsTerminal(states: seq<Pipe>, actions: seq<Action>, n: nat, id: RequestId)
    requires IsRun(states, actions) && n < |states| && id in states[n].requests
    requires states[n].requests[id].worker.Finished?
    ensures var k, e := |states[n].requests[id].history|, states[n].requests[id].worker.terminal;
            e == Completed(k) || e == Failed(k)
  {
    RunKeepsInvariant(states, actions, n);
    assert Lawful(states[n].requests[id]);
    hide IsRun, TokenEvents;
  }

  lemma {:induction false} ClosingHasCause(states: seq<Pipe>, actions: seq<Action>, n: nat, id: RequestId) returns (m: nat)
    requires IsRun(states, actions) && n < |states| && id in states[n].requests
    requires states[n].requests[id].worker.Closing?
    ensures m < n && id in states[m].requests && actions[m].Work? && actions[m].id == id
    ensures var w := states[m].requests[id];
            w.worker == Leaving && w.history == states[n].requests[id].history && states[n].requests[id].worker == Closing(w.active)
    decreases n
  {
    RunMovesWorker(states, actions, n, id);
    assert |states| == |actions| + 1;
    hide IsRun;
    if states[n - 1].requests[id].worker.Closing? {
      m := ClosingHasCause(states, actions, n - 1, id);
    } else {
      m := n - 1;
    }
  }
}
