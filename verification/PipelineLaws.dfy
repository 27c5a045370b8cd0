/** What each step of callers and dispatcher does, by its effect. */
module PipelineLaws {
  import opened Core
  import opened Pipeline
  import opened PipelineRuns
  import opened PipelineProgress

  // ---------------------------------------------------------------------------------------------
  // Callers
  // ---------------------------------------------------------------------------------------------

  /** Only this request changes. */
  ghost predicate OnlyRequest(p: Pipe, q: Pipe, id: RequestId) {
    && id in q.requests && q.requests.Keys == p.requests.Keys + {id}
    && forall x :: x in p.requests && x != id ==> q.requests[x] == p.requests[x]
  }

  /** In immediate mode a request starts at once; in the other modes it is announced as queued and waits. */
  lemma AdmissionFollowsMode(p: Pipe, id: RequestId, contextWindow: U32, maximum: U32)
    requires KnownIds(p) && id !in p.requests
    ensures var q := Next(p, Admit(id, contextWindow, maximum));
            && OnlyRequest(p, q, id)
            && q.requests[id].contextWindow == contextWindow && q.requests[id].maximumNewTokens == maximum
            && q.requests[id].active && !q.requests[id].stopRequested && q.requests[id].history == []
            && (p.config.mode == Immediate ==> q.requests[id].events == [Started] && q.requests[id].worker == AtLoop)
            && (p.config.mode != Immediate ==> q.requests[id].events == [Queued] && q.requests[id].worker == NotStarted)
            && q.pending == p.pending && q.launched == p.launched
  {
  }

  /** A cancelled request that is still queued leaves the queue with a failure event, and the others keep their
      order. */
  lemma {:induction false} RemovalFails(p: Pipe, id: RequestId, a: seq<RequestId>, b: seq<RequestId>)
    requires KnownIds(p) && id in p.requests && !p.requests[id].active
    requires p.pending == a + [id] + b && id !in a
    ensures var q := Next(p, RemoveQueued(id));
            && q.pending == a + b && q.removed == p.removed + {id} && q.dropped == p.dropped && q.launched == p.launched
            && OnlyRequest(p, q, id)
            && q.requests[id] == p.requests[id].(place := Withdrawn, events := p.requests[id].events + [Failed(0)])
  {
    var i := Find(p.pending, id);
    assert p.pending[|a|] == id;
    assert forall j :: 0 <= j < |a| ==> p.pending[j] == a[j];
    assert i == |a|;
    assert p.pending[..|a|] == a && p.pending[|a| + 1..] == b;
  }

  /** Cancelling one that is no longer queued changes nothing here. */
  lemma RemovalOfGone(p: Pipe, id: RequestId)
    requires KnownIds(p) && id in p.requests && !p.requests[id].active && id !in p.pending
    ensures Next(p, RemoveQueued(id)) == p
  {
  }

  /** A new configuration replaces the old one and nothing else. */
  lemma ConfigIsSet(p: Pipe, config: BatchingConfig)
    requires KnownIds(p)
    ensures Next(p, SetConfig(config)).config == config
    ensures Next(p, SetConfig(config)).(config := p.config) == p
  {
  }

  // ---------------------------------------------------------------------------------------------
  // Collecting
  // ---------------------------------------------------------------------------------------------

  /** `q` is `p` with the first `k` queued requests collected: the active ones are in the batch, in order, and
      none of the `k` is long. */
  ghost predicate Collected(p: Pipe, q: Pipe, k: nat) {
    && p.phase.Waiting? && q.phase.Waiting? && k <= |p.pending|
    && q.pending == p.pending[k..]
    && q.phase.config == p.phase.config && q.phase.batch == p.phase.batch + Survivors(p.pending[..k], Inactive(p))
    && ShortPrefix(p, k)
    && q.config == p.config && q.batches == p.batches && q.launched == p.launched && Inactive(q) == Inactive(p)
    && SameWindows(p, q)
  }

  ghost predicate ShortPrefix(p: Pipe, k: nat)
    requires p.phase.Waiting? && k <= |p.pending|
  {
    forall i :: 0 <= i < k ==> p.pending[i] in p.requests && p.requests[p.pending[i]].contextWindow <= p.phase.config.longThreshold
  }

  ghost predicate SameWindows(p: Pipe, q: Pipe) {
    forall id :: id in p.requests ==> id in q.requests && q.requests[id].contextWindow == p.requests[id].contextWindow
  }

  /** Nothing more can be collected: the queue is empty, the batch is full, or a long request is at the front. */
  ghost predicate Exhausted(q: Pipe) {
    && q.phase.Waiting?
    && (q.pending != [] && |q.phase.batch| < q.phase.config.maxBatch ==>
          q.pending[0] in q.requests && q.requests[q.pending[0]].contextWindow > q.phase.config.longThreshold)
  }

  lemma {:induction false} CollectOneMore(p: Pipe, q: Pipe, r: Pipe, k: nat)
    requires p.phase.Waiting? && p.pending != [] && p.pending[0] in p.requests
    requires p.requests[p.pending[0]].contextWindow <= p.phase.config.longThreshold
    requires q == if p.requests[p.pending[0]].active then TakeFront(p) else DropFront(p)
    requires Inactive(q) == Inactive(p)
    requires Collected(q, r, k)
    ensures Collected(p, r, k + 1)
  {
    assert p.pending[k + 1..] == q.pending[k..];
    assert SameWindows(p, q);
    SameWindowsTwice(p, q, r);
    ShortOneMore(p, q, k);
    BatchOneMore(p, q, k);
    hide Survivors, Inactive, SameWindows, ShortPrefix;
  }

  lemma SameWindowsTwice(p: Pipe, q: Pipe, r: Pipe)
    requires SameWindows(p, q) && SameWindows(q, r)
    ensures SameWindows(p, r)
  {
  }

  lemma ShortOneMore(p: Pipe, q: Pipe, k: nat)
    requires p.phase.Waiting? && q.phase.Waiting? && p.pending != [] && q.pending == p.pending[1..] && k <= |q.pending|
    requires p.pending[0] in p.requests && p.requests[p.pending[0]].contextWindow <= p.phase.config.longThreshold
    requires q.phase.config == p.phase.config && SameWindows(p, q) && q.requests.Keys == p.requests.Keys
    requires ShortPrefix(q, k)
    ensures ShortPrefix(p, k + 1)
  {
    forall i | 0 <= i < k + 1
      ensures p.pending[i] in p.requests && p.requests[p.pending[i]].contextWindow <= p.phase.config.longThreshold
    {
      if i > 0 {
        assert p.pending[i] == q.pending[i - 1];
      }
    }
  }

  lemma BatchOneMore(p: Pipe, q: Pipe, k: nat)
    requires p.phase.Waiting? && p.pending != [] && p.pending[0] in p.requests
    requires q == if p.requests[p.pending[0]].active then TakeFront(p) else DropFront(p)
    requires k <= |q.pending| && Inactive(q) == Inactive(p)
    ensures p.phase.batch + Survivors(p.pending[..k + 1], Inactive(p)) == q.phase.batch + Survivors(q.pending[..k], Inactive(q))
  {
    var id := p.pending[0];
    assert p.pending[..k + 1] == [id] + q.pending[..k];
    WantedFront(id, q.pending[..k], Inactive(p));
    assert id in Inactive(p) <==> !p.requests[id].active;
    hide Survivors, Inactive;
    var rest := Survivors(q.pending[..k], Inactive(p));
    assert p.phase.batch + ([id] + rest) == (p.phase.batch + [id]) + rest;
  }

  lemma CollectNone(p: Pipe)
    requires p.phase.Waiting?
    ensures Collected(p, p, 0)
  {
    assert p.pending[0..] == p.pending && p.pending[..0] == [];
    assert p.phase.batch + [] == p.phase.batch;
  }

  /** The collecting loop takes a prefix of the queue, and stops only when nothing more can be collected. */
  lemma {:induction false} GatherFills(p: Pipe) returns (k: nat)
    requires p.phase.Waiting?
    requires forall id :: id in p.pending ==> id in p.requests
    ensures Collected(p, Gather(p), k) && Exhausted(Gather(p))
    decreases |p.pending|
  {
    if p.pending == [] || |p.phase.batch| >= p.phase.config.maxBatch || IsLong(p.requests[p.pending[0]], p.phase.config) {
      k := 0;
      CollectNone(p);
    } else {
      var q := if p.requests[p.pending[0]].active then TakeFront(p) else DropFront(p);
      InactiveStays(p, q, p.pending[0]);
      var rest := GatherFills(q);
      k := rest + 1;
      CollectOneMore(p, q, Gather(q), rest);
      hide Collected, Exhausted, Inactive;
    }
  }

  /** The first critical section: nothing without work or in immediate mode; one request alone in serial mode or
      if the first one is long; otherwise as much as can be collected, sent on if it is full and kept for the
      wait if it is not. */
  lemma {:induction false} CollectLaw(p: Pipe) returns (k: nat)
    requires KnownIds(p) && p.phase == Idle
    ensures var q := Next(p, Collect);
            if p.pending == [] || p.config.mode == Immediate then q == p
            else if p.config.mode == Serial || p.requests[p.pending[0]].contextWindow > p.config.longThreshold then
              q.pending == p.pending[1..] && q.phase == Dispatching([p.pending[0]]) && q.batches == p.batches
            else
              exists g ::
                && Collected(p.(phase := Waiting(p.config, [])), g, k) && Exhausted(g)
                && q.pending == g.pending
                && (g.phase.batch == [] ==> q.phase == Idle && q.batches == p.batches)
                && (0 < |g.phase.batch| < p.config.maxBatch ==> q.phase == g.phase && q.batches == p.batches)
                && (0 < |g.phase.batch| && |g.phase.batch| >= p.config.maxBatch ==>
                      q.phase == Dispatching(g.phase.batch) && q.batches == p.batches + [Batch(g.phase.batch, p.config)])
  {
    k := 0;
    if p.pending != [] && p.config.mode == Adaptive && !IsLong(p.requests[p.pending[0]], p.config) {
      var w := p.(phase := Waiting(p.config, []));
      k := GatherFills(w);
      assert Gather(w).batches == w.batches == p.batches;
      hide Collected, Exhausted, Gather;
      assert Collected(w, Gather(w), k);
    }
  }

  /** The second critical section: the batch is filled up as far as possible and sent on. */
  lemma {:induction false} CollectMoreLaw(p: Pipe) returns (k: nat, g: Pipe)
    requires KnownIds(p) && p.phase.Waiting?
    ensures Collected(p, g, k) && Exhausted(g)
    ensures var q := Next(p, CollectMore);
            && q.pending == g.pending && q.phase == Dispatching(g.phase.batch)
            && q.batches == p.batches + [Batch(g.phase.batch, p.phase.config)]
  {
    k := GatherFills(p);
    g := Gather(p);
    hide Collected, Exhausted, Gather;
  }

  /** A collected request is launched with a Started event, or dropped without one if it was cancelled. */
  lemma DispatchLaw(p: Pipe)
    requires KnownIds(p) && p.phase.Dispatching? && p.phase.rest != []
    ensures var q, id := Next(p, DispatchNext), p.phase.rest[0];
            && q.phase == Dispatching(p.phase.rest[1..]) && q.pending == p.pending && id in p.requests
            && OnlyRequest(p, q, id)
            && (p.requests[id].active ==>
                  && q.launched == p.launched + [id] && q.dropped == p.dropped
                  && q.requests[id].events == p.requests[id].events + [Started] && q.requests[id].worker == AtLoop)
            && (!p.requests[id].active ==>
                  && q.launched == p.launched && q.dropped == p.dropped + {id}
                  && q.requests[id].events == p.requests[id].events)
  {
    assert p.phase.rest[0] in InHandOf(p.phase);
  }

  // ---------------------------------------------------------------------------------------------
  // Snapshots
  // ---------------------------------------------------------------------------------------------

  /** A configuration that was current at or before state `n`. */
  ghost predicate WasCurrent(states: seq<Pipe>, n: nat, config: BatchingConfig) {
    exists k :: 0 <= k <= n && k < |states| && states[k].config == config
  }

  /** Batches are collected under configurations that were current. */
  lemma {:induction false} BatchesUseSnapshots(states: seq<Pipe>, actions: seq<Action>, n: nat)
    requires IsRun(states, actions) && n < |states|
    ensures forall i :: 0 <= i < |states[n].batches| ==> WasCurrent(states, n, states[n].batches[i].config)
    ensures states[n].phase.Waiting? ==> WasCurrent(states, n, states[n].phase.config)
    decreases n
  {
    if n > 0 {
      BatchesUseSnapshots(states, actions, n - 1);
      assert FollowsBy(states, actions, n);
      var p, a := states[n - 1], actions[n - 1];
      assert WasCurrent(states, n, p.config);
      forall config | WasCurrent(states, n - 1, config)
        ensures WasCurrent(states, n, config)
      {
      }
      hide IsRun, WasCurrent;
      StepUsesSnapshot(p, a);
    }
  }

  lemma StepUsesSnapshot(p: Pipe, a: Action)
    requires KnownIds(p) && Enabled(p, a)
    ensures var q := Next(p, a);
            && (q.batches == p.batches
                || (|q.batches| == |p.batches| + 1 && q.batches[..|p.batches|] == p.batches
                    && (q.batches[|p.batches|].config == p.config || (p.phase.Waiting? && q.batches[|p.batches|].config == p.phase.config))))
            && (q.phase.Waiting? ==> q.phase.config == p.config || (p.phase.Waiting? && q.phase.config == p.phase.config))
  {
    hide Gather, WorkStep;
  }
}
