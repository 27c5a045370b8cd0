/** The inference pipeline: request admission, the batching dispatcher and the generation workers.

    The threads of the code (callers, the dispatcher, one worker for each launched request) interleave;
    every critical section of the queue lock and every access to a request's flags or callback is one
    action.  `Next` is the meaning of an action.  The dispatcher releases the lock while it waits for
    a batch to fill, so collecting is two actions with anything in between.  The class
    `InferencePipeline` holds the state in fields and performs the actions as the code does. */
module Pipeline {
  import opened Core

  type RequestId = string

  datatype Mode = Immediate | Serial | Adaptive

  datatype BatchingConfig = BatchingConfig(mode: Mode, maxBatch: U32, longThreshold: U32)

  datatype Event =
    | Queued
    | Started
    | Token(sequence: nat, token: int)
    | Completed(sequence: nat)
    | Failed(sequence: nat)

  datatype TokenRecord = TokenRecord(position: nat, token: int)

  /** Where the worker of a launched request is: at the loop head, past the loop condition, past the stop
      check, past the loop, with the outcome decided, or done. */
  datatype Worker =
    | NotStarted
    | AtLoop
    | Admitted
    | Generating
    | Leaving
    | Closing(success: bool)
    | Finished(terminal: Event)

  /** Where a request is; a queued request is in exactly one place. */
  datatype Place = Admitting | Pending | InHand | Launched | Withdrawn | Dropped | Direct

  datatype Request = Request(
    place: Place,
    contextWindow: U32,
    maximumNewTokens: U32,
    active: bool,
    stopRequested: bool,
    events: seq<Event>,
    history: seq<TokenRecord>,
    worker: Worker)

  datatype Batch = Batch(ids: seq<RequestId>, config: BatchingConfig)

  datatype Phase =
    | Idle
    | Waiting(config: BatchingConfig, batch: seq<RequestId>)
    | Dispatching(rest: seq<RequestId>)

  /** `enqueued`, `launched` and `batches` are histories: pushes to the queue, launches from it, and
      batches handed to the dispatcher's launch loop. */
  datatype Pipe = Pipe(
    config: BatchingConfig,
    requests: map<RequestId, Request>,
    pending: seq<RequestId>,
    phase: Phase,
    enqueued: seq<RequestId>,
    launched: seq<RequestId>,
    removed: set<RequestId>,
    dropped: set<RequestId>,
    batches: seq<Batch>)

  datatype Action =
    | Admit(id: RequestId, contextWindow: U32, maximumNewTokens: U32)
    | Push(id: RequestId)
    | RequestStop(id: RequestId)
    | Deactivate(id: RequestId)
    | RemoveQueued(id: RequestId)
    | SetConfig(config: BatchingConfig)
    | Collect
    | CollectMore
    | DispatchNext
    | Work(id: RequestId, outcome: Outcome)

  /** What the pass of a working step produced: a token, or an error in distributed generation. */
  datatype Outcome = Produced(token: int) | PassFailed

  function InHandOf(phase: Phase): seq<RequestId> {
    match phase
    case Idle => []
    case Waiting(_, batch) => batch
    case Dispatching(rest) => rest
  }

  predicate IsLong(r: Request, config: BatchingConfig) {
    r.contextWindow > config.longThreshold
  }

  // ---------------------------------------------------------------------------------------------
  // Admission and cancellation
  // ---------------------------------------------------------------------------------------------

  function NewRequest(contextWindow: U32, maximumNewTokens: U32, immediate: bool): Request {
    Request(if immediate then Direct else Admitting, contextWindow, maximumNewTokens, true, false,
            [if immediate then Started else Queued], [], if immediate then AtLoop else NotStarted)
  }

  function With(p: Pipe, id: RequestId, r: Request): Pipe {
    p.(requests := p.requests[id := r])
  }

  /** Index of the first occurrence of `id`, or the length. */
  function Find(ids: seq<RequestId>, id: RequestId): (i: nat)
    ensures i <= |ids|
    ensures i < |ids| ==> ids[i] == id
    ensures forall j :: 0 <= j < i ==> ids[j] != id
  {
    if ids == [] then 0 else if ids[0] == id then 0
    else
      var i := Find(ids[1..], id);
      assert forall j :: 1 <= j < i + 1 ==> ids[j] == ids[1..][j - 1];
      i + 1
  }

  function Without(ids: seq<RequestId>, i: nat): seq<RequestId>
    requires i < |ids|
  {
    ids[..i] + ids[i + 1..]
  }

  // ---------------------------------------------------------------------------------------------
  // Collecting a batch
  // ---------------------------------------------------------------------------------------------

  /** The request at the front of the queue joins the batch. */
  function TakeFront(p: Pipe): Pipe
    requires p.phase.Waiting? && p.pending != [] && p.pending[0] in p.requests
  {
    var id := p.pending[0];
    With(p, id, p.requests[id].(place := InHand))
    .(pending := p.pending[1..], phase := Waiting(p.phase.config, p.phase.batch + [id]))
  }

  /** The cancelled request at the front of the queue is dropped. */
  function DropFront(p: Pipe): Pipe
    requires p.pending != [] && p.pending[0] in p.requests
  {
    var id := p.pending[0];
    With(p, id, p.requests[id].(place := Dropped)).(pending := p.pending[1..], dropped := p.dropped + {id})
  }

  /** Moves requests from the front of the queue into the batch until it is full, the queue is empty or a
      long-context request is at the front; cancelled requests are dropped on the way. */
  function Gather(p: Pipe): (q: Pipe)
    requires p.phase.Waiting?
    requires forall id :: id in p.pending ==> id in p.requests
    ensures q.phase.Waiting? && q.phase.config == p.phase.config && q.batches == p.batches
    decreases |p.pending|
  {
    if p.pending == [] || |p.phase.batch| >= p.phase.config.maxBatch then p
    else if IsLong(p.requests[p.pending[0]], p.phase.config) then p
    else if !p.requests[p.pending[0]].active then Gather(DropFront(p))
    else Gather(TakeFront(p))
  }

  /** One request alone leaves the queue. */
  function PopSolo(p: Pipe): Pipe
    requires p.pending != [] && p.pending[0] in p.requests
  {
    var id := p.pending[0];
    With(p, id, p.requests[id].(place := InHand)).(pending := p.pending[1..], phase := Dispatching([id]))
  }

  /** The batch in hand goes to the launch loop. */
  function SendBatch(p: Pipe): Pipe
    requires p.phase.Waiting?
  {
    p.(phase := Dispatching(p.phase.batch), batches := p.batches + [Batch(p.phase.batch, p.phase.config)])
  }

  function CollectFirst(p: Pipe): Pipe
    requires forall id :: id in p.pending ==> id in p.requests
  {
    if p.pending == [] || p.config.mode == Immediate then p
    else if p.config.mode == Serial || IsLong(p.requests[p.pending[0]], p.config) then PopSolo(p)
    else
      var q := Gather(p.(phase := Waiting(p.config, [])));
      if q.phase.batch == [] then q.(phase := Idle)
      else if |q.phase.batch| < p.config.maxBatch then q
      else SendBatch(q)
  }

  function CollectAgain(p: Pipe): Pipe
    requires p.phase.Waiting?
    requires forall id :: id in p.pending ==> id in p.requests
  {
    SendBatch(Gather(p))
  }

  /** Launches the next request in hand, or drops it if it was cancelled meanwhile. */
  function Dispatch(p: Pipe): Pipe
    requires p.phase.Dispatching? && forall id :: id in p.phase.rest ==> id in p.requests
  {
    if p.phase.rest == [] then p.(phase := Idle)
    else
      var id := p.phase.rest[0];
      var r := p.requests[id];
      var q := p.(phase := Dispatching(p.phase.rest[1..]));
      if !r.active then With(q, id, r.(place := Dropped)).(dropped := p.dropped + {id})
      else With(q, id, r.(place := Launched, events := r.events + [Started], worker := AtLoop))
           .(launched := p.launched + [id])
  }

  // ---------------------------------------------------------------------------------------------
  // Workers
  // ---------------------------------------------------------------------------------------------

  /** One step of the generation loop of a launched request. */
  function WorkStep(r: Request, outcome: Outcome): Request {
    var k := |r.history|;
    match r.worker
    case AtLoop => r.(worker := if k < r.maximumNewTokens && r.active then Admitted else Leaving)
    case Admitted => r.(worker := if r.stopRequested || !r.active then Leaving else Generating)
    case Generating =>
      (match outcome
       case Produced(token) =>
         r.(history := r.history + [TokenRecord(k, token)], events := r.events + [Token(k, token)], worker := AtLoop)
       case PassFailed =>
         r.(events := r.events + [Failed(k)], active := false, worker := Finished(Failed(k))))
    case Leaving => r.(worker := Closing(r.active))
    case Closing(success) =>
      var e := if success then Completed(k) else Failed(k);
      r.(events := r.events + [e], worker := Finished(e))
    case NotStarted => r
    case Finished(_) => r
  }

  // ---------------------------------------------------------------------------------------------
  // Actions
  // ---------------------------------------------------------------------------------------------

  ghost predicate KnownIds(p: Pipe) {
    && (forall id :: id in p.pending ==> id in p.requests)
    && (forall id :: id in InHandOf(p.phase) ==> id in p.requests)
  }

  predicate Enabled(p: Pipe, a: Action) {
    match a
    case Admit(id, _, _) => id !in p.requests
    case Push(id) => id in p.requests && p.requests[id].place == Admitting
    case RequestStop(id) => id in p.requests
    case Deactivate(id) => id in p.requests && p.requests[id].stopRequested
    case RemoveQueued(id) => id in p.requests && !p.requests[id].active
    case SetConfig(_) => true
    case Collect => p.phase.Idle?
    case CollectMore => p.phase.Waiting?
    case DispatchNext => p.phase.Dispatching?
    case Work(id, _) => id in p.requests && p.requests[id].place in {Launched, Direct}
  }

  function Next(p: Pipe, a: Action): Pipe
    requires KnownIds(p) && Enabled(p, a)
  {
    match a
    case Admit(id, contextWindow, maximumNewTokens) =>
      With(p, id, NewRequest(contextWindow, maximumNewTokens, p.config.mode == Immediate))
    case Push(id) =>
      With(p, id, p.requests[id].(place := Pending)).(pending := p.pending + [id], enqueued := p.enqueued + [id])
    case RequestStop(id) => With(p, id, p.requests[id].(stopRequested := true))
    case Deactivate(id) => With(p, id, p.requests[id].(active := false))
    case RemoveQueued(id) =>
      var i := Find(p.pending, id);
      if i == |p.pending| then p
      else With(p, id, p.requests[id].(place := Withdrawn, events := p.requests[id].events + [Failed(0)]))
           .(pending := Without(p.pending, i), removed := p.removed + {id})
    case SetConfig(config) => p.(config := config)
    case Collect => CollectFirst(p)
    case CollectMore => CollectAgain(p)
    case DispatchNext => Dispatch(p)
    case Work(id, outcome) => With(p, id, WorkStep(p.requests[id], outcome))
  }

  // ---------------------------------------------------------------------------------------------
  // The object
  // ---------------------------------------------------------------------------------------------

  class InferencePipeline {
    var config: BatchingConfig
    var requests: map<RequestId, Request>
    var pending: seq<RequestId>
    var phase: Phase
    ghost var enqueued: seq<RequestId>
    ghost var launched: seq<RequestId>
    ghost var removed: set<RequestId>
    ghost var dropped: set<RequestId>
    ghost var batches: seq<Batch>

    ghost function P(): Pipe
      reads this
    {
      Pipe(config, requests, pending, phase, enqueued, launched, removed, dropped, batches)
    }

    constructor (config: BatchingConfig)
      ensures P() == Pipe(config, map[], [], Idle, [], [], {}, {}, [])
    {
      this.config := config;
      requests, pending, phase := map[], [], Idle;
      enqueued, launched, removed, dropped, batches := [], [], {}, {}, [];
    }

    /** First half of `generate`: reads the mode and emits the first event. */
    method AdmitRequest(id: RequestId, contextWindow: U32, maximumNewTokens: U32)
      requires KnownIds(P()) && Enabled(P(), Admit(id, contextWindow, maximumNewTokens))
      modifies this
      ensures P() == Next(old(P()), Admit(id, contextWindow, maximumNewTokens))
    {
      var r := Request(Admitting, contextWindow, maximumNewTokens, true, false, [], [], NotStarted);
      if config.mode == Immediate {
        r := r.(place := Direct, events := r.events + [Started], worker := AtLoop);
        assert r.events == [Started];
      } else {
        r := r.(events := r.events + [Queued]);
        assert r.events == [Queued];
      }
      requests := requests[id := r];
    }

    /** Second half of `generate`: pushes the request to the queue. */
    method PushRequest(id: RequestId)
      requires KnownIds(P()) && Enabled(P(), Push(id))
      modifies this
      ensures P() == Next(old(P()), Push(id))
    {
      requests := requests[id := requests[id].(place := Pending)];
      pending := pending + [id];
      enqueued := enqueued + [id];
    }

    /** Erases a cancelled request from the queue, if it is still there, with a failure event. */
    method RemoveFromQueue(id: RequestId)
      requires KnownIds(P()) && Enabled(P(), RemoveQueued(id))
      modifies this
      ensures P() == Next(old(P()), RemoveQueued(id))
    {
      var i := 0;
      while i < |pending| && pending[i] != id
        invariant i <= |pending|
        invariant forall j :: 0 <= j < i ==> pending[j] != id
      {
        i := i + 1;
      }
      if i < |pending| {
        var r := requests[id];
        requests := requests[id := r.(place := Withdrawn, events := r.events + [Failed(0)])];
        pending := pending[..i] + pending[i + 1..];
        removed := removed + {id};
      }
    }

    /** The collecting loop. */
    method GatherBatch()
      requires KnownIds(P()) && phase.Waiting?
      modifies this
      ensures P() == Gather(old(P()))
    {
      ghost var goal := Gather(P());
      while pending != [] && |phase.batch| < phase.config.maxBatch
        invariant phase.Waiting?
        invariant forall id :: id in pending ==> id in requests
        invariant Gather(P()) == goal
        decreases |pending|
      {
        var next := pending[0];
        if requests[next].contextWindow > phase.config.longThreshold {
          break;
        }
        if !requests[next].active {
          requests := requests[next := requests[next].(place := Dropped)];
          pending := pending[1..];
          dropped := dropped + {next};
          continue;
        }
        requests := requests[next := requests[next].(place := InHand)];
        phase := Waiting(phase.config, phase.batch + [next]);
        pending := pending[1..];
      }
    }

    /** First critical section of a dispatcher iteration. */
    method CollectBatch()
      requires KnownIds(P()) && phase.Idle?
      modifies this
      ensures P() == Next(old(P()), Collect)
    {
      hide Gather;
      if pending == [] {
        return;
      }
      var snapshot := config;
      if snapshot.mode == Immediate {
        return;
      }
      var first := pending[0];
      if snapshot.mode == Serial || requests[first].contextWindow > snapshot.longThreshold {
        pending := pending[1..];
        requests := requests[first := requests[first].(place := InHand)];
        phase := Dispatching([first]);
        return;
      }
      phase := Waiting(snapshot, []);
      GatherBatch();
      if phase.batch == [] {
        phase := Idle;
      } else if |phase.batch| >= snapshot.maxBatch {
        Send();
      }
    }

    /** Second critical section, after the timed wait. */
    method CollectAfterWait()
      requires KnownIds(P()) && phase.Waiting?
      modifies this
      ensures P() == Next(old(P()), CollectMore)
    {
      GatherBatch();
      Send();
    }

    method Send()
      requires phase.Waiting?
      modifies this
      ensures P() == SendBatch(old(P()))
    {
      batches := batches + [Batch(phase.batch, phase.config)];
      phase := Dispatching(phase.batch);
    }

    /** One round of the launch loop, outside the lock. */
    method DispatchNextRequest()
      requires KnownIds(P()) && phase.Dispatching?
      modifies this
      ensures P() == Next(old(P()), DispatchNext)
    {
      if phase.rest == [] {
        phase := Idle;
        return;
      }
      var id := phase.rest[0];
      var r := requests[id];
      phase := Dispatching(phase.rest[1..]);
      if !r.active {
        requests := requests[id := r.(place := Dropped)];
        dropped := dropped + {id};
        return;
      }
      requests := requests[id := r.(place := Launched, events := r.events + [Started], worker := AtLoop)];
      launched := launched + [id];
    }
  }

  // ---------------------------------------------------------------------------------------------
  // The generation loop of one worker
  // ---------------------------------------------------------------------------------------------

  /** Flags that other threads may raise at any moment; raised flags stay raised. */
  datatype Interference = Interference(stop: bool, deactivate: bool)

  function Interfere(r: Request, i: Interference): Request {
    r.(stopRequested := r.stopRequested || i.stop, active := r.active && !i.deactivate)
  }

  /** A step of the worker or interference by another thread. */
  ghost predicate WorkerMove(a: Request, b: Request) {
    (exists outcome :: b == WorkStep(a, outcome)) || (exists i :: b == Interfere(a, i))
  }

  ghost predicate IsTrace(trace: seq<Request>) {
    trace != [] && forall i :: 0 < i < |trace| ==> MoveAt(trace, i)
  }

  ghost predicate MoveAt(trace: seq<Request>, i: nat)
    requires 0 < i < |trace|
  {
    WorkerMove(trace[i - 1], trace[i])
  }

  lemma ExtendTrace(trace: seq<Request>, b: Request)
    requires IsTrace(trace)
    requires WorkerMove(trace[|trace| - 1], b)
    ensures IsTrace(trace + [b])
  {
    hide WorkerMove;
    var t := trace + [b];
    forall i | 0 < i < |t|
      ensures MoveAt(t, i)
    {
      if i < |trace| {
        assert MoveAt(trace, i);
      }
    }
  }

  /** The loop of simulated and distributed generation.  `others` is what other threads do before every
      read of the flags, `passes` what the pass for every position yields.  The run is a trace of
      worker steps and interference, so it is one of the interleavings of `Next`. */
  method RunGeneration(start: Request, others: nat -> Interference, passes: nat -> Outcome)
    returns (r: Request, ghost trace: seq<Request>)
    requires start.worker == AtLoop && start.history == []
    ensures IsTrace(trace) && trace[0] == start && trace[|trace| - 1] == r
    ensures r.worker.Finished?
    ensures forall i :: 0 <= i < |r.history| ==> passes(i) == Produced(r.history[i].token)
  {
    r, trace := start, [start];
    var n := 0;
    var position := 0;
    var going := true;
    while going
      invariant position == |r.history| <= start.maximumNewTokens == r.maximumNewTokens
      invariant IsTrace(trace) && trace[0] == start && trace[|trace| - 1] == r
      invariant r.worker == if going then AtLoop else Leaving
      invariant forall i :: 0 <= i < |r.history| ==> passes(i) == Produced(r.history[i].token)
      decreases going, start.maximumNewTokens - position
    {
      hide IsTrace, WorkStep;
      r, trace, going := PassFlags(r, others(n), others(n + 1), trace);
      n := n + 2;
      if going {
        var result := passes(position);
        r, trace := ProduceToken(r, others(n), result, trace);
        n := n + 1;
        if result == PassFailed {
          return;
        }
        position := position + 1;
      }
    }
    ghost var produced := r.history;
    r, trace := Disturb(r, others(n), trace);
    r, trace := Advance(r, Produced(0), trace);
    r, trace := Advance(r, Produced(0), trace);
    assert r.history == produced;
  }

  /** The loop condition and the stop check, with interference before each. */
  method PassFlags(r: Request, first: Interference, second: Interference, ghost trace: seq<Request>)
    returns (s: Request, ghost longer: seq<Request>, going: bool)
    requires IsTrace(trace) && trace[|trace| - 1] == r && r.worker == AtLoop
    ensures IsTrace(longer) && longer[0] == trace[0] && longer[|longer| - 1] == s
    ensures s.history == r.history && s.maximumNewTokens == r.maximumNewTokens
    ensures s.worker == if going then Generating else Leaving
    ensures going ==> |s.history| < s.maximumNewTokens
  {
    hide IsTrace;
    s, longer := Disturb(r, first, trace);
    going := |s.history| < s.maximumNewTokens && s.active;
    s, longer := Advance(s, Produced(0), longer);
    if going {
      s, longer := Disturb(s, second, longer);
      going := !s.stopRequested && s.active;
      s, longer := Advance(s, Produced(0), longer);
    }
  }

  /** The pass for one position and what is made of its outcome. */
  method ProduceToken(r: Request, before: Interference, result: Outcome, ghost trace: seq<Request>)
    returns (s: Request, ghost longer: seq<Request>)
    requires IsTrace(trace) && trace[|trace| - 1] == r && r.worker == Generating
    ensures IsTrace(longer) && longer[0] == trace[0] && longer[|longer| - 1] == s
    ensures s.maximumNewTokens == r.maximumNewTokens
    ensures result.Produced? ==> s.worker == AtLoop && s.history == r.history + [TokenRecord(|r.history|, result.token)]
    ensures result.PassFailed? ==> s.worker.Finished? && s.history == r.history
  {
    hide IsTrace;
    s, longer := Disturb(r, before, trace);
    s, longer := Advance(s, result, longer);
  }

  method Disturb(r: Request, i: Interference, ghost trace: seq<Request>) returns (s: Request, ghost longer: seq<Request>)
    requires IsTrace(trace) && trace[|trace| - 1] == r
    ensures s == Interfere(r, i)
    ensures IsTrace(longer) && longer[0] == trace[0] && longer[|longer| - 1] == s
  {
    s := Interfere(r, i);
    ExtendTrace(trace, s);
    longer := trace + [s];
  }

  method Advance(r: Request, outcome: Outcome, ghost trace: seq<Request>) returns (s: Request, ghost longer: seq<Request>)
    requires IsTrace(trace) && trace[|trace| - 1] == r
    ensures s == WorkStep(r, outcome)
    ensures IsTrace(longer) && longer[0] == trace[0] && longer[|longer| - 1] == s
  {
    s := WorkStep(r, outcome);
    ExtendTrace(trace, s);
    longer := trace + [s];
  }
}
