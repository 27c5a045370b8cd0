/** The plan and stage tables: what every sequence of saves leaves in them and what a load then finds.

    A table is the sequence of its rows.  A selection keeps some rows, ordering is some sorted
    arrangement, and nothing depends on how the database orders equal rows. */
module PlanTables {
  import opened Core
  import opened Sequences
  import opened Json
  import opened JsonRoundTrip

  datatype PlanRow = PlanRow(
    planId: string,
    model: string,
    revision: string,
    term: I64,
    token: string,
    membershipRevision: I64,
    issuedAt: int,
    validFor: I64,
    json: string)

  datatype StageRow = StageRow(
    planId: string,
    model: string,
    ordinal: I32,
    node: NodeId,
    shard: string,
    backend: BackendKind,
    quantization: QuantizationKind,
    reserved: I64,
    estimate: real)

  datatype Tables = Tables(plans: seq<PlanRow>, stages: seq<StageRow>)

  /** The columns of a stage that the tables keep. */
  datatype LoadedStage = LoadedStage(
    ordinal: U32,
    node: NodeId,
    shard: string,
    backend: BackendKind,
    quantization: QuantizationKind,
    reserved: U64,
    estimate: real)

  datatype LoadedPlan = LoadedPlan(header: ParsedHeader, stages: seq<LoadedStage>)

  function HeaderOf(p: Plan): Header {
    Header(p.id, p.model, p.revision, p.fence.term, p.fence.token, p.fence.membershipRevision, p.issuedAt, p.validFor)
  }

  function PlanRowOf(p: Plan): PlanRow {
    PlanRow(p.id, p.model, p.revision, ToI64(p.fence.term), p.fence.token, ToI64(p.fence.membershipRevision),
            Milliseconds(p.issuedAt), p.validFor, HeaderText(HeaderOf(p)))
  }

  function StageRowOf(id: string, model: string, s: Stage): StageRow {
    StageRow(id, model, ToI32(s.ordinal), s.node, s.body.id, s.backend, s.body.quantization, ToI64(s.reserved), s.estimate)
  }

  function StageRowsOf(p: Plan): seq<StageRow> {
    Map(p.stages, s => StageRowOf(p.id, p.model, s))
  }

  function ReadStage(row: StageRow): LoadedStage {
    LoadedStage(ToU32(row.ordinal), row.node, row.shard, row.backend, row.quantization, ToU64(row.reserved), row.estimate)
  }

  function ColumnsOf(s: Stage): (r: LoadedStage)
    ensures r.ordinal == s.ordinal && r.node == s.node && r.shard == s.body.id && r.backend == s.backend
    ensures r.quantization == s.body.quantization && r.reserved == s.reserved && r.estimate == s.estimate
  {
    LoadedStage(s.ordinal, s.node, s.body.id, s.backend, s.body.quantization, s.reserved, s.estimate)
  }

  function OfPlan(id: string): PlanRow -> bool {
    (row: PlanRow) => row.planId == id
  }

  function NotOfPlan(id: string): PlanRow -> bool {
    (row: PlanRow) => row.planId != id
  }

  function StageOf(id: string): StageRow -> bool {
    (row: StageRow) => row.planId == id
  }

  function StageNotOf(id: string): StageRow -> bool {
    (row: StageRow) => row.planId != id
  }

  function ForModel(model: string, revision: string): PlanRow -> bool {
    (row: PlanRow) => row.model == model && row.revision == revision
  }

  /** Both tables after a committed save. */
  function Stored(t: Tables, p: Plan): Tables {
    Tables(Filter(t.plans, NotOfPlan(p.id)) + [PlanRowOf(p)], Filter(t.stages, StageNotOf(p.id)) + StageRowsOf(p))
  }

  // ---------------------------------------------------------------------------------------------
  // Runs of saves
  // ---------------------------------------------------------------------------------------------

  /** A save, and whether it was committed. */
  datatype Save = Save(plan: Plan, committed: bool)

  function TablesAfter(run: seq<Save>): Tables {
    if run == [] then Tables([], [])
    else
      var last := run[|run| - 1];
      var t := TablesAfter(run[..|run| - 1]);
      if last.committed then Stored(t, last.plan) else t
  }

  /** The plan most recently committed under an id. */
  function LastSaved(run: seq<Save>, id: string): (r: Option<Plan>)
    ensures r.Some? ==> r.value.id == id && Save(r.value, true) in run
  {
    if run == [] then None
    else
      var last := run[|run| - 1];
      if last.committed && last.plan.id == id then Some(last.plan) else LastSaved(run[..|run| - 1], id)
  }

  /** The rows of one plan id are those of the plan last committed under it. */
  ghost predicate RowsAre(t: Tables, id: string, saved: Option<Plan>) {
    && Filter(t.plans, OfPlan(id)) == (if saved.Some? then [PlanRowOf(saved.value)] else [])
    && Filter(t.stages, StageOf(id)) == (if saved.Some? then StageRowsOf(saved.value) else [])
  }

  lemma {:induction false} StoredOwnRows(t: Tables, p: Plan)
    ensures RowsAre(Stored(t, p), p.id, Some(p))
  {
    assert PlanRowOf(p).planId == p.id;
    hide Filter, Map, PlanRowOf;
    var plans := Filter(t.plans, NotOfPlan(p.id));
    FilterOfConcatenation(plans, [PlanRowOf(p)], OfPlan(p.id));
    FilterKeepsNone(plans, OfPlan(p.id));
    FilterKeepsAll([PlanRowOf(p)], OfPlan(p.id));
    var stages := Filter(t.stages, StageNotOf(p.id));
    FilterOfConcatenation(stages, StageRowsOf(p), StageOf(p.id));
    FilterKeepsNone(stages, StageOf(p.id));
    FilterKeepsAll(StageRowsOf(p), StageOf(p.id));
  }

  lemma {:induction false} StoredOtherRows(t: Tables, p: Plan, id: string, saved: Option<Plan>)
    requires id != p.id
    requires RowsAre(t, id, saved)
    ensures RowsAre(Stored(t, p), id, saved)
  {
    hide Filter, Map;
    var plans := Filter(t.plans, NotOfPlan(p.id));
    FilterOfConcatenation(plans, [PlanRowOf(p)], OfPlan(id));
    FilterAfterFilter(t.plans, NotOfPlan(p.id), OfPlan(id));
    FilterKeepsNone([PlanRowOf(p)], OfPlan(id));
    var stages := Filter(t.stages, StageNotOf(p.id));
    FilterOfConcatenation(stages, StageRowsOf(p), StageOf(id));
    FilterAfterFilter(t.stages, StageNotOf(p.id), StageOf(id));
    FilterKeepsNone(StageRowsOf(p), StageOf(id));
  }

  /** Whatever was saved, committed, rolled back and replaced: under each id the tables hold exactly the
      plan row and the stage rows of the plan last committed under that id. */
  lemma {:induction false} TablesHoldLastSaved(run: seq<Save>, id: string)
    ensures RowsAre(TablesAfter(run), id, LastSaved(run, id))
    decreases |run|
  {
    if run != [] {
      var last := run[|run| - 1];
      TablesHoldLastSaved(run[..|run| - 1], id);
      hide RowsAre, Stored;
      if last.committed {
        if last.plan.id == id {
          StoredOwnRows(TablesAfter(run[..|run| - 1]), last.plan);
        } else {
          StoredOtherRows(TablesAfter(run[..|run| - 1]), last.plan, id, LastSaved(run[..|run| - 1], id));
        }
      }
    }
  }

  /** Every plan row is that of the plan last committed under its id, no id has two rows, and every stage
      row belongs to a stored plan. */
  lemma {:induction false} TablesAreConsistent(run: seq<Save>)
    ensures var t := TablesAfter(run);
            && (forall row :: row in t.plans ==> LastSaved(run, row.planId).Some? && row == PlanRowOf(LastSaved(run, row.planId).value))
            && (forall id :: LastSaved(run, id).Some? ==> PlanRowOf(LastSaved(run, id).value) in t.plans)
            && (forall id :: |Filter(t.plans, OfPlan(id))| <= 1)
            && (forall row :: row in t.stages ==> exists plan :: plan in t.plans && plan.planId == row.planId)
  {
    var t := TablesAfter(run);
    hide TablesAfter, Map, LastSaved;
    forall id
      ensures RowsAre(t, id, LastSaved(run, id))
    {
      TablesHoldLastSaved(run, id);
    }
    hide PlanRowOf, Filter;
    forall row | row in t.plans
      ensures LastSaved(run, row.planId).Some? && row == PlanRowOf(LastSaved(run, row.planId).value)
    {
      assert row in Filter(t.plans, OfPlan(row.planId));
      assert RowsAre(t, row.planId, LastSaved(run, row.planId));
    }
    forall id | LastSaved(run, id).Some?
      ensures PlanRowOf(LastSaved(run, id).value) in t.plans
    {
      assert RowsAre(t, id, LastSaved(run, id));
      assert PlanRowOf(LastSaved(run, id).value) in Filter(t.plans, OfPlan(id));
    }
    forall id
      ensures |Filter(t.plans, OfPlan(id))| <= 1
    {
      assert RowsAre(t, id, LastSaved(run, id));
    }
    forall row | row in t.stages
      ensures exists plan :: plan in t.plans && plan.planId == row.planId
    {
      assert row in Filter(t.stages, StageOf(row.planId));
      assert RowsAre(t, row.planId, LastSaved(run, row.planId));
      var plan := PlanRowOf(LastSaved(run, row.planId).value);
      assert plan in Filter(t.plans, OfPlan(row.planId));
      assert plan in t.plans && plan.planId == row.planId;
    }
  }

  /** The columns of a stored plan: its strings, its numbers as signed ones, its issue time in milliseconds and its
      printed header. */
  lemma {:induction false} StoredColumns(run: seq<Save>, row: PlanRow)
    requires row in TablesAfter(run).plans
    ensures LastSaved(run, row.planId).Some?
    ensures var p := LastSaved(run, row.planId).value;
            && row.model == p.model && row.revision == p.revision && row.token == p.fence.token
            && ToU64(row.term) == p.fence.term && ToU64(row.membershipRevision) == p.fence.membershipRevision
            && row.issuedAt == Milliseconds(p.issuedAt) && row.validFor == p.validFor && row.json == HeaderText(HeaderOf(p))
  {
    TablesAreConsistent(run);
    hide TablesAfter, LastSaved, HeaderText, Milliseconds;
  }

  /** Each stored stage row is one of the stages of a stored plan, under its id and model. */
  lemma {:induction false} StoredStageColumns(run: seq<Save>, row: StageRow) returns (p: Plan, i: nat)
    requires row in TablesAfter(run).stages
    ensures LastSaved(run, row.planId) == Some(p) && i < |p.stages|
    ensures row.planId == p.id && row.model == p.model && ReadStage(row) == ColumnsOf(p.stages[i])
  {
    TablesHoldLastSaved(run, row.planId);
    assert row in Filter(TablesAfter(run).stages, StageOf(row.planId));
    hide TablesAfter, LastSaved, Filter, Map;
    p := LastSaved(run, row.planId).value;
    i :| 0 <= i < |StageRowsOf(p)| && StageRowsOf(p)[i] == row;
    ColumnsSurvive(p.id, p.model, p.stages[i]);
  }

  // ---------------------------------------------------------------------------------------------
  // Loads
  // ---------------------------------------------------------------------------------------------

  predicate StageBefore(a: StageRow, b: StageRow) {
    a.ordinal < b.ordinal
  }

  predicate SignedBefore(a: LoadedStage, b: LoadedStage) {
    ToI32(a.ordinal) < ToI32(b.ordinal)
  }

  predicate HigherTerm(a: PlanRow, b: PlanRow) {
    a.term > b.term
  }

  /** `row` is a row the first query may answer with: no matching row has a greater term. */
  ghost predicate Newest(t: Tables, model: string, revision: string, row: PlanRow) {
    && row in t.plans && ForModel(model, revision)(row)
    && forall other :: other in t.plans && ForModel(model, revision)(other) ==> other.term <= row.term
  }

  /** What a load makes of the row it found. */
  ghost predicate LoadedFrom(t: Tables, row: PlanRow, plan: LoadedPlan) {
    && plan.header == FromJson(row.json)
    && multiset(plan.stages) == multiset(Map(Filter(t.stages, StageOf(plan.header.planId)), ReadStage))
    && Sorted(plan.stages, SignedBefore)
  }

  /** Nothing kept in a stage row is changed by the conversions to and from column types. */
  lemma ColumnsSurvive(id: string, model: string, s: Stage)
    ensures ReadStage(StageRowOf(id, model, s)) == ColumnsOf(s)
  {
  }

  lemma RowsReadBack(p: Plan)
    ensures Map(StageRowsOf(p), ReadStage) == Map(p.stages, ColumnsOf)
  {
    hide Map;
    forall i | 0 <= i < |p.stages|
      ensures ReadStage(StageRowsOf(p)[i]) == ColumnsOf(p.stages[i])
    {
      ColumnsSurvive(p.id, p.model, p.stages[i]);
    }
  }

  /** The greatest plan: matching, and no plan stored for the same model and revision has a greater term. */
  ghost predicate NewestSaved(run: seq<Save>, model: string, revision: string, p: Plan) {
    && LastSaved(run, p.id) == Some(p) && p.model == model && p.revision == revision
    && forall id :: LastSaved(run, id).Some? ==>
         var q := LastSaved(run, id).value;
         q.model == model && q.revision == revision ==> ToI64(q.fence.term) <= ToI64(p.fence.term)
  }

  /** The first query finds exactly the rows of newest saved plans. */
  lemma {:induction false} NewestRowIsNewestSaved(run: seq<Save>, model: string, revision: string, row: PlanRow)
    ensures Newest(TablesAfter(run), model, revision, row)
            <==> exists p :: NewestSaved(run, model, revision, p) && row == PlanRowOf(p)
  {
    var t := TablesAfter(run);
    TablesAreConsistent(run);
    hide TablesAfter, LastSaved, HeaderText, Milliseconds;
    if Newest(t, model, revision, row) {
      var p := LastSaved(run, row.planId).value;
      forall id | LastSaved(run, id).Some?
        ensures var q := LastSaved(run, id).value;
                q.model == model && q.revision == revision ==> ToI64(q.fence.term) <= ToI64(p.fence.term)
      {
        assert PlanRowOf(LastSaved(run, id).value) in t.plans;
      }
      assert NewestSaved(run, model, revision, p);
    }
    if p :| NewestSaved(run, model, revision, p) && row == PlanRowOf(p) {
      assert PlanRowOf(LastSaved(run, p.id).value) in t.plans;
      forall other | other in t.plans && ForModel(model, revision)(other)
        ensures other.term <= row.term
      {
        assert other == PlanRowOf(LastSaved(run, other.planId).value);
      }
    }
  }

  /** The header a reader expects: the plan's own, with its issue time in whole milliseconds. */
  function ExpectedHeader(p: Plan): ParsedHeader {
    ParsedHeader(p.id, p.model, p.revision, p.fence.term, p.fence.token, p.fence.membershipRevision,
                 1000 * Milliseconds(p.issuedAt), p.validFor)
  }

  ghost predicate PlanRestorable(p: Plan) {
    && Restorable(p.id) && Restorable(p.model) && Restorable(p.revision) && Restorable(p.fence.token)
    && p.fence.term < TWO_63 && p.fence.membershipRevision < TWO_63
  }

  /** A load returns a plan of greatest fence term for the model and revision.  If its id survives
      print-then-parse, the stages are exactly its saved columns, in the order of the stored ordinals; if
      its strings and numbers do, the header is its own. */
  lemma {:induction false} LoadReturnsNewestSaved(run: seq<Save>, model: string, revision: string, row: PlanRow, plan: LoadedPlan) returns (p: Plan)
    requires Newest(TablesAfter(run), model, revision, row)
    requires LoadedFrom(TablesAfter(run), row, plan)
    ensures NewestSaved(run, model, revision, p)
    ensures Restorable(p.id) ==> plan.header.planId == p.id && multiset(plan.stages) == multiset(Map(p.stages, ColumnsOf))
    ensures Sorted(plan.stages, SignedBefore)
    ensures plan.header == ExpectedHeader(p) <==> PlanRestorable(p)
  {
    NewestRowIsNewestSaved(run, model, revision, row);
    p :| NewestSaved(run, model, revision, p) && row == PlanRowOf(p);
    TablesHoldLastSaved(run, p.id);
    RowsReadBack(p);
    HeaderRestoredIff(HeaderOf(p));
    IdRestoredIff(p);
  }

  lemma IdRestoredIff(p: Plan)
    ensures FromJson(HeaderText(HeaderOf(p))).planId == p.id <==> Restorable(p.id)
  {
    hide FromJson, HeaderText, Restorable;
    StringsRestoredIff(HeaderOf(p));
  }

  // ---------------------------------------------------------------------------------------------
  // When the loaded plan is the one a caller expects
  // ---------------------------------------------------------------------------------------------

  /** However the store was filled, whenever a load finds the row of `p` it returns the stages of `p`. */
  ghost predicate StagesAlwaysRestored(p: Plan) {
    forall run, plan ::
      && LastSaved(run, p.id) == Some(p)
      && Newest(TablesAfter(run), p.model, p.revision, PlanRowOf(p)) && LoadedFrom(TablesAfter(run), PlanRowOf(p), plan)
      ==> multiset(plan.stages) == multiset(Map(p.stages, ColumnsOf))
  }

  /** The stages are looked up under the id parsed from the header text, so a plan gets its own stages
      back in every store exactly when its id has no quote and no line break. */
  lemma {:induction false} StagesRestoredIff(p: Plan)
    ensures StagesAlwaysRestored(p) <==> Restorable(p.id)
  {
    hide FromJson, HeaderText, Restorable, Map, Filter, TablesAfter, LastSaved;
    if Restorable(p.id) {
      forall run, plan |
          && LastSaved(run, p.id) == Some(p)
          && Newest(TablesAfter(run), p.model, p.revision, PlanRowOf(p)) && LoadedFrom(TablesAfter(run), PlanRowOf(p), plan)
        ensures multiset(plan.stages) == multiset(Map(p.stages, ColumnsOf))
      {
        IdRestoredIff(p);
        TablesHoldLastSaved(run, p.id);
        RowsReadBack(p);
      }
    } else {
      var run, plan := LosesStages(p);
    }
  }

  /** A store in which loading a plan with a lossy id returns the wrong stages: those of the plan saved
      under the id as parsed. */
  lemma {:induction false} LosesStages(p: Plan) returns (run: seq<Save>, plan: LoadedPlan)
    requires !Restorable(p.id)
    ensures LastSaved(run, p.id) == Some(p)
    ensures Newest(TablesAfter(run), p.model, p.revision, PlanRowOf(p))
    ensures LoadedFrom(TablesAfter(run), PlanRowOf(p), plan)
    ensures multiset(plan.stages) != multiset(Map(p.stages, ColumnsOf))
  {
    IdRestoredIff(p);
    hide FromJson, HeaderText, Restorable, Map, Filter, TablesAfter, LastSaved;
    var parsed := FromJson(HeaderText(HeaderOf(p)));
    var stages := if p.stages == [] then [AnyStage()] else [];
    var other := p.(id := parsed.planId, stages := stages);
    run := [Save(other, true), Save(p, true)];
    LastOfTwo(other, p);
    LastOfTwoIsNewest(other, p);
    TablesHoldLastSaved(run, other.id);
    RowsReadBack(other);
    plan := LoadedPlan(parsed, Map(stages, ColumnsOf));
    assert |multiset(plan.stages)| == |stages|;
    assert |multiset(Map(p.stages, ColumnsOf))| == |p.stages|;
    assert Sorted(plan.stages, SignedBefore);
  }

  lemma LastOfTwo(a: Plan, b: Plan)
    requires a.id != b.id
    ensures LastSaved([Save(a, true), Save(b, true)], a.id) == Some(a)
    ensures LastSaved([Save(a, true), Save(b, true)], b.id) == Some(b)
    ensures forall id :: id != a.id && id != b.id ==> LastSaved([Save(a, true), Save(b, true)], id) == None
  {
    assert [Save(a, true), Save(b, true)][..1] == [Save(a, true)];
    assert [Save(a, true)][..0] == [];
  }

  /** Of two plans for one model and revision, a load may return each whose term is not the smaller. */
  lemma LastOfTwoIsNewest(a: Plan, b: Plan)
    requires a.id != b.id && a.model == b.model && a.revision == b.revision
    ensures var run := [Save(a, true), Save(b, true)];
            && (ToI64(a.fence.term) <= ToI64(b.fence.term) ==> NewestSaved(run, b.model, b.revision, b))
            && (ToI64(b.fence.term) <= ToI64(a.fence.term) ==> NewestSaved(run, a.model, a.revision, a))
            && (NewestSaved(run, b.model, b.revision, b) ==> Newest(TablesAfter(run), b.model, b.revision, PlanRowOf(b)))
            && (NewestSaved(run, a.model, a.revision, a) ==> Newest(TablesAfter(run), a.model, a.revision, PlanRowOf(a)))
  {
    var run := [Save(a, true), Save(b, true)];
    LastOfTwo(a, b);
    NewestRowIsNewestSaved(run, a.model, a.revision, PlanRowOf(a));
    NewestRowIsNewestSaved(run, a.model, a.revision, PlanRowOf(b));
    hide LastSaved, TablesAfter, PlanRowOf, Newest;
  }

  function AnyStage(): Stage {
    Stage(0, "", ShardBody("", [], [], [], TransformerLayers, None, Fp16, "", ""), LlamaCpp, 0, 0.0)
  }

  /** Terms on one side of 2^63 keep their order as signed columns; terms on both sides do not. */
  ghost predicate TermsStraddle(run: seq<Save>, model: string, revision: string) {
    exists a, b :: Matching(run, model, revision, a) && Matching(run, model, revision, b)
                   && a.fence.term < TWO_63 <= b.fence.term
  }

  ghost predicate Matching(run: seq<Save>, model: string, revision: string, p: Plan) {
    LastSaved(run, p.id) == Some(p) && p.model == model && p.revision == revision
  }

  /** The loaded plan has the greatest fence term of all stored plans for the model and revision exactly
      when their terms do not lie on both sides of 2^63. */
  lemma {:induction false} GreatestTermIff(run: seq<Save>, model: string, revision: string, p: Plan)
    requires NewestSaved(run, model, revision, p)
    ensures (forall q :: Matching(run, model, revision, q) ==> q.fence.term <= p.fence.term)
            <==> !TermsStraddle(run, model, revision)
  {
    hide LastSaved;
    assert Matching(run, model, revision, p);
    forall q | Matching(run, model, revision, q)
      ensures ToI64(q.fence.term) <= ToI64(p.fence.term)
    {
      assert LastSaved(run, q.id).Some?;
    }
    if TermsStraddle(run, model, revision) {
      var a, b :| Matching(run, model, revision, a) && Matching(run, model, revision, b)
                  && a.fence.term < TWO_63 <= b.fence.term;
      assert ToI64(a.fence.term) <= ToI64(p.fence.term);
    }
  }

  /** Two plans on both sides of 2^63: the load returns the one with the smaller term. */
  lemma StraddlingTermsLoadSmaller(a: Plan, b: Plan)
    requires a.id != b.id && a.model == b.model && a.revision == b.revision
    requires a.fence.term < TWO_63 <= b.fence.term
    ensures var run := [Save(a, true), Save(b, true)];
            && TermsStraddle(run, a.model, a.revision)
            && NewestSaved(run, a.model, a.revision, a) && !NewestSaved(run, a.model, a.revision, b)
  {
    var run := [Save(a, true), Save(b, true)];
    LastOfTwo(a, b);
    LastOfTwoIsNewest(a, b);
    hide LastSaved, TablesAfter, Newest, PlanRowOf;
    assert Matching(run, a.model, a.revision, a) && Matching(run, a.model, a.revision, b);
    assert LastSaved(run, a.id).Some?;
  }

  /** The row of `p` is the only row that the plan query can answer with. */
  ghost predicate OnlyAnswer(run: seq<Save>, p: Plan) {
    forall row :: Newest(TablesAfter(run), p.model, p.revision, row) <==> row == PlanRowOf(p)
  }

  /** A stored plan is the only one that a load can return exactly when every other stored plan for its
      model and revision has a smaller (signed) term. */
  lemma {:induction false} OnlyAnswerIff(run: seq<Save>, p: Plan)
    requires LastSaved(run, p.id) == Some(p)
    ensures OnlyAnswer(run, p)
            <==> forall q :: Matching(run, p.model, p.revision, q) && q.id != p.id
                             ==> ToI64(q.fence.term) < ToI64(p.fence.term)
  {
    hide LastSaved, OnlyAnswer, OnlyNewest, Matching;
    OnlyNewestIff(run, p);
    if OnlyAnswer(run, p) {
      OnlyAnswerIsOnlyNewest(run, p);
    }
    if OnlyNewest(run, p) {
      OnlyNewestIsOnlyAnswer(run, p);
    }
  }

  lemma {:induction false} OnlyAnswerIsOnlyNewest(run: seq<Save>, p: Plan)
    requires LastSaved(run, p.id) == Some(p) && OnlyAnswer(run, p)
    ensures OnlyNewest(run, p)
  {
    hide LastSaved, TablesAfter, Newest, NewestSaved, PlanRowOf;
    NewestRowIsNewestSaved(run, p.model, p.revision, PlanRowOf(p));
    assert Newest(TablesAfter(run), p.model, p.revision, PlanRowOf(p));
    var q :| NewestSaved(run, p.model, p.revision, q) && PlanRowOf(p) == PlanRowOf(q);
    RowKeepsId(p, q);
    NewestIsStored(run, p, q);
    forall q | NewestSaved(run, p.model, p.revision, q)
      ensures q.id == p.id
    {
      NewestRowIsNewestSaved(run, p.model, p.revision, PlanRowOf(q));
      RowKeepsId(p, q);
    }
  }

  lemma {:induction false} OnlyNewestIsOnlyAnswer(run: seq<Save>, p: Plan)
    requires LastSaved(run, p.id) == Some(p) && OnlyNewest(run, p)
    ensures OnlyAnswer(run, p)
  {
    hide LastSaved, TablesAfter, Newest, NewestSaved, PlanRowOf;
    forall row
      ensures Newest(TablesAfter(run), p.model, p.revision, row) <==> row == PlanRowOf(p)
    {
      NewestRowIsNewestSaved(run, p.model, p.revision, row);
      if Newest(TablesAfter(run), p.model, p.revision, row) {
        var q :| NewestSaved(run, p.model, p.revision, q) && row == PlanRowOf(q);
        NewestIsStored(run, p, q);
      }
    }
  }

  lemma RowKeepsId(p: Plan, q: Plan)
    ensures PlanRowOf(p) == PlanRowOf(q) ==> p.id == q.id
  {
    hide HeaderText, Milliseconds;
  }

  lemma TieIsNewest(run: seq<Save>, model: string, revision: string, p: Plan, q: Plan)
    requires NewestSaved(run, model, revision, p) && Matching(run, model, revision, q)
    requires ToI64(q.fence.term) >= ToI64(p.fence.term)
    ensures NewestSaved(run, model, revision, q)
  {
    hide LastSaved;
  }

  ghost predicate OnlyNewest(run: seq<Save>, p: Plan) {
    NewestSaved(run, p.model, p.revision, p) && forall q :: NewestSaved(run, p.model, p.revision, q) ==> q.id == p.id
  }

  lemma NewestIsStored(run: seq<Save>, p: Plan, q: Plan)
    requires LastSaved(run, p.id) == Some(p)
    requires NewestSaved(run, p.model, p.revision, q) && q.id == p.id
    ensures q == p
  {
  }

  lemma {:induction false} OnlyNewestIff(run: seq<Save>, p: Plan)
    requires LastSaved(run, p.id) == Some(p)
    ensures OnlyNewest(run, p)
            <==> forall q :: Matching(run, p.model, p.revision, q) && q.id != p.id
                             ==> ToI64(q.fence.term) < ToI64(p.fence.term)
  {
    hide LastSaved;
    if OnlyNewest(run, p) {
      forall q | Matching(run, p.model, p.revision, q) && q.id != p.id
        ensures ToI64(q.fence.term) < ToI64(p.fence.term)
      {
        assert LastSaved(run, q.id).Some?;
        if ToI64(q.fence.term) >= ToI64(p.fence.term) {
          TieIsNewest(run, p.model, p.revision, p, q);
        }
      }
    }
    if forall q :: Matching(run, p.model, p.revision, q) && q.id != p.id ==> ToI64(q.fence.term) < ToI64(p.fence.term) {
      forall id | LastSaved(run, id).Some?
        ensures var q := LastSaved(run, id).value;
                q.model == p.model && q.revision == p.revision && id != p.id ==> ToI64(q.fence.term) < ToI64(p.fence.term)
      {
        var q := LastSaved(run, id).value;
        assert q.model == p.model && q.revision == p.revision ==> Matching(run, p.model, p.revision, q);
      }
      assert NewestSaved(run, p.model, p.revision, p);
      forall q | NewestSaved(run, p.model, p.revision, q)
        ensures q.id == p.id
      {
        assert LastSaved(run, p.id).Some?;
        assert Matching(run, p.model, p.revision, q);
      }
    }
  }

  /** The row of the plan saved last is what every load finds exactly when every other stored plan for its model
      and revision has a smaller (signed) term: recency alone does not count, not even between equal terms. */
  lemma {:induction false} LastSaveIsLoadedIff(run: seq<Save>, p: Plan)
    ensures var longer := run + [Save(p, true)];
            OnlyAnswer(longer, p)
            <==> forall q :: Matching(run, p.model, p.revision, q) && q.id != p.id
                             ==> ToI64(q.fence.term) < ToI64(p.fence.term)
  {
    var longer := run + [Save(p, true)];
    assert longer[..|run|] == run;
    assert forall id :: LastSaved(longer, id) == if id == p.id then Some(p) else LastSaved(run, id);
    hide LastSaved, OnlyAnswer;
    OnlyAnswerIff(longer, p);
    assert forall q: Plan :: q.id != p.id ==>
             (Matching(run, p.model, p.revision, q) <==> Matching(longer, p.model, p.revision, q));
  }

  /** Whatever a load makes of the row of `p`, it is `p`: the header with its issue time to the millisecond, and
      exactly the saved columns of the stages. */
  ghost predicate ComesBack(t: Tables, p: Plan) {
    forall plan :: LoadedFrom(t, PlanRowOf(p), plan) ==>
      plan.header == ExpectedHeader(p) && multiset(plan.stages) == multiset(Map(p.stages, ColumnsOf))
  }

  /** Every row can be loaded. */
  lemma {:induction false} SomethingIsLoaded(t: Tables, row: PlanRow) returns (plan: LoadedPlan)
    ensures LoadedFrom(t, row, plan)
  {
    hide FromJson, Filter;
    var header := FromJson(row.json);
    var columns := Map(Filter(t.stages, StageOf(header.planId)), ReadStage);
    var stages := ArrangementExists(columns, SignedBefore);
    plan := LoadedPlan(header, stages);
  }

  /** A stored plan whose row is found comes back exactly when its strings have no quote and no line break and
      its unsigned numbers are below 2^63. */
  lemma {:induction false} ComesBackIff(run: seq<Save>, p: Plan)
    requires LastSaved(run, p.id) == Some(p)
    ensures ComesBack(TablesAfter(run), p) <==> PlanRestorable(p)
  {
    var t := TablesAfter(run);
    HeaderRestoredIff(HeaderOf(p));
    assert PlanRowOf(p).json == HeaderText(HeaderOf(p));
    hide FromJson, HeaderText, TablesAfter, LastSaved, PlanRowOf, Map, Filter, Restorable;
    if PlanRestorable(p) {
      TablesHoldLastSaved(run, p.id);
      RowsReadBack(p);
    } else {
      var plan := SomethingIsLoaded(t, PlanRowOf(p));
    }
  }

  /** The interface's promise: the plan saved last is what every load returns, header and stages, exactly when
      every other stored plan for its model and revision has a smaller (signed) term, its strings have no
      quote and no line break, and its unsigned numbers are below 2^63. */
  lemma {:induction false} LastSaveComesBackIff(run: seq<Save>, p: Plan)
    ensures var longer := run + [Save(p, true)];
            OnlyAnswer(longer, p) && ComesBack(TablesAfter(longer), p)
            <==> PlanRestorable(p)
                 && forall q :: Matching(run, p.model, p.revision, q) && q.id != p.id
                                ==> ToI64(q.fence.term) < ToI64(p.fence.term)
  {
    var longer := run + [Save(p, true)];
    assert LastSaved(longer, p.id) == Some(p);
    hide LastSaved, OnlyAnswer, ComesBack, PlanRestorable, TablesAfter;
    LastSaveIsLoadedIff(run, p);
    ComesBackIff(longer, p);
  }

  /** The ordinary failure: of two plans with equal terms, a load may return the one that was saved first. */
  lemma EqualTermsMayLoadOlder(q: Plan, p: Plan)
    requires q.id != p.id && q.model == p.model && q.revision == p.revision && q.fence.term == p.fence.term
    ensures var run := [Save(q, true), Save(p, true)];
            && Newest(TablesAfter(run), p.model, p.revision, PlanRowOf(q))
            && Newest(TablesAfter(run), p.model, p.revision, PlanRowOf(p))
            && PlanRowOf(q) != PlanRowOf(p)
  {
    LastOfTwoIsNewest(q, p);
  }
}
