/** The store object: three tables updated in place by statements that may fail. */
module AssignmentStore {
  import opened Core
  import opened Sequences
  import opened Json
  import opened JsonRoundTrip
  import opened PlanTables
  import opened TokenLog
  import opened TokenLoads

  datatype StoreError = SqlError

  /** How the two queries of a load fare: whether each could be prepared, whether stepping the first gave
      its row, and how many rows of the second are delivered before stepping it fails. */
  datatype LoadLuck = LoadLuck(planQuery: bool, answered: bool, stageQuery: bool, delivered: nat)

  function FirstRows<T>(s: seq<T>, n: nat): seq<T> {
    if n < |s| then s[..n] else s
  }

  function RecordOf(row: TokenRow): TokenRecord {
    TokenRecord(row.request, "", ToU64(row.position), row.token)
  }

  class SqliteAssignmentStore {
    const open: bool
    var plans: seq<PlanRow>
    var stages: seq<StageRow>
    var tokens: seq<TokenRow>

    /** The tables as they were when the open transaction began. */
    var transaction: Option<Tables>

    /** All saves so far with their outcomes, and all steps of the token table. */
    ghost var saves: seq<Save>
    ghost var steps: seq<Op>

    ghost predicate Valid()
      reads this
    {
      && Committed() == TablesAfter(saves)
      && tokens == TableAfter(steps)
    }

    /** The tables as this connection sees them. */
    function Current(): Tables
      reads this
    {
      Tables(plans, stages)
    }

    /** The tables as they are on disk: a transaction that is still open does not count. */
    function Committed(): Tables
      reads this
    {
      if transaction.Some? then transaction.value else Current()
    }

    constructor (ready: bool)
      ensures Valid() && transaction.None? && open == ready && saves == [] && steps == []
    {
      open := ready;
      plans, stages, tokens := [], [], [];
      transaction := None;
      saves, steps := [], [];
    }

    /** The result of the rollback is ignored by the code: if it fails, the transaction stays open. */
    method Rollback(fails: bool)
      requires transaction.Some?
      modifies this`plans, this`stages, this`transaction
      ensures if fails then Current() == old(Current()) && transaction == old(transaction)
              else Current() == old(transaction.value) && transaction.None?
    {
      if !fails {
        plans, stages := transaction.value.plans, transaction.value.stages;
        transaction := None;
      }
    }

    /** Statement 0 begins the transaction, 1 replaces the plan row, 2 deletes the old stage rows, the next
        ones insert the stages, and the last one commits.  A save succeeds exactly when the store is open,
        no transaction is left over and none of them fails; otherwise nothing changes on disk, and nothing
        that this connection sees unless the rollback fails too.  Then it goes on seeing the new plan row, if
        that was written, and no later save succeeds. */
    method SavePlan(p: Plan, fails: nat -> bool, rollbackFails: bool) returns (ok: bool)
      requires Valid()
      modifies this`plans, this`stages, this`transaction, this`saves
      ensures Valid()
      ensures ok <==> open && old(transaction).None? && forall k :: 0 <= k < |p.stages| + 4 ==> !fails(k)
      ensures Committed() == if ok then Stored(old(Committed()), p) else old(Committed())
      ensures !ok && !(transaction.Some? && old(transaction).None?) ==> Current() == old(Current())
      ensures transaction.Some? <==> old(transaction).Some? || (open && !ok && !fails(0) && rollbackFails)
      ensures transaction.Some? && old(transaction).None? ==>
                plans == if fails(1) then old(plans) else Stored(old(Current()), p).plans
      ensures saves == old(saves) + [Save(p, ok)]
    {
      hide TablesAfter, TableAfter, Stored;
      ok := RunTransaction(p, fails, rollbackFails);
      SavesExtend(saves, Save(p, ok));
      saves := saves + [Save(p, ok)];
    }

    method RunTransaction(p: Plan, fails: nat -> bool, rollbackFails: bool) returns (ok: bool)
      modifies this`plans, this`stages, this`transaction
      ensures ok <==> open && old(transaction).None? && forall k :: 0 <= k < |p.stages| + 4 ==> !fails(k)
      ensures Committed() == if ok then Stored(old(Committed()), p) else old(Committed())
      ensures !ok && !(transaction.Some? && old(transaction).None?) ==> Current() == old(Current())
      ensures transaction.Some? <==> old(transaction).Some? || (open && !ok && !fails(0) && rollbackFails)
      ensures transaction.Some? && old(transaction).None? ==>
                plans == if fails(1) then old(plans) else Stored(old(Current()), p).plans
    {
      hide Filter, HeaderText, StageRowsOf;
      if !open {
        return false;
      }
      var json := PlanToJson(HeaderOf(p));
      if fails(0) || transaction.Some? {
        return false;
      }
      transaction := Some(Current());
      if fails(1) {
        Rollback(rollbackFails);
        return false;
      }
      plans := Filter(plans, NotOfPlan(p.id)) + [
        PlanRow(p.id, p.model, p.revision, ToI64(p.fence.term), p.fence.token, ToI64(p.fence.membershipRevision),
                Milliseconds(p.issuedAt), p.validFor, json)];
      if fails(2) {
        Rollback(rollbackFails);
        return false;
      }
      stages := Filter(stages, StageNotOf(p.id));
      var inserted := InsertStages(p, fails);
      if !inserted || fails(|p.stages| + 3) {
        Rollback(rollbackFails);
        return false;
      }
      transaction := None;
      return true;
    }

    method InsertStages(p: Plan, fails: nat -> bool) returns (ok: bool)
      modifies this`stages
      ensures ok <==> forall k :: 3 <= k < |p.stages| + 3 ==> !fails(k)
      ensures ok ==> stages == old(stages) + StageRowsOf(p)
    {
      hide StageRowOf;
      for i := 0 to |p.stages|
        invariant stages == old(stages) + StageRowsOf(p)[..i]
        invariant forall k :: 3 <= k < i + 3 ==> !fails(k)
      {
        if fails(i + 3) {
          return false;
        }
        stages := stages + [StageRowOf(p.id, p.model, p.stages[i])];
        assert StageRowsOf(p)[..i + 1] == StageRowsOf(p)[..i] + [StageRowsOf(p)[i]];
      }
      assert StageRowsOf(p)[..|p.stages|] == StageRowsOf(p);
      return true;
    }

    /** The row of greatest term for the model and revision, its parsed header, and the stage rows stored
        under the parsed id, by ordinal.  Without a left-over transaction the tables are those of the
        committed saves. */
    method LoadPlan(model: string, revision: string, luck: LoadLuck)
      returns (r: Result<Option<LoadedPlan>, StoreError>, ghost row: PlanRow, ghost full: LoadedPlan)
      requires Valid()
      ensures r.Err? <==> open && (!luck.planQuery || (luck.answered && !luck.stageQuery && exists x :: x in plans && ForModel(model, revision)(x)))
      ensures r == Ok(None) <==> !open || (luck.planQuery && (!luck.answered || !exists x :: x in plans && ForModel(model, revision)(x)))
      ensures r.Ok? && r.value.Some? ==>
                && Newest(Current(), model, revision, row)
                && LoadedFrom(Current(), row, full)
                && (transaction.None? ==> Current() == TablesAfter(saves))
                && r.value.value == LoadedPlan(full.header, FirstRows(full.stages, luck.delivered))
    {
      hide FromJson, Filter, Map, TablesAfter, TableAfter;
      row := PlanRow("", "", "", 0, "", 0, 0, 0, "");
      full := LoadedPlan(FromJson(""), []);
      if !open {
        r := Ok(None);
        return;
      }
      if !luck.planQuery {
        r := Err(SqlError);
        return;
      }
      var matching := Filter(plans, ForModel(model, revision));
      var ordered := Sort(matching, HigherTerm);
      PermutationMembers(matching, ordered);
      if ordered == [] || !luck.answered {
        r := Ok(None);
        return;
      }
      assert ordered[0] in ordered;
      row := ordered[0];
      FirstIsNewest(Current(), model, revision, matching, ordered);
      var header := FromJson(ordered[0].json);
      if !luck.stageQuery {
        r := Err(SqlError);
        return;
      }
      var found := Filter(stages, StageOf(header.planId));
      var rows := Sort(found, StageBefore);
      full := LoadedPlan(header, Map(rows, ReadStage));
      ReadInOrder(found, rows);
      var loaded: seq<LoadedStage> := [];
      for i := 0 to |rows|
        invariant loaded == full.stages[..i] && i <= luck.delivered
      {
        if i == luck.delivered {
          r := Ok(Some(LoadedPlan(header, loaded)));
          return;
        }
        loaded := loaded + [ReadStage(rows[i])];
        assert full.stages[..i + 1] == full.stages[..i] + [full.stages[i]];
      }
      assert full.stages[..|rows|] == full.stages;
      r := Ok(Some(LoadedPlan(header, loaded)));
    }

    /** An append that is not accepted changes nothing. */
    method AppendToken(t: TokenRecord, luck: AppendLuck) returns (v: Verdict)
      requires Valid()
      modifies this`tokens, this`steps
      ensures Valid()
      ensures v == if open then AppendVerdict(old(tokens), t, luck) else Internal
      ensures tokens == if open then AfterAppend(old(tokens), t, luck) else old(tokens)
      ensures v != Appended ==> tokens == old(tokens)
      ensures steps == if open then old(steps) + [Append(t, luck)] else old(steps)
    {
      hide TablesAfter, History, Filter;
      if !open {
        return Internal;
      }
      StepsExtend(steps, Append(t, luck));
      steps := steps + [Append(t, luck)];
      if !luck.prepared {
        return Internal;
      }
      if luck.answered {
        var max := MaxPosition(History(tokens, t.request));
        if max.Some? && NextPosition(max.value) != t.position {
          return NotContiguous;
        }
      }
      if !luck.inserted {
        return Internal;
      }
      if !Occupied(tokens, t.request, ToI64(t.position)) {
        tokens := tokens + [TokenRow(t.request, t.session, ToI64(t.position), t.token)];
      }
      return Appended;
    }

    /** Erasure removes every token of the request and nothing else; the plans remain. */
    method EraseTokenHistory(request: string, done: bool) returns (ok: bool)
      requires Valid()
      modifies this`tokens, this`steps
      ensures Valid()
      ensures ok <==> open && done
      ensures !ok ==> tokens == old(tokens)
      ensures ok ==> forall other :: History(tokens, other) == if other == request then [] else old(History(tokens, other))
      ensures steps == if open then old(steps) + [Erase(request, done)] else old(steps)
    {
      hide TablesAfter, History;
      if !open {
        return false;
      }
      StepsExtend(steps, Erase(request, done));
      steps := steps + [Erase(request, done)];
      if !done {
        return false;
      }
      forall other
        ensures History(Filter(tokens, NotOfRequest(request)), other) == if other == request then [] else History(tokens, other)
      {
        HistoryOfErased(tokens, request, other);
      }
      tokens := Filter(tokens, NotOfRequest(request));
      return true;
    }

    /** The rows of the request from the start position on, ascending and cut to the count, exactly when the
        bounds are right; with answered checks the rows are those a reader expects to be kept. */
    method LoadTokenHistory(request: string, start: U64, count: U32, prepared: bool, delivered: nat)
      returns (r: Result<seq<TokenRecord>, StoreError>, ghost full: seq<TokenRow>)
      requires Valid()
      ensures r.Err? <==> open && !prepared
      ensures !open ==> r == Ok([])
      ensures open && prepared ==>
                && Selected(History(tokens, request), start, count, full)
                && (Slice(History(tokens, request), start, count, full) <==> RightBounds(History(tokens, request), start, count))
                && r.value == Map(FirstRows(full, delivered), RecordOf)
                && (forall i :: 0 <= i < |r.value| ==> i < |full| && Delivers(request, full[i], r.value[i]))
      ensures EveryCheckAnswered(steps) ==> History(tokens, request) == Map(Kept(steps, request), RowOf)
    {
      full := [];
      hide TablesAfter, TableAfter, Kept, History, Filter, Map, Slice, RightBounds, FirstRows;
      if EveryCheckAnswered(steps) {
        TableIsSimpleLog(steps, request);
      }
      if !open {
        r := Ok([]);
        return;
      }
      if !prepared {
        r := Err(SqlError);
        return;
      }
      var rows := History(tokens, request);
      var sorted := Sort(Filter(rows, FromPosition(ToI64(start))), PositionBefore);
      var selected := Limited(sorted, ToI32(count));
      full := selected;
      assert Selected(rows, start, count, full);
      LoadAfterRunIff(steps, request, start, count, full);
      OnlyRequest(rows, start, count, full);
      var result := ReadRecords(request, selected, delivered);
      DeliveredRecords(request, selected, delivered, result);
      r := Ok(result);
    }
  }

  /** A record carries the request, the position and the token of its row, and no session. */
  predicate Delivers(request: string, row: TokenRow, t: TokenRecord) {
    t.request == request && t.session == "" && ToI64(t.position) == row.position && t.token == row.token
  }

  lemma DeliveredRecords(request: string, selected: seq<TokenRow>, delivered: nat, result: seq<TokenRecord>)
    requires forall x :: x in selected ==> x.request == request
    requires result == Map(FirstRows(selected, delivered), RecordOf)
    ensures |result| == if delivered < |selected| then delivered else |selected|
    ensures forall i :: 0 <= i < |result| ==> i < |selected| && Delivers(request, selected[i], result[i])
  {
    hide Map;
    forall i | 0 <= i < |result|
      ensures i < |selected| && Delivers(request, selected[i], result[i])
    {
      assert FirstRows(selected, delivered)[i] == selected[i] && selected[i] in selected;
    }
  }

  /** What is appended is what is read back, except for the session. */
  lemma TokenComesBack(t: TokenRecord)
    ensures RecordOf(RowOf(t)) == TokenRecord(t.request, "", t.position, t.token)
  {
  }

  /** Steps through the selected rows until they end or stepping fails. */
  method ReadRecords(request: string, selected: seq<TokenRow>, delivered: nat) returns (result: seq<TokenRecord>)
    requires forall x :: x in selected ==> x.request == request
    ensures result == Map(FirstRows(selected, delivered), RecordOf)
  {
    result := [];
    for i := 0 to |selected|
      invariant result == Map(selected[..i], RecordOf) && i <= delivered
    {
      if i == delivered {
        return;
      }
      result := result + [TokenRecord(request, "", ToU64(selected[i].position), selected[i].token)];
      assert selected[..i + 1] == selected[..i] + [selected[i]];
    }
    assert selected[..|selected|] == selected;
  }

  lemma FirstIsNewest(t: Tables, model: string, revision: string, matching: seq<PlanRow>, ordered: seq<PlanRow>)
    requires matching == Filter(t.plans, ForModel(model, revision))
    requires SortedArrangement(ordered, matching, HigherTerm) && ordered != []
    ensures Newest(t, model, revision, ordered[0])
  {
    hide Filter;
    PermutationMembers(matching, ordered);
    assert ordered[0] in ordered;
    forall other | other in t.plans && ForModel(model, revision)(other)
      ensures other.term <= ordered[0].term
    {
      assert other in ordered;
      var i :| 0 <= i < |ordered| && ordered[i] == other;
      assert i > 0 ==> !HigherTerm(ordered[i], ordered[0]);
    }
  }

  lemma ReadInOrder(found: seq<StageRow>, rows: seq<StageRow>)
    requires SortedArrangement(rows, found, StageBefore)
    ensures multiset(Map(rows, ReadStage)) == multiset(Map(found, ReadStage))
    ensures Sorted(Map(rows, ReadStage), SignedBefore)
  {
    hide Map;
    MapOfPermutation(rows, found, ReadStage);
    var read := Map(rows, ReadStage);
    forall i, j | 0 <= i < j < |read|
      ensures !SignedBefore(read[j], read[i])
    {
      assert !StageBefore(rows[j], rows[i]);
    }
  }

  lemma OnlyRequest(w: seq<TokenRow>, start: U64, count: U32, result: seq<TokenRow>)
    requires Selected(w, start, count, result)
    ensures forall x :: x in result ==> x in w
  {
    hide Filter;
    var kept := Filter(w, FromPosition(ToI64(start)));
    var sorted :| SortedArrangement(sorted, kept, PositionBefore) && result == Limited(sorted, ToI32(count));
    PermutationMembers(sorted, kept);
  }

  lemma StepsExtend(steps: seq<Op>, op: Op)
    ensures TableAfter(steps + [op]) == Step(TableAfter(steps), op)
  {
    assert (steps + [op])[..|steps|] == steps;
  }

  lemma SavesExtend(saves: seq<Save>, save: Save)
    ensures TablesAfter(saves + [save]) == if save.committed then Stored(TablesAfter(saves), save.plan) else TablesAfter(saves)
  {
    assert (saves + [save])[..|saves|] == saves;
  }
}
