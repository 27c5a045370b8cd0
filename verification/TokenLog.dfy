/** The token table: appends checked against the greatest stored position, erasure, and range loads.

    Positions are unsigned 64-bit numbers stored in signed columns, and a query that fails while it is
    stepped looks like one without an answer.  Both are part of the model. */
module TokenLog {
  import opened Core
  import opened Sequences

  datatype TokenRow = TokenRow(request: string, session: string, position: I64, token: I32)

  datatype TokenRecord = TokenRecord(request: string, session: string, position: U64, token: I32)

  function OfRequest(request: string): TokenRow -> bool {
    (row: TokenRow) => row.request == request
  }

  function NotOfRequest(request: string): TokenRow -> bool {
    (row: TokenRow) => row.request != request
  }

  function History(rows: seq<TokenRow>, request: string): (r: seq<TokenRow>)
    ensures forall x :: x in r <==> x in rows && x.request == request
  {
    Filter(rows, OfRequest(request))
  }

  /** The greatest position of some rows. */
  function MaxPosition(rows: seq<TokenRow>): (r: Option<I64>)
    ensures r.None? <==> rows == []
    ensures r.Some? ==> (forall x :: x in rows ==> x.position <= r.value) && (exists x :: x in rows && x.position == r.value)
  {
    if rows == [] then None
    else
      var rest := MaxPosition(rows[1..]);
      assert forall x :: x in rows ==> x == rows[0] || x in rows[1..];
      if rest.None? || rest.value <= rows[0].position then
        assert rows[0] in rows;
        Some(rows[0].position)
      else rest
  }

  predicate Occupied(rows: seq<TokenRow>, request: string, position: I64) {
    exists i :: 0 <= i < |rows| && rows[i].request == request && rows[i].position == position
  }

  function RowOf(t: TokenRecord): TokenRow {
    TokenRow(t.request, t.session, ToI64(t.position), t.token)
  }

  // ---------------------------------------------------------------------------------------------
  // Operations
  // ---------------------------------------------------------------------------------------------

  /** How the two statements of an append fare: whether the query for the greatest position could be
      prepared, whether stepping it gave a row, and whether the insertion was done. */
  datatype AppendLuck = AppendLuck(prepared: bool, answered: bool, inserted: bool)

  datatype Verdict = Appended | NotContiguous | Internal

  function NextPosition(max: I64): U64 {
    (ToU64(max) + 1) % TWO_64
  }

  function AppendVerdict(rows: seq<TokenRow>, t: TokenRecord, luck: AppendLuck): Verdict {
    if !luck.prepared then Internal
    else
      var max := if luck.answered then MaxPosition(History(rows, t.request)) else None;
      if max.Some? && NextPosition(max.value) != t.position then NotContiguous
      else if luck.inserted then Appended
      else Internal
  }

  /** The insertion ignores a row whose request and position are taken. */
  function Inserted(rows: seq<TokenRow>, row: TokenRow): seq<TokenRow> {
    if Occupied(rows, row.request, row.position) then rows else rows + [row]
  }

  function AfterAppend(rows: seq<TokenRow>, t: TokenRecord, luck: AppendLuck): seq<TokenRow> {
    if AppendVerdict(rows, t, luck) == Appended then Inserted(rows, RowOf(t)) else rows
  }

  datatype Op =
    | Append(record: TokenRecord, luck: AppendLuck)
    | Erase(request: string, done: bool)

  function Step(rows: seq<TokenRow>, op: Op): seq<TokenRow> {
    match op
    case Append(t, luck) => AfterAppend(rows, t, luck)
    case Erase(request, done) => if done then Filter(rows, NotOfRequest(request)) else rows
  }

  function TableAfter(run: seq<Op>): seq<TokenRow> {
    if run == [] then [] else Step(TableAfter(run[..|run| - 1]), run[|run| - 1])
  }

  // ---------------------------------------------------------------------------------------------
  // One request
  // ---------------------------------------------------------------------------------------------

  function Wrapped(i: int): int {
    if i < TWO_63 then i else i - TWO_64
  }

  /** Consecutive positions.  One row may follow the greatest signed position, as the least one, unless it
      is taken. */
  ghost predicate Consecutive(w: seq<TokenRow>) {
    w != [] ==>
      var first := w[0].position;
      && first + |w| <= (if first == 0 - TWO_63 then TWO_63 else TWO_63 + 1)
      && forall i :: 0 <= i < |w| ==> w[i].position == Wrapped(first + i)
  }

  lemma MaxOfConsecutive(w: seq<TokenRow>)
    requires Consecutive(w) && w != []
    ensures var end := w[0].position + |w|;
            MaxPosition(w) == Some(if end <= TWO_63 then end - 1 else TWO_63 - 1)
  {
    hide MaxPosition;
    var first := w[0].position;
    var k := if first + |w| <= TWO_63 then |w| - 1 else |w| - 2;
    forall i | 0 <= i < |w|
      ensures w[i].position <= w[k].position
    {
      assert w[i].position == Wrapped(first + i);
    }
    GreatestIsMax(w, k);
  }

  lemma GreatestIsMax(w: seq<TokenRow>, k: nat)
    requires k < |w|
    requires forall i :: 0 <= i < |w| ==> w[i].position <= w[k].position
    ensures MaxPosition(w) == Some(w[k].position)
  {
    hide MaxPosition;
    var max := MaxPosition(w);
    assert w[k] in w;
    assert w[k].position <= max.value;
    var x :| x in w && x.position == max.value;
    var j :| 0 <= j < |w| && w[j] == x;
    assert w[j].position <= w[k].position;
    assert max.value == w[k].position;
  }

  /** The position a check accepts after consecutive rows. */
  lemma NextOfConsecutive(w: seq<TokenRow>, row: TokenRow)
    requires Consecutive(w) && w != []
    ensures NextPosition(MaxPosition(w).value) == ToU64(row.position)
            <==> row.position == Wrapped(if w[0].position + |w| <= TWO_63 then w[0].position + |w| else TWO_63)
  {
    MaxOfConsecutive(w);
    NextPositionIff(MaxPosition(w).value, row.position);
    hide MaxPosition, Consecutive, NextPosition, Wrapped;
  }

  lemma NextPositionIff(max: I64, p: I64)
    ensures NextPosition(max) == ToU64(p) <==> p == Wrapped(max + 1)
  {
    if max == 0 - 1 {
      assert NextPosition(max) == TWO_64 % TWO_64 == 0;
    }
  }

  /** There is no room after consecutive rows that reach the least signed position from either side. */
  ghost predicate Full(w: seq<TokenRow>)
    requires w != []
  {
    var first := w[0].position;
    first + |w| == if first == 0 - TWO_63 then TWO_63 else TWO_63 + 1
  }

  lemma FullIsTaken(w: seq<TokenRow>)
    requires Consecutive(w) && w != [] && Full(w)
    ensures exists x :: x in w && x.position == 0 - TWO_63
  {
    var x := if w[0].position == 0 - TWO_63 then w[0] else w[|w| - 1];
    assert x in w;
  }

  lemma NotFullIsFree(w: seq<TokenRow>)
    requires Consecutive(w) && w != [] && !Full(w)
    ensures forall x :: x in w ==> x.position != Wrapped(w[0].position + |w|)
  {
    forall i | 0 <= i < |w|
      ensures w[i].position != Wrapped(w[0].position + |w|)
    {
      assert w[i].position == Wrapped(w[0].position + i);
    }
  }

  lemma ExtendedIff(w: seq<TokenRow>, row: TokenRow)
    requires Consecutive(w) && w != []
    ensures Consecutive(w + [row]) <==> !Full(w) && row.position == Wrapped(w[0].position + |w|)
  {
    var longer := w + [row];
    assert longer[0] == w[0] && longer[|w|] == row;
    assert forall i :: 0 <= i < |w| ==> longer[i] == w[i];
  }

  /** A position that passes the check continues the history unless it is taken, which only 2^63 can be. */
  lemma {:induction false} CheckedRowContinues(w: seq<TokenRow>, row: TokenRow)
    requires Consecutive(w) && w != []
    requires NextPosition(MaxPosition(w).value) == ToU64(row.position)
    ensures Consecutive(w + [row]) <==> forall x :: x in w ==> x.position != row.position
    ensures (exists x :: x in w && x.position == row.position) ==> ToU64(row.position) == TWO_63
  {
    NextOfConsecutive(w, row);
    ExtendedIff(w, row);
    assert w[0].position + |w| <= TWO_63 + 1;
    hide MaxPosition, Consecutive;
    if Full(w) {
      FullIsTaken(w);
    } else {
      NotFullIsFree(w);
    }
  }

  // ---------------------------------------------------------------------------------------------
  // The table
  // ---------------------------------------------------------------------------------------------

  ghost predicate Contiguous(rows: seq<TokenRow>) {
    forall request :: Consecutive(History(rows, request))
  }

  lemma HistoryOfInserted(rows: seq<TokenRow>, row: TokenRow, request: string)
    ensures History(rows + [row], request) == if row.request == request then History(rows, request) + [row] else History(rows, request)
  {
    FilterOfConcatenation(rows, [row], OfRequest(request));
    if row.request == request {
      FilterKeepsAll([row], OfRequest(request));
    } else {
      FilterKeepsNone([row], OfRequest(request));
    }
  }

  lemma HistoryOfErased(rows: seq<TokenRow>, erased: string, request: string)
    ensures History(Filter(rows, NotOfRequest(erased)), request) == if request == erased then [] else History(rows, request)
  {
    hide Filter;
    if request == erased {
      FilterKeepsNone(Filter(rows, NotOfRequest(erased)), OfRequest(request));
    } else {
      FilterAfterFilter(rows, NotOfRequest(erased), OfRequest(request));
    }
  }

  lemma OccupiedIffInHistory(rows: seq<TokenRow>, request: string, position: I64)
    ensures Occupied(rows, request, position) <==> exists x :: x in History(rows, request) && x.position == position
  {
    hide Filter;
    if i :| 0 <= i < |rows| && rows[i].request == request && rows[i].position == position {
      assert rows[i] in History(rows, request);
    }
    if x :| x in History(rows, request) && x.position == position {
      assert x in rows && x.request == request;
    }
  }

  /** The row is inserted without the check having looked at the history. */
  ghost predicate Unchecked(rows: seq<TokenRow>, op: Op) {
    && op.Append? && AppendVerdict(rows, op.record, op.luck) == Appended && !op.luck.answered
    && History(rows, op.record.request) != [] && !Occupied(rows, op.record.request, ToI64(op.record.position))
  }

  /** A step keeps every request's history consecutive, unless a failed query let a row in; then exactly if
      the row happens to be the next one. */
  lemma {:induction false} StepKeepsContiguousIff(rows: seq<TokenRow>, op: Op)
    requires Contiguous(rows)
    ensures Contiguous(Step(rows, op)) <==>
            (Unchecked(rows, op) ==> NextPosition(MaxPosition(History(rows, op.record.request)).value) == op.record.position)
  {
    hide History, MaxPosition, Occupied, Filter, Consecutive;
    match op {
      case Erase(erased, done) =>
        forall request
          ensures Consecutive(History(Step(rows, op), request))
        {
          assert Consecutive(History(rows, request));
          if done {
            HistoryOfErased(rows, erased, request);
            EmptyIsConsecutive();
          }
        }
      case Append(t, luck) =>
        AppendKeepsContiguousIff(rows, t, luck);
    }
  }

  lemma EmptyIsConsecutive()
    ensures Consecutive([])
  {
  }

  lemma OneIsConsecutive(row: TokenRow)
    ensures Consecutive([row])
  {
  }

  lemma {:induction false} AppendKeepsContiguousIff(rows: seq<TokenRow>, t: TokenRecord, luck: AppendLuck)
    requires Contiguous(rows)
    ensures Contiguous(AfterAppend(rows, t, luck)) <==>
            (Unchecked(rows, Append(t, luck)) ==> NextPosition(MaxPosition(History(rows, t.request)).value) == t.position)
  {
    var row := RowOf(t);
    var w := History(rows, t.request);
    hide History, MaxPosition, Occupied, Filter, Consecutive;
    if AppendVerdict(rows, t, luck) == Appended && !Occupied(rows, t.request, row.position) {
      OccupiedIffInHistory(rows, t.request, row.position);
      assert Consecutive(w);
      forall request
        ensures History(rows + [row], request) == if request == t.request then w + [row] else History(rows, request)
      {
        HistoryOfInserted(rows, row, request);
      }
      assert ToU64(row.position) == t.position;
      OtherHistories(rows, row);
      if w == [] {
        assert w + [row] == [row];
        OneIsConsecutive(row);
      } else {
        RowContinuesIff(w, row);
      }
    }
  }

  lemma OtherHistories(rows: seq<TokenRow>, row: TokenRow)
    requires Contiguous(rows)
    requires forall request :: History(rows + [row], request) ==
               if request == row.request then History(rows, request) + [row] else History(rows, request)
    ensures Contiguous(rows + [row]) <==> Consecutive(History(rows, row.request) + [row])
  {
    hide History, Consecutive;
    assert forall request :: Consecutive(History(rows, request));
  }

  /** A free position continues a history exactly when it is the next one. */
  lemma {:induction false} RowContinuesIff(w: seq<TokenRow>, row: TokenRow)
    requires Consecutive(w) && w != []
    requires forall x :: x in w ==> x.position != row.position
    ensures Consecutive(w + [row]) <==> NextPosition(MaxPosition(w).value) == ToU64(row.position)
  {
    NextOfConsecutive(w, row);
    ExtendedIff(w, row);
    assert w[0].position + |w| <= TWO_63 + 1;
    hide MaxPosition, Consecutive;
    if Full(w) {
      FullIsTaken(w);
    }
  }

  ghost predicate EveryCheckAnswered(run: seq<Op>) {
    forall i :: 0 <= i < |run| && run[i].Append? ==> run[i].luck.answered
  }

  /** For every sequence of appends, erasures and failures in which no query fails while it is stepped,
      every request's positions are consecutive. */
  lemma {:induction false} RunKeepsContiguous(run: seq<Op>)
    requires EveryCheckAnswered(run)
    ensures Contiguous(TableAfter(run))
    decreases |run|
  {
    if run == [] {
      EmptyTable();
    } else {
      RunKeepsContiguous(run[..|run| - 1]);
      hide Contiguous;
      StepKeepsContiguousIff(TableAfter(run[..|run| - 1]), run[|run| - 1]);
    }
  }

  lemma EmptyTable()
    ensures Contiguous([])
  {
  }

  /** Consecutive rows in a reader's terms: the unsigned positions count up by one, modulo 2^64, from the
      first append; they are one plain interval exactly when they do not reach 2^64. */
  lemma {:induction false} PositionsAreOneInterval(w: seq<TokenRow>)
    requires Consecutive(w) && w != []
    ensures var first := ToU64(w[0].position);
            && (forall i :: 0 <= i < |w| ==> ToU64(w[i].position) == (first + i) % TWO_64)
            && (forall i, j :: 0 <= i < j < |w| ==> w[i].position != w[j].position)
            && ((forall i :: 0 <= i < |w| ==> ToU64(w[i].position) == first + i) <==> first + |w| <= TWO_64)
  {
    var first := ToU64(w[0].position);
    if first + |w| > TWO_64 {
      assert ToU64(w[TWO_64 - first].position) != first + (TWO_64 - first);
    }
  }

  /** An accepted, checked append stores its token, except that a second token at position 2^63 is ignored. */
  lemma {:induction false} AcceptedIsStoredIff(rows: seq<TokenRow>, t: TokenRecord, luck: AppendLuck)
    requires Contiguous(rows)
    requires AppendVerdict(rows, t, luck) == Appended && luck.answered
    ensures History(AfterAppend(rows, t, luck), t.request) == History(rows, t.request) + [RowOf(t)]
            <==> !(t.position == TWO_63 && Occupied(rows, t.request, ToI64(t.position)))
  {
    var row := RowOf(t);
    var w := History(rows, t.request);
    hide History, MaxPosition, Occupied, Filter, Consecutive;
    assert Consecutive(w);
    HistoryOfInserted(rows, row, t.request);
    OccupiedIffInHistory(rows, t.request, row.position);
    if w != [] {
      CheckedRowContinues(w, row);
    }
    assert |w + [row]| != |w|;
  }

  ghost predicate IsGreatest(w: seq<TokenRow>, top: TokenRow) {
    top in w && forall x :: x in w ==> x.position <= top.position
  }

  /** The verdict: an error of the database if a statement fails, a gap if the answered check finds a greatest
      position that is not just below, and otherwise acceptance. */
  lemma VerdictLaw(rows: seq<TokenRow>, t: TokenRecord, luck: AppendLuck)
    ensures var v, w := AppendVerdict(rows, t, luck), History(rows, t.request);
            && (v == NotContiguous
                <==> (&& luck.prepared && luck.answered
                      && exists top :: IsGreatest(w, top) && (ToU64(top.position) + 1) % TWO_64 != t.position))
            && (v == Internal <==> (!luck.prepared || (v != NotContiguous && !luck.inserted)))
  {
    var w := History(rows, t.request);
    hide History, ToU64;
    if w != [] {
      var m := MaxPosition(w).value;
      var top :| top in w && top.position == m;
      assert IsGreatest(w, top);
      assert forall other :: IsGreatest(w, other) ==> other.position == m;
    }
  }

  /** A failed query lets a gap into the table. */
  lemma UnansweredCheckLeavesGap()
    ensures !Contiguous(TableAfter([
              Append(TokenRecord("r", "s", 0, 7), AppendLuck(true, true, true)),
              Append(TokenRecord("r", "s", 5, 7), AppendLuck(true, false, true))]))
  {
    var a := Append(TokenRecord("r", "s", 0, 7), AppendLuck(true, true, true));
    var b := Append(TokenRecord("r", "s", 5, 7), AppendLuck(true, false, true));
    assert [a, b][..1] == [a] && [a][..0] == [];
    assert History([], "r") == [] && MaxPosition([]) == None;
    assert AppendVerdict([], a.record, a.luck) == Appended;
    assert !Occupied([], "r", 0);
    assert TableAfter([]) == [];
    var one := TableAfter([a]);
    assert one == Step([], a) == [] + [TokenRow("r", "s", 0, 7)];
    assert AppendVerdict(one, b.record, b.luck) == Appended;
    assert !Occupied(one, "r", 5);
    var rows := TableAfter([a, b]);
    assert rows == one + [TokenRow("r", "s", 5, 7)];
    FilterKeepsAll(rows, OfRequest("r"));
    assert History(rows, "r")[1].position == 5;
  }

  // ---------------------------------------------------------------------------------------------
  // The table as a simple log
  // ---------------------------------------------------------------------------------------------

  /** There is room for another position: the one at 2^63 has not been reached from below and there are fewer
      than 2^64 positions. */
  predicate Room(kept: seq<TokenRecord>)
    requires kept != []
  {
    !(|kept| > 1 && kept[|kept| - 1].position == TWO_63) && |kept| < TWO_64
  }

  predicate Follows(kept: seq<TokenRecord>, t: TokenRecord, luck: AppendLuck) {
    && luck.prepared && luck.inserted
    && (kept == [] || (t.position == (kept[|kept| - 1].position + 1) % TWO_64 && Room(kept)))
  }

  /** What a reader expects to be kept: since the last erasure, the first token at any position and then, as
      long as there is room, each token offered at the next position. */
  function Kept(run: seq<Op>, request: string): seq<TokenRecord> {
    if run == [] then []
    else
      var kept := Kept(run[..|run| - 1], request);
      match run[|run| - 1]
      case Append(t, luck) =>
        if t.request == request && Follows(kept, t, luck) then kept + [t] else kept
      case Erase(erased, done) => if erased == request && done then [] else kept
  }

  lemma FullIff(w: seq<TokenRow>)
    requires Consecutive(w) && w != []
    ensures Full(w) <==> (|w| > 1 && w[|w| - 1].position == 0 - TWO_63) || |w| == TWO_64
  {
    assert w[|w| - 1].position == Wrapped(w[0].position + (|w| - 1));
  }

  lemma SuccessorIff(w: seq<TokenRow>, p: I64)
    requires Consecutive(w) && w != [] && !Full(w)
    ensures p == Wrapped(w[0].position + |w|) <==> ToU64(p) == (ToU64(w[|w| - 1].position) + 1) % TWO_64
  {
    assert w[|w| - 1].position == Wrapped(w[0].position + (|w| - 1));
    assert w[0].position + |w| <= TWO_63;
    hide Consecutive;
    NextPositionIff(w[|w| - 1].position, p);
  }

  /** On a full history an accepted token is ignored. */
  lemma {:induction false} FullIgnores(rows: seq<TokenRow>, t: TokenRecord, luck: AppendLuck)
    requires var w := History(rows, t.request); Consecutive(w) && w != [] && Full(w)
    requires luck.answered
    ensures AfterAppend(rows, t, luck) == rows
  {
    var w := History(rows, t.request);
    var row := RowOf(t);
    if AppendVerdict(rows, t, luck) == Appended {
      hide History, MaxPosition, Occupied, Filter;
      assert ToU64(row.position) == t.position;
      NextOfConsecutive(w, row);
      assert row.position == Wrapped(TWO_63) == 0 - TWO_63;
      FullIsTaken(w);
      OccupiedIffInHistory(rows, t.request, row.position);
    }
  }

  /** Otherwise exactly the token at the next position is stored. */
  lemma {:induction false} NextIsStored(rows: seq<TokenRow>, t: TokenRecord, luck: AppendLuck)
    requires var w := History(rows, t.request); Consecutive(w) && w != [] && !Full(w)
    requires luck == AppendLuck(true, true, true)
    ensures var w := History(rows, t.request);
            History(AfterAppend(rows, t, luck), t.request) ==
            if t.position == (ToU64(w[|w| - 1].position) + 1) % TWO_64 then w + [RowOf(t)] else w
  {
    var w := History(rows, t.request);
    var row := RowOf(t);
    hide History, MaxPosition, Occupied, Filter, NextPosition;
    assert ToU64(row.position) == t.position;
    assert w[0].position + |w| <= TWO_63;
    hide Consecutive;
    NextOfConsecutive(w, row);
    SuccessorIff(w, row.position);
    NotFullIsFree(w);
    hide Wrapped, Full;
    OccupiedIffInHistory(rows, t.request, row.position);
    HistoryOfInserted(rows, row, t.request);
  }

  lemma {:induction false} FirstIsStored(rows: seq<TokenRow>, t: TokenRecord, luck: AppendLuck)
    requires History(rows, t.request) == []
    requires luck == AppendLuck(true, true, true)
    ensures History(AfterAppend(rows, t, luck), t.request) == [RowOf(t)]
  {
    var row := RowOf(t);
    assert MaxPosition([]) == None;
    OccupiedIffInHistory(rows, t.request, row.position);
    HistoryOfInserted(rows, row, t.request);
    hide History, MaxPosition, Occupied, Filter;
    assert [] + [row] == [row];
  }

  /** Whatever the positions are, the table refines the simple log: row for row and in order. */
  lemma {:induction false} TableIsSimpleLog(run: seq<Op>, request: string)
    requires EveryCheckAnswered(run)
    ensures History(TableAfter(run), request) == Map(Kept(run, request), RowOf)
    decreases |run|
  {
    if run != [] {
      var before := run[..|run| - 1];
      TableIsSimpleLog(before, request);
      RunKeepsContiguous(before);
      assert run[|run| - 1].Append? ==> run[|run| - 1].luck.answered;
      var rows := TableAfter(before);
      match run[|run| - 1] {
        case Erase(erased, done) =>
          HistoryOfErased(rows, erased, request);
        case Append(t, luck) =>
          if t.request == request {
            AppendFollowsLog(rows, Kept(before, request), t, luck);
          } else {
            OtherHistoryKept(rows, t, luck, request);
          }
      }
    } else {
      assert History([], request) == [];
    }
  }

  lemma {:induction false} AppendFollowsLog(rows: seq<TokenRow>, kept: seq<TokenRecord>, t: TokenRecord, luck: AppendLuck)
    requires Contiguous(rows)
    requires History(rows, t.request) == Map(kept, RowOf)
    requires luck.answered
    ensures History(AfterAppend(rows, t, luck), t.request) == Map(if Follows(kept, t, luck) then kept + [t] else kept, RowOf)
  {
    hide History, Consecutive, Map, AfterAppend, Follows, AppendVerdict, RowOf, Full, ToU64;
    var w := History(rows, t.request);
    assert Consecutive(w);
    hide Contiguous;
    MapSnoc(kept, t);
    if !luck.prepared || !luck.inserted {
      NeverFollows(kept, t, luck);
      RejectedChangesNothing(rows, t, luck);
    } else if w == [] {
      FirstIsStored(rows, t, luck);
      assert [] + [RowOf(t)] == [RowOf(t)];
      FirstFollows(kept, t, luck);
    } else {
      LaterFollows(w, kept, t, luck);
      if Full(w) {
        FullIgnores(rows, t, luck);
      } else {
        NextIsStored(rows, t, luck);
      }
    }
  }

  lemma MapSnoc(kept: seq<TokenRecord>, t: TokenRecord)
    ensures Map(kept + [t], RowOf) == Map(kept, RowOf) + [RowOf(t)]
  {
    hide Map;
    assert |Map(kept + [t], RowOf)| == |kept| + 1;
    assert forall i :: 0 <= i < |kept| ==> (kept + [t])[i] == kept[i];
  }

  lemma NeverFollows(kept: seq<TokenRecord>, t: TokenRecord, luck: AppendLuck)
    requires !luck.prepared || !luck.inserted
    ensures !Follows(kept, t, luck)
    ensures forall rows :: AppendVerdict(rows, t, luck) != Appended
  {
  }

  lemma FirstFollows(kept: seq<TokenRecord>, t: TokenRecord, luck: AppendLuck)
    requires kept == [] && luck.prepared && luck.inserted
    ensures Follows(kept, t, luck)
  {
  }

  lemma LaterFollows(w: seq<TokenRow>, kept: seq<TokenRecord>, t: TokenRecord, luck: AppendLuck)
    requires Consecutive(w) && w != [] && w == Map(kept, RowOf) && luck.prepared && luck.inserted
    ensures Follows(kept, t, luck) <==> !Full(w) && t.position == (ToU64(w[|w| - 1].position) + 1) % TWO_64
  {
    LastRow(kept, w);
    FullIff(w);
    hide Map, Consecutive, Full;
  }

  lemma LastRow(kept: seq<TokenRecord>, w: seq<TokenRow>)
    requires w == Map(kept, RowOf) && w != []
    ensures |w| == |kept| && ToU64(w[|w| - 1].position) == kept[|kept| - 1].position
    ensures w[|w| - 1].position == 0 - TWO_63 <==> kept[|kept| - 1].position == TWO_63
  {
    hide Map;
  }

  lemma OtherHistoryKept(rows: seq<TokenRow>, t: TokenRecord, luck: AppendLuck, request: string)
    requires t.request != request
    ensures History(AfterAppend(rows, t, luck), request) == History(rows, request)
  {
    hide History, AppendVerdict, Occupied;
    HistoryOfInserted(rows, RowOf(t), request);
  }

  lemma RejectedChangesNothing(rows: seq<TokenRow>, t: TokenRecord, luck: AppendLuck)
    requires AppendVerdict(rows, t, luck) != Appended
    ensures AfterAppend(rows, t, luck) == rows
  {
  }
}
