/** Loads of a token range: exactly when they return the rows that were asked for. */
module TokenLoads {
  import opened Core
  import opened Sequences
  import opened TokenLog

  // ---------------------------------------------------------------------------------------------
  // What is loaded and what is asked for
  // ---------------------------------------------------------------------------------------------

  predicate PositionBefore(a: TokenRow, b: TokenRow) {
    a.position < b.position
  }

  predicate UnsignedBefore(a: TokenRow, b: TokenRow) {
    ToU64(a.position) < ToU64(b.position)
  }

  function FromPosition(start: I64): TokenRow -> bool {
    (row: TokenRow) => row.position >= start
  }

  function FromUnsigned(start: U64): TokenRow -> bool {
    (row: TokenRow) => ToU64(row.position) >= start
  }

  /** A negative limit is none. */
  function Limited<T>(s: seq<T>, limit: I32): seq<T> {
    if limit < 0 || |s| <= limit then s else s[..limit]
  }

  function Cut<T>(s: seq<T>, count: U32): seq<T> {
    if |s| <= count then s else s[..count]
  }

  /** The code's selection: signed positions from the signed start on, ascending, cut to the signed limit. */
  ghost predicate Selected(w: seq<TokenRow>, start: U64, count: U32, result: seq<TokenRow>) {
    exists sorted :: && SortedArrangement(sorted, Filter(w, FromPosition(ToI64(start))), PositionBefore)
                     && result == Limited(sorted, ToI32(count))
  }

  /** What is asked for: positions from the start on, ascending, at most `count` of them. */
  ghost predicate Slice(w: seq<TokenRow>, start: U64, count: U32, result: seq<TokenRow>) {
    exists sorted :: && SortedArrangement(sorted, Filter(w, FromUnsigned(start)), UnsignedBefore)
                     && result == Cut(sorted, count)
  }

  /** A position names one row. */
  ghost predicate Keyed(w: seq<TokenRow>) {
    forall x, y :: x in w && y in w && x.position == y.position ==> x == y
  }

  // ---------------------------------------------------------------------------------------------
  // The two sides of 2^63
  // ---------------------------------------------------------------------------------------------

  function Low(): TokenRow -> bool {
    (row: TokenRow) => row.position >= 0
  }

  function High(): TokenRow -> bool {
    (row: TokenRow) => row.position < 0
  }

  /** Rows from the start position on that lie on its side of 2^63, and rows on the other side. */
  function Near(w: seq<TokenRow>, start: U64): seq<TokenRow> {
    Filter(w, (row: TokenRow) => ToU64(row.position) >= start && (row.position >= 0 <==> start < TWO_63))
  }

  function Far(w: seq<TokenRow>, start: U64): seq<TokenRow> {
    Filter(w, (row: TokenRow) => !(row.position >= 0 <==> start < TWO_63))
  }

  /** Nothing lies on the other side of 2^63, or the count is reached before it matters; a count that does not
      fit a signed integer must not cut. */
  ghost predicate RightBounds(w: seq<TokenRow>, start: U64, count: U32) {
    var near, far := |Near(w, start)|, |Far(w, start)|;
    if count < TWO_31 then far == 0 || near >= count
    else if start < TWO_63 then near == count || (near < count && far == 0)
    else near <= count && far == 0
  }

  /** One side in front, the other behind, each with its rows. */
  lemma {:induction false} Halves(sorted: seq<TokenRow>, rows: seq<TokenRow>, less: (TokenRow, TokenRow) -> bool, first: TokenRow -> bool, second: TokenRow -> bool)
    requires SortedArrangement(sorted, rows, less)
    requires Separates(less, first, second)
    ensures sorted == Filter(sorted, first) + Filter(sorted, second)
    ensures SortedArrangement(Filter(sorted, first), Filter(rows, first), less)
    ensures |Filter(sorted, second)| == |Filter(rows, second)|
  {
    SortedSplits(sorted, less, first, second);
    FilterIsSorted(sorted, less, first);
    FilterOfPermutation(sorted, rows, first);
    FilterOfPermutation(sorted, rows, second);
    PermutationMembers(Filter(sorted, second), Filter(rows, second));
  }

  /** On one side of 2^63 both orders agree. */
  lemma OrdersAgree(s: seq<TokenRow>)
    requires (forall x :: x in s ==> x.position >= 0) || (forall x :: x in s ==> x.position < 0)
    ensures Sorted(s, PositionBefore) <==> Sorted(s, UnsignedBefore)
  {
    forall i, j | 0 <= i < |s| && 0 <= j < |s|
      ensures PositionBefore(s[i], s[j]) <==> UnsignedBefore(s[i], s[j])
    {
      assert s[i] in s && s[j] in s;
    }
  }

  lemma {:induction false} SameRows(a: seq<TokenRow>, b: seq<TokenRow>, rows: seq<TokenRow>, w: seq<TokenRow>)
    requires Keyed(w) && forall x :: x in rows ==> x in w
    requires SortedArrangement(a, rows, PositionBefore) && SortedArrangement(b, rows, PositionBefore)
    ensures a == b
  {
    PermutationMembers(a, rows);
    ArrangementIsUnique(a, b, PositionBefore);
  }

  /** A start below 2^63: the rows above it on the other side are missing. */
  lemma {:induction false} LowStart(w: seq<TokenRow>, start: U64, signed: seq<TokenRow>, unsigned: seq<TokenRow>)
    requires Keyed(w) && start < TWO_63
    requires SortedArrangement(signed, Filter(w, FromPosition(ToI64(start))), PositionBefore)
    requires SortedArrangement(unsigned, Filter(w, FromUnsigned(start)), UnsignedBefore)
    ensures |signed| == |Near(w, start)|
    ensures signed <= unsigned && |unsigned| == |signed| + |Far(w, start)|
  {
    var rows := Filter(w, FromUnsigned(start));
    hide Filter, SortedArrangement;
    LowOrder();
    Halves(unsigned, rows, UnsignedBefore, Low(), High());
    var front := Filter(unsigned, Low());
    FilterBoth(w, FromUnsigned(start), Low(), (row: TokenRow) => ToU64(row.position) >= start && (row.position >= 0 <==> start < TWO_63));
    FilterBoth(w, FromUnsigned(start), High(), (row: TokenRow) => !(row.position >= 0 <==> start < TWO_63));
    FilterSame(w, FromPosition(ToI64(start)), (row: TokenRow) => ToU64(row.position) >= start && (row.position >= 0 <==> start < TWO_63));
    Reorder(front, Near(w, start), true);
    SameRows(signed, front, Near(w, start), w);
    ArrangementLength(signed, Near(w, start), PositionBefore);
  }

  /** A start from 2^63 on: the rows on the other side come after those asked for. */
  lemma {:induction false} HighStart(w: seq<TokenRow>, start: U64, signed: seq<TokenRow>, unsigned: seq<TokenRow>)
    requires Keyed(w) && start >= TWO_63
    requires SortedArrangement(signed, Filter(w, FromPosition(ToI64(start))), PositionBefore)
    requires SortedArrangement(unsigned, Filter(w, FromUnsigned(start)), UnsignedBefore)
    ensures |unsigned| == |Near(w, start)|
    ensures unsigned <= signed && |signed| == |unsigned| + |Far(w, start)|
  {
    var rows := Filter(w, FromPosition(ToI64(start)));
    hide Filter, SortedArrangement;
    HighOrder();
    Halves(signed, rows, PositionBefore, High(), Low());
    var front := Filter(signed, High());
    FilterBoth(w, FromPosition(ToI64(start)), High(), (row: TokenRow) => ToU64(row.position) >= start && (row.position >= 0 <==> start < TWO_63));
    FilterBoth(w, FromPosition(ToI64(start)), Low(), (row: TokenRow) => !(row.position >= 0 <==> start < TWO_63));
    FilterSame(w, FromUnsigned(start), (row: TokenRow) => ToU64(row.position) >= start && (row.position >= 0 <==> start < TWO_63));
    Reorder(unsigned, Near(w, start), false);
    SameRows(unsigned, front, Near(w, start), w);
    ArrangementLength(unsigned, Near(w, start), PositionBefore);
  }

  lemma LowOrder()
    ensures Separates(UnsignedBefore, Low(), High())
  {
  }

  lemma HighOrder()
    ensures Separates(PositionBefore, High(), Low())
  {
  }

  lemma Reorder(s: seq<TokenRow>, rows: seq<TokenRow>, low: bool)
    requires SortedArrangement(s, rows, UnsignedBefore)
    requires forall x :: x in rows ==> (x.position >= 0 <==> low)
    ensures SortedArrangement(s, rows, PositionBefore)
  {
    PermutationMembers(s, rows);
    OrdersAgree(s);
  }

  lemma ArrangementLength(s: seq<TokenRow>, rows: seq<TokenRow>, less: (TokenRow, TokenRow) -> bool)
    requires SortedArrangement(s, rows, less)
    ensures |s| == |rows|
  {
    PermutationMembers(s, rows);
  }

  lemma CutLonger(short: seq<TokenRow>, long: seq<TokenRow>, count: U32)
    requires short <= long
    ensures Limited(short, ToI32(count)) == Cut(long, count) <==>
            if count < TWO_31 then |long| == |short| || |short| >= count
            else |short| == count || (|short| < count && |long| == |short|)
    ensures Limited(long, ToI32(count)) == Cut(short, count) <==>
            if count < TWO_31 then |long| == |short| || |short| >= count else |short| <= count && |long| == |short|
  {
  }

  /** A load returns the slice that was asked for exactly when the bounds are right, whatever is stored. */
  lemma {:induction false} LoadIsSliceIff(w: seq<TokenRow>, start: U64, count: U32, result: seq<TokenRow>)
    requires Keyed(w)
    requires Selected(w, start, count, result)
    ensures Slice(w, start, count, result) <==> RightBounds(w, start, count)
  {
    var signed :| && SortedArrangement(signed, Filter(w, FromPosition(ToI64(start))), PositionBefore)
                  && result == Limited(signed, ToI32(count));
    var other := ArrangementExists(Filter(w, FromUnsigned(start)), UnsignedBefore);
    hide Filter, SortedArrangement, Near, Far;
    SameSlice(w, start, count, result, signed, other);
    if Slice(w, start, count, result) {
      var unsigned :| SortedArrangement(unsigned, Filter(w, FromUnsigned(start)), UnsignedBefore) && result == Cut(unsigned, count);
      SameSlice(w, start, count, result, signed, unsigned);
    }
  }

  lemma {:induction false} SameSlice(w: seq<TokenRow>, start: U64, count: U32, result: seq<TokenRow>, signed: seq<TokenRow>, unsigned: seq<TokenRow>)
    requires Keyed(w)
    requires SortedArrangement(signed, Filter(w, FromPosition(ToI64(start))), PositionBefore)
    requires SortedArrangement(unsigned, Filter(w, FromUnsigned(start)), UnsignedBefore)
    requires result == Limited(signed, ToI32(count))
    ensures result == Cut(unsigned, count) <==> RightBounds(w, start, count)
  {
    hide Filter, SortedArrangement, Near, Far, Keyed;
    if start < TWO_63 {
      LowStart(w, start, signed, unsigned);
      CutLonger(signed, unsigned, count);
    } else {
      HighStart(w, start, signed, unsigned);
      CutLonger(unsigned, signed, count);
    }
  }

  // ---------------------------------------------------------------------------------------------
  // Runs
  // ---------------------------------------------------------------------------------------------

  /** A request and a position name one row. */
  ghost predicate KeyedTable(rows: seq<TokenRow>) {
    forall x, y :: x in rows && y in rows && x.request == y.request && x.position == y.position ==> x == y
  }

  /** Whatever fails, the table keeps its key. */
  lemma {:induction false} RunKeepsKey(run: seq<Op>)
    ensures KeyedTable(TableAfter(run))
    decreases |run|
  {
    if run != [] {
      var rows := TableAfter(run[..|run| - 1]);
      RunKeepsKey(run[..|run| - 1]);
      hide AppendVerdict, Filter;
      match run[|run| - 1] {
        case Append(t, luck) =>
          forall x | x in rows && x.request == t.request && x.position == ToI64(t.position)
            ensures Occupied(rows, t.request, ToI64(t.position))
          {
            var i :| 0 <= i < |rows| && rows[i] == x;
          }
        case Erase(request, done) =>
      }
    }
  }

  /** For every run, every failure included, a load returns the slice that was asked for exactly when the
      bounds are right. */
  lemma {:induction false} LoadAfterRunIff(run: seq<Op>, request: string, start: U64, count: U32, result: seq<TokenRow>)
    requires Selected(History(TableAfter(run), request), start, count, result)
    ensures var w := History(TableAfter(run), request);
            Slice(w, start, count, result) <==> RightBounds(w, start, count)
  {
    var w := History(TableAfter(run), request);
    RunKeepsKey(run);
    assert Keyed(w);
    hide History, TableAfter, KeyedTable, Keyed, Selected, Slice, RightBounds;
    LoadIsSliceIff(w, start, count, result);
  }

  /** End to end: after every run with answered checks, what is stored is what a reader expects to be kept, and a
      load returns the slice of it that was asked for exactly when the bounds are right. */
  lemma {:induction false} LoadReturnsKeptSliceIff(run: seq<Op>, request: string, start: U64, count: U32, result: seq<TokenRow>)
    requires EveryCheckAnswered(run)
    requires Selected(History(TableAfter(run), request), start, count, result)
    ensures var kept := Map(Kept(run, request), RowOf);
            Slice(kept, start, count, result) <==> RightBounds(kept, start, count)
  {
    hide History, TableAfter, Kept, Map, Selected, Slice, RightBounds, EveryCheckAnswered;
    TableIsSimpleLog(run, request);
    LoadAfterRunIff(run, request, start, count, result);
  }

  /** Positions below 2^63, a start below 2^63 and a count below 2^31 are right bounds. */
  lemma {:induction false} SmallBoundsAreRight(w: seq<TokenRow>, start: U64, count: U32)
    requires forall x :: x in w ==> x.position >= 0
    requires start < TWO_63 && count < TWO_31
    ensures RightBounds(w, start, count)
  {
    FilterKeepsNone(w, (row: TokenRow) => !(row.position >= 0 <==> start < TWO_63));
  }

  // ---------------------------------------------------------------------------------------------
  // Bounds that are ignored
  // ---------------------------------------------------------------------------------------------

  function AppendAt(position: U64): Op {
    Append(TokenRecord("r", "s", position, 7), AppendLuck(true, true, true))
  }

  /** Appends at `n` positions from `first` on. */
  function Appends(first: U64, n: nat): seq<Op>
    requires first + n <= TWO_63 || (first >= TWO_63 && first + n <= TWO_64)
  {
    seq(n, i requires 0 <= i < n => AppendAt(first + i))
  }

  lemma {:induction false} AppendsAreKept(first: U64, n: nat)
    requires first + n <= TWO_63 || (first >= TWO_63 && first + n <= TWO_64)
    ensures var kept := Kept(Appends(first, n), "r");
            |kept| == n && forall i :: 0 <= i < n ==> kept[i].position == first + i
    decreases n
  {
    if n > 0 {
      var run := Appends(first, n);
      assert run[..n - 1] == Appends(first, n - 1);
      assert run[n - 1] == AppendAt(first + (n - 1));
      AppendsAreKept(first, n - 1);
      var kept := Kept(run[..n - 1], "r");
      hide Appends;
      NextAppendFollows(kept, first, n - 1);
      assert Kept(run, "r") == kept + [AppendAt(first + (n - 1)).record];
    }
  }

  lemma NextAppendFollows(kept: seq<TokenRecord>, first: U64, k: nat)
    requires first + k < TWO_63 || (first >= TWO_63 && first + k < TWO_64)
    requires |kept| == k && forall i :: 0 <= i < k ==> kept[i].position == first + i
    ensures Follows(kept, AppendAt(first + k).record, AppendAt(first + k).luck)
  {
  }

  /** A history of `n` tokens on one side of 2^63. */
  lemma {:induction false} OneSidedHistory(first: U64, n: nat)
    requires first + n <= TWO_63 || (first >= TWO_63 && first + n <= TWO_64)
    ensures var w := History(TableAfter(Appends(first, n)), "r");
            |w| == n && forall i :: 0 <= i < n ==> w[i].position == ToI64(first + i)
  {
    var run := Appends(first, n);
    assert forall i :: 0 <= i < n ==> run[i] == AppendAt(first + i);
    assert EveryCheckAnswered(run);
    AppendsAreKept(first, n);
    hide Appends, EveryCheckAnswered;
    TableIsSimpleLog(run, "r");
    hide History, Kept, Map, TableAfter;
    assert forall i :: 0 <= i < n ==> Map(Kept(run, "r"), RowOf)[i] == RowOf(Kept(run, "r")[i]);
  }

  /** Loads that do not return what was asked for, for every length of the history: a history on one side of
      2^63 read from the other side, and one cut by a count of at least 2^31. */
  lemma {:induction false} IgnoredBounds(first: U64, n: nat, start: U64, count: U32, result: seq<TokenRow>)
    requires first + n <= TWO_63 || (first >= TWO_63 && first + n <= TWO_64)
    requires Selected(History(TableAfter(Appends(first, n)), "r"), start, count, result)
    requires n > 0 && count > 0
    requires (first < TWO_63) != (start < TWO_63) || (start == first && TWO_31 <= count < n)
    ensures !Slice(History(TableAfter(Appends(first, n)), "r"), start, count, result)
  {
    var w := History(TableAfter(Appends(first, n)), "r");
    LoadAfterRunIff(Appends(first, n), "r", start, count, result);
    OneSidedHistory(first, n);
    hide History, TableAfter, Appends, Selected, Slice;
    assert forall x :: x in w ==> ToU64(x.position) >= first && (x.position >= 0 <==> first < TWO_63);
    var near := (row: TokenRow) => ToU64(row.position) >= start && (row.position >= 0 <==> start < TWO_63);
    var far := (row: TokenRow) => !(row.position >= 0 <==> start < TWO_63);
    if (first < TWO_63) != (start < TWO_63) {
      FilterKeepsAll(w, far);
      FilterKeepsNone(w, near);
    } else {
      FilterKeepsAll(w, near);
      FilterKeepsNone(w, far);
    }
  }
}
