/** In-memory tables as the two preprocessing scripts see them after
    `pd.read_csv(..., dtype=str)`: an ordered list of column names and rows
    of optional strings (a missing value, pandas' NaN, is `None`).  Rows are
    positional: cell `j` of a row belongs to column `j`. */
module Tables {

  datatype Option<+T> = None | Some(value: T) {
    function GetOr(default: T): T {
      match this
      case Some(v) => v
      case None => default
    }
  }

  datatype Result<+R, +E> = Success(value: R) | Failure(error: E)

  type Cell = Option<string>
  type Row = seq<Cell>

  datatype Table = Table(columns: seq<string>, rows: seq<Row>)

  /** `pd.DataFrame()`: no columns and no rows. */
  const EmptyTable: Table := Table([], [])

  /** `DataFrame.empty`: true when either axis has length zero. */
  predicate IsEmpty(t: Table) {
    |t.columns| == 0 || |t.rows| == 0
  }

  /** Every row has one cell per column. */
  ghost predicate WellFormed(t: Table) {
    forall r :: r in t.rows ==> |r| == |t.columns|
  }

  ghost predicate Distinct<T>(s: seq<T>) {
    forall i, j :: 0 <= i < j < |s| ==> s[i] != s[j]
  }

  /** Position of the first column called `name`, or -1. */
  function IndexOf(cols: seq<string>, name: string): (k: int)
    ensures -1 <= k < |cols|
    ensures k >= 0 ==> cols[k] == name && forall q :: 0 <= q < k ==> cols[q] != name
    ensures k == -1 <==> name !in cols
  {
    if cols == [] then -1
    else if cols[0] == name then 0
    else var k := IndexOf(cols[1..], name); if k == -1 then -1 else k + 1
  }

  /** The value of column `name` in `row` (`df[name]` for one row); `None`
      when the column or the cell is missing. */
  function Get(cols: seq<string>, row: Row, name: string): Cell {
    var k := IndexOf(cols, name);
    if 0 <= k < |row| then row[k] else None
  }

  // ---------------------------------------------------------------------
  // Order-preserving row selection (`df.loc[mask]`)
  // ---------------------------------------------------------------------

  /** `a` can be obtained from `b` by deleting elements, keeping order. */
  ghost predicate IsSubsequence<T>(a: seq<T>, b: seq<T>)
    decreases |b|
  {
    if a == [] then true
    else if b == [] then false
    else (a[0] == b[0] && IsSubsequence(a[1..], b[1..])) || IsSubsequence(a, b[1..])
  }

  /** The elements of `s` that satisfy `p`, in order: exactly the rows a
      boolean mask selects. */
  function Filter<T(!new)>(s: seq<T>, p: T -> bool): (r: seq<T>)
    ensures IsSubsequence(r, s)
    ensures forall x :: multiset(r)[x] == if p(x) then multiset(s)[x] else 0
    ensures |r| <= |s|
  {
    if s == [] then []
    else
      var rest := Filter(s[1..], p);
      assert s == [s[0]] + s[1..];
      if p(s[0]) then [s[0]] + rest else rest
  }

  lemma {:induction false} FilterAppend<T(!new)>(a: seq<T>, b: seq<T>, p: T -> bool)
    ensures Filter(a + b, p) == Filter(a, p) + Filter(b, p)
  {
    if a == [] {
      assert a + b == b;
    } else {
      var s := a + b;
      assert s[0] == a[0] && s[1..] == a[1..] + b;
      FilterAppend(a[1..], b, p);
      var head := if p(a[0]) then [a[0]] else [];
      assert Filter(s, p) == head + Filter(a[1..] + b, p) by {
        FilterCons(s, p);
      }
      assert Filter(a, p) == head + Filter(a[1..], p) by {
        FilterCons(a, p);
      }
      AppendAssoc(head, Filter(a[1..], p), Filter(b, p));
    }
  }

  lemma AppendAssoc<T>(a: seq<T>, b: seq<T>, c: seq<T>)
    ensures a + (b + c) == (a + b) + c
  {
  }

  /** Membership in a filtered sequence: both directions. */
  lemma FilterMembers<T(!new)>(s: seq<T>, p: T -> bool, x: T)
    ensures x in Filter(s, p) <==> x in s && p(x)
  {
    assert x in Filter(s, p) <==> multiset(Filter(s, p))[x] > 0;
    assert x in s <==> multiset(s)[x] > 0;
  }

  lemma {:induction false} SubsequenceOfItself<T>(s: seq<T>)
    ensures IsSubsequence(s, s)
  {
    if s != [] {
      SubsequenceOfItself(s[1..]);
    }
  }

  lemma DistinctCons<T>(x: T, rest: seq<T>)
    ensures Distinct([x] + rest) <==> x !in rest && Distinct(rest)
  {
    var r := [x] + rest;
    if x !in rest && Distinct(rest) {
      forall i, j | 0 <= i < j < |r| ensures r[i] != r[j] {
        assert r[j] == rest[j - 1];
        if i > 0 {
          assert r[i] == rest[i - 1];
        }
      }
    }
    if Distinct(r) {
      assert forall i :: 0 <= i < |rest| ==> rest[i] == r[i + 1];
      forall i | 0 <= i < |rest| ensures rest[i] != x {
        assert r[0] == x;
      }
    }
  }

  /** Selecting from a list without repetitions gives one without
      repetitions. */
  lemma {:induction false} FilterDistinct<T(!new)>(s: seq<T>, p: T -> bool)
    requires Distinct(s)
    ensures Distinct(Filter(s, p))
  {
    if s != [] {
      assert s == [s[0]] + s[1..];
      DistinctCons(s[0], s[1..]);
      FilterDistinct(s[1..], p);
      FilterMembers(s[1..], p, s[0]);
      DistinctCons(s[0], Filter(s[1..], p));
    }
  }

  /** Two masks in a row select what their conjunction selects. */
  lemma {:induction false} FilterFilter<T(!new)>(s: seq<T>, p: T -> bool, q: T -> bool, pq: T -> bool)
    requires forall x :: pq(x) == (p(x) && q(x))
    ensures Filter(Filter(s, p), q) == Filter(s, pq)
  {
    if s != [] {
      FilterFilter(s[1..], p, q, pq);
      if p(s[0]) {
        assert ([s[0]] + Filter(s[1..], p))[1..] == Filter(s[1..], p);
      }
    }
  }

  lemma {:induction false} FilterExt<T(!new)>(s: seq<T>, p: T -> bool, q: T -> bool)
    requires forall x :: p(x) == q(x)
    ensures Filter(s, p) == Filter(s, q)
  {
    if s != [] {
      FilterExt(s[1..], p, q);
    }
  }

  lemma RealignRowsAppend(cols: seq<string>, a: seq<Row>, b: seq<Row>, target: seq<string>)
    ensures RealignRows(cols, a + b, target) == RealignRows(cols, a, target) + RealignRows(cols, b, target)
  {
  }

  // ---------------------------------------------------------------------
  // Concatenation
  // ---------------------------------------------------------------------

  function Flatten<T>(parts: seq<seq<T>>): (r: seq<T>)
    ensures |parts| == 1 ==> r == parts[0]
  {
    if parts == [] then [] else Flatten(parts[..|parts| - 1]) + parts[|parts| - 1]
  }

  lemma {:induction false} FlattenAppend<T>(a: seq<seq<T>>, b: seq<seq<T>>)
    ensures Flatten(a + b) == Flatten(a) + Flatten(b)
    decreases |b|
  {
    if b == [] {
      assert a + b == a;
    } else {
      var b' := b[..|b| - 1];
      assert (a + b)[..|a + b| - 1] == a + b';
      FlattenAppend(a, b');
    }
  }

  lemma FlattenWhole<T>(parts: seq<seq<T>>, i: nat)
    requires i == |parts|
    ensures Flatten(parts[..i]) == Flatten(parts)
  {
    assert parts[..i] == parts;
  }

  lemma FlattenSnoc<T>(parts: seq<seq<T>>, i: nat)
    requires i < |parts|
    ensures Flatten(parts[..i + 1]) == Flatten(parts[..i]) + parts[i]
  {
    assert parts[..i + 1][..i] == parts[..i];
  }

  /** The blocks `read_csv(..., chunksize=n)` yields: consecutive runs of
      `n` rows, the last one possibly shorter.  A file with a header and no
      rows still yields one (empty) block carrying the header. */
  function Chunks(rows: seq<Row>, n: nat): (r: seq<seq<Row>>)
    requires n > 0
    ensures |r| > 0
    ensures Flatten(r) == rows
    ensures forall i :: 0 <= i < |r| ==> |r[i]| <= n
    ensures forall i :: 0 <= i < |r| - 1 ==> |r[i]| == n
    decreases |rows|
  {
    if |rows| <= n then [rows]
    else
      var rest := Chunks(rows[n..], n);
      FlattenAppend([rows[..n]], rest);
      assert rows == rows[..n] + rows[n..];
      [rows[..n]] + rest
  }

  /** The rows of each table, one after the other. */
  function AllRows(frames: seq<Table>): seq<Row> {
    if frames == [] then [] else AllRows(frames[..|frames| - 1]) + frames[|frames| - 1].rows
  }

  /** `cols` followed by those of `more` that are new, in order of first
      appearance. */
  function AddNew(cols: seq<string>, more: seq<string>): (r: seq<string>)
    ensures forall c :: c in r <==> c in cols || c in more
    ensures |cols| <= |r| && r[..|cols|] == cols
    ensures Distinct(cols) ==> Distinct(r)
    decreases |more|
  {
    if more == [] then cols
    else if more[0] in cols then AddNew(cols, more[1..])
    else
      var r := AddNew(cols + [more[0]], more[1..]);
      assert r[..|cols|] == (r[..|cols| + 1])[..|cols|];
      r
  }

  /** The column index of `pd.concat`: every column of every frame, in order
      of first appearance. */
  function UnionColumns(frames: seq<Table>): (r: seq<string>)
    ensures forall c :: c in r <==> exists i :: 0 <= i < |frames| && c in frames[i].columns
    ensures Distinct(r)
  {
    if frames == [] then []
    else
      var init := frames[..|frames| - 1];
      var r := AddNew(UnionColumns(init), frames[|frames| - 1].columns);
      assert forall i :: 0 <= i < |init| ==> init[i] == frames[i];
      r
  }

  /** A row of a frame with columns `cols`, re-indexed onto `target`;
      a column the frame lacks becomes `None`. */
  function Realign(cols: seq<string>, row: Row, target: seq<string>): (r: Row)
    ensures |r| == |target|
    ensures forall j :: 0 <= j < |target| ==> r[j] == Get(cols, row, target[j])
  {
    seq(|target|, j requires 0 <= j < |target| => Get(cols, row, target[j]))
  }

  function RealignRows(cols: seq<string>, rows: seq<Row>, target: seq<string>): (r: seq<Row>)
    ensures |r| == |rows|
    ensures forall k :: 0 <= k < |rows| ==> r[k] == Realign(cols, rows[k], target)
  {
    seq(|rows|, k requires 0 <= k < |rows| => Realign(cols, rows[k], target))
  }

  /** In a realigned row, a target column holds the value the row had
      under that name. */
  lemma RealignRowsValue(cols: seq<string>, rows: seq<Row>, target: seq<string>, k: nat, c: string)
    requires k < |rows| && c in target
    ensures Get(target, RealignRows(cols, rows, target)[k], c) == Get(cols, rows[k], c)
  {
    var j := IndexOf(target, c);
    assert RealignRows(cols, rows, target)[k][j] == Get(cols, rows[k], target[j]);
  }

  function ConcatRowsOnto(frames: seq<Table>, target: seq<string>): seq<Row> {
    if frames == [] then []
    else
      var last := frames[|frames| - 1];
      ConcatRowsOnto(frames[..|frames| - 1], target) + RealignRows(last.columns, last.rows, target)
  }

  /** `pd.concat(frames, ignore_index=True)`: the union of the columns, and
      every row of every frame in order, aligned on that union. */
  function Concat(frames: seq<Table>): (r: Table)
    ensures forall c :: c in r.columns <==> exists i :: 0 <= i < |frames| && c in frames[i].columns
    ensures r.columns == UnionColumns(frames) && Distinct(r.columns)
    ensures |r.rows| == |AllRows(frames)|
  {
    var u := UnionColumns(frames);
    ConcatLength(frames, u);
    Table(u, ConcatRowsOnto(frames, u))
  }

  lemma {:induction false} ConcatLength(frames: seq<Table>, target: seq<string>)
    ensures |ConcatRowsOnto(frames, target)| == |AllRows(frames)|
    decreases |frames|
  {
    if frames != [] {
      ConcatLength(frames[..|frames| - 1], target);
    }
  }

  lemma RealignSame(cols: seq<string>, row: Row)
    requires Distinct(cols) && |row| == |cols|
    ensures Realign(cols, row, cols) == row
  {
    var r := Realign(cols, row, cols);
    forall j | 0 <= j < |cols| ensures r[j] == row[j] {
      var k := IndexOf(cols, cols[j]);
      assert k == j;
    }
  }

  lemma {:induction false} UnionOfSame(frames: seq<Table>, cols: seq<string>)
    requires |frames| > 0 && Distinct(cols)
    requires forall i :: 0 <= i < |frames| ==> frames[i].columns == cols
    ensures UnionColumns(frames) == cols
    decreases |frames|
  {
    var init := frames[..|frames| - 1];
    if init == [] {
      assert UnionColumns(init) == [];
      AddNewAll([], cols);
    } else {
      UnionOfSame(init, cols);
      AddNewNothing(cols, cols);
    }
  }

  lemma {:induction false} AddNewNothing(cols: seq<string>, more: seq<string>)
    requires forall c :: c in more ==> c in cols
    ensures AddNew(cols, more) == cols
    decreases |more|
  {
    if more != [] {
      AddNewNothing(cols, more[1..]);
    }
  }

  lemma {:induction false} AddNewAll(cols: seq<string>, more: seq<string>)
    requires Distinct(cols + more)
    ensures AddNew(cols, more) == cols + more
    decreases |more|
  {
    if more != [] {
      assert more[0] !in cols by {
        assert (cols + more)[|cols|] == more[0];
        assert forall q :: 0 <= q < |cols| ==> (cols + more)[q] == cols[q];
      }
      assert (cols + [more[0]]) + more[1..] == cols + more;
      AddNewAll(cols + [more[0]], more[1..]);
    }
  }

  /** The names not among `cols`. */
  function Outside(cols: seq<string>): string -> bool {
    c => c !in cols
  }

  lemma DistinctTail<T>(s: seq<T>)
    requires |s| > 0 && Distinct(s)
    ensures Distinct(s[1..]) && s[0] !in s[1..]
  {
    var rest := s[1..];
    forall i, j | 0 <= i < j < |rest| ensures rest[i] != rest[j] {
      assert rest[i] == s[i + 1] && rest[j] == s[j + 1];
    }
    forall j | 0 <= j < |rest| ensures rest[j] != s[0] {
      assert rest[j] == s[j + 1];
    }
  }

  lemma FilterCons<T(!new)>(s: seq<T>, p: T -> bool)
    requires |s| > 0
    ensures Filter(s, p) == (if p(s[0]) then [s[0]] else []) + Filter(s[1..], p)
  {
  }

  /** Without repeated names in `more`, `AddNew` appends exactly the names
      of `more` not already in `cols`, in the order of `more`. */
  lemma {:induction false} AddNewFilter(cols: seq<string>, more: seq<string>)
    requires Distinct(more)
    ensures AddNew(cols, more) == cols + Filter(more, Outside(cols))
    decreases |more|
  {
    if more == [] {
      assert cols + [] == cols;
    } else {
      DistinctTail(more);
      if more[0] in cols {
        AddNewFilter(cols, more[1..]);
        AddNewSkipStep(cols, more);
      } else {
        AddNewFilter(cols + [more[0]], more[1..]);
        AddNewKeepStep(cols, more);
      }
    }
  }

  lemma AddNewSkipStep(cols: seq<string>, more: seq<string>)
    requires |more| > 0 && more[0] in cols
    requires AddNew(cols, more[1..]) == cols + Filter(more[1..], Outside(cols))
    ensures AddNew(cols, more) == cols + Filter(more, Outside(cols))
  {
    FilterCons(more, Outside(cols));
    assert [] + Filter(more[1..], Outside(cols)) == Filter(more[1..], Outside(cols));
  }

  lemma AddNewKeepStep(cols: seq<string>, more: seq<string>)
    requires |more| > 0 && more[0] !in cols && more[0] !in more[1..]
    requires AddNew(cols + [more[0]], more[1..]) == (cols + [more[0]]) + Filter(more[1..], Outside(cols + [more[0]]))
    ensures AddNew(cols, more) == cols + Filter(more, Outside(cols))
  {
    var m, rest := more[0], more[1..];
    var kept := Filter(rest, Outside(cols));
    assert AddNew(cols, more) == AddNew(cols + [m], rest);
    assert Filter(more, Outside(cols)) == [m] + kept by {
      FilterCons(more, Outside(cols));
    }
    assert Filter(rest, Outside(cols + [m])) == kept by {
      FilterOutsideSnoc(rest, cols, m);
    }
    SnocAssoc(cols, m, kept);
  }

  lemma SnocAssoc<T>(a: seq<T>, x: T, b: seq<T>)
    ensures (a + [x]) + b == a + ([x] + b)
  {
  }

  /** A name that does not occur in `s` does not change which names of `s`
      are outside. */
  lemma {:induction false} FilterOutsideSnoc(s: seq<string>, cols: seq<string>, m: string)
    requires m !in s
    ensures Filter(s, Outside(cols + [m])) == Filter(s, Outside(cols))
  {
    if s != [] {
      assert s[0] != m && m !in s[1..];
      assert s[0] in cols + [m] <==> s[0] in cols;
      FilterCons(s, Outside(cols + [m]));
      FilterCons(s, Outside(cols));
      FilterOutsideSnoc(s[1..], cols, m);
    }
  }

  /** The column index of `pd.concat` grows in order of first appearance:
      adding a frame appends its new columns, in its own order. */
  lemma UnionColumnsSnoc(frames: seq<Table>, f: Table)
    requires Distinct(f.columns)
    ensures UnionColumns(frames + [f]) == UnionColumns(frames) + Filter(f.columns, Outside(UnionColumns(frames)))
  {
    assert (frames + [f])[..|frames|] == frames;
    AddNewFilter(UnionColumns(frames), f.columns);
  }

  lemma {:induction false} ConcatRowsOntoAt(frames: seq<Table>, target: seq<string>, i: nat, j: nat)
    requires i < |frames| && j < |frames[i].rows|
    ensures |AllRows(frames[..i])| + j < |AllRows(frames)| == |ConcatRowsOnto(frames, target)|
    ensures AllRows(frames)[|AllRows(frames[..i])| + j] == frames[i].rows[j]
    ensures ConcatRowsOnto(frames, target)[|AllRows(frames[..i])| + j]
         == Realign(frames[i].columns, frames[i].rows[j], target)
    decreases |frames|
  {
    var init := frames[..|frames| - 1];
    ConcatLength(frames, target);
    ConcatLength(init, target);
    if i == |frames| - 1 {
      assert frames[..i] == init;
    } else {
      assert init[..i] == frames[..i];
      assert init[i] == frames[i];
      ConcatRowsOntoAt(init, target, i, j);
    }
  }

  /** Row `j` of frame `i` sits in `pd.concat`'s result after the rows of
      the frames before it, realigned onto the union of the columns: its
      own values under its own names, `None` under the others. */
  lemma ConcatRowAt(frames: seq<Table>, i: nat, j: nat)
    requires i < |frames| && j < |frames[i].rows|
    ensures var k := |AllRows(frames[..i])| + j;
      k < |Concat(frames).rows|
      && Concat(frames).rows[k] == Realign(frames[i].columns, frames[i].rows[j], Concat(frames).columns)
      && AllRows(frames)[k] == frames[i].rows[j]
  {
    ConcatRowsOntoAt(frames, UnionColumns(frames), i, j);
  }

  /** When every frame has the same distinct columns and well-formed rows,
      `pd.concat` just stacks the rows. */
  lemma {:induction false} ConcatSameColumns(frames: seq<Table>, cols: seq<string>)
    requires |frames| > 0 && Distinct(cols)
    requires forall i :: 0 <= i < |frames| ==> frames[i].columns == cols && WellFormed(frames[i])
    ensures Concat(frames) == Table(cols, AllRows(frames))
  {
    UnionOfSame(frames, cols);
    ConcatRowsSame(frames, cols);
  }

  lemma {:induction false} ConcatRowsSame(frames: seq<Table>, cols: seq<string>)
    requires Distinct(cols)
    requires forall i :: 0 <= i < |frames| ==> frames[i].columns == cols && WellFormed(frames[i])
    ensures ConcatRowsOnto(frames, cols) == AllRows(frames)
    decreases |frames|
  {
    if frames != [] {
      var last := frames[|frames| - 1];
      ConcatRowsSame(frames[..|frames| - 1], cols);
      var rr := RealignRows(last.columns, last.rows, cols);
      forall k | 0 <= k < |last.rows| ensures rr[k] == last.rows[k] {
        assert last.rows[k] in last.rows;
        RealignSame(cols, last.rows[k]);
      }
    }
  }

  // ---------------------------------------------------------------------
  // The output file
  // ---------------------------------------------------------------------

  /** One line of a CSV file written by `DataFrame.to_csv`. */
  datatype Record = Header(names: seq<string>) | Data(cells: Row)

  function DataRecords(rows: seq<Row>): (r: seq<Record>)
    ensures |r| == |rows|
    ensures forall k :: 0 <= k < |rows| ==> r[k] == Data(rows[k])
  {
    seq(|rows|, k requires 0 <= k < |rows| => Data(rows[k]))
  }

  lemma DataRecordsAppend(a: seq<Row>, b: seq<Row>)
    ensures DataRecords(a + b) == DataRecords(a) + DataRecords(b)
  {
  }

  /** Number of header lines in a file. */
  function HeaderCount(file: seq<Record>): nat {
    if file == [] then 0 else HeaderCount(file[..|file| - 1]) + (if file[|file| - 1].Header? then 1 else 0)
  }

  lemma {:induction false} HeaderCountAppend(a: seq<Record>, b: seq<Record>)
    ensures HeaderCount(a + b) == HeaderCount(a) + HeaderCount(b)
    decreases |b|
  {
    if b != [] {
      assert (a + b)[..|a + b| - 1] == a + b[..|b| - 1];
      assert (a + b)[|a + b| - 1] == b[|b| - 1];
      HeaderCountAppend(a, b[..|b| - 1]);
    } else {
      assert a + b == a;
    }
  }

  lemma {:induction false} NoHeaderInData(rows: seq<Row>)
    ensures HeaderCount(DataRecords(rows)) == 0
    decreases |rows|
  {
    if rows != [] {
      assert DataRecords(rows)[..|rows| - 1] == DataRecords(rows[..|rows| - 1]);
      NoHeaderInData(rows[..|rows| - 1]);
    }
  }
}
