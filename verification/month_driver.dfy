/** `process_month`, `append_write` and the two month loops of `main` in
    the monthly extractor.  The network and the ZIP archive are outside the
    model: what a month's download yields is a `MonthSource`, and the
    download itself is the parameter `fetch`. */
module MonthDriver {
  import opened Tables
  import opened Schema
  import opened Stages

  /** What `process_month` finds for one month before parsing. */
  datatype MonthSource =
    | NotFound          // no URL answered for the month
    | EmptyDownload     // the download gave no bytes
    | NoCsvInZip        // the archive holds no `.csv` member
    | Csv(table: Table) // the parsed CSV (every cell read as a string)

  /** The exceptions `process_month` lets escape, which `main` catches. */
  datatype MonthError =
    | Extract(cause: ExtractError)    // `keep_aa`'s `KeyError`
    | InvalidChunksize(chunksize: int) // `read_csv` refuses a negative chunksize

  // ---------------------------------------------------------------------
  // `process_month`
  // ---------------------------------------------------------------------

  /** What `process_month` returns: the unchunked pipeline's output, or an
      empty frame in place of an empty output.  A chunksize of zero reads
      the file whole, as `if chunksize:` does. */
  function MonthSpec(src: MonthSource, useMarketing: bool, chunksize: int, includeTerritories: bool): Result<Table, MonthError> {
    match src
    case Csv(t) =>
      if chunksize < 0 then Failure(InvalidChunksize(chunksize))
      else Outcome(ProcessTable(t, useMarketing, includeTerritories))
    case _ => Success(EmptyTable)
  }

  /** The month's result for the pipeline's result: its error, or its
      frame with an empty frame standing for one without rows. */
  function Outcome(p: Result<Table, ExtractError>): Result<Table, MonthError> {
    match p
    case Failure(e) => Failure(Extract(e))
    case Success(r) => Success(if IsEmpty(r) then EmptyTable else r)
  }

  /** The non-empty chunk outputs collected so far: each has the output
      columns of the header, and rows. */
  ghost predicate PartsShape(parts: seq<Table>, out: seq<string>) {
    forall j :: 0 <= j < |parts| ==> parts[j].columns == out && !IsEmpty(parts[j]) && WellFormed(parts[j])
  }

  lemma EmptyAppend<T>(a: seq<T>)
    ensures [] + a == a
  {
  }

  lemma AppendEmpty<T>(a: seq<T>)
    ensures a + [] == a
  {
  }

  lemma ConsAssoc<T>(x: T, a: seq<T>, b: seq<T>)
    ensures ([x] + a) + b == [x] + (a + b)
  {
  }

  lemma PartsShapeSnoc(parts: seq<Table>, v: Table, out: seq<string>)
    requires PartsShape(parts, out) && v.columns == out && !IsEmpty(v) && WellFormed(v)
    ensures PartsShape(parts + [v], out)
  {
    assert forall j :: 0 <= j < |parts| ==> (parts + [v])[j] == parts[j];
  }

  /** Non-empty parts with the same distinct columns concatenate to those
      columns over all their rows, of which there is at least one. */
  lemma ConcatParts(parts: seq<Table>, out: seq<string>)
    requires parts != [] && PartsShape(parts, out) && Distinct(out)
    ensures Concat(parts) == Table(out, AllRows(parts))
    ensures out != [] && AllRows(parts) != []
  {
    ConcatSameColumns(parts, out);
    assert |AllRows(parts)| >= |parts[|parts| - 1].rows|;
  }

  lemma AllRowsSnoc(parts: seq<Table>, p: Table)
    ensures AllRows(parts + [p]) == AllRows(parts) + p.rows
  {
    assert (parts + [p])[..|parts|] == parts;
  }

  /** What the chunk loop has gathered after the blocks whose rows are
      `done`: non-empty outputs with the header's output columns, holding
      the pipeline's output for `done`. */
  ghost predicate Gathered(cols: seq<string>, done: seq<Row>, parts: seq<Table>, useMarketing: bool, includeTerritories: bool) {
    PartsShape(parts, PresentOutputCols(StandardColumns(cols)))
    && AllRows(parts) == ExtractRows(cols, done, useMarketing, includeTerritories)
  }

  /** An empty output adds nothing to what was gathered. */
  lemma GatherEmpty(cols: seq<string>, done: seq<Row>, chunk: seq<Row>, parts: seq<Table>, useMarketing: bool, includeTerritories: bool)
    requires AllRows(parts) == ExtractRows(cols, done, useMarketing, includeTerritories)
    requires ProcessTable(Table(cols, chunk), useMarketing, includeTerritories).Success?
    requires IsEmpty(ProcessTable(Table(cols, chunk), useMarketing, includeTerritories).value)
    ensures AllRows(parts) == ExtractRows(cols, done + chunk, useMarketing, includeTerritories)
  {
    ChunkOutput(cols, chunk, useMarketing, includeTerritories);
    ExtractRowsAppend(cols, done, chunk, useMarketing, includeTerritories);
    ExtractRowsFormula(cols, chunk, useMarketing, includeTerritories);
    AppendEmpty(AllRows(parts));
  }

  /** A non-empty output is appended to what was gathered. */
  lemma GatherNonEmpty(cols: seq<string>, done: seq<Row>, chunk: seq<Row>, parts: seq<Table>, useMarketing: bool, includeTerritories: bool)
    requires AllRows(parts) == ExtractRows(cols, done, useMarketing, includeTerritories)
    requires PartsShape(parts, PresentOutputCols(StandardColumns(cols)))
    requires ProcessTable(Table(cols, chunk), useMarketing, includeTerritories).Success?
    requires !IsEmpty(ProcessTable(Table(cols, chunk), useMarketing, includeTerritories).value)
    ensures var v := ProcessTable(Table(cols, chunk), useMarketing, includeTerritories).value;
      AllRows(parts + [v]) == ExtractRows(cols, done + chunk, useMarketing, includeTerritories)
      && PartsShape(parts + [v], PresentOutputCols(StandardColumns(cols)))
  {
    var v := ProcessTable(Table(cols, chunk), useMarketing, includeTerritories).value;
    ChunkOutput(cols, chunk, useMarketing, includeTerritories);
    ExtractRowsAppend(cols, done, chunk, useMarketing, includeTerritories);
    AllRowsSnoc(parts, v);
    PartsShapeSnoc(parts, v, PresentOutputCols(StandardColumns(cols)));
  }

  /** One turn of the chunk loop keeps `Gathered`. */
  lemma GatherChunk(cols: seq<string>, done: seq<Row>, chunk: seq<Row>, parts: seq<Table>, useMarketing: bool, includeTerritories: bool)
    requires Gathered(cols, done, parts, useMarketing, includeTerritories)
    requires ProcessTable(Table(cols, chunk), useMarketing, includeTerritories).Success?
    ensures var v := ProcessTable(Table(cols, chunk), useMarketing, includeTerritories).value;
      Gathered(cols, done + chunk, if IsEmpty(v) then parts else parts + [v], useMarketing, includeTerritories)
  {
    var v := ProcessTable(Table(cols, chunk), useMarketing, includeTerritories).value;
    if IsEmpty(v) {
      GatherEmpty(cols, done, chunk, parts, useMarketing, includeTerritories);
    } else {
      GatherNonEmpty(cols, done, chunk, parts, useMarketing, includeTerritories);
    }
  }

  /** With a usable chunksize, a month with a CSV gets the outcome of
      the single-pass pipeline. */
  lemma MonthOf(cols: seq<string>, rows: seq<Row>, useMarketing: bool, chunksize: int, includeTerritories: bool)
    requires chunksize >= 0
    ensures MonthSpec(Csv(Table(cols, rows)), useMarketing, chunksize, includeTerritories)
      == Outcome(ProcessTable(Table(cols, rows), useMarketing, includeTerritories))
  {
  }

  /** Once every row is gathered, the concatenation of the parts is what
      the unchunked pipeline returns. */
  lemma GatheredAll(cols: seq<string>, rows: seq<Row>, parts: seq<Table>, useMarketing: bool, chunksize: int, includeTerritories: bool)
    requires chunksize >= 0
    requires ProcessTable(Table(cols, rows), useMarketing, includeTerritories).Success?
    requires Gathered(cols, rows, parts, useMarketing, includeTerritories)
    ensures MonthSpec(Csv(Table(cols, rows)), useMarketing, chunksize, includeTerritories)
      == Success(if parts == [] then EmptyTable else Concat(parts))
  {
    MonthOf(cols, rows, useMarketing, chunksize, includeTerritories);
    var v := ProcessTable(Table(cols, rows), useMarketing, includeTerritories).value;
    ChunkOutput(cols, rows, useMarketing, includeTerritories);
    if parts != [] {
      var out := PresentOutputCols(StandardColumns(cols));
      PresentOutputColsMembers(StandardColumns(cols));
      ConcatParts(parts, out);
    }
  }

  /** Nothing is gathered before the first block. */
  lemma GatheredNothing(cols: seq<string>, useMarketing: bool, includeTerritories: bool)
    ensures Gathered(cols, [], [], useMarketing, includeTerritories)
  {
    ExtractRowsFormula(cols, [], useMarketing, includeTerritories);
  }

  /** Without chunking, the single output (when non-empty) is all that is
      gathered. */
  lemma SinglePass(cols: seq<string>, rows: seq<Row>, useMarketing: bool, includeTerritories: bool)
    requires ProcessTable(Table(cols, rows), useMarketing, includeTerritories).Success?
    ensures var v := ProcessTable(Table(cols, rows), useMarketing, includeTerritories).value;
      Gathered(cols, rows, if IsEmpty(v) then [] else [v], useMarketing, includeTerritories)
  {
    GatheredNothing(cols, useMarketing, includeTerritories);
    GatherChunk(cols, [], rows, [], useMarketing, includeTerritories);
    EmptyAppend(rows);
  }

  /** The chunk loop of `process_month`: run the pipeline block by block,
      keeping the non-empty outputs; the first failing block ends the
      loop with its error. */
  method FilterChunks(cols: seq<string>, rows: seq<Row>, chunksize: nat, useMarketing: bool, includeTerritories: bool)
    returns (parts: seq<Table>, failure: Option<ExtractError>)
    requires chunksize > 0
    ensures failure.Some? <==> ProcessTable(Table(cols, rows), useMarketing, includeTerritories).Failure?
    ensures failure.Some? ==> failure.value == ProcessTable(Table(cols, rows), useMarketing, includeTerritories).error
    ensures failure.None? ==> Gathered(cols, rows, parts, useMarketing, includeTerritories)
  {
    parts := [];
    GatheredNothing(cols, useMarketing, includeTerritories);
    var chunks := Chunks(rows, chunksize);
    var i := 0;
    assert chunks[..i] == [];
    while i < |chunks|
      invariant 0 <= i <= |chunks|
      invariant i > 0 ==> ProcessTable(Table(cols, rows), useMarketing, includeTerritories).Success?
      invariant Gathered(cols, Flatten(chunks[..i]), parts, useMarketing, includeTerritories)
    {
      var res := ProcessTable(Table(cols, chunks[i]), useMarketing, includeTerritories);
      ProcessTableHeaderOnly(cols, chunks[i], rows, useMarketing, includeTerritories);
      if res.Failure? {
        return parts, Some(res.error);
      }
      GatherChunk(cols, Flatten(chunks[..i]), chunks[i], parts, useMarketing, includeTerritories);
      FlattenSnoc(chunks, i);
      if !IsEmpty(res.value) {
        parts := parts + [res.value];
      }
      i := i + 1;
    }
    FlattenWhole(chunks, i);
    return parts, None;
  }

  /** `process_month`: the months without a CSV give an empty frame; the
      others run the chunk loop (or a single pass when the chunksize is
      zero) and concatenate the non-empty outputs.  Chunking is invisible
      in the result. */
  method ProcessMonth(src: MonthSource, useMarketing: bool, chunksize: int, includeTerritories: bool)
    returns (r: Result<Table, MonthError>)
    ensures r == MonthSpec(src, useMarketing, chunksize, includeTerritories)
  {
    if !src.Csv? {
      return Success(EmptyTable);
    }
    var Csv(Table(cols, rows)) := src;
    if chunksize < 0 {
      return Failure(InvalidChunksize(chunksize));
    }
    var parts: seq<Table>;
    if chunksize != 0 {
      var failure;
      parts, failure := FilterChunks(cols, rows, chunksize, useMarketing, includeTerritories);
      if failure.Some? {
        MonthOf(cols, rows, useMarketing, chunksize, includeTerritories);
        return Failure(Extract(failure.value));
      }
    } else {
      var res := ProcessTable(Table(cols, rows), useMarketing, includeTerritories);
      if res.Failure? {
        MonthOf(cols, rows, useMarketing, chunksize, includeTerritories);
        return Failure(Extract(res.error));
      }
      SinglePass(cols, rows, useMarketing, includeTerritories);
      parts := if IsEmpty(res.value) then [] else [res.value];
    }
    GatheredAll(cols, rows, parts, useMarketing, chunksize, includeTerritories);
    if parts == [] {
      return Success(EmptyTable);
    }
    return Success(Concat(parts));
  }

  /** The output of the pipeline on one block: its columns are the output
      columns of the header, it is well formed, and its rows are
      `ExtractRows`. */
  lemma ChunkOutput(cols: seq<string>, rows: seq<Row>, useMarketing: bool, includeTerritories: bool)
    requires ProcessTable(Table(cols, rows), useMarketing, includeTerritories).Success?
    ensures var r := ProcessTable(Table(cols, rows), useMarketing, includeTerritories).value;
      r.columns == PresentOutputCols(StandardColumns(cols))
      && WellFormed(r)
      && r.rows == ExtractRows(cols, rows, useMarketing, includeTerritories)
  {
    var t := Table(cols, rows);
    assert Standardize(t).columns == StandardColumns(cols);
    ProcessTableFailure(t, useMarketing, includeTerritories);
    ProcessTableRows(t, useMarketing, includeTerritories);
  }

  /** A month's result is a failure, the empty frame, or a non-empty
      frame with distinct columns and one cell per column in every row. */
  ghost predicate Shaped(r: Result<Table, MonthError>) {
    r.Success? ==> r.value == EmptyTable || (!IsEmpty(r.value) && Distinct(r.value.columns) && WellFormed(r.value))
  }

  /** The frame the unchunked pipeline keeps for a month is `Shaped`. */
  lemma OutputShaped(cols: seq<string>, rows: seq<Row>, useMarketing: bool, includeTerritories: bool)
    ensures Shaped(Outcome(ProcessTable(Table(cols, rows), useMarketing, includeTerritories)))
  {
    if ProcessTable(Table(cols, rows), useMarketing, includeTerritories).Success? {
      ChunkOutput(cols, rows, useMarketing, includeTerritories);
      PresentOutputColsMembers(StandardColumns(cols));
    }
  }

  lemma MonthShape(src: MonthSource, useMarketing: bool, chunksize: int, includeTerritories: bool)
    ensures Shaped(MonthSpec(src, useMarketing, chunksize, includeTerritories))
  {
    match src
    case Csv(Table(cols, rows)) =>
      if chunksize >= 0 {
        MonthOf(cols, rows, useMarketing, chunksize, includeTerritories);
        OutputShaped(cols, rows, useMarketing, includeTerritories);
      }
    case _ =>
  }

  // ---------------------------------------------------------------------
  // The months `main` visits
  // ---------------------------------------------------------------------

  /** The results of months `1..n` of `year`. */
  function YearResults(year: int, n: nat, fetch: (int, int) -> MonthSource, useMarketing: bool, chunksize: int, includeTerritories: bool): (r: seq<Result<Table, MonthError>>)
    ensures |r| == n
    ensures forall m :: 1 <= m <= n ==> r[m - 1] == MonthSpec(fetch(year, m), useMarketing, chunksize, includeTerritories)
  {
    Upto(n, m => MonthSpec(fetch(year, m), useMarketing, chunksize, includeTerritories))
  }

  /** `[f(1), ..., f(n)]`. */
  function Upto<T>(n: nat, f: int -> T): (r: seq<T>)
    ensures |r| == n
    ensures forall i :: 0 <= i < n ==> r[i] == f(i + 1)
  {
    if n == 0 then [] else Upto(n - 1, f) + [f(n)]
  }


  /** The results of every month of every year, year by year, January to
      December. */
  function MonthResults(years: seq<int>, fetch: (int, int) -> MonthSource, useMarketing: bool, chunksize: int, includeTerritories: bool): (r: seq<Result<Table, MonthError>>)
    ensures |r| == 12 * |years|
  {
    if years == [] then []
    else
      var earlier := MonthResults(years[..|years| - 1], fetch, useMarketing, chunksize, includeTerritories);
      earlier + YearResults(years[|years| - 1], 12, fetch, useMarketing, chunksize, includeTerritories)
  }

  /** The frames `main` keeps: the non-empty results of the months that
      raised nothing, in month order. */
  function Collected(results: seq<Result<Table, MonthError>>): (frames: seq<Table>)
    ensures forall f :: f in frames ==> !IsEmpty(f)
    ensures |frames| <= |results|
  {
    if results == [] then []
    else
      var last := results[|results| - 1];
      Collected(results[..|results| - 1]) + (if last.Success? && !IsEmpty(last.value) then [last.value] else [])
  }

  lemma CollectedSnoc(results: seq<Result<Table, MonthError>>, r: Result<Table, MonthError>)
    ensures Collected(results + [r]) == Collected(results) + (if r.Success? && !IsEmpty(r.value) then [r.value] else [])
  {
    assert (results + [r])[..|results|] == results;
  }

  lemma {:induction false} CollectedAppend(a: seq<Result<Table, MonthError>>, b: seq<Result<Table, MonthError>>)
    ensures Collected(a + b) == Collected(a) + Collected(b)
    decreases |b|
  {
    if b == [] {
      assert a + b == a;
    } else {
      var b' := b[..|b| - 1];
      assert a + b == (a + b') + [b[|b| - 1]];
      CollectedAppend(a, b');
      CollectedSnoc(a + b', b[|b| - 1]);
      CollectedSnoc(b', b[|b| - 1]);
      assert b' + [b[|b| - 1]] == b;
    }
  }

  // ---------------------------------------------------------------------
  // Append mode: `append_write` month by month
  // ---------------------------------------------------------------------

  /** `to_csv(path, index=False)`: a header line, then one line per row. */
  function CsvRecords(t: Table): (file: seq<Record>)
    ensures |file| == |t.rows| + 1 && file[0] == Header(t.columns)
    ensures HeaderCount(file) == 1
  {
    NoHeaderInData(t.rows);
    HeaderCountAppend([Header(t.columns)], DataRecords(t.rows));
    [Header(t.columns)] + DataRecords(t.rows)
  }

  /** `append_write(df, out_path, header_written)`: the file grows by the
      rows of a non-empty frame, preceded by its header only when no header
      has been written; the flag records whether one has. */
  function AppendWrite(file: seq<Record>, t: Table, headerWritten: bool): (r: (seq<Record>, bool))
    ensures r.1 == (headerWritten || !IsEmpty(t))
    ensures |file| <= |r.0| && r.0[..|file|] == file
    ensures IsEmpty(t) ==> r.0 == file
    ensures !IsEmpty(t) ==> |t.rows| <= |r.0| && r.0[|r.0| - |t.rows|..] == DataRecords(t.rows)
    ensures HeaderCount(r.0) == HeaderCount(file) + (if !headerWritten && !IsEmpty(t) then 1 else 0)
    ensures !IsEmpty(t) ==>
      r.0 == file + (if headerWritten then [] else [Header(t.columns)]) + DataRecords(t.rows)
  {
    if IsEmpty(t) then (file, headerWritten)
    else
      var head := if headerWritten then [] else [Header(t.columns)];
      var rows := DataRecords(t.rows);
      NoHeaderInData(t.rows);
      HeaderCountAppend(file, head);
      HeaderCountAppend(file + head, rows);
      assert (file + head + rows)[..|file|] == file;
      assert (file + head + rows)[|file + head|..] == rows;
      (file + head + rows, true)
  }

  /** The file append mode leaves: the first kept month's header, then the
      rows of every kept month in order. */
  function AppendedFile(frames: seq<Table>): seq<Record> {
    if frames == [] then [] else [Header(frames[0].columns)] + DataRecords(AllRows(frames))
  }

  lemma AppendedFileSnoc(frames: seq<Table>, t: Table, file: seq<Record>)
    requires !IsEmpty(t) && file == AppendedFile(frames)
    ensures AppendWrite(file, t, frames != []).0 == AppendedFile(frames + [t])
  {
    AllRowsSnoc(frames, t);
    DataRecordsAppend(AllRows(frames), t.rows);
    if frames == [] {
      assert AllRows([] + [t]) == t.rows;
      EmptyAppend([Header(t.columns)] + DataRecords(t.rows));
    } else {
      var d1, d2 := DataRecords(AllRows(frames)), DataRecords(t.rows);
      EmptyAppend(d2);
      assert (frames + [t])[0] == frames[0];
      ConsAssoc(Header(frames[0].columns), d1, d2);
    }
  }

  /** The file of append mode holds at most one header, and holds one
      exactly when some month was kept, as its first line. */
  lemma AppendedFileHeaders(frames: seq<Table>)
    ensures HeaderCount(AppendedFile(frames)) == if frames == [] then 0 else 1
    ensures frames != [] ==> AppendedFile(frames)[0] == Header(frames[0].columns)
  {
    if frames != [] {
      NoHeaderInData(AllRows(frames));
      HeaderCountAppend([Header(frames[0].columns)], DataRecords(AllRows(frames)));
    }
  }

  /** One month of append mode: a failing or empty month changes nothing,
      a non-empty one is appended by `append_write`. */
  lemma AppendStep(before: seq<Result<Table, MonthError>>, res: Result<Table, MonthError>, file: seq<Record>, headerWritten: bool)
    requires file == AppendedFile(Collected(before)) && headerWritten == (Collected(before) != [])
    ensures var w := if res.Success? then AppendWrite(file, res.value, headerWritten) else (file, headerWritten);
      w.0 == AppendedFile(Collected(before + [res])) && w.1 == (Collected(before + [res]) != [])
  {
    CollectedSnoc(before, res);
    if res.Success? && !IsEmpty(res.value) {
      AppendedFileSnoc(Collected(before), res.value, file);
    } else {
      AppendEmpty(Collected(before));
    }
  }

  /** The months of one more year follow those of the earlier years. */
  lemma MonthResultsSnoc(years: seq<int>, yi: nat, fetch: (int, int) -> MonthSource, useMarketing: bool, chunksize: int, includeTerritories: bool)
    requires yi < |years|
    ensures MonthResults(years[..yi + 1], fetch, useMarketing, chunksize, includeTerritories)
      == MonthResults(years[..yi], fetch, useMarketing, chunksize, includeTerritories)
         + YearResults(years[yi], 12, fetch, useMarketing, chunksize, includeTerritories)
  {
    assert years[..yi + 1][..yi] == years[..yi];
  }

  /** One more month of the current year. */
  lemma YearResultsSnoc(done: seq<Result<Table, MonthError>>, year: int, m: nat, fetch: (int, int) -> MonthSource, useMarketing: bool, chunksize: int, includeTerritories: bool)
    requires m >= 1
    ensures done + YearResults(year, m, fetch, useMarketing, chunksize, includeTerritories)
      == (done + YearResults(year, m - 1, fetch, useMarketing, chunksize, includeTerritories))
         + [MonthSpec(fetch(year, m), useMarketing, chunksize, includeTerritories)]
  {
  }

  lemma MonthResultsWhole(years: seq<int>, fetch: (int, int) -> MonthSource, useMarketing: bool, chunksize: int, includeTerritories: bool)
    ensures MonthResults(years[..|years|], fetch, useMarketing, chunksize, includeTerritories)
      == MonthResults(years, fetch, useMarketing, chunksize, includeTerritories)
  {
    assert years[..|years|] == years;
  }

  lemma YearStart(done: seq<Result<Table, MonthError>>, year: int, fetch: (int, int) -> MonthSource, useMarketing: bool, chunksize: int, includeTerritories: bool)
    ensures done + YearResults(year, 0, fetch, useMarketing, chunksize, includeTerritories) == done
  {
    AppendEmpty(done);
  }

  /** One month of `main` with `--append_out`: process it and append a
      non-empty frame; a month that raises leaves the file alone. */
  method AppendMonth(src: MonthSource, useMarketing: bool, chunksize: int, includeTerritories: bool,
                     file0: seq<Record>, headerWritten0: bool, ghost before: seq<Result<Table, MonthError>>)
    returns (file: seq<Record>, headerWritten: bool)
    requires file0 == AppendedFile(Collected(before)) && headerWritten0 == (Collected(before) != [])
    ensures var results := before + [MonthSpec(src, useMarketing, chunksize, includeTerritories)];
      file == AppendedFile(Collected(results)) && headerWritten == (Collected(results) != [])
  {
    var res := ProcessMonth(src, useMarketing, chunksize, includeTerritories);
    AppendStep(before, res, file0, headerWritten0);
    file, headerWritten := file0, headerWritten0;
    if res.Success? {
      var w := AppendWrite(file, res.value, headerWritten);
      file, headerWritten := w.0, w.1;
    }
  }

  /** One year of `main` with `--append_out`: months 1 to 12 in order,
      each processed and appended, a month that raises skipped. */
  method AppendYear(year: int, fetch: (int, int) -> MonthSource, useMarketing: bool, chunksize: int, includeTerritories: bool,
                    file0: seq<Record>, headerWritten0: bool, ghost done: seq<Result<Table, MonthError>>)
    returns (file: seq<Record>, headerWritten: bool)
    requires file0 == AppendedFile(Collected(done)) && headerWritten0 == (Collected(done) != [])
    ensures var results := done + YearResults(year, 12, fetch, useMarketing, chunksize, includeTerritories);
      file == AppendedFile(Collected(results)) && headerWritten == (Collected(results) != [])
  {
    file, headerWritten := file0, headerWritten0;
    ghost var results := done;
    YearStart(done, year, fetch, useMarketing, chunksize, includeTerritories);
    var m := 1;
    while m <= 12
      invariant 1 <= m <= 13
      invariant results == done + YearResults(year, m - 1, fetch, useMarketing, chunksize, includeTerritories)
      invariant file == AppendedFile(Collected(results)) && headerWritten == (Collected(results) != [])
    {
      file, headerWritten := AppendMonth(fetch(year, m), useMarketing, chunksize, includeTerritories, file, headerWritten, results);
      YearResultsSnoc(done, year, m, fetch, useMarketing, chunksize, includeTerritories);
      results := results + [MonthSpec(fetch(year, m), useMarketing, chunksize, includeTerritories)];
      m := m + 1;
    }
  }

  /** The file after year `yi` is the file of the first `yi + 1` years. */
  lemma AppendedYear(years: seq<int>, yi: nat, fetch: (int, int) -> MonthSource, useMarketing: bool, chunksize: int, includeTerritories: bool,
                     file: seq<Record>, headerWritten: bool)
    requires yi < |years|
    requires var results := MonthResults(years[..yi], fetch, useMarketing, chunksize, includeTerritories)
                            + YearResults(years[yi], 12, fetch, useMarketing, chunksize, includeTerritories);
      file == AppendedFile(Collected(results)) && headerWritten == (Collected(results) != [])
    ensures var results := MonthResults(years[..yi + 1], fetch, useMarketing, chunksize, includeTerritories);
      file == AppendedFile(Collected(results)) && headerWritten == (Collected(results) != [])
  {
    MonthResultsSnoc(years, yi, fetch, useMarketing, chunksize, includeTerritories);
  }

  /** `main` with `--append_out`: truncate the output, then process and
      append every month, skipping the months that raise. */
  method RunAppend(years: seq<int>, fetch: (int, int) -> MonthSource, useMarketing: bool, chunksize: int, includeTerritories: bool)
    returns (file: seq<Record>)
    ensures file == AppendedFile(Collected(MonthResults(years, fetch, useMarketing, chunksize, includeTerritories)))
  {
    file := [];
    var headerWritten := false;
    var yi := 0;
    while yi < |years|
      invariant 0 <= yi <= |years|
      invariant var results := MonthResults(years[..yi], fetch, useMarketing, chunksize, includeTerritories);
        file == AppendedFile(Collected(results)) && headerWritten == (Collected(results) != [])
    {
      file, headerWritten := AppendYear(years[yi], fetch, useMarketing, chunksize, includeTerritories, file, headerWritten,
                                        MonthResults(years[..yi], fetch, useMarketing, chunksize, includeTerritories));
      AppendedYear(years, yi, fetch, useMarketing, chunksize, includeTerritories, file, headerWritten);
      yi := yi + 1;
    }
    MonthResultsWhole(years, fetch, useMarketing, chunksize, includeTerritories);
  }

  // ---------------------------------------------------------------------
  // Collect mode
  // ---------------------------------------------------------------------

  /** One month of `main` without `--append_out`: process it and keep a
      non-empty frame; a month that raises is skipped. */
  method CollectMonth(src: MonthSource, useMarketing: bool, chunksize: int, includeTerritories: bool,
                      frames0: seq<Table>, ghost before: seq<Result<Table, MonthError>>)
    returns (frames: seq<Table>)
    requires frames0 == Collected(before)
    ensures frames == Collected(before + [MonthSpec(src, useMarketing, chunksize, includeTerritories)])
  {
    var res := ProcessMonth(src, useMarketing, chunksize, includeTerritories);
    CollectedSnoc(before, res);
    if res.Success? && !IsEmpty(res.value) {
      frames := frames0 + [res.value];
    } else {
      frames := frames0;
      AppendEmpty(frames);
    }
  }

  /** One year of `main` without `--append_out`: months 1 to 12 in order,
      each non-empty frame kept, a month that raises skipped. */
  method CollectYear(year: int, fetch: (int, int) -> MonthSource, useMarketing: bool, chunksize: int, includeTerritories: bool,
                     frames0: seq<Table>, ghost done: seq<Result<Table, MonthError>>)
    returns (frames: seq<Table>)
    requires frames0 == Collected(done)
    ensures frames == Collected(done + YearResults(year, 12, fetch, useMarketing, chunksize, includeTerritories))
  {
    frames := frames0;
    ghost var results := done;
    YearStart(done, year, fetch, useMarketing, chunksize, includeTerritories);
    var m := 1;
    while m <= 12
      invariant 1 <= m <= 13
      invariant results == done + YearResults(year, m - 1, fetch, useMarketing, chunksize, includeTerritories)
      invariant frames == Collected(results)
    {
      frames := CollectMonth(fetch(year, m), useMarketing, chunksize, includeTerritories, frames, results);
      YearResultsSnoc(done, year, m, fetch, useMarketing, chunksize, includeTerritories);
      results := results + [MonthSpec(fetch(year, m), useMarketing, chunksize, includeTerritories)];
      m := m + 1;
    }
  }

  /** `main` without `--append_out`: gather every non-empty month, then
      exit with status 2 and write nothing when there is none, or write
      their concatenation. */
  method RunCollect(years: seq<int>, fetch: (int, int) -> MonthSource, useMarketing: bool, chunksize: int, includeTerritories: bool)
    returns (exitCode: int, written: Option<seq<Record>>)
    ensures var frames := Collected(MonthResults(years, fetch, useMarketing, chunksize, includeTerritories));
      if frames == [] then exitCode == 2 && written == None
      else exitCode == 0 && written == Some(CsvRecords(Concat(frames)))
  {
    var frames: seq<Table> := [];
    var yi := 0;
    while yi < |years|
      invariant 0 <= yi <= |years|
      invariant frames == Collected(MonthResults(years[..yi], fetch, useMarketing, chunksize, includeTerritories))
    {
      frames := CollectYear(years[yi], fetch, useMarketing, chunksize, includeTerritories, frames,
                            MonthResults(years[..yi], fetch, useMarketing, chunksize, includeTerritories));
      MonthResultsSnoc(years, yi, fetch, useMarketing, chunksize, includeTerritories);
      yi := yi + 1;
    }
    MonthResultsWhole(years, fetch, useMarketing, chunksize, includeTerritories);
    if frames == [] {
      return 2, None;
    }
    return 0, Some(CsvRecords(Concat(frames)));
  }

  /** Every kept frame has the columns of the first one. */
  ghost predicate SameColumns(frames: seq<Table>) {
    forall i :: 0 <= i < |frames| ==> frames[i].columns == frames[0].columns
  }

  /** When every kept month has the same columns, the two modes write the
      same file. */
  lemma AppendMatchesCollect(years: seq<int>, fetch: (int, int) -> MonthSource, useMarketing: bool, chunksize: int, includeTerritories: bool)
    requires SameColumns(Collected(MonthResults(years, fetch, useMarketing, chunksize, includeTerritories)))
    ensures var frames := Collected(MonthResults(years, fetch, useMarketing, chunksize, includeTerritories));
      frames != [] ==> AppendedFile(frames) == CsvRecords(Concat(frames))
  {
    var results := MonthResults(years, fetch, useMarketing, chunksize, includeTerritories);
    ResultsShaped(years, fetch, useMarketing, chunksize, includeTerritories);
    CollectedUniform(results);
  }

  lemma CollectedUniform(results: seq<Result<Table, MonthError>>)
    requires AllShaped(results)
    requires SameColumns(Collected(results))
    ensures var frames := Collected(results);
      frames != [] ==> AppendedFile(frames) == CsvRecords(Concat(frames))
  {
    if Collected(results) != [] {
      CollectedShape(results);
      ConcatUniform(Collected(results));
    }
  }

  /** Frames with one shared header: appending them one by one writes
      what writing their concatenation writes. */
  lemma ConcatUniform(frames: seq<Table>)
    requires frames != []
    requires SameColumns(frames)
    requires forall f :: f in frames ==> Distinct(f.columns) && WellFormed(f)
    ensures CsvRecords(Concat(frames)) == AppendedFile(frames)
  {
    assert frames[0] in frames;
    ConcatSameColumns(frames, frames[0].columns);
  }

  ghost predicate AllShaped(results: seq<Result<Table, MonthError>>) {
    forall i :: 0 <= i < |results| ==> Shaped(results[i])
  }

  lemma {:induction false} YearShaped(year: int, n: nat, fetch: (int, int) -> MonthSource, useMarketing: bool, chunksize: int, includeTerritories: bool)
    ensures AllShaped(YearResults(year, n, fetch, useMarketing, chunksize, includeTerritories))
  {
    forall i | 0 <= i < n
      ensures Shaped(YearResults(year, n, fetch, useMarketing, chunksize, includeTerritories)[i])
    {
      MonthShape(fetch(year, i + 1), useMarketing, chunksize, includeTerritories);
    }
  }

  /** Every month `main` visits gives a `Shaped` result. */
  lemma {:induction false} ResultsShaped(years: seq<int>, fetch: (int, int) -> MonthSource, useMarketing: bool, chunksize: int, includeTerritories: bool)
    ensures AllShaped(MonthResults(years, fetch, useMarketing, chunksize, includeTerritories))
  {
    if years != [] {
      ResultsShaped(years[..|years| - 1], fetch, useMarketing, chunksize, includeTerritories);
      var y := years[|years| - 1];
      YearShaped(y, 12, fetch, useMarketing, chunksize, includeTerritories);
      var a := MonthResults(years[..|years| - 1], fetch, useMarketing, chunksize, includeTerritories);
      var b := YearResults(y, 12, fetch, useMarketing, chunksize, includeTerritories);
      ShapedAppend(a, b);
    }
  }

  lemma ShapedAppend(a: seq<Result<Table, MonthError>>, b: seq<Result<Table, MonthError>>)
    requires AllShaped(a) && AllShaped(b)
    ensures AllShaped(a + b)
  {
    forall i | 0 <= i < |a + b| ensures Shaped((a + b)[i]) {
      if i < |a| {
        assert (a + b)[i] == a[i];
      } else {
        assert (a + b)[i] == b[i - |a|];
      }
    }
  }

  /** The kept frames all have distinct columns and well-formed rows. */
  lemma {:induction false} CollectedShape(results: seq<Result<Table, MonthError>>)
    requires AllShaped(results)
    ensures forall f :: f in Collected(results) ==> Distinct(f.columns) && WellFormed(f)
  {
    if results != [] {
      var init := results[..|results| - 1];
      assert forall i :: 0 <= i < |init| ==> init[i] == results[i];
      CollectedShape(init);
      assert Shaped(results[|results| - 1]);
    }
  }
}
