/** `filter_aa_by_airports.py`: keep the rows of one flight file whose
    carrier is the requested one and whose origin and destination are both
    among the requested airports.  The file system is explicit: the input
    file is an `Option<Table>` (`None` when it does not exist) and the
    output file an `Option<seq<Record>>` (`None` when absent). */
module AirportFilter {
  import opened Tables
  import opened Ascii

  /** `DEFAULT_AIRPORTS`. */
  const DefaultAirports: seq<string> := ["DFW", "LGA", "JFK", "PHL", "DCA", "CLT", "MIA", "ORD", "PHX", "LAX"]

  /** The candidate names `filter_file` tries, in order, for each role. */
  const CarrierCandidates: seq<string> := ["UNIQUE_CARRIER", "OP_UNIQUE_CARRIER", "MKT_UNIQUE_CARRIER", "REPORTING_AIRLINE", "CARRIER"]
  const OriginCandidates: seq<string> := ["ORIGIN", "ORIGIN_AIRPORT", "ORIGIN_AIRPORT_ID", "ORIGIN_AIRPORT_SEQ_ID"]
  const DestCandidates: seq<string> := ["DEST", "DEST_AIRPORT", "DEST_AIRPORT_ID", "DEST_AIRPORT_SEQ_ID"]

  // ---------------------------------------------------------------------
  // `_pick_column`
  // ---------------------------------------------------------------------

  /** Position of the first of `columns` that equals `name` once both are
      upper-cased, or -1 when there is none. */
  function FirstMatch(columns: seq<string>, name: string): (i: int)
    ensures -1 <= i < |columns|
    ensures i >= 0 ==> Upper(columns[i]) == Upper(name)
    ensures i >= 0 ==> forall j :: 0 <= j < i ==> Upper(columns[j]) != Upper(name)
    ensures i == -1 ==> forall j :: 0 <= j < |columns| ==> Upper(columns[j]) != Upper(name)
  {
    if columns == [] then -1
    else if Upper(columns[0]) == Upper(name) then 0
    else
      var i := FirstMatch(columns[1..], name);
      if i == -1 then -1 else i + 1
  }

  /** `_pick_column`: the earliest candidate present in `columns`, ignoring
      case, decides; the column returned is the first one spelled like it
      ignoring case, as the file spells it.  `None` when no candidate is
      present. */
  function PickColumn(columns: seq<string>, candidates: seq<string>): (r: Option<string>)
    ensures r.None? <==> forall k :: 0 <= k < |candidates| ==> FirstMatch(columns, candidates[k]) == -1
    ensures r.Some? ==> r.value in columns
  {
    if candidates == [] then None
    else
      var i := FirstMatch(columns, candidates[0]);
      if i >= 0 then Some(columns[i])
      else
        assert forall k :: 1 <= k < |candidates| ==> candidates[k] == candidates[1..][k - 1];
        PickColumn(columns, candidates[1..])
  }

  /** The column `PickColumn` returns is the first column matching the
      earliest candidate that matches any column. */
  lemma {:induction false} PickColumnEarliest(columns: seq<string>, candidates: seq<string>)
    ensures var r := PickColumn(columns, candidates);
      r.Some? ==> exists k :: 0 <= k < |candidates| && EarliestPresent(columns, candidates, k)
                              && r.value == columns[FirstMatch(columns, candidates[k])]
  {
    if candidates != [] && FirstMatch(columns, candidates[0]) < 0 {
      var r := PickColumn(columns, candidates[1..]);
      PickColumnEarliest(columns, candidates[1..]);
      if r.Some? {
        var k :| 0 <= k < |candidates[1..]| && EarliestPresent(columns, candidates[1..], k)
                 && r.value == columns[FirstMatch(columns, candidates[1..][k])];
        assert EarliestPresent(columns, candidates, k + 1);
      }
    } else if candidates != [] {
      assert EarliestPresent(columns, candidates, 0);
    }
  }

  /** Candidate `k` is present in `columns` and no earlier candidate is. */
  predicate EarliestPresent(columns: seq<string>, candidates: seq<string>, k: int)
    requires 0 <= k < |candidates|
  {
    FirstMatch(columns, candidates[k]) >= 0
    && forall q :: 0 <= q < k ==> FirstMatch(columns, candidates[q]) == -1
  }

  /** Two candidates that agree ignoring case pick the same column: the
      search depends on the candidates only through their upper-cased
      spelling. */
  lemma {:induction false} PickColumnIgnoresCase(columns: seq<string>, a: seq<string>, b: seq<string>)
    requires |a| == |b| && forall k :: 0 <= k < |a| ==> Upper(a[k]) == Upper(b[k])
    ensures PickColumn(columns, a) == PickColumn(columns, b)
  {
    if a != [] {
      FirstMatchIgnoresCase(columns, a[0], b[0]);
      PickColumnIgnoresCase(columns, a[1..], b[1..]);
    }
  }

  lemma {:induction false} FirstMatchIgnoresCase(columns: seq<string>, x: string, y: string)
    requires Upper(x) == Upper(y)
    ensures FirstMatch(columns, x) == FirstMatch(columns, y)
  {
    if columns != [] {
      FirstMatchIgnoresCase(columns[1..], x, y);
    }
  }

  // ---------------------------------------------------------------------
  // Normalisation and the row mask
  // ---------------------------------------------------------------------

  /** `s.strip().upper()`. */
  function Key(s: string): string {
    Upper(Strip(s))
  }

  /** Normalising twice changes nothing. */
  lemma KeyIdempotent(s: string)
    ensures Key(Key(s)) == Key(s)
  {
    StripUpperCommute(Strip(s));
    StripIdempotent(s);
    UpperIdempotent(Strip(s));
  }

  /** One cell as the mask sees it: a missing value becomes `""`, then it
      is stripped and upper-cased. */
  function CellKey(c: Cell): string {
    Key(c.GetOr(""))
  }

  /** `airports_set`: every airport stripped and upper-cased. */
  function AirportSet(airports: seq<string>): (r: set<string>)
    ensures forall a :: a in airports ==> Key(a) in r
    ensures forall x :: x in r ==> exists a :: a in airports && x == Key(a)
  {
    set a | a in airports :: Key(a)
  }

  /** The three columns `filter_file` reads. */
  datatype Picked = Picked(carrier: string, origin: string, dest: string)

  /** The mask of `filter_file` for one row. */
  predicate KeepRow(cols: seq<string>, p: Picked, carrier: string, airportSet: set<string>, row: Row) {
    CellKey(Get(cols, row, p.carrier)) == Upper(carrier)
    && CellKey(Get(cols, row, p.origin)) in airportSet
    && CellKey(Get(cols, row, p.dest)) in airportSet
  }

  function Mask(cols: seq<string>, p: Picked, carrier: string, airportSet: set<string>): Row -> bool {
    row => KeepRow(cols, p, carrier, airportSet, row)
  }

  // ---------------------------------------------------------------------
  // `filter_file`
  // ---------------------------------------------------------------------

  /** The exceptions `filter_file` raises. */
  datatype FilterError =
    | InputNotFound                          // `FileNotFoundError`
    | NoCarrierColumn(columns: seq<string>)  // `KeyError`: no carrier column
    | NoAirportColumns(columns: seq<string>) // `KeyError`: no origin or no destination column
    | InvalidChunksize(chunksize: int)       // `read_csv` refuses a negative chunksize

  /** What a call of `filter_file` leaves behind: the exception it raised,
      if any, and the output file. */
  datatype FilterRun = FilterRun(error: Option<FilterError>, output: Option<seq<Record>>)

  /** The output file holding `kept`: absent when nothing was kept,
      otherwise one header and the kept rows. */
  function Written(cols: seq<string>, kept: seq<Row>): (r: Option<seq<Record>>)
    ensures r.None? <==> kept == []
    ensures r.Some? ==> HeaderCount(r.value) == 1 && r.value[0] == Header(cols)
  {
    if kept == [] then None
    else
      NoHeaderInData(kept);
      HeaderCountAppend([Header(cols)], DataRecords(kept));
      Some([Header(cols)] + DataRecords(kept))
  }

  /** `df.to_csv(path, mode="a", header=header, index=False)`: the file is
      created when absent, and the new lines go after those it holds. */
  function AppendCsv(file: Option<seq<Record>>, cols: seq<string>, rows: seq<Row>, header: bool): (r: Option<seq<Record>>)
    ensures r.Some?
    ensures var old_ := file.GetOr([]);
      |old_| <= |r.value| && r.value[..|old_|] == old_
    ensures var old_ := file.GetOr([]);
      HeaderCount(r.value) == HeaderCount(old_) + (if header then 1 else 0)
    ensures r.value == file.GetOr([]) + (if header then [Header(cols)] else []) + DataRecords(rows)
  {
    var old_ := file.GetOr([]);
    var added := (if header then [Header(cols)] else []) + DataRecords(rows);
    NoHeaderInData(rows);
    HeaderCountAppend(if header then [Header(cols)] else [], DataRecords(rows));
    HeaderCountAppend(old_, added);
    assert (old_ + added)[..|old_|] == old_;
    Some(old_ + added)
  }

  /** The three columns, or the `KeyError` `filter_file` raises: the
      carrier column is checked first, then origin and destination. */
  function PickColumns(cols: seq<string>): (r: Result<Picked, FilterError>)
    ensures r.Failure? ==> r.error == NoCarrierColumn(cols) || r.error == NoAirportColumns(cols)
    ensures r == Failure(NoCarrierColumn(cols)) <==> PickColumn(cols, CarrierCandidates).None?
    ensures r == Failure(NoAirportColumns(cols)) <==>
      PickColumn(cols, CarrierCandidates).Some?
      && (PickColumn(cols, OriginCandidates).None? || PickColumn(cols, DestCandidates).None?)
    ensures r.Success? ==>
      r.value == Picked(PickColumn(cols, CarrierCandidates).value,
                        PickColumn(cols, OriginCandidates).value,
                        PickColumn(cols, DestCandidates).value)
    ensures r.Success? ==> r.value.carrier in cols && r.value.origin in cols && r.value.dest in cols
  {
    var carrierCol := PickColumn(cols, CarrierCandidates);
    var originCol := PickColumn(cols, OriginCandidates);
    var destCol := PickColumn(cols, DestCandidates);
    if carrierCol.None? then Failure(NoCarrierColumn(cols))
    else if originCol.None? || destCol.None? then Failure(NoAirportColumns(cols))
    else Success(Picked(carrierCol.value, originCol.value, destCol.value))
  }

  /** The rows of `t` the mask keeps. */
  function Kept(t: Table, p: Picked, carrier: string, airports: seq<string>): seq<Row> {
    Filter(t.rows, Mask(t.columns, p, carrier, AirportSet(airports)))
  }

  /** What `filter_file` does, in one step: the checks that raise before
      the output is touched, then the deletion of the output, then the
      write of the kept rows (none at all when no row is kept). */
  function FilterSpec(input: Option<Table>, output0: Option<seq<Record>>, airports: seq<string>,
                      carrier: string, chunksize: Option<int>): FilterRun
  {
    match input
    case None => FilterRun(Some(InputNotFound), output0)
    case Some(t) =>
      match PickColumns(t.columns)
      case Failure(e) => FilterRun(Some(e), output0)
      case Success(p) =>
        if chunksize.Some? && chunksize.value < 0 then FilterRun(Some(InvalidChunksize(chunksize.value)), None)
        else FilterRun(None, Written(t.columns, Kept(t, p, carrier, airports)))
  }

  /** Writing the kept rows of one more block onto the file of the blocks
      before it gives the file of all of them. */
  lemma WrittenStep(cols: seq<string>, done: seq<Row>, block: seq<Row>)
    requires block != []
    ensures Written(cols, done + block) == AppendCsv(Written(cols, done), cols, block, done == [])
  {
    DataRecordsAppend(done, block);
    if done == [] {
      assert done + block == block;
      assert [] + ([Header(cols)] + DataRecords(block)) == [Header(cols)] + DataRecords(block);
    } else {
      assert [] + DataRecords(block) == DataRecords(block);
      assert [Header(cols)] + DataRecords(done + block) == ([Header(cols)] + DataRecords(done)) + DataRecords(block);
    }
  }

  /** `filter_file`: validate, delete the old output, then read the input
      block by block (whole when `chunksize` is `None` or 0), appending the
      kept rows of each non-empty block, with the header only on the first
      write.  The result does not depend on how the input is cut. */
  method FilterFile(input: Option<Table>, output0: Option<seq<Record>>, airports: seq<string>,
                    carrier: string, chunksize: Option<int>)
    returns (error: Option<FilterError>, output: Option<seq<Record>>)
    ensures FilterRun(error, output) == FilterSpec(input, output0, airports, carrier, chunksize)
  {
    if input.None? {
      return Some(InputNotFound), output0;
    }
    var t := input.value;
    var airportSet := AirportSet(airports);
    var cols := t.columns;
    var picked := PickColumns(cols);
    if picked.Failure? {
      return Some(picked.error), output0;
    }
    if chunksize.Some? && chunksize.value < 0 {
      return Some(InvalidChunksize(chunksize.value)), None;
    }
    var chunks := if chunksize.Some? && chunksize.value > 0 then Chunks(t.rows, chunksize.value) else [t.rows];
    output := WriteBlocks(cols, chunks, Mask(cols, picked.value, carrier, airportSet));
    error := None;
  }

  /** The loop of `filter_file` over the blocks of the input, which starts
      after the old output is deleted: the kept rows of each non-empty
      block are appended, with the header on the first write only. */
  method WriteBlocks(cols: seq<string>, chunks: seq<seq<Row>>, mask: Row -> bool) returns (output: Option<seq<Record>>)
    ensures output == Written(cols, Filter(Flatten(chunks), mask))
  {
    output := None;
    var headerWritten := false;
    var i := 0;
    while i < |chunks|
      invariant 0 <= i <= |chunks|
      invariant output == Written(cols, Filter(Flatten(chunks[..i]), mask))
      invariant headerWritten == output.Some?
    {
      var outChunk := Filter(chunks[i], mask);
      FlattenSnoc(chunks, i);
      FilterAppend(Flatten(chunks[..i]), chunks[i], mask);
      output, headerWritten := WriteBlock(cols, output, headerWritten, outChunk, Filter(Flatten(chunks[..i]), mask));
      i := i + 1;
    }
    FlattenWhole(chunks, i);
  }

  /** One turn of the loop: an empty block is skipped, otherwise its rows
      are appended, after a header when none was written yet. */
  method WriteBlock(cols: seq<string>, output0: Option<seq<Record>>, headerWritten0: bool, outChunk: seq<Row>, ghost done: seq<Row>)
    returns (output: Option<seq<Record>>, headerWritten: bool)
    requires output0 == Written(cols, done) && headerWritten0 == output0.Some?
    ensures output == Written(cols, done + outChunk) && headerWritten == output.Some?
  {
    if outChunk != [] {
      WrittenStep(cols, done, outChunk);
      output := AppendCsv(output0, cols, outChunk, !headerWritten0);
      headerWritten := true;
    } else {
      assert done + outChunk == done;
      output, headerWritten := output0, headerWritten0;
    }
  }

  /** The checks before the deletion leave an existing output untouched;
      a negative chunksize fails after it, so the output is gone. */
  lemma FilterErrors(input: Option<Table>, output0: Option<seq<Record>>, airports: seq<string>,
                     carrier: string, chunksize: Option<int>)
    ensures var run := FilterSpec(input, output0, airports, carrier, chunksize);
      (run.error == Some(InputNotFound) <==> input.None?)
      && (run.error.Some? && run.error.value.NoCarrierColumn? <==>
            input.Some? && PickColumn(input.value.columns, CarrierCandidates).None?)
      && (run.error.Some? && run.error.value.NoAirportColumns? <==>
            input.Some? && PickColumn(input.value.columns, CarrierCandidates).Some?
            && (PickColumn(input.value.columns, OriginCandidates).None?
                || PickColumn(input.value.columns, DestCandidates).None?))
      && (run.error.Some? && !run.error.value.InvalidChunksize? ==> run.output == output0)
      && (run.error.Some? && run.error.value.InvalidChunksize? ==> run.output.None?)
  {
    if input.Some? {
      var picked := PickColumns(input.value.columns);
      assert picked.Failure? ==> !picked.error.InvalidChunksize? && picked.error != InputNotFound;
    }
  }

  /** A successful run leaves no file when the mask keeps no row, and
      otherwise a file with one header line followed by the kept rows. */
  lemma FilterOutput(t: Table, output0: Option<seq<Record>>, airports: seq<string>,
                     carrier: string, chunksize: Option<int>, p: Picked)
    requires PickColumns(t.columns) == Success(p)
    requires chunksize.None? || chunksize.value >= 0
    ensures var run := FilterSpec(Some(t), output0, airports, carrier, chunksize);
      && run.error.None?
      && (run.output.None? <==> forall r :: r in t.rows ==> !KeepRow(t.columns, p, carrier, AirportSet(airports), r))
      && (run.output.Some? ==>
            run.output.value == [Header(t.columns)] + DataRecords(Kept(t, p, carrier, airports))
            && HeaderCount(run.output.value) == 1)
  {
    var keep := Mask(t.columns, p, carrier, AirportSet(airports));
    if Kept(t, p, carrier, airports) != [] {
      var x := Kept(t, p, carrier, airports)[0];
      FilterMembers(t.rows, keep, x);
    } else {
      forall r | r in t.rows
        ensures !KeepRow(t.columns, p, carrier, AirportSet(airports), r)
      {
        FilterMembers(t.rows, keep, r);
      }
    }
  }

  /** The rows written are the input rows themselves, unnormalised and in
      file order, and a row is written exactly when the mask keeps it. */
  lemma KeptRows(t: Table, p: Picked, carrier: string, airports: seq<string>, row: Row)
    ensures IsSubsequence(Kept(t, p, carrier, airports), t.rows)
    ensures row in Kept(t, p, carrier, airports) <==> row in t.rows && KeepRow(t.columns, p, carrier, AirportSet(airports), row)
  {
    FilterMembers(t.rows, Mask(t.columns, p, carrier, AirportSet(airports)), row);
  }

  /** The airports, each stripped and upper-cased. */
  function Keys(airports: seq<string>): (r: seq<string>)
    ensures |r| == |airports|
    ensures forall k :: 0 <= k < |airports| ==> r[k] == Key(airports[k])
  {
    seq(|airports|, k requires 0 <= k < |airports| => Key(airports[k]))
  }

  lemma AirportSetKeysWithin(airports: seq<string>)
    ensures AirportSet(Keys(airports)) <= AirportSet(airports)
  {
    forall x | x in AirportSet(Keys(airports))
      ensures x in AirportSet(airports)
    {
      KeyOfKeyWithin(airports, x);
    }
  }

  lemma KeyOfKeyWithin(airports: seq<string>, x: string)
    requires x in AirportSet(Keys(airports))
    ensures x in AirportSet(airports)
  {
    var k := AirportSetIndex(Keys(airports), x);
    KeyIdempotent(airports[k]);
    KeyInAirportSet(airports, k);
  }

  lemma AirportSetIndex(airports: seq<string>, x: string) returns (k: nat)
    requires x in AirportSet(airports)
    ensures k < |airports| && x == Key(airports[k])
  {
    var a :| a in airports && x == Key(a);
    k :| k < |airports| && airports[k] == a;
  }

  lemma KeyInAirportSet(airports: seq<string>, k: nat)
    requires k < |airports|
    ensures Key(airports[k]) in AirportSet(airports)
  {
    assert airports[k] in airports;
  }

  lemma AirportSetKeysCover(airports: seq<string>)
    ensures AirportSet(airports) <= AirportSet(Keys(airports))
  {
    var keys := Keys(airports);
    forall x | x in AirportSet(airports)
      ensures x in AirportSet(keys)
    {
      var a :| a in airports && x == Key(a);
      var k :| 0 <= k < |airports| && airports[k] == a;
      KeyIdempotent(a);
      assert keys[k] in keys;
    }
  }

  /** Normalising the airports before building the set changes nothing. */
  lemma AirportSetKeys(airports: seq<string>)
    ensures AirportSet(Keys(airports)) == AirportSet(airports)
  {
    AirportSetKeysWithin(airports);
    AirportSetKeysCover(airports);
  }

  /** The mask decides the same whether the carrier argument is given in
      upper case or not, and whether the airports are given stripped and
      upper-cased or not: matching ignores case on both sides, and
      surrounding blanks on the airport side. */
  lemma KeepRowNormalisedArgs(cols: seq<string>, p: Picked, carrier: string, airports: seq<string>, row: Row)
    ensures KeepRow(cols, p, Upper(carrier), AirportSet(Keys(airports)), row)
        <==> KeepRow(cols, p, carrier, AirportSet(airports), row)
  {
    UpperIdempotent(carrier);
    AirportSetKeys(airports);
  }

  /** Any chunksize that `read_csv` accepts gives the run of reading the
      file whole. */
  lemma FilterSpecChunksize(input: Option<Table>, output0: Option<seq<Record>>, airports: seq<string>,
                            carrier: string, n: int)
    ensures n >= 0 ==> FilterSpec(input, output0, airports, carrier, Some(n)) == FilterSpec(input, output0, airports, carrier, None)
    ensures n < 0 ==> FilterSpec(input, output0, airports, carrier, Some(n)).error.Some?
  {
    if input.Some? {
      var picked := PickColumns(input.value.columns);
    }
  }

  // ---------------------------------------------------------------------
  // `main`: the airport list and the chunksize
  // ---------------------------------------------------------------------

  /** `s.split(sep)`: the pieces between the occurrences of `sep`; there is
      always at least one. */
  function Split(s: string, sep: char): (r: seq<string>)
    ensures |r| >= 1
    ensures forall k :: 0 <= k < |r| ==> sep !in r[k]
  {
    if s == [] then [""]
    else
      var rest := Split(s[1..], sep);
      if s[0] == sep then [""] + rest
      else
        assert forall k :: 1 <= k < |rest| ==> sep !in rest[k];
        [[s[0]] + rest[0]] + rest[1..]
  }

  /** `sep.join(parts)`. */
  function Join(parts: seq<string>, sep: char): string {
    if parts == [] then ""
    else if |parts| == 1 then parts[0]
    else parts[0] + [sep] + Join(parts[1..], sep)
  }

  /** Joining the pieces gives back the string. */
  lemma {:induction false} JoinSplit(s: string, sep: char)
    ensures Join(Split(s, sep), sep) == s
  {
    if s != [] {
      var rest := Split(s[1..], sep);
      JoinSplit(s[1..], sep);
      if s[0] == sep {
        assert ([""] + rest)[1..] == rest;
      } else {
        var r := [[s[0]] + rest[0]] + rest[1..];
        assert r[1..] == rest[1..];
        if |rest| > 1 {
          assert Join(rest, sep) == rest[0] + [sep] + Join(rest[1..], sep);
        }
        assert s == [s[0]] + s[1..];
      }
    }
  }

  /** Splitting a join of pieces free of the separator gives back the
      pieces. */
  lemma {:induction false} SplitJoin(parts: seq<string>, sep: char)
    requires |parts| >= 1
    requires forall k :: 0 <= k < |parts| ==> sep !in parts[k]
    ensures Split(Join(parts, sep), sep) == parts
  {
    if |parts| == 1 {
      SplitWord(parts[0], [], sep);
      assert parts[0] + [] == parts[0];
    } else {
      var tail := Join(parts[1..], sep);
      SplitJoin(parts[1..], sep);
      SplitWord(parts[0], [sep] + tail, sep);
      assert ([sep] + tail)[0] == sep && ([sep] + tail)[1..] == tail;
      assert Split([sep] + tail, sep) == [""] + parts[1..];
      assert parts[0] + [sep] + tail == parts[0] + ([sep] + tail);
      assert parts[0] + "" == parts[0];
      assert parts == [parts[0]] + parts[1..];
    }
  }

  /** A character other than the separator starts the first piece. */
  lemma SplitCons(c: char, t: string, sep: char)
    requires c != sep
    ensures Split([c] + t, sep) == [[c] + Split(t, sep)[0]] + Split(t, sep)[1..]
  {
    var u := [c] + t;
    assert u[0] == c && u[1..] == t;
  }

  /** A word without separators only lengthens the first piece. */
  lemma {:induction false} SplitWord(w: string, s: string, sep: char)
    requires sep !in w
    ensures Split(w + s, sep) == [w + Split(s, sep)[0]] + Split(s, sep)[1..]
  {
    var rest := Split(s, sep);
    if w == [] {
      assert w + s == s;
      assert w + rest[0] == rest[0];
      assert rest == [rest[0]] + rest[1..];
    } else {
      assert w[0] in w;
      var tail := Split(w[1..] + s, sep);
      SplitWord(w[1..], s, sep);
      SplitCons(w[0], w[1..] + s, sep);
      assert [w[0]] + (w[1..] + s) == w + s;
      assert tail[0] == w[1..] + rest[0] && tail[1..] == rest[1..];
      assert [w[0]] + (w[1..] + rest[0]) == w + rest[0];
    }
  }

  /** `[a.strip().upper() for a in pieces if a.strip()]`. */
  function AirportCodes(pieces: seq<string>): (r: seq<string>)
    ensures forall k :: 0 <= k < |r| ==> r[k] != "" && Key(r[k]) == r[k]
  {
    if pieces == [] then []
    else
      var rest := AirportCodes(pieces[1..]);
      KeyIdempotent(pieces[0]);
      (if Strip(pieces[0]) != "" then [Key(pieces[0])] else []) + rest
  }

  /** The airport list of `main`: the comma-separated pieces of the
      argument, stripped and upper-cased, the empty ones dropped. */
  function ParseAirports(arg: string): (r: seq<string>)
    ensures forall k :: 0 <= k < |r| ==> r[k] != "" && Key(r[k]) == r[k] && ',' !in r[k]
  {
    NoCommaCodes(Split(arg, ','));
    AirportCodes(Split(arg, ','))
  }

  lemma {:induction false} NoCommaCodes(pieces: seq<string>)
    requires forall k :: 0 <= k < |pieces| ==> ',' !in pieces[k]
    ensures forall k :: 0 <= k < |AirportCodes(pieces)| ==> ',' !in AirportCodes(pieces)[k]
  {
    if pieces != [] {
      NoCommaCodes(pieces[1..]);
      KeyNoNewChars(pieces[0], ',');
    }
  }

  /** Stripping and upper-casing add no character other than a capital
      letter. */
  lemma KeyNoNewChars(a: string, c: char)
    requires c !in a && !('A' <= c <= 'Z')
    ensures c !in Key(a)
  {
    var s := Strip(a);
    forall i | 0 <= i < |s|
      ensures Upper(s)[i] != c
    {
      assert s[i] == a[LeadingSpaces(a) + i];
    }
  }

  /** A list of codes that are already normalised, non-empty and free of
      commas survives a join and a parse unchanged: in particular the
      default argument gives back `DEFAULT_AIRPORTS`. */
  lemma {:induction false} ParseJoin(codes: seq<string>)
    requires forall k :: 0 <= k < |codes| ==> codes[k] != "" && Key(codes[k]) == codes[k] && ',' !in codes[k]
    ensures ParseAirports(Join(codes, ',')) == codes
  {
    if codes == [] {
      assert Split("", ',') == [""];
      assert Strip("") == "";
    } else {
      SplitJoin(codes, ',');
      CodesUnchanged(codes);
    }
  }

  lemma {:induction false} CodesUnchanged(codes: seq<string>)
    requires forall k :: 0 <= k < |codes| ==> codes[k] != "" && Key(codes[k]) == codes[k]
    ensures AirportCodes(codes) == codes
  {
    if codes != [] {
      CodesUnchanged(codes[1..]);
      assert |Key(codes[0])| == |Strip(codes[0])|;
      assert codes == [codes[0]] + codes[1..];
    }
  }

  lemma DefaultAirportsParse()
    ensures ParseAirports(Join(DefaultAirports, ',')) == DefaultAirports
  {
    forall k | 0 <= k < |DefaultAirports|
      ensures DefaultAirports[k] != "" && Key(DefaultAirports[k]) == DefaultAirports[k] && ',' !in DefaultAirports[k]
    {
      CodeIsKey(DefaultAirports[k]);
    }
    ParseJoin(DefaultAirports);
  }

  /** A word of capital letters is its own key. */
  lemma CodeIsKey(code: string)
    requires code != [] && forall i :: 0 <= i < |code| ==> 'A' <= code[i] <= 'Z'
    ensures Key(code) == code
  {
    StripUnspaced(code);
    UpperOfCapitals(code);
  }

  lemma StripUnspaced(s: string)
    requires s != [] && !IsSpace(s[0]) && !IsSpace(s[|s| - 1])
    ensures Strip(s) == s
  {
    assert StripLeft(s) == s;
  }

  lemma UpperOfCapitals(s: string)
    requires forall i :: 0 <= i < |s| ==> 'A' <= s[i] <= 'Z'
    ensures Upper(s) == s
  {
    forall i | 0 <= i < |s|
      ensures Upper(s)[i] == s[i]
    {
      assert !IsLower(s[i]);
    }
  }

  /** The chunksize `main` passes on: the argument when positive, `None`
      (read the file whole) otherwise. */
  function ChunksizeOption(n: int): (r: Option<int>)
    ensures r.Some? <==> n > 0
    ensures r.Some? ==> r.value == n
  {
    if n > 0 then Some(n) else None
  }

  /** `main` after argument parsing: `filter_file` on the parsed airports
      and chunksize. */
  function RunMain(input: Option<Table>, output0: Option<seq<Record>>, airportsArg: string,
                   carrier: string, chunksizeArg: int): FilterRun
  {
    FilterSpec(input, output0, ParseAirports(airportsArg), carrier, ChunksizeOption(chunksizeArg))
  }

  /** Whatever the chunksize argument, `main` runs `filter_file` as if
      reading the file whole, so `read_csv` never fails on the chunksize. */
  lemma MainChunksize(input: Option<Table>, output0: Option<seq<Record>>, airportsArg: string,
                      carrier: string, chunksizeArg: int)
    ensures RunMain(input, output0, airportsArg, carrier, chunksizeArg)
         == FilterSpec(input, output0, ParseAirports(airportsArg), carrier, None)
    ensures var run := RunMain(input, output0, airportsArg, carrier, chunksizeArg);
      run.error.Some? ==> !run.error.value.InvalidChunksize?
  {
    var airports := ParseAirports(airportsArg);
    FilterSpecChunksize(input, output0, airports, carrier, chunksizeArg);
    WholeReadAccepted(input, output0, airports, carrier);
  }

  /** Reading the file whole never fails on the chunksize. */
  lemma WholeReadAccepted(input: Option<Table>, output0: Option<seq<Record>>, airports: seq<string>, carrier: string)
    ensures var run := FilterSpec(input, output0, airports, carrier, None);
      run.error.Some? ==> !run.error.value.InvalidChunksize?
  {
    if input.Some? {
      var picked := PickColumns(input.value.columns);
    }
  }

  /** `filter_file` normalises the airports `main` already normalised:
      the set it builds holds exactly the parsed codes. */
  lemma MainAirportSet(arg: string)
    ensures AirportSet(ParseAirports(arg)) == set x | x in ParseAirports(arg)
  {
    KeySetOfKeys(ParseAirports(arg));
  }

  lemma KeySetOfKeys(codes: seq<string>)
    requires forall k :: 0 <= k < |codes| ==> Key(codes[k]) == codes[k]
    ensures AirportSet(codes) == set x | x in codes
  {
    forall x
      ensures x in AirportSet(codes) <==> x in codes
    {
      if x in codes {
        var k :| 0 <= k < |codes| && codes[k] == x;
        assert Key(codes[k]) == x;
      }
      if x in AirportSet(codes) {
        var a :| a in codes && x == Key(a);
        var k :| 0 <= k < |codes| && codes[k] == a;
        assert Key(codes[k]) == codes[k];
      }
    }
  }
}
