/** The per-table stages of the monthly extractor: `filter_domestic`,
    `keep_aa`, `select_output_cols`, and the pipeline that runs them on one
    table (or one chunk) after `standardize_columns`.  Each stage starts by
    standardizing its input again, as the source does. */
module Stages {
  import opened Tables
  import opened Schema
  import opened CanonTable

  // ---------------------------------------------------------------------
  // `filter_domestic`
  // ---------------------------------------------------------------------

  /** The branch `filter_domestic` runs, chosen by column presence alone. */
  datatype DomesticRule = ByCountry | ByState | Unfiltered

  function DomesticRuleFor(cols: seq<string>): DomesticRule {
    if "ORIGIN_COUNTRY_NAME" in cols && "DEST_COUNTRY_NAME" in cols then ByCountry
    else if "ORIGIN_STATE_ABR" in cols && "DEST_STATE_ABR" in cols then ByState
    else Unfiltered
  }

  /** `Series.isin(s)` for one cell: a missing value is in no set. */
  predicate InSet(v: Cell, s: set<string>) {
    v.Some? && v.value in s
  }

  /** The row mask of each branch.  Pandas compares a missing value unequal
      to everything, so a missing country fails the country test. */
  predicate KeepDomestic(rule: DomesticRule, cols: seq<string>, row: Row, includeTerritories: bool) {
    match rule
    case ByCountry =>
      Get(cols, row, "ORIGIN_COUNTRY_NAME") == Some("UNITED STATES")
      && Get(cols, row, "DEST_COUNTRY_NAME") == Some("UNITED STATES")
    case ByState =>
      var origin, dest := Get(cols, row, "ORIGIN_STATE_ABR"), Get(cols, row, "DEST_STATE_ABR");
      origin.Some? && dest.Some?
      && (includeTerritories || (!InSet(origin, TerritoryStates) && !InSet(dest, TerritoryStates)))
    case Unfiltered => true
  }

  function DomesticMask(rule: DomesticRule, cols: seq<string>, includeTerritories: bool): Row -> bool {
    row => KeepDomestic(rule, cols, row, includeTerritories)
  }

  /** `filter_domestic(df, include_territories)`. */
  function FilterDomestic(t: Table, includeTerritories: bool): (r: Table)
    ensures r.columns == Standardize(t).columns
    ensures IsSubsequence(r.rows, t.rows)
  {
    var s := Standardize(t);
    var rule := DomesticRuleFor(s.columns);
    if rule == Unfiltered then
      SubsequenceOfItself(s.rows);
      s
    else
      Table(s.columns, Filter(s.rows, DomesticMask(rule, s.columns, includeTerritories)))
  }

  /** With both country columns, a row is kept iff both countries are
      exactly "UNITED STATES" (a missing one fails). */
  lemma FilterDomesticByCountry(t: Table, includeTerritories: bool, row: Row)
    requires var cols := Standardize(t).columns;
      "ORIGIN_COUNTRY_NAME" in cols && "DEST_COUNTRY_NAME" in cols
    ensures var cols := Standardize(t).columns;
      row in FilterDomestic(t, includeTerritories).rows <==>
        row in t.rows
        && Get(cols, row, "ORIGIN_COUNTRY_NAME") == Some("UNITED STATES")
        && Get(cols, row, "DEST_COUNTRY_NAME") == Some("UNITED STATES")
  {
    var s := Standardize(t);
    FilterMembers(s.rows, DomesticMask(ByCountry, s.columns, includeTerritories), row);
  }

  /** Without the country pair but with both state columns, a row is kept
      iff both states are present and, unless territories are included,
      neither is a territory. */
  lemma FilterDomesticByState(t: Table, includeTerritories: bool, row: Row)
    requires var cols := Standardize(t).columns;
      !("ORIGIN_COUNTRY_NAME" in cols && "DEST_COUNTRY_NAME" in cols)
      && "ORIGIN_STATE_ABR" in cols && "DEST_STATE_ABR" in cols
    ensures var cols := Standardize(t).columns;
      var origin, dest := Get(cols, row, "ORIGIN_STATE_ABR"), Get(cols, row, "DEST_STATE_ABR");
      row in FilterDomestic(t, includeTerritories).rows <==>
        row in t.rows && origin.Some? && dest.Some?
        && (includeTerritories || (origin.value !in TerritoryStates && dest.value !in TerritoryStates))
  {
    var s := Standardize(t);
    FilterMembers(s.rows, DomesticMask(ByState, s.columns, includeTerritories), row);
  }

  /** With neither pair of columns the table passes through unchanged. */
  lemma FilterDomesticUnfiltered(t: Table, includeTerritories: bool)
    requires var cols := Standardize(t).columns;
      !("ORIGIN_COUNTRY_NAME" in cols && "DEST_COUNTRY_NAME" in cols)
      && !("ORIGIN_STATE_ABR" in cols && "DEST_STATE_ABR" in cols)
    ensures FilterDomestic(t, includeTerritories) == Standardize(t)
  {
  }

  // ---------------------------------------------------------------------
  // `keep_aa`
  // ---------------------------------------------------------------------

  datatype ExtractError = MissingCarrierColumn(columns: seq<string>)

  /** `next((c for c in candidates if c in cols), None)`. */
  function FirstPresent(candidates: seq<string>, cols: seq<string>): (r: Option<string>)
    ensures r.None? <==> forall c :: c in candidates ==> c !in cols
    ensures r.Some? ==> r.value in candidates && r.value in cols
    ensures r.Some? && |candidates| > 0 && candidates[0] in cols ==> r.value == candidates[0]
  {
    if candidates == [] then None
    else if candidates[0] in cols then Some(candidates[0])
    else FirstPresent(candidates[1..], cols)
  }

  /** The carrier column `keep_aa` filters on: the preferred one when
      present, else the other one, else none. */
  function CarrierColumn(cols: seq<string>, useMarketing: bool): (col: Option<string>)
    ensures var preferred := if useMarketing then "MKT_UNIQUE_CARRIER" else "OP_UNIQUE_CARRIER";
      var other := if useMarketing then "OP_UNIQUE_CARRIER" else "MKT_UNIQUE_CARRIER";
      col == if preferred in cols then Some(preferred) else if other in cols then Some(other) else None
  {
    var primary := if useMarketing then "MKT_UNIQUE_CARRIER" else "OP_UNIQUE_CARRIER";
    if primary in cols then Some(primary)
    else
      var candidates :=
        (if primary != "MKT_UNIQUE_CARRIER" then ["MKT_UNIQUE_CARRIER"] else [])
        + (if primary != "OP_UNIQUE_CARRIER" then ["OP_UNIQUE_CARRIER"] else []);
      FirstPresent(candidates, cols)
  }

  function CarrierMask(cols: seq<string>, col: string): Row -> bool {
    row => Get(cols, row, col) == Some("AA")
  }

  /** `keep_aa(df, use_marketing)`: the `KeyError` is a `Failure` carrying
      the columns its message lists. */
  function KeepAA(t: Table, useMarketing: bool): (r: Result<Table, ExtractError>)
    ensures var cols := Standardize(t).columns;
      r.Failure? <==> "MKT_UNIQUE_CARRIER" !in cols && "OP_UNIQUE_CARRIER" !in cols
    ensures r.Failure? ==> r.error == MissingCarrierColumn(Standardize(t).columns)
    ensures r.Success? ==> r.value.columns == Standardize(t).columns && IsSubsequence(r.value.rows, t.rows)
  {
    var s := Standardize(t);
    match CarrierColumn(s.columns, useMarketing)
    case None => Failure(MissingCarrierColumn(s.columns))
    case Some(col) => Success(Table(s.columns, Filter(s.rows, CarrierMask(s.columns, col))))
  }

  /** The rows kept are exactly those whose carrier value is "AA". */
  lemma KeepAARows(t: Table, useMarketing: bool, row: Row)
    requires KeepAA(t, useMarketing).Success?
    ensures var cols := Standardize(t).columns;
      var col := CarrierColumn(cols, useMarketing).value;
      row in KeepAA(t, useMarketing).value.rows <==> row in t.rows && Get(cols, row, col) == Some("AA")
  {
    var s := Standardize(t);
    FilterMembers(s.rows, CarrierMask(s.columns, CarrierColumn(s.columns, useMarketing).value), row);
  }

  // ---------------------------------------------------------------------
  // `select_output_cols`
  // ---------------------------------------------------------------------

  /** `[c for c in OUTPUT_COLS if c in df.columns]`. */
  function PresentOutputCols(cols: seq<string>): (r: seq<string>)
    ensures IsSubsequence(r, OutputCols)
  {
    Filter(OutputCols, (c: string) => c in cols)
  }

  lemma OutputColsDistinct()
    ensures Distinct(OutputCols)
  {
  }

  /** The kept columns are the output columns present, in `OUTPUT_COLS`
      order and without repetition. */
  lemma PresentOutputColsMembers(cols: seq<string>)
    ensures forall c :: c in PresentOutputCols(cols) <==> c in OutputCols && c in cols
    ensures Distinct(PresentOutputCols(cols))
  {
    forall c ensures c in PresentOutputCols(cols) <==> c in OutputCols && c in cols {
      FilterMembers(OutputCols, (c: string) => c in cols, c);
    }
    OutputColsDistinct();
    FilterDistinct(OutputCols, (c: string) => c in cols);
  }

  /** `select_output_cols(df)`; the string casts are the identity here. */
  function SelectOutputCols(t: Table): (r: Table)
    ensures WellFormed(r)
    ensures var cols := PresentOutputCols(Standardize(t).columns);
      if cols == [] then r == EmptyTable else r.columns == cols && |r.rows| == |t.rows|
  {
    var s := Standardize(t);
    var cols := PresentOutputCols(s.columns);
    if cols == [] then EmptyTable
    else Table(cols, RealignRows(s.columns, s.rows, cols))
  }

  /** Every kept column carries, row by row, the value the input had under
      that name. */
  lemma SelectOutputColsValues(t: Table, k: nat, c: string)
    requires k < |t.rows| && c in SelectOutputCols(t).columns
    ensures Get(SelectOutputCols(t).columns, SelectOutputCols(t).rows[k], c) == Get(Standardize(t).columns, t.rows[k], c)
  {
    var s := Standardize(t);
    RealignRowsValue(s.columns, s.rows, PresentOutputCols(s.columns), k, c);
  }

  // ---------------------------------------------------------------------
  // One table through the pipeline
  // ---------------------------------------------------------------------

  /** standardize → `filter_domestic` → `keep_aa` → `select_output_cols`, the
      body of the chunk loop of `process_month`. */
  function ProcessTable(t: Table, useMarketing: bool, includeTerritories: bool): (r: Result<Table, ExtractError>)
    ensures r.Success? ==> WellFormed(r.value)
  {
    var s := Standardize(t);
    var d := FilterDomestic(s, includeTerritories);
    match KeepAA(d, useMarketing)
    case Failure(e) => Failure(e)
    case Success(a) => Success(SelectOutputCols(a))
  }
  /** A table already in canonical form is left alone by another
      `standardize_columns`: the repeated calls inside the stages are
      harmless. */
  lemma StandardizeStable(t: Table, u: Table)
    requires u.columns == Standardize(t).columns
    ensures Standardize(u) == u
  {
    StandardizeIdempotent(t);
    assert Standardize(u).columns == Standardize(Standardize(t)).columns;
  }

  /** A row the whole pipeline keeps: domestic by the rule the columns
      select, and flown by AA in the carrier column. */
  predicate KeepRow(cols: seq<string>, carrier: string, includeTerritories: bool, row: Row) {
    KeepDomestic(DomesticRuleFor(cols), cols, row, includeTerritories) && Get(cols, row, carrier) == Some("AA")
  }

  function KeepMask(cols: seq<string>, carrier: string, includeTerritories: bool): Row -> bool {
    row => KeepRow(cols, carrier, includeTerritories, row)
  }

  /** The pipeline fails exactly when the standardized table has neither
      carrier column. */
  lemma ProcessTableFailure(t: Table, useMarketing: bool, includeTerritories: bool)
    ensures var cols := Standardize(t).columns;
      ProcessTable(t, useMarketing, includeTerritories).Failure? <==> CarrierColumn(cols, useMarketing).None?
    ensures ProcessTable(t, useMarketing, includeTerritories).Failure? ==>
      ProcessTable(t, useMarketing, includeTerritories).error == MissingCarrierColumn(Standardize(t).columns)
  {
    var s := Standardize(t);
    StandardizeStable(t, s);
    StandardizeStable(t, FilterDomestic(s, includeTerritories));
  }

  /** What the four stages compute, stated with one standardization and
      one mask: the output columns present, in `OUTPUT_COLS` order, over
      the rows that are domestic and flown by AA, in their original order. */
  lemma ProcessTableRows(t: Table, useMarketing: bool, includeTerritories: bool)
    requires CarrierColumn(Standardize(t).columns, useMarketing).Some?
    ensures var cols := Standardize(t).columns;
      var out := PresentOutputCols(cols);
      var carrier := CarrierColumn(cols, useMarketing).value;
      var r := ProcessTable(t, useMarketing, includeTerritories);
      r == Success(if out == [] then EmptyTable
                   else Table(out, RealignRows(cols, Filter(t.rows, KeepMask(cols, carrier, includeTerritories)), out)))
  {
    var s := Standardize(t);
    var cols := s.columns;
    StandardizeStable(t, s);
    var d := FilterDomestic(s, includeTerritories);
    StandardizeStable(t, d);
    ProcessTableFailure(t, useMarketing, includeTerritories);
    var carrier := CarrierColumn(cols, useMarketing).value;
    var a := KeepAA(d, useMarketing).value;
    assert a.rows == Filter(d.rows, CarrierMask(cols, carrier));
    StandardizeStable(t, a);
    var rule := DomesticRuleFor(cols);
    if rule == Unfiltered {
      FilterExt(s.rows, CarrierMask(cols, carrier), KeepMask(cols, carrier, includeTerritories));
    } else {
      FilterFilter(s.rows, DomesticMask(rule, cols, includeTerritories), CarrierMask(cols, carrier), KeepMask(cols, carrier, includeTerritories));
    }
  }

  /** The rows the pipeline outputs for a block of rows under a header, or
      none when it fails. */
  function ExtractRows(cols: seq<string>, rows: seq<Row>, useMarketing: bool, includeTerritories: bool): seq<Row> {
    match ProcessTable(Table(cols, rows), useMarketing, includeTerritories)
    case Success(r) => r.rows
    case Failure(_) => []
  }

  /** Whether the pipeline fails, and with which error, depends on the
      header alone. */
  lemma ProcessTableHeaderOnly(cols: seq<string>, a: seq<Row>, b: seq<Row>, useMarketing: bool, includeTerritories: bool)
    ensures ProcessTable(Table(cols, a), useMarketing, includeTerritories).Failure?
      <==> ProcessTable(Table(cols, b), useMarketing, includeTerritories).Failure?
    ensures ProcessTable(Table(cols, a), useMarketing, includeTerritories).Failure? ==>
      ProcessTable(Table(cols, a), useMarketing, includeTerritories) == ProcessTable(Table(cols, b), useMarketing, includeTerritories)
  {
    ProcessTableFailure(Table(cols, a), useMarketing, includeTerritories);
    ProcessTableFailure(Table(cols, b), useMarketing, includeTerritories);
  }

  /** The header after `standardize_columns`. */
  function StandardColumns(cols: seq<string>): seq<string> {
    Standardize(Table(cols, [])).columns
  }

  lemma ExtractRowsNoCarrier(cols: seq<string>, rows: seq<Row>, useMarketing: bool, includeTerritories: bool)
    requires CarrierColumn(StandardColumns(cols), useMarketing).None?
    ensures ExtractRows(cols, rows, useMarketing, includeTerritories) == []
  {
    var t := Table(cols, rows);
    assert Standardize(t).columns == StandardColumns(cols);
    ProcessTableFailure(t, useMarketing, includeTerritories);
  }

  lemma ExtractRowsKept(cols: seq<string>, rows: seq<Row>, useMarketing: bool, includeTerritories: bool)
    requires CarrierColumn(StandardColumns(cols), useMarketing).Some?
    ensures var sc := StandardColumns(cols);
      var out := PresentOutputCols(sc);
      ExtractRows(cols, rows, useMarketing, includeTerritories)
        == if out == [] then []
           else RealignRows(sc, Filter(rows, KeepMask(sc, CarrierColumn(sc, useMarketing).value, includeTerritories)), out)
  {
    var t := Table(cols, rows);
    assert Standardize(t).columns == StandardColumns(cols);
    ProcessTableRows(t, useMarketing, includeTerritories);
  }

  /** `ExtractRows` with one mask over the rows, for a fixed header. */
  lemma ExtractRowsFormula(cols: seq<string>, rows: seq<Row>, useMarketing: bool, includeTerritories: bool)
    ensures var sc := StandardColumns(cols);
      var out := PresentOutputCols(sc);
      var carrier := CarrierColumn(sc, useMarketing);
      ExtractRows(cols, rows, useMarketing, includeTerritories)
        == if carrier.None? || out == [] then []
           else RealignRows(sc, Filter(rows, KeepMask(sc, carrier.value, includeTerritories)), out)
  {
    if CarrierColumn(StandardColumns(cols), useMarketing).None? {
      ExtractRowsNoCarrier(cols, rows, useMarketing, includeTerritories);
    } else {
      ExtractRowsKept(cols, rows, useMarketing, includeTerritories);
    }
  }

  /** Running the pipeline on two consecutive blocks of rows gives the
      output of running it on both at once: row-wise processing commutes
      with splitting the input. */
  lemma ExtractRowsAppend(cols: seq<string>, a: seq<Row>, b: seq<Row>, useMarketing: bool, includeTerritories: bool)
    ensures ExtractRows(cols, a + b, useMarketing, includeTerritories)
      == ExtractRows(cols, a, useMarketing, includeTerritories) + ExtractRows(cols, b, useMarketing, includeTerritories)
  {
    ExtractRowsFormula(cols, a, useMarketing, includeTerritories);
    ExtractRowsFormula(cols, b, useMarketing, includeTerritories);
    ExtractRowsFormula(cols, a + b, useMarketing, includeTerritories);
    var sc := StandardColumns(cols);
    var out := PresentOutputCols(sc);
    var carrier := CarrierColumn(sc, useMarketing);
    if carrier.Some? && out != [] {
      var mask := KeepMask(sc, carrier.value, includeTerritories);
      FilterAppend(a, b, mask);
      RealignRowsAppend(sc, Filter(a, mask), Filter(b, mask), out);
    }
  }
}
