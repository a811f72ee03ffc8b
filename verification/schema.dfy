/** Column-name normalisation and the renaming of column aliases to their
    canonical names (`_norm`, `CANON_MAP` and `standardize_columns` of the
    monthly extractor). */
module Schema {
  import opened Tables
  import opened Ascii

  // ---------------------------------------------------------------------
  // `_norm`
  // ---------------------------------------------------------------------

  /** The characters that survive normalisation: `[A-Z0-9]`. */
  predicate IsKeyChar(c: char) {
    'A' <= c <= 'Z' || '0' <= c <= '9'
  }

  /** `_norm(s)`: upper-case `s`, then delete every character outside
      `[A-Z0-9]`.  The result is the key under which aliases are matched.
      The recursion takes the last character off, which is equivalent. */
  function Norm(s: string): (r: string)
    ensures |r| <= |s|
    ensures forall i :: 0 <= i < |r| ==> IsKeyChar(r[i])
  {
    if s == [] then []
    else
      var c := UpperChar(s[|s| - 1]);
      Norm(s[..|s| - 1]) + (if IsKeyChar(c) then [c] else [])
  }

  /** Normalising a concatenation normalises each part. */
  lemma {:induction false} NormAppend(a: string, b: string)
    ensures Norm(a + b) == Norm(a) + Norm(b)
  {
    if b == [] {
      assert a + b == a;
    } else {
      assert (a + b)[|a + b| - 1] == b[|b| - 1];
      assert (a + b)[..|a + b| - 1] == a + b[..|b| - 1];
      NormAppend(a, b[..|b| - 1]);
    }
  }

  /** An independent description of `_norm`: the key characters of the
      upper-cased string, in order. */
  lemma {:induction false} NormIsFilter(s: string)
    ensures Norm(s) == Filter(Upper(s), IsKeyChar)
  {
    if s != [] {
      var init, c := s[..|s| - 1], UpperChar(s[|s| - 1]);
      assert Upper(s) == Upper(init) + [c];
      FilterAppend(Upper(init), [c], IsKeyChar);
      assert Filter([c], IsKeyChar) == if IsKeyChar(c) then [c] else [] by {
        assert [c][1..] == [];
      }
      NormIsFilter(init);
    }
  }

  /** A name made of key characters only is its own key, and only such a
      name is (the converse is the second `ensures` of `Norm`). */
  lemma NormFixpoint(s: string)
    ensures Norm(s) == s <==> forall i :: 0 <= i < |s| ==> IsKeyChar(s[i])
  {
    if forall i :: 0 <= i < |s| ==> IsKeyChar(s[i]) {
      NormOfKeyChars(s);
    }
  }

  lemma {:induction false} NormOfKeyChars(s: string)
    requires forall i :: 0 <= i < |s| ==> IsKeyChar(s[i])
    ensures Norm(s) == s
  {
    if s != [] {
      var init := s[..|s| - 1];
      NormOfKeyChars(init);
      assert s == init + [s[|s| - 1]];
    }
  }

  lemma NormIdempotent(s: string)
    ensures Norm(Norm(s)) == Norm(s)
  {
    NormFixpoint(Norm(s));
  }

  /** Case does not matter to `_norm`. */
  lemma {:induction false} NormUpper(s: string)
    ensures Norm(Upper(s)) == Norm(s)
  {
    if s != [] {
      assert Upper(s)[..|s| - 1] == Upper(s[..|s| - 1]);
      NormUpper(s[..|s| - 1]);
    }
  }

  // ---------------------------------------------------------------------
  // Constants
  // ---------------------------------------------------------------------

  /** One entry of the alias table: a canonical column name and the names
      that are accepted for it, in order of preference. */
  datatype CanonEntry = CanonEntry(canon: string, aliases: seq<string>)

  /** Entry `i` of `CANON_MAP`, counting in its insertion order (the order
      the renaming visits).  Each name is spelled as the concatenation of
      its words and underscores; the strings are exactly those of the
      source, and the spelling lets the proofs about their keys take them
      apart word by word. */
  function CanonEntryAt(i: int): CanonEntry
  {
    match i
    case 0 => CanonEntry("FL" + "_" + "DATE", [
          "FL" + "_" + "DATE",
          "FLIGHT" + "_" + "DATE",
          "FLIGHT" + "DATE"
        ])
    case 1 => CanonEntry("OP" + "_" + "UNIQUE" + "_" + "CARRIER", [
          "OP" + "_" + "UNIQUE" + "_" + "CARRIER",
          "OPERATING" + "_" + "AIRLINE",
          "OPERATING" + "CARRIER",
          "OP" + "_" + "CARRIER",
          "OPERATING" + "_" + "AIRLINE" + "_" + "IATA" + "_" + "CODE",
          "OPERATING" + "AIRLINE" + "IATA" + "CODE"
        ])
    case 2 => CanonEntry("MKT" + "_" + "UNIQUE" + "_" + "CARRIER", [
          "MKT" + "_" + "UNIQUE" + "_" + "CARRIER",
          "MARKETING" + "_" + "AIRLINE" + "_" + "NETWORK",
          "MARKETING" + "CARRIER",
          "MKT" + "_" + "CARRIER",
          "MKT" + "UNIQUE" + "CARRIER",
          "REPORTING" + "_" + "AIRLINE",
          "IATA" + "_" + "CODE" + "_" + "REPORTING" + "_" + "AIRLINE"
        ])
    case 3 => CanonEntry("OP" + "_" + "CARRIER" + "_" + "FL" + "_" + "NUM", [
          "OP" + "_" + "CARRIER" + "_" + "FL" + "_" + "NUM",
          "OP" + "_" + "CARRIER" + "_" + "FLNUM",
          "FL" + "_" + "NUM",
          "FLIGHT" + "_" + "NUM",
          "FLIGHT" + "_" + "NUMBER",
          "FLIGHT" + "_" + "NUMBER" + "_" + "REPORTING" + "_" + "AIRLINE",
          "FLIGHT" + "_" + "NUMBER" + "_" + "OPERATING" + "_" + "AIRLINE",
          "FLIGHT" + "_" + "NUMBER" + "_" + "REPORTING" + "AIRLINE",
          "FLIGHT" + "_" + "NUMBER" + "_" + "OPERATING" + "AIRLINE"
        ])
    case 4 => CanonEntry("ORIGIN", [
          "ORIGIN",
          "ORIGIN" + "AIRPORT",
          "ORIGIN" + "_" + "AIRPORT"
        ])
    case 5 => CanonEntry("DEST", [
          "DEST",
          "DEST" + "AIRPORT",
          "DEST" + "_" + "AIRPORT"
        ])
    case 6 => CanonEntry("ORIGIN" + "_" + "STATE" + "_" + "ABR", [
          "ORIGIN" + "_" + "STATE" + "_" + "ABR",
          "ORIGIN" + "_" + "STATE" + "_" + "ABBREVIATION",
          "ORIGIN" + "STATE",
          "ORIGIN" + "_" + "STATE"
        ])
    case 7 => CanonEntry("DEST" + "_" + "STATE" + "_" + "ABR", [
          "DEST" + "_" + "STATE" + "_" + "ABR",
          "DEST" + "_" + "STATE" + "_" + "ABBREVIATION",
          "DESTSTATE",
          "DEST" + "_" + "STATE"
        ])
    case 8 => CanonEntry("ORIGIN" + "_" + "COUNTRY" + "_" + "NAME", [
          "ORIGIN" + "_" + "COUNTRY" + "_" + "NAME",
          "ORIGIN" + "COUNTRY" + "NAME",
          "ORIGIN" + "_" + "COUNTRY"
        ])
    case 9 => CanonEntry("DEST" + "_" + "COUNTRY" + "_" + "NAME", [
          "DEST" + "_" + "COUNTRY" + "_" + "NAME",
          "DEST" + "COUNTRY" + "NAME",
          "DEST" + "_" + "COUNTRY"
        ])
    case 10 => CanonEntry("CRS" + "_" + "DEP" + "_" + "TIME", [
          "CRS" + "_" + "DEP" + "_" + "TIME",
          "CRS" + "DEP" + "TIME"
        ])
    case 11 => CanonEntry("DEP" + "_" + "TIME", [
          "DEP" + "_" + "TIME",
          "DEPTIME"
        ])
    case 12 => CanonEntry("WHEELS" + "_" + "OFF", [
          "WHEELS" + "_" + "OFF",
          "WHEELSOFF"
        ])
    case 13 => CanonEntry("CRS" + "_" + "ARR" + "_" + "TIME", [
          "CRS" + "_" + "ARR" + "_" + "TIME",
          "CRS" + "ARR" + "TIME"
        ])
    case 14 => CanonEntry("ARR" + "_" + "TIME", [
          "ARR" + "_" + "TIME",
          "ARRTIME"
        ])
    case 15 => CanonEntry("WHEELS" + "_" + "ON", [
          "WHEELS" + "_" + "ON",
          "WHEELSON"
        ])
    case 16 => CanonEntry("CANCELLED", [
          "CANCELLED",
          "CANCELLED" + "_"
        ])
    case _ => CanonEntry("DIVERTED", [
          "DIVERTED",
          "DIVERTED" + "_"
        ])
  }

  /** `CANON_MAP`: its eighteen entries in order. */
  function CanonTable(): seq<CanonEntry> {
    seq(18, CanonEntryAt)
  }

  const CanonMap: seq<CanonEntry> := CanonTable()

  /** `OUTPUT_COLS`: the columns written, in this order. */
  const OutputCols: seq<string> := [
    "FL_DATE",
    "OP_UNIQUE_CARRIER",
    "MKT_UNIQUE_CARRIER",
    "OP_CARRIER_FL_NUM",
    "ORIGIN", "DEST",
    "CRS_DEP_TIME", "DEP_TIME", "WHEELS_OFF",
    "CRS_ARR_TIME", "ARR_TIME", "WHEELS_ON",
    "CANCELLED", "DIVERTED"
  ]

  /** `US_TERRITORY_STATE_ABR`. */
  const TerritoryStates: set<string> := {"PR", "VI", "GU", "AS", "MP"}

  /** The canonical names of an alias table. */
  function Canons(table: seq<CanonEntry>): (r: set<string>)
    ensures forall i :: 0 <= i < |table| ==> table[i].canon in r
    ensures forall c :: c in r ==> exists i :: 0 <= i < |table| && table[i].canon == c
  {
    set i | 0 <= i < |table| :: table[i].canon
  }

  // ---------------------------------------------------------------------
  // `standardize_columns`
  // ---------------------------------------------------------------------

  /** Position of the last column whose key is `n`, or -1. */
  function LastKeyIndex(cols: seq<string>, n: string): (k: int)
    ensures -1 <= k < |cols|
    ensures k >= 0 ==> Norm(cols[k]) == n
    ensures forall j :: k < j < |cols| ==> Norm(cols[j]) != n
  {
    if cols == [] then -1
    else if Norm(cols[|cols| - 1]) == n then |cols| - 1
    else LastKeyIndex(cols[..|cols| - 1], n)
  }

  /** `norm_to_actual = {_norm(c): c for c in df.columns}`, built in column
      order so that a later column overwrites an earlier one with the same
      key. */
  function NormToActual(cols: seq<string>): (m: map<string, string>)
    ensures forall n :: n in m ==> m[n] in cols
  {
    if cols == [] then map[]
    else NormToActual(cols[..|cols| - 1])[Norm(cols[|cols| - 1]) := cols[|cols| - 1]]
  }

  /** Every key that occurs is mapped to the last column having it. */
  lemma {:induction false} NormToActualLast(cols: seq<string>, n: string)
    ensures n in NormToActual(cols) <==> LastKeyIndex(cols, n) >= 0
    ensures n in NormToActual(cols) ==> NormToActual(cols)[n] == cols[LastKeyIndex(cols, n)]
    decreases |cols|
  {
    if cols != [] {
      NormToActualLast(cols[..|cols| - 1], n);
    }
  }

  /** Index of the first alias whose key is among `keys` (the inner loop
      with its `break`), or `None`. */
  function FirstPresentAlias(aliases: seq<string>, keys: map<string, string>): (j: Option<nat>)
    ensures j.Some? ==> j.value < |aliases| && Norm(aliases[j.value]) in keys
    ensures j.Some? ==> forall q :: 0 <= q < j.value ==> Norm(aliases[q]) !in keys
    ensures j.None? ==> forall q :: 0 <= q < |aliases| ==> Norm(aliases[q]) !in keys
  {
    if aliases == [] then None
    else if Norm(aliases[0]) in keys then Some(0)
    else match FirstPresentAlias(aliases[1..], keys)
      case None => None
      case Some(j) => Some(j + 1)
  }

  /** The actual column that entry `i` of the alias table claims in a frame
      with columns `cols`, if any. */
  function Binding(table: seq<CanonEntry>, cols: seq<string>, i: nat): (b: Option<string>)
    requires i < |table|
    ensures b.Some? ==> b.value in cols
  {
    var keys := NormToActual(cols);
    match FirstPresentAlias(table[i].aliases, keys)
    case None => None
    case Some(j) => Some(keys[Norm(table[i].aliases[j])])
  }

  /** An entry claims a column exactly when one of its aliases has the key
      of some column. */
  lemma BindingNone(table: seq<CanonEntry>, cols: seq<string>, i: nat)
    requires i < |table|
    ensures Binding(table, cols, i).None? <==>
      forall a, c :: a in table[i].aliases && c in cols ==> Norm(a) != Norm(c)
  {
    var keys := NormToActual(cols);
    var al := table[i].aliases;
    if Binding(table, cols, i).None? {
      forall a, c | a in al && c in cols ensures Norm(a) != Norm(c) {
        var q :| 0 <= q < |al| && al[q] == a;
        NormToActualLast(cols, Norm(a));
        var k :| 0 <= k < |cols| && cols[k] == c;
        assert LastKeyIndex(cols, Norm(a)) >= k || Norm(c) != Norm(a);
      }
    } else {
      var j := FirstPresentAlias(al, keys).value;
      NormToActualLast(cols, Norm(al[j]));
      var k := LastKeyIndex(cols, Norm(al[j]));
      assert al[j] in al && cols[k] in cols && Norm(al[j]) == Norm(cols[k]);
    }
  }

  /** What the first `n` entries of the alias table claim, in table order. */
  function ClaimsUpTo(table: seq<CanonEntry>, cols: seq<string>, n: nat): (cs: seq<Option<string>>)
    requires n <= |table|
    ensures |cs| == n
  {
    if n == 0 then [] else ClaimsUpTo(table, cols, n - 1) + [Binding(table, cols, n - 1)]
  }

  function Claims(table: seq<CanonEntry>, cols: seq<string>): (cs: seq<Option<string>>)
    ensures |cs| == |table|
  {
    ClaimsUpTo(table, cols, |table|)
  }

  lemma {:induction false} ClaimsUpToAt(table: seq<CanonEntry>, cols: seq<string>, n: nat, i: nat)
    requires i < n <= |table|
    ensures ClaimsUpTo(table, cols, n)[i] == Binding(table, cols, i)
  {
    if i < n - 1 {
      ClaimsUpToAt(table, cols, n - 1, i);
    }
  }

  /** Entry `i` claims what `Binding` says. */
  lemma ClaimsAt(table: seq<CanonEntry>, cols: seq<string>, i: nat)
    requires i < |table|
    ensures Claims(table, cols)[i] == Binding(table, cols, i)
  {
    ClaimsUpToAt(table, cols, |table|, i);
  }

  /** `rename_map` after the outer loop has visited the first `n` entries,
      given what each entry claims: a later claim of the same column
      overwrites an earlier one. */
  function RenameMapUpTo(table: seq<CanonEntry>, claims: seq<Option<string>>, n: nat): map<string, string>
    requires n <= |table| == |claims|
  {
    if n == 0 then map[]
    else
      var m := RenameMapUpTo(table, claims, n - 1);
      match claims[n - 1]
      case None => m
      case Some(c) => m[c := table[n - 1].canon]
  }

  /** `rename_map` once the loops are done. */
  function RenameMap(table: seq<CanonEntry>, cols: seq<string>): map<string, string> {
    RenameMapUpTo(table, Claims(table, cols), |table|)
  }

  /** `rename_map` holds nothing but claimed columns, each sent to the
      canonical name of an entry that claimed it. */
  lemma {:induction false} RenameMapFrom(table: seq<CanonEntry>, claims: seq<Option<string>>, n: nat, x: string)
    returns (i: nat)
    requires n <= |table| == |claims| && x in RenameMapUpTo(table, claims, n)
    ensures i < n && claims[i] == Some(x) && RenameMapUpTo(table, claims, n)[x] == table[i].canon
  {
    if claims[n - 1] == Some(x) {
      i := n - 1;
    } else {
      i := RenameMapFrom(table, claims, n - 1, x);
    }
  }

  /** One step of the outer loop. */
  lemma RenameMapStep(table: seq<CanonEntry>, claims: seq<Option<string>>, i: nat, claimed: Option<string>)
    requires i < |table| == |claims| && claims[i] == claimed
    ensures claimed.None? ==> RenameMapUpTo(table, claims, i + 1) == RenameMapUpTo(table, claims, i)
    ensures claimed.Some? ==>
      RenameMapUpTo(table, claims, i + 1) == RenameMapUpTo(table, claims, i)[claimed.value := table[i].canon]
  {
  }

  /** No column is claimed twice. */
  ghost predicate ClaimsDistinct(claims: seq<Option<string>>) {
    forall i, l :: 0 <= i < l < |claims| && claims[i].Some? ==> claims[i] != claims[l]
  }

  /** When no column is claimed twice, `rename_map` sends every claimed
      column to the canonical name of the entry that claimed it. */
  lemma {:induction false} RenameMapHas(table: seq<CanonEntry>, claims: seq<Option<string>>, n: nat, i: nat)
    requires i < n <= |table| == |claims| && claims[i].Some? && ClaimsDistinct(claims)
    ensures claims[i].value in RenameMapUpTo(table, claims, n)
    ensures RenameMapUpTo(table, claims, n)[claims[i].value] == table[i].canon
  {
    if i < n - 1 {
      RenameMapHas(table, claims, n - 1, i);
    }
  }

  /** Every column that is renamed gets a canonical name. */
  lemma RenameMapValues(table: seq<CanonEntry>, cols: seq<string>)
    ensures forall x :: x in RenameMap(table, cols) ==> x in cols && RenameMap(table, cols)[x] in Canons(table)
  {
    var claims := Claims(table, cols);
    forall x | x in RenameMap(table, cols)
      ensures x in cols && RenameMap(table, cols)[x] in Canons(table)
    {
      var i := RenameMapFrom(table, claims, |table|, x);
      ClaimsAt(table, cols, i);
    }
  }

  /** `df.rename(columns=m)`: every column named by a key of `m` takes the
      mapped name; the others keep theirs. */
  function Renamed(cols: seq<string>, m: map<string, string>): (r: seq<string>)
    ensures |r| == |cols|
    ensures forall k :: 0 <= k < |cols| ==> r[k] == if cols[k] in m then m[cols[k]] else cols[k]
  {
    seq(|cols|, k requires 0 <= k < |cols| => if cols[k] in m then m[cols[k]] else cols[k])
  }

  /** `standardize_columns` with an explicit alias table. */
  function StandardizeWith(table: seq<CanonEntry>, t: Table): (r: Table)
    ensures r.rows == t.rows && r.columns == Renamed(t.columns, RenameMap(table, t.columns))
  {
    var m := RenameMap(table, t.columns);
    if m == map[] then t else Table(Renamed(t.columns, m), t.rows)
  }

  /** Standardising only renames: the rows stay as they are, and every
      column keeps its position and either its name or takes a canonical
      one. */
  lemma StandardizeOnlyRenames(table: seq<CanonEntry>, t: Table)
    ensures StandardizeWith(table, t).rows == t.rows
    ensures |StandardizeWith(table, t).columns| == |t.columns|
    ensures forall k :: 0 <= k < |t.columns| ==>
      StandardizeWith(table, t).columns[k] == t.columns[k] || StandardizeWith(table, t).columns[k] in Canons(table)
  {
    RenameMapValues(table, t.columns);
  }

  function Standardize(t: Table): Table {
    StandardizeWith(CanonMap, t)
  }

  /** The inner loop of `standardize_columns`: the first alias whose key
      occurs among the frame's keys, found by scanning with `break`. */
  method FindAlias(aliases: seq<string>, keys: map<string, string>) returns (found: Option<nat>)
    ensures found == FirstPresentAlias(aliases, keys)
  {
    found := None;
    var j := 0;
    while j < |aliases|
      invariant 0 <= j <= |aliases|
      invariant forall q :: 0 <= q < j ==> Norm(aliases[q]) !in keys
    {
      if Norm(aliases[j]) in keys {
        FirstPresentAliasUnique(aliases, keys, j);
        found := Some(j);
        break;
      }
      j := j + 1;
    }
  }

  /** The first present alias is the one the inner loop stops at. */
  lemma {:induction false} FirstPresentAliasUnique(aliases: seq<string>, keys: map<string, string>, j: nat)
    requires j < |aliases| && Norm(aliases[j]) in keys
    requires forall q :: 0 <= q < j ==> Norm(aliases[q]) !in keys
    ensures FirstPresentAlias(aliases, keys) == Some(j)
  {
    if j > 0 {
      FirstPresentAliasUnique(aliases[1..], keys, j - 1);
    }
  }

  /** The column entry `i` claims: the actual column stored under the key
      of its first present alias. */
  method ClaimedColumn(table: seq<CanonEntry>, cols: seq<string>, i: nat, normToActual: map<string, string>)
    returns (claimed: Option<string>)
    requires i < |table| && normToActual == NormToActual(cols)
    ensures claimed == Binding(table, cols, i)
  {
    var found := FindAlias(table[i].aliases, normToActual);
    if found.Some? {
      claimed := Some(normToActual[Norm(table[i].aliases[found.value])]);
    } else {
      claimed := None;
    }
  }

  /** The outer loop of `standardize_columns`, over the alias table; each
      entry adds the column it claims, if any, to `rename_map`. */
  method StandardizeColumnsWith(table: seq<CanonEntry>, t: Table) returns (r: Table)
    ensures r == StandardizeWith(table, t)
  {
    var normToActual := NormToActual(t.columns);
    ghost var claims := Claims(table, t.columns);
    var renameMap: map<string, string> := map[];
    var i := 0;
    while i < |table|
      invariant 0 <= i <= |table|
      invariant renameMap == RenameMapUpTo(table, claims, i)
    {
      var claimed := ClaimedColumn(table, t.columns, i, normToActual);
      ClaimsAt(table, t.columns, i);
      RenameMapStep(table, claims, i, claimed);
      if claimed.Some? {
        renameMap := renameMap[claimed.value := table[i].canon];
      }
      i := i + 1;
    }
    if renameMap != map[] {
      r := Table(Renamed(t.columns, renameMap), t.rows);
    } else {
      r := t;
    }
  }

  /** `standardize_columns(df)`: the loops run over `CANON_MAP`. */
  method StandardizeColumns(t: Table) returns (r: Table)
    ensures r == Standardize(t)
  {
    r := StandardizeColumnsWith(CanonMap, t);
  }

  // ---------------------------------------------------------------------
  // Properties of the renaming
  // ---------------------------------------------------------------------

  /** A well-formed alias table: each entry accepts its own canonical name
      first, and no two entries accept names with the same key. */
  ghost predicate WellFormedTable(table: seq<CanonEntry>) {
    (forall i :: 0 <= i < |table| ==> |table[i].aliases| > 0 && table[i].aliases[0] == table[i].canon)
    && (forall i, l, a, b ::
          (0 <= i < |table| && 0 <= l < |table| && i != l && a in table[i].aliases && b in table[l].aliases)
          ==> Norm(a) != Norm(b))
  }

  /** The column an entry claims is the last column having the key of the
      entry's first present alias. */
  lemma BindingColumn(table: seq<CanonEntry>, cols: seq<string>, i: nat) returns (j: nat, k: nat)
    requires i < |table| && Binding(table, cols, i).Some?
    ensures FirstPresentAlias(table[i].aliases, NormToActual(cols)) == Some(j)
    ensures j < |table[i].aliases| && k < |cols|
    ensures k == LastKeyIndex(cols, Norm(table[i].aliases[j])) && Binding(table, cols, i) == Some(cols[k])
  {
    var keys := NormToActual(cols);
    j := FirstPresentAlias(table[i].aliases, keys).value;
    NormToActualLast(cols, Norm(table[i].aliases[j]));
    k := LastKeyIndex(cols, Norm(table[i].aliases[j]));
  }

  /** Two entries of a well-formed table never claim the same column. */
  lemma BindingsDistinct(table: seq<CanonEntry>, cols: seq<string>, i: nat, l: nat)
    requires WellFormedTable(table) && i < |table| && l < |table| && i != l
    requires Binding(table, cols, i).Some? && Binding(table, cols, l).Some?
    ensures Binding(table, cols, i) != Binding(table, cols, l)
  {
    var j, k := BindingColumn(table, cols, i);
    var j', k' := BindingColumn(table, cols, l);
    var a, b := table[i].aliases[j], table[l].aliases[j'];
    assert a in table[i].aliases && b in table[l].aliases;
    assert Norm(a) != Norm(b);
  }

  lemma ClaimsDistinctWellFormed(table: seq<CanonEntry>, cols: seq<string>)
    requires WellFormedTable(table)
    ensures ClaimsDistinct(Claims(table, cols))
  {
    var claims := Claims(table, cols);
    forall i, l | 0 <= i < l < |claims| && claims[i].Some?
      ensures claims[i] != claims[l]
    {
      ClaimsAt(table, cols, i);
      ClaimsAt(table, cols, l);
      if claims[l].Some? {
        BindingsDistinct(table, cols, i, l);
      }
    }
  }

  /** The name a column gets from the renaming: its own when no entry
      claimed it, otherwise the canonical name of the entry that did. */
  lemma RenamedColumn(table: seq<CanonEntry>, cols: seq<string>, k: nat) returns (l: Option<nat>)
    requires k < |cols|
    ensures var cols' := Renamed(cols, RenameMap(table, cols));
      match l
      case None => cols[k] !in RenameMap(table, cols) && cols'[k] == cols[k]
      case Some(e) => e < |table| && Binding(table, cols, e) == Some(cols[k]) && cols'[k] == table[e].canon
  {
    var m := RenameMap(table, cols);
    if cols[k] in m {
      var e := RenameMapFrom(table, Claims(table, cols), |table|, cols[k]);
      ClaimsAt(table, cols, e);
      l := Some(e);
    } else {
      l := None;
    }
  }

  /** An entry whose first alias's key occurs claims the last column
      having that key. */
  lemma ClaimIsLastWithFirstKey(table: seq<CanonEntry>, cols: seq<string>, i: nat, k: nat)
    requires i < |table| && |table[i].aliases| > 0
    requires k < |cols| && Norm(cols[k]) == Norm(table[i].aliases[0])
    ensures k <= LastKeyIndex(cols, Norm(table[i].aliases[0]))
    ensures Binding(table, cols, i) == Some(cols[LastKeyIndex(cols, Norm(table[i].aliases[0]))])
  {
    var n0 := Norm(table[i].aliases[0]);
    NormToActualLast(cols, n0);
    FirstPresentAliasUnique(table[i].aliases, NormToActual(cols), 0);
  }

  /** After the renaming, an entry that claimed nothing still claims
      nothing. */
  lemma UnclaimedAfterRename(table: seq<CanonEntry>, cols: seq<string>, i: nat)
    requires WellFormedTable(table) && i < |table| && Binding(table, cols, i).None?
    ensures Binding(table, Renamed(cols, RenameMap(table, cols)), i).None?
  {
    var cols' := Renamed(cols, RenameMap(table, cols));
    var al := table[i].aliases;
    BindingNone(table, cols, i);
    forall a, c' | a in al && c' in cols' ensures Norm(a) != Norm(c') {
      var k :| 0 <= k < |cols'| && cols'[k] == c';
      var l := RenamedColumn(table, cols, k);
      if l.Some? {
        var e := l.value;
        assert table[e].aliases[0] in table[e].aliases;
      } else {
        assert cols[k] in cols;
      }
    }
    BindingNone(table, cols', i);
  }

  /** A column that keeps its name but has the key of an entry's first
      alias lies before the column that takes the entry's canonical name. */
  lemma UnrenamedKeyComesEarlier(table: seq<CanonEntry>, cols: seq<string>, i: nat, k: nat)
    requires WellFormedTable(table) && i < |table| && Binding(table, cols, i).Some?
    requires k < |cols| && cols[k] !in RenameMap(table, cols)
    requires Norm(cols[k]) == Norm(table[i].aliases[0])
    ensures k < LastKeyIndex(Renamed(cols, RenameMap(table, cols)), Norm(table[i].aliases[0]))
  {
    var m := RenameMap(table, cols);
    var cols' := Renamed(cols, m);
    var n0 := Norm(table[i].aliases[0]);
    ClaimIsLastWithFirstKey(table, cols, i, k);
    var K2 := LastKeyIndex(cols, n0);
    ClaimsDistinctWellFormed(table, cols);
    ClaimsAt(table, cols, i);
    RenameMapHas(table, Claims(table, cols), |table|, i);
    assert cols[K2] in m && k != K2;
    assert cols'[K2] == table[i].canon == table[i].aliases[0];
  }

  /** After the renaming, an entry that claimed a column claims the column
      now carrying its canonical name. */
  lemma ClaimedAfterRename(table: seq<CanonEntry>, cols: seq<string>, i: nat)
    requires WellFormedTable(table) && i < |table| && Binding(table, cols, i).Some?
    ensures Binding(table, Renamed(cols, RenameMap(table, cols)), i) == Some(table[i].canon)
  {
    var m := RenameMap(table, cols);
    var cols' := Renamed(cols, m);
    var al := table[i].aliases;
    assert al[0] in al;
    var c := Binding(table, cols, i).value;
    ClaimsDistinctWellFormed(table, cols);
    ClaimsAt(table, cols, i);
    RenameMapHas(table, Claims(table, cols), |table|, i);
    var K :| 0 <= K < |cols| && cols[K] == c;
    assert cols'[K] == table[i].canon;
    var n0 := Norm(al[0]);
    NormToActualLast(cols', n0);
    var K' := LastKeyIndex(cols', n0);
    assert K <= K';
    FirstPresentAliasUnique(al, NormToActual(cols'), 0);
    assert Binding(table, cols', i) == Some(cols'[K']);
    var l := RenamedColumn(table, cols, K');
    if l.Some? {
      var e := l.value;
      assert table[e].aliases[0] in table[e].aliases;
      assert e == i;
    } else {
      UnrenamedKeyComesEarlier(table, cols, i, K');
      assert false;
    }
  }

  /** After the renaming, an entry that claimed a column claims its own
      canonical name, and an entry that claimed nothing still claims
      nothing. */
  lemma BindingAfterRename(table: seq<CanonEntry>, cols: seq<string>, i: nat)
    requires WellFormedTable(table) && i < |table|
    ensures var cols' := Renamed(cols, RenameMap(table, cols));
      Binding(table, cols', i) == if Binding(table, cols, i).Some? then Some(table[i].canon) else None
  {
    if Binding(table, cols, i).None? {
      UnclaimedAfterRename(table, cols, i);
    } else {
      ClaimedAfterRename(table, cols, i);
    }
  }

  /** Renaming a second time changes nothing: every column the second pass
      would rename already carries the name it would get. */
  lemma RenameMapFixes(table: seq<CanonEntry>, cols: seq<string>)
    requires WellFormedTable(table)
    ensures var cols' := Renamed(cols, RenameMap(table, cols));
      forall x :: x in RenameMap(table, cols') ==> RenameMap(table, cols')[x] == x
  {
    var cols' := Renamed(cols, RenameMap(table, cols));
    forall x | x in RenameMap(table, cols') ensures RenameMap(table, cols')[x] == x {
      var e := RenameMapFrom(table, Claims(table, cols'), |table|, x);
      ClaimsAt(table, cols', e);
      BindingAfterRename(table, cols, e);
    }
  }

  /** `standardize_columns` is idempotent for a well-formed alias table. */
  lemma StandardizeIdempotentWith(table: seq<CanonEntry>, t: Table)
    requires WellFormedTable(table)
    ensures StandardizeWith(table, StandardizeWith(table, t)) == StandardizeWith(table, t)
  {
    var t' := StandardizeWith(table, t);
    RenameMapFixes(table, t.columns);
    assert Renamed(t'.columns, RenameMap(table, t'.columns)) == t'.columns;
  }

  /** An entry that claims a column puts its canonical name among the
      standardised columns. */
  lemma CanonFromClaim(table: seq<CanonEntry>, cols: seq<string>, i: nat)
    requires WellFormedTable(table) && i < |table| && Binding(table, cols, i).Some?
    ensures table[i].canon in Renamed(cols, RenameMap(table, cols))
  {
    var m := RenameMap(table, cols);
    var c := Binding(table, cols, i).value;
    ClaimsDistinctWellFormed(table, cols);
    ClaimsAt(table, cols, i);
    RenameMapHas(table, Claims(table, cols), |table|, i);
    var K :| 0 <= K < |cols| && cols[K] == c;
    assert Renamed(cols, m)[K] == table[i].canon;
  }

  /** A canonical name among the standardised columns comes from a column
      matching one of the entry's aliases. */
  lemma ClaimFromCanon(table: seq<CanonEntry>, cols: seq<string>, i: nat)
    requires WellFormedTable(table) && i < |table|
    requires table[i].canon in Renamed(cols, RenameMap(table, cols))
    ensures Binding(table, cols, i).Some?
  {
    var cols' := Renamed(cols, RenameMap(table, cols));
    var al := table[i].aliases;
    var k :| 0 <= k < |cols'| && cols'[k] == table[i].canon;
    var l := RenamedColumn(table, cols, k);
    if l.Some? {
      var e := l.value;
      assert al[0] in al && table[e].aliases[0] in table[e].aliases;
      assert e == i;
    } else {
      BindingNone(table, cols, i);
      assert al[0] in al && cols[k] in cols && Norm(al[0]) == Norm(cols[k]);
    }
  }

  /** Entry `i`'s canonical name is a column after standardising exactly
      when one of its aliases matches some column up to `_norm`. */
  lemma StandardizeHasCanon(table: seq<CanonEntry>, t: Table, i: nat)
    requires WellFormedTable(table) && i < |table|
    ensures table[i].canon in StandardizeWith(table, t).columns <==>
      exists a, c :: a in table[i].aliases && c in t.columns && Norm(a) == Norm(c)
  {
    BindingNone(table, t.columns, i);
    if Binding(table, t.columns, i).Some? {
      CanonFromClaim(table, t.columns, i);
    }
    if table[i].canon in StandardizeWith(table, t).columns {
      ClaimFromCanon(table, t.columns, i);
    }
  }
}
