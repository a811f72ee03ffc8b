# AA flight preprocessing, modelled in Dafny

This project models the two preprocessing scripts that build the
American Airlines on-time data set.

- `preprocessing/flight_data_extract_by_month.py` extracts months of data. For each year and month:
  - it takes the month's on-time CSV;
  - it renames the columns to canonical names (`standardize_columns`, driven by `CANON_MAP` and `_norm`);
  - it keeps domestic flights (`filter_domestic`) and flights whose carrier is AA (`keep_aa`);
  - it projects the rows onto `OUTPUT_COLS` (`select_output_cols`).

  This is done block by block when a chunksize is given (`process_month`). `main` either appends each month's result to the output as it goes, or collects all months and writes their concatenation once. When nothing was collected, it exits with status 2.
- `preprocessing/filter_aa_by_airports.py` keeps the rows of one file whose carrier is the requested one and whose origin and destination are both among the requested airports:
  - it picks the three columns case-insensitively from lists of candidate names (`_pick_column`);
  - it validates them before deleting the old output;
  - it streams the input in blocks and writes a single header with the first non-empty block.

The model works on in-memory tables (`Tables.Table`):

- an ordered list of column names;
- rows of optional strings, where `None` is pandas' missing value, since both scripts read with `dtype=str`;
- an output CSV is a sequence of `Record`s, each a header line or a data line;
- the file system is explicit:
  - the month sources are a `fetch` parameter;
  - the airport filter's input and output files are `Option` values, with `None` meaning absent.

Modules:

| file | module | contents |
|---|---|---|
| `ascii.dfy` | `Ascii` | `str.upper()` and `str.strip()` on ASCII |
| `tables.dfy` | `Tables` | tables, `df.loc[mask]`, `pd.concat`, the chunking of `read_csv`, CSV records |
| `schema.dfy` | `Schema` | `_norm`, the constants, and `standardize_columns`, both as a function and as the loop the source runs |
| `canon_table.dfy` | `CanonTable` | the proof that `CANON_MAP` is a well-formed alias table, and its consequences |
| `stages.dfy` | `Stages` | `filter_domestic`, `keep_aa`, `select_output_cols` and the composed pipeline |
| `month_driver.dfy` | `MonthDriver` | `process_month`, `append_write` and both modes of `main` |
| `airport_filter.dfy` | `AirportFilter` | the whole airport-pair filter |

Operations that change things step by step are methods, each proved equal to a specification function. These are the renaming loop, the chunk loops, the month loops and the block loop of `filter_file`. The properties are then proved about the specification functions.

## Model

All sources are in `preprocessing/`.

| member | source | states |
|---|---|---|
| Schema.NormIsFilter | preprocessing/flight_data_extract_by_month.py:104-106 | `_norm(s)` is `s` upper-cased with every character other than `A`-`Z` and `0`-`9` removed, in order |
| Schema.NormAppend | preprocessing/flight_data_extract_by_month.py:104-106 | `_norm` distributes over concatenation |
| Schema.NormFixpoint | preprocessing/flight_data_extract_by_month.py:104-106 | a name is its own key if and only if it consists of capital letters and digits only |
| Schema.NormIdempotent | preprocessing/flight_data_extract_by_month.py:104-106 | normalising a key again changes nothing |
| Schema.NormUpper | preprocessing/flight_data_extract_by_month.py:104-106 | upper-casing before `_norm` changes nothing, so the matching ignores case |
| Schema.NormToActualLast | preprocessing/flight_data_extract_by_month.py:110 | in `norm_to_actual` a key maps to the last column having that key (later columns overwrite earlier ones), and a key is present iff some column has it |
| Schema.FirstPresentAlias | preprocessing/flight_data_extract_by_month.py:113-117 | the alias used for an entry is the first in its list whose key is present; no earlier alias is present; none is used when no alias is present |
| Schema.BindingNone | preprocessing/flight_data_extract_by_month.py:112-117 | an entry renames no column iff none of its aliases shares a key with any column |
| Schema.RenameMapHas | preprocessing/flight_data_extract_by_month.py:116 | when no two entries claim the same column, a column claimed by an entry is renamed to that entry's canonical name, whatever the later entries do |
| Schema.RenameMapValues | preprocessing/flight_data_extract_by_month.py:111-117 | `rename_map` maps only existing columns, and only to canonical names |
| Schema.StandardizeOnlyRenames | preprocessing/flight_data_extract_by_month.py:118-120 | renaming keeps the rows and the number of columns; each column keeps its name or takes a canonical one |
| Schema.FindAlias | preprocessing/flight_data_extract_by_month.py:113-117 | the inner loop with its `break` stops at the first alias whose key is present |
| Schema.ClaimedColumn | preprocessing/flight_data_extract_by_month.py:113-116 | one turn of the outer loop finds the column the entry claims through `norm_to_actual` |
| Schema.StandardizeColumnsWith | preprocessing/flight_data_extract_by_month.py:108-120 | the loops that build `rename_map` and then rename compute the specification of the renaming, for any alias table |
| Schema.StandardizeColumns | preprocessing/flight_data_extract_by_month.py:108-120 | `standardize_columns` with `CANON_MAP` computes `Standardize` |
| Schema.StandardizeIdempotentWith | preprocessing/flight_data_extract_by_month.py:108-120 | for a well-formed alias table, renaming a renamed frame changes nothing. Well-formed means each entry's first alias is its canonical name, and aliases of different entries never share a key |
| Schema.StandardizeHasCanon | preprocessing/flight_data_extract_by_month.py:108-120 | after renaming, the canonical name of an entry is a column iff some alias of it shares a key with some input column |
| CanonTable.CanonMapWellFormed | preprocessing/flight_data_extract_by_month.py:55-94 | `CANON_MAP` is a well-formed alias table: every entry lists its canonical name first, and no two entries have aliases with the same key |
| CanonTable.StandardizeIdempotent | preprocessing/flight_data_extract_by_month.py:108-120 | `standardize_columns` is idempotent, which makes the repeated calls inside `filter_domestic`, `keep_aa` and `select_output_cols` harmless |
| CanonTable.StandardizeHasCanonName | preprocessing/flight_data_extract_by_month.py:55-120 | a canonical column of `CANON_MAP` appears after renaming iff the input has a column whose key is one of its aliases' keys |
| Stages.FilterDomestic | preprocessing/flight_data_extract_by_month.py:153-174 | the result has the renamed columns and a subsequence of the input rows in their order |
| Stages.FilterDomesticByCountry | preprocessing/flight_data_extract_by_month.py:161-163 | with both country columns, a row is kept iff both are `UNITED STATES` |
| Stages.FilterDomesticByState | preprocessing/flight_data_extract_by_month.py:165-171 | otherwise, with both state columns, a row is kept iff both states are present and, when territories are excluded, neither is in `US_TERRITORY_STATE_ABR` |
| Stages.FilterDomesticUnfiltered | preprocessing/flight_data_extract_by_month.py:173-174 | with neither pair of columns, the renamed frame is returned whole |
| Stages.CarrierColumn | preprocessing/flight_data_extract_by_month.py:182-192 | the carrier column is the preferred one (marketing or operating), else the other one, else none |
| Stages.KeepAA | preprocessing/flight_data_extract_by_month.py:176-198 | the `KeyError` is raised, with the renamed columns, iff neither carrier column is present; otherwise the columns are kept and the rows are a subsequence of the input |
| Stages.KeepAARows | preprocessing/flight_data_extract_by_month.py:198 | a row is kept iff its carrier cell is exactly `AA` |
| Stages.PresentOutputColsMembers | preprocessing/flight_data_extract_by_month.py:202 | the selected columns are exactly those of `OUTPUT_COLS` present in the frame, without repetition |
| Stages.SelectOutputCols | preprocessing/flight_data_extract_by_month.py:200-212 | an empty frame when no output column is present; otherwise the present output columns in `OUTPUT_COLS` order, one row per input row, every row complete |
| Stages.SelectOutputColsValues | preprocessing/flight_data_extract_by_month.py:205 | every selected cell is the input's cell of the same column and row |
| Stages.ProcessTableFailure | preprocessing/flight_data_extract_by_month.py:249-252 | the pipeline fails iff no carrier column survives renaming, and it fails with `keep_aa`'s error |
| Stages.ProcessTableRows | preprocessing/flight_data_extract_by_month.py:249-252 | the pipeline's output is the rows passing both the domestic rule and the AA test, realigned onto the present output columns, or the empty frame |
| Stages.ExtractRowsAppend | preprocessing/flight_data_extract_by_month.py:246-262 | running the pipeline on two blocks gives the rows of running it on their concatenation, so blocks can be processed separately |
| Tables.Chunks | preprocessing/flight_data_extract_by_month.py:247 | the blocks of `read_csv(chunksize=n)` concatenate back to the rows; each block has at most `n` rows, and all but the last have exactly `n` |
| Tables.Filter | preprocessing/flight_data_extract_by_month.py:163 | `df.loc[mask]` keeps a subsequence of the rows, no longer than the input, with each row's multiplicity kept when the mask accepts it and zeroed when it does not |
| Tables.FilterAppend | preprocessing/flight_data_extract_by_month.py:246-254 | selecting rows distributes over concatenation |
| Tables.Concat | preprocessing/flight_data_extract_by_month.py:266 | `pd.concat` has, without repetition, exactly the columns some frame has, and one row per input row |
| Tables.UnionColumnsSnoc | preprocessing/flight_data_extract_by_month.py:266 | the concatenation's columns are in order of first appearance: one more frame appends its columns not seen before, in its own order |
| Tables.ConcatRowAt | preprocessing/flight_data_extract_by_month.py:266 | row `j` of frame `i` comes after all rows of the earlier frames, and holds its own values under its own column names and `None` under the columns its frame lacks |
| Tables.ConcatSameColumns | preprocessing/flight_data_extract_by_month.py:264-266 | concatenating frames with the same distinct columns keeps those columns and chains the rows |
| MonthDriver.FilterChunks | preprocessing/flight_data_extract_by_month.py:246-254 | the chunk loop fails iff the whole-file pipeline fails, with its error; otherwise the parts kept are non-empty, have the output columns and hold exactly the rows the whole-file pipeline produces |
| MonthDriver.GatheredAll | preprocessing/flight_data_extract_by_month.py:264-266 | concatenating the gathered parts gives the month's result, and no parts give the empty frame |
| MonthDriver.ProcessMonth | preprocessing/flight_data_extract_by_month.py:218-266 | `process_month` returns `MonthSpec`. No URL, an empty download or no CSV member gives the empty frame; a negative chunksize fails; `keep_aa`'s error propagates; otherwise the result is the unchunked pipeline's output, or the empty frame in place of an empty output, whatever the chunksize |
| MonthDriver.MonthShape | preprocessing/flight_data_extract_by_month.py:218-266 | a month's result is either the empty frame or a non-empty frame with distinct columns and complete rows |
| MonthDriver.AppendWrite | preprocessing/flight_data_extract_by_month.py:272-276 | an empty frame leaves the file and the flag alone; otherwise exactly the frame's own header (iff none was written yet) and then its rows go after the existing lines, and the flag becomes true |
| MonthDriver.AppendedFileHeaders | preprocessing/flight_data_extract_by_month.py:296-314 | the appended file holds exactly one header once anything is written, and it names the first written month's columns |
| MonthDriver.YearResults | preprocessing/flight_data_extract_by_month.py:299-300 | a year contributes its months 1 to 12 in order |
| MonthDriver.CollectedAppend | preprocessing/flight_data_extract_by_month.py:316-331 | collecting the non-empty results distributes over the sequence of months |
| MonthDriver.AppendMonth | preprocessing/flight_data_extract_by_month.py:301-312 | one month in append mode extends the file and flag of the months before it to those of one more month; a failed month is skipped |
| MonthDriver.RunAppend | preprocessing/flight_data_extract_by_month.py:296-314 | append mode leaves the file built by appending every successful non-empty month, years in the given order and months 1 to 12; failed and empty months add nothing |
| MonthDriver.CollectMonth | preprocessing/flight_data_extract_by_month.py:319-331 | one month in collect mode adds its result when it succeeded and is non-empty |
| MonthDriver.RunCollect | preprocessing/flight_data_extract_by_month.py:316-339 | collect mode exits with 2 and writes nothing when no month gave data; otherwise it exits normally and writes the concatenation of the collected months under one header |
| MonthDriver.AppendMatchesCollect | preprocessing/flight_data_extract_by_month.py:296-339 | when all collected months have the same columns, append mode writes the same file as collect mode |
| AirportFilter.FirstMatch | preprocessing/filter_aa_by_airports.py:25-27 | the position of the first column equal to the candidate ignoring case; none when no column matches |
| AirportFilter.PickColumn | preprocessing/filter_aa_by_airports.py:20-28 | `None` iff no candidate equals any column ignoring case; otherwise one of the columns as the file spells it |
| AirportFilter.PickColumnEarliest | preprocessing/filter_aa_by_airports.py:22-27 | the column returned matches the earliest candidate that matches anything, and is the first column matching it |
| AirportFilter.PickColumnIgnoresCase | preprocessing/filter_aa_by_airports.py:21-26 | the choice depends on the candidates only through their upper-cased spelling |
| AirportFilter.PickColumns | preprocessing/filter_aa_by_airports.py:49-56 | the carrier `KeyError` is raised iff no carrier candidate is present; otherwise the origin/destination `KeyError` is raised iff no origin candidate or no destination candidate is present; on success the three columns are `_pick_column`'s choices, all of them header columns |
| AirportFilter.KeyIdempotent | preprocessing/filter_aa_by_airports.py:43 | stripping and upper-casing twice is the same as once |
| AirportFilter.AirportSetKeys | preprocessing/filter_aa_by_airports.py:43 | stripping and upper-casing the airports before building `airports_set` gives the same set |
| AirportFilter.KeepRowNormalisedArgs | preprocessing/filter_aa_by_airports.py:43-73 | the mask keeps the same rows whether the carrier argument is upper-cased or not, and whether the airports are stripped and upper-cased or not |
| AirportFilter.Written | preprocessing/filter_aa_by_airports.py:59-80 | the output holding the kept rows is absent iff none is kept; otherwise it starts with the single header |
| AirportFilter.AppendCsv | preprocessing/filter_aa_by_airports.py:79 | an append creates the file if needed, keeps the lines already there, and adds after them the header (iff asked) and then one line per row; the header count grows by one iff a header is asked for |
| AirportFilter.WriteBlock | preprocessing/filter_aa_by_airports.py:75-80 | an empty block is skipped; a non-empty one extends the output of the blocks before it to the output of both |
| AirportFilter.WriteBlocks | preprocessing/filter_aa_by_airports.py:61-80 | the block loop leaves exactly the file of all kept rows, with one header, whatever the blocks |
| AirportFilter.FilterFile | preprocessing/filter_aa_by_airports.py:31-80 | `filter_file` leaves the error and output file of `FilterSpec`, for every chunksize |
| AirportFilter.FilterErrors | preprocessing/filter_aa_by_airports.py:40-63 | the missing-input error is raised iff there is no input; the carrier and the origin/destination `KeyError`s are raised exactly under `PickColumns`' conditions; these raise before the output is deleted, so an existing output survives them; a negative chunksize fails after the deletion, so no output remains |
| AirportFilter.FilterOutput | preprocessing/filter_aa_by_airports.py:59-80 | a successful run leaves no output file iff no row passes the mask; otherwise one header followed by the kept rows |
| AirportFilter.KeptRows | preprocessing/filter_aa_by_airports.py:73-79 | the rows written are the input rows themselves, unnormalised and in file order, and a row is written iff it passes the mask |
| AirportFilter.FilterSpecChunksize | preprocessing/filter_aa_by_airports.py:63 | any accepted chunksize gives the same run as reading the file whole; a negative one fails |
| AirportFilter.Split | preprocessing/filter_aa_by_airports.py:93 | `split(',')` gives at least one piece and no piece contains the separator |
| AirportFilter.JoinSplit | preprocessing/filter_aa_by_airports.py:93 | joining the pieces with the separator gives back the argument |
| AirportFilter.SplitJoin | preprocessing/filter_aa_by_airports.py:93 | splitting a join of separator-free pieces gives back the pieces |
| AirportFilter.ParseAirports | preprocessing/filter_aa_by_airports.py:93 | every parsed airport is non-empty, already stripped and upper-cased, and free of commas |
| AirportFilter.ParseJoin | preprocessing/filter_aa_by_airports.py:87-93 | a list of normalised, non-empty, comma-free codes survives joining and parsing unchanged |
| AirportFilter.DefaultAirportsParse | preprocessing/filter_aa_by_airports.py:17-93 | the default `--airports` argument parses back to `DEFAULT_AIRPORTS` |
| AirportFilter.ChunksizeOption | preprocessing/filter_aa_by_airports.py:94 | the chunksize passed on is the argument iff it is positive, and `None` otherwise |
| AirportFilter.MainChunksize | preprocessing/filter_aa_by_airports.py:94-96 | whatever the chunksize argument, `main` behaves as reading the file whole and never fails on the chunksize |
| AirportFilter.MainAirportSet | preprocessing/filter_aa_by_airports.py:43-93 | the airport set `filter_file` builds from `main`'s list is exactly the parsed codes |

## Left out

- Network and archive handling is not modelled: `month_url`, `download_zip`, HTTP retries and timeouts, and the ZIP lookup. What a month's download yields is a `MonthSource` value, and the download is the `fetch` parameter. Progress bars, log messages and `argparse` are left out too.
- Files are values:
  - what `read_csv` parses is a `Table`, and what `to_csv` writes is a sequence of `Record`s;
  - CSV quoting and encoding are not modelled;
  - the header read with `nrows=0` is the table's column list.
- AirportFilter.FilterSpec: takes the input table and the old output file as independent values, so it assumes the input and output paths differ. When they name the same file, `filter_file` deletes the input along with the old output (filter_aa_by_airports.py:59-60), and the `read_csv` that follows fails. The model instead succeeds and writes the kept rows.
- `str.upper()`, `str.strip()` and `_norm`'s regular expression are modelled on ASCII only. Non-ASCII letters and white space are not case-folded or stripped.
- Duplicate column names are not modelled. `read_csv` de-duplicates them, and a rename onto an existing name, which pandas would allow, is out of scope. A cell lookup takes the first column of that name.
- `astype("string")` / `astype(str)` is treated as the identity, because everything is read as strings.
- Memory use is not modelled, so the model does not capture that streaming bounds memory.
- Two assumptions about `read_csv`'s chunked reader:
  - a file with a header and no rows yields one empty block;
  - a negative chunksize is refused with an error.
- The `--include_territories` flag uses `store_true` with a default of `True`, so the option cannot switch territories off. The model takes the flag as a parameter and covers both values.
- The airport filter compares the carrier cell, stripped and upper-cased, with the carrier argument upper-cased but not stripped. An argument with surrounding blanks therefore matches no row. The model keeps this behaviour.
- MonthDriver.AppendMatchesCollect: requires that all collected months have the same columns. When months have different schemas, append mode writes each month's rows under the first month's header, while collect mode realigns them onto the union of the columns. The two files then differ, and the lemma says nothing about that case.
- The source has no cancellation between blocks or months, so the model has none.
- `CANON_MAP` is written as a table indexed by entry, with each name spelled as a concatenation of its words. The strings are the same as the source's.
