# Table 7 to EPDx, in Dafny

A model of the converter in `src/main.py` of the table7 repository. The converter
reads the Danish BR18 "Tabel 7" spreadsheet of generic environmental data and writes
one EPDx Environmental Product Declaration (EPD) per product row. The model covers
the record-building layer:

- `convert_unit` and `convert_subtype`: the unit code and the "Data type" phrase
  become EPDx enumeration members;
- `convert_gwp`: a global-warming-potential (GWP) cell becomes a value per declared unit,
  or null for "-";
- `convert_lcabyg_id`: the identifier comes from a lookup table, else a freshly
  generated one;
- `EPDx.from_dict`: the fields of the declaration are built from one row;
- `parse_row`: a section row (identifier starting with `#S`) is skipped;
- `main`: its loop over the rows stops at the first exception;
- the output directory: each declaration is written to a file named after its identifier.

Files:

- `wrappers.dfy`: `Option` and `Result`.
- `pyfloat.dfy`: Python's `float(text)` over the reals, as a scanner that reads one
  character at a time. It has lemmas about the numerals it accepts and the ones it refuses.
- `epdx.dfy`: the EPDx record shape the converter fills in.
- `table7.dfy`: the per-cell conversions, `from_dict` and `parse_row`.
  - A Python exception is a `Failure` carrying the exception kind: `TypeError`, `ValueError`,
    `ZeroDivisionError` or `AttributeError`.
  - A cell read with `row.get(column)` is `Some(text)`, or `None` when the column is absent.
- `batch.dfy`: the run over a whole table and the resulting output directory.

Everything is pure: the source builds values and never updates an object in place.
Three things become parameters:

- the rows already read from the CSV file;
- the identifier lookup table, already loaded, as a map;
- the supply of freshly generated identifiers, as a function of the row's position.

The GWP record has fifteen modules, `a1a3` through `d`. `source` is the plain
text "BR18 - Tabel 7", and the row's URL goes under `meta_fields["data_source"]`.

## Model

| member | source | states |
|---|---|---|
| `Table7.Get` | src/main.py:15-54 | `row.get(column)`: the cell exactly when the column is present, otherwise None. |
| `Table7.StartsWith` | src/main.py:67 | `str.startswith`: the text is at least as long as the prefix and agrees with it character by character. |
| `PyFloat.ParseFloat` | src/main.py:15 | `float(text)` on a decimal literal. Only text containing a digit converts, so "", "-", "." and blanks raise. |
| `Table7.Float` | src/main.py:15 | `float(None)` raises TypeError. Text that is a decimal literal converts to the number `ParseFloat` reads from it. Any other text raises ValueError carrying the text. Accepted text contains a digit. |
| `PyFloat.ParseDigits` | src/main.py:15 | A string of decimal digits converts to the number it writes. |
| `PyFloat.ParseShowNat` | src/main.py:15 | The decimal numeral of any natural number converts back to that number. |
| `PyFloat.ParseNegativeShowNat` | src/main.py:15 | A minus sign before a numeral gives the negated number. |
| `PyFloat.ParseIgnoresSurroundingSpace` | src/main.py:15 | Any whitespace before and after the literal does not change the result. |
| `PyFloat.DigitsValueShowNat` | src/main.py:15 | Reading digits inverts writing a natural number in decimal. |
| `PyFloat.ParseHundred` | src/main.py:109 | "100" converts to 100. |
| `PyFloat.ParseTwoAndAHalf` | src/main.py:109 | "2.5" converts to 2.5. |
| `PyFloat.ParseNegativeExponent` | src/main.py:109 | "-1e2" converts to -100. |
| `PyFloat.ParseRefusals` | src/main.py:109 | "-", ".", "1e", "abc" and "" do not convert. |
| `Table7.ConvertUnit` | src/main.py:79-94 | The result is a known unit exactly when the code is one of STK, M, M2, M3, KG, L. A known unit is the one its code names. Anything else, including a missing cell, is UNKNOWN. |
| `Table7.UnitCode` | src/main.py:81-92 | Every known unit has a code among the six recognised ones. |
| `Table7.UnitCodeRoundTrip` | src/main.py:79-92 | Converting a known unit's code gives that unit back. |
| `Table7.ConvertUnitInjective` | src/main.py:79-92 | Distinct recognised codes give distinct units. |
| `Table7.ConvertSubtype` | src/main.py:97-102 | Generic exactly for "Generisk data" and Industry exactly for "Branche data". Any other phrase, or a missing cell, gives null. |
| `Table7.Divide` | src/main.py:109 | The quotient times the divisor is the dividend. |
| `Table7.ConvertGwp` | src/main.py:105-109 | Null exactly for "-". Otherwise the call succeeds exactly when the cell converts and the factor is nonzero. An unconvertible cell raises that cell's exception, and a zero factor raises ZeroDivisionError. The value times the factor is the cell's number. The call succeeds exactly when the cell is accepted: "-", or a number with a nonzero factor. |
| `Table7.ConvertGwpExamples` | src/main.py:105-109 | "100" over 2 gives 50; "abc" raises ValueError; "-" gives null. |
| `Table7.ResolveId` | src/main.py:74-76 | A mapped identifier gives its entry in the lookup table. An unmapped or missing one gives the fresh identifier. |
| `Table7.Gwp` | src/main.py:34-53 | The GWP record is built exactly when all four GWP cells are accepted. `a1a3`, `c3`, `c4` and `d` each hold their cell's value per declared unit, or null for "-". The other eleven modules are null. When a cell fails, the exception is that of the first failing cell, in the order a1a3, c3, c4, d. |
| `Table7.FromDict` | src/main.py:14-56 | A row converts exactly when both factors are numbers and all four GWP cells are accepted. The declared factor's exception comes first, then the mass factor's, then that of the first failing GWP cell. |
| `Table7.FromDictFields` | src/main.py:16-54 | The id is resolved from the row's identifier, which also becomes the comment. The name comes from "Navn DK". The unit and subtype go through their conversions. The link goes under `data_source`. |
| `Table7.FromDictConstants` | src/main.py:18-29 | Format version 0.2.8, dataset version "version 2 - 201222", valid until 2025-12-22, published 2020-12-22, source "BR18 - Tabel 7", EN 15804 A1, no service life, location DK. |
| `Table7.FromDictConversions` | src/main.py:30-33 | Exactly one conversion: to KG, valued at mass factor times declared factor. |
| `Table7.FromDictGwp` | src/main.py:34-53 | The four GWP modules use the one declared factor; the other eleven are null. |
| `Table7.ParseRow` | src/main.py:66-69 | A row without an identifier raises AttributeError. A `#S` row gives nothing. Any other row gives `from_dict`'s declaration when `from_dict` succeeds, and `from_dict`'s exception otherwise. A declaration is commented with its row's identifier, which never starts with `#S`. |
| `Table7.ConcreteRow` | src/main.py:14-69 | A concrete row mapped to "abc-001" gives id "abc-001", unit KG, subtype Generic, A1-A3 of 10, C3 null, and the single conversion to 1 KG. |
| `Batch.Outcomes` | src/main.py:62-63 | One outcome per row, each that row's `parse_row` outcome. |
| `Batch.OutcomesTail` | src/main.py:62-63 | The outcomes of the rows after the first are the outcomes after the first. |
| `Batch.Collect` | src/main.py:62-63 | The loop writes no more declarations than there are rows. An exception that stops it is the exception of one of the rows. |
| `Batch.ConvertTable` | src/main.py:59-63 | `main` writes no more declarations than there are rows. |
| `Batch.OutcomesPrefix` | src/main.py:62-63 | The outcomes of the first k rows are the first k outcomes. |
| `Batch.CollectAppend` | src/main.py:62-63 | Running two runs of rows in turn is running them joined. The second is reached only when the first runs through. |
| `Batch.CollectCompletes` | src/main.py:62-63 | A run goes through exactly when no row raises, and then it writes every declaration. |
| `Batch.CollectStopsAtFirstFailure` | src/main.py:62-63 | A stopped run stopped at the first failing row and wrote exactly what the rows before it produce. |
| `Batch.EmittedKeptRows` | src/main.py:62-69 | When no row raises, the declarations are one per non-section row, in order, commented with its identifier. |
| `Batch.EmittedNoSectionRow` | src/main.py:66-68 | No declaration comes from a section row. |
| `Batch.ConvertTableCompletes` | src/main.py:59-63 | A table runs through exactly when every row's `parse_row` succeeds. |
| `Batch.ConvertTableWritesKeptRows` | src/main.py:59-69 | A table that runs through writes one declaration per non-section row, in row order. |
| `Batch.EmittedKeptDecls` | src/main.py:62-69 | When the run goes through, it writes `from_dict` of each non-section row, in row order. |
| `Batch.ConvertTableWritesKeptDecls` | src/main.py:59-69 | A table that runs through writes exactly `from_dict` of each non-section row, in row order, as the independent filter-and-map `KeptDecls` gives it. |
| `Batch.ConvertTableSkipsSectionRows` | src/main.py:59-68 | Whatever happens, nothing written comes from a section row. |
| `Batch.ConvertTableStopsAtFirstFailure` | src/main.py:59-63 | A stopped table stopped at the first row whose `parse_row` raises, with that row's exception. What was written is the complete run of the rows before it, which is `from_dict` of each non-section row before it. |
| `Batch.Directory` | src/main.py:71 | After the writes, each file named after an identifier holds a declaration with that identifier. |
| `Batch.DirectoryNames` | src/main.py:71 | A file exists exactly for each identifier written. |
| `Batch.DirectoryHoldsLastWrite` | src/main.py:71 | Each file holds the last declaration written under its name. |

## Left out

- Reading the CSV file (`main`, lines 59-60) is left out: the rows are given as maps from column name to text.
- Serialising a declaration to JSON is left out: a file's content is the declaration itself, and `Batch.Directory` models only which file holds which declaration.
- Reading `lcabyg_tabel7_map.json` on every call to `convert_lcabyg_id`, and its failure when the file is missing, are left out: the table is a map parameter.
- Generating an identifier with `uuid.uuid4()` is left out: it is the function parameter `newId`, indexed by the row's position.
- The pydantic validation of the EPD record, and any error it might raise, are left out.
- Table7.Float: models `float` over the reals for ASCII decimal literals. It omits IEEE rounding and overflow, "inf" and "nan", digit-grouping underscores, and non-ASCII digits and whitespace. Texts using those features raise ValueError in the model, though Python accepts some of them.
- PyFloat.ParseFloat: the same subset; `-0` is the real 0, so a declared factor of "-0" divides by zero just as 0 does.
- The datetime values are calendar dates (year, month, day); the source builds them at midnight with no time zone.
- Only the enumeration members the converter uses appear in `Epdx`.
