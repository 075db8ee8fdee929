# 2DA friendly view, modelled in Dafny

A 2DA file is a text table of game data. A tokenizer splits it into raw lines of string tokens. The "friendly" view turns that raw table into a table with named columns:

- Raw lines 0 and 1 are ignored.
- Raw line 2 names the columns.
- Every raw line from 3 on is one data row. Its first token is the row number, which is dropped unchecked.
- A cell whose token is `****` is a default cell with empty text.
- Cells are read by column position or by column name, as text (`AsStr`) or as an integer (`AsInt`, which is C's `atoi`).

The project has two modules:

- `CNumeric` (`c_numeric.dfy`) models `atoi` as section 7.22.1.2 of ISO/IEC 9899:2011 (C11) defines it, through `strtol` with base 10 (section 7.22.1.4). Leading white-space is skipped, one optional sign is read, then the longest run of digits. Anything after the digits is ignored, and text without digits reads as 0. `DecimalPrefixValue` gives the unbounded value and `Atoi` the 32-bit result. `Decimal` renders an integer, and the round-trip lemmas show that `atoi` reads it back.
- `Friendly` (`two_da_friendly.dfy`) models the cells (`Entry`), the rows (`Row`, a value holding its cells and the shared column map) and the table (class `TwoDA`).
  - The constructor is imperative, like the source's. `ColumnIndex` is the column-name loop and `ConvertLine` is the per-line cell loop. Each is proved against a specification function (`ColumnMapOf`, `EntriesOf`), and properties of those functions are proved in turn.
  - `TwoDA` keeps a ghost copy of the raw table it was built from. The program does not keep it. It lets every table accessor state its result in terms of raw tokens. For example, `AsStr(r, c)` is `""` when token `c + 1` of raw line `r + 3` is `****`, and that token otherwise.
  - Each `ASSERT` in the source is a `requires`. Each unchecked index is a `requires` too, because reading past the end is undefined behaviour in C++.

`TwoDA::AsStr` and `TwoDA::AsInt` index `m_Rows[row]` without checking `row < size()`, and name lookup on a row does not check that the column's position is inside the row. Both bounds are preconditions that callers must meet, not checked failures.

## Model

| member | source | states |
|---|---|---|
| `Friendly.EntryOf` | FileFormats/2da/2da_Friendly.cpp:96-106 | A cell is default exactly when its token is `****`. A default cell has empty text. The token can always be recovered from the cell, so no token is lost |
| `Friendly.EntryOfTokenOf` | FileFormats/2da/2da_Friendly.cpp:96-106 | Every well-formed cell is what its own token reads as, so `EntryOf` and `TokenOf` are inverses on the cells reading can make |
| `Friendly.EntriesOf` | FileFormats/2da/2da_Friendly.cpp:88-110 | A data line with `n > 0` tokens gives `n - 1` cells, and an empty line gives none. Cell `j` is read from token `j + 1` |
| `Friendly.EntriesOfLossless` | FileFormats/2da/2da_Friendly.cpp:88-110 | The tokens of a row's cells are the line without its row number, and every cell is well formed |
| `Friendly.RowNumberIgnored` | FileFormats/2da/2da_Friendly.cpp:91-92 | The row number is never checked: lines that differ only in their first token give the same cells |
| `Friendly.ConvertLine` | FileFormats/2da/2da_Friendly.cpp:88-110 | The cell loop, which starts at token 1, builds exactly the cells `EntriesOf` specifies |
| `Friendly.ColumnMapOf` | FileFormats/2da/2da_Friendly.cpp:79-83 | The column map's keys are exactly the names on the header line. Each name maps to its last position on the line, so a repeated name's later position wins |
| `Friendly.ColumnIndex` | FileFormats/2da/2da_Friendly.cpp:78-83 | The header loop, which assigns `map[token] = i` left to right, builds exactly `ColumnMapOf(header)`, whose key set is the set of header tokens |
| `Friendly.TwoDA.constructor` | FileFormats/2da/2da_Friendly.cpp:71-114 | Needs at least 3 raw lines. Afterwards the column map is `ColumnMapOf(raw[2])`, the row count is the raw line count minus 3, and row `k` holds `EntriesOf(raw[k + 3])` and the shared map |
| `Friendly.TwoDA.Size` | FileFormats/2da/2da_Friendly.cpp:162-165 | The row count is the raw line count minus 3 |
| `Friendly.TwoDA.At` | FileFormats/2da/2da_Friendly.cpp:146-150 | Needs `i < size()`. Row `i` holds the cells of raw line `i + 3` and the table's column map |
| `Friendly.TwoDA.AsStr` | FileFormats/2da/2da_Friendly.cpp:116-119 | Needs the row and column in range. The text is `""` when the cell's raw token is `****`, and that token otherwise |
| `Friendly.TwoDA.AsStrNamed` | FileFormats/2da/2da_Friendly.cpp:121-124 | Needs the name to be a column and the row to reach its position. The text equals index access at the name's last position on the header line |
| `Friendly.TwoDA.AsInt` | FileFormats/2da/2da_Friendly.cpp:126-129 | The integer is `atoi` of the cell's text, and a default cell reads as 0 |
| `Friendly.TwoDA.AsIntNamed` | FileFormats/2da/2da_Friendly.cpp:131-134 | The integer equals index access at the name's last position on the header line |
| `Friendly.TwoDA.GetColumnNames` | FileFormats/2da/2da_Friendly.cpp:167-170 | The map holds exactly the header names, each at its last position, and it is the very map every row looks names up in |
| `Friendly.RowSizeOfLine` | FileFormats/2da/2da_Friendly.cpp:66-69 | A row's size is the number of tokens on its data line less the row number, and 0 for an empty line |
| `Friendly.RowAtOfLine` | FileFormats/2da/2da_Friendly.cpp:13-17 | For a position below the row's size, index access yields the cell read from token `j + 1` of the data line, and that cell is default exactly when the token is `****` |
| `Friendly.Row.Named` | FileFormats/2da/2da_Friendly.cpp:19-24 | Needs the name to be in the map and its position to be inside the row. Yields the same cell as index access at the mapped position |
| `Friendly.RowAsStrOfLine` | FileFormats/2da/2da_Friendly.cpp:26-29 | For a position below the row's size, the text is `""` when token `j + 1` of the data line is `****`, and that token otherwise |
| `Friendly.Row.AsStrNamed` | FileFormats/2da/2da_Friendly.cpp:31-34 | Yields the same text as index access at the mapped position |
| `Friendly.Row.AsInt` | FileFormats/2da/2da_Friendly.cpp:36-39 | Yields the value `atoi` reads from the cell's text |
| `Friendly.Row.AsIntNamed` | FileFormats/2da/2da_Friendly.cpp:41-44 | Yields the same integer as index access at the mapped position |
| `Friendly.TwoRowTable` | FileFormats/2da/2da_Friendly.cpp:71-134 | On header `Label Value` with rows `0 Foo 10` and `1 **** 20`: 2 rows, `Label` is column 0 and `Value` column 1, row 0 reads `Foo` and 10, row 1's `Label` cell is default with text `""`, and row 1 reads 20 |
| `CNumeric.NoDigitsReadsZero` | FileFormats/2da/2da_Friendly.cpp:38 | Text without any digit, such as `""`, `abc` or `****`, reads as 0 under `atoi` |
| `CNumeric.TrailingTextIgnored` | FileFormats/2da/2da_Friendly.cpp:38 | Digits followed by text that is not a digit read as the digits' value (`42xyz` reads as 42) |
| `CNumeric.DigitCountOfDigitsThen` | FileFormats/2da/2da_Friendly.cpp:38 | The digit run `atoi` reads ends exactly where the digits end |
| `CNumeric.LeadingSpaceSkipped` | FileFormats/2da/2da_Friendly.cpp:38 | A leading white-space character does not change what `atoi` reads |
| `CNumeric.SignApplied` | FileFormats/2da/2da_Friendly.cpp:38 | A leading `-` negates the value of the unsigned text after it, and a leading `+` keeps it |
| `CNumeric.DecimalRoundTrip` | FileFormats/2da/2da_Friendly.cpp:38 | Reading back the decimal rendering of any integer gives that integer |
| `CNumeric.AtoiRoundTrip` | FileFormats/2da/2da_Friendly.cpp:38 | For every 32-bit integer, `atoi` of its decimal rendering is defined and returns the integer |

## Left out

- `AsFloat`, on rows and on the table: it uses `atof` and narrows to `float`, which is floating-point arithmetic.
- `begin()`/`end()` on rows and on the table: iteration is the `entries` and `rows` sequences themselves.
- The raw tokenizer (`Raw::TwoDA`, `Raw::TwoDAToken`) is not part of this model. Its output is taken as `seq<seq<string>>`.
- Raw lines 0 and 1 are ignored, as in the source. The default-value line is unfinished work in the source.
- The `ASSERT` macro's abort is not modelled. Each assertion is a precondition.
- Row's reference to the table's column map is modelled as an immutable map value stored in every row. Its lifetime and the hash map's iteration order are not modelled.
- `isspace` is modelled for the "C" locale only.
- CNumeric.Atoi: defined only where the value fits in 32 bits, because C leaves `atoi` undefined on overflow.
- Friendly.Row.AsInt: requires the cell's value to fit in 32 bits, for the same reason.
- Friendly.Row.AsIntNamed: requires the cell's value to fit in 32 bits, for the same reason.
- Friendly.TwoDA.AsInt: requires the cell's value to fit in 32 bits, for the same reason.
- Friendly.TwoDA.AsIntNamed: requires the cell's value to fit in 32 bits, for the same reason.
