# ExcelAndWordWithChatGPT, modelled in Dafny

The program reads one column of a spreadsheet and joins its cells into one text.
It sends that text to a chat-completion service for a summary and writes the summary
into `summary.docx`. This project models the program's own logic in `Program.cs`:

- `column_address.dfy` (module `ColumnAddress`) models `GetColumnNumber`. It turns an
  Excel column label ("A", "Z", "AA", ...) into a 1-based column number. The label is
  read as bijective base 26: digits 'A' = 1 to 'Z' = 26, rightmost letter least
  significant. The method keeps the reverse `for` loop with its `columnNumber` and
  `factor` accumulators. It is proved equal to the recursive specification `LabelValue`.
  `ColumnLabel` is the inverse of `LabelValue`, and the round trip is proved in both
  directions.
- `column_scan.dfy` (module `ColumnScan`) models `ReadColumnDataFromExcel`. The opened
  worksheet is a value: the rendered text of every cell, plus a row below which every
  cell is empty. The method keeps the `while` loop that appends to a text buffer. It is
  proved equal to `Aggregate(context, RowsFrom(...))`. That is the context line, then the
  cells of rows 2, 3, ... up to the first empty cell, each followed by a line
  terminator. Lemmas state the first-gap property. `SplitLines` is proved to recover the
  context and the rows from the text, when neither the context nor any cell holds a line
  feed; a cell with a line break inside splits into several lines.
- `pipeline.dfy` (module `Pipeline`) models `Main` as `Run`. The console inputs and the
  service's answer are parameters. What the run does outside the program is returned as
  a trace of effects: reading the column, requesting a summary, writing the document.
- `wrappers.dfy` holds `Option`, which stands for C#'s nullable `string?`.

Some behaviours of the code are easy to expect otherwise:

- A cell whose text is only whitespace does not stop the scan. Only `string.IsNullOrEmpty`
  is tested.
- `AppendLine` ends every line with a terminator, the last one included. So a context
  "X" with rows "a" and "b" gives "X\na\nb\n" (`ColumnScan.AggregateExample`).
- The "no data" exit tests the whole text, not the number of rows read. With a non-empty
  context it can never fire (`Pipeline.Run`'s `context != "" ==> outcome != NoData`).
  The program always passes its non-empty `ReviewContext` (`Run`'s `context == ReviewContext ==> outcome != NoData`),
  so an empty column is still summarised.
- A label is not validated. Any character gets the digit value `c - 'A' + 1`, and the
  empty label gives 0. The properties about well-formed labels carry that requirement
  explicitly.

## Model

| member | source | states |
|---|---|---|
| `ColumnAddress.GetColumnNumber` | ExcelAndWordWithChatGPT/Program.cs:93-105 | for every label, well-formed or not, the loop's result equals the left-to-right base-26 value `LabelValue` |
| `ColumnAddress.PrependDigit` | ExcelAndWordWithChatGPT/Program.cs:98-102 | a leading character contributes its digit times 26 to the power of the rest's length (the loop's `factor`) |
| `ColumnAddress.Examples` | ExcelAndWordWithChatGPT/Program.cs:93-105 | "" is 0, "A" is 1, "E" is 5, "Z" is 26, "AA" is 27, "AZ" is 52, "BA" is 53, "ZZ" is 702, "AAA" is 703 |
| `ColumnAddress.SingleLetter` | ExcelAndWordWithChatGPT/Program.cs:98-102 | a single uppercase letter gives its alphabet position, between 1 and 26 |
| `ColumnAddress.TwoLetters` | ExcelAndWordWithChatGPT/Program.cs:98-102 | a two-letter label gives 26 times the first letter's value plus the second's, between 27 and 702 |
| `ColumnAddress.LabelValuePositive` | ExcelAndWordWithChatGPT/Program.cs:93-105 | a well-formed label gives 0 when empty and at least 1 otherwise |
| `ColumnAddress.ColumnLabelValue` | ExcelAndWordWithChatGPT/Program.cs:93-105 | every column number n has a well-formed label whose value is n, so the mapping is onto |
| `ColumnAddress.LabelValueColumnLabel` | ExcelAndWordWithChatGPT/Program.cs:93-105 | a well-formed label is recovered from its value by `ColumnLabel` |
| `ColumnAddress.LabelValueInjective` | ExcelAndWordWithChatGPT/Program.cs:93-105 | distinct well-formed labels give distinct column numbers |
| `ColumnScan.ReadColumnData` | ExcelAndWordWithChatGPT/Program.cs:69-91 | the returned text is the context line (only when the context is non-empty) followed by the column's rows from row 2 up to the first empty cell, each terminated |
| `ColumnScan.RowsFromFirstGap` | ExcelAndWordWithChatGPT/Program.cs:81-87 | the rows read are the column's cells from the start row on, in order, all non-empty, and the next cell is empty |
| `ColumnScan.RowsFromUnique` | ExcelAndWordWithChatGPT/Program.cs:81-87 | any run of non-empty cells that ends at an empty one is exactly what the scan reads |
| `ColumnScan.ScanStopsAtFirstGap` | ExcelAndWordWithChatGPT/Program.cs:81-87 | with rows 2 to gap-1 non-empty and row gap empty, exactly gap-2 rows are read, namely those cells |
| `ColumnScan.TruncatesAtFirstGap` | ExcelAndWordWithChatGPT/Program.cs:81-87 | cells below the first gap do not affect what is read |
| `ColumnScan.LinesAppend` | ExcelAndWordWithChatGPT/Program.cs:83-86 | appending rows one at a time gives the lines of all of them in order |
| `ColumnScan.AggregateIsLines` | ExcelAndWordWithChatGPT/Program.cs:71-90 | the text is the context line, when present, followed by the row lines |
| `ColumnScan.AggregateEmpty` | ExcelAndWordWithChatGPT/Program.cs:71-90 | the text is empty exactly when the context is empty and no row was read |
| `ColumnScan.AggregateExample` | ExcelAndWordWithChatGPT/Program.cs:71-90 | context "X" and rows "a", "b" give "X\na\nb\n"; no context and no rows give "" |
| `ColumnScan.SplitLinesOfLines` | ExcelAndWordWithChatGPT/Program.cs:83-86 | splitting the row lines at the terminators gives back the rows, when no row holds a terminator |
| `ColumnScan.AggregateLines` | ExcelAndWordWithChatGPT/Program.cs:71-90 | when neither the context nor any cell holds a line feed, the lines of the text are exactly the context (if non-empty) and then the rows, in order |
| `Pipeline.UpperLabel` | ExcelAndWordWithChatGPT/Program.cs:27 | upper-casing keeps the length, so an empty input is an empty label; letters become a well-formed label |
| `Pipeline.Run` | ExcelAndWordWithChatGPT/Program.cs:15-60 | an empty or absent path, or an empty label after upper-casing, ends the run with no effect. Otherwise the column is read first. An empty text ends the run before summarising, which cannot happen with a non-empty context such as the program's own `ReviewContext`. Otherwise the whole text is sent once. An absent answer publishes "Dummy Summary". A non-empty answer is published unchanged to summary.docx. An empty answer publishes nothing |

## Left out

- Console prompting and reading (`SelectExcelFile`, `Console.ReadLine`, `Console.WriteLine`) is interactive I/O. The path and the column input are parameters of `Run`, and the printed messages are the `Outcome` variants.
- Opening the file with EPPlus, its license setting and the worksheet lookup (lines 75-79) are foreign library calls. The first worksheet is the `Worksheet` parameter. A missing or unreadable file is not modelled. Neither is EPPlus's behaviour for a column number below 1 or above 16384 (past "XFD"): labels with other characters than letters can give such values, and so can letter labels past "XFD". `Worksheet` bounds the rows, not the columns.
- `GetSummaryFromOpenAPI` is an HTTP call with JSON (de)serialisation and trimming. It is not part of this model. Its answer is the `reply: Option<string>` parameter of `Run`, and the request is recorded as `RequestSummary` with the text sent.
- `CreateWordDocument` is OpenXML file output. It is not part of this model beyond the recorded `WriteDocument(OutputFile, text)` effect.
- `Environment.NewLine` is platform-specific. It is fixed to a single line feed.
- `ToUpper` follows the current culture. `Pipeline.Upper` upper-cases only the ASCII letters a-z.
- The text buffer (`StringBuilder`) is a local string that the loop reassigns, not an object.
- A real worksheet is finite. The model states this as `Bounded`: every cell below `lastRow` is empty. This is what makes the scan terminate.
- `ColumnAddress.GetColumnNumber`: does not model 32-bit `int` overflow of `columnNumber` and `factor`; the model uses unbounded integers. With letters only, overflow needs seven letters or more; characters with large code points overflow sooner (five copies of U+FFFF already do).
- `ColumnAddress.GetColumnNumber`: a Dafny `char` is a Unicode scalar value, while C# indexes a string by UTF-16 code units, so a label holding a character outside the Basic Multilingual Plane gets a different value here than in the program.
- `Pipeline.Run`: an exception from the summarising call ends the program's run without a message or a document, and is not modelled. A transport failure or time-out throws from `PostAsync` (line 132). A success body without `choices[0].message.content` throws at line 138. `Main` catches neither (line 46). `reply` covers only the non-success status and a null body (lines 134-143), which both give None.
