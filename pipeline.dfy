/**
 * One run of the program: read the column of the chosen spreadsheet, send
 * the text for summarising, and write the summary into a document, with an
 * early exit when the file path, the column label or the data is missing.
 * The console, the spreadsheet file, the summarising service and the
 * document file are outside: their inputs are parameters and what the run
 * does to them is returned as a trace of effects.
 */
module Pipeline {
  import opened Wrappers
  import ColumnAddress
  import opened ColumnScan

  /** The text published when the summarising service gives no answer. */
  const DummySummary: string := "Dummy Summary"

  /** The document the summary is written to. */
  const OutputFile: string := "summary.docx"

  /** The context line the program sends ahead of the reviews. */
  const ReviewContext: string :=
    "I am sending a review of coffee . Product name - CONTINENTAL SPECIALE Instant Coffee Granules 200gm Pouch .  Please consider the reviews accordingly and summarise it."

  /** What a run does outside the program, in order. */
  datatype Effect =
    | ReadColumn(file: string, column: string)      // opens the spreadsheet and scans the column
    | RequestSummary(input: string)                 // one call to the summarising service
    | WriteDocument(file: string, text: string)     // creates the output document

  /** How a run ends; each ending prints its own message. */
  datatype Outcome =
    | NoFileSelected
    | InvalidColumn
    | NoData
    | Published(summary: string)
    | SummaryFailed

  /** Neither null nor empty: the negation of `string.IsNullOrEmpty`. */
  predicate HasText(s: Option<string>) {
    s.Some? && s.value != ""
  }

  /** Upper-cases the ASCII letters a-z; every other character is kept. */
  function UpperChar(c: char): char {
    if 'a' <= c <= 'z' then (c as int - 'a' as int + 'A' as int) as char else c
  }

  function Upper(s: string): string {
    if s == [] then [] else [UpperChar(s[0])] + Upper(s[1..])
  }

  /** The column label read from the console: `Console.ReadLine()?.ToUpper()`. */
  function UpperInput(line: Option<string>): Option<string> {
    match line
    case None => None
    case Some(s) => Some(Upper(s))
  }

  predicate IsAsciiLetter(c: char) {
    'a' <= c <= 'z' || 'A' <= c <= 'Z'
  }

  /**
   * Upper-casing keeps the length, so an input is empty exactly when the
   * label is; an input made of letters becomes a well-formed column label.
   */
  lemma {:induction false} UpperLabel(s: string)
    ensures |Upper(s)| == |s|
    ensures forall i :: 0 <= i < |s| ==> Upper(s)[i] == UpperChar(s[i])
    ensures (forall i :: 0 <= i < |s| ==> IsAsciiLetter(s[i])) ==> ColumnAddress.IsUpperLabel(Upper(s))
    decreases |s|
  {
    if s != [] {
      UpperLabel(s[1..]);
      forall i | 0 <= i < |s|
        ensures Upper(s)[i] == UpperChar(s[i])
      {
        if i > 0 {
          assert Upper(s)[i] == Upper(s[1..])[i - 1];
        }
      }
    }
  }

  /**
   * Main: the file path and the column input are what the console gave,
   * `ws` is the first worksheet of that file and `reply` is what the
   * summarising service answers for this run's text: the trimmed message
   * content, or None when the service answers with a non-success status or
   * a null body. A whitespace-only answer is Some("").
   */
  method Run(excelFilePath: Option<string>, columnInput: Option<string>, context: string,
             ws: Worksheet, reply: Option<string>)
    returns (outcome: Outcome, effects: seq<Effect>)
    requires Bounded(ws)
    // a missing file path or column label ends the run before anything is read
    ensures outcome == NoFileSelected <==> !HasText(excelFilePath)
    ensures outcome == InvalidColumn <==> HasText(excelFilePath) && !HasText(UpperInput(columnInput))
    ensures effects == [] <==> outcome == NoFileSelected || outcome == InvalidColumn
    // otherwise the column is read first, under the upper-cased label
    ensures effects != [] ==> effects[0] == ReadColumn(excelFilePath.value, UpperInput(columnInput).value)
    // an empty text ends the run before summarising
    ensures effects != [] ==>
      (outcome == NoData <==> ColumnText(ws, effects[0].column, context) == "")
    ensures outcome == NoData ==> |effects| == 1
    ensures context != "" ==> outcome != NoData
    ensures context == ReviewContext ==> outcome != NoData
    // otherwise the whole text is sent once for summarising
    ensures outcome.Published? || outcome == SummaryFailed ==>
      |effects| >= 2 && effects[1] == RequestSummary(ColumnText(ws, effects[0].column, context))
    // no answer publishes the fallback, a non-empty answer is published as given
    ensures outcome.Published? ==>
      outcome.summary == reply.GetOr(DummySummary) && outcome.summary != "" &&
      effects == effects[..2] + [WriteDocument(OutputFile, outcome.summary)]
    // an empty answer publishes nothing
    ensures outcome == SummaryFailed <==> |effects| >= 2 && reply == Some("")
    ensures outcome == SummaryFailed ==> |effects| == 2
  {
    if !HasText(excelFilePath) {
      return NoFileSelected, [];
    }
    var columnLetter := UpperInput(columnInput);
    if !HasText(columnLetter) {
      return InvalidColumn, [];
    }
    effects := [ReadColumn(excelFilePath.value, columnLetter.value)];
    var columnData := ReadColumnData(ws, columnLetter.value, context);
    if columnData == "" {
      AggregateEmpty(context, RowsFrom(ws, ColumnAddress.LabelValue(columnLetter.value), 2));
      return NoData, effects;
    }
    effects := effects + [RequestSummary(columnData)];
    var summary := reply;
    summary := Some(summary.GetOr(DummySummary));
    if HasText(summary) {
      effects := effects + [WriteDocument(OutputFile, summary.value)];
      outcome := Published(summary.value);
    } else {
      outcome := SummaryFailed;
    }
  }
}
