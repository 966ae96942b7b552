/**
 * The integrated app's CSV question answering: the prompt that asks the model
 * for a DuckDB query over the uploaded table, the clean-up of the query it
 * answers with, and the markdown rendering of the query's results.
 */
module CsvQa {
  import opened Wrappers
  import opened Text
  import opened SessionState

  /** One column as the query prompt lists it: `name (type)`. */
  function ColumnText(c: Column): string
  {
    c.name + " (" + c.typ + ")"
  }

  /** The schema as the query prompt lists it: the columns, comma separated, in schema order. */
  function SchemaText(schema: seq<Column>): string
  {
    Join(", ", seq(|schema|, i requires 0 <= i < |schema| => ColumnText(schema[i])))
  }

  /** Every column of the schema, with its type, is spelled out in the schema text. */
  lemma SchemaListsEveryColumn(schema: seq<Column>, k: nat)
    requires k < |schema|
    ensures Contains(SchemaText(schema), ColumnText(schema[k]))
  {
    var parts := seq(|schema|, i requires 0 <= i < |schema| => ColumnText(schema[i]));
    JoinContainsPart(", ", parts, k);
  }

  /** The fixed parts of the query prompt, around the schema text and the question. */
  const PromptHead: string := "You are a SQL expert for DuckDB.\n\nThe user has uploaded a CSV with these columns:\n"
  const PromptQuote: string := "\n\nUser question: \""
  const PromptTail: string :=
    "\"\n\nWrite a DuckDB SQL query to answer this question. Use \"csv_data\" as the table name.\n" +
    "Return ONLY the SQL query, no explanation or markdown formatting."

  /** The instruction sent to the model to obtain a query for `question`. */
  function SqlPrompt(question: string, schema: seq<Column>): string
  {
    PromptHead + SchemaText(schema) + PromptQuote + question + PromptTail
  }

  /** The prompt carries the schema text and the user's question. */
  lemma PromptCarriesSchemaAndQuestion(question: string, schema: seq<Column>)
    ensures Contains(SqlPrompt(question, schema), SchemaText(schema))
    ensures Contains(SqlPrompt(question, schema), question)
  {
    var schemaText := SchemaText(schema);
    ContainsSelf(schemaText);
    ContainsRight(PromptHead, schemaText, schemaText);
    ContainsLeft(PromptHead + schemaText, PromptQuote, schemaText);
    ContainsLeft(PromptHead + schemaText + PromptQuote, question, schemaText);
    ContainsLeft(PromptHead + schemaText + PromptQuote + question, PromptTail, schemaText);
    ContainsSelf(question);
    ContainsRight(PromptHead + schemaText + PromptQuote, question, question);
    ContainsLeft(PromptHead + schemaText + PromptQuote + question, PromptTail, question);
  }

  /** No fence, and no white space at either end. */
  ghost predicate CleanQuery(q: string)
  {
    !Contains(q, Fence) && (q == [] || (!IsSpace(q[0]) && !IsSpace(q[|q| - 1])))
  }

  /** The clean-up applied to the model's answer: strip, delete "```sql", delete "```", strip again. */
  function CleanSql(raw: string): (q: string)
    ensures CleanQuery(q)
  {
    var unfenced := Remove(Remove(Strip(raw), "```sql"), Fence);
    RemoveFenceLeavesNone(Remove(Strip(raw), "```sql"));
    StripContains(unfenced, Fence);
    Strip(unfenced)
  }

  /** A query with "```sql" in it has a fence in it. */
  lemma LanguageFenceIsFence(q: string)
    ensures Contains(q, "```sql") ==> Contains(q, Fence)
  {
    if Contains(q, "```sql") {
      var i :| OccursAt(q, "```sql", i);
      assert q[i..i + 3] == q[i..i + 6][..3];
      assert OccursAt(q, Fence, i);
    }
  }

  /** Stripping a string that neither starts nor ends with white space changes nothing. */
  lemma StripStripped(q: string)
    requires q == [] || (!IsSpace(q[0]) && !IsSpace(q[|q| - 1]))
    ensures Strip(q) == q
  {
    if q != [] {
      assert LeadingSpace(q) == 0;
      assert TrailingSpace(q) == |q|;
      assert q[0..|q|] == q;
    }
  }

  /** A clean query passes through the clean-up unchanged; in particular the clean-up is idempotent. */
  lemma CleanSqlKeepsCleanQuery(q: string)
    requires CleanQuery(q)
    ensures CleanSql(q) == q
  {
    StripStripped(q);
    LanguageFenceIsFence(q);
    RemoveAbsent(q, "```sql");
    RemoveAbsent(q, Fence);
  }

  /** Surrounding a non-empty string without edge white space by newlines, then stripping, gives it back. */
  lemma StripNewlines(q: string)
    requires q == [] || (!IsSpace(q[0]) && !IsSpace(q[|q| - 1]))
    ensures Strip("\n" + q + "\n") == q
  {
    var s := "\n" + q + "\n";
    if q == [] {
      assert IsBlank(s);
    } else {
      assert s[1..] == q + "\n" && s[1..][0] == q[0];
      assert LeadingSpace(s[1..]) == 0;
      assert LeadingSpace(s) == 1;
      assert s[..|s| - 1] == "\n" + q;
      assert TrailingSpace("\n" + q) == |q| + 1;
      assert TrailingSpace(s) == |q| + 1;
      assert s[1..|q| + 1] == q;
    }
  }

  /** A fence in `"\n" + q + "\n"` is a fence in `q`. */
  lemma FenceBetweenNewlines(q: string, j: int)
    requires OccursAt("\n" + q + "\n", Fence, j)
    ensures Contains(q, Fence)
  {
    var s := "\n" + q + "\n";
    FenceAt(s, j);
    assert s[0] == '\n' && s[|s| - 1] == '\n';
    assert 1 <= j && j + 3 <= |q| + 1;
    assert q[j - 1..j + 2] == s[j..j + 3];
    assert OccursAt(q, Fence, j - 1);
  }

  /**
   * The point of the clean-up: a clean query that the model wrapped in a
   * fenced `sql` block comes back as the query itself.
   */
  lemma CleanSqlUnwrapsFence(q: string)
    requires CleanQuery(q)
    ensures CleanSql("```sql\n" + q + "\n```") == q
  {
    var inner := "\n" + q + "\n";
    var raw := "```sql" + inner + Fence;
    assert raw == "```sql\n" + q + "\n```";
    StripStripped(raw);
    // No "```sql" after the leading one: it would start with a fence inside `inner`.
    assert !Contains(inner + Fence, "```sql") by {
      if Contains(inner + Fence, "```sql") {
        var i :| OccursAt(inner + Fence, "```sql", i);
        assert (inner + Fence)[i..i + 3] == "```sql"[..3];
        assert inner[i..i + 3] == (inner + Fence)[i..i + 3];
        FenceBetweenNewlines(q, i);
      }
    }
    assert raw[..6] == "```sql" && raw[6..] == inner + Fence;
    RemoveAbsent(inner + Fence, "```sql");
    assert Remove(raw, "```sql") == inner + Fence;
    // The closing fence is the first one.
    forall i | 0 <= i < |inner| ensures !OccursAt(inner + Fence, Fence, i) {
      if i + 3 <= |inner| {
        assert inner[i..i + 3] == (inner + Fence)[i..i + 3];
        if OccursAt(inner + Fence, Fence, i) {
          FenceBetweenNewlines(q, i);
        }
      } else {
        // A fence reaching past `inner` would cover its closing newline.
        assert (inner + Fence)[i..i + 3][|inner| - 1 - i] == '\n';
      }
    }
    RemoveTrailing(inner, Fence);
    StripNewlines(q);
  }

  /** The model call of `generate_content`, given the prompt: its answer text or the error it raised. */
  type Generate = string -> Result<string, string>

  /** `generate_sql_query(user_question, csv_schema)`. */
  function GenerateSqlQuery(question: string, schema: seq<Column>, generate: Generate): (r: Result<string, string>)
    ensures r.Success? ==> CleanQuery(r.value)
    ensures r.Failure? <==> generate(SqlPrompt(question, schema)).Failure?
    ensures r.Failure? ==> r.error == "Failed to generate SQL: " + generate(SqlPrompt(question, schema)).error
  {
    match generate(SqlPrompt(question, schema))
    case Success(text) => Success(CleanSql(text))
    case Failure(e) => Failure("Failed to generate SQL: " + e)
  }

  /** The opening of every results text: the query in a fenced `sql` block. */
  function QueryBlock(sql: string): string
  {
    "**SQL Query:**" + "\n" + "```sql" + "\n" + sql + "\n" + "```" + "\n\n"
  }

  /** The heading above a non-empty table, and the text shown instead of an empty one. */
  const ResultsHeading: string := "**Results:**" + "\n\n"
  const NoDataText: string := "**Result:** No data found."

  /** One table line: the cells between bars. */
  function TableLine(cells: seq<string>): string
  {
    "| " + Join(" | ", cells) + " |\n"
  }

  /** The line under the header: one `---|` cell per column. */
  function SeparatorLine(columns: nat): string
  {
    "|" + Repeat("---|", columns) + "\n"
  }

  /** The table lines of `rows`, in order. */
  function TableLines(rows: seq<seq<string>>): string
  {
    if rows == [] then "" else TableLines(rows[..|rows| - 1]) + TableLine(rows[|rows| - 1])
  }

  /** The closing note with the row count, on a line of its own. */
  function FoundNote(count: nat): string
  {
    "\n" + "\U{1F4CA} *Found " + NatToString(count) + " row(s)*"
  }

  /** The text `format_query_results(sql_query, columns, rows)` returns. */
  function QueryResultsText(sql: string, columns: seq<string>, rows: seq<seq<string>>): string
  {
    if rows == [] then QueryBlock(sql) + NoDataText
    else
      (QueryBlock(sql) + ResultsHeading + TableLine(columns) + SeparatorLine(|columns|) + TableLines(rows) +
       FoundNote(|rows|))
  }

  /** `format_query_results(sql_query, columns, rows)`: the text is built line by line. */
  method FormatQueryResults(sql: string, columns: seq<string>, rows: seq<seq<string>>) returns (text: string)
    ensures text == QueryResultsText(sql, columns, rows)
  {
    if |rows| == 0 {
      return QueryBlock(sql) + NoDataText;
    }
    text := QueryBlock(sql) + ResultsHeading;
    text := text + TableLine(columns);
    text := text + SeparatorLine(|columns|);
    ghost var head := text;
    for i := 0 to |rows|
      invariant text == head + TableLines(rows[..i])
    {
      assert rows[..i + 1][..i] == rows[..i];
      AppendAssoc(head, TableLines(rows[..i]), TableLine(rows[i]));
      text := text + TableLine(rows[i]);
    }
    assert rows[..|rows|] == rows;
    text := text + FoundNote(|rows|);
  }

  lemma {:induction false} JoinSingleLine(sep: string, parts: seq<string>)
    requires SingleLine(sep) && forall k :: 0 <= k < |parts| ==> SingleLine(parts[k])
    ensures SingleLine(Join(sep, parts))
    decreases |parts|
  {
    if |parts| > 1 {
      JoinSingleLine(sep, parts[1..]);
    }
  }

  /** A table line of single-line cells is exactly one line. */
  lemma TableLineIsOneLine(cells: seq<string>)
    requires forall k :: 0 <= k < |cells| ==> SingleLine(cells[k])
    ensures CountChar(TableLine(cells), '\n') == 1
  {
    var j := Join(" | ", cells);
    JoinSingleLine(" | ", cells);
    AppendSingleLine("| ", j);
    CountCharAppend("| " + j, " |\n", '\n');
  }

  /** One table line per row: `rows` single-line rows take exactly `|rows|` lines. */
  lemma {:induction false} TableLinesOnePerRow(rows: seq<seq<string>>)
    requires forall r, k :: r in rows && 0 <= k < |r| ==> SingleLine(r[k])
    ensures CountChar(TableLines(rows), '\n') == |rows|
  {
    if rows != [] {
      var init := rows[..|rows| - 1];
      TableLinesOnePerRow(init);
      TableLineIsOneLine(rows[|rows| - 1]);
      CountCharAppend(TableLines(init), TableLine(rows[|rows| - 1]), '\n');
    }
  }

  lemma {:induction false} RepeatSingleLine(s: string, n: nat)
    requires SingleLine(s)
    ensures SingleLine(Repeat(s, n))
  {
    if n > 0 {
      RepeatSingleLine(s, n - 1);
    }
  }

  /** The separator is exactly one line. */
  lemma SeparatorIsOneLine(columns: nat)
    ensures CountChar(SeparatorLine(columns), '\n') == 1
  {
    RepeatSingleLine("---|", columns);
    AppendSingleLine("|", Repeat("---|", columns));
    CountCharAppend("|" + Repeat("---|", columns), "\n", '\n');
  }

  lemma FencedLines(heading: string, open: string, body: string, close: string)
    requires SingleLine(heading) && SingleLine(open) && SingleLine(close)
    ensures CountChar(heading + "\n" + open + "\n" + body + "\n" + close + "\n\n", '\n') ==
      CountChar(body, '\n') + 5
  {
    CountCharAppend(heading, "\n", '\n');
    AppendSingleLine(heading + "\n", open);
    CountCharAppend(heading + "\n" + open, "\n", '\n');
    CountCharAppend(heading + "\n" + open + "\n", body, '\n');
    CountCharAppend(heading + "\n" + open + "\n" + body, "\n", '\n');
    AppendSingleLine(heading + "\n" + open + "\n" + body + "\n", close);
    CountCharAppend(heading + "\n" + open + "\n" + body + "\n" + close, "\n\n", '\n');
    SingleLineCount(heading);
  }

  /** The query block holds five line breaks besides those of the query. */
  lemma QueryBlockLines(sql: string)
    ensures CountChar(QueryBlock(sql), '\n') == CountChar(sql, '\n') + 5
  {
    FencedLines("**SQL Query:**", "```sql", sql, "```");
  }

  lemma NoteLines(lead: string, digits: string, trail: string)
    requires SingleLine(lead) && SingleLine(digits) && SingleLine(trail)
    ensures CountChar("\n" + lead + digits + trail, '\n') == 1
  {
    AppendSingleLine("\n", lead);
    AppendSingleLine("\n" + lead, digits);
    AppendSingleLine("\n" + lead + digits, trail);
  }

  /** The note is one line of its own. */
  lemma FoundNoteIsOneLine(count: nat)
    ensures CountChar(FoundNote(count), '\n') == 1
  {
    DigitsSingleLine(NatToString(count));
    NoteLines("\U{1F4CA} *Found ", NatToString(count), " row(s)*");
  }

  lemma HeadingLines(heading: string)
    requires SingleLine(heading)
    ensures CountChar(heading + "\n\n", '\n') == 2
  {
    CountCharAppend(heading, "\n\n", '\n');
    SingleLineCount(heading);
  }

  lemma SumLines(block: string, heading: string, header: string, separator: string, lines: string, note: string)
    ensures CountChar(block + heading + header + separator + lines + note, '\n') ==
      CountChar(block, '\n') + CountChar(heading, '\n') + CountChar(header, '\n') +
      CountChar(separator, '\n') + CountChar(lines, '\n') + CountChar(note, '\n')
  {
    CountCharAppend(block, heading, '\n');
    CountCharAppend(block + heading, header, '\n');
    CountCharAppend(block + heading + header, separator, '\n');
    CountCharAppend(block + heading + header + separator, lines, '\n');
    CountCharAppend(block + heading + header + separator + lines, note, '\n');
  }

  /**
   * The results text has the five line breaks around the query when no row
   * came back; otherwise also the two after the heading, one for the header
   * line, one for the separator, exactly one per row, and one before the note.
   */
  lemma ResultsLineCount(sql: string, columns: seq<string>, rows: seq<seq<string>>)
    requires forall k :: 0 <= k < |columns| ==> SingleLine(columns[k])
    requires forall r, k :: r in rows && 0 <= k < |r| ==> SingleLine(r[k])
    ensures CountChar(QueryResultsText(sql, columns, rows), '\n') ==
      CountChar(sql, '\n') + (if rows == [] then 5 else 10 + |rows|)
  {
    QueryBlockLines(sql);
    if rows == [] {
      AppendSingleLine(QueryBlock(sql), NoDataText);
    } else {
      HeadingLines("**Results:**");
      TableLineIsOneLine(columns);
      SeparatorIsOneLine(|columns|);
      TableLinesOnePerRow(rows);
      FoundNoteIsOneLine(|rows|);
      SumLines(QueryBlock(sql), ResultsHeading, TableLine(columns), SeparatorLine(|columns|), TableLines(rows),
               FoundNote(|rows|));
    }
  }

  /**
   * The results text always shows the query; it ends with the no-data line
   * when no row came back and with the row count otherwise, and that count
   * reads back as the number of rows.
   */
  lemma ResultsShowQueryAndCount(sql: string, columns: seq<string>, rows: seq<seq<string>>)
    ensures Contains(QueryResultsText(sql, columns, rows), sql)
    ensures rows == [] ==> EndsWith(QueryResultsText(sql, columns, rows), NoDataText)
    ensures rows != [] ==> EndsWith(QueryResultsText(sql, columns, rows), FoundNote(|rows|))
    ensures DecimalValue(NatToString(|rows|)) == |rows|
  {
    var open := "**SQL Query:**" + "\n" + "```sql" + "\n";
    ContainsSelf(sql);
    ContainsRight(open, sql, sql);
    ContainsLeft(open + sql, "\n", sql);
    ContainsLeft(open + sql + "\n", "```", sql);
    ContainsLeft(open + sql + "\n" + "```", "\n\n", sql);
    var block := QueryBlock(sql);
    if rows == [] {
      ContainsLeft(block, NoDataText, sql);
      EndsWithAppend(block, NoDataText);
    } else {
      var a := block + ResultsHeading;
      var b := a + TableLine(columns);
      var c := b + SeparatorLine(|columns|);
      var d := c + TableLines(rows);
      ContainsLeft(block, ResultsHeading, sql);
      ContainsLeft(a, TableLine(columns), sql);
      ContainsLeft(b, SeparatorLine(|columns|), sql);
      ContainsLeft(c, TableLines(rows), sql);
      ContainsLeft(d, FoundNote(|rows|), sql);
      EndsWithAppend(d, FoundNote(|rows|));
    }
    NatToStringRoundTrip(|rows|);
  }

  /** What `execute_csv_query(path, sql)` reports: the result table, or the engine's error. */
  datatype QueryOutcome = QueryOk(columns: seq<string>, rows: seq<seq<string>>) | QueryFailed(error: string)

  /** The query engine, given the table's path and the query. */
  type Executor = (string, string) -> QueryOutcome

  /** The fixed parts of the text shown when the query could not be run. */
  const FailedLead: string := "\U{274C} Query execution failed: "
  const GeneratedSqlLead: string := "\n\n**Generated SQL:**\n```sql\n"
  const ClosingFence: string := "\n```"

  /** The reply when the engine rejects the query: its error, then the query itself. */
  function ExecutionFailedText(error: string, sql: string): string
  {
    FailedLead + error + GeneratedSqlLead + sql + ClosingFence
  }

  /** A failed execution is reported with both the engine's error and the query that caused it. */
  lemma ExecutionFailureShowsErrorAndQuery(error: string, sql: string)
    ensures Contains(ExecutionFailedText(error, sql), error)
    ensures Contains(ExecutionFailedText(error, sql), sql)
  {
    ContainsSelf(error);
    ContainsRight(FailedLead, error, error);
    ContainsLeft(FailedLead + error, GeneratedSqlLead, error);
    ContainsLeft(FailedLead + error + GeneratedSqlLead, sql, error);
    ContainsLeft(FailedLead + error + GeneratedSqlLead + sql, ClosingFence, error);
    ContainsSelf(sql);
    ContainsRight(FailedLead + error + GeneratedSqlLead, sql, sql);
    ContainsLeft(FailedLead + error + GeneratedSqlLead + sql, ClosingFence, sql);
  }

  /** The reply for a query the engine ran, or for one it rejected. */
  function OutcomeText(sql: string, outcome: QueryOutcome): string
  {
    match outcome
    case QueryOk(columns, rows) => QueryResultsText(sql, columns, rows)
    case QueryFailed(e) => ExecutionFailedText(e, sql)
  }

  /** Either reply shows the query; a rejection's also shows the engine's error. */
  lemma OutcomeShowsQuery(sql: string, outcome: QueryOutcome)
    ensures Contains(OutcomeText(sql, outcome), sql)
    ensures outcome.QueryFailed? ==> Contains(OutcomeText(sql, outcome), outcome.error)
  {
    match outcome
    case QueryOk(columns, rows) => ResultsShowQueryAndCount(sql, columns, rows);
    case QueryFailed(e) => ExecutionFailureShowsErrorAndQuery(e, sql);
  }

  /**
   * The CSV branch of `generate_response`: a query is generated for the
   * question and run against the bound table; its results, or the engine's
   * error, become the reply. Only the query generation can fail.
   */
  function CsvReply(question: string, info: CsvInfo, generate: Generate, execute: Executor): (r: Result<string, string>)
    ensures r.Failure? <==> generate(SqlPrompt(question, info.schema)).Failure?
    ensures r.Failure? ==> r.error == "Failed to generate SQL: " + generate(SqlPrompt(question, info.schema)).error
  {
    var sql := GenerateSqlQuery(question, info.schema, generate);
    if sql.Failure? then Failure(sql.error)
    else Success(OutcomeText(sql.value, execute(info.path, sql.value)))
  }

  /**
   * Every reply of the CSV branch shows the query that was run, and a reply
   * for a query the engine rejected also shows the engine's error.
   */
  lemma CsvReplyShowsQuery(question: string, info: CsvInfo, generate: Generate, execute: Executor)
    ensures var prompted := generate(SqlPrompt(question, info.schema));
      prompted.Success? ==>
        var r := CsvReply(question, info, generate, execute);
        r.Success? && Contains(r.value, CleanSql(prompted.value))
    ensures var prompted := generate(SqlPrompt(question, info.schema));
      prompted.Success? && execute(info.path, CleanSql(prompted.value)).QueryFailed? ==>
        Contains(CsvReply(question, info, generate, execute).value, execute(info.path, CleanSql(prompted.value)).error)
  {
    var prompted := generate(SqlPrompt(question, info.schema));
    if prompted.Success? {
      var sql := CleanSql(prompted.value);
      OutcomeShowsQuery(sql, execute(info.path, sql));
    }
  }
}
