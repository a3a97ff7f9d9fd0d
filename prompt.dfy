/**
 * The SQL-generation prompt of db.py: the fixed template `sql_template`
 * with the fields `{schema}` and `{question}`, filled by `sql_prompt`.
 */
module SqlPrompt {
  import opened Wrappers
  import opened Template

  // The two long lines of the template are each written as two literals:
  // Dafny cannot decide `NoBraces` on a literal of this length, but can on
  // each half.
  const RoleLine: string := "You are a SQL expert.\n"
  const TaskLine: string :=
    "Your task is to write a single, correct " + "SQLite SQL query that answers the question.\n"
  const FormatLine: string :=
    "DO NOT include any explanation, prose, " + "or extra text. Only output the SQL query.\n"
  const SchemaHeading: string := "Database schema:\n"

  /** The template text before `{schema}`: the role, the dialect, the
      output-format constraint and the schema heading. */
  const Prefix: string := "\n" + RoleLine + TaskLine + FormatLine + "\n" + SchemaHeading

  /** The template text between `{schema}` and `{question}`. */
  const Middle: string := "\n\nQuestion: "

  /** The template text after `{question}`. */
  const Suffix: string := "\n\nSQL Query:\n"

  /** `sql_template`, line for line. */
  const SqlTemplate: string := Prefix + "{schema}" + Middle + "{question}" + Suffix

  lemma TaskLineHasNoBraces()
    ensures NoBraces(TaskLine)
  {
    var a, b := "Your task is to write a single, correct ", "SQLite SQL query that answers the question.\n";
    assert NoBraces(a);
    assert NoBraces(b);
    NoBracesAppend(a, b);
  }

  lemma FormatLineHasNoBraces()
    ensures NoBraces(FormatLine)
  {
    var a, b := "DO NOT include any explanation, prose, ", "or extra text. Only output the SQL query.\n";
    assert NoBraces(a);
    assert NoBraces(b);
    NoBracesAppend(a, b);
  }

  lemma FixedTextsHaveNoBraces()
    ensures NoBraces(Prefix) && NoBraces(Middle) && NoBraces(Suffix)
  {
    TaskLineHasNoBraces();
    FormatLineHasNoBraces();
    assert NoBraces("\n") && NoBraces(RoleLine) && NoBraces(SchemaHeading);
    NoBracesAppend("\n", RoleLine);
    NoBracesAppend("\n" + RoleLine, TaskLine);
    NoBracesAppend("\n" + RoleLine + TaskLine, FormatLine);
    NoBracesAppend("\n" + RoleLine + TaskLine + FormatLine, "\n");
    NoBracesAppend("\n" + RoleLine + TaskLine + FormatLine + "\n", SchemaHeading);
  }

  /** `sql_prompt` invoked with the schema text and the question. */
  function FillPrompt(schema: string, question: string): (r: Result<string, FormatError>)
    ensures r == Ok(Prefix + schema + Middle + question + Suffix)
  {
    var vars := map["schema" := schema, "question" := question];
    FilledPrompt(schema, question);
    Format(SqlTemplate, vars)
  }

  /** Filling the template never fails, and gives the fixed prefix, the
      schema text verbatim, the fixed middle, the question verbatim and the
      fixed suffix, whatever braces or other text schema and question hold. */
  lemma FilledPrompt(schema: string, question: string)
    ensures Format(SqlTemplate, map["schema" := schema, "question" := question])
         == Ok(Prefix + schema + Middle + question + Suffix)
  {
    var vars := map["schema" := schema, "question" := question];
    FixedTextsHaveNoBraces();
    assert NoBraces("schema") && NoBraces("question");
    assert PlainName("schema") by { assert !('0' <= "schema"[0] <= '9'); }
    assert PlainName("question") by { assert !('0' <= "question"[0] <= '9'); }
    assert SqlTemplate == Prefix + "{" + "schema" + "}" + Middle + "{" + "question" + "}" + Suffix;
    FormatTwoFields(Prefix, "schema", Middle, "question", Suffix, vars);
  }

  /** The question can be read back from the prompt once the schema text
      is known. */
  lemma QuestionRecoverable(schema: string, question: string)
    ensures FillPrompt(schema, question).Ok?
    ensures var p := FillPrompt(schema, question).value;
      && |Prefix| + |schema| + |Middle| + |Suffix| <= |p|
      && p[|Prefix| + |schema| + |Middle|..|p| - |Suffix|] == question
  {
    var p := FillPrompt(schema, question).value;
    assert p == (Prefix + schema + Middle) + question + Suffix;
  }
}
