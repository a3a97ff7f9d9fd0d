/**
 * `ask_db` (db.py) up to the point where the statement is executed: render
 * the schema, fill the prompt, hand it to the language model, normalise
 * the answer.  The model is a parameter: any function from prompt text to
 * completion text.  Executing the statement against SQLite is not modelled.
 */
module AskDb {
  import opened SchemaText
  import opened SqlPrompt
  import opened SqlNormalizer

  /** The statement `ask_db` prints and executes for `question`, given the
      catalog rows and the completion model `llm`. */
  method AskDb(rows: seq<CatalogRow>, question: string, llm: string -> string)
    returns (stmt: string)
    ensures stmt == Normalize(llm(Prefix + Render(rows) + Middle + question + Suffix))
    ensures Trimmed(stmt) && EndsWithSemicolon(stmt)
    ensures Normalize(stmt) == stmt
  {
    var schema := RenderSchema(rows);
    var prompt := FillPrompt(schema, question);
    var raw := llm(prompt.value);
    stmt := Normalize(raw);
    NormalizeIdempotent(raw);
  }
}
