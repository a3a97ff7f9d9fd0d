# Text-to-SQL string pipeline of `db.py`, in Dafny

`db.py` answers an English question about an SQLite shop database in four steps:
1. `fetch_db_schema` renders the catalog: one line `Table <t>: column <c> (<d>)` per (table, column, declared type) row, in the order the catalog query returns them (`ORDER BY table_name`).
2. `sql_prompt` fills the fixed template `sql_template` with that schema text and the question.
3. A hosted language model turns the prompt into SQL text.
4. `ask_db` strips that text and appends `;` unless it already ends with one, then executes it.

This project models steps 1, 2 and 4 as Dafny functions, methods and lemmas. Step 3 stays a parameter. Execution is left out.

Modules, one per component:

- `SchemaText` (schema.dfy): the catalog row, the per-row line, the rendered schema `Render` and the loop `RenderSchema`. It also proves the lemmas about line structure and table grouping.
- `Template` (template.dfy): the field substitution of LangChain's `PromptTemplate` in its default "f-string" format, which follows Python's `str.format`:
  - `{name}` is replaced by the value of `name`;
  - `{{` and `}}` stand for literal braces;
  - a missing value, a `{` that nothing closes, a `{` inside a field name, and a lone `}` are errors.
- `SqlPrompt` (prompt.dfy): the template text of db.py:153-164 and the filled prompt.
- `SqlNormalizer` (normalize.dfy): Python's `str.strip()` and the terminator rule of db.py:181-184.
- `AskDb` (ask.dfy): `ask_db` up to execution, with the language model passed in as a function from prompt to completion text.
- `Wrappers` (wrappers.dfy): a `Result` type for the formatter's errors.

Whitespace is Python's own `str.isspace()` set, which is what `str.strip()` removes. That is the 29 code points U+0009–U+000D, U+001C–U+001F, U+0020, U+0085, U+00A0, U+1680, U+2000–U+200A, U+2028, U+2029, U+202F, U+205F and U+3000. It is not just the ASCII blanks.

Name order for `ORDER BY table_name` is the code-point lexicographic order, with a proper prefix first. This is what SQLite's default BINARY collation gives on UTF-8 text. The renderer does no ordering itself. Sortedness is a predicate on its input (`SortedByTable`), and the lemmas show that rendering keeps the order and the grouping.

Two points about db.py's own behaviour:
- `ask_db` appends `;` only when the stripped text does not already end with one. So `"SELECT 1;;"` stays as it is, which `NormalizeKeepsDoubleTerminator` shows. The proved statement is that the result always ends with `;`, and that at most one `;` is added.
- The catalog query orders by table name only. Columns within a table come in the order SQLite returns them, and the model assumes nothing about that order.

## Model

| member | source | states |
|---|---|---|
| `SqlNormalizer.IsSpace` | db.py:181 | the characters `str.strip()` removes are exactly the 29 code points of Python's `str.isspace()`, listed one by one in `PythonWhitespace` |
| `SqlNormalizer.LeadingSpaces` | db.py:181 | the count of leading whitespace: all counted characters are whitespace and the next one is not |
| `SqlNormalizer.TrailingSpaces` | db.py:181 | the count of trailing whitespace: all counted characters are whitespace and the one before is not |
| `SqlNormalizer.Strip` | db.py:181 | `strip()` returns the contiguous slice of the input between its leading and trailing whitespace; everything removed is whitespace and the result neither starts nor ends with whitespace |
| `SqlNormalizer.StripUnique` | db.py:181 | whenever a text is whitespace + a trimmed text + whitespace, `strip()` returns exactly that trimmed text (strip is characterised independently of how it is computed) |
| `SqlNormalizer.StripIdempotent` | db.py:181 | stripping a stripped text changes nothing |
| `SqlNormalizer.Normalize` | db.py:181-184 | the statement always ends with `;` and has no surrounding whitespace; it is the stripped text itself when that already ends with `;`, otherwise the stripped text plus one `;` |
| `SqlNormalizer.NormalizeIdempotent` | db.py:181-184 | normalising a normalised statement returns it unchanged |
| `SqlNormalizer.NormalizeFixedPoints` | db.py:181-184 | a text is left unchanged by normalisation if and only if it has no surrounding whitespace and ends with `;` |
| `SqlNormalizer.NormalizeBlank` | db.py:181-184 | the result is exactly `";"` if and only if the completion is empty or all whitespace, or strips to `";"` |
| `SqlNormalizer.NormalizeExample` | db.py:181-184 | `"  SELECT * FROM Customers  "` normalises to `"SELECT * FROM Customers;"` |
| `SqlNormalizer.NormalizeKeepsDoubleTerminator` | db.py:183-184 | an existing terminator is never doubled or removed: `"SELECT 1;;\n"` normalises to `"SELECT 1;;"` |
| `SchemaText.Line` | db.py:140 | the f-string's text for one row: starts with `Table `, then the table name verbatim; its length is the three names plus 19 fixed characters; it ends in a line break |
| `SchemaText.Render` | db.py:138-142 | the accumulated `schema_str`: the concatenation in row order of one `Line` per row; `""` exactly for no rows, otherwise ending in a line break |
| `SchemaText.RenderSchema` | db.py:138-142 | the accumulation loop returns the rendered schema of all rows: after `i` iterations the text is the rendering of the first `i` rows |
| `SchemaText.RenderAppend` | db.py:138-140 | rendering `a + b` is rendering `a` followed by rendering `b`, so row order is kept in the output |
| `SchemaText.RenderCons` | db.py:138-140 | the first row's line comes first, followed by the rendering of the remaining rows |
| `SchemaText.LineAt` | db.py:139-140 | the text right after the lines of rows `0..i-1` is exactly the line `Table <t>: column <c> (<d>)\n` of row `i` |
| `SchemaText.LineBreak` | db.py:140 | a row whose names hold no line break gives a line with exactly one line break (by `Line`, its last character) |
| `SchemaText.LinePerRow` | db.py:138-140 | when no name holds a line break, the schema text holds exactly one line break per row |
| `SchemaText.NameLeAntisymmetric` | db.py:136 | the name order used by `ORDER BY table_name` is antisymmetric |
| `SchemaText.TableRowsContiguous` | db.py:136 | in rows sorted by table name, a row between two rows of one table belongs to that table |
| `SchemaText.TableBlock` | db.py:131-140 | for sorted rows and any table `t`, the rows of `t` are exactly one block `rows[i..j]`, and the schema text is the text before, then the lines of `t`, then the text after |
| `Template.Format` | db.py:166-169 | left-to-right substitution: a template without braces is returned unchanged, and a missing-variable error names a field that has no value |
| `Template.FormatEscapedOpen` | db.py:166-169 | `{{` in the template stands for one literal `{`, and the rest is filled on its own |
| `Template.FormatEscapedClose` | db.py:166-169 | `}}` in the template stands for one literal `}`, and the rest is filled on its own |
| `Template.FormatBraceInName` | db.py:166-169 | a `{` inside a non-empty field name makes filling fail, whatever follows |
| `Template.FormatLiteral` | db.py:166-169 | brace-free template text is copied to the output verbatim |
| `Template.FormatField` | db.py:166-169 | a field `{name}` with a plain keyword name and a value is replaced by that value, whatever the value contains; the rest of the template is then filled on its own |
| `Template.FormatMissing` | db.py:166-169 | a field with a plain keyword name and no value makes filling fail with a missing-variable error naming it |
| `Template.FormatUnclosed` | db.py:166-169 | a `{` with no closing `}` makes filling fail |
| `Template.FormatSingleClose` | db.py:166-169 | a lone `}` makes filling fail |
| `Template.FormatTextThenField` | db.py:166-169 | text then a field: the text verbatim, then the value verbatim, then the rest |
| `Template.FormatTwoFields` | db.py:166-169 | a two-field template between brace-free texts fills to the texts and the two values verbatim, in order, without error |
| `SqlPrompt.FixedTextsHaveNoBraces` | db.py:153-164 | the fixed parts of `sql_template` hold no braces, so only `{schema}` and `{question}` are substituted |
| `SqlPrompt.FilledPrompt` | db.py:153-169 | filling `sql_template` with any schema and question never fails and gives prefix, schema verbatim, middle, question verbatim, suffix |
| `SqlPrompt.FillPrompt` | db.py:166-169 | the prompt `sql_prompt` produces is the fixed prefix, the schema text, the fixed middle, the unescaped question and the fixed suffix |
| `SqlPrompt.QuestionRecoverable` | db.py:161 | the question can be cut back out of the prompt unchanged at a position fixed by the schema's length |
| `AskDb.AskDb` | db.py:174-184 | the executed statement is the normalisation of the model's answer to the prompt built from the rendered rows and the question; it ends with `;`, has no surrounding whitespace, and is a fixed point of normalisation |

## Left out

- The language model call (`HuggingFaceEndpoint`, `sql_chain.invoke`, db.py:145-150, 172, 181) is a network service. `AskDb` takes it as an arbitrary function from prompt text to completion text. Its temperature and token cap are not modelled.
- SQLite access is database I/O: connecting, the catalog query, `cursor.execute`, `fetchall`, closing cursors (db.py:118-122, 126, 130-137, 141, 187-191). The catalog rows are an input sequence. Executing the statement, and the engine's error for a statement such as `";"`, are not modelled. `AskDb` returns the statement that would be executed.
- Loading `HF_TOKEN` from `.env` (db.py:9-12) is configuration I/O.
- The DDL and sample-data scripts (db.py:15-122) are setup data, not logic.
- The interactive loop and `print` calls (db.py:186, 193-201; main.py) are console I/O. main.py imports a name, `create_and_populate_db`, that db.py does not define.
- models.py holds SQLAlchemy table declarations only. It has no behaviour to model.
- The module-level shared connection belongs to the I/O layer, and so does any concurrency around it.
- `Template`: Python format fields with a conversion (`!r`), a format spec (`:>10`), attribute or index access (`a.b`, `a[0]`) or positional numbering are not modelled. A field name is taken verbatim up to the next brace. The lemmas about filled fields are stated only for plain keyword names (`PlainName`): non-empty, not all digits, and without `!`, `:`, `.` or `[`. The template of db.py uses only such names.
- `Template`: LangChain checks for missing input variables before formatting, while Python reports the first error from the left. The model reports the first error from the left. Both agree on whether filling fails. The prompt of db.py is always filled with both variables, so it never fails.
- `SchemaText`: the catalog values are taken as text. SQLite always returns text for table names, column names and declared types. A column with no declared type has the empty text as its type.
