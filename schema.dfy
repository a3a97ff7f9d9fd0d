/**
 * The schema renderer `fetch_db_schema` (db.py): every (table, column,
 * declared type) row of the catalog query becomes one line
 * `Table <t>: column <c> (<d>)` ending in a newline, and the lines are
 * concatenated in row order.  The rows themselves come from SQLite and are
 * an input here; their `ORDER BY table_name` is a property of that input.
 */
module SchemaText {

  /** One row of the catalog query: table name, column name, declared type. */
  datatype CatalogRow = CatalogRow(table: string, column: string, dataType: string)

  /** The line the loop body appends for one row: the fixed words
      `Table `, `: column `, ` (` and `)` around the three names, then a
      line break. */
  function Line(row: CatalogRow): (l: string)
    ensures |l| == |row.table| + |row.column| + |row.dataType| + 19
    ensures l[..6] == "Table " && l[|l| - 1] == '\n'
    ensures l[6..6 + |row.table|] == row.table
  {
    "Table " + row.table + ": column " + row.column + " (" + row.dataType + ")\n"
  }

  /** The text after the loop has consumed `rows`, one line appended per row. */
  function Render(rows: seq<CatalogRow>): (r: string)
    ensures r == "" <==> rows == []
    ensures |r| >= 19 * |rows|
    ensures rows != [] ==> r[|r| - 1] == '\n'
  {
    if rows == [] then "" else Render(rows[..|rows| - 1]) + Line(rows[|rows| - 1])
  }

  /** The loop of db.py:138-140: starts from the empty text and appends the
      line of each row in turn. */
  method RenderSchema(rows: seq<CatalogRow>) returns (schema: string)
    ensures schema == Render(rows)
  {
    schema := "";
    var i := 0;
    while i < |rows|
      invariant 0 <= i <= |rows|
      invariant schema == Render(rows[..i])
    {
      assert rows[..i + 1][..i] == rows[..i];
      schema := schema + Line(rows[i]);
      i := i + 1;
    }
    assert rows[..|rows|] == rows;
  }

  /** Rendering distributes over concatenation of the row sequence. */
  lemma {:induction false} RenderAppend(a: seq<CatalogRow>, b: seq<CatalogRow>)
    ensures Render(a + b) == Render(a) + Render(b)
    decreases |b|
  {
    if b == [] {
      assert a + b == a;
      assert Render(a) + Render(b) == Render(a) + "" == Render(a);
    } else {
      var b', last := b[..|b| - 1], b[|b| - 1];
      assert (a + b)[..|a + b| - 1] == a + b';
      assert (a + b)[|a + b| - 1] == last;
      RenderAppend(a, b');
      calc {
        Render(a + b);
        Render(a + b') + Line(last);
        Render(a) + Render(b') + Line(last);
        Render(a) + (Render(b') + Line(last));
        Render(a) + Render(b);
      }
    }
  }

  /** The first row's line comes first, followed by the rest. */
  lemma RenderCons(row: CatalogRow, rows: seq<CatalogRow>)
    ensures Render([row] + rows) == Line(row) + Render(rows)
  {
    RenderAppend([row], rows);
    assert Render([row]) == Render([]) + Line(row) by {
      assert [row][..0] == [];
    }
  }

  /** Line `i` of the output is the line of row `i`: it sits right after
      the lines of the rows before it. */
  lemma LineAt(rows: seq<CatalogRow>, i: nat)
    requires i < |rows|
    ensures |Render(rows[..i])| + |Line(rows[i])| <= |Render(rows)|
    ensures Render(rows)[|Render(rows[..i])|..|Render(rows[..i])| + |Line(rows[i])|] == Line(rows[i])
  {
    assert rows == rows[..i] + ([rows[i]] + rows[i + 1..]);
    RenderAppend(rows[..i], [rows[i]] + rows[i + 1..]);
    RenderCons(rows[i], rows[i + 1..]);
    var p, l := Render(rows[..i]), Line(rows[i]);
    assert Render(rows) == p + l + Render(rows[i + 1..]);
    assert Render(rows)[|p|..|p| + |l|] == l;
  }

  /** No table, column or type name contains a line break. */
  predicate SingleLineNames(rows: seq<CatalogRow>) {
    forall i :: 0 <= i < |rows| ==>
      '\n' !in rows[i].table && '\n' !in rows[i].column && '\n' !in rows[i].dataType
  }

  /** One line per row: when no name contains a line break, each row's
      line holds exactly one line break, so the rendered schema has exactly
      as many line breaks as there are rows. */
  lemma {:induction false} LinePerRow(rows: seq<CatalogRow>)
    requires SingleLineNames(rows)
    ensures multiset(Render(rows))['\n'] == |rows|
    decreases |rows|
  {
    if rows != [] {
      var init, r := rows[..|rows| - 1], rows[|rows| - 1];
      assert SingleLineNames(init) by {
        forall i | 0 <= i < |init| ensures '\n' !in init[i].table && '\n' !in init[i].column && '\n' !in init[i].dataType {
          assert init[i] == rows[i];
        }
      }
      LinePerRow(init);
      LineBreak(r);
      assert multiset(Render(rows)) == multiset(Render(init)) + multiset(Line(r));
    }
  }

  /** A row whose names have no line break renders as a line with exactly
      one line break (the one `Line` ends with). */
  lemma LineBreak(r: CatalogRow)
    requires '\n' !in r.table && '\n' !in r.column && '\n' !in r.dataType
    ensures multiset(Line(r))['\n'] == 1
  {
    var pieces := ["Table ", r.table, ": column ", r.column, " (", r.dataType, ")"];
    var body := pieces[0] + pieces[1] + pieces[2] + pieces[3] + pieces[4] + pieces[5] + pieces[6];
    assert Line(r) == body + "\n";
    assert '\n' !in body by {
      assert '\n' !in "Table " && '\n' !in ": column " && '\n' !in " (" && '\n' !in ")";
    }
    assert multiset(Line(r)) == multiset(body) + multiset("\n");
  }

  /** Code-point lexicographic order on names, shorter prefix first: the
      order of SQLite's default BINARY collation on UTF-8 text. */
  predicate NameLe(a: string, b: string)
    decreases |a|
  {
    a == [] || (b != [] && (a[0] < b[0] || (a[0] == b[0] && NameLe(a[1..], b[1..]))))
  }

  lemma {:induction false} NameLeAntisymmetric(a: string, b: string)
    requires NameLe(a, b) && NameLe(b, a)
    ensures a == b
    decreases |a|
  {
    if a != [] {
      NameLeAntisymmetric(a[1..], b[1..]);
      assert a == [a[0]] + a[1..] && b == [b[0]] + b[1..];
    }
  }

  /** The catalog rows as `ORDER BY table_name` delivers them. */
  predicate SortedByTable(rows: seq<CatalogRow>) {
    forall i, j :: 0 <= i < j < |rows| ==> NameLe(rows[i].table, rows[j].table)
  }

  /** In sorted rows, every row between two rows of one table belongs to
      that table too. */
  lemma TableRowsContiguous(rows: seq<CatalogRow>, i: nat, k: nat, j: nat)
    requires SortedByTable(rows)
    requires i <= k <= j < |rows| && rows[i].table == rows[j].table
    ensures rows[k].table == rows[i].table
  {
    if i < k < j {
      NameLeAntisymmetric(rows[k].table, rows[i].table);
    }
  }

  /** Exactly the rows `rows[i..j]` belong to table `t`. */
  predicate IsTableBlock(rows: seq<CatalogRow>, t: string, i: nat, j: nat) {
    && i <= j <= |rows|
    && (forall k :: 0 <= k < |rows| ==> (rows[k].table == t <==> i <= k < j))
  }

  /** Grouping by table survives rendering: for sorted rows, the rows of
      any table `t` form one block `rows[i..j]`, and the rendered schema is
      the text of the rows before it, then the lines of that table, then
      the text of the rows after it. */
  lemma TableBlock(rows: seq<CatalogRow>, t: string)
    requires SortedByTable(rows)
    ensures exists i: nat, j: nat ::
              && IsTableBlock(rows, t, i, j)
              && Render(rows) == Render(rows[..i]) + Render(rows[i..j]) + Render(rows[j..])
  {
    var i: nat, j: nat := 0, 0;
    if k :| 0 <= k < |rows| && rows[k].table == t {
      i, j := k, k + 1;
      while i > 0 && rows[i - 1].table == t
        invariant 0 <= i <= k
        invariant forall m :: i <= m <= k ==> rows[m].table == t
      {
        i := i - 1;
      }
      while j < |rows| && rows[j].table == t
        invariant k < j <= |rows|
        invariant forall m :: k <= m < j ==> rows[m].table == t
      {
        j := j + 1;
      }
      forall m | 0 <= m < |rows| && rows[m].table == t ensures i <= m < j {
        if m < i {
          TableRowsContiguous(rows, m, i - 1, k);
        } else if m >= j {
          TableRowsContiguous(rows, k, j, m);
        }
      }
    }
    assert IsTableBlock(rows, t, i, j);
    assert rows == (rows[..i] + rows[i..j]) + rows[j..];
    RenderAppend(rows[..i] + rows[i..j], rows[j..]);
    RenderAppend(rows[..i], rows[i..j]);
  }
}
