/**
 * The SQL normaliser of `ask_db` (db.py): the completion text is stripped of
 * leading and trailing whitespace with Python's `str.strip()`, and a `;` is
 * appended unless the stripped text already ends with one.
 */
module SqlNormalizer {

  /** The 29 code points for which Python's `str.isspace()` holds, listed
      one by one. */
  const PythonWhitespace: set<char> := {
    '\t', '\n', '\U{0B}', '\U{0C}', '\r', '\U{1C}', '\U{1D}', '\U{1E}', '\U{1F}', ' ',
    '\U{85}', '\U{A0}', '\U{1680}', '\U{2000}', '\U{2001}', '\U{2002}', '\U{2003}',
    '\U{2004}', '\U{2005}', '\U{2006}', '\U{2007}', '\U{2008}', '\U{2009}', '\U{200A}',
    '\U{2028}', '\U{2029}', '\U{202F}', '\U{205F}', '\U{3000}'
  }

  /** Python's `str.isspace()` for one character: exactly the code points
      that `str.strip()` with no argument removes. */
  predicate IsSpace(c: char): (b: bool)
    ensures b <==> c in PythonWhitespace
  {
    || ('\t' <= c <= '\r')              // \t \n \x0b \x0c \r
    || ('\U{1C}' <= c <= '\U{1F}')      // file, group, record and unit separators
    || c == ' '
    || c == '\U{85}'                    // next line
    || c == '\U{A0}'                    // no-break space
    || c == '\U{1680}'                  // ogham space mark
    || ('\U{2000}' <= c <= '\U{200A}')  // en quad .. hair space
    || c == '\U{2028}'                  // line separator
    || c == '\U{2029}'                  // paragraph separator
    || c == '\U{202F}'                  // narrow no-break space
    || c == '\U{205F}'                  // medium mathematical space
    || c == '\U{3000}'                  // ideographic space
  }

  predicate AllSpace(s: string) {
    forall i :: 0 <= i < |s| ==> IsSpace(s[i])
  }

  /** `s` neither starts nor ends with whitespace. */
  predicate Trimmed(s: string) {
    s == [] || (!IsSpace(s[0]) && !IsSpace(s[|s| - 1]))
  }

  predicate EndsWithSemicolon(s: string) {
    |s| > 0 && s[|s| - 1] == ';'
  }

  /** The number of whitespace characters at the front of `s`. */
  function LeadingSpaces(s: string): (n: nat)
    ensures n <= |s|
    ensures AllSpace(s[..n])
    ensures n < |s| ==> !IsSpace(s[n])
  {
    if s == [] || !IsSpace(s[0]) then 0 else 1 + LeadingSpaces(s[1..])
  }

  /** The number of whitespace characters at the back of `s`. */
  function TrailingSpaces(s: string): (n: nat)
    ensures n <= |s|
    ensures AllSpace(s[|s| - n..])
    ensures n < |s| ==> !IsSpace(s[|s| - 1 - n])
  {
    if s == [] || !IsSpace(s[|s| - 1]) then 0 else 1 + TrailingSpaces(s[..|s| - 1])
  }

  /** Python's `s.strip()`: the text between the leading and the trailing
      whitespace, which is removed and nothing else. */
  function Strip(s: string): (r: string)
    ensures LeadingSpaces(s) + |r| <= |s|
    ensures r == s[LeadingSpaces(s)..LeadingSpaces(s) + |r|]
    ensures AllSpace(s[..LeadingSpaces(s)]) && AllSpace(s[LeadingSpaces(s) + |r|..])
    ensures Trimmed(r)
  {
    var k := LeadingSpaces(s);
    if k == |s| then [] else s[k..|s| - TrailingSpaces(s)]
  }

  /** The normalised statement of db.py:181-184. */
  function Normalize(raw: string): (stmt: string)
    ensures EndsWithSemicolon(stmt)
    ensures Trimmed(stmt)
    ensures EndsWithSemicolon(Strip(raw)) ==> stmt == Strip(raw)
    ensures !EndsWithSemicolon(Strip(raw)) ==> stmt == Strip(raw) + ";"
  {
    var s := Strip(raw);
    if EndsWithSemicolon(s) then s else s + ";"
  }

  /** Whitespace around a trimmed text is exactly what `Strip` removes:
      `Strip` is the unique such decomposition of its input. */
  lemma StripUnique(a: string, r: string, b: string)
    requires AllSpace(a) && AllSpace(b) && Trimmed(r)
    ensures Strip(a + r + b) == r
  {
    var s := a + r + b;
    assert s == a + (r + b);
    if r == [] {
      assert s == a + b;
      assert AllSpace(s) by {
        forall i | 0 <= i < |s| ensures IsSpace(s[i]) {
          if i < |a| { assert s[i] == a[i]; } else { assert s[i] == b[i - |a|]; }
        }
      }
      AllSpaceLeading(s);
    } else {
      LeadingOf(a, r + b);
      var k := |a|;
      var st := Strip(s);
      assert s[k..k + |r|] == r;
      assert s[k + |r|..] == b;
      SameExtent(s, k, |st|, |r|);
    }
  }

  /** Two trimmed stretches of `s` starting at `k`, each followed only by
      whitespace, have the same length. */
  lemma SameExtent(s: string, k: nat, m: nat, n: nat)
    requires k + m <= |s| && k + n <= |s|
    requires Trimmed(s[k..k + m]) && Trimmed(s[k..k + n])
    requires AllSpace(s[k + m..]) && AllSpace(s[k + n..])
    ensures m == n
  {
  }

  lemma {:induction false} LeadingOf(a: string, rest: string)
    requires AllSpace(a)
    requires rest == [] || !IsSpace(rest[0])
    ensures LeadingSpaces(a + rest) == |a|
    decreases |a|
  {
    if a != [] {
      assert (a + rest)[1..] == a[1..] + rest;
      LeadingOf(a[1..], rest);
    } else {
      assert a + rest == rest;
    }
  }

  lemma AllSpaceLeading(s: string)
    requires AllSpace(s)
    ensures LeadingSpaces(s) == |s|
  {
    LeadingOf(s, []);
    assert s + [] == s;
  }

  /** Stripping twice removes nothing more. */
  lemma StripIdempotent(s: string)
    ensures Strip(Strip(s)) == Strip(s)
  {
    var r := Strip(s);
    assert [] + r + [] == r;
    StripUnique([], r, []);
  }

  /** Normalising an already normalised statement returns it unchanged. */
  lemma NormalizeIdempotent(raw: string)
    ensures Normalize(Normalize(raw)) == Normalize(raw)
  {
    var stmt := Normalize(raw);
    assert [] + stmt + [] == stmt;
    StripUnique([], stmt, []);
  }

  /** The statements `Normalize` leaves unchanged are exactly the trimmed
      texts that end with `;`. */
  lemma NormalizeFixedPoints(s: string)
    ensures Normalize(s) == s <==> Trimmed(s) && EndsWithSemicolon(s)
  {
    if Trimmed(s) {
      assert [] + s + [] == s;
      StripUnique([], s, []);
    }
  }

  /** Empty or whitespace-only completion text normalises to `";"`, and
      nothing else does except a text whose stripped form is `";"`. */
  lemma NormalizeBlank(raw: string)
    ensures Normalize(raw) == ";" <==> AllSpace(raw) || Strip(raw) == ";"
  {
    if AllSpace(raw) {
      AllSpaceLeading(raw);
    }
    if Normalize(raw) == ";" && Strip(raw) != ";" {
      assert Strip(raw) == [];
      var k := LeadingSpaces(raw);
      assert raw[..k] == raw;
    }
  }

  /** The completion `"  SELECT * FROM Customers  "` becomes
      `"SELECT * FROM Customers;"`. */
  lemma NormalizeExample()
    ensures Normalize("  SELECT * FROM Customers  ") == "SELECT * FROM Customers;"
  {
    var body := "SELECT * FROM Customers";
    assert "  SELECT * FROM Customers  " == "  " + body + "  ";
    StripUnique("  ", body, "  ");
  }

  /** A `;` already at the end is kept, even a second one: the result then
      ends with two terminators. */
  lemma NormalizeKeepsDoubleTerminator()
    ensures Normalize("SELECT 1;;\n") == "SELECT 1;;"
  {
    var body := "SELECT 1;;";
    assert "SELECT 1;;\n" == "" + body + "\n";
    StripUnique("", body, "\n");
  }
}
