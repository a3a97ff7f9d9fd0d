/**
 * Substitution of named fields into a prompt template, as LangChain's
 * `PromptTemplate` does for its default "f-string" format (Python's
 * `str.format` rules): `{name}` is replaced by the value given for `name`,
 * `{{` and `}}` stand for literal braces, and the template text is read
 * once from left to right, so substituted values are never scanned again.
 */
module Template {
  import opened Wrappers

  datatype FormatError =
    | MissingVariable(name: string)  // a field whose name has no value
    | UnclosedField                  // a `{` with no `}` after it
    | BraceInFieldName               // a `{` inside a field name
    | SingleCloseBrace               // a `}` that is neither `}}` nor closes a field

  predicate IsBrace(c: char) {
    c == '{' || c == '}'
  }

  predicate NoBraces(s: string) {
    forall i :: 0 <= i < |s| ==> !IsBrace(s[i])
  }

  lemma NoBracesAppend(a: string, b: string)
    requires NoBraces(a) && NoBraces(b)
    ensures NoBraces(a + b)
  {
    forall i | 0 <= i < |a + b| ensures !IsBrace((a + b)[i]) {
      if i >= |a| {
        assert (a + b)[i] == b[i - |a|];
      }
    }
  }

  /** A field name that Python's `str.format` looks up as a keyword
      argument: not empty (that would be an automatically numbered field),
      not all digits (a positional field), and without the conversion,
      format-spec, attribute and index markers `!`, `:`, `.` and `[`. */
  predicate PlainName(name: string) {
    && name != []
    && (exists i :: 0 <= i < |name| && !('0' <= name[i] <= '9'))
    && (forall i :: 0 <= i < |name| ==> name[i] !in ":!.[")
  }

  /** The length of the brace-free run at the front of `s`. */
  function FieldLength(s: string): (n: nat)
    ensures n <= |s|
    ensures NoBraces(s[..n])
    ensures n < |s| ==> IsBrace(s[n])
  {
    if s == [] || IsBrace(s[0]) then 0 else 1 + FieldLength(s[1..])
  }

  function Prepend(s: string, r: Result<string, FormatError>): Result<string, FormatError> {
    match r
    case Ok(v) => Ok(s + v)
    case Err(e) => Err(e)
  }

  /** The template `t` with its fields filled from `vars`, or the first
      error met reading it from the left.  A template without braces is
      its own result, and a missing-variable error names a field that has
      no value. */
  function Format(t: string, vars: map<string, string>): (r: Result<string, FormatError>)
    ensures NoBraces(t) ==> r == Ok(t)
    ensures r.Err? && r.error.MissingVariable? ==> r.error.name !in vars
    decreases |t|
  {
    if t == [] then Ok("")
    else if t[0] == '{' then
      if |t| >= 2 && t[1] == '{' then Prepend("{", Format(t[2..], vars))
      else
        var n := FieldLength(t[1..]);
        if n + 1 == |t| then Err(UnclosedField)
        else if t[n + 1] == '{' then Err(BraceInFieldName)
        else
          var name := t[1..n + 1];
          if name !in vars then Err(MissingVariable(name))
          else Prepend(vars[name], Format(t[n + 2..], vars))
    else if t[0] == '}' then
      if |t| >= 2 && t[1] == '}' then Prepend("}", Format(t[2..], vars))
      else Err(SingleCloseBrace)
    else
      assert t[..1] + t[1..] == t;
      Prepend(t[..1], Format(t[1..], vars))
  }

  lemma PrependAppend(s: string, s': string, r: Result<string, FormatError>)
    ensures Prepend(s, Prepend(s', r)) == Prepend(s + s', r)
  {
    if r.Ok? {
      assert s + (s' + r.value) == (s + s') + r.value;
    }
  }

  /** Text without braces is copied to the output unchanged. */
  lemma {:induction false} FormatLiteral(s: string, rest: string, vars: map<string, string>)
    requires NoBraces(s)
    ensures Format(s + rest, vars) == Prepend(s, Format(rest, vars))
    decreases |s|
  {
    if s == [] {
      assert s + rest == rest;
      assert Prepend(s, Format(rest, vars)) == Format(rest, vars) by {
        if Format(rest, vars).Ok? {
          assert s + Format(rest, vars).value == Format(rest, vars).value;
        }
      }
    } else {
      var t := s + rest;
      assert t[0] == s[0] && !IsBrace(t[0]);
      assert t[..1] == s[..1] && t[1..] == s[1..] + rest;
      FormatLiteral(s[1..], rest, vars);
      PrependAppend(s[..1], s[1..], Format(rest, vars));
      assert s[..1] + s[1..] == s;
    }
  }

  /** A field `{name}` whose name has a value is replaced by that value,
      whatever the value contains. */
  lemma FormatField(name: string, rest: string, vars: map<string, string>)
    requires NoBraces(name) && name in vars
    requires PlainName(name)
    ensures Format("{" + name + "}" + rest, vars) == Prepend(vars[name], Format(rest, vars))
  {
    var t := "{" + name + "}" + rest;
    FieldAt(name, rest);
    assert t[1..|name| + 1] == name;
    assert t[|name| + 2..] == rest;
  }

  /** A field `{name}` whose name has no value is an error. */
  lemma FormatMissing(name: string, rest: string, vars: map<string, string>)
    requires NoBraces(name) && name !in vars
    requires PlainName(name)
    ensures Format("{" + name + "}" + rest, vars) == Err(MissingVariable(name))
  {
    var t := "{" + name + "}" + rest;
    FieldAt(name, rest);
    assert t[1..|name| + 1] == name;
  }

  /** `{{` stands for one literal `{`; the rest is filled on its own. */
  lemma FormatEscapedOpen(rest: string, vars: map<string, string>)
    ensures Format("{{" + rest, vars) == Prepend("{", Format(rest, vars))
  {
    assert ("{{" + rest)[2..] == rest;
  }

  /** `}}` stands for one literal `}`; the rest is filled on its own. */
  lemma FormatEscapedClose(rest: string, vars: map<string, string>)
    ensures Format("}}" + rest, vars) == Prepend("}", Format(rest, vars))
  {
    assert ("}}" + rest)[2..] == rest;
  }

  /** A `{` inside a field name is an error, whatever follows it.  (With
      an empty name the two braces are the escape `{{` instead.) */
  lemma FormatBraceInName(name: string, rest: string, vars: map<string, string>)
    requires NoBraces(name) && name != []
    ensures Format("{" + name + "{" + rest, vars) == Err(BraceInFieldName)
  {
    var t := "{" + name + "{" + rest;
    assert t[1..] == name + ("{" + rest);
    FieldLengthOf(name, "{" + rest);
    assert t[|name| + 1] == '{';
    assert t[1] == name[0];
  }

  /** A `{` that no `}` closes is an error, whatever text precedes it. */
  lemma FormatUnclosed(pre: string, name: string, vars: map<string, string>)
    requires NoBraces(pre) && NoBraces(name)
    ensures Format(pre + "{" + name, vars) == Err(UnclosedField)
  {
    var t := "{" + name;
    assert pre + "{" + name == pre + t;
    FormatLiteral(pre, t, vars);
    assert t[1..] == name + [];
    assert name + [] == name;
    FieldLengthAll(name);
    if name != [] {
      assert t[1] == name[0];
    }
  }

  /** A `}` that is not doubled and closes no field is an error. */
  lemma FormatSingleClose(pre: string, rest: string, vars: map<string, string>)
    requires NoBraces(pre) && (rest == [] || rest[0] != '}')
    ensures Format(pre + "}" + rest, vars) == Err(SingleCloseBrace)
  {
    var t := "}" + rest;
    assert pre + "}" + rest == pre + t;
    FormatLiteral(pre, t, vars);
    if rest != [] {
      assert t[1] == rest[0];
    }
  }

  lemma {:induction false} FieldLengthAll(s: string)
    requires NoBraces(s)
    ensures FieldLength(s) == |s|
    decreases |s|
  {
    if s != [] {
      FieldLengthAll(s[1..]);
    }
  }

  lemma FieldAt(name: string, rest: string)
    requires NoBraces(name)
    ensures var t := "{" + name + "}" + rest;
      && FieldLength(t[1..]) == |name|
      && t[0] == '{' && t[1] != '{' && t[|name| + 1] == '}'
  {
    var t := "{" + name + "}" + rest;
    assert t[1..] == name + ("}" + rest);
    FieldLengthOf(name, "}" + rest);
    if name != [] {
      assert t[1] == name[0];
    }
  }

  lemma {:induction false} FieldLengthOf(s: string, rest: string)
    requires NoBraces(s) && rest != [] && IsBrace(rest[0])
    ensures FieldLength(s + rest) == |s|
    decreases |s|
  {
    if s == [] {
      assert s + rest == rest;
    } else {
      assert (s + rest)[1..] == s[1..] + rest;
      FieldLengthOf(s[1..], rest);
    }
  }

  /** Brace-free text followed by a field with a value: both are copied,
      the field as its value. */
  lemma FormatTextThenField(pre: string, name: string, rest: string, vars: map<string, string>)
    requires NoBraces(pre) && NoBraces(name) && name in vars
    requires PlainName(name)
    ensures Format(pre + "{" + name + "}" + rest, vars) == Prepend(pre + vars[name], Format(rest, vars))
  {
    var f := "{" + name + "}" + rest;
    assert pre + "{" + name + "}" + rest == pre + f;
    FormatLiteral(pre, f, vars);
    FormatField(name, rest, vars);
    PrependAppend(pre, vars[name], Format(rest, vars));
  }

  /** A template of two fields between brace-free texts is filled with the
      two values verbatim. */
  lemma FormatTwoFields(pre: string, n1: string, mid: string, n2: string, post: string,
                        vars: map<string, string>)
    requires NoBraces(pre) && NoBraces(mid) && NoBraces(post)
    requires NoBraces(n1) && NoBraces(n2) && n1 in vars && n2 in vars
    requires PlainName(n1) && PlainName(n2)
    ensures Format(pre + "{" + n1 + "}" + mid + "{" + n2 + "}" + post, vars)
         == Ok(pre + vars[n1] + mid + vars[n2] + post)
  {
    var rest := mid + "{" + n2 + "}" + post;
    assert pre + "{" + n1 + "}" + mid + "{" + n2 + "}" + post == pre + "{" + n1 + "}" + rest;
    FormatTextThenField(pre, n1, rest, vars);
    FormatTextThenField(mid, n2, post, vars);
    FormatLiteral(post, "", vars);
    assert post + "" == post;
    PrependAppend(pre + vars[n1], mid + vars[n2], Format(post, vars));
    assert pre + vars[n1] + (mid + vars[n2]) + post == pre + vars[n1] + mid + vars[n2] + post;
  }
}
