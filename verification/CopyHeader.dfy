/** Finding the COPY line of the metadata table in a dump: copyRE and the column list in internal/recover/recover.go. */
module CopyHeader {
  import opened Text

  const TABLE := "guacdeploy_metadata"
  const COPY := "COPY"
  const STDIN := "FROM stdin;"

  // --- what the expression describes -------------------------------------

  predicate InWord(c: char) {
    !IsBlank(c) && c != '.' && c != '('
  }

  predicate InList(c: char) {
    c != ')'
  }

  /** The parts of a COPY line that may vary. */
  datatype Header = Header(gap: string, schema: Option<string>, before: string, list: string, after: string) {
    predicate WellFormed() {
      && gap != [] && AllOf(IsBlank, gap)
      && (schema.Some? ==> schema.value != [] && AllOf(InWord, schema.value))
      && AllOf(IsBlank, before) && AllOf(InList, list) && after != [] && AllOf(IsBlank, after)
    }

    function Rendered(): string {
      COPY + (gap + (Qualifier(schema) + (TABLE + Tail())))
    }

    function Tail(): string {
      before + ("(" + (list + (")" + (after + STDIN))))
    }
  }

  /** The line ends where the header does. */
  predicate AtLineEnd(rest: string) {
    rest == [] || rest[0] == '\n'
  }

  // --- reading one -------------------------------------------------------

  /** Text put together from the right, with more at its end. */
  lemma {:induction false} Longer(a: string, b: string, c: string, d: string, e: string, rest: string)
    ensures a + (b + (c + (d + e))) + rest == a + (b + (c + (d + (e + rest))))
  {
    Regroup(d, e, rest);
    Regroup(c, d + e, rest);
    Regroup(b, c + (d + e), rest);
    Regroup(a, b + (c + (d + e)), rest);
  }

  /** The list of columns in its parentheses, and what ends the line. */
  function ParseTail(s: string): Option<((string, string, string), string)> {
    var b := Span(IsBlank, s);
    var inside := After("(", s[b..]);
    if inside.None? then None else
    var l := Span(InList, inside.value);
    var closed := After(")", inside.value[l..]);
    if closed.None? then None else
    var a := Span(IsBlank, closed.value);
    var rest := After(STDIN, closed.value[a..]);
    if a == 0 || rest.None? || !AtLineEnd(rest.value) then None
    else Some(((s[..b], inside.value[..l], closed.value[..a]), rest.value))
  }

  function Qualifier(schema: Option<string>): string {
    if schema.Some? then schema.value + "." else ""
  }

  /** The table's name, with or without a schema, and what follows it. */
  function ParseName(name: string): Option<(Option<string>, string)> {
    var w := Span(InWord, name);
    var qualified := 0 < w < |name| && name[w] == '.';
    var table := After(TABLE, if qualified then name[w + 1..] else name);
    if table.None? then None else Some((if qualified then Some(name[..w]) else None, table.value))
  }

  /** A header at the front of a text, and what follows it. */
  function Parse(s: string): Option<(Header, string)> {
    var start := After(COPY, s);
    if start.None? then None else
    var g := Span(IsBlank, start.value);
    var name := ParseName(start.value[g..]);
    if g == 0 || name.None? then None else
    var tail := ParseTail(name.value.1);
    if tail.None? then None
    else
      var parts := tail.value.0;
      Some((Header(start.value[..g], name.value.0, parts.0, parts.1, parts.2), tail.value.1))
  }

  lemma {:induction false} TailParses(h: Header, rest: string)
    requires h.WellFormed() && AtLineEnd(rest)
    ensures ParseTail(h.Tail() + rest) == Some(((h.before, h.list, h.after), rest))
  {
    hide After, AllOf, AtLineEnd;
    var end := STDIN + rest;
    var closing := ")" + (h.after + end);
    var opening := "(" + (h.list + closing);
    TailWith(h, rest);
    SpanOf(IsBlank, h.before, opening);
    AfterIs("(", opening, h.list + closing);
    SpanOf(InList, h.list, closing);
    AfterIs(")", closing, h.after + end);
    SpanOf(IsBlank, h.after, end);
    AfterIs(STDIN, end, rest);
  }

  lemma {:induction false} TailIsParsed(s: string)
    requires ParseTail(s).Some?
    ensures var ((before, list, after), rest) := ParseTail(s).value;
            && AllOf(IsBlank, before) && AllOf(InList, list) && after != [] && AllOf(IsBlank, after) && AtLineEnd(rest)
            && s == before + ("(" + (list + (")" + (after + (STDIN + rest)))))
  {
    hide After, AllOf, AtLineEnd;
    var b := Span(IsBlank, s);
    var t := After("(", s[b..]).value;
    AfterIs("(", s[b..], t);
    var l := Span(InList, t);
    var u := After(")", t[l..]).value;
    AfterIs(")", t[l..], u);
    var a := Span(IsBlank, u);
    var rest := After(STDIN, u[a..]).value;
    AfterIs(STDIN, u[a..], rest);
    Halves(s, b);
    Halves(t, l);
    Halves(u, a);
    assert u[..a] != [];
  }

  lemma {:induction false} TailWith(h: Header, rest: string)
    ensures h.Tail() + rest == h.before + ("(" + (h.list + (")" + (h.after + (STDIN + rest)))))
  {
    Regroup(h.after, STDIN, rest);
    Longer(h.before, "(", h.list, ")", h.after + STDIN, rest);
  }

  lemma {:induction false} RenderedWith(h: Header, rest: string)
    ensures h.Rendered() + rest == COPY + (h.gap + (Qualifier(h.schema) + (TABLE + (h.Tail() + rest))))
  {
    Longer(COPY, h.gap, Qualifier(h.schema), TABLE, h.Tail(), rest);
  }

  /** The name of the table holds none of the characters that end a word. */
  lemma {:induction false} TableIsWord()
    ensures AllOf(InWord, TABLE) && TABLE != [] && !IsBlank(TABLE[0])
  {
    var front, back := "guacdeploy", "_metadata";
    assert TABLE == front + back;
    assert AllOf(InWord, front);
    assert AllOf(InWord, back);
  }

  /** What may follow the name of the table ends a word and is no dot. */
  predicate EndsWord(tail: string) {
    tail != [] && !InWord(tail[0]) && tail[0] != '.'
  }

  lemma {:induction false} TailEndsWord(h: Header, rest: string)
    requires h.WellFormed()
    ensures EndsWord(h.Tail() + rest)
  {
    if h.before != [] {
      assert h.before[0] in h.before && (h.Tail() + rest)[0] == h.before[0];
    } else {
      assert (h.Tail() + rest)[0] == '(';
    }
  }

  lemma {:induction false} NameParses(schema: Option<string>, tail: string)
    requires EndsWord(tail) && (schema.Some? ==> schema.value != [] && AllOf(InWord, schema.value))
    ensures var name := Qualifier(schema) + (TABLE + tail);
            ParseName(name) == Some((schema, tail)) && !IsBlank(name[0])
  {
    hide After;
    TableIsWord();
    AfterIs(TABLE, TABLE + tail, tail);
    if schema.Some? {
      var sc, dotted := schema.value, "." + (TABLE + tail);
      Regroup(sc, ".", TABLE + tail);
      SpanOf(InWord, sc, dotted);
      assert sc[0] in sc;
      assert dotted[1..] == TABLE + tail && (sc + dotted)[|sc| + 1..] == dotted[1..];
    } else {
      assert Qualifier(schema) + (TABLE + tail) == TABLE + tail;
      SpanOf(InWord, TABLE, tail);
    }
  }

  lemma {:induction false} NameIsParsed(name: string)
    requires ParseName(name).Some?
    ensures var (schema, tail) := ParseName(name).value;
            && name == Qualifier(schema) + (TABLE + tail)
            && (schema.Some? ==> schema.value != [] && AllOf(InWord, schema.value))
  {
    hide After, AllOf;
    var w := Span(InWord, name);
    var qualified := 0 < w < |name| && name[w] == '.';
    var bare := if qualified then name[w + 1..] else name;
    AfterIs(TABLE, bare, After(TABLE, bare).value);
    if qualified {
      Halves(name, w);
      assert name == (name[..w] + ".") + bare;
    }
  }

  lemma {:induction false} HeaderParses(h: Header, rest: string)
    requires h.WellFormed() && AtLineEnd(rest)
    ensures Parse(h.Rendered() + rest) == Some((h, rest))
  {
    hide ParseTail, AllOf, AtLineEnd, After, Span, ParseName, Qualifier;
    var tail := h.Tail() + rest;
    var name := Qualifier(h.schema) + (TABLE + tail);
    RenderedWith(h, rest);
    AfterIs(COPY, h.Rendered() + rest, h.gap + name);
    TailEndsWord(h, rest);
    NameParses(h.schema, tail);
    SpanOf(IsBlank, h.gap, name);
    TailParses(h, rest);
  }

  lemma {:induction false} ParsedIsHeader(s: string)
    requires Parse(s).Some?
    ensures var (h, rest) := Parse(s).value;
            h.WellFormed() && AtLineEnd(rest) && s == h.Rendered() + rest
  {
    hide ParseTail, AtLineEnd, AllOf, After, ParseName, Qualifier;
    var (h, rest) := Parse(s).value;
    var start := After(COPY, s).value;
    AfterIs(COPY, s, start);
    var g := Span(IsBlank, start);
    Halves(start, g);
    NameIsParsed(start[g..]);
    TailIsParsed(ParseName(start[g..]).value.1);
    TailWith(h, rest);
    RenderedWith(h, rest);
  }

  /** The reader takes exactly what the expression describes, and there is one way to take it. */
  lemma {:induction false} ParseIsExact(s: string, h: Header, rest: string)
    ensures Parse(s) == Some((h, rest)) <==> h.WellFormed() && AtLineEnd(rest) && s == h.Rendered() + rest
  {
    hide Parse, AtLineEnd;
    if Parse(s).Some? {
      ParsedIsHeader(s);
    }
    if h.WellFormed() && AtLineEnd(rest) && s == h.Rendered() + rest {
      HeaderParses(h, rest);
    }
  }

  // --- finding the first -------------------------------------------------

  predicate AtLineStart(s: string, i: nat)
    requires i <= |s|
  {
    i == 0 || s[i - 1] == '\n'
  }

  predicate HeaderAt(s: string, i: nat)
    requires i <= |s|
  {
    AtLineStart(s, i) && Parse(s[i..]).Some?
  }

  /** The first place from `from` on where a header begins. */
  function First(s: string, from: nat): Option<nat>
    requires from <= |s|
    decreases |s| - from
  {
    if HeaderAt(s, from) then Some(from) else if from == |s| then None else First(s, from + 1)
  }

  lemma {:induction false} FirstIsFirst(s: string, from: nat)
    requires from <= |s|
    ensures var at := First(s, from);
            && (at.Some? ==> from <= at.value <= |s| && HeaderAt(s, at.value)
                             && forall i: nat | from <= i < at.value :: !HeaderAt(s, i))
            && (at.None? ==> forall i: nat | from <= i <= |s| :: !HeaderAt(s, i))
    decreases |s| - from
  {
    hide HeaderAt;
    if !HeaderAt(s, from) && from < |s| {
      FirstIsFirst(s, from + 1);
    }
  }

  /** The first line of a dump that opens the table's block. */
  method Find(s: string) returns (at: Option<nat>)
    ensures at == First(s, 0)
  {
    hide HeaderAt;
    for i: nat := 0 to |s|
      invariant First(s, 0) == First(s, i)
    {
      if HeaderAt(s, i) {
        return Some(i);
      }
    }
    return if HeaderAt(s, |s|) then Some(|s|) else None;
  }

  // --- the list of columns -----------------------------------------------

  /** What strings.TrimSpace removes. */
  predicate IsSpace(c: char) {
    || c in ['\t', '\n', '\U{000B}', '\U{000C}', '\r', ' ', '\U{0085}', '\U{00A0}', '\U{1680}', '\U{2028}', '\U{2029}',
             '\U{202F}', '\U{205F}', '\U{3000}']
    || '\U{2000}' <= c <= '\U{200A}'
  }

  function Trim(s: string): string {
    if s != [] && IsSpace(s[0]) then Trim(s[1..])
    else if s != [] && IsSpace(s[|s| - 1]) then Trim(s[..|s| - 1])
    else s
  }

  function Columns(list: string): (names: seq<string>)
    ensures |names| == |Split(list, ',')|
  {
    var parts := Split(list, ',');
    seq(|parts|, i requires 0 <= i < |parts| => Trim(parts[i]))
  }

  /** A column name as pg_dump writes it unquoted: no comma, no parenthesis, no space at either end. */
  predicate CleanName(name: string) {
    name != [] && ',' !in name && ')' !in name && !IsSpace(name[0]) && !IsSpace(name[|name| - 1])
  }

  /** The names one after the other, each but the first after a comma and a space. */
  function Listing(names: seq<string>): string
    requires |names| >= 1
  {
    Join(Spaced(names), ',')
  }

  function Spaced(names: seq<string>): (parts: seq<string>)
    ensures |parts| == |names|
  {
    seq(|names|, i requires 0 <= i < |names| => if i == 0 then names[i] else " " + names[i])
  }

  lemma {:induction false} ColumnsReadBack(names: seq<string>)
    requires |names| >= 1 && forall n | n in names :: CleanName(n)
    ensures Columns(Listing(names)) == names && AllOf(InList, Listing(names))
  {
    var parts := Spaced(names);
    forall i | 0 <= i < |names|
      ensures Trim(parts[i]) == names[i] && ',' !in parts[i] && ')' !in parts[i]
    {
      assert names[i] in names;
      assert (" " + names[i])[1..] == names[i];
    }
    SplitJoin(parts, ',');
    JoinedHolds(parts, ',', ')');
  }
}
