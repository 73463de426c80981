/** Reading the deployment record back out of a pg_dump COPY block, internal/recover/recover.go. */
module CopyText {
  import opened Text
  import opened Numbers
  import opened CopyHeader

  const TAB := '\t'
  const NULL_FIELD := "\\N"
  const END_OF_DATA := "\\."

  // --- one field ---------------------------------------------------------

  /** How PostgreSQL writes one character of a text-format field (documentation of COPY, section "Text Format"). */
  function EscapeChar(c: char): string {
    if c == '\\' then "\\\\"
    else if c == '\n' then "\\n"
    else if c == '\t' then "\\t"
    else if c == '\r' then "\\r"
    else if c == '\U{0008}' then "\\b"
    else if c == '\U{000C}' then "\\f"
    else if c == '\U{000B}' then "\\v"
    else [c]
  }

  function Escape(s: string): string {
    if s == [] then [] else EscapeChar(s[0]) + Escape(s[1..])
  }

  function Plain(code: char): char {
    if code == 'n' then '\n'
    else if code == 't' then '\t'
    else if code == 'r' then '\r'
    else if code == 'b' then '\U{0008}'
    else if code == 'f' then '\U{000C}'
    else if code == 'v' then '\U{000B}'
    else code
  }

  function Decode(f: string): string {
    if f == [] then []
    else if f[0] != '\\' || |f| == 1 then [f[0]] + Decode(f[1..])
    else [Plain(f[1])] + Decode(f[2..])
  }

  function Unescaped(f: string): string {
    if f == NULL_FIELD then f else Decode(f)
  }

  lemma {:induction false} DecodeClean(f: string)
    requires '\\' !in f
    ensures Decode(f) == f
  {
    if f != [] {
      DecodeClean(f[1..]);
      assert f == [f[0]] + f[1..];
    }
  }

  /** One turn of the loop in Unescape: `out` and the rest still to be read make up the whole answer. */
  lemma {:induction false} DecodeStep(out: string, rest: string, whole: string)
    requires rest != [] && out + Decode(rest) == whole
    ensures if rest[0] != '\\' || |rest| == 1 then (out + [rest[0]]) + Decode(rest[1..]) == whole
            else (out + [Plain(rest[1])]) + Decode(rest[2..]) == whole
  {
  }

  method Unescape(f: string) returns (out: string)
    ensures out == Unescaped(f)
  {
    if f == NULL_FIELD || '\\' !in f {
      if f != NULL_FIELD {
        DecodeClean(f);
      }
      return f;
    }
    out := [];
    var i := 0;
    while i < |f|
      invariant 0 <= i <= |f| && out + Decode(f[i..]) == Decode(f)
    {
      DecodeStep(out, f[i..], Decode(f));
      assert f[i..][1..] == f[i + 1..] && (i + 2 <= |f| ==> f[i..][2..] == f[i + 2..]);
      if f[i] != '\\' || i + 1 >= |f| {
        out := out + [f[i]];
      } else {
        i := i + 1;
        out := out + [Plain(f[i])];
      }
      i := i + 1;
    }
    assert f[|f|..] == [] && out + [] == out;
  }

  /** One escaped character in front of anything reads back as that character. */
  lemma {:induction false} CharReadsBack(c: char, rest: string)
    ensures Decode(EscapeChar(c) + rest) == [c] + Decode(rest)
    ensures forall x | x in EscapeChar(c) :: x != '\t' && x != '\n'
    ensures |EscapeChar(c)| == 2 ==> EscapeChar(c)[1] != 'N'
    ensures 1 <= |EscapeChar(c)| <= 2 && (EscapeChar(c)[0] == '\\' ==> |EscapeChar(c)| == 2)
  {
    var head := EscapeChar(c);
    assert (head + rest)[|head|..] == rest;
    assert head[0] == '\\' ==> Plain(head[1]) == c;
  }

  lemma {:induction false} EscapedIsClean(s: string)
    ensures forall x | x in Escape(s) :: x != '\t' && x != '\n'
  {
    if s != [] {
      EscapedIsClean(s[1..]);
      CharReadsBack(s[0], []);
    }
  }

  lemma {:induction false} DecodeInvertsEscape(s: string)
    ensures Decode(Escape(s)) == s
  {
    if s != [] {
      DecodeInvertsEscape(s[1..]);
      CharReadsBack(s[0], Escape(s[1..]));
      assert [s[0]] + s[1..] == s;
    }
  }

  lemma {:induction false} EscapedIsNotNull(s: string)
    ensures Escape(s) != NULL_FIELD
  {
    if s != [] {
      CharReadsBack(s[0], []);
      assert Escape(s)[0] == EscapeChar(s[0])[0] && (|EscapeChar(s[0])| == 2 ==> Escape(s)[1] == EscapeChar(s[0])[1]);
    }
  }

  /** An escaped field holds no tab and no line end, and unescaping undoes escaping for every text. */
  lemma {:induction false} UnescapeInvertsEscape(s: string)
    ensures '\t' !in Escape(s) && '\n' !in Escape(s)
    ensures Escape(s) != NULL_FIELD && Unescaped(Escape(s)) == s
  {
    EscapedIsClean(s);
    DecodeInvertsEscape(s);
    EscapedIsNotNull(s);
  }

  // --- the block ---------------------------------------------------------

  /** The JSON record inside a row, as far as the reader looks at it. */
  datatype Record = Record(schema: int, deployment: string, rest: string)

  datatype Snapshot = Snapshot(schema: int, taken: Option<string>, state: Record)

  /** Crashed is an index out of range, which only a list that names a column twice can lead to. */
  datatype Extracted = Found(snapshot: Snapshot) | NoRecord | Incompatible | Crashed

  datatype Best = Best(id: int, snapshot: Option<Snapshot>)

  /** What reading rows comes to: a best row, a record that cannot be decoded, or a field that is not there. */
  datatype Scanned = Chosen(best: Best) | Unreadable | OutOfRange

  const SCHEMA_VERSION := 1
  const FIRST := Best(-1, None)

  /** Where each column is; of two with one name the later counts. */
  function Places(columns: seq<string>): (places: map<string, nat>)
    ensures places.Keys == (set c | c in columns)
    ensures forall c | c in places :: places[c] < |columns| && columns[places[c]] == c
  {
    if columns == [] then map[]
    else
      var last := |columns| - 1;
      assert columns == columns[..last] + [columns[last]];
      Places(columns[..last])[columns[last] := last]
  }

  lemma {:induction false} DistinctPlaces(columns: seq<string>)
    requires Distinct(columns)
    ensures |Places(columns)| == |columns| && forall i | 0 <= i < |columns| :: Places(columns)[columns[i]] == i
  {
    if columns != [] {
      var last := |columns| - 1;
      var front := columns[..last];
      LastIsNew(columns);
      DistinctPlaces(front);
      hide Places, Distinct;
      OneMore(Places(front), columns[last], last);
      forall i | 0 <= i < last
        ensures Places(columns)[columns[i]] == i
      {
        assert front[i] == columns[i] && columns[i] in front;
      }
    }
  }

  lemma {:induction false} OneMore(places: map<string, nat>, name: string, i: nat)
    ensures |places[name := i]| == if name in places then |places| else |places| + 1
  {
    if name in places {
      assert places[name := i].Keys == places.Keys;
    } else {
      assert places[name := i].Keys == places.Keys + {name};
    }
  }

  lemma {:induction false} LastIsNew(columns: seq<string>)
    requires columns != []
    ensures var last, front := columns[|columns| - 1], columns[..|columns| - 1];
            && Places(columns) == Places(front)[last := |front|]
            && (Distinct(columns) ==> last !in front && last !in Places(front))
  {
  }

  /** The three columns the reader needs are there. */
  predicate Usable(places: map<string, nat>) {
    "id" in places && "schema_version" in places && "state" in places
  }

  function TakenAt(places: map<string, nat>, f: seq<string>): Option<string> {
    if "taken_at" in places && places["taken_at"] < |f| then Some(Unescaped(f[places["taken_at"]])) else None
  }

  /** What one data row does to the best row so far. */
  function Consider(places: map<string, nat>, decode: string -> Option<Record>, f: seq<string>, best: Best): Scanned
    requires Usable(places)
  {
    if places["id"] >= |f| then OutOfRange else
    var id := Atoi(Unescaped(f[places["id"]]));
    if id.None? || id.value <= best.id then Chosen(best) else
    if places["schema_version"] >= |f| then OutOfRange else
    var schema := Atoi(Unescaped(f[places["schema_version"]]));
    if schema.None? then Chosen(best) else
    if places["state"] >= |f| then OutOfRange else
    var record := decode(Unescaped(f[places["state"]]));
    if record.None? then Unreadable
    else Chosen(Best(id.value, Some(Snapshot(schema.value, TakenAt(places, f), record.value))))
  }

  /** Reading the lines of the block in order, up to the end-of-data line. */
  function Scan(places: map<string, nat>, decode: string -> Option<Record>, lines: seq<string>, best: Best): Scanned
    requires Usable(places)
  {
    if lines == [] || lines[0] == END_OF_DATA then Chosen(best)
    else
      var f := Split(lines[0], TAB);
      if lines[0] == "" || |f| < |places| then Scan(places, decode, lines[1..], best)
      else
        var next := Consider(places, decode, f, best);
        if !next.Chosen? then next else Scan(places, decode, lines[1..], next.best)
  }

  /** The compatibility checks on the chosen record. */
  function Accept(scanned: Scanned): Extracted {
    match scanned
    case Unreadable => Incompatible
    case OutOfRange => Crashed
    case Chosen(Best(_, None)) => NoRecord
    case Chosen(Best(_, Some(s))) =>
      if s.schema > SCHEMA_VERSION || s.state.schema > SCHEMA_VERSION || s.state.deployment == "" then Incompatible
      else Found(s)
  }

  /** What a dump says: the first header of the metadata table, its columns, and the rows after it. */
  function Reading(sql: string, decode: string -> Option<Record>): Extracted {
    var at := First(sql, 0);
    if at.None? then NoRecord else
    FirstIsFirst(sql, 0);
    var (h, tail) := Parse(sql[at.value..]).value;
    var places := Places(Columns(h.list));
    if !Usable(places) then Incompatible else Accept(Scan(places, decode, Split(tail, '\n'), FIRST))
  }

  /** The loop over the list of columns. */
  method PlaceColumns(list: string) returns (places: map<string, nat>)
    ensures places == Places(Columns(list))
  {
    var names := Columns(list);
    places := map[];
    for i := 0 to |names|
      invariant places == Places(names[..i])
    {
      TakeStep(names, i);
      places := places[names[i] := i];
    }
    assert names[..|names|] == names;
  }

  method ExtractSnapshot(sql: string, decode: string -> Option<Record>) returns (r: Extracted)
    ensures r == Reading(sql, decode)
  {
    hide Unescaped, Atoi, Places, Split, Parse, Columns, First;
    var at := Find(sql);
    if at.None? {
      return NoRecord;
    }
    FirstIsFirst(sql, 0);
    var (h, tail) := Parse(sql[at.value..]).value;
    var places := PlaceColumns(h.list);
    if "id" !in places || "schema_version" !in places || "state" !in places {
      return Incompatible;
    }
    r := ReadRows(places, tail, decode);
  }

  /** The loop over the rows, and the checks on what it chose. */
  method ReadRows(places: map<string, nat>, tail: string, decode: string -> Option<Record>) returns (r: Extracted)
    requires Usable(places)
    ensures r == Accept(Scan(places, decode, Split(tail, '\n'), FIRST))
  {
    hide Unescaped, Atoi, Split;
    var lines := Split(tail, '\n');
    var best, bestID := None, -1;
    var i := 0;
    while i < |lines| && lines[i] != END_OF_DATA
      invariant 0 <= i <= |lines|
      invariant Scan(places, decode, lines, FIRST) == Scan(places, decode, lines[i..], Best(bestID, best))
    {
      assert lines[i..][1..] == lines[i + 1..];
      var f := Split(lines[i], TAB);
      if lines[i] != "" && |f| >= |places| {
        if places["id"] >= |f| {
          return Crashed;
        }
        var idText := Unescape(f[places["id"]]);
        var id := Atoi(idText);
        if id.Some? && id.value > bestID {
          if places["schema_version"] >= |f| {
            return Crashed;
          }
          var schemaText := Unescape(f[places["schema_version"]]);
          var schema := Atoi(schemaText);
          if schema.Some? {
            if places["state"] >= |f| {
              return Crashed;
            }
            var stateText := Unescape(f[places["state"]]);
            var record := decode(stateText);
            if record.None? {
              return Incompatible;
            }
            best, bestID := Some(Snapshot(schema.value, TakenAt(places, f), record.value)), id.value;
          }
        }
      }
      i := i + 1;
    }
    if best.None? {
      return NoRecord;
    }
    var state := best.value.state;
    if best.value.schema > SCHEMA_VERSION || state.schema > SCHEMA_VERSION || state.deployment == "" {
      return Incompatible;
    }
    return Found(best.value);
  }

  // --- what pg_dump writes -----------------------------------------------

  /** A row the backup inserted; `others` are any further columns, absent ones being SQL NULL. */
  datatype Entry = Entry(id: nat, schema: nat, state: string, others: map<string, string>)

  predicate Readable(e: Entry, decode: string -> Option<Record>) {
    e.id <= MAX_INT && e.schema <= MAX_INT && decode(e.state).Some?
  }

  function Cell(e: Entry, column: string): Option<string> {
    if column == "id" then Some(Render(e.id))
    else if column == "schema_version" then Some(Render(e.schema))
    else if column == "state" then Some(e.state)
    else if column in e.others then Some(e.others[column])
    else None
  }

  function Field(value: Option<string>): string {
    match value
    case None => NULL_FIELD
    case Some(s) => Escape(s)
  }

  function Fields(columns: seq<string>, e: Entry): (f: seq<string>)
    ensures |f| == |columns| && forall i | 0 <= i < |f| :: f[i] == Field(Cell(e, columns[i]))
  {
    seq(|columns|, i requires 0 <= i < |columns| => Field(Cell(e, columns[i])))
  }

  function Line(columns: seq<string>, e: Entry): string
    requires columns != []
  {
    Join(Fields(columns, e), TAB)
  }

  function LinesOf(columns: seq<string>, rows: seq<Entry>): (lines: seq<string>)
    requires columns != []
    ensures |lines| == |rows| && forall i | 0 <= i < |rows| :: lines[i] == Line(columns, rows[i])
  {
    if rows == [] then [] else [Line(columns, rows[0])] + LinesOf(columns, rows[1..])
  }

  /** The dump from the end of the COPY line: the rows, the end-of-data line, and whatever follows. */
  function Block(columns: seq<string>, rows: seq<Entry>, after: seq<string>): string
    requires columns != []
  {
    Join([""] + LinesOf(columns, rows) + [END_OF_DATA] + after, '\n')
  }

  /** The snapshot a row stands for. */
  function Meaning(columns: seq<string>, decode: string -> Option<Record>, e: Entry): Snapshot
    requires Readable(e, decode)
  {
    Snapshot(e.schema,
             if "taken_at" in columns then Some(Cell(e, "taken_at").GetOr(NULL_FIELD)) else None,
             decode(e.state).value)
  }

  lemma {:induction false} FieldReadsBack(value: Option<string>)
    ensures '\t' !in Field(value) && '\n' !in Field(value)
    ensures Unescaped(Field(value)) == value.GetOr(NULL_FIELD)
  {
    if value.Some? {
      UnescapeInvertsEscape(value.value);
    }
  }

  /** A written row reads back as its own fields and is never taken for the end of the data. */
  lemma {:induction false} LineReadsBack(columns: seq<string>, e: Entry)
    requires |columns| >= 2
    ensures Split(Line(columns, e), TAB) == Fields(columns, e)
    ensures '\n' !in Line(columns, e) && Line(columns, e) != "" && Line(columns, e) != END_OF_DATA
  {
    var f := Fields(columns, e);
    forall i | 0 <= i < |f|
      ensures '\t' !in f[i] && '\n' !in f[i]
    {
      FieldReadsBack(Cell(e, columns[i]));
    }
    SplitJoin(f, TAB);
    JoinedHolds(f, TAB, '\n');
  }

  /** The columns of a dump: each named once, and those the reader needs among them. */
  predicate Fit(columns: seq<string>) {
    Distinct(columns) && "id" in columns && "schema_version" in columns && "state" in columns
  }

  lemma {:induction false} FitColumns(columns: seq<string>)
    requires Fit(columns)
    ensures |columns| >= 2 && Usable(Places(columns)) && |Places(columns)| == |columns|
    ensures forall i | 0 <= i < |columns| :: Places(columns)[columns[i]] == i
  {
    DistinctPlaces(columns);
    assert Places(columns)["id"] != Places(columns)["state"];
  }

  function Better(columns: seq<string>, decode: string -> Option<Record>, e: Entry, best: Best): Best
    requires Readable(e, decode)
  {
    if e.id <= best.id then best else Best(e.id, Some(Meaning(columns, decode, e)))
  }

  /** A column's field reads back as what the row has for it. */
  lemma {:induction false} ColumnReadsBack(columns: seq<string>, e: Entry, name: string)
    requires Fit(columns) && name in columns
    ensures name in Places(columns) && Places(columns)[name] < |columns|
    ensures Unescaped(Fields(columns, e)[Places(columns)[name]]) == Cell(e, name).GetOr(NULL_FIELD)
  {
    hide Unescaped, Field, Cell;
    FieldReadsBack(Cell(e, name));
  }

  lemma {:induction false} ConsiderRow(columns: seq<string>, decode: string -> Option<Record>, e: Entry, best: Best)
    requires Fit(columns) && Readable(e, decode)
    ensures Usable(Places(columns))
    ensures Consider(Places(columns), decode, Fields(columns, e), best) == Chosen(Better(columns, decode, e, best))
  {
    hide Unescaped, Places, Fields, Atoi;
    FitColumns(columns);
    ColumnReadsBack(columns, e, "id");
    ColumnReadsBack(columns, e, "schema_version");
    ColumnReadsBack(columns, e, "state");
    AtoiRender(e.id);
    AtoiRender(e.schema);
    TakenReadsBack(columns, e);
  }

  lemma {:induction false} TakenReadsBack(columns: seq<string>, e: Entry)
    requires Fit(columns)
    ensures TakenAt(Places(columns), Fields(columns, e))
            == if "taken_at" in columns then Some(Cell(e, "taken_at").GetOr(NULL_FIELD)) else None
  {
    hide Unescaped, Fields, Cell;
    if "taken_at" in columns {
      ColumnReadsBack(columns, e, "taken_at");
    }
  }

  lemma {:induction false} ScanStep(columns: seq<string>, decode: string -> Option<Record>, e: Entry,
                                    more: seq<string>, best: Best)
    requires Fit(columns) && Readable(e, decode)
    ensures Scan(Places(columns), decode, [Line(columns, e)] + more, best)
            == Scan(Places(columns), decode, more, Better(columns, decode, e, best))
  {
    hide Places, Consider, Split, Line, Fields, Better;
    FitColumns(columns);
    LineReadsBack(columns, e);
    ConsiderRow(columns, decode, e, best);
    assert ([Line(columns, e)] + more)[1..] == more;
  }

  function BestOf(columns: seq<string>, decode: string -> Option<Record>, rows: seq<Entry>, best: Best): Best
    requires forall i | 0 <= i < |rows| :: Readable(rows[i], decode)
  {
    if rows == [] then best else BestOf(columns, decode, rows[1..], Better(columns, decode, rows[0], best))
  }

  /** Scanning written lines up to the end-of-data line considers exactly their rows. */
  lemma {:induction false} ScanRows(columns: seq<string>, decode: string -> Option<Record>, rows: seq<Entry>,
                                    rest: seq<string>, best: Best)
    requires Fit(columns) && rest != [] && rest[0] == END_OF_DATA
    requires forall i | 0 <= i < |rows| :: Readable(rows[i], decode)
    ensures Scan(Places(columns), decode, LinesOf(columns, rows) + rest, best)
            == Chosen(BestOf(columns, decode, rows, best))
  {
    if rows == [] {
      assert LinesOf(columns, rows) + rest == rest;
    } else {
      assert LinesOf(columns, rows) + rest == [Line(columns, rows[0])] + (LinesOf(columns, rows[1..]) + rest);
      ScanStep(columns, decode, rows[0], LinesOf(columns, rows[1..]) + rest, best);
      ScanRows(columns, decode, rows[1..], rest, Better(columns, decode, rows[0], best));
    }
  }

  /** The best row is the first one with the highest id. */
  lemma {:induction false} BestIsHighest(columns: seq<string>, decode: string -> Option<Record>, rows: seq<Entry>,
                                         best: Best)
      returns (winner: nat)
    requires forall i | 0 <= i < |rows| :: Readable(rows[i], decode)
    ensures var last := BestOf(columns, decode, rows, best);
            && last.id >= best.id && (forall i | 0 <= i < |rows| :: rows[i].id <= last.id)
            && (last == best || (winner < |rows| && last == Better(columns, decode, rows[winner], FIRST)))
  {
    winner := 0;
    if rows != [] {
      var next := Better(columns, decode, rows[0], best);
      var w := BestIsHighest(columns, decode, rows[1..], next);
      forall i | 1 <= i < |rows|
        ensures rows[i] == rows[1..][i - 1]
      {
      }
      winner := if BestOf(columns, decode, rows, best) == next then 0 else w + 1;
    }
  }

  lemma {:induction false} SkipBlank(places: map<string, nat>, decode: string -> Option<Record>, more: seq<string>,
                                     best: Best)
    requires Usable(places)
    ensures Scan(places, decode, [""] + more, best) == Scan(places, decode, more, best)
  {
    assert ([""] + more)[1..] == more;
  }

  /** The written block, cut at its line ends, is the lines it was written from. */
  lemma {:induction false} BlockLines(columns: seq<string>, rows: seq<Entry>, after: seq<string>)
    requires |columns| >= 2 && forall i | 0 <= i < |after| :: '\n' !in after[i]
    ensures Split(Block(columns, rows, after), '\n') == [""] + LinesOf(columns, rows) + [END_OF_DATA] + after
  {
    forall p | p in LinesOf(columns, rows)
      ensures '\n' !in p
    {
      var i :| 0 <= i < |rows| && p == Line(columns, rows[i]);
      LineReadsBack(columns, rows[i]);
    }
    SplitJoin([""] + LinesOf(columns, rows) + [END_OF_DATA] + after, '\n');
  }

  lemma {:induction false} ScanBlock(columns: seq<string>, decode: string -> Option<Record>, rows: seq<Entry>,
                                     after: seq<string>)
    requires Fit(columns)
    requires forall i | 0 <= i < |rows| :: Readable(rows[i], decode)
    ensures Scan(Places(columns), decode, [""] + LinesOf(columns, rows) + [END_OF_DATA] + after, FIRST)
            == Chosen(BestOf(columns, decode, rows, FIRST))
  {
    hide Scan, BestOf, LinesOf;
    var rest := [END_OF_DATA] + after;
    ScanRows(columns, decode, rows, rest, FIRST);
    SkipBlank(Places(columns), decode, LinesOf(columns, rows) + rest, FIRST);
    assert [""] + LinesOf(columns, rows) + [END_OF_DATA] + after == [""] + (LinesOf(columns, rows) + rest);
  }

  /** The header of a dump is found where it begins when no earlier line opens such a block. */
  lemma {:induction false} HeaderIsFound(before: string, h: Header, rest: string)
    requires h.WellFormed() && AtLineEnd(rest)
    requires var sql := before + (h.Rendered() + rest);
             AtLineStart(sql, |before|) && forall i: nat | i < |before| :: !HeaderAt(sql, i)
    ensures var sql := before + (h.Rendered() + rest);
            First(sql, 0) == Some(|before|) && Parse(sql[|before|..]) == Some((h, rest))
  {
    hide Parse, First;
    var sql := before + (h.Rendered() + rest);
    assert sql[|before|..] == h.Rendered() + rest;
    ParseIsExact(sql[|before|..], h, rest);
    assert HeaderAt(sql, |before|);
    FirstIsFirst(sql, 0);
  }

  lemma {:induction false} BlockBeginsWithLineEnd(columns: seq<string>, rows: seq<Entry>, after: seq<string>)
    requires columns != []
    ensures AtLineEnd(Block(columns, rows, after))
  {
    var lines := [""] + LinesOf(columns, rows) + [END_OF_DATA] + after;
    assert Join(lines, '\n') == lines[0] + ['\n'] + Join(lines[1..], '\n');
    assert lines[0] == "";
  }

  /**
   * Decoding undoes encoding for a whole dump: whatever stands before the table's header, however that is spelt, in
   * whatever order rows and columns come and whatever the fields hold, the reader takes what the row with the highest
   * id stands for. It refuses that record exactly when the row's or the record's schema is newer than 1, or it does not
   * say whose it is.
   */
  lemma {:induction false} ExtractReadsWhatWasWritten(before: string, h: Header, columns: seq<string>,
                                                      decode: string -> Option<Record>, rows: seq<Entry>,
                                                      after: seq<string>)
      returns (winner: nat)
    requires h.WellFormed() && Columns(h.list) == columns && Fit(columns) && rows != []
    requires forall i | 0 <= i < |rows| :: Readable(rows[i], decode)
    requires forall i | 0 <= i < |after| :: '\n' !in after[i]
    requires var sql := before + (h.Rendered() + Block(columns, rows, after));
             AtLineStart(sql, |before|) && forall i: nat | i < |before| :: !HeaderAt(sql, i)
    ensures winner < |rows| && forall i | 0 <= i < |rows| :: rows[i].id <= rows[winner].id
    ensures var written := Meaning(columns, decode, rows[winner]);
            Reading(before + (h.Rendered() + Block(columns, rows, after)), decode)
            == if rows[winner].schema <= 1 && written.state.schema <= 1 && written.state.deployment != ""
               then Found(written)
               else Incompatible
  {
    hide Parse, First, Columns, HeaderAt, Scan, Accept, Places, Block;
    FitColumns(columns);
    BlockBeginsWithLineEnd(columns, rows, after);
    HeaderIsFound(before, h, Block(columns, rows, after));
    BlockLines(columns, rows, after);
    ScanBlock(columns, decode, rows, after);
    winner := BestIsHighest(columns, decode, rows, FIRST);
    assert rows[0].id >= 0;
    AcceptMeaning(columns, decode, rows[winner]);
  }

  lemma {:induction false} AcceptMeaning(columns: seq<string>, decode: string -> Option<Record>, e: Entry)
    requires Readable(e, decode)
    ensures var written := Meaning(columns, decode, e);
            Accept(Chosen(Best(e.id, Some(written))))
            == if e.schema <= 1 && written.state.schema <= 1 && written.state.deployment != "" then Found(written)
               else Incompatible
  {
  }

  /** A table without rows has no record. */
  lemma {:induction false} NothingWasWritten(before: string, h: Header, columns: seq<string>,
                                             decode: string -> Option<Record>, after: seq<string>)
    requires h.WellFormed() && Columns(h.list) == columns && Fit(columns)
    requires forall i | 0 <= i < |after| :: '\n' !in after[i]
    requires var sql := before + (h.Rendered() + Block(columns, [], after));
             AtLineStart(sql, |before|) && forall i: nat | i < |before| :: !HeaderAt(sql, i)
    ensures Reading(before + (h.Rendered() + Block(columns, [], after)), decode) == NoRecord
  {
    hide Parse, First, Columns, HeaderAt, Scan, Places, Block;
    FitColumns(columns);
    BlockBeginsWithLineEnd(columns, [], after);
    HeaderIsFound(before, h, Block(columns, [], after));
    BlockLines(columns, [], after);
    ScanBlock(columns, decode, [], after);
  }

  /** The header as pg_dump spells it, with its schema and its columns, reads back as its columns. */
  lemma {:induction false} DumpHeaderReadsBack(schema: string, columns: seq<string>)
    requires columns != [] && forall c | c in columns :: CleanName(c)
    requires schema != [] && AllOf(InWord, schema)
    ensures var h := Header(" ", Some(schema), " ", Listing(columns), " ");
            h.WellFormed() && Columns(h.list) == columns
  {
    hide Columns, Listing;
    ColumnsReadBack(columns);
  }
}
