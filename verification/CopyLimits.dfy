/**
 * When reading the rows of a dump in internal/recover/recover.go runs past the fields of a row: the fields are counted
 * against the number of different column names, and then looked up by the place of the column in the list.
 */
module CopyLimits {
  import opened Text
  import opened Numbers
  import opened CopyHeader
  import opened CopyText

  // --- one dump ----------------------------------------------------------

  /** Considering this row after a best id looks for a field it does not have. */
  predicate Misses(places: map<string, nat>, f: seq<string>, best: int)
    requires Usable(places)
  {
    if places["id"] >= |f| then true else
    var id := Atoi(Unescaped(f[places["id"]]));
    && id.Some? && id.value > best
    && (places["schema_version"] >= |f|
        || (Atoi(Unescaped(f[places["schema_version"]])).Some? && places["state"] >= |f|))
  }

  /** The row in this line is read, after those before it left a best row, and misses a field. */
  ghost predicate MissesAt(places: map<string, nat>, decode: string -> Option<Record>, lines: seq<string>, i: nat,
                           best: Best)
    requires Usable(places)
  {
    && i < |lines| && (forall k | 0 <= k <= i :: lines[k] != END_OF_DATA) && lines[i] != ""
    && var f, before := Split(lines[i], TAB), Scan(places, decode, lines[..i], best);
       |f| >= |places| && before.Chosen? && Misses(places, f, before.best.id)
  }

  lemma {:induction false} MissesLater(places: map<string, nat>, decode: string -> Option<Record>, lines: seq<string>,
                                       i: nat, best: Best, next: Best)
    requires Usable(places) && lines != [] && lines[0] != END_OF_DATA
    requires var f := Split(lines[0], TAB);
             if lines[0] == "" || |f| < |places| then next == best
             else Consider(places, decode, f, best) == Chosen(next)
    ensures MissesAt(places, decode, lines, i + 1, best) <==> MissesAt(places, decode, lines[1..], i, next)
  {
    hide Misses, Split, Consider;
    if i < |lines| - 1 {
      var front := lines[..i + 1];
      assert front[0] == lines[0] && front[1..] == lines[1..][..i];
      assert forall k | 0 <= k <= i :: lines[1..][k] == lines[k + 1];
      assert (forall k | 0 <= k <= i + 1 :: lines[k] != END_OF_DATA)
             <==> forall k | 0 <= k <= i :: lines[1..][k] != END_OF_DATA;
    }
  }

  /** Reading the rows runs past one exactly when one that is reached misses a field. */
  lemma {:induction false} ScanRunsPast(places: map<string, nat>, decode: string -> Option<Record>, lines: seq<string>,
                                        best: Best)
    requires Usable(places)
    ensures Scan(places, decode, lines, best) == OutOfRange
            <==> exists i: nat :: MissesAt(places, decode, lines, i, best)
  {
    hide Split, Unescaped, Atoi;
    if lines != [] && lines[0] != END_OF_DATA {
      var f := Split(lines[0], TAB);
      assert Scan(places, decode, lines[..0], best) == Chosen(best);
      var row := lines[0] != "" && |f| >= |places|;
      var step := if row then Consider(places, decode, f, best) else Chosen(best);
      if step.Chosen? {
        ScanRunsPast(places, decode, lines[1..], step.best);
        MissesFromNext(places, decode, lines, best, step.best);
      } else {
        StopsAtFirst(places, decode, lines, best);
      }
    }
  }

  lemma {:induction false} MissesFromNext(places: map<string, nat>, decode: string -> Option<Record>,
                                          lines: seq<string>, best: Best, next: Best)
    requires Usable(places) && lines != [] && lines[0] != END_OF_DATA
    requires var f := Split(lines[0], TAB);
             if lines[0] == "" || |f| < |places| then next == best
             else Consider(places, decode, f, best) == Chosen(next)
    ensures (exists i: nat :: MissesAt(places, decode, lines, i, best))
            <==> exists i: nat :: MissesAt(places, decode, lines[1..], i, next)
  {
    assert !MissesAt(places, decode, lines, 0, best);
    hide MissesAt, Consider, Split;
    if i: nat :| MissesAt(places, decode, lines, i, best) {
      MissesLater(places, decode, lines, i - 1, best, next);
    }
    if i: nat :| MissesAt(places, decode, lines[1..], i, next) {
      MissesLater(places, decode, lines, i, best, next);
    }
  }

  lemma {:induction false} StopsAtFirst(places: map<string, nat>, decode: string -> Option<Record>, lines: seq<string>,
                                        best: Best)
    requires Usable(places) && lines != [] && lines[0] != END_OF_DATA && lines[0] != ""
    requires var f := Split(lines[0], TAB); |f| >= |places| && !Consider(places, decode, f, best).Chosen?
    ensures (exists i: nat :: MissesAt(places, decode, lines, i, best))
            <==> Consider(places, decode, Split(lines[0], TAB), best) == OutOfRange
  {
    hide Split, Unescaped, Atoi;
    assert Scan(places, decode, lines[..0], best) == Chosen(best);
    assert Consider(places, decode, Split(lines[0], TAB), best) == OutOfRange
           <==> MissesAt(places, decode, lines, 0, best);
    forall i: nat | i > 0 && i < |lines|
      ensures !Scan(places, decode, lines[..i], best).Chosen?
    {
      assert lines[..i][0] == lines[0];
    }
  }

  /**
   * Reading a dump crashes exactly when it has a header, the list of columns names the three that are needed, and one
   * of the rows, reached without an unreadable record, misses a field.
   */
  lemma {:induction false} CrashesExactly(sql: string, decode: string -> Option<Record>)
    ensures Reading(sql, decode) == Crashed <==>
              var at := First(sql, 0);
              && at.Some? && at.value <= |sql| && Parse(sql[at.value..]).Some?
              && var (h, tail) := Parse(sql[at.value..]).value;
                 var places := Places(Columns(h.list));
                 Usable(places) && exists i: nat :: MissesAt(places, decode, Split(tail, '\n'), i, FIRST)
  {
    hide Parse, First, Places, Columns, Split, MissesAt, Scan, Usable;
    var at := First(sql, 0);
    FirstIsFirst(sql, 0);
    if at.Some? {
      var (h, tail) := Parse(sql[at.value..]).value;
      var places := Places(Columns(h.list));
      if Usable(places) {
        ScanRunsPast(places, decode, Split(tail, '\n'), FIRST);
        assert Reading(sql, decode) == Accept(Scan(places, decode, Split(tail, '\n'), FIRST));
      } else {
        assert Reading(sql, decode) == Incompatible;
      }
    }
  }

  // --- one list of columns -----------------------------------------------

  /** The three columns are placed before the number of different names. */
  predicate InRange(places: map<string, nat>)
    requires Usable(places)
  {
    places["id"] < |places| && places["schema_version"] < |places| && places["state"] < |places|
  }

  lemma {:induction false} ScanStaysInRange(places: map<string, nat>, decode: string -> Option<Record>,
                                            lines: seq<string>, best: Best)
    requires Usable(places) && InRange(places)
    ensures Scan(places, decode, lines, best) != OutOfRange
  {
    hide Unescaped, Atoi, Split;
    if lines != [] && lines[0] != END_OF_DATA {
      var f := Split(lines[0], TAB);
      var next := Consider(places, decode, f, best);
      ScanStaysInRange(places, decode, lines[1..], best);
      if next.Chosen? {
        ScanStaysInRange(places, decode, lines[1..], next.best);
      }
    }
  }

  const DIGIT := "7"

  lemma {:induction false} DigitReads()
    ensures Atoi(Unescaped(DIGIT)) == Some(7)
  {
    assert Render(7) == DIGIT;
    AtoiRender(7);
    DecodeClean(DIGIT);
  }

  function Digits(n: nat): (f: seq<string>)
    ensures |f| == n && forall i | 0 <= i < n :: f[i] == DIGIT
  {
    seq(n, _ => DIGIT)
  }

  /** A row with as many fields as there are names, each of them a number. */
  function Row(n: nat): string
    requires n >= 1
  {
    Join(Digits(n), TAB)
  }

  lemma {:induction false} RowReadsBack(n: nat)
    requires n >= 1
    ensures Split(Row(n), TAB) == Digits(n) && Row(n) != "" && Row(n)[0] == '7' && '\n' !in Row(n)
  {
    SplitJoin(Digits(n), TAB);
    JoinedHolds(Digits(n), TAB, '\n');
    assert Digits(n)[0] == DIGIT;
  }

  lemma {:induction false} RowMisses(places: map<string, nat>, decode: string -> Option<Record>)
    requires Usable(places) && !InRange(places) && |places| >= 1
    ensures Scan(places, decode, ["", Row(|places|)], FIRST) == OutOfRange
  {
    hide Unescaped, Atoi, Split, Row, Digits;
    DigitReads();
    RowReadsBack(|places|);
    var f := Digits(|places|);
    assert Consider(places, decode, f, FIRST) == OutOfRange;
    assert ["", Row(|places|)][1..] == [Row(|places|)];
    SkipBlank(places, decode, [Row(|places|)], FIRST);
    assert [""] + [Row(|places|)] == ["", Row(|places|)];
  }

  /**
   * A list of columns that names the three needed can lead to a crash exactly when it places one of them at or beyond
   * the number of different names; then one row of numbers is enough.
   */
  lemma {:induction false} ListCanCrashExactly(h: Header, decode: string -> Option<Record>)
    requires h.WellFormed() && Usable(Places(Columns(h.list)))
    ensures (exists tail :: AtLineEnd(tail) && Reading(h.Rendered() + tail, decode) == Crashed)
            <==> !InRange(Places(Columns(h.list)))
  {
    hide Parse, First, Places, Columns, HeaderAt, Scan, Split, Row, InRange;
    var places := Places(Columns(h.list));
    if tail :| AtLineEnd(tail) && Reading(h.Rendered() + tail, decode) == Crashed {
      ReadingAfter(h, tail, decode);
      if InRange(places) {
        ScanStaysInRange(places, decode, Split(tail, '\n'), FIRST);
      }
    }
    if !InRange(places) {
      assert |places| >= 1;
      var row := Row(|places|);
      RowReadsBack(|places|);
      var tail := "\n" + row;
      SplitPair(row);
      ReadingAfter(h, tail, decode);
      RowMisses(places, decode);
    }
  }

  lemma {:induction false} SplitPair(row: string)
    requires '\n' !in row
    ensures Split("\n" + row, '\n') == ["", row]
  {
    SplitJoin(["", row], '\n');
    assert ["", row][1..] == [row];
    assert Join(["", row], '\n') == "" + ['\n'] + row;
  }

  /** A dump that begins with the header is read from there. */
  lemma {:induction false} ReadingAfter(h: Header, tail: string, decode: string -> Option<Record>)
    requires h.WellFormed() && AtLineEnd(tail) && Usable(Places(Columns(h.list)))
    ensures Reading(h.Rendered() + tail, decode)
            == Accept(Scan(Places(Columns(h.list)), decode, Split(tail, '\n'), FIRST))
  {
    hide Parse, First, Places, Columns, Scan, Split, Accept;
    assert [] + (h.Rendered() + tail) == h.Rendered() + tail;
    HeaderIsFound([], h, tail);
  }

  // --- repeated names ----------------------------------------------------

  /** With every column named once nothing is placed too late. */
  lemma {:induction false} DistinctIsInRange(columns: seq<string>)
    requires Distinct(columns) && Usable(Places(columns))
    ensures InRange(Places(columns))
  {
    hide Places;
    DistinctPlaces(columns);
  }

  /** There are at most as many different names as names, and fewer when one is repeated. */
  ghost predicate Counted(columns: seq<string>) {
    |Places(columns)| <= |columns| && (!Distinct(columns) ==> |Places(columns)| < |columns|)
  }

  lemma {:induction false} CountedMore(front: seq<string>, last: string)
    requires Counted(front)
    ensures Counted(front + [last])
  {
    PlacesMore(front, last);
    NewIsDistinct(front, last);
    hide Places, Distinct;
    OneMore(Places(front), last, |front|);
  }

  lemma {:induction false} PlacesMore(front: seq<string>, last: string)
    ensures Places(front + [last]) == Places(front)[last := |front|]
  {
    assert (front + [last])[..|front|] == front;
  }

  lemma {:induction false} AtMostAsMany(columns: seq<string>)
    ensures Counted(columns)
  {
    hide *;
    if columns == [] {
      NoneCounted();
    } else {
      var last := |columns| - 1;
      AtMostAsMany(columns[..last]);
      CountedMore(columns[..last], columns[last]);
      assert columns[..last] + [columns[last]] == columns;
    }
  }

  lemma {:induction false} NoneCounted()
    ensures Counted([])
  {
  }

  lemma {:induction false} NewIsDistinct(front: seq<string>, last: string)
    ensures last !in Places(front) && Distinct(front) ==> Distinct(front + [last])
  {
  }

  /** A list that repeats any name and ends with the state column places that one too late. */
  lemma {:induction false} RepeatBeforeState(columns: seq<string>)
    requires columns != [] && columns[|columns| - 1] == "state" && !Distinct(columns) && Usable(Places(columns))
    ensures !InRange(Places(columns))
  {
    AtMostAsMany(columns);
    LastIsNew(columns);
  }

  /** So a dump with such a list can crash the reader. */
  lemma {:induction false} RepeatCanCrash(columns: seq<string>, decode: string -> Option<Record>)
    requires columns != [] && columns[|columns| - 1] == "state" && !Distinct(columns) && Usable(Places(columns))
    requires forall c | c in columns :: CleanName(c)
    ensures var h := Header(" ", None, " ", Listing(columns), " ");
            exists tail :: AtLineEnd(tail) && Reading(h.Rendered() + tail, decode) == Crashed
  {
    hide Places, Columns, Listing, Reading, InRange, Usable, CleanName, Distinct;
    ColumnsReadBack(columns);
    RepeatBeforeState(columns);
    ListCanCrashExactly(Header(" ", None, " ", Listing(columns), " "), decode);
  }

  const REPEATED := ["id", "id", "schema_version", "state"]

  lemma {:induction false} RepeatedIsClean()
    ensures forall n | n in REPEATED :: CleanName(n)
  {
  }

  lemma {:induction false} RepeatedIsUsable()
    ensures Usable(Places(REPEATED)) && !Distinct(REPEATED) && REPEATED != [] && REPEATED[|REPEATED| - 1] == "state"
  {
    hide Places;
    assert REPEATED[0] == REPEATED[1] == "id" && REPEATED[2] == "schema_version" && REPEATED[3] == "state";
  }

  /** One such list. */
  lemma {:induction false} CrashExample(decode: string -> Option<Record>)
    ensures var h := Header(" ", None, " ", Listing(REPEATED), " ");
            exists tail :: AtLineEnd(tail) && Reading(h.Rendered() + tail, decode) == Crashed
  {
    RepeatedIsClean();
    RepeatedIsUsable();
    hide *;
    RepeatCanCrash(REPEATED, decode);
  }
}
