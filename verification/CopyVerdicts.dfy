/**
 * What ExtractSnapshot in internal/recover/recover.go concludes from the rows of any dump, in terms of the rows alone:
 * which of them count, which one is taken, and when it is refused.
 */
module CopyVerdicts {
  import opened Text
  import opened Numbers
  import opened CopyHeader
  import opened CopyText
  import opened CopyLimits

  /** The fields of one row that the reader looks at. */
  datatype Data = Data(id: int, schema: int, taken: Option<string>, state: string)

  function FieldOf(places: map<string, nat>, line: string, name: string): Option<string> {
    var f := Split(line, TAB);
    if name in places && places[name] < |f| then Some(Unescaped(f[places[name]])) else None
  }

  /** A line counts when it has enough fields and its id and schema version are numbers. */
  function DataOf(places: map<string, nat>, line: string): (d: Option<Data>)
    ensures d.Some? <==>
              && line != "" && |Split(line, TAB)| >= |places|
              && (exists n :: FieldOf(places, line, "id").Some? && Atoi(FieldOf(places, line, "id").value) == Some(n))
              && FieldOf(places, line, "schema_version").Some?
              && Atoi(FieldOf(places, line, "schema_version").value).Some?
              && FieldOf(places, line, "state").Some?
  {
    var id, schema := FieldOf(places, line, "id"), FieldOf(places, line, "schema_version");
    var state := FieldOf(places, line, "state");
    if line == "" || |Split(line, TAB)| < |places| || id.None? || schema.None? || state.None? then None
    else if Atoi(id.value).None? || Atoi(schema.value).None? then None
    else Some(Data(Atoi(id.value).value, Atoi(schema.value).value, FieldOf(places, line, "taken_at"), state.value))
  }

  /** This line is a row of the block: the end of the data has not come before it. */
  predicate InBlock(lines: seq<string>, i: nat) {
    i < |lines| && forall k | 0 <= k <= i :: lines[k] != END_OF_DATA
  }

  ghost predicate Counts(places: map<string, nat>, lines: seq<string>, i: nat) {
    InBlock(lines, i) && DataOf(places, lines[i]).Some?
  }

  ghost function IdOf(places: map<string, nat>, lines: seq<string>, i: nat): int
    requires Counts(places, lines, i)
  {
    DataOf(places, lines[i]).value.id
  }

  /** A row with a higher id than `least` and than every row before it. */
  ghost predicate Tops(places: map<string, nat>, lines: seq<string>, least: int, i: nat) {
    && Counts(places, lines, i) && IdOf(places, lines, i) > least
    && forall j: nat | j < i && Counts(places, lines, j) :: IdOf(places, lines, j) < IdOf(places, lines, i)
  }

  ghost predicate Undecodable(places: map<string, nat>, decode: string -> Option<Record>, lines: seq<string>,
                              least: int, i: nat) {
    Tops(places, lines, least, i) && decode(DataOf(places, lines[i]).value.state).None?
  }

  /** No later row tops this one. */
  ghost predicate TopsLast(places: map<string, nat>, lines: seq<string>, least: int, i: nat) {
    Tops(places, lines, least, i) && forall j: nat | j > i :: !Tops(places, lines, least, j)
  }

  /** What a row holds, with its record decoded. */
  ghost function Holds(places: map<string, nat>, decode: string -> Option<Record>, line: string): Option<Snapshot> {
    var d := DataOf(places, line);
    if d.None? || decode(d.value.state).None? then None
    else Some(Snapshot(d.value.schema, d.value.taken, decode(d.value.state).value))
  }

  // --- one step of the scan ----------------------------------------------

  lemma {:induction false} CountsLater(places: map<string, nat>, lines: seq<string>, i: nat)
    requires lines != [] && lines[0] != END_OF_DATA
    ensures Counts(places, lines, i + 1) <==> Counts(places, lines[1..], i)
    ensures Counts(places, lines[1..], i) ==> IdOf(places, lines, i + 1) == IdOf(places, lines[1..], i)
  {
    hide DataOf;
    if i < |lines| - 1 {
      assert lines[1..][i] == lines[i + 1];
      assert forall k | 0 <= k <= i :: lines[1..][k] == lines[k + 1];
      assert (forall k | 0 <= k <= i + 1 :: lines[k] != END_OF_DATA)
             <==> forall k | 0 <= k <= i :: lines[1..][k] != END_OF_DATA;
    }
  }

  /** The rows that top the rest from one row on. */
  lemma {:induction false} TopsLater(places: map<string, nat>, lines: seq<string>, least: int, next: int, i: nat)
    requires lines != [] && lines[0] != END_OF_DATA
    requires var counts := Counts(places, lines, 0) && IdOf(places, lines, 0) > least;
             next == if counts then IdOf(places, lines, 0) else least
    ensures Tops(places, lines, least, i + 1) <==> Tops(places, lines[1..], next, i)
  {
    hide DataOf, InBlock, IdOf, Counts;
    CountsLater(places, lines, i);
    forall j: nat
      ensures Counts(places, lines, j + 1) <==> Counts(places, lines[1..], j)
      ensures Counts(places, lines[1..], j) ==> IdOf(places, lines, j + 1) == IdOf(places, lines[1..], j)
    {
      CountsLater(places, lines, j);
    }
    if Tops(places, lines[1..], next, i) {
      forall j: nat | j < i + 1 && Counts(places, lines, j)
        ensures IdOf(places, lines, j) < IdOf(places, lines, i + 1)
      {
        assert j > 0 ==> Counts(places, lines[1..], j - 1);
      }
    }
    if Tops(places, lines, least, i + 1) {
      forall j: nat | j < i && Counts(places, lines[1..], j)
        ensures IdOf(places, lines[1..], j) < IdOf(places, lines[1..], i)
      {
        assert Counts(places, lines, j + 1);
      }
      assert Counts(places, lines, 0) ==> IdOf(places, lines, 0) < IdOf(places, lines, i + 1);
    }
  }

  /** What one line does: nothing unless it counts and has a higher id. */
  lemma {:induction false} OneLine(places: map<string, nat>, decode: string -> Option<Record>, lines: seq<string>,
                                   best: Best)
    requires Usable(places) && InRange(places) && lines != [] && lines[0] != END_OF_DATA
    ensures var d := DataOf(places, lines[0]);
            Scan(places, decode, lines, best)
            == if d.None? || d.value.id <= best.id then Scan(places, decode, lines[1..], best)
               else if Holds(places, decode, lines[0]).None? then Unreadable
               else Scan(places, decode, lines[1..], Best(d.value.id, Holds(places, decode, lines[0])))
    ensures Counts(places, lines, 0) <==> DataOf(places, lines[0]).Some?
    ensures Counts(places, lines, 0) ==> IdOf(places, lines, 0) == DataOf(places, lines[0]).value.id
  {
    hide Unescaped, Atoi, Split;
  }

  /** The last row that tops is the one taken. */
  ghost predicate Takes(places: map<string, nat>, decode: string -> Option<Record>, lines: seq<string>, least: int,
                        i: nat, best: Best) {
    && TopsLast(places, lines, least, i) && Holds(places, decode, lines[i]).Some?
    && best == Best(IdOf(places, lines, i), Holds(places, decode, lines[i]))
  }

  // --- the whole scan ----------------------------------------------------

  /** The reading fails exactly at a topping row whose record does not decode, and otherwise takes the last of them. */
  lemma {:induction false} ScanExactly(places: map<string, nat>, decode: string -> Option<Record>, lines: seq<string>,
                                       best: Best)
      returns (taken: Option<nat>)
    requires Usable(places) && InRange(places)
    ensures var r := Scan(places, decode, lines, best);
            && !r.OutOfRange?
            && (r == Unreadable <==> exists i: nat :: Undecodable(places, decode, lines, best.id, i))
            && (r.Chosen? && taken.None? ==> r.best == best && forall i: nat :: !Tops(places, lines, best.id, i))
            && (r.Chosen? && taken.Some? ==> Takes(places, decode, lines, best.id, taken.value, r.best))
  {
    taken := None;
    hide DataOf, Holds, Scan;
    if lines == [] || lines[0] == END_OF_DATA {
      NothingScanned(places, decode, lines, best);
      return;
    }
    OneLine(places, decode, lines, best);
    HoldsOrNot(places, decode, lines[0]);
    var d := DataOf(places, lines[0]);
    var counts := d.Some? && d.value.id > best.id;
    TailShifts(places, lines, best.id, if counts then d.value.id else best.id);
    assert Tops(places, lines, best.id, 0) <==> counts;
    if counts && Holds(places, decode, lines[0]).None? {
      assert Undecodable(places, decode, lines, best.id, 0);
    } else {
      var next := if counts then Best(d.value.id, Holds(places, decode, lines[0])) else best;
      var later := ScanExactly(places, decode, lines[1..], next);
      TailUndecodable(places, decode, lines, best.id, next.id);
      if Scan(places, decode, lines[1..], next).Chosen? {
        if later.Some? {
          TailTopsLast(places, lines, best.id, next.id, later.value);
          taken := Some(later.value + 1);
        } else {
          NoTailTops(places, lines, best.id, next.id);
          taken := if counts then Some(0) else None;
        }
      }
    }
  }

  lemma {:induction false} NothingScanned(places: map<string, nat>, decode: string -> Option<Record>,
                                          lines: seq<string>, best: Best)
    requires Usable(places) && (lines == [] || lines[0] == END_OF_DATA)
    ensures Scan(places, decode, lines, best) == Chosen(best) && forall i: nat :: !Tops(places, lines, best.id, i)
  {
  }

  lemma {:induction false} HoldsOrNot(places: map<string, nat>, decode: string -> Option<Record>, line: string)
    ensures var d := DataOf(places, line);
            d.Some? ==> (Holds(places, decode, line).None? <==> decode(d.value.state).None?)
  {
    hide DataOf;
  }

  lemma {:induction false} TopsInside(places: map<string, nat>, lines: seq<string>, least: int, i: nat)
    requires Tops(places, lines, least, i)
    ensures i < |lines|
  {
  }

  /** What tops the rest of the lines is what tops them all, one place later. */
  ghost predicate Shifted(places: map<string, nat>, lines: seq<string>, least: int, next: int)
    requires lines != []
  {
    forall i: nat :: Tops(places, lines, least, i + 1) <==> Tops(places, lines[1..], next, i)
  }

  lemma {:induction false} TailShifts(places: map<string, nat>, lines: seq<string>, least: int, next: int)
    requires lines != [] && lines[0] != END_OF_DATA
    requires var counts := Counts(places, lines, 0) && IdOf(places, lines, 0) > least;
             next == if counts then IdOf(places, lines, 0) else least
    ensures Shifted(places, lines, least, next)
  {
    hide Tops, Counts, IdOf;
    forall i: nat
      ensures Tops(places, lines, least, i + 1) <==> Tops(places, lines[1..], next, i)
    {
      TopsLater(places, lines, least, next, i);
    }
  }

  lemma {:induction false} TailUndecodable(places: map<string, nat>, decode: string -> Option<Record>,
                                           lines: seq<string>, least: int, next: int)
    requires lines != [] && Shifted(places, lines, least, next) && !Undecodable(places, decode, lines, least, 0)
    ensures (exists i: nat :: Undecodable(places, decode, lines, least, i))
            <==> exists i: nat :: Undecodable(places, decode, lines[1..], next, i)
  {
    hide DataOf, Tops;
    if i: nat :| Undecodable(places, decode, lines, least, i) {
      TopsInside(places, lines, least, i);
      assert Tops(places, lines, least, (i - 1) + 1);
      assert Undecodable(places, decode, lines[1..], next, i - 1);
    }
    if i: nat :| Undecodable(places, decode, lines[1..], next, i) {
      TopsInside(places, lines[1..], next, i);
      assert Undecodable(places, decode, lines, least, i + 1);
    }
  }

  lemma {:induction false} TailTopsLast(places: map<string, nat>, lines: seq<string>, least: int, next: int, i: nat)
    requires lines != [] && lines[0] != END_OF_DATA && Shifted(places, lines, least, next)
    requires TopsLast(places, lines[1..], next, i)
    ensures TopsLast(places, lines, least, i + 1) && i + 1 < |lines| && lines[i + 1] == lines[1..][i]
    ensures IdOf(places, lines, i + 1) == IdOf(places, lines[1..], i)
  {
    TopsInside(places, lines[1..], next, i);
    CountsLater(places, lines, i);
    hide Counts, IdOf, DataOf, InBlock, Tops;
    forall j: nat | j > i + 1
      ensures !Tops(places, lines, least, j)
    {
      assert Tops(places, lines, least, (j - 1) + 1) <==> Tops(places, lines[1..], next, j - 1);
    }
  }

  lemma {:induction false} NoTailTops(places: map<string, nat>, lines: seq<string>, least: int, next: int)
    requires lines != [] && Shifted(places, lines, least, next)
    requires forall i: nat :: !Tops(places, lines[1..], next, i)
    ensures forall i: nat | i > 0 :: !Tops(places, lines, least, i)
  {
    hide Tops;
    forall i: nat | i > 0
      ensures !Tops(places, lines, least, i)
    {
      assert Tops(places, lines, least, (i - 1) + 1) <==> Tops(places, lines[1..], next, i - 1);
    }
  }

  // --- the verdict -------------------------------------------------------

  /** The record inside a row may be used: neither schema is newer than this version's, and it says whose it is. */
  predicate Compatible(s: Snapshot) {
    s.schema <= 1 && s.state.schema <= 1 && s.state.deployment != ""
  }

  /** The row with the highest id from 0 on, and the first with it. */
  ghost predicate Highest(places: map<string, nat>, lines: seq<string>, i: nat) {
    && Counts(places, lines, i) && IdOf(places, lines, i) >= 0
    && (forall j: nat | Counts(places, lines, j) :: IdOf(places, lines, j) <= IdOf(places, lines, i))
    && forall j: nat | j < i && Counts(places, lines, j) :: IdOf(places, lines, j) < IdOf(places, lines, i)
  }

  /** Taking the highest so far at every row ends at the highest. */
  lemma {:induction false} LastIsHighest(places: map<string, nat>, lines: seq<string>, i: nat)
    requires TopsLast(places, lines, -1, i)
    ensures Highest(places, lines, i)
  {
    hide DataOf, InBlock, IdOf;
    forall j: nat | Counts(places, lines, j)
      ensures IdOf(places, lines, j) <= IdOf(places, lines, i)
    {
      if IdOf(places, lines, j) > IdOf(places, lines, i) {
        var k := FirstAbove(places, lines, i, j);
      }
    }
  }

  lemma {:induction false} FirstAbove(places: map<string, nat>, lines: seq<string>, i: nat, j: nat) returns (k: nat)
    requires Tops(places, lines, -1, i) && Counts(places, lines, j)
    requires IdOf(places, lines, j) > IdOf(places, lines, i)
    ensures k > i && Tops(places, lines, -1, k)
    decreases j
  {
    hide DataOf, InBlock, IdOf;
    k := j;
    if !Tops(places, lines, -1, j) {
      var m: nat :| m < j && Counts(places, lines, m) && IdOf(places, lines, m) >= IdOf(places, lines, j);
      k := FirstAbove(places, lines, i, m);
    }
  }

  /**
   * What the rows of a block come to. It has no record when no row with an id from 0 on counts; it is incompatible when
   * a row that topped all before it has a record that does not decode, or the highest row's record may not be used;
   * and otherwise the highest row's record is taken.
   */
  ghost predicate Verdict(places: map<string, nat>, decode: string -> Option<Record>, lines: seq<string>,
                          r: Extracted) {
    && (r == NoRecord <==> forall i: nat | Counts(places, lines, i) :: IdOf(places, lines, i) < 0)
    && (r.Found? <==>
          && !(exists i: nat :: Undecodable(places, decode, lines, -1, i))
          && exists i: nat :: Highest(places, lines, i) && MayBeUsed(places, decode, lines[i]))
    && (r.Found? ==>
          exists i: nat :: Highest(places, lines, i) && Holds(places, decode, lines[i]) == Some(r.snapshot))
    && !r.Crashed?
  }

  ghost predicate MayBeUsed(places: map<string, nat>, decode: string -> Option<Record>, line: string) {
    var s := Holds(places, decode, line);
    s.Some? && Compatible(s.value)
  }

  lemma {:induction false} VerdictExactly(places: map<string, nat>, decode: string -> Option<Record>,
                                          lines: seq<string>)
    requires Usable(places) && InRange(places)
    ensures Verdict(places, decode, lines, Accept(Scan(places, decode, lines, FIRST)))
  {
    hide DataOf, IdOf, Holds, Scan, Verdict, Undecodable, Tops, Takes;
    var taken := ScanExactly(places, decode, lines, FIRST);
    var r := Scan(places, decode, lines, FIRST);
    if r == Unreadable {
      var i: nat :| Undecodable(places, decode, lines, -1, i);
      NotDecoded(places, decode, lines, i);
    } else if taken.Some? {
      HighestDecides(places, decode, lines, taken.value, r.best);
    } else {
      NothingCounts(places, decode, lines);
    }
  }

  lemma {:induction false} NothingCounts(places: map<string, nat>, decode: string -> Option<Record>,
                                         lines: seq<string>)
    requires forall i: nat :: !Tops(places, lines, -1, i)
    ensures Verdict(places, decode, lines, NoRecord)
  {
    hide DataOf, InBlock, IdOf, Holds;
    TopsOrNone(places, lines);
    hide Tops;
  }

  lemma {:induction false} NotDecoded(places: map<string, nat>, decode: string -> Option<Record>, lines: seq<string>,
                                      i: nat)
    requires Undecodable(places, decode, lines, -1, i)
    ensures Verdict(places, decode, lines, Incompatible)
  {
    hide DataOf, InBlock, IdOf, Holds, Highest;
  }

  lemma {:induction false} HighestDecides(places: map<string, nat>, decode: string -> Option<Record>,
                                          lines: seq<string>, i: nat, best: Best)
    requires Takes(places, decode, lines, -1, i, best)
    requires !exists i: nat :: Undecodable(places, decode, lines, -1, i)
    ensures Verdict(places, decode, lines, Accept(Chosen(best)))
  {
    AcceptIsCompatible(best);
    LastIsHighest(places, lines, i);
    HighestIsOne(places, lines, i);
    hide DataOf, InBlock, IdOf, Holds, Highest, Undecodable, Tops;
    HighestCounts(places, lines, i);
  }

  /** The checks as they are made come to the same. */
  lemma {:induction false} AcceptIsCompatible(best: Best)
    requires best.snapshot.Some?
    ensures Accept(Chosen(best)) == if Compatible(best.snapshot.value) then Found(best.snapshot.value) else Incompatible
  {
  }

  lemma {:induction false} HighestCounts(places: map<string, nat>, lines: seq<string>, i: nat)
    requires Highest(places, lines, i)
    ensures Counts(places, lines, i) && IdOf(places, lines, i) >= 0
  {
  }

  lemma {:induction false} HighestIsOne(places: map<string, nat>, lines: seq<string>, i: nat)
    requires Highest(places, lines, i)
    ensures forall j: nat | Highest(places, lines, j) :: j == i
  {
    hide DataOf, InBlock, IdOf;
  }

  /** Some row tops all before it exactly when some row with an id from 0 on counts. */
  lemma {:induction false} TopsOrNone(places: map<string, nat>, lines: seq<string>)
    ensures (exists i: nat :: Tops(places, lines, -1, i))
            <==> exists i: nat :: Counts(places, lines, i) && IdOf(places, lines, i) >= 0
  {
    hide DataOf, InBlock, IdOf;
    if i: nat :| Counts(places, lines, i) && IdOf(places, lines, i) >= 0 {
      var k := FirstCounted(places, lines, i);
    }
  }

  lemma {:induction false} FirstCounted(places: map<string, nat>, lines: seq<string>, j: nat) returns (k: nat)
    requires Counts(places, lines, j) && IdOf(places, lines, j) >= 0
    ensures Tops(places, lines, -1, k)
    decreases j
  {
    hide DataOf, InBlock, IdOf;
    k := j;
    if !Tops(places, lines, -1, j) {
      var m: nat :| m < j && Counts(places, lines, m) && IdOf(places, lines, m) >= IdOf(places, lines, j);
      k := FirstCounted(places, lines, m);
    }
  }

  /**
   * What any dump comes to: no record without a header; incompatible when the first header's list lacks one of the
   * three columns; and what its rows come to when the list places those within the fields that are counted.
   */
  lemma {:induction false} ReadingExactly(sql: string, decode: string -> Option<Record>)
    ensures (forall i: nat | i <= |sql| :: !HeaderAt(sql, i)) ==> Reading(sql, decode) == NoRecord
    ensures var at := First(sql, 0);
            at.Some? ==>
              && at.value <= |sql| && Parse(sql[at.value..]).Some?
              && var (h, tail) := Parse(sql[at.value..]).value;
                 var places := Places(Columns(h.list));
                 && (!("id" in places && "schema_version" in places && "state" in places) ==>
                       Reading(sql, decode) == Incompatible)
                 && (Usable(places) && InRange(places) ==>
                       Verdict(places, decode, Split(tail, '\n'), Reading(sql, decode)))
  {
    hide Parse, First, Places, Columns, Split, Scan, Verdict, InRange, Accept;
    FirstIsFirst(sql, 0);
    var at := First(sql, 0);
    if at.Some? {
      assert HeaderAt(sql, at.value);
      var (h, tail) := Parse(sql[at.value..]).value;
      var places := Places(Columns(h.list));
      if Usable(places) && InRange(places) {
        VerdictExactly(places, decode, Split(tail, '\n'));
        assert Reading(sql, decode) == Accept(Scan(places, decode, Split(tail, '\n'), FIRST));
      }
    }
  }
}
