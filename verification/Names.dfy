/** Published backup names: internal/schedule/run.go reads what internal/backup/backup.go writes. */
module Names {
  import opened Text
  import opened Numbers
  import opened Ordering

  const HEAD := "guacdeploy-db-"
  const COLLISIONS := 100   // the highest "-N" a publish tries

  /** A UTC clock reading at the millisecond resolution a name carries. */
  datatype Clock = Clock(year: nat, month: nat, day: nat, hour: nat, minute: nat, second: nat, milli: nat)

  function DaysIn(year: nat, month: nat): nat {
    if month == 2 then if year % 4 == 0 && (year % 100 != 0 || year % 400 == 0) then 29 else 28
    else if month in [4, 6, 9, 11] then 30
    else 31
  }

  /** The readings time.Parse accepts. */
  predicate ValidClock(c: Clock) {
    && c.year < 10000 && 1 <= c.month <= 12 && 1 <= c.day <= DaysIn(c.year, c.month)
    && c.hour < 24 && c.minute < 60 && c.second < 60 && c.milli < 1000
  }

  function Days(c: Clock): int { (c.year * 13 + c.month) * 32 + c.day }

  function Hours(c: Clock): int { Days(c) * 24 + c.hour }

  function Minutes(c: Clock): int { Hours(c) * 60 + c.minute }

  function Seconds(c: Clock): int { Minutes(c) * 60 + c.second }

  /** A number that orders valid readings as time does. */
  function Instant(c: Clock): int { Seconds(c) * 1000 + c.milli }

  /** The eight digits of the date and the six of the time. */
  function Date(c: Clock): (s: string)
    requires ValidClock(c)
    ensures |s| == 8 && AllDigits(s)
  {
    Tens();
    Pad(c.year, 4) + Pad(c.month, 2) + Pad(c.day, 2)
  }

  function Time(c: Clock): (s: string)
    requires ValidClock(c)
    ensures |s| == 6 && AllDigits(s)
  {
    Tens();
    Pad(c.hour, 2) + Pad(c.minute, 2) + Pad(c.second, 2)
  }

  lemma {:induction false} Tens()
    ensures Power10(2) == 100 && Power10(3) == 1000 && Power10(4) == 10000
  {
    assert Power10(0) == 1 && Power10(1) == 10;
  }

  function Milli(c: Clock): (s: string)
    requires ValidClock(c)
    ensures |s| == 3 && AllDigits(s) && Value(s) == c.milli
  {
    Tens();
    Pad(c.milli, 3)
  }

  function Base(c: Clock): string
    requires ValidClock(c)
  {
    HEAD + (Date(c) + ("T" + (Time(c) + ("." + (Milli(c) + "Z")))))
  }

  function Suffix(number: nat): string {
    if number == 0 then "" else "-" + Render(number)
  }

  function PublishedName(base: string, number: nat, ext: string): string {
    base + (Suffix(number) + ext)
  }

  predicate Extension(ext: string) {
    ext in [".sql", ".sql.age"]
  }

  function ReadClock(date: string, time: string, milli: nat): Option<Clock>
    requires |date| == 8 && |time| == 6 && AllDigits(date) && AllDigits(time)
  {
    var c := Clock(Value(date[..4]), Value(date[4..6]), Value(date[6..]),
                   Value(time[..2]), Value(time[2..4]), Value(time[4..]), milli);
    if ValidClock(c) then Some(c) else None
  }

  /** The optional "-N" and the extension: the number, or None when neither spelling is there. */
  function ReadSuffix(s: string): Option<nat> {
    if Extension(s) then Some(0)
    else if s == [] || s[0] != '-' then None
    else
      var n := Span(IsDigit, s[1..]);
      if n == 0 || !Extension(s[1..][n..]) || Value(s[1..][..n]) > MAX_INT then None
      else Some(Value(s[1..][..n]))
  }

  /** The milliseconds are optional: an earlier version wrote names without them. */
  function ReadMilli(s: string): Option<(nat, string)> {
    if s == [] || s[0] != '.' then Some((0, s))
    else if |s| < 4 || !AllDigits(s[1..4]) then None
    else Some((Value(s[1..4]), s[4..]))
  }

  function ParsePublished(name: string): (x: Option<Stamp>)
    ensures x.Some? ==> x.value.name == name
  {
    if !StartsWith(name, HEAD) then None else
    var t := name[|HEAD|..];
    if |t| < 15 || !AllDigits(t[..8]) || t[8] != 'T' || !AllDigits(t[9..15]) then None else
    var m := ReadMilli(t[15..]);
    if m.None? || m.value.1 == [] || m.value.1[0] != 'Z' then None else
    var number := ReadSuffix(m.value.1[1..]);
    var clock := ReadClock(t[..8], t[9..15], m.value.0);
    if number.None? || clock.None? then None
    else Some(Stamp(Instant(clock.value), number.value, name))
  }

  lemma {:induction false} DigitsHaveNoSlash(s: string)
    requires AllDigits(s)
    ensures '/' !in s
  {
  }

  lemma {:induction false} Pieces(head: string, name: string)
    requires StartsWith(name, head) && |name| >= |head| + 15
    ensures var t := name[|head|..]; name == head + (t[..8] + ([t[8]] + (t[9..15] + t[15..])))
  {
    var t := name[|head|..];
    assert t == t[..8] + ([t[8]] + (t[9..15] + t[15..]));
  }

  /** A backup's name is a single path segment. */
  lemma {:induction false} NoSlash(name: string)
    requires ParsePublished(name).Some?
    ensures '/' !in name
  {
    TailHasNoSlash(name);
    hide *;
    ParsedParts(name);
    var t := name[|HEAD|..];
    DigitsHaveNoSlash(t[..8]);
    DigitsHaveNoSlash(t[9..15]);
    Pieces(HEAD, name);
  }

  /** The fixed part of a name: the head, eight digits, a T and six digits. */
  lemma {:induction false} ParsedParts(name: string)
    requires ParsePublished(name).Some?
    ensures StartsWith(name, HEAD) && |name| >= |HEAD| + 15 && '/' !in HEAD
    ensures var t := name[|HEAD|..]; AllDigits(t[..8]) && t[8] == 'T' && AllDigits(t[9..15])
  {
    hide ReadClock, ReadSuffix, ReadMilli;
  }

  lemma {:induction false} TailHasNoSlash(name: string)
    requires ParsePublished(name).Some?
    ensures |name| >= |HEAD| + 15 && '/' !in name[|HEAD|..][15..]
  {
    hide ReadClock, AllDigits;
    var t := name[|HEAD|..];
    var m := ReadMilli(t[15..]).value.1;
    SuffixHasNoSlash(m[1..]);
    assert m == [m[0]] + m[1..];
    MilliHasNoSlash(t[15..]);
  }

  lemma {:induction false} MilliHasNoSlash(s: string)
    requires ReadMilli(s).Some? && '/' !in ReadMilli(s).value.1
    ensures '/' !in s
  {
    hide Value;
    if s != [] && s[0] == '.' {
      assert s == ['.'] + (s[1..4] + s[4..]);
    }
  }

  lemma {:induction false} SuffixHasNoSlash(s: string)
    requires ReadSuffix(s).Some?
    ensures '/' !in s
  {
    hide Value;
    if !Extension(s) {
      var n := Span(IsDigit, s[1..]);
      assert s == ['-'] + (s[1..][..n] + s[1..][n..]);
    }
  }

  lemma {:induction false} ClockReadsBack(c: Clock)
    requires ValidClock(c)
    ensures ReadClock(Date(c), Time(c), c.milli) == Some(c)
  {
    Tens();
    var d, t := Date(c), Time(c);
    assert d[..4] == Pad(c.year, 4) && d[4..6] == Pad(c.month, 2) && d[6..] == Pad(c.day, 2);
    assert t[..2] == Pad(c.hour, 2) && t[2..4] == Pad(c.minute, 2) && t[4..] == Pad(c.second, 2);
  }

  lemma {:induction false} DashedReadsBack(d: string, ext: string)
    requires d != [] && AllDigits(d) && Value(d) <= MAX_INT && Extension(ext)
    ensures ReadSuffix("-" + d + ext) == Some(Value(d))
  {
    hide Value;
    var s := "-" + d + ext;
    assert s[0] == '-' && s[1..] == d + ext && ext[0] == '.';
    SpanOf(IsDigit, d, ext);
    assert (d + ext)[..|d|] == d && (d + ext)[|d|..] == ext;
  }

  lemma {:induction false} SuffixReadsBack(number: nat, ext: string)
    requires Extension(ext) && number <= MAX_INT
    ensures ReadSuffix(Suffix(number) + ext) == Some(number)
  {
    hide ReadSuffix, Extension;
    if number == 0 {
      assert Suffix(0) + ext == ext;
      NoSuffix(ext);
    } else {
      DashedReadsBack(Render(number), ext);
    }
  }

  lemma {:induction false} NoSuffix(ext: string)
    requires Extension(ext)
    ensures ReadSuffix(ext) == Some(0)
  {
  }

  lemma {:induction false} MilliReadsBack(c: Clock, rest: string)
    requires ValidClock(c)
    ensures ReadMilli("." + (Milli(c) + rest)) == Some((c.milli, rest))
  {
    var s := "." + (Milli(c) + rest);
    assert s[1..4] == Milli(c) && s[4..] == rest;
  }

  lemma {:induction false} Parts(head: string, date: string, time: string, rest: string)
    requires |date| == 8 && |time| == 6
    ensures var name := head + (date + ("T" + (time + rest)));
            && name[|head|..] == date + ("T" + (time + rest)) && name[..|head|] == head
            && var t := name[|head|..];
               t[..8] == date && t[8] == 'T' && t[9..15] == time && t[15..] == rest
  {
    var t := date + ("T" + (time + rest));
    assert (head + t)[|head|..] == t;
    assert t[9..] == time + rest;
  }

  lemma {:induction false} NameParts(c: Clock, rest: string)
    requires ValidClock(c)
    ensures var name := Base(c) + rest;
            && StartsWith(name, HEAD)
            && var t := name[|HEAD|..];
               |t| >= 15 && t[..8] == Date(c) && t[8] == 'T' && t[9..15] == Time(c)
               && t[15..] == "." + (Milli(c) + ("Z" + rest))
  {
    hide Date, Time, Milli;
    var end := "." + (Milli(c) + ("Z" + rest));
    assert Base(c) + rest == HEAD + (Date(c) + ("T" + (Time(c) + end)));
    Parts(HEAD, Date(c), Time(c), end);
  }

  /** A published name reads back as its own time and number, for every time, number and extension. */
  lemma {:induction false} NameReadsBack(c: Clock, number: nat, ext: string)
    requires ValidClock(c) && number <= MAX_INT && Extension(ext)
    ensures var name := PublishedName(Base(c), number, ext);
            ParsePublished(name) == Some(Stamp(Instant(c), number, name))
  {
    var rest := Suffix(number) + ext;
    NameParts(c, rest);
    MilliReadsBack(c, "Z" + rest);
    SuffixReadsBack(number, ext);
    ClockReadsBack(c);
    assert ("Z" + rest)[1..] == rest;
  }

  // --- publication order -------------------------------------------------

  /** One publish: when it ran, what the directory held, and the number it took. */
  datatype Publish = Publish(clock: Clock, held: set<string>, number: nat)

  function NameOf(p: Publish, ext: string): string
    requires ValidClock(p.clock)
  {
    PublishedName(Base(p.clock), p.number, ext)
  }

  /** The number taken is the first whose name was free. */
  ghost predicate TookFirstFree(p: Publish, ext: string)
    requires ValidClock(p.clock)
  {
    && NameOf(p, ext) !in p.held
    && forall j: nat | j < p.number :: PublishedName(Base(p.clock), j, ext) in p.held
  }

  /** Successive publishes with one extension, a clock that does not go back, and nothing deleted between them. */
  ghost predicate History(h: seq<Publish>, ext: string) {
    && (forall i | 0 <= i < |h| :: ValidClock(h[i].clock) && h[i].number <= COLLISIONS && TookFirstFree(h[i], ext))
    && (forall i, j | 0 <= i < j < |h| ::
          Instant(h[i].clock) <= Instant(h[j].clock) && h[i].held + {NameOf(h[i], ext)} <= h[j].held)
  }

  /** A higher digit outweighs the lower ones. */
  lemma {:induction false} Outweighs(n: nat, a: int, b: int)
    requires a < b
    ensures a * n + n <= b * n
  {
    var k := b - a - 1;
    assert 0 <= k * n;
    assert b * n == (a + 1 + k) * n == a * n + n + k * n;
  }

  /** Sums that agree, agree digit by digit. */
  lemma {:induction false} Unmix(n: nat, a: int, x: nat, b: int, y: nat)
    requires x < n && y < n && a * n + x == b * n + y
    ensures a == b && x == y
  {
    if a < b {
      Outweighs(n, a, b);
    } else if b < a {
      Outweighs(n, b, a);
    }
  }

  lemma {:induction false} InstantIsInjective(a: Clock, b: Clock)
    requires ValidClock(a) && ValidClock(b) && Instant(a) == Instant(b)
    ensures a == b
  {
    Unmix(1000, Seconds(a), a.milli, Seconds(b), b.milli);
    Unmix(60, Minutes(a), a.second, Minutes(b), b.second);
    Unmix(60, Hours(a), a.minute, Hours(b), b.minute);
    Unmix(24, Days(a), a.hour, Days(b), b.hour);
    Unmix(32, a.year * 13 + a.month, a.day, b.year * 13 + b.month, b.day);
    Unmix(13, a.year, a.month, b.year, b.month);
  }

  /** The order read back from the names is the order of publication. */
  lemma {:induction false} LaterIsNewer(h: seq<Publish>, ext: string, i: nat, j: nat)
    requires History(h, ext) && Extension(ext) && i < j < |h|
    ensures var a, b := ParsePublished(NameOf(h[i], ext)), ParsePublished(NameOf(h[j], ext));
            a.Some? && b.Some? && Newer(b.value, a.value)
  {
    var a, b := h[i], h[j];
    NameReadsBack(a.clock, a.number, ext);
    NameReadsBack(b.clock, b.number, ext);
    if Instant(a.clock) == Instant(b.clock) {
      InstantIsInjective(a.clock, b.clock);
      assert NameOf(a, ext) in b.held;
    }
  }
}
