/** Strings as the program handles them: searching, splitting and joining. */
module Text {

  datatype Option<+T> = None | Some(value: T) {
    function GetOr(default: T): T {
      if Some? then value else default
    }
  }

  predicate Distinct<T(==)>(q: seq<T>) {
    forall i, j | 0 <= i < j < |q| :: q[i] != q[j]
  }

  /** Taking one element more. */
  lemma {:induction false} TakeStep<T>(s: seq<T>, i: nat)
    requires i < |s|
    ensures s[..i + 1] == s[..i] + [s[i]] && s[..i + 1][..i] == s[..i]
  {
  }

  lemma {:induction false} Regroup<T>(a: seq<T>, b: seq<T>, c: seq<T>)
    ensures (a + b) + c == a + (b + c)
  {
  }

  predicate StartsWith(s: string, prefix: string) {
    |prefix| <= |s| && s[..|prefix|] == prefix
  }

  predicate EndsWith(s: string, suffix: string) {
    |suffix| <= |s| && s[|s| - |suffix|..] == suffix
  }

  predicate OccursAt(s: string, part: string, i: nat) {
    i + |part| <= |s| && s[i..i + |part|] == part
  }

  function After(prefix: string, s: string): Option<string> {
    if StartsWith(s, prefix) then Some(s[|prefix|..]) else None
  }

  lemma {:induction false} AfterIs(prefix: string, s: string, rest: string)
    ensures After(prefix, s) == Some(rest) <==> s == prefix + rest
  {
    if StartsWith(s, prefix) {
      assert s == s[..|prefix|] + s[|prefix|..];
    }
    if s == prefix + rest {
      assert s[..|prefix|] == prefix && s[|prefix|..] == rest;
    }
  }

  // --- front parts of one kind ------------------------------------------

  /** What Go's regular expressions take for white space. */
  predicate IsBlank(c: char) {
    c in ['\t', '\n', '\U{000C}', '\r', ' ']
  }

  predicate NotBlank(c: char) {
    !IsBlank(c)
  }

  predicate AllOf(p: char -> bool, s: string) {
    forall c | c in s :: p(c)
  }

  /** The longest front part of such characters. */
  function Span(p: char -> bool, s: string): (n: nat)
    ensures n <= |s| && AllOf(p, s[..n]) && (n < |s| ==> !p(s[n]))
  {
    if s == [] || !p(s[0]) then 0
    else
      var n := 1 + Span(p, s[1..]);
      assert s[..n] == [s[0]] + s[1..][..n - 1];
      n
  }

  lemma {:induction false} SpanOf(p: char -> bool, front: string, rest: string)
    requires AllOf(p, front) && (rest == [] || !p(rest[0]))
    ensures Span(p, front + rest) == |front|
    ensures (front + rest)[..|front|] == front && (front + rest)[|front|..] == rest
  {
    if front == [] {
      assert front + rest == rest;
    } else {
      SpanOf(p, front[1..], rest);
      assert (front + rest)[1..] == front[1..] + rest;
    }
  }

  lemma {:induction false} Halves(s: string, n: nat)
    requires n <= |s|
    ensures s == s[..n] + s[n..] && |s[..n]| == n
  {
  }

  // --- searching, splitting and joining ----------------------------------

  /** The leftmost place where `part` occurs in `s`. */
  method Index(s: string, part: string) returns (at: Option<nat>)
    ensures at.Some? ==> OccursAt(s, part, at.value) && forall k | 0 <= k < at.value :: !OccursAt(s, part, k)
    ensures at.None? ==> forall k: nat :: !OccursAt(s, part, k)
  {
    var i := 0;
    while i + |part| <= |s|
      invariant forall k | 0 <= k < i :: !OccursAt(s, part, k)
    {
      if s[i..i + |part|] == part {
        return Some(i);
      }
      i := i + 1;
    }
    return None;
  }

  /** `s` cut at every separator, as strings.Split cuts it: one piece more than there are separators. */
  function Split(s: string, sep: char): (parts: seq<string>)
    ensures |parts| >= 1
    ensures forall p | p in parts :: sep !in p
  {
    if s == [] then [[]]
    else if s[0] == sep then [[]] + Split(s[1..], sep)
    else
      var rest := Split(s[1..], sep);
      [[s[0]] + rest[0]] + rest[1..]
  }

  function Join(parts: seq<string>, sep: char): string
    requires |parts| >= 1
  {
    if |parts| == 1 then parts[0] else parts[0] + [sep] + Join(parts[1..], sep)
  }

  /** Cutting a text at a separator and joining the pieces gives the text back. */
  lemma {:induction false} JoinSplit(s: string, sep: char)
    ensures Join(Split(s, sep), sep) == s
  {
    if s != [] {
      JoinSplit(s[1..], sep);
      var rest := Split(s[1..], sep);
      if s[0] == sep {
        assert ([[]] + rest)[1..] == rest;
      } else {
        var parts := [[s[0]] + rest[0]] + rest[1..];
        assert parts[1..] == rest[1..];
      }
    }
  }

  /** Pieces without a separator survive being joined and cut again. */
  lemma {:induction false} SplitJoin(parts: seq<string>, sep: char)
    requires |parts| >= 1
    requires forall p | p in parts :: sep !in p
    ensures Split(Join(parts, sep), sep) == parts
  {
    if |parts| == 1 {
      SplitClean(parts[0], sep);
    } else {
      assert forall p | p in parts[1..] :: p in parts;
      SplitJoin(parts[1..], sep);
      SplitAppend(parts[0], Join(parts[1..], sep), sep);
      assert parts[0] + [sep] + Join(parts[1..], sep) == parts[0] + ([sep] + Join(parts[1..], sep));
    }
  }

  lemma {:induction false} JoinedHolds(parts: seq<string>, sep: char, c: char)
    requires |parts| >= 1 && c != sep && forall p | p in parts :: c !in p
    ensures c !in Join(parts, sep) && (|parts| > 1 ==> sep in Join(parts, sep))
  {
    if |parts| > 1 {
      JoinedHolds(parts[1..], sep, c);
    }
  }

  lemma {:induction false} SplitClean(s: string, sep: char)
    requires sep !in s
    ensures Split(s, sep) == [s]
  {
    if s != [] {
      SplitClean(s[1..], sep);
      assert [s[0]] + s[1..] == s;
    }
  }

  /** The first separator ends the first piece. */
  lemma {:induction false} SplitAppend(s: string, t: string, sep: char)
    requires sep !in s
    ensures Split(s + ([sep] + t), sep) == [s] + Split(t, sep)
  {
    var whole := s + ([sep] + t);
    if s == [] {
      assert whole[1..] == t;
    } else {
      SplitAppend(s[1..], t, sep);
      assert whole[1..] == s[1..] + ([sep] + t);
      assert [s[0]] + s[1..] == s;
    }
  }
}
