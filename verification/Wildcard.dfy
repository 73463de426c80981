/** The matcher for Azure action patterns, internal/azure/check.go. */
module Wildcard {
  import opened Text

  /** Lower-casing maps each character by the Unicode table, which is a parameter: nothing here depends on it. */
  type Fold = char -> char

  function Lower(fold: Fold, s: string): (r: string)
    ensures |r| == |s| && forall i | 0 <= i < |s| :: r[i] == fold(s[i])
  {
    seq(|s|, i requires 0 <= i < |s| => fold(s[i]))
  }

  /** What a pattern means: each "*" stands for any run of characters, every other character for itself. */
  ghost predicate Fits(pattern: string, s: string) {
    if pattern == [] then s == []
    else if pattern[0] == '*' then exists k | 0 <= k <= |s| :: Fits(pattern[1..], s[k..])
    else s != [] && s[0] == pattern[0] && Fits(pattern[1..], s[1..])
  }

  /** A literal head must stand at the front, and the rest of the pattern takes the rest of the text. */
  lemma {:induction false} FitsLiteral(head: string, tail: string, s: string)
    requires '*' !in head
    ensures Fits(head + tail, s) <==> StartsWith(s, head) && Fits(tail, s[|head|..])
  {
    if head == [] {
      assert head + tail == tail && s[0..] == s;
    } else {
      assert (head + tail)[1..] == head[1..] + tail;
      if s != [] && s[0] == head[0] {
        FitsLiteral(head[1..], tail, s[1..]);
        assert s == [s[0]] + s[1..] && head == [head[0]] + head[1..];
        assert StartsWith(s, head) <==> StartsWith(s[1..], head[1..]);
        if StartsWith(s, head) {
          assert s[|head|..] == s[1..][|head[1..]|..];
        }
      } else {
        assert |head| <= |s| ==> s[..|head|][0] == s[0];
      }
    }
  }

  /** A pattern that begins with "*" still fits when more text is put in front. */
  lemma {:induction false} FitsLonger(tail: string, s: string, k: nat)
    requires k <= |s| && Fits(['*'] + tail, s[k..])
    ensures Fits(['*'] + tail, s)
  {
    assert (['*'] + tail)[1..] == tail;
    var j :| 0 <= j <= |s[k..]| && Fits(tail, s[k..][j..]);
    assert s[k..][j..] == s[k + j..];
  }

  /** Taking the leftmost place for a literal between two wildcards loses no match. */
  lemma {:induction false} GreedyStep(part: string, tail: string, s: string, at: nat)
    requires '*' !in part
    requires OccursAt(s, part, at) && forall k | 0 <= k < at :: !OccursAt(s, part, k)
    ensures Fits(['*'] + (part + (['*'] + tail)), s) <==> Fits(['*'] + tail, s[at + |part|..])
  {
    var rest := part + (['*'] + tail);
    assert (['*'] + rest)[1..] == rest;
    if Fits(['*'] + rest, s) {
      var k :| 0 <= k <= |s| && Fits(rest, s[k..]);
      FitsLiteral(part, ['*'] + tail, s[k..]);
      assert OccursAt(s, part, k);
      assert s[k..][|part|..] == s[at + |part|..][k - at..];
      FitsLonger(tail, s[at + |part|..], k - at);
    }
    if Fits(['*'] + tail, s[at + |part|..]) {
      FitsLiteral(part, ['*'] + tail, s[at..]);
      assert s[at..][..|part|] == part && s[at..][|part|..] == s[at + |part|..];
      assert Fits(rest, s[at..]);
    }
  }

  /** A literal that occurs nowhere cannot be fitted. */
  lemma {:induction false} NoPlace(part: string, tail: string, s: string)
    requires '*' !in part
    requires forall k: nat :: !OccursAt(s, part, k)
    ensures !Fits(['*'] + (part + tail), s)
  {
    assert (['*'] + (part + tail))[1..] == part + tail;
    forall k | 0 <= k <= |s|
      ensures !Fits(part + tail, s[k..])
    {
      FitsLiteral(part, tail, s[k..]);
      assert !OccursAt(s, part, k);
      assert k + |part| <= |s| ==> s[k..][..|part|] == s[k..k + |part|];
    }
  }

  /** A literal after the last wildcard must end the text. */
  lemma {:induction false} FitsItself(part: string, s: string)
    requires '*' !in part
    ensures Fits(part, s) <==> s == part
  {
    FitsLiteral(part, [], s);
    assert part + [] == part;
    assert StartsWith(s, part) && s[|part|..] == [] ==> s == part;
  }

  lemma {:induction false} LastPart(part: string, s: string)
    requires '*' !in part
    ensures Fits(['*'] + part, s) <==> EndsWith(s, part)
  {
    assert (['*'] + part)[1..] == part;
    forall k | 0 <= k <= |s|
      ensures Fits(part, s[k..]) <==> s[k..] == part
    {
      FitsItself(part, s[k..]);
    }
  }

  lemma {:induction false} JoinStep(parts: seq<string>, i: nat)
    requires 0 < i && i + 1 < |parts|
    ensures Join(parts[i..], '*') == parts[i] + (['*'] + Join(parts[i + 1..], '*'))
  {
    assert parts[i..][1..] == parts[i + 1..];
  }

  /** The segment-by-segment search accepts an action exactly when the pattern fits it. */
  method MatchAction(fold: Fold, pattern: string, action: string) returns (matches: bool)
    ensures matches <==> Fits(Lower(fold, pattern), Lower(fold, action))
  {
    hide Lower, Split, Fits;
    var p, a := Lower(fold, pattern), Lower(fold, action);
    var parts := Split(p, '*');
    JoinSplit(p, '*');
    if |parts| == 1 {
      FitsItself(p, a);
      return p == a;
    }
    assert p == parts[0] + (['*'] + Join(parts[1..], '*'));
    FitsLiteral(parts[0], ['*'] + Join(parts[1..], '*'), a);
    if !StartsWith(a, parts[0]) {
      return false;
    }
    var rest := a[|parts[0]|..];
    var i := 1;
    while i < |parts| - 1
      invariant 1 <= i < |parts|
      invariant Fits(p, a) <==> Fits(['*'] + Join(parts[i..], '*'), rest)
    {
      JoinStep(parts, i);
      var j := Index(rest, parts[i]);
      if j.None? {
        NoPlace(parts[i], ['*'] + Join(parts[i + 1..], '*'), rest);
        return false;
      }
      GreedyStep(parts[i], Join(parts[i + 1..], '*'), rest, j.value);
      rest := rest[j.value + |parts[i]|..];
      i := i + 1;
    }
    LastPart(parts[i], rest);
    return EndsWith(rest, parts[i]);
  }

  ghost predicate Covers(fold: Fold, patterns: seq<string>, action: string) {
    exists p | p in patterns :: Fits(Lower(fold, p), Lower(fold, action))
  }

  method MatchesAction(fold: Fold, patterns: seq<string>, action: string) returns (covered: bool)
    ensures covered <==> Covers(fold, patterns, action)
  {
    for i := 0 to |patterns|
      invariant forall k | 0 <= k < i :: !Fits(Lower(fold, patterns[k]), Lower(fold, action))
    {
      var m := MatchAction(fold, patterns[i], action);
      if m {
        return true;
      }
    }
    return false;
  }

  datatype Role = Role(actions: seq<string>, notActions: seq<string>)

  /** An action is permitted when one role grants it and that same role does not take it away. */
  method Permits(fold: Fold, roles: seq<Role>, action: string) returns (allowed: bool)
    ensures allowed <==> exists r | r in roles ::
                           Covers(fold, r.actions, action) && !Covers(fold, r.notActions, action)
  {
    for i := 0 to |roles|
      invariant forall k | 0 <= k < i ::
                  !(Covers(fold, roles[k].actions, action) && !Covers(fold, roles[k].notActions, action))
    {
      var granted := MatchesAction(fold, roles[i].actions, action);
      var denied := MatchesAction(fold, roles[i].notActions, action);
      if granted && !denied {
        assert roles[i] in roles;
        return true;
      }
    }
    return false;
  }
}
