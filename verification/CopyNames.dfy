/** The names of recording copies: publishedCopy and publish in internal/recording/recording.go enumerate them. */
module CopyNames {
  import opened Text
  import opened Numbers
  import opened Names

  const COPY_LIMIT := 100   // the highest "-N" that is tried

  /** Plain copies and encrypted ones. */
  predicate CopyExtension(e: string) {
    e in [".guac", ".guac.age"]
  }

  ghost predicate IsCopyName(copy: string, name: string) {
    exists i: nat, e: string :: i <= COPY_LIMIT && CopyExtension(e) && copy == PublishedName(name, i, e)
  }

  lemma {:induction false} ItsCopyName(name: string, i: nat, e: string)
    requires i <= COPY_LIMIT && CopyExtension(e)
    ensures IsCopyName(PublishedName(name, i, e), name)
  {
  }

  /** `b` is `a` followed by a copy number, such as "x-1" for "x". */
  ghost predicate Numbered(a: string, b: string) {
    exists i: nat :: 1 <= i <= COPY_LIMIT && b == a + Suffix(i)
  }

  /** One name is the other, or the other with a copy number. */
  ghost predicate Related(a: string, b: string) {
    a == b || Numbered(a, b) || Numbered(b, a)
  }

  ghost predicate ShareCopyName(a: string, b: string) {
    exists copy :: IsCopyName(copy, a) && IsCopyName(copy, b)
  }

  lemma {:induction false} RenderedDigits(i: nat)
    requires i >= 1
    ensures |Suffix(i)| >= 2 && Suffix(i)[0] == '-' && forall k | 1 <= k < |Suffix(i)| :: Suffix(i)[k] != '-'
  {
    forall k | 1 <= k < |Suffix(i)|
      ensures Suffix(i)[k] != '-'
    {
      assert Suffix(i)[k] == Render(i)[k - 1];
      assert Render(i)[k - 1] in Render(i);
    }
  }

  /** A text that begins with a dash and has no other. */
  predicate Dashed(s: string) {
    s != [] && s[0] == '-' && forall k | 1 <= k < |s| :: s[k] != '-'
  }

  /** Where the longer front ends, the other text goes on with the part that follows. */
  lemma {:induction false} Overlap(a: string, s: string, b: string, t: string)
    requires a + s == b + t && |a| <= |b|
    ensures b[..|a|] == a && |b| - |a| <= |s| && b == a + s[..|b| - |a|] && t == s[|b| - |a|..]
  {
    assert (a + s)[..|b|] == a + s[..|b| - |a|] && (b + t)[..|b|] == b;
    assert (a + s)[|b|..] == s[|b| - |a|..] && (b + t)[|b|..] == t;
  }

  /** Two texts that end in such a part, or in nothing, and are the same: the shorter front takes the longer part. */
  lemma {:induction false} LongerPart(a: string, s: string, b: string, t: string)
    requires a + s == b + t && |a| <= |b|
    requires (s == [] || Dashed(s)) && (t == [] || Dashed(t))
    ensures a == b || (s != [] && t == [] && b == a + s)
  {
    Overlap(a, s, b, t);
    assert t != [] ==> |b| == |a|;
  }

  /** With the number on the left the longer one, the rest of it belongs to the other name. */
  lemma {:induction false} LongerNumber(a: string, b: string, i: nat, j: nat)
    requires a + Suffix(i) == b + Suffix(j) && |a| <= |b|
    ensures a == b || (i >= 1 && j == 0 && b == a + Suffix(i))
  {
    SuffixForm(i);
    SuffixForm(j);
    var s, t := Suffix(i), Suffix(j);
    hide *;
    LongerPart(a, s, b, t);
  }

  lemma {:induction false} SuffixForm(i: nat)
    ensures (i == 0 <==> Suffix(i) == []) && (i >= 1 ==> Dashed(Suffix(i)))
  {
    if i >= 1 {
      RenderedDigits(i);
    }
  }

  /** The extension can be read off the last character. */
  lemma {:induction false} SameEnd(x: string, y: string, e: string, f: string)
    requires CopyExtension(e) && CopyExtension(f) && x + e == y + f
    ensures e == f && x == y
  {
    var p, q := x + e, y + f;
    assert p[|p| - 1] == e[|e| - 1] && q[|q| - 1] == f[|f| - 1];
    assert p[..|p| - |e|] == x && q[..|q| - |f|] == y;
  }

  lemma {:induction false} SameExtension(a: string, b: string, i: nat, j: nat, e: string, f: string)
    requires CopyExtension(e) && CopyExtension(f) && PublishedName(a, i, e) == PublishedName(b, j, f)
    ensures e == f && a + Suffix(i) == b + Suffix(j)
  {
    hide Suffix, CopyExtension;
    Regroup(a, Suffix(i), e);
    Regroup(b, Suffix(j), f);
    SameEnd(a + Suffix(i), b + Suffix(j), e, f);
  }

  /**
   * Two recordings share the name of a copy exactly when one's name is the other's followed by a copy number, or they
   * are the same.
   */
  lemma {:induction false} SharedExactlyWhenRelated(a: string, b: string)
    ensures ShareCopyName(a, b) <==> Related(a, b)
  {
    if ShareCopyName(a, b) {
      var copy :| IsCopyName(copy, a) && IsCopyName(copy, b);
      SharedIsRelated(copy, a, b);
    }
    if Related(a, b) {
      RelatedIsShared(a, b);
    }
  }

  lemma {:induction false} SharedIsRelated(copy: string, a: string, b: string)
    requires IsCopyName(copy, a) && IsCopyName(copy, b)
    ensures Related(a, b)
  {
    var i: nat, e: string :| i <= COPY_LIMIT && CopyExtension(e) && copy == PublishedName(a, i, e);
    var j: nat, f: string :| j <= COPY_LIMIT && CopyExtension(f) && copy == PublishedName(b, j, f);
    SameExtension(a, b, i, j, e, f);
    if |a| <= |b| {
      LongerNumber(a, b, i, j);
    } else {
      LongerNumber(b, a, j, i);
    }
  }

  lemma {:induction false} RelatedIsShared(a: string, b: string)
    requires Related(a, b)
    ensures ShareCopyName(a, b)
  {
    if a == b {
      ItsCopyName(a, 0, ".guac");
    } else if Numbered(a, b) {
      var i: nat :| 1 <= i <= COPY_LIMIT && b == a + Suffix(i);
      NumberedIsShared(a, b, i, ".guac");
    } else {
      var i: nat :| 1 <= i <= COPY_LIMIT && a == b + Suffix(i);
      NumberedIsShared(b, a, i, ".guac");
    }
  }

  /** Copy `i` of a recording has the name of copy 0 of the recording whose name is that one's with "-i". */
  lemma {:induction false} NumberedIsShared(a: string, b: string, i: nat, e: string)
    requires 1 <= i <= COPY_LIMIT && b == a + Suffix(i) && CopyExtension(e)
    ensures PublishedName(a, i, e) == PublishedName(b, 0, e)
    ensures IsCopyName(PublishedName(b, 0, e), a) && IsCopyName(PublishedName(b, 0, e), b)
  {
    assert PublishedName(a, i, e) == b + e == PublishedName(b, 0, e);
    ItsCopyName(a, i, e);
    ItsCopyName(b, 0, e);
  }

  /** Names of one length, such as history identifiers have, are related only when they are the same. */
  lemma {:induction false} OneLengthApart(a: string, b: string)
    requires |a| == |b|
    ensures ShareCopyName(a, b) <==> a == b
  {
    SharedExactlyWhenRelated(a, b);
    NumberedIsLonger(a, b);
    NumberedIsLonger(b, a);
  }

  lemma {:induction false} NumberedIsLonger(a: string, b: string)
    ensures Numbered(a, b) ==> |a| < |b|
  {
    if Numbered(a, b) {
      var i: nat :| 1 <= i <= COPY_LIMIT && b == a + Suffix(i);
      RenderedDigits(i);
    }
  }

  /** The smallest such pair. */
  lemma {:induction false} SharingExample()
    ensures ShareCopyName("x", "x-1")
  {
    assert Suffix(1) == "-1" by {
      assert Render(1) == "1";
    }
    NumberedIsShared("x", "x-1", 1, ".guac");
  }
}
