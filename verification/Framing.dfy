/** The framing of a backup file and its validation, internal/backup/backup.go. */
module Framing {
  import opened Text
  import opened Numbers

  const FORMAT_VERSION := 1
  const FORMAT := "-- guacdeploy backup format="
  const GUACAMOLE := " guacamole="
  const MODE := " mode="
  const MARKER := "-- guacdeploy dump complete sha256:"
  const AGE := "age-encryption.org/v1"

  datatype Header = Header(format: string, guacamole: string, mode: string)

  /** The three fields the header expression captures. */
  predicate WellFormed(h: Header) {
    && h.format != [] && AllDigits(h.format)
    && h.guacamole != [] && AllOf(NotBlank, h.guacamole)
    && h.mode in ["age", "none"]
  }

  function Render(h: Header): string {
    FORMAT + (h.format + (GUACAMOLE + (h.guacamole + (MODE + h.mode))))
  }

  function ParseHeader(line: string): Option<Header> {
    var a := After(FORMAT, line);
    if a.None? then None else
    var format := a.value[..Span(IsDigit, a.value)];
    var b := After(GUACAMOLE, a.value[|format|..]);
    if b.None? || format == [] then None else
    var guacamole := b.value[..Span(NotBlank, b.value)];
    var c := After(MODE, b.value[|guacamole|..]);
    if c.None? || guacamole == [] || c.value !in ["age", "none"] then None
    else Some(Header(format, guacamole, c.value))
  }

  lemma {:induction false} ParseRender(h: Header)
    requires WellFormed(h)
    ensures ParseHeader(Render(h)) == Some(h)
  {
    var tail2 := MODE + h.mode;
    var tail1 := GUACAMOLE + (h.guacamole + tail2);
    AfterIs(FORMAT, FORMAT + (h.format + tail1), h.format + tail1);
    SpanOf(IsDigit, h.format, tail1);
    AfterIs(GUACAMOLE, GUACAMOLE + (h.guacamole + tail2), h.guacamole + tail2);
    SpanOf(NotBlank, h.guacamole, tail2);
    AfterIs(MODE, MODE + h.mode, h.mode);
  }

  lemma {:induction false} ParseMeans(line: string)
    requires ParseHeader(line).Some?
    ensures WellFormed(ParseHeader(line).value) && line == Render(ParseHeader(line).value)
  {
    var a := After(FORMAT, line).value;
    var format := a[..Span(IsDigit, a)];
    var b := After(GUACAMOLE, a[|format|..]).value;
    var guacamole := b[..Span(NotBlank, b)];
    var c := After(MODE, b[|guacamole|..]).value;
    AfterIs(FORMAT, line, a);
    AfterIs(GUACAMOLE, a[|format|..], b);
    AfterIs(MODE, b[|guacamole|..], c);
    Halves(a, |format|);
    Halves(b, |guacamole|);
  }

  /** The header reader is the inverse of the header writer: it accepts exactly the lines that were rendered. */
  lemma {:induction false} ParseIsInverse(line: string, h: Header)
    ensures ParseHeader(line) == Some(h) <==> WellFormed(h) && line == Render(h)
  {
    if WellFormed(h) && line == Render(h) {
      ParseRender(h);
    } else if ParseHeader(line).Some? {
      ParseMeans(line);
    }
  }

  /** fmt.Sscan into an int: a leading zero selects octal and stops at the first other character. */
  function Scanned(d: string): nat
    requires AllDigits(d)
  {
    if d != [] && d[0] == '0' then OctalPrefix(d, 0) else Value(d)
  }

  function OctalPrefix(d: string, acc: nat): nat
    requires AllDigits(d)
  {
    if d == [] || DigitValue(d[0]) >= 8 then acc else OctalPrefix(d[1..], 8 * acc + DigitValue(d[0]))
  }

  function LastIndex(s: string, c: char): (i: int)
    ensures -1 <= i < |s| && (i >= 0 ==> s[i] == c) && forall k | i < k < |s| :: s[k] != c
  {
    if s == [] then -1 else if s[|s| - 1] == c then |s| - 1 else LastIndex(s[..|s| - 1], c)
  }

  function FirstIndex(s: string, c: char): (i: int)
    ensures -1 <= i < |s| && (i >= 0 ==> s[i] == c) && forall k | 0 <= k < (if i >= 0 then i else |s|) :: s[k] != c
  {
    if s == [] then -1
    else if s[0] == c then 0
    else
      var j := FirstIndex(s[1..], c);
      assert forall k | 1 <= k < |s| :: s[k] == s[1..][k - 1];
      if j < 0 then -1 else j + 1
  }

  datatype Info = Info(format: nat, guacamole: string, mode: string)
  datatype Validated = Accepted(sql: string, info: Info) | Refused

  function Supported(h: Header, version: string): bool
    requires AllDigits(h.format)
  {
    Scanned(h.format) == FORMAT_VERSION && (version == "" || h.guacamole == version)
  }

  /** The text cut before its last line: that line without its line end, and everything in front of it. */
  function Trailer(content: string): Option<(string, string)> {
    if content == [] || content[|content| - 1] != '\n' then None
    else
      var trimmed := content[..|content| - 1];
      var last := LastIndex(trimmed, '\n');
      if last < 0 then None else Some((content[..last + 1], trimmed[last + 1..]))
  }

  /** Everything Validate does once the text is plain. `sha` is the hash as hexadecimal text. */
  function ValidatePlain(content: string, version: string, sha: string -> string): Validated {
    var nl := FirstIndex(content, '\n');
    if nl < 0 then Refused else
    var h := ParseHeader(content[..nl]);
    if h.None? then Refused else
    if !Supported(h.value, version) then Refused else
    var t := Trailer(content);
    if t.None? then Refused else
    if After(MARKER, t.value.1) != Some(sha(t.value.0)) then Refused
    else Accepted(content, Info(Scanned(h.value.format), h.value.guacamole, h.value.mode))
  }

  predicate Encrypted(raw: string) {
    StartsWith(raw, AGE)
  }

  /** `key` opens an encrypted file, or fails on it; without a key an encrypted file is refused. */
  function Validate(raw: string, key: Option<string -> Option<string>>, version: string,
                    sha: string -> string): Validated {
    if !Encrypted(raw) then ValidatePlain(raw, version, sha)
    else if key.None? then Refused
    else
      var plain := key.value(raw);
      if plain.None? then Refused else ValidatePlain(plain.value, version, sha)
  }

  // --- what a backup file is ---------------------------------------------

  function Body(h: Header, dump: string): string {
    Render(h) + (['\n'] + dump)
  }

  /** The text a backup writes: header line, dump, and a last line with the hash of everything before it. */
  function Frame(h: Header, dump: string, sha: string -> string): string {
    Body(h, dump) + ((MARKER + sha(Body(h, dump))) + ['\n'])
  }

  predicate WholeLines(dump: string) {
    dump == [] || dump[|dump| - 1] == '\n'
  }

  /** Hexadecimal text has no line end. */
  ghost predicate OneLine(sha: string -> string) {
    forall s :: '\n' !in sha(s)
  }

  ghost predicate Framed(content: string, h: Header, dump: string, version: string, sha: string -> string) {
    WellFormed(h) && Supported(h, version) && WholeLines(dump) && content == Frame(h, dump, sha)
  }

  lemma {:induction false} HeaderIsOneLine(h: Header)
    requires WellFormed(h)
    ensures '\n' !in Render(h)
  {
    assert forall c | c in h.format :: IsDigit(c);
    assert !IsDigit('\n') && IsBlank('\n');
    NoLineEnd(FORMAT, h.format);
    NoLineEnd(GUACAMOLE, h.guacamole);
    NoLineEnd(MODE, h.mode);
    NoLineEnd(GUACAMOLE + h.guacamole, MODE + h.mode);
    NoLineEnd(FORMAT + h.format, (GUACAMOLE + h.guacamole) + (MODE + h.mode));
    assert Render(h) == (FORMAT + h.format) + ((GUACAMOLE + h.guacamole) + (MODE + h.mode));
  }

  lemma {:induction false} NoLineEnd(a: string, b: string)
    requires '\n' !in a && '\n' !in b
    ensures '\n' !in a + b
  {
  }

  lemma {:induction false} FirstOf(line: string, rest: string, c: char)
    requires c !in line
    ensures FirstIndex(line + ([c] + rest), c) == |line|
  {
    assert (line + ([c] + rest))[|line|] == c;
  }

  lemma {:induction false} TrailerOf(body: string, marker: string)
    requires body != [] && body[|body| - 1] == '\n' && '\n' !in marker
    ensures Trailer(body + (marker + ['\n'])) == Some((body, marker))
  {
    var content := body + (marker + ['\n']);
    var trimmed := content[..|content| - 1];
    assert trimmed == body + marker;
    var last := LastIndex(trimmed, '\n');
    assert trimmed[|body| - 1] == '\n';
    assert forall k | |body| <= k < |trimmed| :: trimmed[k] == marker[k - |body|];
    assert last == |body| - 1;
  }

  lemma {:induction false} TrailerMeans(content: string)
    requires Trailer(content).Some?
    ensures var (body, marker) := Trailer(content).value;
            content == body + (marker + ['\n']) && body != [] && body[|body| - 1] == '\n'
  {
    var trimmed := content[..|content| - 1];
    var last := LastIndex(trimmed, '\n');
    assert trimmed[last] == content[last] == content[..last + 1][last];
  }

  lemma {:induction false} BodyEnds(h: Header, dump: string)
    requires WholeLines(dump)
    ensures Body(h, dump) != [] && Body(h, dump)[|Body(h, dump)| - 1] == '\n'
  {
  }

  lemma {:induction false} FrameIsAccepted(content: string, h: Header, dump: string, version: string,
                                           sha: string -> string)
    requires OneLine(sha) && Framed(content, h, dump, version, sha)
    ensures ValidatePlain(content, version, sha) == Accepted(content, Info(FORMAT_VERSION, h.guacamole, h.mode))
  {
    hide ParseHeader, Trailer, After, Scanned, Render, FirstIndex, OneLine;
    var body := Body(h, dump);
    var last := MARKER + sha(body);
    HashIsOneLine(sha, body);
    HeaderIsOneLine(h);
    assert content == Render(h) + (['\n'] + (dump + (last + ['\n'])));
    FirstOf(Render(h), dump + (last + ['\n']), '\n');
    assert content[..|Render(h)|] == Render(h);
    ParseRender(h);
    BodyEnds(h, dump);
    MarkerIsOneLine(sha(body));
    TrailerOf(body, last);
    AfterIs(MARKER, MARKER + sha(body), sha(body));
  }

  lemma {:induction false} HashIsOneLine(sha: string -> string, text: string)
    requires OneLine(sha)
    ensures '\n' !in sha(text)
  {
  }

  lemma {:induction false} MarkerIsOneLine(hash: string)
    requires '\n' !in hash
    ensures '\n' !in MARKER + hash
  {
  }

  lemma {:induction false} AcceptedIsFrame(content: string, version: string, sha: string -> string)
      returns (h: Header, dump: string)
    requires ValidatePlain(content, version, sha).Accepted?
    ensures Framed(content, h, dump, version, sha)
  {
    hide ParseHeader, Trailer, After, Scanned, Render, FirstIndex;
    var nl := FirstIndex(content, '\n');
    var line := content[..nl];
    h := ParseHeader(line).value;
    ParseMeans(line);
    TrailerMeans(content);
    var (body, marker) := Trailer(content).value;
    AfterIs(MARKER, marker, sha(body));
    dump := HeadOf(content, body, marker + ['\n'], nl);
  }

  /** The first line end of a text lies in its front part when that part ends with one. */
  lemma {:induction false} HeadOf(content: string, body: string, rest: string, nl: nat) returns (dump: string)
    requires content == body + rest && body != [] && body[|body| - 1] == '\n'
    requires nl < |content| && content[nl] == '\n' && forall k | 0 <= k < nl :: content[k] != '\n'
    ensures body == content[..nl] + (['\n'] + dump) && WholeLines(dump)
  {
    assert content[|body| - 1] == '\n';
    dump := body[nl + 1..];
    assert body == body[..nl] + ([body[nl]] + dump);
  }

  /**
   * Validation accepts exactly the framed texts with a supported header, and returns them unchanged. Nothing is
   * assumed of the hash beyond its text being one line.
   */
  lemma {:induction false} AcceptsExactlyFrames(content: string, version: string, sha: string -> string)
    requires OneLine(sha)
    ensures ValidatePlain(content, version, sha).Accepted? <==> exists h, dump :: Framed(content, h, dump, version, sha)
    ensures ValidatePlain(content, version, sha).Accepted? ==> ValidatePlain(content, version, sha).sql == content
  {
    if ValidatePlain(content, version, sha).Accepted? {
      var h, dump := AcceptedIsFrame(content, version, sha);
    }
    forall h, dump | Framed(content, h, dump, version, sha)
      ensures ValidatePlain(content, version, sha).Accepted?
    {
      FrameIsAccepted(content, h, dump, version, sha);
    }
  }

  /** What stands in a file: its text when it does not begin like an encrypted one, otherwise what the key opens. */
  ghost predicate Holds(raw: string, key: Option<string -> Option<string>>, content: string) {
    if StartsWith(raw, AGE) then key.Some? && key.value(raw) == Some(content) else content == raw
  }

  /** A file is accepted exactly when it holds a framed text with a supported header; that text is what is returned. */
  lemma {:induction false} ValidatesExactly(raw: string, key: Option<string -> Option<string>>, version: string,
                                            sha: string -> string)
    requires OneLine(sha)
    ensures var v := Validate(raw, key, version, sha);
            && (v.Accepted? <==>
                  exists content, h, dump :: Holds(raw, key, content) && Framed(content, h, dump, version, sha))
            && (v.Accepted? ==> Holds(raw, key, v.sql))
            && forall h, dump | v.Accepted? && Framed(v.sql, h, dump, version, sha) ::
                 v.info == Info(FORMAT_VERSION, h.guacamole, h.mode)
  {
    hide ValidatePlain, Framed, OneLine;
    var v := Validate(raw, key, version, sha);
    forall content | Holds(raw, key, content)
      ensures v == ValidatePlain(content, version, sha)
      ensures v.Accepted? <==> exists h, dump :: Framed(content, h, dump, version, sha)
      ensures v.Accepted? ==> v.sql == content
    {
      AcceptsExactlyFrames(content, version, sha);
    }
    forall h, dump | v.Accepted? && Framed(v.sql, h, dump, version, sha)
      ensures v.info == Info(FORMAT_VERSION, h.guacamole, h.mode)
    {
      FrameIsAccepted(v.sql, h, dump, version, sha);
    }
  }

  /** Any number of zeros, a one, and then nothing or a digit that is not octal, whatever follows it. */
  predicate OneAfterZeros(d: string)
    requires AllDigits(d)
  {
    d != [] && if d[0] == '0' then OneAfterZeros(d[1..]) else d[0] == '1' && (|d| == 1 || d[1] in ['8', '9'])
  }

  /** Exactly these spellings are read as format 1: the plain one, and those with a leading zero. */
  lemma {:induction false} FormatOneExactly(d: string)
    requires d != [] && AllDigits(d)
    ensures Scanned(d) == 1 <==> d == "1" || (d[0] == '0' && OneAfterZeros(d))
  {
    if d[0] == '0' {
      OctalOne(d);
    } else if |d| == 1 {
      assert d[..0] == [] && Value(d) == DigitValue(d[0]);
      assert d == "1" <==> d[0] == '1';
    } else {
      LongIsLarge(d);
    }
  }

  lemma {:induction false} OctalOne(d: string)
    requires AllDigits(d)
    ensures OctalPrefix(d, 0) == 1 <==> OneAfterZeros(d)
  {
    if d != [] && DigitValue(d[0]) == 0 {
      OctalOne(d[1..]);
    } else if d != [] && DigitValue(d[0]) < 8 {
      OctalGrows(d[1..], DigitValue(d[0]));
    }
  }

  lemma {:induction false} OctalGrows(d: string, acc: nat)
    requires AllDigits(d) && acc > 0
    ensures OctalPrefix(d, acc) == acc <==> d == [] || d[0] in ['8', '9']
    ensures OctalPrefix(d, acc) >= acc
  {
    if d != [] && DigitValue(d[0]) < 8 {
      OctalGrows(d[1..], 8 * acc + DigitValue(d[0]));
    }
  }

  lemma {:induction false} LongIsLarge(d: string)
    requires AllDigits(d) && d != [] && d[0] != '0'
    ensures Value(d) >= 1 && (|d| > 1 ==> Value(d) >= 10)
  {
    if |d| > 1 {
      LongIsLarge(d[..|d| - 1]);
    }
  }

  /**
   * The format number of the accepted headers is read with a leading zero for octal: these spellings of format 1 pass
   * as well, and the text is accepted like any other.
   */
  lemma {:induction false} OctalFormatsPass(format: string, guacamole: string, mode: string, dump: string,
                                            sha: string -> string)
    requires format in ["01", "018"] && OneLine(sha) && WholeLines(dump)
    requires WellFormed(Header("1", guacamole, mode))
    ensures var content := Frame(Header(format, guacamole, mode), dump, sha);
            ValidatePlain(content, guacamole, sha) == Accepted(content, Info(FORMAT_VERSION, guacamole, mode))
  {
    var h := Header(format, guacamole, mode);
    assert format[1..][..1] == "1" && (|format| == 3 ==> format[1..][1..] == "8");
    FrameIsAccepted(Frame(h, dump, sha), h, dump, guacamole, sha);
  }

  /** A line of `s` that begins like a completion marker begins at `i`. */
  predicate MarkerAt(s: string, i: nat) {
    i <= |s| && (i == 0 || s[i - 1] == '\n') && StartsWith(s[i..], MARKER)
  }

  /** No line of the dump begins like a completion marker. */
  ghost predicate MarkerFree(dump: string) {
    forall k: nat :: !MarkerAt(dump, k)
  }

  /** A one-line text that occurs in whole lines followed by something occurs in one of the two parts. */
  lemma {:induction false} OneLineOccurs(front: string, back: string, word: string, i: nat)
    requires front != [] && front[|front| - 1] == '\n' && '\n' !in word
    requires i < |front| && StartsWith((front + back)[i..], word)
    ensures StartsWith(front[i..], word)
  {
    var s := front + back;
    forall j | i <= j < i + |word|
      ensures s[j] != '\n'
    {
      assert s[i..][..|word|][j - i] == word[j - i] && word[j - i] in word;
    }
    assert s[|front| - 1] == '\n';
    assert front[i..][..|word|] == s[i..][..|word|];
  }

  /** A marker line that begins before the end of the body is a line of the dump. */
  lemma {:induction false} MarkerInDump(h: Header, dump: string, back: string, i: nat)
    requires WellFormed(h) && WholeLines(dump)
    requires 0 < i < |Body(h, dump)| && MarkerAt(Body(h, dump) + back, i)
    ensures i > |Render(h)| && MarkerAt(dump, i - |Render(h)| - 1)
  {
    var body := Body(h, dump);
    var start := |Render(h)| + 1;
    HeaderIsOneLine(h);
    BodyEnds(h, dump);
    assert (body + back)[i - 1] == body[i - 1] == '\n';
    assert forall k | 0 <= k < |Render(h)| :: body[k] == Render(h)[k];
    MarkerIsOneLine([]);
    assert MARKER + [] == MARKER;
    OneLineOccurs(body, back, MARKER, i);
    assert body[i..] == dump[i - start..];
  }

  /** Nor does one begin inside the last line. */
  lemma {:induction false} OnlyTheLastMarker(h: Header, dump: string, last: string, i: nat)
    requires WellFormed(h) && WholeLines(dump) && MarkerFree(dump) && '\n' !in last
    requires 0 < i < |Body(h, dump) + (last + ['\n'])| && MarkerAt(Body(h, dump) + (last + ['\n']), i)
    ensures i == |Body(h, dump)|
  {
    var body := Body(h, dump);
    assert forall k | 0 <= k < |last| :: (body + (last + ['\n']))[|body| + k] == last[k];
    if i < |body| {
      MarkerInDump(h, dump, last + ['\n'], i);
    }
  }

  /** A backup cut short anywhere is refused, whatever the hash function is. */
  lemma {:induction false} PrefixIsRefused(h: Header, dump: string, version: string, sha: string -> string, n: nat)
    requires OneLine(sha) && WellFormed(h) && WholeLines(dump) && MarkerFree(dump)
    requires n < |Frame(h, dump, sha)|
    ensures ValidatePlain(Frame(h, dump, sha)[..n], version, sha) == Refused
  {
    var content := Frame(h, dump, sha);
    if ValidatePlain(content[..n], version, sha).Accepted? {
      var h', dump' := AcceptedIsFrame(content[..n], version, sha);
      FramedPrefixIsWhole(h, dump, sha, n, h', dump');
    }
  }

  /** Where the body of a framed prefix ends, a line of the whole text begins like a marker. */
  lemma {:induction false} PrefixMarker(content: string, n: nat, body: string, last: string)
    requires n <= |content| && content[..n] == body + (last + ['\n'])
    requires body != [] && body[|body| - 1] == '\n' && StartsWith(last, MARKER)
    ensures |body| < |content| && content[..|body|] == body && MarkerAt(content, |body|)
  {
    var i := |body|;
    assert content[i - 1] == content[..n][i - 1] == body[i - 1];
    assert content[i..n] == content[..n][i..] == last + ['\n'];
    SliceFront(content, i, n, |MARKER|);
    FrontOf(last, ['\n']);
    SliceFront(last + ['\n'], 0, |last|, |MARKER|);
  }

  lemma {:induction false} SliceFront(s: string, i: nat, n: nat, m: nat)
    requires i + m <= n <= |s|
    ensures s[i..][..m] == s[i..n][..m]
  {
  }

  lemma {:induction false} SameLength(content: string, n: nat, body: string, last: string)
    requires n <= |content| && content == body + (last + ['\n']) && content[..n] == body + (last + ['\n'])
    ensures n == |content|
  {
  }

  lemma {:induction false} FrontOf(body: string, rest: string)
    ensures (body + rest)[..|body|] == body
  {
  }

  /** A framed prefix of a framed text is the whole text. */
  lemma {:induction false} FramedPrefixIsWhole(h: Header, dump: string, sha: string -> string, n: nat, h': Header,
                                               dump': string)
    requires OneLine(sha) && WellFormed(h) && WholeLines(dump) && MarkerFree(dump) && WholeLines(dump')
    requires n <= |Frame(h, dump, sha)| && Frame(h, dump, sha)[..n] == Frame(h', dump', sha)
    ensures n == |Frame(h, dump, sha)|
  {
    hide Body, MarkerAt, WellFormed;
    var content := Frame(h, dump, sha);
    var body, body' := Body(h, dump), Body(h', dump');
    BodyEnds(h', dump');
    MarkerIsOneLine(sha(body));
    MarkerFirst(sha(body'));
    PrefixMarker(content, n, body', MARKER + sha(body'));
    OnlyTheLastMarker(h, dump, MARKER + sha(body), |body'|);
    FrontOf(body, (MARKER + sha(body)) + ['\n']);
    SameLength(content, n, body, MARKER + sha(body));
  }

  lemma {:induction false} MarkerFirst(hash: string)
    ensures StartsWith(MARKER + hash, MARKER)
  {
  }
}
