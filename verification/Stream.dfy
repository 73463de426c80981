/** The line splitter for streamed start-up output, internal/stack/stream.go. */
module Stream {

  const KEEP := 1048576   // bytes of output kept for diagnostics
  const WIDTH := 8192     // bytes of one line that are shown

  predicate Break(c: char) {
    c == '\n' || c == '\r'
  }

  /** The stretches between line breaks, the unfinished last one included. */
  function Segments(s: string): (r: seq<string>)
    ensures |r| >= 1
  {
    if s == [] then [[]]
    else
      var before := Segments(s[..|s| - 1]);
      var c := s[|s| - 1];
      if Break(c) then before + [[]] else before[..|before| - 1] + [before[|before| - 1] + [c]]
  }

  function Cut(s: string): string {
    if |s| <= WIDTH then s else s[..WIDTH]
  }

  /** The lines a reader should see for these stretches: each one cut to the width, empty ones left out. */
  function Shown(segments: seq<string>): seq<string> {
    if segments == [] then []
    else
      var rest := Shown(segments[..|segments| - 1]);
      var last := segments[|segments| - 1];
      if last == [] then rest else rest + [Cut(last)]
  }

  function Lines(s: string): seq<string> {
    Shown(Segments(s))
  }

  function Finished(segments: seq<string>): seq<string>
    requires |segments| >= 1
  {
    segments[..|segments| - 1]
  }

  function Last(segments: seq<string>): string
    requires |segments| >= 1
  {
    segments[|segments| - 1]
  }

  /** The lines a stream has finished. */
  function Emitted(s: string): seq<string> {
    Shown(Finished(Segments(s)))
  }

  /** What is shown so far of its unfinished line. */
  function Waiting(s: string): string {
    Cut(Last(Segments(s)))
  }

  /** One more byte either closes the last stretch or lengthens it. */
  lemma {:induction false} SegmentsStep(s: string, c: char)
    ensures Finished(Segments(s + [c])) == if Break(c) then Segments(s) else Finished(Segments(s))
    ensures Last(Segments(s + [c])) == if Break(c) then [] else Last(Segments(s)) + [c]
  {
    assert (s + [c])[..|s|] == s;
  }

  lemma {:induction false} CutStep(line: string, c: char)
    ensures Cut(line + [c]) == if |Cut(line)| < WIDTH then Cut(line) + [c] else Cut(line)
    ensures Cut(line) == [] <==> line == []
  {
  }

  /** What one more byte does to the finished lines and to the unfinished one. */
  lemma {:induction false} OneByte(s: string, c: char)
    ensures var ends := c == '\n' || c == '\r';
            && Emitted(s + [c]) == (if ends && Waiting(s) != [] then Emitted(s) + [Waiting(s)] else Emitted(s))
            && Waiting(s + [c]) == if ends then [] else if |Waiting(s)| < WIDTH then Waiting(s) + [c] else Waiting(s)
  {
    SegmentsStep(s, c);
    CutStep(Last(Segments(s)), c);
    AllLines(s);
  }

  lemma {:induction false} AllLines(s: string)
    ensures Lines(s) == if Waiting(s) == [] then Emitted(s) else Emitted(s) + [Waiting(s)]
  {
  }

  lemma {:induction false} NoBreakInside(s: string)
    ensures forall g | g in Segments(s) :: forall c | c in g :: !Break(c)
  {
    if s != [] {
      var t, c := s[..|s| - 1], s[|s| - 1];
      NoBreakInside(t);
      var before, after := Segments(t), Segments(s);
      assert t + [c] == s && before[|before| - 1] in before;
      if !Break(c) {
        SegmentsStep(t, c);
        assert forall g | g in after :: g == Last(after) || g in Finished(after);
        assert forall g | g in Finished(before) :: g in before;
      }
    }
  }

  lemma {:induction false} GluedBack(s: string)
    ensures |Segments(s)| == 1 + |Breaks(s)| && Glue(Segments(s), Breaks(s)) == s
  {
    if s != [] {
      var t, c := s[..|s| - 1], s[|s| - 1];
      GluedBack(t);
      SegmentsStep(t, c);
      assert t + [c] == s;
      if Break(c) {
        assert Breaks(s)[..|Breaks(t)|] == Breaks(t);
      } else {
        assert Breaks(s) == Breaks(t);
        GlueLast(Segments(t), Segments(s), c, Breaks(t));
      }
    }
  }

  lemma {:induction false} BreaksBreak(s: string)
    ensures forall c | c in Breaks(s) :: c == '\n' || c == '\r'
  {
    if s != [] {
      BreaksBreak(s[..|s| - 1]);
    }
  }

  /** What a segment is: no break inside, breaks between, nothing lost. */
  lemma {:induction false} SegmentsAreExact(s: string)
    ensures forall g | g in Segments(s) :: '\n' !in g && '\r' !in g
    ensures forall c | c in Breaks(s) :: c == '\n' || c == '\r'
    ensures |Segments(s)| == 1 + |Breaks(s)|
    ensures Glue(Segments(s), Breaks(s)) == s
  {
    NoBreakInside(s);
    GluedBack(s);
    BreaksBreak(s);
  }

  lemma {:induction false} GlueLast(before: seq<string>, after: seq<string>, c: char, breaks: string)
    requires |before| == |after| == 1 + |breaks|
    requires Finished(after) == Finished(before) && Last(after) == Last(before) + [c]
    ensures Glue(after, breaks) == Glue(before, breaks) + [c]
  {
    if breaks != [] {
      var front := Glue(Finished(before), breaks[..|breaks| - 1]) + [breaks[|breaks| - 1]];
      assert front + (Last(before) + [c]) == front + Last(before) + [c];
    }
  }

  /** The break bytes of a stream, in order. */
  function Breaks(s: string): string {
    if s == [] then []
    else Breaks(s[..|s| - 1]) + if Break(s[|s| - 1]) then [s[|s| - 1]] else []
  }

  /** Stretches with their break bytes put back between them. */
  function Glue(segments: seq<string>, breaks: string): string
    requires |segments| == 1 + |breaks|
  {
    if breaks == [] then segments[0]
    else Glue(segments[..|segments| - 1], breaks[..|breaks| - 1]) + [breaks[|breaks| - 1]] + Last(segments)
  }

  lemma {:induction false} AppendNext(before: string, p: string, i: nat)
    requires i < |p|
    ensures before + p[..i] + [p[i]] == before + p[..i + 1]
  {
  }

  class EventWriter {
    var pending: string
    var output: string
    var emitted: seq<string>      // what the emit callback has received, in order
    ghost var written: string     // every byte of every Write so far
    ghost var heard: string       // the same bytes with a line end for every flush

    ghost predicate Valid()
      reads this
    {
      && output == (if |written| <= KEEP then written else written[..KEEP])
      && emitted == Emitted(heard)
      && pending == Waiting(heard)
    }

    constructor ()
      ensures Valid() && written == heard == [] && emitted == []
    {
      pending, output, emitted, written, heard := [], [], [], [], [];
    }

    method Write(p: string)
      requires Valid()
      modifies this
      ensures Valid() && written == old(written) + p && heard == old(heard) + p
    {
      hide Emitted, Waiting;
      Retain(p);
      for i := 0 to |p|
        invariant Valid() && written == old(written) + p && heard == old(heard) + p[..i]
      {
        AppendNext(old(heard), p, i);
        Take(p[i]);
      }
      assert p[..|p|] == p;
    }

    /** The part of Write that keeps diagnostics bounded. */
    method Retain(p: string)
      requires Valid()
      modifies `output, `written
      ensures Valid() && written == old(written) + p
    {
      if |output| < KEEP {
        var room := KEEP - |output|;
        var fit := if |p| < room then |p| else room;
        assert (written + p)[..|written| + fit] == written + p[..fit];
        output := output + p[..fit];
      } else {
        assert (written + p)[..KEEP] == written[..KEEP];
      }
      written := written + p;
    }

    /** The body of Write's loop: one byte. */
    method Take(c: char)
      requires Valid()
      modifies `pending, `emitted, `heard
      ensures Valid() && heard == old(heard) + [c]
    {
      OneByte(heard, c);
      if Break(c) {
        if pending != [] {
          emitted := emitted + [pending];
          pending := [];
        }
      } else if |pending| < WIDTH {
        pending := pending + [c];
      }
      heard := heard + [c];
    }

    /** After a flush the callback has received every line of everything heard, the unfinished one included. */
    method Flush()
      requires Valid()
      modifies this
      ensures Valid() && written == old(written) && heard == old(heard) + ['\n']
      ensures emitted == Lines(old(heard)) && pending == []
    {
      AllLines(heard);
      OneByte(heard, '\n');
      if pending != [] {
        emitted := emitted + [pending];
        pending := [];
      }
      heard := heard + ['\n'];
    }
  }

  function Concat(chunks: seq<string>): string {
    if chunks == [] then [] else Concat(chunks[..|chunks| - 1]) + chunks[|chunks| - 1]
  }

  /** However a stream is cut into writes, the lines and the kept output are those of the whole stream. */
  method Run(chunks: seq<string>) returns (lines: seq<string>, kept: string)
    ensures lines == Lines(Concat(chunks))
    ensures kept == if |Concat(chunks)| <= KEEP then Concat(chunks) else Concat(chunks)[..KEEP]
  {
    var sink := new EventWriter();
    for i := 0 to |chunks|
      invariant sink.Valid() && sink.written == sink.heard == Concat(chunks[..i])
    {
      sink.Write(chunks[i]);
      assert chunks[..i + 1][..i] == chunks[..i];
    }
    assert chunks[..|chunks|] == chunks;
    sink.Flush();
    lines, kept := sink.emitted, sink.output;
  }
}
