/** The remote run over time: what any sequence of runs, crashes and changes by others keeps. */
module UploadHistory {
  import opened Text
  import opened Manifests
  import opened Container
  import opened Retention
  import opened Sending
  import opened Upload

  /** One scheduled run, or what others do in the container in between, or a new process after a crash. */
  datatype Event = Run(db: Local, rec: Local, days: int, keep: int) | Others | Restart

  function RunsIn(events: seq<Event>): seq<Event> {
    if events == [] then []
    else
      var front, last := RunsIn(events[..|events| - 1]), events[|events| - 1];
      if last.Run? then front + [last] else front
  }

  /** What is ours is the same. */
  ghost predicate SameOurs(before: Blobs, after: Blobs, us: string) {
    && (forall k :: Ours(after, us, k) <==> Ours(before, us, k))
    && (forall k | Ours(after, us, k) :: after[k] == before[k])
  }

  /** Successive runs: time goes on, and between two of them nobody touches what is ours. */
  ghost predicate Chronicle(trace: seq<Passage>, us: string) {
    && (forall i | 0 <= i < |trace| :: Passes(trace[i], us))
    && (|trace| > 0 ==> forall k :: !Ours(trace[0].before, us, k))
    && (forall i | 0 < i < |trace| ::
          trace[i - 1].ended <= trace[i].begun && SameOurs(trace[i - 1].after, trace[i].before, us))
  }

  /** In the first `n` runs the local copy of this name, when there is one, says that it was published at `t`. */
  ghost predicate Dated(trace: seq<Passage>, n: nat, us: string, name: string, t: int)
    requires n <= |trace|
  {
    forall i | 0 <= i < n && Whole(trace[i].rec, us, name) ::
      Note(trace[i].rec, us, name).published == Some(t) && t <= trace[i].begun
  }

  /** A copy of ours reached the container no earlier than at `t`. */
  ghost predicate NotBefore(blobs: Blobs, us: string, name: string, t: int) {
    Ours(blobs, us, CopyKey(name)) ==> blobs[CopyKey(name)].modified.Some? && t <= blobs[CopyKey(name)].modified.value
  }

  lemma {:induction false} TimeGoesOn(trace: seq<Passage>, us: string, i: nat, j: nat)
    requires Chronicle(trace, us) && i < j < |trace|
    ensures trace[i].ended <= trace[j].begun
  {
    if i < j - 1 {
      TimeGoesOn(trace, us, i, j - 1);
      assert Passes(trace[j - 1], us);
    }
  }

  /** As long as the copies of a name carry one publication time, its remote copy is no older than that. */
  lemma {:induction false} CopiesAge(trace: seq<Passage>, us: string, i: nat, name: string, t: int)
    requires Chronicle(trace, us) && i < |trace| && Dated(trace, i + 1, us, name, t)
    ensures NotBefore(trace[i].before, us, name, t) && NotBefore(trace[i].between, us, name, t)
    ensures NotBefore(trace[i].after, us, name, t)
  {
    hide Whole, IsDue;
    var p := trace[i];
    assert Passes(p, us);
    if i > 0 {
      CopiesAge(trace, us, i - 1, name, t);
      assert SameOurs(trace[i - 1].after, p.before, us);
    }
    assert name in p.tried ==> IsDue(p.rec, us, Cutoff(p.begun, p.days), name);
    DueIsWhole(p.rec, us, Cutoff(p.begun, p.days), name);
  }

  lemma {:induction false} DueIsWhole(rec: Local, us: string, cutoff: Option<int>, name: string)
    ensures IsDue(rec, us, cutoff, name) ==> Whole(rec, us, name) && !TooOld(Note(rec, us, name), cutoff)
  {
  }

  /** A recording that a run removes was published before the period of that run. */
  lemma {:induction false} RemovedIsOld(trace: seq<Passage>, us: string, i: nat, name: string, t: int)
    requires Chronicle(trace, us) && i < |trace| && Dated(trace, i + 1, us, name, t) && name in trace[i].removed
    ensures t < trace[i].ended - trace[i].days * DAY
  {
    hide Whole, SendsSo;
    CopiesAge(trace, us, i, name, t);
    assert Passes(trace[i], us);
  }

  /**
   * A recording that expired is not even tried again by any later run with a period no longer than the one it expired
   * under, provided its local copy keeps saying when it was published and that this is not in the future.
   */
  lemma {:induction false} ExpiredIsNotSent(trace: seq<Passage>, us: string, i: nat, j: nat, name: string, t: int)
    requires Chronicle(trace, us) && i < j < |trace| && Dated(trace, j + 1, us, name, t)
    requires name in trace[i].removed && 0 < trace[j].days <= trace[i].days
    ensures name !in trace[j].tried
  {
    hide Whole, IsDue, TooOld;
    var p, q := trace[i], trace[j];
    RemovedIsOld(trace, us, i, name, t);
    TimeGoesOn(trace, us, i, j);
    assert Passes(q, us) && q.days * DAY <= p.days * DAY;
    DueIsWhole(q.rec, us, Cutoff(q.begun, q.days), name);
    PublishedIsPast(q.rec, us, q.begun, q.days, name, t);
    assert name in q.tried ==> IsDue(q.rec, us, Cutoff(q.begun, q.days), name);
  }

  lemma {:induction false} PublishedIsPast(rec: Local, us: string, now: int, days: int, name: string, t: int)
    requires Whole(rec, us, name) ==> Note(rec, us, name).published == Some(t)
    requires days > 0 && t < now - days * DAY
    ensures Whole(rec, us, name) ==> TooOld(Note(rec, us, name), Cutoff(now, days))
  {
    hide Whole;
  }

  /** It stays away as long as no later run has a longer period. */
  lemma {:induction false} ExpiredStaysAway(trace: seq<Passage>, us: string, i: nat, j: nat, name: string, t: int)
    requires Chronicle(trace, us) && i <= j < |trace| && Dated(trace, j + 1, us, name, t) && name in trace[i].removed
    requires forall k | i < k <= j :: 0 < trace[k].days <= trace[i].days
    ensures !Ours(trace[j].after, us, CopyKey(name))
  {
    hide Whole, IsDue;
    assert Passes(trace[j], us);
    if i < j {
      ExpiredStaysAway(trace, us, i, j - 1, name, t);
      ExpiredIsNotSent(trace, us, i, j, name, t);
      assert SameOurs(trace[j - 1].after, trace[j].before, us);
    }
  }

  lemma {:induction false} OneMoreRun(trace: seq<Passage>, p: Passage, us: string)
    requires Chronicle(trace, us) && Passes(p, us)
    requires if trace == [] then forall k :: !Ours(p.before, us, k)
             else trace[|trace| - 1].ended <= p.begun && SameOurs(trace[|trace| - 1].after, p.before, us)
    ensures Chronicle(trace + [p], us)
  {
    hide Passes, SameOurs, Ours;
    var more := trace + [p];
    forall i | 0 < i < |more|
      ensures more[i - 1].ended <= more[i].begun && SameOurs(more[i - 1].after, more[i].before, us)
    {
      assert i < |trace| ==> more[i] == trace[i];
    }
  }

  lemma {:induction false} OursTwice(a: Blobs, b: Blobs, c: Blobs, us: string)
    requires SameOurs(a, b, us) && SameOurs(b, c, us)
    ensures SameOurs(a, c, us)
  {
  }

  lemma {:induction false} NextRuns(events: seq<Event>, i: nat)
    requires i < |events|
    ensures RunsIn(events[..i + 1]) == if events[i].Run? then RunsIn(events[..i]) + [events[i]] else RunsIn(events[..i])
  {
    assert events[..i + 1][..i] == events[..i];
  }

  /**
   * Others add, replace and remove objects that do not carry this deployment's marker, and do not write in its name.
   */
  method Elsewhere(c: Store)
    requires Sound(c.blobs, c.us)
    modifies c`blobs, c`now
    ensures Sound(c.blobs, c.us) && old(c.now) <= c.now && SameOurs(old(c.blobs), c.blobs, c.us)
  {
    var theirs: Blobs, waits: nat := *, *;
    c.now := c.now + waits;
    var ours := map k | k in c.blobs && c.blobs[k].owner == c.us :: c.blobs[k];
    var others := map k | k in theirs && theirs[k].owner != c.us
                          && (theirs[k].body.Record? ==> theirs[k].body.manifest.deployment != c.us) :: theirs[k];
    ghost var before := c.blobs;
    c.blobs := others + ours;
    forall k | k in c.blobs && k.DataKey? && c.blobs[k].owner == c.us
      ensures SoundData(c.blobs, c.us, k)
    {
      assert SoundData(before, c.us, k);
    }
    forall k | k in c.blobs && k.NoteKey? && c.blobs[k].owner == c.us
      ensures SoundNote(c.blobs, c.us, k)
    {
      assert SoundNote(before, c.us, k);
    }
  }

  /** The passages are those of the runs among the events, in order. */
  ghost predicate PassagesOf(trace: seq<Passage>, runs: seq<Event>) {
    |trace| == |runs|
    && forall i | 0 <= i < |trace| :: runs[i].Run? && trace[i].rec == runs[i].rec && trace[i].days == runs[i].days
  }

  /** No run sends what an earlier one removed, unless its period is longer or there is none. */
  ghost predicate NothingComesBack(trace: seq<Passage>, us: string) {
    forall i, j, n, t | 0 <= i < j < |trace| :: StaysOut(trace, us, i, j, n, t)
  }

  ghost predicate StaysOut(trace: seq<Passage>, us: string, i: nat, j: nat, name: string, t: int)
    requires i < j < |trace|
  {
    name in trace[i].removed && 0 < trace[j].days <= trace[i].days && Dated(trace, j + 1, us, name, t) ==>
      name !in trace[j].tried
  }

  /**
   * Any sequence of runs, each with its own files, period and count, of crashes and of changes by others, from a
   * container that holds nothing of ours: in every state the completion contract holds, and no run sends a recording
   * that an earlier run expired.
   */
  method Lifetime(c: Store, events: seq<Event>) returns (ghost trace: seq<Passage>)
    requires Sound(c.blobs, c.us) && forall k :: !Ours(c.blobs, c.us, k)
    modifies c
    ensures Sound(c.blobs, c.us) && CompleteMeansWhole(c.blobs, c.us)
    ensures PassagesOf(trace, RunsIn(events)) && Chronicle(trace, c.us) && NothingComesBack(trace, c.us)
    ensures |trace| > 0 ==> SameOurs(trace[|trace| - 1].after, c.blobs, c.us)
  {
    hide Sound, Verify, CompleteMeansWhole, Chronicle, Passes, NothingComesBack, Ours, Dated, SameOurs;
    trace := [];
    NothingYet(c.blobs, c.us);
    for i := 0 to |events|
      invariant Sound(c.blobs, c.us) && PassagesOf(trace, RunsIn(events[..i])) && Chronicle(trace, c.us)
      invariant if trace == [] then forall k :: !Ours(c.blobs, c.us, k)
                else trace[|trace| - 1].ended <= c.now && SameOurs(trace[|trace| - 1].after, c.blobs, c.us)
    {
      NextRuns(events, i);
      match events[i] {
        case Run(db, rec, days, keep) =>
          var database, recordings, past, sent, ok;
          ghost var checks, p, dbUnread, unread := [], *, {}, {};
          database, recordings, past, sent, ok, checks, p, dbUnread, unread := Upload.Upload(c, db, rec, days, keep);
          OneMoreRun(trace, p, c.us);
          OursAsBefore(c.blobs, c.us);
          trace := trace + [p];
        case Others =>
          ghost var before := c.blobs;
          Elsewhere(c);
          StillOurs(before, c.blobs, c.us);
          if trace != [] {
            OursTwice(trace[|trace| - 1].after, before, c.blobs, c.us);
          }
        case Restart => c.killed := false;
      }
    }
    assert events[..|events|] == events;
    AllStayAway(trace, c.us);
    AllAreWhole(c.blobs, c.us);
  }

  /** Whatever verifies holds exactly the bytes whose digest and size its manifest records. */
  ghost predicate CompleteMeansWhole(blobs: Blobs, us: string) {
    forall a, n | Verify(blobs, us, a, n).Complete? ::
      var m, data := Verify(blobs, us, a, n).manifest, blobs[DataKey(a, n)].body;
      data.Raw? && m.digest == Sha(data.bytes) && m.size == |data.bytes| && m.deployment == us
  }

  lemma {:induction false} AllAreWhole(blobs: Blobs, us: string)
    requires Sound(blobs, us)
    ensures CompleteMeansWhole(blobs, us)
  {
    hide Sound;
    forall a, n | Verify(blobs, us, a, n).Complete?
      ensures var m, data := Verify(blobs, us, a, n).manifest, blobs[DataKey(a, n)].body;
              data.Raw? && m.digest == Sha(data.bytes) && m.size == |data.bytes| && m.deployment == us
    {
      CompleteIsWhole(blobs, us, a, n);
    }
  }

  lemma {:induction false} NothingYet(blobs: Blobs, us: string)
    ensures Chronicle([], us)
  {
  }

  lemma {:induction false} OursAsBefore(blobs: Blobs, us: string)
    ensures SameOurs(blobs, blobs, us)
  {
  }

  lemma {:induction false} StillOurs(before: Blobs, after: Blobs, us: string)
    requires SameOurs(before, after, us)
    ensures (forall k :: !Ours(before, us, k)) ==> forall k :: !Ours(after, us, k)
  {
  }

  lemma {:induction false} AllStayAway(trace: seq<Passage>, us: string)
    requires Chronicle(trace, us)
    ensures NothingComesBack(trace, us)
  {
    hide Chronicle, Dated;
    forall i, j, n, t | 0 <= i < j < |trace|
      ensures StaysOut(trace, us, i, j, n, t)
    {
      if n in trace[i].removed && 0 < trace[j].days <= trace[i].days && Dated(trace, j + 1, us, n, t) {
        ExpiredIsNotSent(trace, us, i, j, n, t);
      }
    }
  }
}
