/** Remote retention: backups by count (internal/azure/prune.go), recordings by age (internal/azure/expire.go). */
module Retention {
  import opened Text
  import opened Ordering
  import opened Manifests
  import opened Container

  const DAY := 86400

  // --- checking one object -----------------------------------------------

  /** What happened while one object was read: nothing, the first read failed, the manifest read was refused or lost. */
  datatype Luck = Fine | HeadFailed | NoteRefused | NoteLost

  /** What a run concludes about one object. */
  datatype Answer = Judged(verdict: Verdict) | Unchecked

  /** A manifest read that gets no answer at all counts as a manifest that does not decode. */
  function Conclude(luck: Luck, verdict: Verdict): Answer {
    match luck
    case Fine => Judged(verdict)
    case HeadFailed => Unchecked
    case NoteRefused => Unchecked
    case NoteLost => Judged(Incomplete)
  }

  ghost predicate About(heard: Readings, name: string) {
    && 1 <= |heard| <= 2 && heard[0].0 == DataKey(Database, name)
    && (|heard| == 2 ==> heard[1].0 == NoteKey(Database, name))
  }

  function LuckOf(heard: Readings): Luck {
    if heard == [] then Fine
    else if heard[0].1.Refused? || heard[0].1.Lost? then HeadFailed
    else if |heard| == 1 then Fine
    else if heard[1].1.Refused? then NoteRefused
    else if heard[1].1.Lost? then NoteLost
    else Fine
  }

  /** verifiedBackup: the answer is the true verdict, but for what the readings it made came to. */
  method VerifiedBackup(c: Store, name: string) returns (a: Answer, ghost heard: Readings)
    modifies c`killed, c`now, c`log, c`faults
    ensures (old(c.killed) ==> c.killed) && old(c.now) <= c.now
    ensures c.log == old(c.log) + heard && About(heard, name) && old(c.faults) <= c.faults
    ensures LuckOf(heard) == Fine || Blamed(old(c.faults), c.faults, Database, name)
    ensures a == Conclude(LuckOf(heard), Verify(c.blobs, c.us, Database, name))
  {
    hide Blamed;
    assert c.faults + [] == c.faults;
    BlamedNow(c.faults, c.faults, Database, name);
    var data := c.Get(DataKey(Database, name));
    heard := [(DataKey(Database, name), data)];
    match data {
      case Absent => return Judged(Incomplete), heard;
      case Refused => return Unchecked, heard;
      case Lost => return Unchecked, heard;
      case Seen(_) =>
    }
    if data.value.owner != c.us {
      return Judged(NotOwned), heard;
    }
    var note := c.Get(NoteKey(Database, name));
    heard := heard + [(NoteKey(Database, name), note)];
    match note {
      case Absent => a := Judged(Incomplete);
      case Refused => a := Unchecked;
      case Lost => a := Judged(Incomplete);
      case Seen(blob) =>
        a := Judged(if blob.body.Raw? then Incomplete else Judge(blob.body.manifest, data.value, c.us, name));
    }
  }

  // --- counting ----------------------------------------------------------

  /** One listed object, the readings made of it, and what was concluded. */
  datatype Check = Check(name: string, heard: Readings, answer: Answer)

  /** What checking every listed object yields. */
  datatype Count = Count(complete: seq<Stamp>, notOwned: seq<string>, failed: seq<string>, unchecked: nat)

  /** How one object enters the count. */
  function Enter(n: Count, name: string, a: Answer): Count {
    match a
    case Unchecked => n.(unchecked := n.unchecked + 1, failed := n.failed + [name])
    case Judged(NotOwned) => n.(notOwned := n.notOwned + [name])
    case Judged(Incomplete) => n.(failed := n.failed + [name])
    case Judged(Complete(m)) => n.(complete := n.complete + [Stamp(m.published.GetOr(0), 0, name)])
  }

  function Counted(trace: seq<Check>): Count {
    if trace == [] then Count([], [], [], 0)
    else
      var t := trace[|trace| - 1];
      Enter(Counted(trace[..|trace| - 1]), t.name, t.answer)
  }

  /** Every object ends up in exactly one place. */
  lemma {:induction false} CountedTotal(trace: seq<Check>)
    ensures var n := Counted(trace);
            |n.complete| + |n.notOwned| + |n.failed| == |trace| && n.unchecked <= |n.failed|
  {
    if trace != [] {
      CountedTotal(trace[..|trace| - 1]);
    }
  }

  lemma {:induction false} CountedNotOwned(trace: seq<Check>, blobs: Blobs, us: string)
    requires Truthful(trace, blobs, us)
    ensures forall n | n in Counted(trace).notOwned :: Verify(blobs, us, Database, n) == NotOwned
  {
    hide Verify;
    if trace != [] {
      var front, t := trace[..|trace| - 1], trace[|trace| - 1];
      assert forall u | u in front :: u in trace;
      CountedNotOwned(front, blobs, us);
      assert t in trace;
    }
  }

  lemma {:induction false} CountedUnchecked(trace: seq<Check>)
    ensures Counted(trace).unchecked > 0 <==> exists t :: t in trace && t.answer == Unchecked
  {
    if trace != [] {
      var front, t := trace[..|trace| - 1], trace[|trace| - 1];
      CountedUnchecked(front);
      assert trace == front + [t];
    }
  }

  /** A check that counts its object under this stamp. */
  predicate Counts(t: Check, x: Stamp) {
    && t.answer.Judged? && t.answer.verdict.Complete?
    && x == Stamp(t.answer.verdict.manifest.published.GetOr(0), 0, t.name)
  }

  lemma {:induction false} CountedComplete(trace: seq<Check>, x: Stamp)
    ensures x in Counted(trace).complete <==> exists t :: t in trace && Counts(t, x)
  {
    if trace != [] {
      var front, t := trace[..|trace| - 1], trace[|trace| - 1];
      CountedComplete(front, x);
      var before, after := Counted(front).complete, Counted(trace).complete;
      assert x in after <==> x in before || Counts(t, x);
      if x in before {
        var u :| u in front && Counts(u, x);
        assert u in trace;
      }
      assert trace == front + [t];
    }
  }

  /** Checks of different objects. */
  ghost predicate Apart(trace: seq<Check>) {
    forall i, j | 0 <= i < j < |trace| :: trace[i].name != trace[j].name
  }

  lemma {:induction false} CountedDistinct(trace: seq<Check>)
    requires Apart(trace)
    ensures Distinct(Counted(trace).complete)
  {
    if trace != [] {
      var front, t := trace[..|trace| - 1], trace[|trace| - 1];
      CountedDistinct(front);
      var before, after := Counted(front).complete, Counted(trace).complete;
      if after != before {
        var x := after[|after| - 1];
        CountedComplete(front, x);
        DistinctAppend(before, x);
      }
    }
  }

  /** The answers a run gets are the truth about what is stored, as far as its readings went well. */
  ghost predicate Truthful(trace: seq<Check>, blobs: Blobs, us: string) {
    forall t | t in trace ::
      About(t.heard, t.name) && t.answer == Conclude(LuckOf(t.heard), Verify(blobs, us, Database, t.name))
  }

  ghost predicate AllFine(trace: seq<Check>) {
    forall t | t in trace :: LuckOf(t.heard) == Fine
  }

  /** What a run checks is there, and is checked once. */
  ghost predicate Among(trace: seq<Check>, blobs: Blobs) {
    Apart(trace) && forall t | t in trace :: DataKey(Database, t.name) in blobs
  }

  /** Every data blob of the database area is checked. */
  ghost predicate Covers(trace: seq<Check>, blobs: Blobs) {
    forall k | k in blobs && k.DataKey? && k.area == Database :: exists t :: t in trace && t.name == k.name
  }

  /** Everything was listed and every reading went well. */
  ghost predicate Undisturbed(trace: seq<Check>, blobs: Blobs) {
    AllFine(trace) && Covers(trace, blobs)
  }

  /** What is counted is held, and when everything was listed and read well, all that is held is counted. */
  lemma {:induction false} CountedIsHeld(blobs: Blobs, us: string, trace: seq<Check>)
    requires Truthful(trace, blobs, us)
    ensures Elements(Counted(trace).complete) <= Held(blobs, us)
    ensures Undisturbed(trace, blobs) ==> Elements(Counted(trace).complete) == Held(blobs, us)
  {
    forall x: Stamp
      ensures x in Counted(trace).complete ==> x in Held(blobs, us)
      ensures Undisturbed(trace, blobs) && x in Held(blobs, us) ==> x in Counted(trace).complete
    {
      CountedComplete(trace, x);
      HeldByName(blobs, us, x);
      if Undisturbed(trace, blobs) && x in Held(blobs, us) {
        assert DataKey(Database, x.name) in blobs;
        var t :| t in trace && t.name == x.name;
        assert Counts(t, x);
      }
    }
  }

  /** Nothing is removed when an object could not be checked; otherwise the complete ones beyond the newest `keep`. */
  function Doomed(n: Count, keep: nat): seq<Stamp> {
    if n.unchecked > 0 || |n.complete| <= keep then [] else SortNewest(n.complete)[keep..]
  }

  /**
   * Whatever was listed and however the readings went, what a run removes lies beyond the newest `keep` of all that is
   * held.
   */
  lemma {:induction false} DoomedIsBeyond(blobs: Blobs, us: string, trace: seq<Check>, keep: nat)
    requires Truthful(trace, blobs, us) && Apart(trace)
    ensures var doomed := Doomed(Counted(trace), keep);
            && Distinct(doomed) && Elements(doomed) <= Held(blobs, us) - Newest(Held(blobs, us), keep)
            && (Undisturbed(trace, blobs) ==> Elements(doomed) == Held(blobs, us) - Newest(Held(blobs, us), keep))
  {
    hide Verify, Held;
    var n := Counted(trace);
    CountedIsHeld(blobs, us, trace);
    CountedDistinct(trace);
    CountedUnchecked(trace);
    SortedIsSorted(n.complete);
    var q := SortNewest(n.complete);
    SortedIsDistinct(q);
    if |q| > keep {
      BeyondIsBeyond(q, Held(blobs, us), keep);
    } else {
      CutIsNewest(q, keep);
      assert q[..|q|] == q;
    }
  }

  /** Some first reading failed, or some manifest reading was refused. */
  ghost predicate CannotTell(trace: seq<Check>) {
    exists t :: t in trace && LuckOf(t.heard) in {HeadFailed, NoteRefused}
  }

  /** When a run withholds: exactly when some first reading failed or some manifest reading was refused. */
  lemma {:induction false} WithheldExactly(blobs: Blobs, us: string, trace: seq<Check>)
    requires Truthful(trace, blobs, us)
    ensures Counted(trace).unchecked > 0 <==> CannotTell(trace)
  {
    hide Verify;
    CountedUnchecked(trace);
  }

  /** One whole backup with empty content, published at a given time. */
  function SampleNote(us: string, name: string, at: int): Manifest {
    Manifest(MANIFEST_VERSION, us, name, 0, Sha([]), Some(at))
  }

  function Sample(us: string, name: string, at: int): Blobs {
    map[DataKey(Database, name) := Blob(Raw([]), us, Sha([]), Some(at)),
        NoteKey(Database, name) := Blob(Record(SampleNote(us, name, at), 1), us, Sha([]), Some(at))]
  }

  lemma {:induction false} SampleIsComplete(others: Blobs, us: string, name: string, at: int)
    requires '/' !in name && Sound(others, us)
    ensures var blobs := others + Sample(us, name, at);
            Sound(blobs, us) && Verify(blobs, us, Database, name) == Complete(SampleNote(us, name, at))
  {
    var blobs := others + Sample(us, name, at);
    forall k | k in blobs && k.DataKey? && blobs[k].owner == us
      ensures SoundData(blobs, us, k)
    {
      assert k in others && k != DataKey(Database, name) ==> SoundData(others, us, k);
    }
    forall k | k in blobs && k.NoteKey? && blobs[k].owner == us
      ensures SoundNote(blobs, us, k)
    {
      assert k in others && k != NoteKey(Database, name) ==> SoundNote(others, us, k);
    }
  }

  lemma {:induction false} CountOfThree(trace: seq<Check>, x: Manifest, y: Manifest)
    requires |trace| == 3 && trace[0].answer == Judged(Complete(x)) && trace[1].answer == Judged(Complete(y))
    requires trace[2].answer == Judged(Incomplete)
    ensures |Counted(trace).complete| == 2 && Counted(trace).unchecked == 0
  {
    assert trace[..2][..1] == trace[..1] && trace[..1][..0] == [];
    assert |Counted(trace[..1]).complete| == 1;
    assert |Counted(trace[..2]).complete| == 2;
  }

  lemma {:induction false} ThreeSamples(us: string) returns (blobs: Blobs)
    ensures Sound(blobs, us)
    ensures blobs.Keys == Sample(us, "a", 1).Keys + Sample(us, "b", 2).Keys + Sample(us, "c", 3).Keys
    ensures Verify(blobs, us, Database, "a") == Complete(SampleNote(us, "a", 1))
    ensures Verify(blobs, us, Database, "b") == Complete(SampleNote(us, "b", 2))
    ensures Verify(blobs, us, Database, "c") == Complete(SampleNote(us, "c", 3))
  {
    hide Verify, Sound;
    var one := map[] + Sample(us, "a", 1);
    var two := one + Sample(us, "b", 2);
    SoundWhenEmpty(us);
    SampleIsComplete(map[], us, "a", 1);
    SampleIsComplete(one, us, "b", 2);
    SampleIsComplete(two, us, "c", 3);
    blobs := two + Sample(us, "c", 3);
    VerdictIsLocal(blobs, one, us, Database, "a");
    VerdictIsLocal(blobs, two, us, Database, "b");
  }

  lemma {:induction false} SoundWhenEmpty(us: string)
    ensures Sound(map[], us)
  {
  }

  /** The readings of one of these backups, when both get through. */
  ghost function ReadWell(blobs: Blobs, name: string): Readings
    requires DataKey(Database, name) in blobs && NoteKey(Database, name) in blobs
  {
    [(DataKey(Database, name), Seen(blobs[DataKey(Database, name)])),
     (NoteKey(Database, name), Seen(blobs[NoteKey(Database, name)]))]
  }

  /** The manifest's reading gets no answer. */
  ghost function ReadLost(blobs: Blobs, name: string): Readings
    requires DataKey(Database, name) in blobs && NoteKey(Database, name) in blobs
  {
    ReadWell(blobs, name)[1 := (NoteKey(Database, name), Lost)]
  }

  lemma {:induction false} LuckOfReading(blobs: Blobs, name: string)
    requires DataKey(Database, name) in blobs && NoteKey(Database, name) in blobs
    ensures About(ReadWell(blobs, name), name) && LuckOf(ReadWell(blobs, name)) == Fine
    ensures About(ReadLost(blobs, name), name) && LuckOf(ReadLost(blobs, name)) == NoteLost
  {
  }

  lemma {:induction false} ChecksOfThree(trace: seq<Check>, blobs: Blobs, us: string)
    requires blobs.Keys == Sample(us, "a", 1).Keys + Sample(us, "b", 2).Keys + Sample(us, "c", 3).Keys
    requires |trace| == 3 && trace[0].name == "a" && trace[1].name == "b" && trace[2].name == "c"
    ensures Among(trace, blobs) && Covers(trace, blobs)
  {
    assert trace[0] in trace && trace[1] in trace && trace[2] in trace;
  }

  /**
   * A manifest reading that got no answer does not make a run withhold: with these three backups and `keep` 1, the
   * newest one's reading is lost and the oldest is removed all the same.
   */
  lemma {:induction false} LostReadingDoesNotWithhold(us: string) returns (blobs: Blobs, trace: seq<Check>)
    ensures Sound(blobs, us) && {Stamp(1, 0, "a"), Stamp(2, 0, "b"), Stamp(3, 0, "c")} <= Held(blobs, us)
    ensures Truthful(trace, blobs, us) && Among(trace, blobs) && Covers(trace, blobs)
    ensures Doomed(Counted(trace), 1) != []
    ensures |trace| == 3 && LuckOf(trace[0].heard) == LuckOf(trace[1].heard) == Fine
    ensures LuckOf(trace[2].heard) == NoteLost
  {
    hide Verify, Sound, Held, ReadWell, ReadLost, About, LuckOf, Among, Covers, Counted, SortNewest;
    blobs := ThreeSamples(us);
    LuckOfReading(blobs, "a");
    LuckOfReading(blobs, "b");
    LuckOfReading(blobs, "c");
    trace := [Check("a", ReadWell(blobs, "a"), Judged(Complete(SampleNote(us, "a", 1)))),
              Check("b", ReadWell(blobs, "b"), Judged(Complete(SampleNote(us, "b", 2)))),
              Check("c", ReadLost(blobs, "c"), Judged(Incomplete))];
    CountOfThree(trace, SampleNote(us, "a", 1), SampleNote(us, "b", 2));
    HeldByName(blobs, us, Stamp(1, 0, "a"));
    HeldByName(blobs, us, Stamp(2, 0, "b"));
    HeldByName(blobs, us, Stamp(3, 0, "c"));
    ChecksOfThree(trace, blobs, us);
  }

  // --- the run -----------------------------------------------------------

  datatype PruneReport = PruneReport(removed: seq<string>, kept: nat, notOwned: seq<string>, failed: seq<string>,
                                     withheld: bool)

  const NOTHING := PruneReport([], 0, [], [], false)

  ghost function Checked(trace: seq<Check>): set<string> {
    set t | t in trace :: t.name
  }

  ghost function DataOf(listed: seq<Key>): set<string> {
    set k | k in listed && k.DataKey? :: k.name
  }

  /** The checks made so far are those of the data blobs among the keys listed so far. */
  ghost predicate Follows(trace: seq<Check>, listed: seq<Key>) {
    Apart(trace) && Checked(trace) == DataOf(listed)
  }

  lemma {:induction false} FollowsAtFirst()
    ensures Follows([], [])
  {
  }

  lemma {:induction false} OneMoreCheck(trace: seq<Check>, blobs: Blobs, us: string, t: Check)
    requires Truthful(trace, blobs, us) && About(t.heard, t.name)
    requires t.answer == Conclude(LuckOf(t.heard), Verify(blobs, us, Database, t.name))
    ensures Truthful(trace + [t], blobs, us)
    ensures Counted(trace + [t]) == Enter(Counted(trace), t.name, t.answer)
    ensures Heard(trace + [t]) == Heard(trace) + t.heard
  {
    hide Verify;
    assert (trace + [t])[..|trace|] == trace;
  }

  /** All the readings behind these checks, in order. */
  ghost function Heard(trace: seq<Check>): Readings {
    if trace == [] then [] else Heard(trace[..|trace| - 1]) + trace[|trace| - 1].heard
  }

  /** A reading that did not go well is one of these faults. */
  ghost predicate Excused(trace: seq<Check>, before: seq<Fault>, after: seq<Fault>) {
    forall t | t in trace :: LuckOf(t.heard) == Fine || Blamed(before, after, Database, t.name)
  }

  lemma {:induction false} NothingExcused(faults: seq<Fault>)
    ensures Excused([], faults, faults)
  {
  }

  lemma {:induction false} ExcusedLater(trace: seq<Check>, a: seq<Fault>, b: seq<Fault>, c: seq<Fault>)
    requires Excused(trace, a, b) && a <= b <= c
    ensures Excused(trace, a, c)
  {
    hide Blames, LuckOf;
    forall t | t in trace && LuckOf(t.heard) != Fine
      ensures Blamed(a, c, Database, t.name)
    {
      BlamedLater(a, b, c, Database, t.name);
    }
  }

  lemma {:induction false} OneMoreExcused(trace: seq<Check>, t: Check, a: seq<Fault>, b: seq<Fault>, c: seq<Fault>)
    requires Excused(trace, a, b) && a <= b <= c
    requires LuckOf(t.heard) == Fine || Blamed(b, c, Database, t.name)
    ensures Excused(trace + [t], a, c)
  {
    hide Blamed, LuckOf;
    ExcusedLater(trace, a, b, c);
    BlamedLater(a, b, c, Database, t.name);
  }

  /** Without a fault of its own, an object counts as failed only for being incomplete. */
  lemma {:induction false} FailedIsIncomplete(trace: seq<Check>, blobs: Blobs, us: string, before: seq<Fault>,
                                              after: seq<Fault>, name: string)
    requires Truthful(trace, blobs, us) && Excused(trace, before, after) && name in Counted(trace).failed
    ensures Blamed(before, after, Database, name) || Verify(blobs, us, Database, name) == Incomplete
  {
    hide Verify, Blamed;
    var front, t := trace[..|trace| - 1], trace[|trace| - 1];
    assert t in trace && forall u | u in front :: u in trace;
    if name in Counted(front).failed {
      FailedIsIncomplete(front, blobs, us, before, after, name);
    }
  }

  /** A run withholds only if a reading failed. */
  lemma {:induction false} WithheldIsExcused(trace: seq<Check>, before: seq<Fault>, after: seq<Fault>)
    requires Excused(trace, before, after) && CannotTell(trace)
    ensures exists n :: Blamed(before, after, Database, n)
  {
    var t :| t in trace && LuckOf(t.heard) in {HeadFailed, NoteRefused};
    assert Blamed(before, after, Database, t.name);
  }

  lemma {:induction false} NothingIsTruthful(blobs: Blobs, us: string)
    ensures Truthful([], blobs, us)
  {
  }

  lemma {:induction false} DataOfStep(listed: seq<Key>, i: nat, area: Area)
    requires i < |listed| && Distinct(listed) && forall k | k in listed :: k.area == area
    ensures DataOf(listed[..i + 1])
            == if listed[i].DataKey? then DataOf(listed[..i]) + {listed[i].name} else DataOf(listed[..i])
    ensures listed[i].DataKey? ==> listed[i].name !in DataOf(listed[..i])
  {
    TakeStep(listed, i);
    assert forall k :: k in listed[..i + 1] <==> k in listed[..i] || k == listed[i];
    assert forall k | k in listed[..i] :: k != listed[i] && k.area == area;
  }

  lemma {:induction false} OneMoreKey(trace: seq<Check>, listed: seq<Key>, i: nat, area: Area, t: Check)
    requires i < |listed| && Distinct(listed) && forall k | k in listed :: k.area == area
    requires Follows(trace, listed[..i])
    ensures listed[i].NoteKey? ==> Follows(trace, listed[..i + 1])
    ensures listed[i].DataKey? && t.name == listed[i].name ==> Follows(trace + [t], listed[..i + 1])
  {
    DataOfStep(listed, i, area);
    assert forall u :: u in trace + [t] <==> u in trace || u == t;
    assert Checked(trace + [t]) == Checked(trace) + {t.name};
    assert forall u | u in trace :: u.name in Checked(trace);
  }

  /** Checks every listed data blob and sorts it into the count. */
  method CheckAll(c: Store, listed: seq<Key>) returns (n: Count, ghost trace: seq<Check>)
    requires Distinct(listed) && forall k | k in listed :: k.area == Database
    modifies c`killed, c`now, c`log, c`faults
    ensures (old(c.killed) ==> c.killed) && old(c.now) <= c.now && c.log == old(c.log) + Heard(trace)
    ensures Follows(trace, listed) && Truthful(trace, c.blobs, c.us) && n == Counted(trace)
    ensures old(c.faults) <= c.faults && Excused(trace, old(c.faults), c.faults)
  {
    hide Verify, Truthful, Follows, Excused, Blamed;
    NothingExcused(c.faults);
    n, trace := Count([], [], [], 0), [];
    FollowsAtFirst();
    NothingIsTruthful(c.blobs, c.us);
    assert listed[..0] == [];
    for i := 0 to |listed|
      invariant (old(c.killed) ==> c.killed) && old(c.now) <= c.now && c.log == old(c.log) + Heard(trace)
      invariant Follows(trace, listed[..i]) && Truthful(trace, c.blobs, c.us) && n == Counted(trace)
      invariant old(c.faults) <= c.faults && Excused(trace, old(c.faults), c.faults)
    {
      if listed[i].NoteKey? {
        OneMoreKey(trace, listed, i, Database, Check([], [], Unchecked));
        continue;
      }
      var name := listed[i].name;
      ghost var heard;
      var a: Answer;
      ghost var faults := c.faults;
      a, heard := VerifiedBackup(c, name);
      OneMoreExcused(trace, Check(name, heard, a), old(c.faults), faults, c.faults);
      OneMoreCheck(trace, c.blobs, c.us, Check(name, heard, a));
      match a {
        case Unchecked => n := n.(unchecked := n.unchecked + 1, failed := n.failed + [name]);
        case Judged(NotOwned) => n := n.(notOwned := n.notOwned + [name]);
        case Judged(Incomplete) => n := n.(failed := n.failed + [name]);
        case Judged(Complete(m)) => n := n.(complete := n.complete + [Stamp(m.published.GetOr(0), 0, name)]);
      }
      OneMoreKey(trace, listed, i, Database, Check(name, heard, a));
      Regroup(old(c.log), Heard(trace), heard);
      trace := trace + [Check(name, heard, a)];
    }
    assert listed[..|listed|] == listed;
  }

  ghost predicate Within(gone: set<Key>, area: Area, names: set<string>) {
    forall k | k in gone :: k.area == area && k.name in names
  }

  ghost function StampNames(stamps: seq<Stamp>): set<string> {
    NamesOf(Elements(stamps))
  }

  /**
   * Removing parts of some held backups takes at most those backups from what is held, and a removed blob takes its
   * own.
   */
  lemma {:induction false} HeldWithout(blobs: Blobs, us: string, gone: set<Key>, doomed: seq<Stamp>)
    requires Within(gone, Database, StampNames(doomed)) && Elements(doomed) <= Held(blobs, us)
    ensures Held(blobs, us) - Elements(doomed) <= Held(blobs - gone, us) <= Held(blobs, us)
    ensures (forall x | x in doomed :: DataKey(Database, x.name) in gone) ==>
              Held(blobs - gone, us) == Held(blobs, us) - Elements(doomed)
  {
    forall x: Stamp
      ensures x in Held(blobs - gone, us) ==> x in Held(blobs, us)
      ensures x in Held(blobs, us) && x !in doomed ==> x in Held(blobs - gone, us)
      ensures x in doomed && DataKey(Database, x.name) in gone ==> x !in Held(blobs - gone, us)
    {
      HeldByName(blobs, us, x);
      HeldByName(blobs - gone, us, x);
      if x.name in StampNames(doomed) {
        var y :| y in doomed && y.name == x.name;
        assert y in Elements(doomed);
        HeldByName(blobs, us, y);
      } else {
        VerdictIsLocal(blobs, blobs - gone, us, Database, x.name);
      }
    }
  }

  /** What is reported removed is gone, and every blob that is gone is reported, if only as a failure. */
  ghost predicate Told(removed: seq<string>, failed: seq<string>, gone: set<Key>, blobs: Blobs) {
    && (forall n | n in removed :: DataKey(Database, n) in gone)
    && (forall k | k in gone && k.DataKey? :: k in blobs && (k.name in removed || k.name in failed))
  }

  /** The deletions of one run, in order; a failure does not stop the rest. */
  method RemoveDoomed(c: Store, doomed: seq<Stamp>)
    returns (removed: seq<string>, notOwned: seq<string>, failed: seq<string>, ghost gone: set<Key>)
    requires Sound(c.blobs, c.us) && Distinct(doomed) && Elements(doomed) <= Held(c.blobs, c.us)
    modifies c`blobs, c`killed, c`now, c`log, c`faults
    ensures Sound(c.blobs, c.us) && (old(c.killed) ==> c.killed && gone == {}) && old(c.now) <= c.now
    ensures c.blobs == old(c.blobs) - gone && Within(gone, Database, StampNames(doomed)) && old(c.log) <= c.log
    ensures forall k | k in gone :: Ours(old(c.blobs), c.us, k)
    ensures |removed| + |notOwned| + |failed| == |doomed| && notOwned == []
    ensures failed == [] ==> forall x | x in doomed :: PairGone(c.blobs, x.name)
    ensures Told(removed, failed, gone, old(c.blobs))
    ensures old(c.faults) <= c.faults && forall n | n in failed :: Blamed(old(c.faults), c.faults, Database, n)
  {
    hide Sound, Held, StampNames, Blamed;
    removed, notOwned, failed, gone := [], [], [], {};
    for i := 0 to |doomed|
      invariant Sound(c.blobs, c.us) && (old(c.killed) ==> c.killed && gone == {}) && old(c.now) <= c.now
      invariant c.blobs == old(c.blobs) - gone && Within(gone, Database, StampNames(doomed[..i]))
      invariant old(c.log) <= c.log && forall k | k in gone :: Ours(old(c.blobs), c.us, k)
      invariant |removed| + |notOwned| + |failed| == i && notOwned == []
      invariant failed == [] ==> forall x | x in doomed[..i] :: PairGone(c.blobs, x.name)
      invariant Told(removed, failed, gone, old(c.blobs)) && old(c.faults) <= c.faults
      invariant forall n | n in failed :: Blamed(old(c.faults), c.faults, Database, n)
    {
      var name := doomed[i].name;
      DoomedIsOurs(old(c.blobs), c.us, gone, doomed, i);
      TakeStep(doomed, i);
      StampNamesStep(doomed, i);
      ghost var pair, faults := {}, c.faults;
      var fate: Deletion;
      fate, pair := c.RemovePair(Database, name);
      BlamedNow(old(c.faults), faults, Database, name);
      StillBlamed(failed, old(c.faults), faults, c.faults);
      gone := gone + pair;
      match fate {
        case Deleted => removed := removed + [name];
        case Foreign => notOwned := notOwned + [name];
        case NotFound => failed := failed + [name];
        case Failed => failed := failed + [name];
      }
    }
    assert doomed[..|doomed|] == doomed;
  }

  lemma {:induction false} StillBlamed(names: seq<string>, a: seq<Fault>, b: seq<Fault>, c: seq<Fault>)
    requires a <= b <= c && forall n | n in names :: Blamed(a, b, Database, n)
    ensures forall n | n in names :: Blamed(a, c, Database, n)
  {
    hide Blames;
    forall n | n in names
      ensures Blamed(a, c, Database, n)
    {
      BlamedLater(a, b, c, Database, n);
    }
  }

  /** Neither object of this name is left. */
  ghost predicate PairGone(blobs: Blobs, name: string) {
    DataKey(Database, name) !in blobs && NoteKey(Database, name) !in blobs
  }

  lemma {:induction false} StampNamesStep(stamps: seq<Stamp>, i: nat)
    requires i < |stamps|
    ensures StampNames(stamps[..i + 1]) == StampNames(stamps[..i]) + {stamps[i].name}
  {
    TakeStep(stamps, i);
    assert Elements(stamps[..i + 1]) == Elements(stamps[..i]) + {stamps[i]};
  }

  /** Until its turn comes a doomed backup and its manifest are untouched and carry this deployment's marker. */
  lemma {:induction false} DoomedIsOurs(blobs: Blobs, us: string, gone: set<Key>, doomed: seq<Stamp>, i: nat)
    requires Sound(blobs, us) && Distinct(doomed) && Elements(doomed) <= Held(blobs, us) && i < |doomed|
    requires Within(gone, Database, StampNames(doomed[..i]))
    ensures var data, note := DataKey(Database, doomed[i].name), NoteKey(Database, doomed[i].name);
            && data in blobs - gone && (blobs - gone)[data].owner == us
            && note in blobs - gone && (blobs - gone)[note].owner == us
  {
    var x := doomed[i];
    assert x in Elements(doomed);
    HeldByName(blobs, us, x);
    CompleteIsWhole(blobs, us, Database, x.name);
    forall j | 0 <= j < i
      ensures doomed[j].name != x.name
    {
      assert doomed[j] in Elements(doomed);
      HeldByName(blobs, us, doomed[j]);
    }
    assert x.name !in StampNames(doomed[..i]);
  }

  lemma {:induction false} FollowsCovers(trace: seq<Check>, listed: seq<Key>, blobs: Blobs)
    requires Follows(trace, listed) && forall k | k in listed :: k in blobs && k.area == Database
    ensures Among(trace, blobs)
    ensures (forall k | k in blobs && k.area == Database :: k in listed) ==> Covers(trace, blobs)
  {
    forall t | t in trace
      ensures DataKey(Database, t.name) in blobs
    {
      assert t.name in Checked(trace);
      var k :| k in listed && k.DataKey? && k.name == t.name;
      assert k == DataKey(Database, t.name);
    }
    forall k | k in listed && k.DataKey?
      ensures exists t :: t in trace && t.name == k.name
    {
      assert k.name in DataOf(listed);
    }
  }

  /** The names of the held backups beyond the newest `keep`. */
  ghost function Beyond(blobs: Blobs, us: string, keep: nat): set<string> {
    NamesOf(Held(blobs, us) - Newest(Held(blobs, us), keep))
  }

  /**
   * What a count-based run takes away, whatever happens: this deployment's objects of held backups beyond the newest
   * `keep`, and nothing else.
   */
  ghost predicate TakesBeyond(blobs: Blobs, left: Blobs, us: string, keep: nat) {
    && left == blobs - (blobs.Keys - left.Keys)
    && forall k | k in blobs && k !in left ::
         k.area == Database && blobs[k].owner == us && k.name in Beyond(blobs, us, keep)
  }

  /** Exactly those backups are gone, blob and manifest, and exactly those are reported. */
  ghost predicate TookAllBeyond(blobs: Blobs, left: Blobs, us: string, keep: nat, removed: seq<string>) {
    && Elements(removed) == Beyond(blobs, us, keep)
    && forall n | n in Beyond(blobs, us, keep) :: DataKey(Database, n) in blobs && PairGone(left, n)
  }

  /** What the report says is so: the four outcomes total the checked objects, and each says what happened. */
  ghost predicate Accounted(blobs: Blobs, left: Blobs, us: string, trace: seq<Check>, rep: PruneReport, ok: bool) {
    && |rep.removed| + rep.kept + |rep.notOwned| + |rep.failed| == |trace|
    && (rep.withheld <==> CannotTell(trace))
    && (rep.withheld ==> left == blobs && !ok)
    && (forall n | n in rep.removed :: DataKey(Database, n) in blobs && DataKey(Database, n) !in left)
    && (forall n | DataKey(Database, n) in blobs && DataKey(Database, n) !in left ::
          n in rep.removed || n in rep.failed)
    && (forall n | n in rep.notOwned :: Verify(blobs, us, Database, n) == NotOwned)
  }

  /** One finished count-based run: what it reports and what it leaves, given what it listed and read. */
  ghost predicate PrunedTo(blobs: Blobs, left: Blobs, us: string, keep: nat, trace: seq<Check>, rep: PruneReport,
                           ok: bool) {
    var held := Held(blobs, us);
    && Truthful(trace, blobs, us) && Among(trace, blobs) && Accounted(blobs, left, us, trace, rep, ok)
    && TakesBeyond(blobs, left, us, keep) && Newest(held, keep) <= Held(left, us) <= held
    && (ok && Undisturbed(trace, blobs) ==>
          && TookAllBeyond(blobs, left, us, keep, rep.removed)
          && Held(left, us) == Newest(held, keep) && rep.kept == |Held(left, us)|)
  }

  /** The deletions of one run, as far as they got. */
  ghost predicate Deletions(blobs: Blobs, us: string, doomed: seq<Stamp>, gone: set<Key>, removed: seq<string>,
                            failed: seq<string>) {
    && Within(gone, Database, StampNames(doomed)) && (forall k | k in gone :: Ours(blobs, us, k))
    && |removed| + |failed| == |doomed| && Told(removed, failed, gone, blobs)
    && (failed == [] ==> forall x | x in doomed :: PairGone(blobs - gone, x.name))
  }

  lemma {:induction false} PruningTakesBeyond(blobs: Blobs, us: string, keep: nat, doomed: seq<Stamp>, gone: set<Key>,
                                              removed: seq<string>, failed: seq<string>)
    requires Deletions(blobs, us, doomed, gone, removed, failed)
    requires Elements(doomed) <= Held(blobs, us) - Newest(Held(blobs, us), keep)
    ensures TakesBeyond(blobs, blobs - gone, us, keep)
  {
    hide Held, Newest;
    assert blobs.Keys - (blobs - gone).Keys == gone;
  }

  lemma {:induction false} PruningTakesAll(blobs: Blobs, us: string, keep: nat, doomed: seq<Stamp>, gone: set<Key>,
                                           removed: seq<string>)
    requires Deletions(blobs, us, doomed, gone, removed, [])
    requires Elements(doomed) == Held(blobs, us) - Newest(Held(blobs, us), keep)
    ensures TookAllBeyond(blobs, blobs - gone, us, keep, removed)
  {
    forall n | n in Beyond(blobs, us, keep)
      ensures DataKey(Database, n) in blobs && PairGone(blobs - gone, n) && n in removed
    {
      var x :| x in Elements(doomed) && x.name == n;
      HeldByName(blobs, us, x);
    }
  }

  /** A doomed backup's blob was there, so it is among what is gone once its pair is. */
  lemma {:induction false} DoomedGone(blobs: Blobs, us: string, doomed: seq<Stamp>, gone: set<Key>)
    requires Elements(doomed) <= Held(blobs, us) && forall x | x in doomed :: PairGone(blobs - gone, x.name)
    ensures forall x | x in doomed :: DataKey(Database, x.name) in gone
  {
    forall x | x in doomed
      ensures DataKey(Database, x.name) in gone
    {
      assert x in Elements(doomed);
      HeldByName(blobs, us, x);
    }
  }

  lemma {:induction false} PruningExactly(blobs: Blobs, us: string, keep: nat, trace: seq<Check>, gone: set<Key>,
                                          removed: seq<string>)
    requires Truthful(trace, blobs, us) && Among(trace, blobs) && Undisturbed(trace, blobs)
    requires Deletions(blobs, us, Doomed(Counted(trace), keep), gone, removed, [])
    ensures var n, left := Counted(trace), blobs - gone;
            && TookAllBeyond(blobs, left, us, keep, removed) && Held(left, us) == Newest(Held(blobs, us), keep)
            && (if keep < |n.complete| then keep else |n.complete|) == |Held(left, us)|
  {
    hide Verify, Held, Truthful, Newest, TookAllBeyond, Undisturbed, StampNames;
    var doomed := Doomed(Counted(trace), keep);
    DoomedIsBeyond(blobs, us, trace, keep);
    DoomedGone(blobs, us, doomed, gone);
    HeldWithout(blobs, us, gone, doomed);
    PruningTakesAll(blobs, us, keep, doomed, gone, removed);
    NewestOf(Held(blobs, us), keep);
    KeptIsHeld(blobs, us, trace, keep);
  }

  lemma {:induction false} PruningAccounts(blobs: Blobs, us: string, keep: nat, trace: seq<Check>, gone: set<Key>,
                                           removed: seq<string>, failed: seq<string>)
    requires Truthful(trace, blobs, us) && Deletions(blobs, us, Doomed(Counted(trace), keep), gone, removed, failed)
    ensures var n := Counted(trace);
            var kept := if n.unchecked == 0 && keep < |n.complete| then keep else |n.complete|;
            var rep := PruneReport(removed, kept, n.notOwned, n.failed + failed, n.unchecked > 0);
            Accounted(blobs, blobs - gone, us, trace, rep, n.unchecked == 0 && failed == [])
  {
    hide Verify, Truthful, StampNames, CannotTell, PairGone, Ours;
    var n := Counted(trace);
    CountedTotal(trace);
    WithheldExactly(blobs, us, trace);
    CountedNotOwned(trace, blobs, us);
    if n.unchecked > 0 {
      NothingGone(blobs, gone);
    }
  }

  lemma {:induction false} PruningWorks(blobs: Blobs, us: string, keep: nat, trace: seq<Check>, gone: set<Key>,
                                        removed: seq<string>, failed: seq<string>)
    requires Truthful(trace, blobs, us) && Among(trace, blobs)
    requires Deletions(blobs, us, Doomed(Counted(trace), keep), gone, removed, failed)
    ensures var n := Counted(trace);
            var kept := if n.unchecked == 0 && keep < |n.complete| then keep else |n.complete|;
            var rep := PruneReport(removed, kept, n.notOwned, n.failed + failed, n.unchecked > 0);
            PrunedTo(blobs, blobs - gone, us, keep, trace, rep, n.unchecked == 0 && failed == [])
  {
    hide Verify, Held, Truthful, Undisturbed, Newest, TakesBeyond, TookAllBeyond, StampNames, Accounted, Told, Counted;
    AmongIsApart(trace, blobs);
    DoomedIsBeyond(blobs, us, trace, keep);
    PruningAccounts(blobs, us, keep, trace, gone, removed, failed);
    var doomed := Doomed(Counted(trace), keep);
    PruningTakesBeyond(blobs, us, keep, doomed, gone, removed, failed);
    HeldWithout(blobs, us, gone, doomed);
    NewestOf(Held(blobs, us), keep);
    if Counted(trace).unchecked == 0 && failed == [] && Undisturbed(trace, blobs) {
      PruningExactly(blobs, us, keep, trace, gone, removed);
    }
  }

  lemma {:induction false} AmongIsApart(trace: seq<Check>, blobs: Blobs)
    requires Among(trace, blobs)
    ensures Apart(trace)
  {
  }

  lemma {:induction false} NothingGone(blobs: Blobs, gone: set<Key>)
    requires Within(gone, Database, StampNames([]))
    ensures gone == {} && blobs - gone == blobs
  {
  }

  /** The count of kept backups is the number of the newest ones. */
  lemma {:induction false} KeptIsHeld(blobs: Blobs, us: string, trace: seq<Check>, keep: nat)
    requires Truthful(trace, blobs, us) && Among(trace, blobs) && Undisturbed(trace, blobs)
    ensures var n := Counted(trace);
            (if keep < |n.complete| then keep else |n.complete|) == |Newest(Held(blobs, us), keep)|
  {
    hide Verify, Held, Truthful, Newest, Undisturbed;
    CountedIsHeld(blobs, us, trace);
    CountedDistinct(trace);
    DistinctCount(Counted(trace).complete);
    NewestCount(Held(blobs, us), keep);
  }

  lemma {:induction false} NewestOf(all: set<Stamp>, keep: nat)
    ensures Newest(all, keep) <= all
  {
  }

  /**
   * PruneBackups. Zero means the default. Whatever fails and wherever the run is cut, only held backups beyond the
   * newest `keep` go; when everything was listed and read and no failure is reported, exactly those have gone.
   */
  method PruneBackups(c: Store, asked: int)
    returns (rep: PruneReport, ok: bool, ghost ran: bool, ghost trace: seq<Check>)
    requires Sound(c.blobs, c.us)
    modifies c`blobs, c`killed, c`now, c`log, c`faults
    ensures Sound(c.blobs, c.us) && (old(c.killed) ==> c.killed) && old(c.now) <= c.now
    ensures ok ==> ran
    ensures !ran ==> rep == NOTHING && c.blobs == old(c.blobs)
    ensures old(c.log) + Heard(trace) <= c.log && (ran && c.orderly ==> Covers(trace, old(c.blobs)))
    ensures var keep := if asked == 0 then DEFAULT_KEEP else asked;
            && (ran ==> keep >= 1 && PrunedTo(old(c.blobs), c.blobs, c.us, keep, trace, rep, ok))
            && (!ran ==> keep < 1 || c.faults == old(c.faults) + [Listing(Database)])
    ensures old(c.faults) <= c.faults
    ensures forall n | n in rep.failed ::
              Blamed(old(c.faults), c.faults, Database, n) || Verify(old(c.blobs), c.us, Database, n) == Incomplete
    ensures ran && !ok ==> exists n :: Blamed(old(c.faults), c.faults, Database, n)
  {
    hide Verify, Held, Truthful, Covers, PrunedTo, Counted, Sound, StampNames, Told, Heard;
    var keep := if asked == 0 then DEFAULT_KEEP else asked;
    rep, ok, ran, trace := NOTHING, false, false, [];
    hide Blamed, Excused, CannotTell;
    NothingIsHeard();
    if keep < 1 {
      return;
    }
    assert c.faults + [] == c.faults;
    var listed := c.ListAll(Database);
    if listed.None? {
      return;
    }
    var n: Count;
    n, trace := CheckAll(c, listed.value);
    ran := true;
    FollowsCovers(trace, listed.value, c.blobs);
    DoomedIsBeyond(c.blobs, c.us, trace, keep);
    var doomed := Doomed(n, keep);
    ghost var gone, checked := {}, c.faults;
    WithheldExactly(c.blobs, c.us, trace);
    var removed, notOwned, failed;
    removed, notOwned, failed, gone := RemoveDoomed(c, doomed);
    PruningIsExcused(trace, old(c.blobs), c.us, n, failed, old(c.faults), checked, c.faults);
    PruningWorks(old(c.blobs), c.us, keep, trace, gone, removed, failed);
    var kept := if n.unchecked == 0 && keep < |n.complete| then keep else |n.complete|;
    rep := PruneReport(removed, kept, n.notOwned + notOwned, n.failed + failed, n.unchecked > 0);
    ok := n.unchecked == 0 && failed == [];
    assert n.notOwned + notOwned == n.notOwned;
  }

  lemma {:induction false} PruningIsExcused(trace: seq<Check>, blobs: Blobs, us: string, n: Count, failed: seq<string>,
                                            a: seq<Fault>, b: seq<Fault>, c: seq<Fault>)
    requires Truthful(trace, blobs, us) && Excused(trace, a, b) && n == Counted(trace) && a <= b <= c
    requires forall m | m in failed :: Blamed(b, c, Database, m)
    ensures forall m | m in n.failed + failed ::
              Blamed(a, c, Database, m) || Verify(blobs, us, Database, m) == Incomplete
    ensures n.unchecked > 0 || failed != [] ==> exists m :: Blamed(a, c, Database, m)
  {
    hide Verify, Counted, Truthful, Excused, Blames;
    ExcusedLater(trace, a, b, c);
    WithheldExactly(blobs, us, trace);
    forall m | m in n.failed + failed
      ensures Blamed(a, c, Database, m) || Verify(blobs, us, Database, m) == Incomplete
    {
      if m in failed {
        BlamedLater(a, b, c, Database, m);
      } else {
        FailedIsIncomplete(trace, blobs, us, a, c, m);
      }
    }
    if n.unchecked > 0 {
      WithheldIsExcused(trace, a, c);
    } else if failed != [] {
      BlamedLater(a, b, c, Database, failed[0]);
    }
  }

  lemma {:induction false} NothingIsHeard()
    ensures Heard([]) == []
  {
  }

  /**
   * Residue: any number of objects under other names that are no complete backups leave what a run removes the same.
   * With them and without them the same backups go, the same names are reported, and the residue stays.
   */
  lemma {:induction false} ResidueChangesNoRemoval(blobs: Blobs, residue: Blobs, us: string, keep: nat,
                                                   left: Blobs, trace: seq<Check>, rep: PruneReport,
                                                   left': Blobs, trace': seq<Check>, rep': PruneReport)
    requires OtherNames(blobs, residue) && NoneComplete(residue, us)
    requires PrunedTo(blobs, left, us, keep, trace, rep, true) && Undisturbed(trace, blobs)
    requires PrunedTo(blobs + residue, left', us, keep, trace', rep', true) && Undisturbed(trace', blobs + residue)
    ensures Elements(rep'.removed) == Elements(rep.removed) && rep'.kept == rep.kept
    ensures left' == left + residue
  {
    hide Held, Newest, Verify, Truthful, Undisturbed, Among;
    ResidueIsInvisible(blobs, residue, us);
    var all := blobs + residue;
    assert Beyond(all, us, keep) == Beyond(blobs, us, keep);
    forall k: Key
      ensures k in left' <==> k in left || k in residue
    {
      GoneByName(blobs, left, us, keep, rep.removed, k);
      GoneByName(all, left', us, keep, rep'.removed, k);
      if k in residue {
        NamedApart(blobs, residue, Beyond(blobs, us, keep), k);
      }
    }
    assert left'.Keys == (left + residue).Keys;
  }

  lemma {:induction false} NamedApart(blobs: Blobs, residue: Blobs, names: set<string>, k: Key)
    requires OtherNames(blobs, residue) && k in residue && forall n | n in names :: DataKey(Database, n) in blobs
    ensures !(k.area == Database && k.name in names)
  {
    var data := DataKey(Database, k.name);
    assert data in blobs ==> data.area != k.area || data.name != k.name;
  }

  /** An object is gone exactly when its name is beyond the cut. */
  lemma {:induction false} GoneByName(blobs: Blobs, left: Blobs, us: string, keep: nat, removed: seq<string>, k: Key)
    requires TakesBeyond(blobs, left, us, keep) && TookAllBeyond(blobs, left, us, keep, removed)
    ensures k in left <==> k in blobs && !(k.area == Database && k.name in Beyond(blobs, us, keep))
    ensures k in left ==> left[k] == blobs[k]
  {
    hide Held, Newest;
    assert k == DataKey(k.area, k.name) || k == NoteKey(k.area, k.name);
  }

  // --- Expire ------------------------------------------------------------

  datatype ExpireReport = ExpireReport(removed: seq<string>, kept: nat, notOwned: seq<string>, failed: seq<string>)

  const NOTHING_EXPIRED := ExpireReport([], 0, [], [])

  /** The recording's copy is strictly older than the cutoff, by the service's own clock. */
  predicate Past(blobs: Blobs, name: string, cutoff: int) {
    var k := DataKey(Recordings, name);
    k in blobs && blobs[k].modified.Some? && blobs[k].modified.value < cutoff
  }

  /** The copy, and its manifest if there is one, carry this deployment's marker. */
  predicate Mine(blobs: Blobs, us: string, name: string) {
    && DataKey(Recordings, name) in blobs && blobs[DataKey(Recordings, name)].owner == us
    && (NoteKey(Recordings, name) in blobs ==> blobs[NoteKey(Recordings, name)].owner == us)
  }

  /** What an age-based run has removed once it has been through these names. */
  ghost predicate ExpiredSo(blobs: Blobs, us: string, cutoff: int, names: set<string>, gone: set<Key>, clean: bool) {
    && (forall k | k in gone :: k.area == Recordings && k.name in names && k in blobs && blobs[k].owner == us
                                && Past(blobs, k.name, cutoff))
    && (clean ==> forall n | n in names ::
          DataKey(Recordings, n) in gone <==> Past(blobs, n, cutoff) && Mine(blobs, us, n))
  }

  /** Those among the names that are not past the period. */
  ghost function Young(blobs: Blobs, names: set<string>, cutoff: int): set<string> {
    set n | n in names && IsYoung(blobs, n, cutoff)
  }

  predicate IsYoung(blobs: Blobs, name: string, cutoff: int) {
    var k := DataKey(Recordings, name);
    k in blobs && blobs[k].modified.Some? && blobs[k].modified.value >= cutoff
  }

  /** The report is true: everything is in one place, and each place says what happened. */
  ghost predicate Tallied(rep: ExpireReport, blobs: Blobs, us: string, cutoff: int, names: set<string>,
                          gone: set<Key>) {
    && |rep.removed| + rep.kept + |rep.notOwned| + |rep.failed| == |names|
    && rep.kept == |Young(blobs, names, cutoff)|
    && (forall n | n in rep.removed :: DataKey(Recordings, n) in gone)
    && (forall n | DataKey(Recordings, n) in gone :: n in rep.removed || n in rep.failed)
    && (forall n | n in rep.notOwned :: Past(blobs, n, cutoff) && !Mine(blobs, us, n))
  }

  lemma {:induction false} TallyKept(rep: ExpireReport, blobs: Blobs, us: string, cutoff: int, names: set<string>,
                                     gone: set<Key>, name: string)
    requires Tallied(rep, blobs, us, cutoff, names, gone) && name !in names && IsYoung(blobs, name, cutoff)
    ensures Tallied(rep.(kept := rep.kept + 1), blobs, us, cutoff, names + {name}, gone)
  {
    assert Young(blobs, names + {name}, cutoff) == Young(blobs, names, cutoff) + {name};
  }

  lemma {:induction false} TallyOther(rep: ExpireReport, next: ExpireReport, blobs: Blobs, us: string, cutoff: int,
                                      names: set<string>, gone: set<Key>, name: string, pair: set<Key>)
    requires Tallied(rep, blobs, us, cutoff, names, gone) && name !in names && !IsYoung(blobs, name, cutoff)
    requires pair <= {DataKey(Recordings, name), NoteKey(Recordings, name)}
    requires || next == rep.(failed := rep.failed + [name])
             || (next == rep.(removed := rep.removed + [name]) && DataKey(Recordings, name) in pair)
             || (next == rep.(notOwned := rep.notOwned + [name]) && DataKey(Recordings, name) !in pair
                 && Past(blobs, name, cutoff) && !Mine(blobs, us, name))
    ensures Tallied(next, blobs, us, cutoff, names + {name}, gone + pair)
  {
    assert Young(blobs, names + {name}, cutoff) == Young(blobs, names, cutoff);
  }

  lemma {:induction false} ExpiredMore(blobs: Blobs, us: string, cutoff: int, names: set<string>, gone: set<Key>,
                                       clean: bool, name: string, pair: set<Key>, went: bool)
    requires ExpiredSo(blobs, us, cutoff, names, gone, clean) && name !in names
    requires pair <= {DataKey(Recordings, name), NoteKey(Recordings, name)}
    requires forall k | k in pair :: k in blobs && blobs[k].owner == us && Past(blobs, name, cutoff)
    requires went ==> (DataKey(Recordings, name) in pair <==> Past(blobs, name, cutoff) && Mine(blobs, us, name))
    ensures ExpiredSo(blobs, us, cutoff, names + {name}, gone + pair, clean && went)
  {
  }

  /** Removes one recording that is past the period; `went` says that it ended as it should. */
  method ExpireOne(c: Store, name: string, rep: ExpireReport, ghost shown: Blobs, ghost gone: set<Key>)
    returns (next: ExpireReport, went: bool, ghost pair: set<Key>)
    requires Sound(c.blobs, c.us) && c.blobs == shown - gone && DataKey(Recordings, name) in shown
    requires forall k | k in gone :: k.name != name
    modifies c`blobs, c`killed, c`now, c`log, c`faults
    ensures Sound(c.blobs, c.us) && (old(c.killed) ==> c.killed && pair == {})
    ensures old(c.now) <= c.now && old(c.log) <= c.log
    ensures c.faults == old(c.faults) + if went then [] else [Of(Recordings, name)]
    ensures c.blobs == shown - (gone + pair) && pair <= {DataKey(Recordings, name), NoteKey(Recordings, name)}
    ensures forall k | k in pair :: k in shown && shown[k].owner == c.us
    ensures went ==> (DataKey(Recordings, name) in pair <==> Mine(shown, c.us, name))
    ensures next == if !went then rep.(failed := rep.failed + [name])
                    else if Mine(shown, c.us, name) then rep.(removed := rep.removed + [name])
                    else rep.(notOwned := rep.notOwned + [name])
  {
    hide Sound;
    var fate;
    fate, pair := c.RemovePair(Recordings, name);
    assert c.blobs == shown - (gone + pair);
    match fate {
      case Deleted => next, went := rep.(removed := rep.removed + [name]), true;
      case Foreign => next, went := rep.(notOwned := rep.notOwned + [name]), true;
      case NotFound => next, went := rep.(failed := rep.failed + [name]), false;
      case Failed => next, went := rep.(failed := rep.failed + [name]), false;
    }
  }

  /**
   * Expire. Only copies past the period that carry this deployment's marker go; when no copy failed, exactly those of
   * the listed have gone, and every listed recording is accounted for.
   */
  method Expire(c: Store, days: int)
    returns (rep: ExpireReport, ok: bool, ghost ran: bool, ghost cutoff: int, ghost names: set<string>,
             ghost gone: set<Key>)
    requires Sound(c.blobs, c.us)
    modifies c`blobs, c`killed, c`now, c`log, c`faults
    ensures Sound(c.blobs, c.us) && (old(c.killed) ==> c.killed) && old(c.now) <= c.now && old(c.log) <= c.log
    ensures c.blobs == old(c.blobs) - gone && cutoff == old(c.now) - days * DAY
    ensures ok <==> ran && rep.failed == []
    ensures !ran ==> rep == NOTHING_EXPIRED && gone == {}
    ensures !ran ==> days < 1 || c.faults == old(c.faults) + [Listing(Recordings)]
    ensures old(c.faults) <= c.faults && ExpiryExcused(old(c.blobs), rep.failed, old(c.faults), c.faults)
    ensures ran ==> names <= RecordingNames(old(c.blobs))
    ensures ran && c.orderly ==> names == RecordingNames(old(c.blobs))
    ensures ran ==> days >= 1 && Tallied(rep, old(c.blobs), c.us, cutoff, names, gone)
                    && ExpiredSo(old(c.blobs), c.us, cutoff, names, gone, ok)
  {
    hide Sound, ExpiredSo, Past, Mine, Tallied, ExpiryExcused;
    NoneExcused(c.blobs, c.faults, c.faults);
    assert c.faults + [] == c.faults;
    rep, ok, ran, gone, cutoff, names := NOTHING_EXPIRED, false, false, {}, c.now - days * DAY, {};
    assert c.blobs == c.blobs - {};
    if days < 1 {
      return;
    }
    var limit := c.now - days * DAY;
    var listed := c.ListAll(Recordings);
    if listed.None? {
      NoneExcused(c.blobs, old(c.faults), c.faults);
      return;
    }
    ok, ran := true, true;
    var keys, shown := listed.value, c.blobs;
    NothingExpired(shown, c.us, limit);
    for i := 0 to |keys|
      invariant Sound(c.blobs, c.us) && (old(c.killed) ==> c.killed) && old(c.now) <= c.now && old(c.log) <= c.log
      invariant c.blobs == shown - gone && Tallied(rep, shown, c.us, limit, DataOf(keys[..i]), gone)
      invariant ok <==> rep.failed == []
      invariant old(c.faults) <= c.faults && ExpiryExcused(shown, rep.failed, old(c.faults), c.faults)
      invariant ExpiredSo(shown, c.us, limit, DataOf(keys[..i]), gone, ok)
    {
      DataOfStep(keys, i, Recordings);
      if keys[i].NoteKey? {
        continue;
      }
      rep, ok, gone := ExpireNext(c, keys[i], limit, rep, ok, shown, DataOf(keys[..i]), gone, old(c.faults));
    }
    assert keys[..|keys|] == keys;
    names := DataOf(keys);
    AllRecordings(keys, shown);
  }

  /** One listed recording: its age decides. */
  method ExpireNext(c: Store, k: Key, limit: int, rep: ExpireReport, ok: bool, shown: Blobs, ghost names: set<string>,
                    ghost gone: set<Key>, ghost before: seq<Fault>)
    returns (next: ExpireReport, fine: bool, ghost all: set<Key>)
    requires before <= c.faults && ExpiryExcused(shown, rep.failed, before, c.faults)
    requires Sound(c.blobs, c.us) && c.blobs == shown - gone && k.DataKey? && k.area == Recordings && k in shown
    requires ExpiredSo(shown, c.us, limit, names, gone, ok) && k.name !in names
    requires Tallied(rep, shown, c.us, limit, names, gone)
    requires ok <==> rep.failed == []
    modifies c`blobs, c`killed, c`now, c`log, c`faults
    ensures Sound(c.blobs, c.us) && (old(c.killed) ==> c.killed) && old(c.now) <= c.now && old(c.log) <= c.log
    ensures c.blobs == shown - all && Tallied(next, shown, c.us, limit, names + {k.name}, all)
    ensures fine <==> next.failed == []
    ensures before <= c.faults && ExpiryExcused(shown, next.failed, before, c.faults)
    ensures ExpiredSo(shown, c.us, limit, names + {k.name}, all, fine)
  {
    hide Sound, Mine, Tallied, ExpiryExcused;
    ghost var faults := c.faults;
    next, fine, all := rep, ok, gone;
    var modified := shown[k].modified;
    if modified.None? {
      next := rep.(failed := rep.failed + [k.name]);
      ExpiredMore(shown, c.us, limit, names, gone, ok, k.name, {}, false);
      TallyOther(rep, next, shown, c.us, limit, names, gone, k.name, {});
      fine := false;
    } else if modified.value >= limit {
      next := rep.(kept := rep.kept + 1);
      ExpiredMore(shown, c.us, limit, names, gone, ok, k.name, {}, true);
      TallyKept(rep, shown, c.us, limit, names, gone, k.name);
    } else {
      ghost var pair;
      var went;
      next, went, pair := ExpireOne(c, k.name, rep, shown, gone);
      ExpiredMore(shown, c.us, limit, names, gone, ok, k.name, pair, went);
      TallyOther(rep, next, shown, c.us, limit, names, gone, k.name, pair);
      fine, all := ok && went, gone + pair;
    }
    assert gone + {} == gone;
    OneMoreFailed(shown, rep.failed, next.failed, k.name, before, faults, c.faults);
  }

  /** A recording counts as failed only with a fault of its own, or without a date. */
  ghost predicate ExpiryExcused(blobs: Blobs, failed: seq<string>, before: seq<Fault>, after: seq<Fault>) {
    forall n | n in failed ::
      || Blamed(before, after, Recordings, n)
      || (DataKey(Recordings, n) in blobs && blobs[DataKey(Recordings, n)].modified.None?)
  }

  lemma {:induction false} NoneExcused(blobs: Blobs, before: seq<Fault>, after: seq<Fault>)
    ensures ExpiryExcused(blobs, [], before, after)
  {
  }

  lemma {:induction false} OneMoreFailed(blobs: Blobs, failed: seq<string>, next: seq<string>, name: string,
                                         a: seq<Fault>, b: seq<Fault>, c: seq<Fault>)
    requires ExpiryExcused(blobs, failed, a, b) && a <= b <= c
    requires || next == failed
             || (next == failed + [name] && c == b + [Of(Recordings, name)])
             || (next == failed + [name] && DataKey(Recordings, name) in blobs
                 && blobs[DataKey(Recordings, name)].modified.None?)
    ensures ExpiryExcused(blobs, next, a, c)
  {
    hide Blames;
    forall n | n in failed
      ensures Blamed(a, b, Recordings, n) ==> Blamed(a, c, Recordings, n)
    {
      BlamedLater(a, b, c, Recordings, n);
    }
    BlamedNow(a, b, Recordings, name);
  }

  lemma {:induction false} NothingExpired(blobs: Blobs, us: string, cutoff: int)
    ensures ExpiredSo(blobs, us, cutoff, DataOf([]), {}, true)
    ensures Tallied(NOTHING_EXPIRED, blobs, us, cutoff, DataOf([]), {})
  {
  }

  ghost function RecordingNames(blobs: Blobs): set<string> {
    set k | k in blobs && k.DataKey? && k.area == Recordings :: k.name
  }

  lemma {:induction false} AllRecordings(listed: seq<Key>, blobs: Blobs)
    requires forall k | k in listed :: k in blobs && k.area == Recordings
    ensures DataOf(listed) <= RecordingNames(blobs)
    ensures (forall k | k in blobs && k.area == Recordings :: k in listed) ==> DataOf(listed) == RecordingNames(blobs)
  {
  }
}
