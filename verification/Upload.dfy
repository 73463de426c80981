/** The scheduled remote run: Upload in internal/azure/upload.go, with the retention rules it ends in. */
module Upload {
  import opened Text
  import opened Ordering
  import opened Manifests
  import opened Container
  import opened Retention
  import opened Sending
  import Names
  import LocalStore

  // --- what is held after the uploads ------------------------------------

  ghost function LocalStamps(local: Local, us: string, names: set<string>): set<Stamp> {
    set n | n in names && Whole(local, us, n) && Note(local, us, n).published.Some? :: StampOf(n, Note(local, us, n))
  }

  /** The local backups of these names, and what is held under other names. */
  ghost function Union(held: set<Stamp>, local: Local, us: string, names: set<string>): set<Stamp> {
    (set x | x in held && x.name !in names) + LocalStamps(local, us, names)
  }

  lemma {:induction false} ArrivedIsComplete(blobs: Blobs, us: string, local: Local, name: string)
    requires Whole(local, us, name) && Arrived(blobs, us, Database, local, name) && '/' !in name
    ensures var m := Note(local, us, name);
            Verify(blobs, us, Database, name) == if m.published.Some? then Complete(m) else Incomplete
  {
  }

  /**
   * Whatever became of an upload, what is held under the names that did not fail is what was held, with the copies
   * that were sent in place of what was under their names.
   */
  lemma {:induction false} HeldAfterUpload(before: Blobs, after: Blobs, us: string, local: Local, names: set<string>,
                                           sent: set<string>, failed: set<string>)
    requires Touches(before, after, Database, sent + failed) && Sent(before, after, us, Database, local, names, sent)
    requires forall n | n in names :: '/' !in n
    ensures forall x: Stamp | x.name !in failed ::
              x in Held(after, us) <==> x in Union(Held(before, us), local, us, sent)
  {
    hide Verify, Whole;
    forall x: Stamp | x.name !in failed
      ensures x in Held(after, us) <==> x in Union(Held(before, us), local, us, sent)
    {
      HeldByName(before, us, x);
      HeldByName(after, us, x);
      if x.name in sent {
        ArrivedIsComplete(after, us, local, x.name);
        StampOfSent(local, us, sent, x);
      } else {
        VerdictIsLocal(before, after, us, Database, x.name);
      }
    }
  }

  lemma {:induction false} StampOfSent(local: Local, us: string, sent: set<string>, x: Stamp)
    requires x.name in sent && Whole(local, us, x.name)
    ensures x in LocalStamps(local, us, sent)
            <==> var m := Note(local, us, x.name); m.published.Some? && x == StampOf(x.name, m)
  {
    hide Whole;
  }

  /** Every local manifest records when its backup was published. */
  ghost predicate Datable(local: Local, us: string) {
    forall n | Whole(local, us, n) :: Note(local, us, n).published.Some?
  }

  /** The manifest found beside a copy that is there already is the local one. */
  ghost predicate Twin(blobs: Blobs, us: string, local: Local, name: string)
    requires Whole(local, us, name)
  {
    var note := NoteKey(Database, name);
    note in blobs && blobs[note].body.Record? && blobs[note].body.manifest == Note(local, us, name)
  }

  /** A copy found there is held under its remote manifest, which need not be the local one. */
  lemma {:induction false} RemoteIsHeld(blobs: Blobs, us: string, local: Local, name: string)
    requires Sound(blobs, us) && Whole(local, us, name) && Remote(blobs, us, Database, name, Note(local, us, name))
    requires '/' !in name && Note(local, us, name).published.Some?
    ensures Verify(blobs, us, Database, name) == Complete(Note(local, us, name)) <==> Twin(blobs, us, local, name)
    ensures Verify(blobs, us, Database, name).Complete? ==>
              Verify(blobs, us, Database, name).manifest == blobs[NoteKey(Database, name)].body.manifest
  {
    assert blobs[NoteKey(Database, name)].owner == us;
    assert SoundNote(blobs, us, NoteKey(Database, name));
  }

  /**
   * What is held after the uploads is the union of the two sides exactly when every copy that was found there carries
   * the local manifest: the comparison looks at neither its version nor its publication time.
   */
  lemma {:induction false} HeldIsUnion(before: Blobs, after: Blobs, us: string, local: Local, names: set<string>,
                                       sent: set<string>)
    requires Sound(before, us) && Sent(before, after, us, Database, local, names, sent) && Datable(local, us)
    requires forall n | n in names :: '/' !in n
    ensures Union(Held(before, us), local, us, sent) == Union(Held(before, us), local, us, names)
            <==> forall n | n in names - sent :: Twin(before, us, local, n)
  {
    hide Sound, Verify, Remote, Whole, Twin;
    var held := Held(before, us);
    var got, all := Union(held, local, us, sent), Union(held, local, us, names);
    forall n | n in names - sent
      ensures Twin(before, us, local, n) <==> forall x: Stamp | x.name == n :: x in got <==> x in all
    {
      HeldOfTwin(before, us, local, names, sent, n);
    }
    forall x: Stamp | x.name !in names - sent
      ensures x in got <==> x in all
    {
      if x.name in sent {
        StampOfSent(local, us, sent, x);
        StampOfSent(local, us, names, x);
      }
    }
    assert got == all <==> forall x: Stamp :: x in got <==> x in all;
  }

  lemma {:induction false} HeldOfTwin(before: Blobs, us: string, local: Local, names: set<string>, sent: set<string>,
                                      name: string)
    requires Sound(before, us) && name in names - sent && Whole(local, us, name) && '/' !in name
    requires Remote(before, us, Database, name, Note(local, us, name)) && Note(local, us, name).published.Some?
    ensures Twin(before, us, local, name) <==>
              forall x: Stamp | x.name == name ::
                x in Union(Held(before, us), local, us, sent) <==> x in Union(Held(before, us), local, us, names)
  {
    hide Sound, Verify, Remote, Whole, Twin, Held;
    var mine := StampOf(name, Note(local, us, name));
    HeldTwin(before, us, local, name);
    forall x: Stamp | x.name == name
      ensures x in Union(Held(before, us), local, us, sent) <==> x in Held(before, us)
      ensures x in Union(Held(before, us), local, us, names) <==> x == mine
    {
      StampOfSent(local, us, names, x);
    }
    assert mine.name == name;
  }

  /** Under the name of a copy found there, the local stamp is held exactly when it is a twin, and then alone. */
  lemma {:induction false} HeldTwin(before: Blobs, us: string, local: Local, name: string)
    requires Sound(before, us) && Whole(local, us, name) && '/' !in name
    requires Remote(before, us, Database, name, Note(local, us, name)) && Note(local, us, name).published.Some?
    ensures var mine := StampOf(name, Note(local, us, name));
            && (mine in Held(before, us) <==> Twin(before, us, local, name))
            && (Twin(before, us, local, name) ==>
                  forall x: Stamp | x.name == name :: x in Held(before, us) <==> x == mine)
  {
    hide Sound, Remote, Whole, Twin;
    RemoteIsHeld(before, us, local, name);
    forall x: Stamp | x.name == name
      ensures x in Held(before, us)
              <==> var v := Verify(before, us, Database, name); v.Complete? && x == StampOf(name, v.manifest)
    {
      HeldByName(before, us, x);
    }
    hide Verify;
    var v := Verify(before, us, Database, name);
    if v.Complete? && v.manifest.published == Note(local, us, name).published {
      SameButForDate(before, us, local, name);
    }
  }

  /** A complete copy that matches has the supported version, so only its publication time can differ. */
  lemma {:induction false} SameButForDate(blobs: Blobs, us: string, local: Local, name: string)
    requires Whole(local, us, name) && Remote(blobs, us, Database, name, Note(local, us, name))
    requires Verify(blobs, us, Database, name).Complete?
    requires Verify(blobs, us, Database, name).manifest.published == Note(local, us, name).published
    ensures Twin(blobs, us, local, name)
  {
  }

  /** A local directory with one empty backup, published at 1. */
  function OneLocal(us: string, name: string): Local {
    Local(map[name := []], map[name := LocalStore.Readable(SampleNote(us, name, 1), 1)])
  }

  lemma {:induction false} OneLocalIsWhole(us: string, name: string)
    ensures Whole(OneLocal(us, name), us, name) && Note(OneLocal(us, name), us, name) == SampleNote(us, name, 1)
    ensures Datable(OneLocal(us, name), us)
  {
  }

  lemma {:induction false} OtherDateMatches(us: string, name: string)
    ensures var blobs, m := map[] + Sample(us, name, 2), SampleNote(us, name, 1);
            Remote(blobs, us, Database, name, m) && blobs[NoteKey(Database, name)].body.manifest != m
  {
  }

  /**
   * Such a copy: the container has the same backup under a manifest with another publication time. The upload skips
   * it, and what is held is not the union.
   */
  lemma {:induction false} OtherDateIsNoTwin(us: string, name: string) returns (blobs: Blobs, local: Local)
    requires '/' !in name
    ensures Sound(blobs, us) && Datable(local, us) && Whole(local, us, name)
    ensures Sent(blobs, blobs, us, Database, local, {name}, {}) && !Twin(blobs, us, local, name)
    ensures Union(Held(blobs, us), local, us, {}) != Union(Held(blobs, us), local, us, {name})
  {
    hide Sound, Verify, Whole, Remote, Held, Datable, Union, SampleNote, Sample;
    blobs, local := map[] + Sample(us, name, 2), OneLocal(us, name);
    SoundWhenEmpty(us);
    SampleIsComplete(map[], us, name, 2);
    OneLocalIsWhole(us, name);
    OtherDateMatches(us, name);
    HeldIsUnion(blobs, blobs, us, local, {name}, {});
  }

  /** A manifest in the container that describes a local file's content is that file's own manifest. */
  ghost predicate SameOrigin(blobs: Blobs, us: string, local: Local) {
    forall n | Whole(local, us, n) && NoteKey(Database, n) in blobs ::
      SameManifest(blobs[NoteKey(Database, n)].body, us, Note(local, us, n))
  }

  ghost predicate SameManifest(body: Body, us: string, m: Manifest) {
    body.Record? && body.manifest.deployment == us && body.manifest.digest == m.digest ==> body.manifest == m
  }

  lemma {:induction false} SameOriginIsTwin(before: Blobs, after: Blobs, us: string, local: Local, names: set<string>,
                                            sent: set<string>)
    requires Sent(before, after, us, Database, local, names, sent) && SameOrigin(before, us, local)
    ensures forall n | n in names - sent :: Twin(before, us, local, n)
  {
    forall n | n in names - sent
      ensures Twin(before, us, local, n)
    {
      assert Remote(before, us, Database, n, Note(local, us, n));
      assert SameManifest(before[NoteKey(Database, n)].body, us, Note(local, us, n));
    }
  }

  lemma {:induction false} SameOriginStays(before: Blobs, after: Blobs, us: string, local: Local, names: set<string>,
                                           sent: set<string>)
    requires Touches(before, after, Database, sent) && Sent(before, after, us, Database, local, names, sent)
    requires SameOrigin(before, us, local)
    ensures SameOrigin(after, us, local)
  {
    hide Whole;
    forall n | Whole(local, us, n) && NoteKey(Database, n) in after
      ensures SameManifest(after[NoteKey(Database, n)].body, us, Note(local, us, n))
    {
      assert n !in sent ==> Same(before, after, NoteKey(Database, n));
    }
  }

  /** With nothing held under a local name but that very backup, the union is just the union. */
  lemma {:induction false} UnionIsUnion(held: set<Stamp>, local: Local, us: string, names: set<string>)
    requires forall x | x in held && x.name in names :: x in LocalStamps(local, us, names)
    ensures Union(held, local, us, names) == held + LocalStamps(local, us, names)
  {
  }

  /** Uploading some of the same files again after the cut and cutting again leaves the same set. */
  lemma {:induction false} RepeatChangesNothing(held: set<Stamp>, local: Local, us: string, names: set<string>,
                                                some: set<string>, keep: nat)
    requires some <= names
    ensures var once := Newest(Union(held, local, us, names), keep);
            Newest(Union(once, local, us, some), keep) == once
  {
    hide Whole;
    var all, back := Union(held, local, us, names), LocalStamps(local, us, some);
    var once := Newest(all, keep);
    forall x | x in once && x.name in some
      ensures x in back
    {
      StampOfName(local, us, names, x);
    }
    UnionIsUnion(once, local, us, some);
    assert back <= all;
    CutAgain(all, back, keep);
  }

  lemma {:induction false} StampOfName(local: Local, us: string, names: set<string>, x: Stamp)
    requires x in LocalStamps(local, us, names)
    ensures Whole(local, us, x.name) && Note(local, us, x.name).published.Some?
    ensures x == StampOf(x.name, Note(local, us, x.name))
  {
  }

  // --- the local side ----------------------------------------------------

  /** The local backups that could be read. */
  ghost function Backups(local: Local, us: string, unread: set<string>): set<string> {
    NamesOf(LocalStore.Valid(local.files, local.manifests, us)) - unread
  }

  /** Whether a local directory can be listed, and for which of its files a reading fails then. */
  method Chances(c: Store, area: Area) returns (lists: bool, fails: set<string>)
    modifies c`faults
    ensures c.faults
            == old(c.faults) + if !lists then [Listing(area)] else if fails == {} then [] else [Unread(area, fails)]
    ensures forall n | n in fails :: Blamed(old(c.faults), c.faults, area, n)
    ensures old(c.faults) <= c.faults && (c.faults == old(c.faults) ==> lists && fails == {})
  {
    lists, fails := *, *;
    fails := if lists then fails else {};
    c.faults := c.faults + if !lists then [Listing(area)] else if fails == {} then [] else [Unread(area, fails)];
    assert fails != {} ==> c.faults[|old(c.faults)|] == Unread(area, fails);
  }

  /** schedule.List: the names of the valid local backups, newest first. */
  method BackupNames(local: Local, us: string, lists: bool, fails: set<string>)
    returns (names: Option<seq<string>>, ghost unread: set<string>)
    ensures names.Some? <==> lists
    ensures names.Some? ==> Distinct(names.value) && Elements(names.value) == Backups(local, us, unread)
    ensures names.Some? ==> forall n | n in names.value :: '/' !in n
    ensures unread <= Backups(local, us, {}) * fails
  {
    hide Names.ParsePublished, LocalStore.Valid;
    var found;
    found, unread := LocalStore.ListFiles(local.files, local.manifests, us, lists, fails);
    if found.None? {
      return None, unread;
    }
    var q := found.value;
    NamesOfListed(q, local, us, unread);
    return Some(seq(|q|, i requires 0 <= i < |q| => q[i].name)), unread;
  }

  lemma {:induction false} NamesOfListed(q: seq<Stamp>, local: Local, us: string, unread: set<string>)
    requires Sorted(q)
    requires forall x :: x in q <==> x in LocalStore.Valid(local.files, local.manifests, us) && x.name !in unread
    ensures var names := seq(|q|, i requires 0 <= i < |q| => q[i].name);
            && Distinct(names) && Elements(names) == Backups(local, us, unread) && forall n | n in names :: '/' !in n
  {
    hide Names.ParsePublished, LocalStore.Valid, Newer;
    SortedIsDistinct(q);
    var names := seq(|q|, i requires 0 <= i < |q| => q[i].name);
    forall i, j | 0 <= i < j < |q|
      ensures names[i] != names[j]
    {
      assert q[i] in q && q[j] in q;
      LocalStore.ValidByName(local.files, local.manifests, us, q[i]);
      LocalStore.ValidByName(local.files, local.manifests, us, q[j]);
    }
    forall i | 0 <= i < |q|
      ensures '/' !in names[i] && names[i] in Backups(local, us, unread)
    {
      assert q[i] in q;
      LocalStore.ValidByName(local.files, local.manifests, us, q[i]);
      Names.NoSlash(q[i].name);
    }
    forall n | n in Backups(local, us, unread)
      ensures n in names
    {
      var x :| x in LocalStore.Valid(local.files, local.manifests, us) && x.name == n;
      assert x in q;
      var i :| 0 <= i < |q| && q[i] == x;
      assert names[i] == n;
    }
  }

  /** An unknown age never holds a copy back. */
  predicate TooOld(m: Manifest, cutoff: Option<int>) {
    cutoff.Some? && m.published.Some? && m.published.value < cutoff.value
  }

  /** Without a period nothing is held back. */
  function Cutoff(now: int, days: int): Option<int> {
    if days > 0 then Some(now - days * DAY) else None
  }

  predicate IsDue(local: Local, us: string, cutoff: Option<int>, name: string) {
    Whole(local, us, name) && !TooOld(Note(local, us, name), cutoff)
  }

  predicate IsPast(local: Local, us: string, cutoff: Option<int>, name: string) {
    Whole(local, us, name) && TooOld(Note(local, us, name), cutoff)
  }

  /** The copies a run owes the container: whole, readable and not past the period. */
  ghost function Due(local: Local, us: string, cutoff: Option<int>, unread: set<string>): set<string> {
    set n | n in local.files && n !in unread && IsDue(local, us, cutoff, n)
  }

  /** Exactly: with no period, no known time, or a time within the period, a readable whole copy is due. */
  lemma {:induction false} DueExactly(local: Local, us: string, now: int, days: int, unread: set<string>, name: string)
    ensures var readable := name in local.files && name !in unread && Whole(local, us, name);
            && (name in Due(local, us, Cutoff(now, days), unread) <==>
                  && readable
                  && var at := Note(local, us, name).published;
                     days <= 0 || at.None? || at.value >= now - days * DAY)
            && (name in PastDue(local, us, Cutoff(now, days), unread) <==>
                  && readable && days > 0
                  && var at := Note(local, us, name).published;
                     at.Some? && at.value < now - days * DAY)
  {
    hide Whole, Note;
  }

  ghost function PastDue(local: Local, us: string, cutoff: Option<int>, unread: set<string>): set<string> {
    set n | n in local.files && n !in unread && IsPast(local, us, cutoff, n)
  }

  /**
   * completeRecordings: every whole copy that could be read, without those already older than the remote retention
   * period.
   */
  method CompleteRecordings(local: Local, us: string, cutoff: Option<int>, lists: bool, fails: set<string>)
    returns (found: Option<seq<string>>, past: seq<string>, ghost unread: set<string>)
    ensures unread <= fails && (found.Some? <==> lists) && (!lists ==> unread == {} && past == [])
    ensures Distinct(past) && forall n | n in unread :: Whole(local, us, n)
    ensures found.Some? ==> Distinct(found.value) && Elements(found.value) == Due(local, us, cutoff, unread)
    ensures found.Some? ==> Elements(past) == PastDue(local, us, cutoff, unread)
  {
    hide Whole;
    past, unread := [], {};
    if !lists {
      return None, past, unread;
    }
    var names: seq<string> := [];
    var left := local.files.Keys;
    while left != {}
      invariant left <= local.files.Keys && unread !! left && unread <= fails && Distinct(names) && Distinct(past)
      invariant forall n | n in unread :: Whole(local, us, n)
      invariant Elements(names) == Due(local, us, cutoff, unread + left)
      invariant Elements(past) == PastDue(local, us, cutoff, unread + left)
      decreases left
    {
      var name :| name in left;
      var readable := LocalStore.VerifyFile(local.files, local.manifests, us, name, name !in fails);
      OneFile(local, us, cutoff, unread, left, name);
      AcceptedIsWhole(local, us, name);
      assert name !in Elements(names) && name !in Elements(past);
      left := left - {name};
      DistinctAppend(names, name);
      DistinctAppend(past, name);
      ElementsAppend(names, name);
      ElementsAppend(past, name);
      if !readable {
        if Whole(local, us, name) {
          unread := unread + {name};
        } else {
          NotWhole(local, us, cutoff, unread, left, name);
        }
      } else {
        if TooOld(Note(local, us, name), cutoff) {
          past := past + [name];
        } else {
          names := names + [name];
        }
      }
    }
    assert unread + left == unread;
    return Some(names), past, unread;
  }

  lemma {:induction false} AcceptedIsWhole(local: Local, us: string, name: string)
    ensures LocalStore.Accepts(local.files, local.manifests, us, name) <==> Whole(local, us, name)
  {
  }

  lemma {:induction false} NotWhole(local: Local, us: string, cutoff: Option<int>, unread: set<string>,
                                    left: set<string>, name: string)
    requires !Whole(local, us, name)
    ensures Due(local, us, cutoff, unread + {name} + left) == Due(local, us, cutoff, unread + left)
    ensures PastDue(local, us, cutoff, unread + {name} + left) == PastDue(local, us, cutoff, unread + left)
  {
  }

  lemma {:induction false} OneFile(local: Local, us: string, cutoff: Option<int>, unread: set<string>,
                                   left: set<string>, name: string)
    requires name in left && name in local.files && name !in unread
    ensures unread + {name} + (left - {name}) == unread + left
    ensures Due(local, us, cutoff, unread + (left - {name}))
            == if IsDue(local, us, cutoff, name) then Due(local, us, cutoff, unread + left) + {name}
               else Due(local, us, cutoff, unread + left)
    ensures PastDue(local, us, cutoff, unread + (left - {name}))
            == if IsPast(local, us, cutoff, name) then PastDue(local, us, cutoff, unread + left) + {name}
               else PastDue(local, us, cutoff, unread + left)
  {
    hide IsDue, IsPast;
  }

  // --- one run's passage through the recordings area ---------------------

  function CopyKey(name: string): Key {
    DataKey(Recordings, name)
  }

  /**
   * What sending did: only due copies were tried, what was sent is there, and every blob of ours was there before or
   * arrived in this run.
   */
  ghost predicate SendsSo(before: Blobs, after: Blobs, us: string, rec: Local, cutoff: Option<int>, begun: int,
                          sent: set<string>, tried: set<string>) {
    && sent <= tried && (forall n | n in tried :: IsDue(rec, us, cutoff, n))
    && (forall n | n in sent :: Ours(after, us, CopyKey(n)))
    && (forall n | Ours(before, us, CopyKey(n)) :: Ours(after, us, CopyKey(n)))
    && (forall n | Ours(after, us, CopyKey(n)) ::
          || (Ours(before, us, CopyKey(n)) && after[CopyKey(n)] == before[CopyKey(n)])
          || (n in tried && after[CopyKey(n)].modified.Some? && begun <= after[CopyKey(n)].modified.value))
  }

  /** What forgetting did: `removed` is exactly what was ours and is no more, and all of it was past the period. */
  ghost predicate ForgetsSo(before: Blobs, after: Blobs, us: string, days: int, ended: int, removed: set<string>) {
    && (forall n | CopyKey(n) in after :: CopyKey(n) in before && after[CopyKey(n)] == before[CopyKey(n)])
    && (forall n :: n in removed <==> Ours(before, us, CopyKey(n)) && !Ours(after, us, CopyKey(n)))
    && (forall n | n in removed :: days > 0 && Past(before, n, ended - days * DAY))
  }

  /** One run as it went: the container before, after the sending and at the end, and what was sent and removed. */
  datatype Passage = Passage(before: Blobs, between: Blobs, after: Blobs, begun: int, ended: int, days: int, rec: Local,
                             sent: set<string>, tried: set<string>, removed: set<string>)

  ghost predicate Passes(p: Passage, us: string) {
    && p.begun <= p.ended
    && SendsSo(p.before, p.between, us, p.rec, Cutoff(p.begun, p.days), p.begun, p.sent, p.tried)
    && ForgetsSo(p.between, p.after, us, p.days, p.ended, p.removed)
  }

  lemma {:induction false} SentSo(first: Blobs, before: Blobs, after: Blobs, us: string, rec: Local,
                                  cutoff: Option<int>, begun: int, since: int, sent: set<string>, failed: set<string>)
    requires forall k: Key | k.area == Recordings :: Same(first, before, k)
    requires Touches(before, after, Recordings, sent + failed) && Fresh(before, after, us, since) && begun <= since
    requires forall n | n in sent :: Whole(rec, us, n) && Arrived(after, us, Recordings, rec, n)
    requires forall n | n in sent + failed :: IsDue(rec, us, cutoff, n)
    ensures SendsSo(first, after, us, rec, cutoff, begun, sent, sent + failed)
  {
    hide IsDue, Whole;
    forall n
      ensures Same(first, before, CopyKey(n))
      ensures n !in sent + failed ==> Same(before, after, CopyKey(n))
    {
    }
  }

  lemma {:induction false} SentNothing(first: Blobs, after: Blobs, us: string, rec: Local, cutoff: Option<int>,
                                       begun: int)
    requires forall k: Key | k.area == Recordings :: Same(first, after, k)
    ensures SendsSo(first, after, us, rec, cutoff, begun, {}, {})
  {
    forall n
      ensures Same(first, after, CopyKey(n))
    {
    }
  }

  lemma {:induction false} ForgotNothing(blobs: Blobs, us: string, days: int, ended: int)
    ensures ForgetsSo(blobs, blobs, us, days, ended, {})
  {
  }

  lemma {:induction false} ForgotLater(before: Blobs, mid: Blobs, after: Blobs, us: string, days: int, ended: int,
                                       removed: set<string>, later: int)
    requires ForgetsSo(before, mid, us, days, ended, removed) && ended <= later
    requires forall k: Key | k.area == Recordings :: Same(mid, after, k)
    ensures ForgetsSo(before, after, us, days, later, removed)
  {
    forall n
      ensures Same(mid, after, CopyKey(n))
    {
    }
  }

  // --- the whole run -----------------------------------------------------

  /** What happens in the recordings area leaves the database area's verdicts alone. */
  lemma {:induction false} RecordingsAreApart(before: Blobs, after: Blobs, us: string, local: Local)
    requires forall k: Key | k.area == Database :: Same(before, after, k)
    ensures Held(before, us) == Held(after, us)
    ensures SameOrigin(before, us, local) ==> SameOrigin(after, us, local)
  {
    hide Whole;
    forall x: Stamp
      ensures x in Held(before, us) <==> x in Held(after, us)
    {
      HeldByName(before, us, x);
      HeldByName(after, us, x);
      VerdictIsLocal(before, after, us, Database, x.name);
    }
    forall n
      ensures Same(before, after, NoteKey(Database, n))
    {
    }
  }

  lemma {:induction false} TouchesKeys(before: Blobs, after: Blobs, area: Area, names: set<string>)
    requires Touches(before, after, area, names)
    ensures before.Keys <= after.Keys
    ensures forall k: Key | k.area != area :: Same(before, after, k)
  {
  }

  lemma {:induction false} ArrivedOf(before: Blobs, after: Blobs, us: string, area: Area, local: Local,
                                     names: set<string>, sent: set<string>)
    requires Sent(before, after, us, area, local, names, sent)
    ensures forall n | n in sent :: Whole(local, us, n) && Arrived(after, us, area, local, n)
  {
  }

  /** The database half of what sending did. */
  ghost predicate HoldsAll(before: Blobs, after: Blobs, us: string, db: Local, database: Outcome) {
    var sent, failed := Elements(database.uploaded), Elements(database.failed);
    && (forall x: Stamp | x.name !in failed :: x in Held(after, us) <==> x in Union(Held(before, us), db, us, sent))
    && (SameOrigin(before, us, db) && Datable(db, us) ==>
          && Union(Held(before, us), db, us, sent)
             == Union(Held(before, us), db, us, sent + Elements(database.alreadyThere))
          && (failed == {} ==> SameOrigin(after, us, db)))
  }

  lemma {:induction false} AllHeld(before: Blobs, after: Blobs, us: string, db: Local, database: Outcome)
    requires var sent, there := Elements(database.uploaded), Elements(database.alreadyThere);
             && Sound(before, us) && Touches(before, after, Database, sent + Elements(database.failed))
             && Sent(before, after, us, Database, db, sent + there, sent)
             && forall n | n in sent + there :: '/' !in n
    ensures HoldsAll(before, after, us, db, database)
  {
    hide Sound, Sent, Touches, Held, Elements, SameOrigin, Datable, Union, Twin;
    var sent, failed := Elements(database.uploaded), Elements(database.failed);
    var names := sent + Elements(database.alreadyThere);
    HeldAfterUpload(before, after, us, db, names, sent, failed);
    if SameOrigin(before, us, db) && Datable(db, us) {
      SameOriginIsTwin(before, after, us, db, names, sent);
      HeldIsUnion(before, after, us, db, names, sent);
      if failed == {} {
        assert sent + failed == sent;
        SameOriginStays(before, after, us, db, names, sent);
      }
    }
  }

  lemma {:induction false} NoneHeld(blobs: Blobs, us: string, db: Local, database: Outcome)
    requires Sound(blobs, us) && database == Outcome([], [], [])
    ensures HoldsAll(blobs, blobs, us, db, database)
  {
    NothingSent(blobs, us, Database, db);
    AllHeld(blobs, blobs, us, db, database);
  }

  /** Only what has a fault of its own was left out as unread. */
  ghost predicate Blameless(dbUnread: set<string>, unread: set<string>, before: seq<Fault>, after: seq<Fault>) {
    && (forall n | n in dbUnread :: Blamed(before, after, Database, n))
    && (forall n | n in unread :: Blamed(before, after, Recordings, n))
  }

  /** In both areas every file mentioned that has no fault of its own is where it belongs by what was there before. */
  ghost predicate WellPlaced(blobs: Blobs, us: string, db: Local, rec: Local, database: Outcome, recordings: Outcome,
                             before: seq<Fault>, after: seq<Fault>) {
    && Placed(blobs, us, Database, db, Mentioned(database), database, before, after)
    && Placed(blobs, us, Recordings, rec, Mentioned(recordings), recordings, before, after)
  }

  /** Exactly the local backups and the due copies are mentioned, and those past the period named. */
  ghost predicate Reported(db: Local, rec: Local, us: string, cutoff: Option<int>, database: Outcome,
                           recordings: Outcome, past: seq<string>) {
    && Mentioned(database) == Backups(db, us, {}) && Mentioned(recordings) == Due(rec, us, cutoff, {})
    && Elements(past) == PastDue(rec, us, cutoff, {})
  }

  /** The service dates every recording's copy. */
  ghost predicate AllDated(blobs: Blobs) {
    forall k | k in blobs && k.DataKey? && k.area == Recordings :: blobs[k].modified.Some?
  }

  /** Of every file sent or found there is a matching copy. */
  ghost predicate AllThere(blobs: Blobs, us: string, area: Area, local: Local, out: Outcome) {
    forall n | n in out.uploaded || n in out.alreadyThere ::
      Whole(local, us, n) && Remote(blobs, us, area, n, Note(local, us, n))
  }

  lemma {:induction false} NoneThere(blobs: Blobs, us: string, area: Area, local: Local)
    ensures AllThere(blobs, us, area, local, Outcome([], [], []))
  {
  }

  lemma {:induction false} SentIsThere(before: Blobs, after: Blobs, us: string, area: Area, local: Local, out: Outcome)
    requires Sent(before, after, us, area, local, Elements(out.uploaded) + Elements(out.alreadyThere),
                  Elements(out.uploaded))
    ensures AllThere(after, us, area, local, out)
  {
    forall n | n in out.uploaded || n in out.alreadyThere
      ensures Whole(local, us, n) && Remote(after, us, area, n, Note(local, us, n))
    {
      assert n in Elements(out.uploaded) || n in Elements(out.uploaded) + Elements(out.alreadyThere)
                                                - Elements(out.uploaded);
    }
  }

  lemma {:induction false} ThereApart(before: Blobs, after: Blobs, us: string, area: Area, local: Local, out: Outcome)
    requires AllThere(before, us, area, local, out) && forall k: Key | k.area == area :: Same(before, after, k)
    ensures AllThere(after, us, area, local, out)
  {
    hide Whole, Note;
    forall n | n in out.uploaded || n in out.alreadyThere
      ensures Whole(local, us, n) && Remote(after, us, area, n, Note(local, us, n))
    {
      assert Same(before, after, DataKey(area, n)) && Same(before, after, NoteKey(area, n));
    }
  }

  lemma {:induction false} FreshIsDated(before: Blobs, after: Blobs, us: string, since: int)
    requires Fresh(before, after, us, since)
    ensures AllDated(before) ==> AllDated(after)
  {
  }

  lemma {:induction false} PlacedLater(blobs: Blobs, us: string, db: Local, rec: Local, database: Outcome,
                                       recordings: Outcome, dbUnread: set<string>, unread: set<string>,
                                       a: seq<Fault>, b: seq<Fault>, c: seq<Fault>)
    requires WellPlaced(blobs, us, db, rec, database, recordings, a, b) && Blameless(dbUnread, unread, a, b)
    requires a <= b <= c
    ensures WellPlaced(blobs, us, db, rec, database, recordings, a, c) && Blameless(dbUnread, unread, a, c)
    ensures a == c ==> a == b
  {
    hide Placed, Blamed, Mentioned;
    PlacedAmong(blobs, us, Database, db, Mentioned(database), database, a, a, b, c);
    PlacedAmong(blobs, us, Recordings, rec, Mentioned(recordings), recordings, a, a, b, c);
    StillUnread(dbUnread, a, a, b, c, Database);
    StillUnread(unread, a, a, b, c, Recordings);
  }

  /** The local backups. */
  method SendDatabase(c: Store, db: Local) returns (out: Outcome, listed: bool, ok: bool, ghost unread: set<string>)
    requires Sound(c.blobs, c.us)
    modifies c`blobs, c`killed, c`now, c`log, c`faults
    ensures Sound(c.blobs, c.us) && (old(c.killed) ==> c.killed && c.blobs == old(c.blobs)) && old(c.now) <= c.now
    ensures old(c.blobs).Keys <= c.blobs.Keys && old(c.log) <= c.log && old(c.faults) <= c.faults
    ensures Fresh(old(c.blobs), c.blobs, c.us, old(c.now))
    ensures forall k: Key | k.area == Recordings :: Same(old(c.blobs), c.blobs, k)
    ensures HoldsAll(old(c.blobs), c.blobs, c.us, db, out) && AllThere(c.blobs, c.us, Database, db, out)
    ensures (ok ==> listed) && (listed && ok ==> AllArrived(out, Backups(db, c.us, unread)))
    ensures unread <= Backups(db, c.us, {}) && forall n | n in unread :: Blamed(old(c.faults), c.faults, Database, n)
    ensures Placed(old(c.blobs), c.us, Database, db, Mentioned(out), out, old(c.faults), c.faults)
    ensures !listed ==> c.blobs == old(c.blobs) && out == Outcome([], [], [])
    ensures !listed ==> c.faults == old(c.faults) + [Listing(Database)]
    ensures !old(c.killed) && c.faults == old(c.faults) ==>
              && listed && !c.killed && Mentioned(out) == Backups(db, c.us, {}) && (ok <==> out.failed == [])
  {
    hide Sound, Fresh, Sent, Touches, Held, Whole, HoldsAll, Backups, Elements, Placed, Blamed, AllThere, Mentioned;
    out, listed, ok := Outcome([], [], []), false, false;
    NoneThere(c.blobs, c.us, Database, db);
    NoneHeld(c.blobs, c.us, db, out);
    NoUpload(c.blobs, c.us, Database, [], c.now);
    NoneOf();
    NothingMentioned(out);
    var lists, fails := Chances(c, Database);
    var names;
    names, unread := BackupNames(db, c.us, lists, fails);
    ghost var listing := c.faults;
    NonePlaced(c.blobs, c.us, Database, db, out, old(c.faults), c.faults);
    if names.None? {
      return;
    }
    listed := true;
    out, ok := UploadAll(c, db, names.value, Database);
    OutcomeParts(out);
    NoSlashes(names.value, Elements(out.uploaded) + Elements(out.alreadyThere));
    AllHeld(old(c.blobs), c.blobs, c.us, db, out);
    TouchesKeys(old(c.blobs), c.blobs, Database, Elements(out.uploaded) + Elements(out.failed));
    SentIsThere(old(c.blobs), c.blobs, c.us, Database, db, out);
    StillUnread(unread, old(c.faults), old(c.faults), listing, c.faults, Database);
    PlacedAmong(old(c.blobs), c.us, Database, db, Mentioned(out), out, old(c.faults), listing, c.faults, c.faults);
    NoBlame(listing, Database, names.value);
    AllQuiet(old(c.faults), listing, listing, listing, c.faults);
    if c.faults == old(c.faults) {
      assert unread == {};
    }
  }

  /** The recording copies that are due. */
  method SendRecordings(c: Store, rec: Local, cutoff: Option<int>, ghost begun: int)
    returns (out: Outcome, past: seq<string>, ok: bool, ghost unread: set<string>)
    requires Sound(c.blobs, c.us) && begun <= c.now
    modifies c`blobs, c`killed, c`now, c`log, c`faults
    ensures Sound(c.blobs, c.us) && (old(c.killed) ==> c.killed && c.blobs == old(c.blobs)) && old(c.now) <= c.now
    ensures old(c.blobs).Keys <= c.blobs.Keys && old(c.log) <= c.log && old(c.faults) <= c.faults
    ensures Fresh(old(c.blobs), c.blobs, c.us, begun)
    ensures forall k: Key | k.area == Database :: Same(old(c.blobs), c.blobs, k)
    ensures SendsSo(old(c.blobs), c.blobs, c.us, rec, cutoff, begun, Elements(out.uploaded),
                    Elements(out.uploaded) + Elements(out.failed))
    ensures AllThere(c.blobs, c.us, Recordings, rec, out)
    ensures ok ==> AllArrived(out, Due(rec, c.us, cutoff, unread))
    ensures ok ==> Elements(past) == PastDue(rec, c.us, cutoff, unread)
    ensures forall n | n in unread :: Whole(rec, c.us, n) && Blamed(old(c.faults), c.faults, Recordings, n)
    ensures Placed(old(c.blobs), c.us, Recordings, rec, Mentioned(out), out, old(c.faults), c.faults)
    ensures !old(c.killed) && c.faults == old(c.faults) ==>
              && Mentioned(out) == Due(rec, c.us, cutoff, {}) && Elements(past) == PastDue(rec, c.us, cutoff, {})
              && (ok <==> out.failed == [])
  {
    hide Sound, Fresh, Sent, Touches, Whole, IsDue, IsPast, SendsSo, Elements, Placed, Blamed, Due, PastDue, AllThere,
         Mentioned;
    out, past, ok, unread := Outcome([], [], []), [], false, {};
    NoneThere(c.blobs, c.us, Recordings, rec);
    SentNothing(c.blobs, c.blobs, c.us, rec, cutoff, begun);
    NoUpload(c.blobs, c.us, Recordings, [], begun);
    NoneOf();
    NothingMentioned(out);
    var lists, fails := Chances(c, Recordings);
    ghost var listing := c.faults;
    NonePlaced(c.blobs, c.us, Recordings, rec, out, old(c.faults), c.faults);
    var found;
    found, past, unread := CompleteRecordings(rec, c.us, cutoff, lists, fails);
    if found.None? {
      return;
    }
    var names := found.value;
    ghost var since := c.now;
    out, ok := UploadAll(c, rec, names, Recordings);
    OutcomeParts(out);
    ghost var sent, failed := Elements(out.uploaded), Elements(out.failed);
    FreshTwice(old(c.blobs), old(c.blobs), c.blobs, c.us, begun, since);
    SentIsThere(old(c.blobs), c.blobs, c.us, Recordings, rec, out);
    ArrivedOf(old(c.blobs), c.blobs, c.us, Recordings, rec, sent + Elements(out.alreadyThere), sent);
    DueAre(rec, c.us, cutoff, unread, sent + failed);
    SentSo(old(c.blobs), old(c.blobs), c.blobs, c.us, rec, cutoff, begun, since, sent, failed);
    TouchesKeys(old(c.blobs), c.blobs, Recordings, sent + failed);
    StillUnread(unread, old(c.faults), old(c.faults), listing, c.faults, Recordings);
    PlacedAmong(old(c.blobs), c.us, Recordings, rec, Mentioned(out), out, old(c.faults), listing, c.faults, c.faults);
    NoBlame(listing, Recordings, names);
    AllQuiet(old(c.faults), listing, listing, listing, c.faults);
    if c.faults == old(c.faults) {
      assert unread == {};
    }
  }

  lemma {:induction false} OutcomeParts(out: Outcome)
    ensures Mentioned(out) == Elements(out.uploaded) + Elements(out.alreadyThere) + Elements(out.failed)
    ensures out.failed == [] ==> Elements(out.failed) == {}
  {
  }

  lemma {:induction false} NothingMentioned(out: Outcome)
    ensures out == Outcome([], [], []) ==> Mentioned(out) == {}
  {
  }

  lemma {:induction false} SendsApart(first: Blobs, before: Blobs, after: Blobs, us: string, rec: Local,
                                      cutoff: Option<int>, begun: int, sent: set<string>, tried: set<string>)
    requires SendsSo(before, after, us, rec, cutoff, begun, sent, tried)
    requires forall k: Key | k.area == Recordings :: Same(first, before, k)
    ensures SendsSo(first, after, us, rec, cutoff, begun, sent, tried)
  {
    hide IsDue;
    forall n
      ensures Same(first, before, CopyKey(n))
    {
    }
  }

  /** Both areas, database first; a failure in one does not stop the other. */
  method SendBoth(c: Store, db: Local, rec: Local, days: int)
    returns (database: Outcome, recordings: Outcome, past: seq<string>, listed: bool, ok: bool,
             ghost dbUnread: set<string>, ghost unread: set<string>)
    requires Sound(c.blobs, c.us)
    modifies c`blobs, c`killed, c`now, c`log, c`faults
    ensures Sound(c.blobs, c.us) && (old(c.killed) ==> c.killed && c.blobs == old(c.blobs)) && old(c.now) <= c.now
    ensures old(c.blobs).Keys <= c.blobs.Keys && old(c.log) <= c.log
    ensures HoldsAll(old(c.blobs), c.blobs, c.us, db, database)
    ensures SendsSo(old(c.blobs), c.blobs, c.us, rec, Cutoff(old(c.now), days), old(c.now),
                    Elements(recordings.uploaded), Elements(recordings.uploaded) + Elements(recordings.failed))
    ensures ok ==> AllArrived(database, Backups(db, c.us, dbUnread))
    ensures ok ==> AllArrived(recordings, Due(rec, c.us, Cutoff(old(c.now), days), unread))
    ensures ok ==> Elements(past) == PastDue(rec, c.us, Cutoff(old(c.now), days), unread)
    ensures dbUnread <= Backups(db, c.us, {}) && forall n | n in unread :: Whole(rec, c.us, n)
    ensures old(c.faults) <= c.faults
    ensures Blameless(dbUnread, unread, old(c.faults), c.faults)
    ensures WellPlaced(old(c.blobs), c.us, db, rec, database, recordings, old(c.faults), c.faults)
    ensures !old(c.killed) && c.faults == old(c.faults) ==>
              && Reported(db, rec, c.us, Cutoff(old(c.now), days), database, recordings, past)
              && (ok <==> database.failed == [] && recordings.failed == [])
    ensures AllDated(old(c.blobs)) ==> AllDated(c.blobs)
    ensures AllThere(c.blobs, c.us, Database, db, database) && AllThere(c.blobs, c.us, Recordings, rec, recordings)
    ensures !listed ==> c.blobs == old(c.blobs) && database == recordings == Outcome([], [], []) && !ok
  {
    hide Sound, Held, Whole, IsDue, IsPast, HoldsAll, SendsSo, Backups, Elements, Fresh;
    hide Placed, Blamed, Due, PastDue, AllDated, AllThere, Mentioned, PlacedAs;
    var ran := c.now;
    recordings, past, ok, unread := Outcome([], [], []), [], false, {};
    NoneThere(c.blobs, c.us, Recordings, rec);
    NoneOf();
    NothingMentioned(recordings);
    var dbOk;
    database, listed, dbOk, dbUnread := SendDatabase(c, db);
    ghost var middle, sending := c.blobs, c.faults;
    SentNothing(old(c.blobs), middle, c.us, rec, Cutoff(ran, days), ran);
    FreshIsDated(old(c.blobs), middle, c.us, ran);
    NonePlaced(old(c.blobs), c.us, Recordings, rec, recordings, old(c.faults), c.faults);
    NoneThere(c.blobs, c.us, Recordings, rec);
    if !listed {
      return;
    }
    var recOk;
    recordings, past, recOk, unread := SendRecordings(c, rec, Cutoff(ran, days), ran);
    StillUnread(dbUnread, old(c.faults), old(c.faults), sending, c.faults, Database);
    StillUnread(unread, old(c.faults), sending, c.faults, c.faults, Recordings);
    PlacedAmong(old(c.blobs), c.us, Database, db, Mentioned(database), database, old(c.faults), old(c.faults), sending,
                c.faults);
    PlacedApart(old(c.blobs), middle, c.us, Recordings, rec, Mentioned(recordings), recordings, sending, c.faults);
    PlacedAmong(old(c.blobs), c.us, Recordings, rec, Mentioned(recordings), recordings, old(c.faults), sending,
                c.faults, c.faults);
    FreshIsDated(middle, c.blobs, c.us, ran);
    ThereApart(middle, c.blobs, c.us, Database, db, database);
    SendsApart(old(c.blobs), middle, c.blobs, c.us, rec, Cutoff(ran, days), ran, Elements(recordings.uploaded),
               Elements(recordings.uploaded) + Elements(recordings.failed));
    HoldsApart(old(c.blobs), middle, c.blobs, c.us, db, database);
    ok := dbOk && recOk;
    AllQuiet(old(c.faults), sending, sending, sending, c.faults);
  }

  lemma {:induction false} AllQuiet(a: seq<Fault>, b: seq<Fault>, c: seq<Fault>, d: seq<Fault>, e: seq<Fault>)
    requires a <= b <= c <= d <= e
    ensures a == e ==> a == b == c == d
  {
  }

  lemma {:induction false} NoBlame(faults: seq<Fault>, area: Area, names: seq<string>)
    ensures !SomeBlamed(faults, faults, area, names)
  {
  }

  lemma {:induction false} StillUnread(names: set<string>, a: seq<Fault>, b: seq<Fault>, c: seq<Fault>, d: seq<Fault>,
                                       area: Area)
    requires a <= b <= c <= d && forall n | n in names :: Blamed(b, c, area, n)
    ensures forall n | n in names :: Blamed(a, d, area, n)
  {
    hide Blames;
    forall n | n in names
      ensures Blamed(a, d, area, n)
    {
      BlamedLater(b, c, d, area, n);
      BlamedLater(a, b, d, area, n);
    }
  }

  /** Every name is reported, and none of them as failed. */
  ghost predicate AllArrived(out: Outcome, names: set<string>) {
    out.failed == [] && Elements(out.uploaded) + Elements(out.alreadyThere) == names
  }

  lemma {:induction false} NoneOf()
    ensures Elements<string>([]) == Elements<string>([]) + Elements<string>([]) == {}
  {
  }

  lemma {:induction false} NoSlashes(names: seq<string>, some: set<string>)
    requires some <= Elements(names) && forall n | n in names :: '/' !in n
    ensures forall n | n in some :: '/' !in n
  {
  }

  lemma {:induction false} DueAre(local: Local, us: string, cutoff: Option<int>, unread: set<string>, some: set<string>)
    requires some <= Due(local, us, cutoff, unread)
    ensures forall n | n in some :: IsDue(local, us, cutoff, n)
  {
  }

  lemma {:induction false} HoldsApart(before: Blobs, mid: Blobs, after: Blobs, us: string, db: Local, database: Outcome)
    requires HoldsAll(before, mid, us, db, database) && forall k: Key | k.area == Database :: Same(mid, after, k)
    ensures HoldsAll(before, after, us, db, database)
  {
    hide Held, SameOrigin, Union, Datable;
    RecordingsAreApart(mid, after, us, db);
  }

  /** The readings of a run are among those made since `from`. */
  ghost predicate HeardSince(log: Readings, from: nat, heard: Readings) {
    exists a: Readings, b: Readings :: from <= |a| && log == a + heard + b
  }

  lemma {:induction false} HeardAfter(first: Readings, middle: Readings, heard: Readings, log: Readings)
    requires first <= middle && middle + heard <= log
    ensures HeardSince(log, |first|, heard)
  {
    assert log == middle + heard + log[|middle + heard|..];
  }

  /**
   * Upload. A run whose uploads did not all succeed removes nothing. A run without failures sent or found every due
   * copy, and leaves exactly the newest `keep` of what was held and the local backups. `p` is its passage through the
   * recordings area: what it tried, sent and removed there, and that only copies past the period are removed.
   */
  method Upload(c: Store, db: Local, rec: Local, days: int, asked: int)
    returns (database: Outcome, recordings: Outcome, past: seq<string>, sent: bool, ok: bool, ghost trace: seq<Check>,
             ghost p: Passage, ghost dbUnread: set<string>, ghost unread: set<string>)
    requires Sound(c.blobs, c.us)
    modifies c`blobs, c`killed, c`now, c`log, c`faults
    ensures Sound(c.blobs, c.us) && (old(c.killed) ==> c.killed) && old(c.now) <= c.now && old(c.log) <= c.log
    ensures p.before == old(c.blobs) && p.after == c.blobs && p.begun == old(c.now) && p.ended == c.now
    ensures p.days == days && p.rec == rec && p.sent == Elements(recordings.uploaded)
    ensures p.tried == Elements(recordings.uploaded) + Elements(recordings.failed) && Passes(p, c.us)
    ensures !sent ==> !ok && old(c.blobs).Keys <= c.blobs.Keys && p.removed == {}
    ensures sent ==> AllArrived(database, Backups(db, c.us, dbUnread))
    ensures sent ==> AllArrived(recordings, Due(rec, c.us, Cutoff(old(c.now), days), unread))
    ensures sent ==> Elements(past) == PastDue(rec, c.us, Cutoff(old(c.now), days), unread)
    ensures ok && days > 0 && c.orderly ==> NoneOverdue(c.blobs, c.us, old(c.now) - days * DAY)
    ensures ok ==> HeardSince(c.log, |old(c.log)|, Heard(trace))
    ensures dbUnread <= Backups(db, c.us, {}) && forall n | n in unread :: Whole(rec, c.us, n)
    ensures var keep, all := if asked == 0 then DEFAULT_KEEP else asked,
                             Union(Held(old(c.blobs), c.us), db, c.us, Elements(database.uploaded));
            && (sent ==> Held(c.blobs, c.us) <= all)
            && (sent ==> if keep < 1 then !ok else Newest(all, keep) <= Held(c.blobs, c.us))
            && (ok && AllFine(trace) && c.orderly ==> keep >= 1 && Held(c.blobs, c.us) == Newest(all, keep))
    ensures var keep, names := if asked == 0 then DEFAULT_KEEP else asked, Backups(db, c.us, dbUnread);
            ok && AllFine(trace) && c.orderly && SameOrigin(old(c.blobs), c.us, db) && Datable(db, c.us) ==>
              && keep >= 1
              && Held(c.blobs, c.us) == Newest(Union(Held(old(c.blobs), c.us), db, c.us, names), keep)
              && SameOrigin(c.blobs, c.us, db)
    ensures old(c.faults) <= c.faults && Blameless(dbUnread, unread, old(c.faults), c.faults)
    ensures WellPlaced(old(c.blobs), c.us, db, rec, database, recordings, old(c.faults), c.faults)
    ensures AllThere(p.between, c.us, Database, db, database) && AllThere(p.between, c.us, Recordings, rec, recordings)
    ensures OnlyFewer(p.between, c.blobs)
    ensures !old(c.killed) && c.faults == old(c.faults) ==>
              && Reported(db, rec, c.us, Cutoff(old(c.now), days), database, recordings, past)
              && (sent <==> database.failed == [] && recordings.failed == [])
              && (days <= 0 || AllDated(old(c.blobs)) ==> (ok <==> sent && asked >= 0))
  {
    hide Blameless, WellPlaced, Reported, AllDated, Blamed, AllThere;
    hide Sound, SameOrigin, Held, Datable, Union, Newest, SendsSo, ForgetsSo, HoldsAll, PrunedTo, Covers, AllFine;
    hide NoneOverdue, Due, Backups, Heard, HeardSince;
    ok, trace := false, [];
    var listed;
    database, recordings, past, listed, sent, dbUnread, unread := SendBoth(c, db, rec, days);
    ghost var between, up, failed := c.blobs, Elements(recordings.uploaded), Elements(recordings.failed);
    ForgotNothing(between, c.us, days, c.now);
    p := Passage(old(c.blobs), between, c.blobs, old(c.now), c.now, days, rec, up, up + failed, {});
    ghost var sending := c.faults;
    if !sent {
      return;
    }
    var fine: bool;
    ghost var begun, removed := c.now, {};
    fine, removed := Forget(c, days);
    p := p.(after := c.blobs, ended := c.now, removed := removed);
    ghost var forgetting := c.faults;
    PlacedLater(old(c.blobs), c.us, db, rec, database, recordings, dbUnread, unread, old(c.faults), sending, c.faults);
    HoldsApart(old(c.blobs), between, c.blobs, c.us, db, database);
    ghost var shown, readSoFar, since := c.blobs, c.log, c.now;
    ghost var ran := false;
    var rep: PruneReport := NOTHING;
    if !fine {
      HeldAnyway(old(c.blobs), shown, c.blobs, c.us, db, database, Backups(db, c.us, dbUnread),
                 if asked == 0 then DEFAULT_KEEP else asked, ran, trace, rep, ok);
      return;
    }
    rep, ok, ran, trace := PruneBackups(c, asked);
    PlacedLater(old(c.blobs), c.us, db, rec, database, recordings, dbUnread, unread, old(c.faults), forgetting,
                c.faults);
    NobodyBlamed(forgetting);
    PruningIsApart(shown, c.blobs, c.us, if asked == 0 then DEFAULT_KEEP else asked, ran, trace, rep, ok);
    ForgotLater(between, shown, c.blobs, c.us, days, since, removed, c.now);
    p := p.(after := c.blobs, ended := c.now);
    FewerTwice(between, shown, c.blobs);
    HeardAfter(old(c.log), readSoFar, Heard(trace), c.log);
    if days > 0 {
      if fine && c.orderly {
        OverdueEarlier(shown, c.blobs, c.us, begun - days * DAY, old(c.now) - days * DAY);
      }
    }
    HeldAnyway(old(c.blobs), shown, c.blobs, c.us, db, database, Backups(db, c.us, dbUnread),
               if asked == 0 then DEFAULT_KEEP else asked, ran, trace, rep, ok);
    if ok && AllFine(trace) && c.orderly {
      HeldAtLast(old(c.blobs), shown, c.blobs, c.us, db, database, Backups(db, c.us, dbUnread),
                 if asked == 0 then DEFAULT_KEEP else asked, trace, rep);
    }
  }

  /** Objects are only taken away. */
  ghost predicate OnlyFewer(before: Blobs, after: Blobs) {
    forall k | k in after :: k in before && after[k] == before[k]
  }

  lemma {:induction false} FewerTwice(a: Blobs, b: Blobs, c: Blobs)
    requires OnlyFewer(a, b) && OnlyFewer(b, c)
    ensures OnlyFewer(a, c)
  {
  }

  lemma {:induction false} NobodyBlamed(faults: seq<Fault>)
    ensures !exists n :: Blamed(faults, faults, Database, n)
  {
  }

  lemma {:induction false} PruningIsApart(shown: Blobs, left: Blobs, us: string, keep: int, ran: bool,
                                          trace: seq<Check>,
                                          rep: PruneReport, ok: bool)
    requires ran ==> keep >= 1 && PrunedTo(shown, left, us, keep, trace, rep, ok)
    requires !ran ==> left == shown
    ensures forall k: Key | k.area == Recordings :: Same(shown, left, k)
    ensures OnlyFewer(shown, left)
  {
    hide Held, Newest, Truthful, Among, TookAllBeyond;
    forall k: Key | k.area == Recordings
      ensures Same(shown, left, k)
    {
    }
  }

  /** Once everything was sent, only backups beyond the newest `keep` of the union can be missing. */
  lemma {:induction false} HeldAnyway(before: Blobs, shown: Blobs, left: Blobs, us: string, db: Local,
                                      database: Outcome,
                                      names: set<string>, keep: int, ran: bool, trace: seq<Check>, rep: PruneReport,
                                      ok: bool)
    requires HoldsAll(before, shown, us, db, database) && AllArrived(database, names) && (ok ==> ran)
    requires if ran then keep >= 1 && PrunedTo(shown, left, us, keep, trace, rep, ok) else left == shown
    ensures var all := Union(Held(before, us), db, us, Elements(database.uploaded));
            Held(left, us) <= all && if keep < 1 then !ok else Newest(all, keep) <= Held(left, us)
  {
    hide Held, Newest, Truthful, Among, TookAllBeyond, TakesBeyond, Union, SameOrigin, Datable;
    assert Elements(database.failed) == {};
    assert Held(shown, us) == Union(Held(before, us), db, us, Elements(database.uploaded));
    if keep >= 1 {
      NewestOf(Held(shown, us), keep);
    }
  }

  lemma {:induction false} HeldAtLast(before: Blobs, shown: Blobs, left: Blobs, us: string, db: Local,
                                      database: Outcome,
                                      names: set<string>, keep: nat, trace: seq<Check>, rep: PruneReport)
    requires HoldsAll(before, shown, us, db, database) && AllArrived(database, names)
    requires PrunedTo(shown, left, us, keep, trace, rep, true) && AllFine(trace) && Covers(trace, shown)
    ensures var held := Held(before, us);
            && Held(left, us) == Newest(Union(held, db, us, Elements(database.uploaded)), keep)
            && (SameOrigin(before, us, db) && Datable(db, us) ==>
                  Held(left, us) == Newest(Union(held, db, us, names), keep) && SameOrigin(left, us, db))
  {
    hide Held, Newest, Truthful, Among, TookAllBeyond, Union, SameManifest, Whole, AllFine, Covers;
    assert Elements(database.failed) == {};
    assert Held(shown, us) == Union(Held(before, us), db, us, Elements(database.uploaded));
  }

  /** Expiry, when a period is set. */
  method Forget(c: Store, days: int) returns (ok: bool, ghost removed: set<string>)
    requires Sound(c.blobs, c.us)
    modifies c`blobs, c`killed, c`now, c`log, c`faults
    ensures Sound(c.blobs, c.us) && (old(c.killed) ==> c.killed) && old(c.now) <= c.now && old(c.log) <= c.log
    ensures ForgetsSo(old(c.blobs), c.blobs, c.us, days, c.now, removed)
    ensures forall k: Key | k.area == Database :: Same(old(c.blobs), c.blobs, k)
    ensures ok && days > 0 && c.orderly ==> NoneOverdue(c.blobs, c.us, old(c.now) - days * DAY)
    ensures OnlyFewer(old(c.blobs), c.blobs) && old(c.faults) <= c.faults
    ensures c.faults == old(c.faults) && (days <= 0 || AllDated(old(c.blobs))) ==> ok
  {
    hide Sound, Tallied, NoneOverdue, ExpiredSo, ForgetsSo, ExpiryExcused, AllDated;
    ok, removed := true, {};
    if days > 0 {
      ghost var ran, cutoff, names, gone;
      var rep;
      rep, ok, ran, cutoff, names, gone := Expire(c, days);
      if AllDated(old(c.blobs)) {
        DatedIsExpired(old(c.blobs), rep.failed, c.faults);
      }
      Forgotten(old(c.blobs), c.us, days, cutoff, names, gone, ran, ok, c.now);
      removed := Missing(old(c.blobs), gone, c.us);
      if ok && c.orderly {
        OverdueAreGone(old(c.blobs), c.us, cutoff, gone);
      }
    } else {
      ForgotNothing(c.blobs, c.us, days, c.now);
    }
  }

  lemma {:induction false} DatedIsExpired(blobs: Blobs, failed: seq<string>, faults: seq<Fault>)
    requires AllDated(blobs)
    ensures ExpiryExcused(blobs, failed, faults, faults) ==> failed == []
  {
    if failed != [] {
      assert failed[0] in failed && !Blamed(faults, faults, Recordings, failed[0]);
    }
  }

  /** The recordings of ours that are gone. */
  ghost function Missing(blobs: Blobs, gone: set<Key>, us: string): set<string> {
    set n | n in RecordingNames(blobs) && CopyKey(n) in gone && Ours(blobs, us, CopyKey(n))
  }

  lemma {:induction false} Forgotten(blobs: Blobs, us: string, days: int, cutoff: int, names: set<string>,
                                     gone: set<Key>,
                                     ran: bool, clean: bool, ended: int)
    requires if ran then days >= 1 && ExpiredSo(blobs, us, cutoff, names, gone, clean) else gone == {}
    requires cutoff <= ended - days * DAY
    ensures ForgetsSo(blobs, blobs - gone, us, days, ended, Missing(blobs, gone, us))
    ensures forall k: Key | k.area == Database :: Same(blobs, blobs - gone, k)
  {
    forall n
      ensures n in Missing(blobs, gone, us) <==> Ours(blobs, us, CopyKey(n)) && !Ours(blobs - gone, us, CopyKey(n))
    {
      if CopyKey(n) in blobs {
        assert n in RecordingNames(blobs);
      }
    }
    forall n | n in Missing(blobs, gone, us)
      ensures days > 0 && Past(blobs, n, ended - days * DAY)
    {
      assert Past(blobs, n, cutoff);
    }
  }

  /** No copy past the period is left, but for one whose manifest somebody else put there. */
  ghost predicate NoneOverdue(blobs: Blobs, us: string, cutoff: int) {
    forall n | Past(blobs, n, cutoff) && Ours(blobs, us, CopyKey(n)) ::
      NoteKey(Recordings, n) in blobs && blobs[NoteKey(Recordings, n)].owner != us
  }

  lemma {:induction false} OverdueAreGone(blobs: Blobs, us: string, cutoff: int, gone: set<Key>)
    requires ExpiredSo(blobs, us, cutoff, RecordingNames(blobs), gone, true)
    ensures NoneOverdue(blobs - gone, us, cutoff)
  {
    forall n | Past(blobs - gone, n, cutoff) && Ours(blobs - gone, us, CopyKey(n))
      ensures NoteKey(Recordings, n) in blobs - gone && (blobs - gone)[NoteKey(Recordings, n)].owner != us
    {
      assert CopyKey(n) in blobs;
      assert n in RecordingNames(blobs);
      assert Past(blobs, n, cutoff) && !Mine(blobs, us, n);
    }
  }

  lemma {:induction false} OverdueEarlier(blobs: Blobs, left: Blobs, us: string, cutoff: int, earlier: int)
    requires NoneOverdue(blobs, us, cutoff) && earlier <= cutoff
    requires forall k: Key | k.area == Recordings :: Same(blobs, left, k)
    ensures NoneOverdue(left, us, earlier)
  {
    forall n | Past(left, n, earlier) && Ours(left, us, CopyKey(n))
      ensures NoteKey(Recordings, n) in left && left[NoteKey(Recordings, n)].owner != us
    {
      assert Same(blobs, left, CopyKey(n)) && Same(blobs, left, NoteKey(Recordings, n));
      assert Past(blobs, n, cutoff);
    }
  }

  /** The blob of this name, or its manifest, is not there. */
  ghost predicate Taken(blobs: Blobs, area: Area, name: string) {
    DataKey(area, name) !in blobs || NoteKey(area, name) !in blobs
  }

  /** What a run sends of files that an earlier one left matching copies of: those of which something was removed. */
  lemma {:induction false} SentAgain(between: Blobs, mid: Blobs, us: string, area: Area, local: Local, first: Outcome,
                                     second: Outcome, faults: seq<Fault>)
    requires AllThere(between, us, area, local, first) && first.failed == [] && OnlyFewer(between, mid)
    requires Placed(mid, us, area, local, Mentioned(second), second, faults, faults)
    requires Mentioned(second) <= Mentioned(first)
    ensures forall n | n in Mentioned(second) ::
              && (n in second.alreadyThere <==> !Taken(mid, area, n))
              && (n in second.uploaded ==> Taken(mid, area, n)) && (n in second.failed ==> Taken(mid, area, n))
  {
    hide Whole, Note, Fits;
    forall n | n in Mentioned(second)
      ensures n in second.alreadyThere <==> !Taken(mid, area, n)
      ensures (n in second.uploaded || n in second.failed) ==> Taken(mid, area, n)
    {
      assert !Blamed(faults, faults, area, n);
      assert PlacedAs(second, n, FateOf(mid, us, area, local, n));
      assert n in Mentioned(first);
    }
  }

  lemma {:induction false} DueLater(rec: Local, us: string, begun: int, again: int, days: int)
    requires begun <= again
    ensures Due(rec, us, Cutoff(again, days), {}) <= Due(rec, us, Cutoff(begun, days), {})
  {
    hide Whole;
  }

  /**
   * A second run with the same files, neither one failing and the second reading no more of them, leaves what the
   * first alone left. When nothing at all fails, it sends just what the first one had removed, and finds the rest.
   */
  method Twice(c: Store, db: Local, rec: Local, days: int, asked: int)
    returns (ok: bool, database: Outcome, recordings: Outcome, ghost trace: seq<Check>, ghost again: seq<Check>,
             ghost unread: set<string>, ghost stillUnread: set<string>, ghost mid: Blobs)
    requires Sound(c.blobs, c.us)
    modifies c`blobs, c`killed, c`now, c`log, c`faults
    ensures unread + stillUnread <= Backups(db, c.us, {})
    ensures ok ==> HeardSince(c.log, |old(c.log)|, Heard(trace)) && HeardSince(c.log, |old(c.log)|, Heard(again))
    ensures var keep, names := if asked == 0 then DEFAULT_KEEP else asked, Backups(db, c.us, unread);
            ok && AllFine(trace) && AllFine(again) && c.orderly && unread <= stillUnread
            && SameOrigin(old(c.blobs), c.us, db) && Datable(db, c.us) ==>
              keep >= 1 && Held(c.blobs, c.us) == Newest(Union(Held(old(c.blobs), c.us), db, c.us, names), keep)
    ensures ok && !c.killed && c.faults == old(c.faults) ==>
              && database.failed == [] && Mentioned(database) == Backups(db, c.us, {})
              && (forall n | n in Mentioned(database) :: n in database.uploaded <==> Taken(mid, Database, n))
              && recordings.failed == []
              && (forall n | n in Mentioned(recordings) :: n in recordings.uploaded <==> Taken(mid, Recordings, n))
  {
    hide Sound, SameOrigin, Held, Datable, Union, Newest, AllFine, Backups, Heard, HeardSince, Passes;
    hide Blameless, WellPlaced, AllThere, OnlyFewer, Due, AllDated, PastDue;
    ghost var p, q, recUnread := *, *, {};
    var past, sent;
    again, stillUnread := [], {};
    database, recordings, past, sent, ok, trace, p, unread, recUnread := Upload(c, db, rec, days, asked);
    mid := c.blobs;
    if !ok {
      return;
    }
    ghost var middle, faults, begun := c.log, c.faults, c.now;
    ghost var first, firstRecordings := database, recordings;
    database, recordings, past, sent, ok, again, q, stillUnread, recUnread := Upload(c, db, rec, days, asked);
    if ok {
      StillHeard(old(c.log), middle, c.log, Heard(trace), Heard(again));
      if unread <= stillUnread {
        FewerBackups(db, c.us, unread, stillUnread);
        RepeatChangesNothing(Held(old(c.blobs), c.us), db, c.us, Backups(db, c.us, unread),
                             Backups(db, c.us, stillUnread), if asked <= 0 then DEFAULT_KEEP else asked);
      }
      AllQuiet(old(c.faults), old(c.faults), old(c.faults), faults, c.faults);
      if !c.killed && c.faults == old(c.faults) {
        BothPlaced(mid, c.us, db, rec, database, recordings, c.faults);
        DueLater(rec, c.us, old(c.now), begun, days);
        SentAgain(p.between, mid, c.us, Database, db, first, database, c.faults);
        SentAgain(p.between, mid, c.us, Recordings, rec, firstRecordings, recordings, c.faults);
        EachOnce(database);
        EachOnce(recordings);
      }
    }
  }

  lemma {:induction false} BothPlaced(blobs: Blobs, us: string, db: Local, rec: Local, database: Outcome,
                                      recordings: Outcome, faults: seq<Fault>)
    requires WellPlaced(blobs, us, db, rec, database, recordings, faults, faults)
    ensures Placed(blobs, us, Database, db, Mentioned(database), database, faults, faults)
    ensures Placed(blobs, us, Recordings, rec, Mentioned(recordings), recordings, faults, faults)
  {
  }

  lemma {:induction false} EachOnce(out: Outcome)
    ensures forall n | n in Mentioned(out) :: n in out.uploaded || n in out.alreadyThere || n in out.failed
  {
  }

  lemma {:induction false} StillHeard(first: Readings, middle: Readings, log: Readings, heard: Readings,
                                      later: Readings)
    requires first <= middle <= log && HeardSince(middle, |first|, heard) && HeardSince(log, |middle|, later)
    ensures HeardSince(log, |first|, heard) && HeardSince(log, |first|, later)
  {
    var a, b :| |first| <= |a| && middle == a + heard + b;
    assert log == a + heard + (b + log[|middle|..]);
  }

  lemma {:induction false} FewerBackups(local: Local, us: string, unread: set<string>, more: set<string>)
    requires unread <= more
    ensures Backups(local, us, more) <= Backups(local, us, unread)
  {
  }
}
