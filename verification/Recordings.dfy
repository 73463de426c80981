/**
 * The recording run: publishedCopy and publish in internal/recording/recording.go, and internal/recording/backup.go.
 * Completed recordings are copied to the backup destination, and the oldest are then deleted to fit a budget.
 */
module Recordings {
  import opened Text
  import opened Ordering
  import opened Manifests
  import opened Names
  import opened CopyNames
  import opened LocalStore
  import opened Spooling

  // --- what a copy holds -------------------------------------------------

  /** Copies are plain, or encrypted with some randomness. */
  datatype Mode = Plain | Sealed(seal: (Bytes, nat) -> Bytes)

  function Extension(mode: Mode): (e: string)
    ensures CopyExtension(e)
  {
    if mode.Plain? then ".guac" else ".guac.age"
  }

  function Content(mode: Mode, bytes: Bytes, nonce: nat): Bytes {
    match mode
    case Plain => bytes
    case Sealed(seal) => seal(bytes, nonce)
  }

  /** A recording's name and the content of a copy of it as it is now. */
  ghost predicate CopyOf(c: (string, Bytes), spool: map<string, File>, mode: Mode) {
    c.0 in spool
    && match mode
       case Plain => c.1 == spool[c.0].bytes
       case Sealed(seal) => exists nonce :: c.1 == seal(spool[c.0].bytes, nonce)
  }

  // --- whose copy it is --------------------------------------------------

  /** A finished copy of one of these recordings: its name is a copy name of that recording, and so is its content. */
  ghost predicate FinishedFrom(x: (string, Bytes), copied: set<(string, Bytes)>) {
    exists c :: c in copied && IsCopyName(x.0, c.0) && c.1 == x.1
  }

  /** Everything ever finished in this directory is a copy of some recording. */
  ghost predicate FromRecordings(exports: set<(string, Bytes)>, copied: set<(string, Bytes)>) {
    forall x | x in exports :: FinishedFrom(x, copied)
  }

  /** What a destination directory holds. */
  datatype Dest = Dest(files: map<string, Bytes>, manifests: map<string, ManifestFile>, deployment: string) {
    predicate Verifies(name: string) {
      Accepts(files, manifests, deployment, name)
    }
  }

  function DestOf(d: Directory): Dest
    reads d`files, d`manifests
  {
    Dest(d.files, d.manifests, d.deployment)
  }

  /** Some name that a copy of this recording could have verifies. */
  ghost predicate HasVerified(d: Dest, name: string) {
    exists c :: IsCopyName(c, name) && d.Verifies(c)
  }

  /** A verified copy of this very recording: it holds what was once copied of it. */
  ghost predicate HasCopy(d: Dest, copied: set<(string, Bytes)>, name: string) {
    exists c :: IsCopyName(c, name) && d.Verifies(c) && (name, d.files[c]) in copied
  }

  /** A verified copy of what this recording holds now. */
  ghost predicate HasFresh(d: Dest, copied: set<(string, Bytes)>, name: string, spool: map<string, File>, mode: Mode) {
    exists c :: IsCopyName(c, name) && d.Verifies(c) && (name, d.files[c]) in copied
                && CopyOf((name, d.files[c]), spool, mode)
  }

  /** What verifies still does, with the same content. */
  ghost predicate StillVerifies(before: Dest, after: Dest) {
    && Keeps(before.files, after.files)
    && forall n | before.Verifies(n) :: after.Verifies(n) && after.files[n] == before.files[n]
  }

  /** No other recording that was ever copied here has a related name. */
  ghost predicate Alone(copied: set<(string, Bytes)>, name: string) {
    forall c | c in copied && Related(c.0, name) :: c.0 == name
  }

  /**
   * What verifies under a copy name of a recording is a copy of it, or of a recording with a related name: one of the
   * two names is the other followed by a copy number.
   */
  lemma {:induction false} AcceptedIsSomeCopy(d: Dest, exports: set<(string, Bytes)>, copied: set<(string, Bytes)>,
                                              copy: string, name: string)
    requires Genuine(d.manifests, d.deployment, exports) && FromRecordings(exports, copied)
    requires IsCopyName(copy, name) && d.Verifies(copy)
    ensures || HasCopy(d, copied, name)
            || exists c :: c in copied && c.0 != name && Related(c.0, name) && c.1 == d.files[copy]
  {
    hide IsCopyName, Related;
    AcceptedIsFinished(d.files, d.manifests, d.deployment, exports, copy);
    assert FinishedFrom((copy, d.files[copy]), copied);
    var c :| c in copied && IsCopyName(copy, c.0) && c.1 == d.files[copy];
    SharedIsRelated(copy, c.0, name);
    if c.0 == name {
      assert c == (name, d.files[copy]);
    }
  }

  /** With no related name among the recordings, what verifies for a recording is a copy of it. */
  lemma {:induction false} VerifiedIsItsCopy(d: Dest, exports: set<(string, Bytes)>, copied: set<(string, Bytes)>,
                                             name: string)
    requires Genuine(d.manifests, d.deployment, exports) && FromRecordings(exports, copied)
    requires Alone(copied, name) && HasVerified(d, name)
    ensures HasCopy(d, copied, name)
  {
    hide Accepts, IsCopyName, HasCopy, Related, Genuine;
    var c :| IsCopyName(c, name) && d.Verifies(c);
    AcceptedIsSomeCopy(d, exports, copied, c, name);
  }

  // --- publishedCopy -----------------------------------------------------

  /** Copy names are tried in order; the first that is not listed ends the search, the first that verifies is found. */
  ghost function Search(files: map<string, Bytes>, manifests: map<string, ManifestFile>, deployment: string,
                        name: string, e: string, present: set<string>, i: nat): (found: Option<nat>)
    requires i <= COPY_LIMIT + 1
    decreases COPY_LIMIT + 1 - i
  {
    var cand := PublishedName(name, i, e);
    if i > COPY_LIMIT || cand !in present then None
    else if Accepts(files, manifests, deployment, cand) then Some(i)
    else Search(files, manifests, deployment, name, e, present, i + 1)
  }

  /**
   * The search finds a number exactly when the names up to it are listed and it is the first of them that verifies.
   */
  lemma {:induction false} SearchFinds(files: map<string, Bytes>, manifests: map<string, ManifestFile>,
                                       deployment: string, name: string, e: string, present: set<string>, i: nat,
                                       n: nat)
    requires i <= n && i <= COPY_LIMIT + 1
    ensures Search(files, manifests, deployment, name, e, present, i) == Some(n) <==>
              && n <= COPY_LIMIT && Accepts(files, manifests, deployment, PublishedName(name, n, e))
              && (forall j: nat | i <= j <= n :: PublishedName(name, j, e) in present)
              && forall j: nat | i <= j < n :: !Accepts(files, manifests, deployment, PublishedName(name, j, e))
    decreases COPY_LIMIT + 1 - i
  {
    hide Accepts, PublishedName;
    if i < n && i <= COPY_LIMIT {
      SearchFinds(files, manifests, deployment, name, e, present, i + 1, n);
    }
    if i == n && i <= COPY_LIMIT {
      SearchAfter(files, manifests, deployment, name, e, present, i + 1);
    }
  }

  lemma {:induction false} SearchAfter(files: map<string, Bytes>, manifests: map<string, ManifestFile>,
                                       deployment: string, name: string, e: string, present: set<string>, i: nat)
    requires i <= COPY_LIMIT + 1
    ensures var found := Search(files, manifests, deployment, name, e, present, i);
            found.Some? ==> i <= found.value <= COPY_LIMIT
    decreases COPY_LIMIT + 1 - i
  {
    hide Accepts, PublishedName;
    if i <= COPY_LIMIT {
      SearchAfter(files, manifests, deployment, name, e, present, i + 1);
    }
  }

  /** publishedCopy: what is found verifies and is listed; when nothing fails it is what the search finds. */
  method PublishedCopy(d: Directory, name: string, mode: Mode, present: set<string>) returns (found: Option<string>)
    requires d.Inv()
    modifies d`killed, d`failures
    ensures d.Inv() && (old(d.killed) ==> d.killed)
    ensures found.Some? ==> IsCopyName(found.value, name) && Accepts(d.files, d.manifests, d.deployment, found.value)
    ensures d.reliable ==>
              var n := Search(d.files, d.manifests, d.deployment, name, Extension(mode), present, 0);
              found == if n.Some? then Some(PublishedName(name, n.value, Extension(mode))) else None
  {
    hide Accepts;
    var e := Extension(mode);
    for i := 0 to COPY_LIMIT + 1
      invariant d.Inv() && (old(d.killed) ==> d.killed)
      invariant d.reliable ==> Search(d.files, d.manifests, d.deployment, name, e, present, 0)
                               == Search(d.files, d.manifests, d.deployment, name, e, present, i)
    {
      var cand := PublishedName(name, i, e);
      if cand !in present {
        return None;
      }
      var ok := d.Verify(cand);
      if ok {
        ItsCopyName(name, i, e);
        return Some(cand);
      }
    }
    return None;
  }

  /**
   * A copy with a number passes for copy 0 of the recording whose name is the copied one's with that number: the search
   * finds it there and then, whether or not that recording was ever copied.
   */
  lemma {:induction false} NumberedCopyIsMistaken(files: map<string, Bytes>, manifests: map<string, ManifestFile>,
                                                  deployment: string, a: string, b: string, i: nat, mode: Mode,
                                                  present: set<string>)
    requires 1 <= i <= COPY_LIMIT && b == a + Suffix(i) && PublishedName(a, i, Extension(mode)) in present
    requires Accepts(files, manifests, deployment, PublishedName(a, i, Extension(mode)))
    ensures Search(files, manifests, deployment, b, Extension(mode), present, 0) == Some(0)
  {
    NumberedIsShared(a, b, i, Extension(mode));
  }

  // --- publish -----------------------------------------------------------

  /** What is accepted stays accepted when only a name that was free is written. */
  lemma {:induction false} AcceptedStays(files: map<string, Bytes>, files': map<string, Bytes>,
                                         manifests: map<string, ManifestFile>, manifests': map<string, ManifestFile>,
                                         deployment: string, final: string)
    requires Keeps(files, files') && manifests - {final} == manifests' - {final}
    requires final in files ==> manifests == manifests'
    ensures StillVerifies(Dest(files, manifests, deployment), Dest(files', manifests', deployment))
  {
    if final !in files {
      SameManifest(manifests, manifests', final);
    }
  }

  /** One reserved name: the recording is copied into it; a recording that has gone away leaves nothing claimed. */
  method CopyInto(d: Directory, spool: map<string, File>, name: string, final: string, mode: Mode)
    returns (c: Claim, bytes: Bytes)
    requires d.Inv()
    modifies d`files, d`killed, d`failures
    ensures d.Inv() && (old(d.killed) ==> d.killed) && Keeps(old(d.files), d.files)
    ensures c.Claimed? ==> CopyOf((name, bytes), spool, mode) && final !in old(d.files)
                           && d.files == old(d.files)[final := bytes]
    ensures c.Taken? ==> final in d.files && d.files == old(d.files)
    ensures final in old(d.files) ==> d.files == old(d.files)
    ensures old(d.failures) <= d.failures && (d.reliable ==> d.failures == old(d.failures))
    ensures c.Claimed? || c.Taken? ==> d.failures == old(d.failures)
    ensures d.failures == old(d.failures) ==> if name in spool then c.Claimed? || c.Taken? else !c.Claimed?
    ensures !c.Claimed? && d.failures <= old(d.failures) + (if name in spool then 1 else 0) ==> d.files == old(d.files)
  {
    if name !in spool {
      c := d.CopyReserved(final, []);
      if c.Claimed? {
        var removed := d.Remove(final);
        if removed {
          assert d.files == old(d.files);
        }
        c := Claim.Failed;
      }
      return c, [];
    }
    var nonce: nat := *;
    bytes := Content(mode, spool[name].bytes, nonce);
    CopyNow(spool, name, mode, nonce);
    c := d.CopyReserved(final, bytes);
  }

  lemma {:induction false} CopyNow(spool: map<string, File>, name: string, mode: Mode, nonce: nat)
    requires name in spool
    ensures CopyOf((name, Content(mode, spool[name].bytes, nonce)), spool, mode)
  {
  }

  /** What one attempt may add to the books: nothing, or this one copy, whole and under a name that was free. */
  ghost predicate Books(before: set<(string, Bytes)>, after: set<(string, Bytes)>, copied: set<(string, Bytes)>,
                        now: set<(string, Bytes)>, files: map<string, Bytes>, files': map<string, Bytes>, name: string,
                        spool: map<string, File>, mode: Mode) {
    || (after == before && now == copied)
    || exists final, bytes ::
         && IsCopyName(final, name) && final !in files && final in files' && files'[final] == bytes
         && CopyOf((name, bytes), spool, mode)
         && after == before + {(final, bytes)} && now == copied + {(name, bytes)}
  }

  /**
   * publish: the copy is made under the first name not taken, and counts once its manifest is written. Nothing is
   * overwritten.
   */
  method Publish(d: Directory, spool: map<string, File>, name: string, mode: Mode, ghost copied: set<(string, Bytes)>)
    returns (published: Option<string>, ghost now: set<(string, Bytes)>)
    requires d.Inv() && FromRecordings(d.exports, copied)
    modifies d`files, d`manifests, d`killed, d`failures, d`exports
    ensures d.Inv() && (old(d.killed) ==> d.killed) && FromRecordings(d.exports, now)
    ensures Books(old(d.exports), d.exports, copied, now, old(d.files), d.files, name, spool, mode)
    ensures StillVerifies(old(DestOf(d)), DestOf(d))
    ensures published.Some? ==> TookFirst(old(d.files), d.files, name, published.value, mode)
    ensures published.Some? ==> Accepts(d.files, d.manifests, d.deployment, published.value)
                                && (name, d.files[published.value]) in now
                                && CopyOf((name, d.files[published.value]), spool, mode)
    ensures old(d.failures) <= d.failures && (d.reliable ==> d.failures == old(d.failures))
    ensures d.failures == old(d.failures) && published.None? ==> d.files == old(d.files)
    ensures d.failures == old(d.failures) && name in spool && published.None? ==>
              forall j: nat | j <= COPY_LIMIT :: PublishedName(name, j, Extension(mode)) in old(d.files)
  {
    hide Accepts, IsCopyName, CopyOf, FromRecordings, PublishedName, StillVerifies;
    published, now := None, copied;
    var e := Extension(mode);
    for i: nat := 0 to COPY_LIMIT + 1
      invariant d.Inv() && (old(d.killed) ==> d.killed) && published == None && now == copied
      invariant d.files == old(d.files) && d.manifests == old(d.manifests) && d.exports == old(d.exports)
      invariant d.failures == old(d.failures)
      invariant forall j: nat | j < i :: PublishedName(name, j, e) in d.files
    {
      var final := PublishedName(name, i, e);
      var claim, bytes := CopyInto(d, spool, name, final, mode);
      match claim {
        case Taken =>
        case Claimed =>
          ItsCopyName(name, i, e);
          OneMoreCopy(d.exports, copied, final, name, bytes);
          d.exports, now := d.exports + {(final, bytes)}, copied + {(name, bytes)};
          var ok := d.PublishManifest(final);
          AcceptedStays(old(d.files), d.files, old(d.manifests), d.manifests, d.deployment, final);
          return if ok then Some(final) else None, now;
        case _ =>
          AcceptedStays(old(d.files), d.files, old(d.manifests), d.manifests, d.deployment, final);
          return;
      }
    }
    AcceptedStays(old(d.files), d.files, old(d.manifests), d.manifests, d.deployment, []);
  }

  /** The first copy name that was free, and only that one, was taken. */
  ghost predicate TookFirst(files: map<string, Bytes>, files': map<string, Bytes>, name: string, final: string,
                            mode: Mode) {
    exists i: nat ::
      && i <= COPY_LIMIT && final == PublishedName(name, i, Extension(mode)) && final !in files && final in files'
      && files' == files[final := files'[final]]
      && forall j: nat | j < i :: PublishedName(name, j, Extension(mode)) in files
  }

  lemma {:induction false} OneMoreCopy(exports: set<(string, Bytes)>, copied: set<(string, Bytes)>, final: string,
                                       name: string, bytes: Bytes)
    requires FromRecordings(exports, copied) && IsCopyName(final, name)
    ensures FromRecordings(exports + {(final, bytes)}, copied + {(name, bytes)})
  {
    hide IsCopyName;
    var now := copied + {(name, bytes)};
    assert (name, bytes) in now;
    forall x | x in exports + {(final, bytes)}
      ensures FinishedFrom(x, now)
    {
      if x in exports {
        assert FinishedFrom(x, copied);
        var c :| c in copied && IsCopyName(x.0, c.0) && c.1 == x.1;
        assert c in now;
      }
    }
  }

  // --- one recording -----------------------------------------------------

  datatype Fate = Included | AlreadyBackedUp | NotCopied

  /** One completed recording: its copy is found, or made. */
  method BackUpOne(d: Directory, spool: map<string, File>, name: string, mode: Mode, present: set<string>,
                   ghost copied: set<(string, Bytes)>)
    returns (fate: Fate, shown: set<string>, ghost now: set<(string, Bytes)>)
    requires d.Inv() && FromRecordings(d.exports, copied)
    modifies d`files, d`manifests, d`killed, d`failures, d`exports
    ensures d.Inv() && (old(d.killed) ==> d.killed) && FromRecordings(d.exports, now)
    ensures Books(old(d.exports), d.exports, copied, now, old(d.files), d.files, name, spool, mode)
    ensures StillVerifies(old(DestOf(d)), DestOf(d))
    ensures fate.AlreadyBackedUp? ==> HasVerified(DestOf(d), name) && DestOf(d) == old(DestOf(d)) && now == copied
    ensures fate.Included? ==> HasFresh(DestOf(d), now, name, spool, mode)
    ensures d.reliable ==>
              var n := Search(old(d.files), old(d.manifests), d.deployment, name, Extension(mode), present, 0);
              fate.AlreadyBackedUp? <==> n.Some?
    ensures d.reliable && name in spool && fate.NotCopied? ==>
              forall j: nat | j <= COPY_LIMIT :: PublishedName(name, j, Extension(mode)) in old(d.files)
    ensures shown == if fate.Included? then present + (d.files.Keys - old(d.files).Keys) else present
  {
    hide FromRecordings, IsCopyName, Books, CopyOf, TookFirst;
    shown, now := present, copied;
    var found := PublishedCopy(d, name, mode, present);
    if found.Some? {
      NothingNew(d.exports, copied, d.files, name, spool, mode);
      return AlreadyBackedUp, present, copied;
    }
    var published;
    published, now := Publish(d, spool, name, mode, copied);
    if published.None? {
      return NotCopied, present, now;
    }
    FirstIsCopyName(old(d.files), d.files, name, published.value, mode);
    return Included, present + {published.value}, now;
  }

  lemma {:induction false} NothingNew(exports: set<(string, Bytes)>, copied: set<(string, Bytes)>,
                                      files: map<string, Bytes>, name: string, spool: map<string, File>, mode: Mode)
    ensures Books(exports, exports, copied, copied, files, files, name, spool, mode)
  {
  }

  lemma {:induction false} FirstIsCopyName(files: map<string, Bytes>, files': map<string, Bytes>, name: string,
                                           final: string, mode: Mode)
    requires TookFirst(files, files', name, final, mode)
    ensures IsCopyName(final, name) && files'.Keys - files.Keys == {final}
  {
  }

  /**
   * What the shared names come to at a run: with a verified copy `i` of one recording there, the recording whose name
   * is that one's with "-i" is reported as backed up, though nothing was ever copied of it.
   */
  method MistakenForACopy(d: Directory, spool: map<string, File>, a: string, i: nat, mode: Mode,
                          ghost copied: set<(string, Bytes)>)
    returns (fate: Fate, ghost now: set<(string, Bytes)>)
    requires d.Inv() && d.reliable && FromRecordings(d.exports, copied) && 1 <= i <= COPY_LIMIT
    requires Accepts(d.files, d.manifests, d.deployment, PublishedName(a, i, Extension(mode)))
    requires forall c | c in copied :: c.0 != a + Suffix(i)
    modifies d`files, d`manifests, d`killed, d`failures, d`exports
    ensures fate.AlreadyBackedUp? && !HasCopy(DestOf(d), now, a + Suffix(i))
  {
    hide FromRecordings, IsCopyName, Books, Suffix;
    NumberedCopyIsMistaken(d.files, d.manifests, d.deployment, a, a + Suffix(i), i, mode, d.files.Keys);
    var shown;
    fate, shown, now := BackUpOne(d, spool, a + Suffix(i), mode, d.files.Keys, copied);
  }

  // --- backUp ------------------------------------------------------------

  datatype Report = Report(included: seq<string>, already: seq<string>, failed: seq<string>) {
    ghost function Confirmed(): set<string> {
      Elements(included) + Elements(already)
    }
  }

  const NO_REPORT := Report([], [], [])

  /** Every recording sorted in so far is in one place. */
  ghost predicate SortedIn(recs: seq<Recording>, n: nat, rep: Report)
    requires n <= |recs|
  {
    Everyone(rep, recs[..n])
  }

  /** Every completed recording is in the report, and in one place of it. */
  ghost predicate Everyone(rep: Report, recs: seq<Recording>) {
    && rep.Confirmed() + Elements(rep.failed) == NamesDone(recs)
    && |rep.included| + |rep.already| + |rep.failed| == |Completed(recs)|
  }

  /** A recording whose copy failed, though it is still there, had all its copy names taken. */
  ghost predicate FailedIsFull(rep: Report, files: map<string, Bytes>, spool: map<string, File>, mode: Mode) {
    forall n | n in rep.failed && n in spool :: NamesTaken(files, n, mode)
  }

  ghost predicate NamesTaken(files: map<string, Bytes>, name: string, mode: Mode) {
    forall j: nat | j <= COPY_LIMIT :: PublishedName(name, j, Extension(mode)) in files
  }

  /** The search through this listing finds a copy. */
  ghost predicate Found(d: Dest, name: string, mode: Mode, present: set<string>) {
    Search(d.files, d.manifests, d.deployment, name, Extension(mode), present, 0).Some?
  }

  /** A completed recording with a copy that the search finds is not copied again. */
  ghost predicate FoundIsKept(rep: Report, recs: seq<Recording>, d: Dest, mode: Mode) {
    forall n | n in NamesDone(recs) && Found(d, n, mode, d.files.Keys) :: n in rep.already
  }

  lemma {:induction false} NothingFailed(files: map<string, Bytes>, spool: map<string, File>, mode: Mode,
                                         recs: seq<Recording>, d: Dest)
    ensures FailedIsFull(NO_REPORT, files, spool, mode) && FoundIsKept(NO_REPORT, recs[..0], d, mode)
  {
  }

  lemma {:induction false} ActiveIsKept(rep: Report, recs: seq<Recording>, i: nat, d: Dest, mode: Mode)
    requires i < |recs| && recs[i].active && FoundIsKept(rep, recs[..i], d, mode)
    ensures FoundIsKept(rep, recs[..i + 1], d, mode)
  {
    assert forall r :: r in recs[..i + 1] <==> r in recs[..i] || r == recs[i];
  }

  /** Where one more recording was put keeps both. */
  lemma {:induction false} OneMorePlaced(rep: Report, recs: seq<Recording>, i: nat, fate: Fate, d: Dest,
                                         files: map<string, Bytes>, files': map<string, Bytes>,
                                         spool: map<string, File>, mode: Mode)
    requires i < |recs| && FailedIsFull(rep, files, spool, mode) && FoundIsKept(rep, recs[..i], d, mode)
    requires Keeps(files, files') && (Found(d, recs[i].name, mode, d.files.Keys) ==> fate.AlreadyBackedUp?)
    requires fate.NotCopied? && recs[i].name in spool ==> NamesTaken(files, recs[i].name, mode)
    ensures var next := match fate
                        case Included => rep.(included := rep.included + [recs[i].name])
                        case AlreadyBackedUp => rep.(already := rep.already + [recs[i].name])
                        case NotCopied => rep.(failed := rep.failed + [recs[i].name]);
            FailedIsFull(next, files', spool, mode) && FoundIsKept(next, recs[..i + 1], d, mode)
  {
    hide PublishedName, Found;
    assert forall r :: r in recs[..i + 1] <==> r in recs[..i] || r == recs[i];
  }

  /** A copy that the search finds is found later, in any listing that shows more. */
  lemma {:induction false} StillFound(before: Dest, after: Dest, name: string, mode: Mode, present: set<string>)
    requires StillVerifies(before, after) && before.deployment == after.deployment
    requires before.files.Keys <= present
    ensures Found(before, name, mode, before.files.Keys) ==> Found(after, name, mode, present)
  {
    FoundLater(before, after, name, mode, present, 0);
  }

  lemma {:induction false} FoundLater(before: Dest, after: Dest, name: string, mode: Mode, present: set<string>, i: nat)
    requires StillVerifies(before, after) && before.deployment == after.deployment
    requires before.files.Keys <= present && i <= COPY_LIMIT + 1
    ensures Search(before.files, before.manifests, before.deployment, name, Extension(mode), before.files.Keys, i).Some?
            ==> Search(after.files, after.manifests, after.deployment, name, Extension(mode), present, i).Some?
    decreases COPY_LIMIT + 1 - i
  {
    hide Accepts, PublishedName;
    if i <= COPY_LIMIT {
      FoundLater(before, after, name, mode, present, i + 1);
      var cand := PublishedName(name, i, Extension(mode));
      assert before.Verifies(cand) ==> after.Verifies(cand);
    }
  }

  lemma {:induction false} SortedInNext(recs: seq<Recording>, i: nat, rep: Report)
    requires i < |recs| && SortedIn(recs, i, rep)
    ensures recs[i].active ==> SortedIn(recs, i + 1, rep)
    ensures var name := recs[i].name;
            !recs[i].active ==>
              && name in NamesDone(recs)
              && SortedIn(recs, i + 1, rep.(included := rep.included + [name]))
              && SortedIn(recs, i + 1, rep.(already := rep.already + [name]))
              && SortedIn(recs, i + 1, rep.(failed := rep.failed + [name]))
  {
    hide Completed, NamesDone;
    TakeStep(recs, i);
    CompletedMore(recs[..i], recs[i]);
    NamesDoneMore(recs, i);
    InOnePlace(rep, recs[i].name);
  }

  lemma {:induction false} CompletedMore(q: seq<Recording>, r: Recording)
    ensures Completed(q + [r]) == Completed(q) + if r.active then [] else [r]
  {
    if q != [] {
      assert (q + [r])[1..] == q[1..] + [r];
      CompletedMore(q[1..], r);
    }
  }

  lemma {:induction false} NamesDoneMore(recs: seq<Recording>, i: nat)
    requires i < |recs|
    ensures NamesDone(recs[..i + 1])
            == if recs[i].active then NamesDone(recs[..i]) else NamesDone(recs[..i]) + {recs[i].name}
    ensures !recs[i].active ==> recs[i].name in NamesDone(recs)
  {
    assert forall r :: r in recs[..i + 1] <==> r in recs[..i] || r == recs[i];
  }

  lemma {:induction false} InOnePlace(rep: Report, name: string)
    ensures rep.(included := rep.included + [name]).Confirmed() == rep.Confirmed() + {name}
    ensures rep.(already := rep.already + [name]).Confirmed() == rep.Confirmed() + {name}
    ensures rep.(failed := rep.failed + [name]).Confirmed() == rep.Confirmed()
    ensures Elements(rep.failed + [name]) == Elements(rep.failed) + {name}
  {
    assert Elements(rep.included + [name]) == Elements(rep.included) + {name};
    assert Elements(rep.already + [name]) == Elements(rep.already) + {name};
  }

  /** All the copies a run adds are copies of its completed recordings as they are now. */
  ghost predicate NewCopies(copied: set<(string, Bytes)>, now: set<(string, Bytes)>, names: set<string>,
                            spool: map<string, File>, mode: Mode) {
    copied <= now && forall c | c in now - copied :: c.0 in names && CopyOf(c, spool, mode)
  }

  /** All it finishes is there, whole, under a name that was free, and is such a copy. */
  ghost predicate NewExports(before: set<(string, Bytes)>, after: set<(string, Bytes)>, files: map<string, Bytes>,
                             files': map<string, Bytes>, names: set<string>, spool: map<string, File>, mode: Mode) {
    && before <= after
    && forall x | x in after - before :: x.0 !in files && x.0 in files' && files'[x.0] == x.1
                                         && MadeFrom(x, names, spool, mode)
  }

  ghost predicate MadeFrom(x: (string, Bytes), names: set<string>, spool: map<string, File>, mode: Mode) {
    exists name :: name in names && IsCopyName(x.0, name) && CopyOf((name, x.1), spool, mode)
  }

  lemma {:induction false} NothingAdded(exports: set<(string, Bytes)>, copied: set<(string, Bytes)>,
                                        files: map<string, Bytes>, names: set<string>, spool: map<string, File>,
                                        mode: Mode)
    ensures NewCopies(copied, copied, names, spool, mode)
    ensures NewExports(exports, exports, files, files, names, spool, mode)
  {
  }

  lemma {:induction false} CopiesMore(copied: set<(string, Bytes)>, mid: set<(string, Bytes)>,
                                      now: set<(string, Bytes)>, before: set<(string, Bytes)>,
                                      after: set<(string, Bytes)>, files: map<string, Bytes>,
                                      files': map<string, Bytes>, names: set<string>, name: string,
                                      spool: map<string, File>, mode: Mode)
    requires NewCopies(copied, mid, names, spool, mode) && name in names
    requires Books(before, after, mid, now, files, files', name, spool, mode)
    ensures NewCopies(copied, now, names, spool, mode) && mid <= now
  {
    hide CopyOf, IsCopyName;
  }

  lemma {:induction false} ExportsMore(first: set<(string, Bytes)>, before: set<(string, Bytes)>,
                                       after: set<(string, Bytes)>, copied: set<(string, Bytes)>,
                                       now: set<(string, Bytes)>, start: map<string, Bytes>, files: map<string, Bytes>,
                                       files': map<string, Bytes>, names: set<string>, name: string,
                                       spool: map<string, File>, mode: Mode)
    requires NewExports(first, before, start, files, names, spool, mode) && name in names
    requires Keeps(start, files) && Keeps(files, files')
    requires Books(before, after, copied, now, files, files', name, spool, mode)
    ensures NewExports(first, after, start, files', names, spool, mode)
  {
    hide CopyOf, IsCopyName;
    if after != before {
      var final, bytes :|
        && IsCopyName(final, name) && final !in files && final in files' && files'[final] == bytes
        && CopyOf((name, bytes), spool, mode)
        && after == before + {(final, bytes)} && now == copied + {(name, bytes)};
      assert MadeFrom((final, bytes), names, spool, mode);
    }
  }

  /** What the report says of its recordings is so. */
  ghost predicate Borne(rep: Report, d: Dest, copied: set<(string, Bytes)>, spool: map<string, File>, mode: Mode) {
    && (forall n | n in rep.included :: HasFresh(d, copied, n, spool, mode))
    && forall n | n in rep.already :: HasVerified(d, n)
  }

  lemma {:induction false} StillBorne(rep: Report, d: Dest, copied: set<(string, Bytes)>, d': Dest,
                                      now: set<(string, Bytes)>, spool: map<string, File>, mode: Mode)
    requires Borne(rep, d, copied, spool, mode) && copied <= now && StillVerifies(d, d')
    ensures Borne(rep, d', now, spool, mode)
  {
    hide Accepts, IsCopyName, CopyOf;
  }

  lemma {:induction false} FreshIsVerified(d: Dest, copied: set<(string, Bytes)>, name: string,
                                           spool: map<string, File>, mode: Mode)
    requires HasFresh(d, copied, name, spool, mode)
    ensures HasVerified(d, name) && HasCopy(d, copied, name)
  {
    hide Accepts, IsCopyName, CopyOf;
  }

  lemma {:induction false} StillKeeps(a: Dest, b: Dest, c: Dest)
    requires StillVerifies(a, b) && StillVerifies(b, c)
    ensures StillVerifies(a, c) && Keeps(a.files, b.files) && Keeps(b.files, c.files)
  {
    hide Accepts;
  }

  lemma {:induction false} ReportGrows(rep: Report, d: Dest, now: set<(string, Bytes)>, spool: map<string, File>,
                                       mode: Mode, name: string)
    requires Borne(rep, d, now, spool, mode)
    ensures HasFresh(d, now, name, spool, mode) ==> Borne(rep.(included := rep.included + [name]), d, now, spool, mode)
    ensures HasVerified(d, name) ==> Borne(rep.(already := rep.already + [name]), d, now, spool, mode)
    ensures Borne(rep.(failed := rep.failed + [name]), d, now, spool, mode)
    ensures rep.(included := rep.included + [name]).Confirmed() == rep.Confirmed() + {name}
    ensures rep.(already := rep.already + [name]).Confirmed() == rep.Confirmed() + {name}
    ensures rep.(failed := rep.failed + [name]).Confirmed() == rep.Confirmed()
  {
    hide HasFresh, HasVerified;
    InOnePlace(rep, name);
  }

  lemma {:induction false} NothingDone(recs: seq<Recording>, d: Dest, copied: set<(string, Bytes)>,
                                       spool: map<string, File>, mode: Mode)
    ensures SortedIn(recs, 0, NO_REPORT) && NO_REPORT.Confirmed() == {}
    ensures Borne(NO_REPORT, d, copied, spool, mode) && StillVerifies(d, d)
  {
    assert recs[..0] == [];
  }

  lemma {:induction false} AllDone(recs: seq<Recording>, rep: Report)
    requires SortedIn(recs, |recs|, rep)
    ensures rep.Confirmed() <= NamesDone(recs)
    ensures Everyone(rep, recs) && (rep.failed == [] ==> rep.Confirmed() == NamesDone(recs))
  {
    assert recs[..|recs|] == recs;
  }

  /** Copies every completed recording without a verified copy; one failure does not stop the rest. */
  method BackUp(d: Directory, spool: map<string, File>, recs: seq<Recording>, mode: Mode,
                ghost copied: set<(string, Bytes)>)
    returns (rep: Report, confirmed: set<string>, ok: bool, ghost now: set<(string, Bytes)>)
    requires d.Inv() && FromRecordings(d.exports, copied)
    modifies d`files, d`manifests, d`killed, d`failures, d`exports
    ensures d.Inv() && (old(d.killed) ==> d.killed) && StillVerifies(old(DestOf(d)), DestOf(d))
    ensures FromRecordings(d.exports, now) && NewCopies(copied, now, NamesDone(recs), spool, mode)
    ensures NewExports(old(d.exports), d.exports, old(d.files), d.files, NamesDone(recs), spool, mode)
    ensures Borne(rep, DestOf(d), now, spool, mode)
    ensures confirmed == rep.Confirmed() <= NamesDone(recs)
    ensures ok ==> rep.failed == [] && confirmed == NamesDone(recs)
    ensures d.reliable ==>
              && Everyone(rep, recs) && (ok <==> rep.failed == []) && FailedIsFull(rep, d.files, spool, mode)
              && FoundIsKept(rep, recs, old(DestOf(d)), mode)
  {
    hide Everyone, FailedIsFull, FoundIsKept, Found;
    hide FromRecordings, Accepts, NamesDone, SortedIn, NewCopies, NewExports, Borne, Books, Search, HasFresh;
    hide HasVerified, StillVerifies;
    rep, confirmed, ok, now := NO_REPORT, {}, false, copied;
    ghost var names := NamesDone(recs);
    NothingDone(recs, DestOf(d), copied, spool, mode);
    NothingAdded(d.exports, copied, d.files, names, spool, mode);
    var ready := d.Try();
    if !ready {
      return;
    }
    var present := d.files.Keys;
    NothingFailed(d.files, spool, mode, recs, DestOf(d));
    for i := 0 to |recs|
      invariant d.Inv() && StillVerifies(old(DestOf(d)), DestOf(d))
      invariant FromRecordings(d.exports, now) && NewCopies(copied, now, names, spool, mode)
      invariant NewExports(old(d.exports), d.exports, old(d.files), d.files, names, spool, mode)
      invariant Borne(rep, DestOf(d), now, spool, mode)
      invariant SortedIn(recs, i, rep) && confirmed == rep.Confirmed()
      invariant old(d.files).Keys <= present <= d.files.Keys
      invariant d.reliable ==> FailedIsFull(rep, d.files, spool, mode)
      invariant d.reliable ==> FoundIsKept(rep, recs[..i], old(DestOf(d)), mode)
    {
      var name := recs[i].name;
      SortedInNext(recs, i, rep);
      if recs[i].active {
        if d.reliable {
          ActiveIsKept(rep, recs, i, old(DestOf(d)), mode);
        }
        continue;
      }
      ghost var before, exports, mid := DestOf(d), d.exports, now;
      ghost var was, shown := rep, present;
      var fate;
      fate, present, now := BackUpOne(d, spool, name, mode, present, now);
      CopiesMore(copied, mid, now, exports, d.exports, before.files, d.files, names, name, spool, mode);
      StillKeeps(old(DestOf(d)), before, DestOf(d));
      ExportsMore(old(d.exports), exports, d.exports, mid, now, old(d.files), before.files, d.files, names, name, spool,
                  mode);
      StillBorne(rep, before, mid, DestOf(d), now, spool, mode);
      if d.reliable {
        StillFound(old(DestOf(d)), before, name, mode, shown);
        OneMorePlaced(was, recs, i, fate, old(DestOf(d)), before.files, d.files, spool, mode);
      }
      ReportGrows(rep, DestOf(d), now, spool, mode, name);
      match fate {
        case Included => rep, confirmed := rep.(included := rep.included + [name]), confirmed + {name};
        case AlreadyBackedUp => rep, confirmed := rep.(already := rep.already + [name]), confirmed + {name};
        case NotCopied => rep := rep.(failed := rep.failed + [name]);
      }
    }
    ok := rep.failed == [];
    AllDone(recs, rep);
    assert recs[..|recs|] == recs;
  }

  // --- Run ---------------------------------------------------------------

  /** Backs up when there is a destination. */
  method BackUpIfAny(d: Directory, spool: map<string, File>, recs: seq<Recording>, mode: Mode, backs: bool,
                     ghost copied: set<(string, Bytes)>)
    returns (rep: Report, confirmed: set<string>, ok: bool, ghost now: set<(string, Bytes)>)
    requires d.Inv() && FromRecordings(d.exports, copied)
    modifies d`files, d`manifests, d`killed, d`failures, d`exports
    ensures d.Inv() && StillVerifies(old(DestOf(d)), DestOf(d))
    ensures FromRecordings(d.exports, now) && NewCopies(copied, now, NamesDone(recs), spool, mode)
    ensures NewExports(old(d.exports), d.exports, old(d.files), d.files, NamesDone(recs), spool, mode)
    ensures Borne(rep, DestOf(d), now, spool, mode) && confirmed == rep.Confirmed() <= NamesDone(recs)
    ensures ok && backs ==> rep.failed == [] && confirmed == NamesDone(recs)
    ensures !backs ==> ok && rep == NO_REPORT && DestOf(d) == old(DestOf(d))
    ensures backs && d.reliable ==>
              && Everyone(rep, recs) && (ok <==> rep.failed == []) && FailedIsFull(rep, d.files, spool, mode)
              && FoundIsKept(rep, recs, old(DestOf(d)), mode)
  {
    hide FromRecordings, Accepts, NamesDone, NewCopies, NewExports, Borne, StillVerifies, SortedIn;
    rep, confirmed, ok, now := NO_REPORT, {}, true, copied;
    NothingDone(recs, DestOf(d), copied, spool, mode);
    NothingAdded(d.exports, copied, d.files, NamesDone(recs), spool, mode);
    if backs {
      rep, confirmed, ok, now := BackUp(d, spool, recs, mode, copied);
    }
  }

  /** A deleted recording that is not reported lost has a verified copy, and one of its own unless names are related. */
  ghost predicate Preserved(r: Recording, d: Dest, copied: set<(string, Bytes)>) {
    HasVerified(d, r.name) && (Alone(copied, r.name) ==> HasCopy(d, copied, r.name))
  }

  lemma {:induction false} ConfirmedIsPreserved(rep: Report, d: Dest, exports: set<(string, Bytes)>,
                                                copied: set<(string, Bytes)>, spool: map<string, File>, mode: Mode,
                                                r: Recording)
    requires Genuine(d.manifests, d.deployment, exports) && FromRecordings(exports, copied)
    requires Borne(rep, d, copied, spool, mode) && r.name in rep.Confirmed()
    ensures Preserved(r, d, copied)
  {
    hide HasVerified, HasCopy, HasFresh, Alone, Genuine, FromRecordings;
    if r.name in rep.included {
      FreshIsVerified(d, copied, r.name, spool, mode);
    }
    if Alone(copied, r.name) {
      VerifiedIsItsCopy(d, exports, copied, r.name);
    }
  }

  /**
   * One scheduled run: scan once, back up, then clean up, whatever the backup came to. Only completed recordings are
   * deleted; the ones not reported lost have a verified copy; and undisturbed, exactly the shortest run of the oldest
   * completed recordings that brings the usage within the budget is deleted, or all of them.
   */
  method Run(spool: Spool, d: Directory, held: Option<set<(nat, nat)>>, mode: Mode, backs: bool, budget: int,
             ghost copied: set<(string, Bytes)>)
    returns (rep: Report, deleted: seq<Recording>, lost: seq<Recording>, usedBefore: int, usedAfter: int, ok: bool,
             ghost recs: seq<Recording>, ghost now: set<(string, Bytes)>)
    requires d.Inv() && FromRecordings(d.exports, copied)
    modifies spool`files, spool`failures, d`files, d`manifests, d`killed, d`failures, d`exports
    ensures d.Inv() && StillVerifies(old(DestOf(d)), DestOf(d)) && FromRecordings(d.exports, now)
    ensures NewCopies(copied, now, NamesDone(recs), old(spool.files), mode)
    ensures NewExports(old(d.exports), d.exports, old(d.files), d.files, NamesDone(recs), old(spool.files), mode)
    ensures Shrunk(old(spool.files), spool.files) && OldestFirst(recs) && DistinctNames(recs)
    ensures held.None? ==> !ok && recs == [] && spool.files == old(spool.files) && DestOf(d) == old(DestOf(d))
    ensures held.Some? ==> Elements(recs) <= Shown(old(spool.files), held.value)
    ensures usedBefore == Total(recs) == usedAfter + Total(deleted)
    ensures forall r | r in deleted :: r in recs && !r.active && r.name !in spool.files
    ensures forall r :: r in lost <==> r in deleted && r.name !in rep.Confirmed()
    ensures forall r | r in deleted && r !in lost :: Preserved(r, DestOf(d), now)
    ensures budget <= 0 ==> deleted == []
    ensures ok && backs ==> rep.Confirmed() == NamesDone(recs)
    ensures ok ==> spool.failures == old(spool.failures)
    ensures held.Some? && spool.steady && (!backs || d.reliable) ==> (ok <==> rep.failed == [])
    ensures backs && d.reliable && held.Some? ==>
              && Everyone(rep, recs) && FoundIsKept(rep, recs, old(DestOf(d)), mode)
              && (spool.steady ==> forall r | r in lost :: NamesTaken(d.files, r.name, mode))
    ensures spool.steady && held.Some? ==>
              && Elements(recs) == Shown(old(spool.files), held.value)
              && (budget > 0 ==> deleted == Completed(recs)[..Cut(Completed(recs), usedBefore, budget)])
              && spool.files == old(spool.files) - NamesIn(deleted)
  {
    hide FromRecordings, Accepts, NamesDone, NewCopies, NewExports, Borne, StillVerifies, Total, Seen, OldestFirst;
    hide Completed, Cut, DistinctNames, Shown, Shrunk, Preserved, NamesIn, Genuine;
    rep, deleted, lost, usedBefore, usedAfter, ok, recs, now := NO_REPORT, [], [], 0, 0, false, [], copied;
    NothingScanned(spool.files, held);
    NothingDone([], DestOf(d), copied, spool.files, mode);
    NothingAdded(d.exports, copied, d.files, NamesDone([]), spool.files, mode);
    var scanned := spool.Scan(held);
    if scanned.None? {
      return;
    }
    recs := scanned.value;
    usedBefore := Total(scanned.value);
    ghost var there := spool.files;
    SteadyScan(old(spool.files), there, scanned.value, held.value);
    var confirmed, backedUp;
    rep, confirmed, backedUp, now := BackUpIfAny(d, spool.files, scanned.value, mode, backs, copied);
    CopiesSince(copied, now, d.exports, old(d.exports), old(d.files), d.files, NamesDone(recs), there, old(spool.files),
                mode);
    var cleaned;
    deleted, lost, usedAfter, cleaned := spool.CleanUp(scanned.value, confirmed, usedBefore, budget);
    ShrunkTwice(old(spool.files), there, spool.files);
    forall r | r in deleted && r !in lost
      ensures Preserved(r, DestOf(d), now)
    {
      ConfirmedIsPreserved(rep, DestOf(d), d.exports, now, there, mode, r);
    }
    ok := cleaned && backedUp;
  }

  lemma {:induction false} NothingScanned(files: map<string, File>, held: Option<set<(nat, nat)>>)
    ensures OldestFirst([]) && DistinctNames([]) && Total([]) == 0 && Shrunk(files, files)
    ensures held.Some? ==> Elements<Recording>([]) <= Shown(files, held.value)
    ensures Completed([]) == [] && files - NamesIn([]) == files
  {
  }

  lemma {:induction false} ShrunkTwice(a: map<string, File>, b: map<string, File>, c: map<string, File>)
    requires Shrunk(a, b) && Shrunk(b, c)
    ensures Shrunk(a, c)
  {
  }

  /** What was scanned in a directory that did not change is what is there. */
  lemma {:induction false} SteadyScan(before: map<string, File>, after: map<string, File>, recs: seq<Recording>,
                                      held: set<(nat, nat)>)
    requires Shown(after, held) <= Elements(recs) <= Shown(before, held)
    ensures before == after ==> Elements(recs) == Shown(before, held) && AllThere(recs, after.Keys)
  {
    if before == after {
      forall r | r in recs
        ensures r.name in after.Keys
      {
        assert r in Shown(after, held);
      }
    }
  }

  /** Copies of what was left after the scan are copies of what was there before. */
  lemma {:induction false} CopiesSince(copied: set<(string, Bytes)>, now: set<(string, Bytes)>,
                                       exports: set<(string, Bytes)>, before: set<(string, Bytes)>,
                                       files: map<string, Bytes>, files': map<string, Bytes>, names: set<string>,
                                       spool: map<string, File>, first: map<string, File>, mode: Mode)
    requires Shrunk(first, spool) && NewCopies(copied, now, names, spool, mode)
    requires NewExports(before, exports, files, files', names, spool, mode)
    ensures NewCopies(copied, now, names, first, mode)
    ensures NewExports(before, exports, files, files', names, first, mode)
  {
    hide IsCopyName, Content;
    forall x | x in exports - before
      ensures MadeFrom(x, names, first, mode)
    {
      var name :| name in names && IsCopyName(x.0, name) && CopyOf((name, x.1), spool, mode);
      assert CopyOf((name, x.1), first, mode);
    }
  }
}
