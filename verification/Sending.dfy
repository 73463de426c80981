/** Sending local files to the container: UploadPublished, RemoteComplete and uploadAll of internal/azure/upload.go. */
module Sending {
  import opened Text
  import opened Ordering
  import opened Manifests
  import opened Container
  import LocalStore

  /** What a run finds in a local directory: the files, and what the manifest files beside them decode to. */
  datatype Local = Local(files: map<string, Bytes>, manifests: map<string, LocalStore.ManifestFile>)

  /** The local half of the completion contract. */
  predicate Whole(local: Local, us: string, name: string) {
    LocalStore.Accepts(local.files, local.manifests, us, name)
  }

  function Note(local: Local, us: string, name: string): Manifest
    requires Whole(local, us, name)
  {
    local.manifests[name].manifest
  }

  /** The file and its manifest are small enough for one request. */
  predicate Fits(local: Local, us: string, name: string)
    requires Whole(local, us, name)
  {
    |local.files[name]| <= MAX_SINGLE_UPLOAD && local.manifests[name].length <= MAX_SINGLE_UPLOAD
  }

  /** One reading of a local file. */
  method Reads(c: Store, area: Area, name: string) returns (through: bool)
    modifies c`faults
    ensures c.faults == old(c.faults) + if through then [] else [Of(area, name)]
  {
    through := *;
    c.faults := c.faults + if through then [] else [Of(area, name)];
  }

  /** VerifyPublished on one local file. */
  method VerifyLocal(c: Store, local: Local, area: Area, name: string) returns (ok: bool)
    modifies c`faults
    ensures old(c.faults) <= c.faults && (ok ==> Whole(local, c.us, name))
    ensures !Blamed(old(c.faults), c.faults, area, name) ==> ok == Whole(local, c.us, name)
  {
    var through := Reads(c, area, name);
    ok := LocalStore.VerifyFile(local.files, local.manifests, c.us, name, through);
    BlamedNow(old(c.faults), old(c.faults), area, name);
  }

  /** A copy that arrived: the blob, and the manifest with the backup's digest beside it. */
  ghost predicate Arrived(blobs: Blobs, us: string, area: Area, local: Local, name: string)
    requires Whole(local, us, name)
  {
    var data, note, m := DataKey(area, name), NoteKey(area, name), Note(local, us, name);
    && data in blobs && blobs[data].body == Raw(local.files[name]) && blobs[data].owner == us
    && blobs[data].sha == m.digest
    && note in blobs && blobs[note].body == Record(m, local.manifests[name].length)
  }

  /** Nothing but the two objects of one name differs, and neither is gone. */
  ghost predicate OnlyAt(before: Blobs, after: Blobs, area: Area, name: string) {
    && (forall k | k != DataKey(area, name) && k != NoteKey(area, name) :: Same(before, after, k))
    && before.Keys <= after.Keys
  }

  /** Every blob is an unchanged one, or this deployment wrote it in this period. */
  ghost predicate Fresh(before: Blobs, after: Blobs, us: string, since: int) {
    forall k | k in after ::
      || (k in before && after[k] == before[k])
      || (after[k].owner == us && after[k].modified.Some? && since <= after[k].modified.value)
  }

  lemma {:induction false} FreshTwice(a: Blobs, b: Blobs, c: Blobs, us: string, since: int, later: int)
    requires Fresh(a, b, us, since) && Fresh(b, c, us, later) && since <= later
    ensures Fresh(a, c, us, since)
  {
  }

  lemma {:induction false} OnlyAtTwice(a: Blobs, b: Blobs, c: Blobs, area: Area, name: string)
    requires OnlyAt(a, b, area, name) && OnlyAt(b, c, area, name)
    ensures OnlyAt(a, c, area, name)
  {
    forall k | k != DataKey(area, name) && k != NoteKey(area, name)
      ensures Same(a, c, k)
    {
      assert Same(a, b, k) && Same(b, c, k);
    }
  }

  lemma {:induction false} SoundWithData(blobs: Blobs, us: string, area: Area, name: string, bytes: Bytes, t: int)
    requires Sound(blobs, us)
    ensures Sound(blobs[DataKey(area, name) := Blob(Raw(bytes), us, Sha(bytes), Some(t))], us)
  {
    var after := blobs[DataKey(area, name) := Blob(Raw(bytes), us, Sha(bytes), Some(t))];
    forall k | k in after && k.DataKey? && after[k].owner == us
      ensures SoundData(after, us, k)
    {
      assert k != DataKey(area, name) ==> SoundData(blobs, us, k);
    }
    forall k | k in after && k.NoteKey? && after[k].owner == us
      ensures SoundNote(after, us, k)
    {
      assert SoundNote(blobs, us, k);
    }
  }

  lemma {:induction false} SoundWithNote(blobs: Blobs, us: string, area: Area, name: string, m: Manifest, length: nat,
                                         sha: Digest, t: int)
    requires Sound(blobs, us) && m.deployment == us
    requires DataKey(area, name) in blobs && blobs[DataKey(area, name)].owner == us
    ensures Sound(blobs[NoteKey(area, name) := Blob(Record(m, length), us, sha, Some(t))], us)
  {
    var after := blobs[NoteKey(area, name) := Blob(Record(m, length), us, sha, Some(t))];
    forall k | k in after && k.DataKey? && after[k].owner == us
      ensures SoundData(after, us, k)
    {
      assert SoundData(blobs, us, k);
    }
    forall k | k in after && k.NoteKey? && after[k].owner == us
      ensures SoundNote(after, us, k)
    {
      assert k != NoteKey(area, name) ==> SoundNote(blobs, us, k);
    }
  }

  /**
   * UploadPublished: the bytes, the read-back, and only then the manifest. Cut anywhere, the invariant holds; reported
   * as done, the copy is complete.
   */
  method UploadPublished(c: Store, local: Local, area: Area, name: string) returns (ok: bool)
    requires Sound(c.blobs, c.us)
    modifies c`blobs, c`killed, c`now, c`log, c`faults
    ensures Sound(c.blobs, c.us) && (old(c.killed) ==> c.killed && c.blobs == old(c.blobs))
    ensures old(c.now) <= c.now && old(c.log) <= c.log
    ensures OnlyAt(old(c.blobs), c.blobs, area, name)
    ensures Fresh(old(c.blobs), c.blobs, c.us, old(c.now))
    ensures ok ==> Whole(local, c.us, name) && Arrived(c.blobs, c.us, area, local, name)
    ensures !Whole(local, c.us, name) ==> c.blobs == old(c.blobs)
    ensures old(c.faults) <= c.faults
    ensures !Blamed(old(c.faults), c.faults, area, name) ==>
              ok == (Whole(local, c.us, name) && Fits(local, c.us, name))
    ensures c.killed ==> old(c.killed) || Blamed(old(c.faults), c.faults, area, name)
    ensures ok ==> name in local.files && ReadBack(old(c.log), c.log, DataKey(area, name), local.files[name])
  {
    hide Sound, Fresh, OnlyAt, Whole, Note, Blames, Blamed;
    NoUpload(c.blobs, c.us, area, name, c.now);
    WholeNote(local, c.us, name);
    ok := VerifyLocal(c, local, area, name);
    BlamedNow(old(c.faults), c.faults, area, name);
    assert c.faults + [] == c.faults;
    if !ok {
      return;
    }
    var readable := Reads(c, area, name);
    if !readable {
      return false;
    }
    var bytes, m := local.files[name], Note(local, c.us, name);
    ok := PutData(c, area, name, bytes, m.digest);
    if !ok {
      return;
    }
    ghost var middle := c.blobs;
    ghost var at := |c.log|;
    var back := c.Get(DataKey(area, name));
    if !back.Seen? || Length(back.value.body) != m.size || back.value.body != Raw(bytes) {
      return false;
    }
    var readAgain := Reads(c, area, name);
    if !readAgain {
      return false;
    }
    ghost var later := c.now;
    ok := PutNote(c, area, name, m, local.manifests[name].length);
    assert c.log[at] == (DataKey(area, name), back);
    OnlyAtTwice(old(c.blobs), middle, c.blobs, area, name);
    FreshTwice(old(c.blobs), middle, c.blobs, c.us, old(c.now), later);
  }

  lemma {:induction false} WholeNote(local: Local, us: string, name: string)
    ensures Whole(local, us, name) ==>
              && name in local.files && name in local.manifests && local.manifests[name].Readable?
              && Note(local, us, name) == local.manifests[name].manifest && Note(local, us, name).deployment == us
              && Note(local, us, name).size == |local.files[name]|
              && Note(local, us, name).digest == Sha(local.files[name])
  {
  }

  /** Since then this object was read, and it held these bytes. */
  ghost predicate ReadBack(before: Readings, after: Readings, k: Key, bytes: Bytes) {
    exists i :: |before| <= i < |after| && after[i].0 == k && after[i].1.Seen? && after[i].1.value.body == Raw(bytes)
  }

  lemma {:induction false} UnreadableIsNotThere(blobs: Blobs, us: string, area: Area, local: Local, name: string)
    ensures Whole(local, us, name) && NoteKey(area, name) in blobs && blobs[NoteKey(area, name)].body.Raw? ==>
              !Remote(blobs, us, area, name, Note(local, us, name))
  {
  }

  lemma {:induction false} ReadSince(a: Readings, b: Readings, c: Readings, k: Key, bytes: Bytes)
    requires a <= b <= c && ReadBack(b, c, k, bytes)
    ensures ReadBack(a, c, k, bytes)
  {
  }

  lemma {:induction false} NoUpload(blobs: Blobs, us: string, area: Area, name: string, since: int)
    ensures OnlyAt(blobs, blobs, area, name) && Fresh(blobs, blobs, us, since)
  {
  }

  method PutData(c: Store, area: Area, name: string, bytes: Bytes, sha: Digest) returns (ok: bool)
    requires Sound(c.blobs, c.us) && sha == Sha(bytes)
    modifies c`blobs, c`killed, c`now, c`log, c`faults
    ensures Sound(c.blobs, c.us) && (old(c.killed) ==> c.killed && c.blobs == old(c.blobs))
    ensures old(c.now) <= c.now && old(c.log) <= c.log
    ensures OnlyAt(old(c.blobs), c.blobs, area, name)
    ensures Fresh(old(c.blobs), c.blobs, c.us, old(c.now))
    ensures var k := DataKey(area, name);
            ok ==> k in c.blobs && c.blobs[k].body == Raw(bytes) && c.blobs[k].owner == c.us && c.blobs[k].sha == sha
    ensures c.faults == old(c.faults) + if ok || |bytes| > MAX_SINGLE_UPLOAD then [] else [Of(area, name)]
    ensures ok ==> |bytes| <= MAX_SINGLE_UPLOAD
    ensures c.killed ==> old(c.killed) || !ok
    ensures |bytes| > MAX_SINGLE_UPLOAD ==> c.killed == old(c.killed)
  {
    ok := c.Put(DataKey(area, name), Raw(bytes), sha);
    if c.blobs != old(c.blobs) {
      var t :| old(c.now) <= t <= c.now
               && c.blobs == old(c.blobs)[DataKey(area, name) := Blob(Raw(bytes), c.us, sha, Some(t))];
      SoundWithData(old(c.blobs), c.us, area, name, bytes, t);
    }
  }

  method PutNote(c: Store, area: Area, name: string, m: Manifest, length: nat) returns (ok: bool)
    requires Sound(c.blobs, c.us) && m.deployment == c.us
    requires DataKey(area, name) in c.blobs && c.blobs[DataKey(area, name)].owner == c.us
    modifies c`blobs, c`killed, c`now, c`log, c`faults
    ensures Sound(c.blobs, c.us) && (old(c.killed) ==> c.killed && c.blobs == old(c.blobs))
    ensures old(c.now) <= c.now && old(c.log) <= c.log
    ensures OnlyAt(old(c.blobs), c.blobs, area, name) && Same(old(c.blobs), c.blobs, DataKey(area, name))
    ensures Fresh(old(c.blobs), c.blobs, c.us, old(c.now))
    ensures ok ==> NoteKey(area, name) in c.blobs && c.blobs[NoteKey(area, name)].body == Record(m, length)
    ensures c.faults == old(c.faults) + if ok || length > MAX_SINGLE_UPLOAD then [] else [Of(area, name)]
    ensures ok ==> length <= MAX_SINGLE_UPLOAD
    ensures c.killed ==> old(c.killed) || !ok
    ensures length > MAX_SINGLE_UPLOAD ==> c.killed == old(c.killed)
  {
    ok := c.Put(NoteKey(area, name), Record(m, length), m.digest);
    if c.blobs != old(c.blobs) {
      var t :| old(c.now) <= t <= c.now
               && c.blobs == old(c.blobs)[NoteKey(area, name) := Blob(Record(m, length), c.us, m.digest, Some(t))];
      SoundWithNote(old(c.blobs), c.us, area, name, m, length, m.digest, t);
    }
  }

  // --- RemoteComplete ----------------------------------------------------

  /** The four fields that are compared, and the blob's own length and digest. */
  predicate Remote(blobs: Blobs, us: string, area: Area, name: string, local: Manifest) {
    var data, note := DataKey(area, name), NoteKey(area, name);
    && note in blobs && blobs[note].body.Record?
    && var m := blobs[note].body.manifest;
       && m.deployment == local.deployment && m.file == local.file && m.size == local.size && m.digest == local.digest
       && data in blobs && Length(blobs[data].body) == local.size
       && (blobs[data].sha.NoDigest? || blobs[data].sha == local.digest)
  }

  /** None is an error: the answer is not known. */
  method RemoteComplete(c: Store, local: Local, area: Area, name: string) returns (there: Option<bool>)
    modifies c`killed, c`now, c`log, c`faults
    ensures (old(c.killed) ==> c.killed) && old(c.now) <= c.now && old(c.log) <= c.log && old(c.faults) <= c.faults
    ensures !Blamed(old(c.faults), c.faults, area, name) && there.None? && Whole(local, c.us, name) ==>
              NoteKey(area, name) in c.blobs && c.blobs[NoteKey(area, name)].body.Raw?
    ensures c.killed ==> old(c.killed) || Blamed(old(c.faults), c.faults, area, name)
    ensures old(c.killed) ==> there.None?
    ensures there.Some? ==> Whole(local, c.us, name)
                            && there.value == Remote(c.blobs, c.us, area, name, Note(local, c.us, name))
  {
    hide Blames, Blamed;
    var ok := VerifyLocal(c, local, area, name);
    assert c.faults + [] == c.faults;
    BlamedNow(old(c.faults), c.faults, area, name);
    if !ok {
      return None;
    }
    var m := Note(local, c.us, name);
    var note := c.Get(NoteKey(area, name));
    if note.Absent? {
      return Some(false);
    }
    if !note.Seen? || note.value.body.Raw? {
      return None;
    }
    var r := note.value.body.manifest;
    if r.deployment != m.deployment || r.file != m.file || r.size != m.size || r.digest != m.digest {
      return Some(false);
    }
    var data := c.Get(DataKey(area, name));
    if data.Absent? {
      return Some(false);
    }
    if !data.Seen? {
      return None;
    }
    if Length(data.value.body) != m.size {
      return Some(false);
    }
    return Some(data.value.sha.NoDigest? || data.value.sha == m.digest);
  }

  /**
   * For a copy of ours that matching means having the same content: beside a manifest with the local one's deployment,
   * file, size and digest, it is the local file's bytes.
   */
  lemma {:induction false} RemoteExactly(blobs: Blobs, us: string, area: Area, local: Local, name: string)
    requires Sound(blobs, us) && Whole(local, us, name)
    requires Ours(blobs, us, DataKey(area, name))
    requires NoteKey(area, name) in blobs && blobs[NoteKey(area, name)].body.Record?
    ensures var there, here := blobs[NoteKey(area, name)].body.manifest, Note(local, us, name);
            Remote(blobs, us, area, name, here) <==>
              && there.deployment == here.deployment && there.file == here.file
              && there.size == here.size && there.digest == here.digest
              && blobs[DataKey(area, name)].body == Raw(local.files[name])
  {
    assert SoundData(blobs, us, DataKey(area, name));
  }

  // --- uploadAll ---------------------------------------------------------

  datatype Outcome = Outcome(uploaded: seq<string>, alreadyThere: seq<string>, failed: seq<string>)

  /** Only objects of these names in this area differ, and none is gone. */
  ghost predicate Touches(before: Blobs, after: Blobs, area: Area, names: set<string>) {
    && (forall k: Key | k.area != area || k.name !in names :: Same(before, after, k))
    && before.Keys <= after.Keys
  }

  /** Every name arrived: sent in this run, or untouched because a matching copy was there before. */
  ghost predicate Sent(before: Blobs, after: Blobs, us: string, area: Area, local: Local, names: set<string>,
                       uploaded: set<string>) {
    && uploaded <= names && (forall n | n in names :: Whole(local, us, n))
    && (forall n | n in uploaded :: Arrived(after, us, area, local, n))
    && (forall n | n in names - uploaded ::
          && Remote(before, us, area, n, Note(local, us, n))
          && Same(before, after, DataKey(area, n)) && Same(before, after, NoteKey(area, n)))
  }

  lemma {:induction false} NothingSent(blobs: Blobs, us: string, area: Area, local: Local)
    ensures Touches(blobs, blobs, area, {}) && Sent(blobs, blobs, us, area, local, {}, {})
  {
  }

  lemma {:induction false} TouchesMore(before: Blobs, mid: Blobs, after: Blobs, area: Area, names: set<string>,
                                       name: string)
    requires Touches(before, mid, area, names) && OnlyAt(mid, after, area, name)
    ensures Touches(before, after, area, names + {name})
  {
    forall k: Key | k.area != area || k.name !in names + {name}
      ensures Same(before, after, k)
    {
      assert Same(before, mid, k) && Same(mid, after, k);
    }
  }

  lemma {:induction false} SentOneMore(before: Blobs, mid: Blobs, after: Blobs, us: string, area: Area, local: Local,
                                       names: set<string>, uploaded: set<string>, name: string)
    requires Sent(before, mid, us, area, local, names, uploaded) && name !in names
    requires OnlyAt(mid, after, area, name) && Whole(local, us, name) && Arrived(after, us, area, local, name)
    ensures Sent(before, after, us, area, local, names + {name}, uploaded + {name})
  {
    forall n | n in names
      ensures Same(mid, after, DataKey(area, n)) && Same(mid, after, NoteKey(area, n))
    {
      assert n != name;
    }
  }

  lemma {:induction false} ThereBefore(before: Blobs, mid: Blobs, us: string, area: Area, local: Local,
                                       done: set<string>,
                                       names: set<string>, uploaded: set<string>, name: string)
    requires Sent(before, mid, us, area, local, names, uploaded) && Touches(before, mid, area, done)
    requires name !in names && name !in done
    requires Whole(local, us, name) && Remote(mid, us, area, name, Note(local, us, name))
    ensures Sent(before, mid, us, area, local, names + {name}, uploaded)
  {
    assert Same(before, mid, DataKey(area, name)) && Same(before, mid, NoteKey(area, name));
  }

  lemma {:induction false} SentUndisturbed(before: Blobs, mid: Blobs, after: Blobs, us: string, area: Area,
                                           local: Local,
                                           names: set<string>, uploaded: set<string>, name: string)
    requires Sent(before, mid, us, area, local, names, uploaded) && name !in names && OnlyAt(mid, after, area, name)
    ensures Sent(before, after, us, area, local, names, uploaded)
  {
    forall n | n in names
      ensures Same(mid, after, DataKey(area, n)) && Same(mid, after, NoteKey(area, n))
    {
      assert n != name;
    }
  }

  datatype Fate = Uploaded | There | NotUploaded | Cancelled

  /** What becomes of a file none of whose requests and readings fails. */
  function FateOf(blobs: Blobs, us: string, area: Area, local: Local, name: string): (fate: Fate)
    ensures fate != Cancelled
  {
    if !Whole(local, us, name) then NotUploaded
    else if Remote(blobs, us, area, name, Note(local, us, name)) then There
    else if Fits(local, us, name) then Uploaded
    else NotUploaded
  }

  /** Every name that a report mentions. */
  ghost function Mentioned(out: Outcome): set<string> {
    Elements(out.uploaded) + Elements(out.alreadyThere) + Elements(out.failed)
  }

  predicate PlacedAs(out: Outcome, name: string, fate: Fate) {
    && (name in out.uploaded <==> fate.Uploaded?) && (name in out.alreadyThere <==> fate.There?)
    && (name in out.failed <==> fate.NotUploaded?)
  }

  /** Of these names, those without a fault are where they belong by what was there before. */
  ghost predicate Placed(blobs: Blobs, us: string, area: Area, local: Local, names: set<string>, out: Outcome,
                         before: seq<Fault>, after: seq<Fault>) {
    forall n | n in names && !Blamed(before, after, area, n) :: PlacedAs(out, n, FateOf(blobs, us, area, local, n))
  }

  /** One more name, put where it belongs unless a fault of its own came between. */
  lemma {:induction false} PlacedMore(blobs: Blobs, mid: Blobs, us: string, area: Area, local: Local,
                                      names: set<string>, touched: set<string>, name: string, out: Outcome,
                                      next: Outcome, fate: Fate, a: seq<Fault>, b: seq<Fault>, c: seq<Fault>)
    requires Placed(blobs, us, area, local, names, out, a, b) && a <= b <= c
    requires Touches(blobs, mid, area, touched) && name !in touched && name !in names
    requires names == Mentioned(out)
    requires !Blamed(b, c, area, name) ==> fate == FateOf(mid, us, area, local, name)
    requires match fate
             case Uploaded => next == out.(uploaded := out.uploaded + [name])
             case There => next == out.(alreadyThere := out.alreadyThere + [name])
             case NotUploaded => next == out.(failed := out.failed + [name])
             case Cancelled => false
    ensures Placed(blobs, us, area, local, names + {name}, next, a, c)
  {
    hide Touches, Whole, Note, Remote, Fits, FateOf, Blames;
    SameFate(blobs, mid, us, area, local, touched, name);
    forall n | n in names + {name} && !Blamed(a, c, area, n)
      ensures PlacedAs(next, n, FateOf(blobs, us, area, local, n))
    {
      BlamedLater(a, b, c, area, n);
      if n != name {
        assert PlacedAs(out, n, FateOf(blobs, us, area, local, n));
      }
    }
  }

  lemma {:induction false} NonePlaced(blobs: Blobs, us: string, area: Area, local: Local, out: Outcome,
                                      before: seq<Fault>, after: seq<Fault>)
    ensures Placed(blobs, us, area, local, {}, out, before, after)
  {
  }

  /** What is placed by some of the faults is by more of them. */
  lemma {:induction false} PlacedAmong(blobs: Blobs, us: string, area: Area, local: Local, names: set<string>,
                                       out: Outcome, a: seq<Fault>, b: seq<Fault>, c: seq<Fault>, d: seq<Fault>)
    requires Placed(blobs, us, area, local, names, out, b, c) && a <= b <= c <= d
    ensures Placed(blobs, us, area, local, names, out, a, d)
  {
    hide PlacedAs, FateOf, Blames;
    forall n | n in names && !Blamed(a, d, area, n)
      ensures PlacedAs(out, n, FateOf(blobs, us, area, local, n))
    {
      BlamedLater(b, c, d, area, n);
      BlamedLater(a, b, d, area, n);
    }
  }

  /** What happens in the other area changes no file's fate. */
  lemma {:induction false} PlacedApart(blobs: Blobs, mid: Blobs, us: string, area: Area, local: Local,
                                       names: set<string>, out: Outcome, a: seq<Fault>, b: seq<Fault>)
    requires Placed(mid, us, area, local, names, out, a, b)
    requires forall k: Key | k.area == area :: Same(blobs, mid, k)
    ensures Placed(blobs, us, area, local, names, out, a, b)
  {
    hide Blamed, Whole, Note, Fits;
    forall n
      ensures FateOf(mid, us, area, local, n) == FateOf(blobs, us, area, local, n)
    {
      assert Same(blobs, mid, DataKey(area, n)) && Same(blobs, mid, NoteKey(area, n));
    }
  }

  ghost predicate SomeBlamed(before: seq<Fault>, after: seq<Fault>, area: Area, names: seq<string>) {
    exists n :: n in names && Blamed(before, after, area, n)
  }

  lemma {:induction false} OneBlamed(a: seq<Fault>, b: seq<Fault>, c: seq<Fault>, area: Area, names: seq<string>,
                                     name: string)
    requires a <= b <= c && name in names
    ensures SomeBlamed(a, b, area, names) || Blamed(b, c, area, name) ==> SomeBlamed(a, c, area, names)
  {
    hide Blames;
    BlamedLater(a, b, c, area, name);
    if SomeBlamed(a, b, area, names) {
      var n :| n in names && Blamed(a, b, area, n);
      BlamedLater(a, b, c, area, n);
    }
  }

  lemma {:induction false} SameFate(blobs: Blobs, mid: Blobs, us: string, area: Area, local: Local,
                                   touched: set<string>, name: string)
    requires Touches(blobs, mid, area, touched) && name !in touched
    ensures FateOf(mid, us, area, local, name) == FateOf(blobs, us, area, local, name)
  {
    assert Same(blobs, mid, DataKey(area, name)) && Same(blobs, mid, NoteKey(area, name));
  }

  /** One file: skipped when its copy is there, sent otherwise; an error while looking stops a cancelled run. */
  method SendOne(c: Store, local: Local, area: Area, name: string, ghost before: Blobs, ghost since: int,
                 ghost touched: set<string>, ghost arrived: set<string>, ghost sent: set<string>)
    returns (fate: Fate)
    requires Sound(c.blobs, c.us) && name !in touched + arrived && since <= c.now
    requires Touches(before, c.blobs, area, touched) && Fresh(before, c.blobs, c.us, since)
    requires Sent(before, c.blobs, c.us, area, local, arrived, sent)
    modifies c`blobs, c`killed, c`now, c`log, c`faults
    ensures Sound(c.blobs, c.us) && (old(c.killed) ==> c.killed && c.blobs == old(c.blobs))
    ensures old(c.now) <= c.now && old(c.log) <= c.log
    ensures Touches(before, c.blobs, area, if fate in {Uploaded, NotUploaded} then touched + {name} else touched)
    ensures Fresh(before, c.blobs, c.us, since) && (fate == Cancelled ==> c.killed)
    ensures Sent(before, c.blobs, c.us, area, local, if fate in {Uploaded, There} then arrived + {name} else arrived,
                 if fate == Uploaded then sent + {name} else sent)
    ensures old(c.faults) <= c.faults && (old(c.killed) ==> fate == Cancelled)
    ensures fate == Uploaded ==>
              name in local.files && ReadBack(old(c.log), c.log, DataKey(area, name), local.files[name])
    ensures !Blamed(old(c.faults), c.faults, area, name) ==>
              fate == FateOf(old(c.blobs), c.us, area, local, name) || (fate == Cancelled && old(c.killed))
    ensures c.killed ==> old(c.killed) || Blamed(old(c.faults), c.faults, area, name)
  {
    hide Sound, Fresh, OnlyAt, Sent, Touches, Whole, Fits, Remote, Blamed;
    var there := RemoteComplete(c, local, area, name);
    if there == Some(true) {
      ThereBefore(before, c.blobs, c.us, area, local, touched, arrived, sent, name);
      return There;
    }
    if there.None? && c.killed {
      return Cancelled;
    }
    UnreadableIsNotThere(c.blobs, c.us, area, local, name);
    ghost var mid, later, faults, log := c.blobs, c.now, c.faults, c.log;
    var up := UploadPublished(c, local, area, name);
    BlamedLater(old(c.faults), faults, c.faults, area, name);
    TouchesMore(before, mid, c.blobs, area, touched, name);
    FreshTwice(before, mid, c.blobs, c.us, since, later);
    if !up {
      SentUndisturbed(before, mid, c.blobs, c.us, area, local, arrived, sent, name);
      return NotUploaded;
    }
    SentOneMore(before, mid, c.blobs, c.us, area, local, arrived, sent, name);
    ReadSince(old(c.log), log, c.log, DataKey(area, name), local.files[name]);
    return Uploaded;
  }

  /**
   * Every file is attempted, unless the run is cancelled; the ones whose copy is there already are skipped. What is
   * reported as sent or as there is, whatever became of the others, and only what was sent or failed was touched.
   */
  method UploadAll(c: Store, local: Local, names: seq<string>, area: Area) returns (out: Outcome, ok: bool)
    requires Sound(c.blobs, c.us) && Distinct(names)
    modifies c`blobs, c`killed, c`now, c`log, c`faults
    ensures Sound(c.blobs, c.us) && (old(c.killed) ==> c.killed && c.blobs == old(c.blobs))
    ensures old(c.now) <= c.now && old(c.log) <= c.log
    ensures Touches(old(c.blobs), c.blobs, area, Elements(out.uploaded) + Elements(out.failed))
    ensures Fresh(old(c.blobs), c.blobs, c.us, old(c.now))
    ensures Sent(old(c.blobs), c.blobs, c.us, area, local, Elements(out.uploaded) + Elements(out.alreadyThere),
                 Elements(out.uploaded))
    ensures var all := Elements(out.uploaded) + Elements(out.alreadyThere) + Elements(out.failed);
            all <= Elements(names) && (ok || !c.killed ==> all == Elements(names) && Total(out) == |names|)
    ensures !c.killed ==> (ok <==> out.failed == [])
    ensures ok ==> out.failed == []
    ensures old(c.faults) <= c.faults && (old(c.killed) ==> out == Outcome([], [], []))
    ensures Placed(old(c.blobs), c.us, area, local, Mentioned(out), out, old(c.faults), c.faults)
    ensures c.killed || Mentioned(out) != Elements(names) ==>
              old(c.killed) || SomeBlamed(old(c.faults), c.faults, area, names)
  {
    hide Sound, Fresh, OnlyAt, Sent, Touches, Elements, Placed, Blamed;
    NonePlaced(c.blobs, c.us, area, local, Outcome([], [], []), c.faults, c.faults);
    out, ok := Outcome([], [], []), false;
    ghost var arrived: set<string>, sent: set<string>, failed: set<string> := {}, {}, {};
    NothingSent(c.blobs, c.us, area, local);
    NoUpload(c.blobs, c.us, area, [], c.now);
    NoElements(names);
    for i := 0 to |names|
      invariant Sound(c.blobs, c.us) && (old(c.killed) ==> c.killed && c.blobs == old(c.blobs))
      invariant old(c.now) <= c.now && old(c.log) <= c.log
      invariant sent == Elements(out.uploaded) && arrived == sent + Elements(out.alreadyThere)
      invariant failed == Elements(out.failed) && arrived + failed == Elements(names[..i]) <= Elements(names)
      invariant Touches(old(c.blobs), c.blobs, area, sent + failed) && Fresh(old(c.blobs), c.blobs, c.us, old(c.now))
      invariant Total(out) == i && old(c.faults) <= c.faults && (old(c.killed) ==> out == Outcome([], [], []))
      invariant c.killed ==> old(c.killed) || SomeBlamed(old(c.faults), c.faults, area, names)
      invariant Placed(old(c.blobs), c.us, area, local, arrived + failed, out, old(c.faults), c.faults)
      invariant Sent(old(c.blobs), c.blobs, c.us, area, local, arrived, sent)
    {
      var name := names[i];
      ElementsStep(names, i);
      ElementsAppend(out.uploaded, name);
      ElementsAppend(out.alreadyThere, name);
      ElementsAppend(out.failed, name);
      ghost var before, touched := arrived + failed, sent + failed;
      assert sent + {name} + failed == sent + failed + {name} == sent + (failed + {name});
      ghost var mid, was, faults := c.blobs, out, c.faults;
      var fate := SendOne(c, local, area, name, old(c.blobs), old(c.now), sent + failed, arrived, sent);
      OneBlamed(old(c.faults), faults, c.faults, area, names, name);
      match fate {
        case Uploaded =>
          out := out.(uploaded := out.uploaded + [name]);
          arrived, sent := arrived + {name}, sent + {name};
        case There =>
          out := out.(alreadyThere := out.alreadyThere + [name]);
          arrived := arrived + {name};
        case NotUploaded =>
          out := out.(failed := out.failed + [name]);
          failed := failed + {name};
        case Cancelled =>
          PlacedAmong(old(c.blobs), c.us, area, local, before, out, old(c.faults), old(c.faults), faults, c.faults);
          return;
      }
      PlacedMore(old(c.blobs), mid, c.us, area, local, before, touched, name, was, out, fate, old(c.faults), faults,
                 c.faults);
    }
    assert names[..|names|] == names;
    ok := out.failed == [];
  }

  function Total(out: Outcome): nat {
    |out.uploaded| + |out.alreadyThere| + |out.failed|
  }

  lemma {:induction false} NoElements(names: seq<string>)
    ensures Elements(names[..0]) == {} && Elements<string>([]) == {}
  {
  }

  lemma {:induction false} ElementsAppend(q: seq<string>, x: string)
    ensures Elements(q + [x]) == Elements(q) + {x}
  {
  }

  lemma {:induction false} ElementsStep(q: seq<string>, i: nat)
    requires i < |q| && Distinct(q)
    ensures Elements(q[..i + 1]) == Elements(q[..i]) + {q[i]} && q[i] !in Elements(q[..i])
    ensures Elements(q[..i]) + {q[i]} <= Elements(q)
  {
    TakeStep(q, i);
  }
}
