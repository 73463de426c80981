/**
 * The blob container of internal/azure/blob.go and the completion contract of internal/azure/prune.go, as seen from
 * one deployment. Only objects under this deployment's prefix appear: the listing shows no others and
 * DeleteOwnedBlob refuses them.
 *
 * Every request can fail before it has an effect, or have its effect and lose the reply, and the process can be killed
 * or its run cancelled at any request; from then on no request gets through. Runs do not overlap.
 */
module Container {
  import opened Text
  import opened Ordering
  import opened Manifests

  datatype Area = Database | Recordings

  /** A published file's blob, and the blob of its manifest: the same name with the manifest suffix. */
  datatype Key = DataKey(area: Area, name: string) | NoteKey(area: Area, name: string)

  datatype Body = Raw(bytes: Bytes) | Record(manifest: Manifest, length: nat)

  /** `sha` is metadata, and on a manifest's blob it is the backup's digest; `modified` is None when unreadable. */
  datatype Blob = Blob(body: Body, owner: string, sha: Digest, modified: Option<int>)

  type Blobs = map<Key, Blob>

  const MAX_SINGLE_UPLOAD := 268435456
  const LIST_PAGE_SIZE := 1000
  const MAX_LIST_PAGES := 5000

  function Length(body: Body): nat {
    match body
    case Raw(bytes) => |bytes|
    case Record(_, length) => length
  }

  /** The part of a name after the last slash. */
  function Base(name: string): string {
    if '/' !in name then name else Base(name[1..])
  }

  /** The object carries this deployment's marker. */
  predicate Ours(blobs: Blobs, us: string, k: Key) {
    k in blobs && blobs[k].owner == us
  }

  // --- the completion contract -------------------------------------------

  datatype Verdict = NotOwned | Incomplete | Complete(manifest: Manifest)

  /** What the checks say of a manifest beside a blob this deployment owns. */
  function Judge(m: Manifest, data: Blob, us: string, name: string): Verdict {
    if m.version != MANIFEST_VERSION then Incomplete
    else if m.deployment != us then NotOwned
    else if m.file != Base(name) || m.digest.NoDigest? || m.size != Length(data.body) then Incomplete
    else if !data.sha.NoDigest? && data.sha != m.digest then Incomplete
    else if m.published.None? then Incomplete
    else Complete(m)
  }

  /** What an up-to-date check of one object concludes. */
  function Verify(blobs: Blobs, us: string, area: Area, name: string): Verdict {
    if DataKey(area, name) !in blobs then Incomplete
    else
      var data := blobs[DataKey(area, name)];
      if data.owner != us then NotOwned
      else if NoteKey(area, name) !in blobs then Incomplete
      else
        match blobs[NoteKey(area, name)].body
        case Raw(_) => Incomplete
        case Record(m, _) => Judge(m, data, us, name)
  }

  /** When an object is complete, and when it is somebody else's. */
  lemma {:induction false} VerdictExactly(blobs: Blobs, us: string, area: Area, name: string, m: Manifest)
    ensures var data, note := DataKey(area, name), NoteKey(area, name);
            var mine := data in blobs && blobs[data].owner == us && note in blobs && blobs[note].body.Record?;
            && (Verify(blobs, us, area, name) == Complete(m) <==>
                  && mine && blobs[note].body.manifest == m
                  && m.version == 1 && m.deployment == us && m.file == Base(name) && m.published.Some?
                  && m.size == Length(blobs[data].body) && !m.digest.NoDigest?
                  && (blobs[data].sha.NoDigest? || blobs[data].sha == m.digest))
            && (Verify(blobs, us, area, name) == NotOwned <==>
                  || (data in blobs && blobs[data].owner != us)
                  || (mine && blobs[note].body.manifest.version == 1 && blobs[note].body.manifest.deployment != us))
  {
  }

  function StampOf(name: string, m: Manifest): Stamp
    requires m.published.Some?
  {
    Stamp(m.published.value, 0, name)
  }

  /** The verified database backups, each with the publication time that orders it. */
  ghost function Held(blobs: Blobs, us: string): set<Stamp> {
    set k | k in blobs && k.DataKey? && k.area == Database && Verify(blobs, us, Database, k.name).Complete? ::
      StampOf(k.name, Verify(blobs, us, Database, k.name).manifest)
  }

  lemma {:induction false} HeldByName(blobs: Blobs, us: string, x: Stamp)
    ensures x in Held(blobs, us)
            <==> var v := Verify(blobs, us, Database, x.name);
                 v.Complete? && x == StampOf(x.name, v.manifest)
  {
    var k := DataKey(Database, x.name);
    if Verify(blobs, us, Database, x.name).Complete? {
      assert k in blobs && k.name == x.name;
    }
  }

  // --- the invariant -----------------------------------------------------

  ghost predicate SoundData(blobs: Blobs, us: string, k: Key)
    requires k in blobs
  {
    blobs[k].body.Raw? && blobs[k].sha == Sha(blobs[k].body.bytes)
  }

  ghost predicate SoundNote(blobs: Blobs, us: string, k: Key)
    requires k in blobs && k.NoteKey?
  {
    && blobs[k].body.Record? && blobs[k].body.manifest.deployment == us
    && DataKey(k.area, k.name) in blobs && blobs[DataKey(k.area, k.name)].owner == us
  }

  /**
   * Every blob of this deployment carries the digest of its own content; every manifest of this deployment has its
   * blob beside it; and nobody else writes manifests in this deployment's name.
   */
  ghost predicate Sound(blobs: Blobs, us: string) {
    && (forall k | k in blobs && k.DataKey? && blobs[k].owner == us :: SoundData(blobs, us, k))
    && (forall k | k in blobs && k.NoteKey? && blobs[k].owner == us :: SoundNote(blobs, us, k))
    && (forall k | k in blobs && k.NoteKey? && blobs[k].body.Record? && blobs[k].body.manifest.deployment == us ::
          blobs[k].owner == us)
  }

  /**
   * A verified object holds exactly the bytes whose digest its manifest records, whoever wrote that manifest and
   * when.
   */
  lemma {:induction false} CompleteIsWhole(blobs: Blobs, us: string, area: Area, name: string)
    requires Sound(blobs, us) && Verify(blobs, us, area, name).Complete?
    ensures var m, data := Verify(blobs, us, area, name).manifest, blobs[DataKey(area, name)].body;
            && data.Raw? && m.digest == Sha(data.bytes) && m.size == |data.bytes| && m.deployment == us
    ensures blobs[NoteKey(area, name)].owner == us
  {
    assert SoundData(blobs, us, DataKey(area, name));
  }

  ghost predicate OtherNames(blobs: Blobs, residue: Blobs) {
    forall k, l | k in blobs && l in residue :: k.area != l.area || k.name != l.name
  }

  /** Incomplete or foreign objects only. */
  ghost predicate NoneComplete(residue: Blobs, us: string) {
    forall k | k in residue && k.DataKey? :: !Verify(residue, us, k.area, k.name).Complete?
  }

  /** Residue: objects under other names that are no complete backups change nothing about what is held. */
  lemma {:induction false} ResidueIsInvisible(blobs: Blobs, residue: Blobs, us: string)
    requires OtherNames(blobs, residue) && NoneComplete(residue, us)
    ensures Held(blobs + residue, us) == Held(blobs, us)
  {
    forall x: Stamp
      ensures x in Held(blobs + residue, us) <==> x in Held(blobs, us)
    {
      HeldByName(blobs, us, x);
      HeldByName(blobs + residue, us, x);
      var data, note := DataKey(Database, x.name), NoteKey(Database, x.name);
      if data in residue {
        assert note in residue || note !in blobs + residue;
        assert Verify(blobs + residue, us, Database, x.name) == Verify(residue, us, Database, x.name);
      } else if data in blobs {
        assert note in blobs || note !in blobs + residue;
        assert Verify(blobs + residue, us, Database, x.name) == Verify(blobs, us, Database, x.name);
      }
    }
  }

  /** A blob's verdict depends on nothing but the two objects of its name. */
  lemma {:induction false} VerdictIsLocal(a: Blobs, b: Blobs, us: string, area: Area, name: string)
    requires Same(a, b, DataKey(area, name)) && Same(a, b, NoteKey(area, name))
    ensures Verify(a, us, area, name) == Verify(b, us, area, name)
  {
  }

  ghost predicate Same(a: Blobs, b: Blobs, k: Key) {
    (k in a <==> k in b) && (k in a ==> a[k] == b[k])
  }

  /** Removing the manifest, or the blob once its manifest is gone, keeps the invariant. */
  lemma {:induction false} SoundWithout(blobs: Blobs, us: string, area: Area, name: string, gone: set<Key>)
    requires Sound(blobs, us) && gone <= {DataKey(area, name), NoteKey(area, name)}
    requires DataKey(area, name) in gone ==> NoteKey(area, name) !in blobs - gone
    ensures Sound(blobs - gone, us)
  {
    var left := blobs - gone;
    forall k | k in left && k.DataKey? && left[k].owner == us
      ensures SoundData(left, us, k)
    {
      assert SoundData(blobs, us, k);
    }
    forall k | k in left && k.NoteKey? && left[k].owner == us
      ensures SoundNote(left, us, k)
    {
      assert SoundNote(blobs, us, k);
    }
  }

  // --- requests ----------------------------------------------------------

  /** Refused is an error the service answered with; Lost is a request without an answer. */
  datatype Reading<+T> = Absent | Refused | Lost | Seen(value: T)
  /** Objects that were read, in order, with the answers. */
  type Readings = seq<(Key, Reading<Blob>)>
  /**
   * What failed in a run: a request about an object or the reading of the local file it comes from, the readings of
   * some local files while their directory was listed, or a listing, here or there.
   */
  datatype Fault = Of(area: Area, name: string) | Unread(area: Area, names: set<string>) | Listing(area: Area)

  predicate Blames(f: Fault, area: Area, name: string) {
    match f
    case Of(a, n) => a == area && n == name
    case Unread(a, names) => a == area && name in names
    case Listing(_) => false
  }

  /** One of the later faults is about this name. */
  predicate Blamed(before: seq<Fault>, after: seq<Fault>, area: Area, name: string) {
    exists i :: |before| <= i < |after| && Blames(after[i], area, name)
  }

  lemma {:induction false} BlamedNow(a: seq<Fault>, b: seq<Fault>, area: Area, name: string)
    requires a <= b
    ensures Blamed(a, b + [Of(area, name)], area, name)
  {
    assert Blames((b + [Of(area, name)])[|b|], area, name);
  }

  lemma {:induction false} BlamedLater(a: seq<Fault>, b: seq<Fault>, c: seq<Fault>, area: Area, name: string)
    requires a <= b <= c
    ensures Blamed(a, c, area, name) <==> Blamed(a, b, area, name) || Blamed(b, c, area, name)
  {
  }

  datatype Deletion = Deleted | NotFound | Foreign | Failed

  class Store {
    var blobs: Blobs
    var now: int
    var killed: bool                              // no request of this process gets through any more
    const us: string
    const orderly: bool                           // the service never repeats a continuation marker
    ghost var log: Readings                       // every reading of an object, with its answer
    ghost var faults: seq<Fault>

    constructor (us: string, orderly: bool)
      ensures Sound(blobs, us) && this.us == us && this.orderly == orderly && !killed && blobs == map[]
    {
      this.us, this.orderly := us, orderly;
      blobs, now, killed, log, faults := map[], 0, false, [], [];
    }

    /** One direction of a request: it gets through, or not, and the process may die. */
    method Pass() returns (through: bool)
      modifies `killed, `now
      ensures old(killed) ==> killed
      ensures through ==> !killed
      ensures old(now) <= now
    {
      var dies: bool, works: bool, waits: nat := *, *, *;
      now := now + waits;
      killed := killed || dies;
      through := !killed && works;
    }

    /** PutBlob replaces an object whole or not at all; without a reply it is not known which. */
    method Put(k: Key, body: Body, sha: Digest) returns (ok: bool)
      modifies `blobs, `killed, `now, `faults
      ensures (old(killed) ==> killed && blobs == old(blobs)) && old(now) <= now
      ensures Length(body) > MAX_SINGLE_UPLOAD ==> killed == old(killed)
      ensures faults == old(faults) + if ok || Length(body) > MAX_SINGLE_UPLOAD then [] else [Of(k.area, k.name)]
      ensures blobs == old(blobs)
              || (exists t :: old(now) <= t <= now && blobs == old(blobs)[k := Blob(body, us, sha, Some(t))])
      ensures ok ==> Length(body) <= MAX_SINGLE_UPLOAD && !killed
                     && exists t :: old(now) <= t <= now && blobs == old(blobs)[k := Blob(body, us, sha, Some(t))]
    {
      if Length(body) > MAX_SINGLE_UPLOAD {
        return false;
      }
      var sent := Pass();
      if !sent {
        faults := faults + [Of(k.area, k.name)];
        return false;
      }
      blobs := blobs[k := Blob(body, us, sha, Some(now))];
      ok := Pass();
      faults := faults + if ok then [] else [Of(k.area, k.name)];
    }

    /** HeadBlob and GetBlob. */
    method Get(k: Key) returns (r: Reading<Blob>)
      modifies `killed, `now, `log, `faults
      ensures (old(killed) ==> killed) && old(now) <= now && log == old(log) + [(k, r)]
      ensures faults == old(faults) + if r.Refused? || r.Lost? then [Of(k.area, k.name)] else []
      ensures r.Absent? || r.Seen? ==> !killed
      ensures r.Absent? ==> k !in blobs
      ensures r.Seen? ==> k in blobs && blobs[k] == r.value
    {
      var heard := Pass();
      var refused: bool := *;
      if heard {
        r := if k in blobs then Seen(blobs[k]) else Absent;
      } else {
        r := if refused && !killed then Refused else Lost;
      }
      log := log + [(k, r)];
      faults := faults + if heard then [] else [Of(k.area, k.name)];
    }

    /** DeleteOwnedBlob: the marker is read back first; without a reply it is not known whether the object is gone. */
    method Delete(k: Key) returns (d: Deletion)
      modifies `blobs, `killed, `now, `log, `faults
      ensures (old(killed) ==> killed && blobs == old(blobs)) && old(now) <= now && old(log) <= log
      ensures faults == old(faults) + if d.Failed? then [Of(k.area, k.name)] else []
      ensures blobs == old(blobs) || (k in old(blobs) && old(blobs)[k].owner == us && blobs == old(blobs) - {k})
      ensures d.Deleted? ==> k in old(blobs) && old(blobs)[k].owner == us && blobs == old(blobs) - {k}
      ensures d.NotFound? ==> k !in old(blobs)
      ensures d.Foreign? ==> k in old(blobs) && old(blobs)[k].owner != us
    {
      var marker := Get(k);
      if marker.Absent? {
        return NotFound;
      }
      if !marker.Seen? {
        return Failed;
      }
      if marker.value.owner != us {
        return Foreign;
      }
      var sent := Pass();
      if !sent {
        faults := faults + [Of(k.area, k.name)];
        return Failed;
      }
      blobs := blobs - {k};
      var heard := Pass();
      faults := faults + if heard then [] else [Of(k.area, k.name)];
      return if heard then Deleted else Failed;
    }

    /**
     * One page of a listing: some of what has not been listed yet, and whether a marker continues it. The service may
     * repeat its marker, but not when it is orderly. A last page that is still continued is a fault of the listing.
     */
    method Page(left: set<Key>, area: Area, page: nat) returns (got: Option<seq<Key>>, more: bool, repeats: bool)
      modifies `killed, `now, `faults
      ensures (old(killed) ==> killed) && old(now) <= now
      ensures got.Some? ==> Distinct(got.value) && |got.value| <= LIST_PAGE_SIZE
      ensures got.Some? ==> forall k | k in got.value :: k in left
      ensures got.Some? && !more ==> forall k | k in left :: k in got.value
      ensures repeats ==> page > 0 && !orderly
      ensures var last := page + 1 == MAX_LIST_PAGES;
              faults == old(faults) + if got.None? || (more && !repeats && last) then [Listing(area)] else []
    {
      more, repeats := true, false;
      var heard := Pass();
      if !heard {
        faults := faults + [Listing(area)];
        return None, more, repeats;
      }
      var rest, out: seq<Key>, room: nat := left, [], *;
      room := if room <= LIST_PAGE_SIZE then room else LIST_PAGE_SIZE;
      while rest != {} && |out| < room
        invariant (old(killed) ==> killed) && old(now) <= now && faults == old(faults)
        invariant rest <= left && Distinct(out) && |out| <= room
        invariant forall k :: k in out <==> k in left && k !in rest
        decreases rest
      {
        var k :| k in rest;
        DistinctAppend(out, k);
        out, rest := out + [k], rest - {k};
      }
      more, repeats := rest != {}, *;
      repeats := repeats && page > 0 && !orderly;
      faults := faults + if more && !repeats && page + 1 == MAX_LIST_PAGES then [Listing(area)] else [];
      return Some(out), more, repeats;
    }

    /**
     * listAll: pages of any size up to the limit are appended until the service has no more or repeats its marker, or
     * there are too many.
     */
    method ListAll(area: Area) returns (listed: Option<seq<Key>>)
      modifies `killed, `now, `faults
      ensures (old(killed) ==> killed) && old(now) <= now
      ensures faults == old(faults) + if listed.None? then [Listing(area)] else []
      ensures listed.Some? ==> Distinct(listed.value) && forall k | k in listed.value :: k in blobs && k.area == area
      ensures listed.Some? && orderly ==> forall k | k in blobs && k.area == area :: k in listed.value
    {
      var left := set k | k in blobs && k.area == area;
      var out: seq<Key> := [];
      for page := 0 to MAX_LIST_PAGES
        invariant (old(killed) ==> killed) && old(now) <= now
        invariant faults == old(faults) + if page == MAX_LIST_PAGES then [Listing(area)] else []
        invariant Distinct(out) && forall k :: k in out <==> k in blobs && k.area == area && k !in left
        invariant forall k | k in left :: k in blobs && k.area == area
      {
        var got, more, repeats := Page(left, area, page);
        if got.None? {
          return None;
        }
        DistinctTogether(out, got.value);
        out, left := out + got.value, left - (set k | k in got.value);
        if !more || repeats {
          return Some(out);
        }
      }
      return None;
    }

    /**
     * Both retention rules remove the manifest first, so what remains of a backup never has a manifest without its
     * blob.
     */
    method RemovePair(area: Area, name: string) returns (fate: Deletion, ghost gone: set<Key>)
      requires Sound(blobs, us)
      modifies `blobs, `killed, `now, `log, `faults
      ensures faults == old(faults) + if fate.Failed? then [Of(area, name)] else []
      ensures Sound(blobs, us) && (old(killed) ==> killed && gone == {}) && old(now) <= now && old(log) <= log
      ensures blobs == old(blobs) - gone && gone <= {DataKey(area, name), NoteKey(area, name)}
      ensures forall k | k in gone :: k in old(blobs) && old(blobs)[k].owner == us
      ensures fate.Deleted? ==> DataKey(area, name) in gone && NoteKey(area, name) !in blobs
      ensures fate.NotFound? ==> DataKey(area, name) !in old(blobs)
      ensures fate.Foreign? ==> DataKey(area, name) !in gone
      ensures fate.Foreign? ==>
                || (NoteKey(area, name) in old(blobs) && old(blobs)[NoteKey(area, name)].owner != us)
                || (DataKey(area, name) in old(blobs) && old(blobs)[DataKey(area, name)].owner != us)
    {
      var note, data := NoteKey(area, name), DataKey(area, name);
      gone := {};
      fate := Delete(note);
      if note !in blobs && note in old(blobs) {
        gone := {note};
      }
      SoundWithout(old(blobs), us, area, name, gone);
      assert blobs == old(blobs) - gone;
      if fate.Foreign? || fate.Failed? {
        return;
      }
      ghost var before := gone;
      fate := Delete(data);
      if data !in blobs && data in old(blobs) {
        gone := gone + {data};
      }
      SoundWithout(old(blobs), us, area, name, gone);
      assert blobs == old(blobs) - gone;
    }
  }
}
