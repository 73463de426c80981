/**
 * Backups in a local directory: publishing in internal/backup/backup.go, retention in internal/schedule/run.go.
 *
 * Any step can fail and the process can be killed between any two steps; a killed process changes nothing any more,
 * so what a method leaves behind when `killed` is set is what a crash leaves. `reliable` says that nothing fails.
 */
module LocalStore {
  import opened Text
  import opened Ordering
  import opened Names
  import opened Manifests

  /** What a manifest file decodes to; `length` is its own size. */
  datatype ManifestFile = Readable(manifest: Manifest, length: nat) | Unreadable

  /** A scheduled run; others changing the directory; a new process, with the weather from then on. */
  datatype Event = Run(bytes: Bytes, clock: Clock, ext: string, keep: int, mounted: bool) | Others | Restart(calm: bool)

  datatype Claim = Claimed | Taken | NoLinks | Failed

  /** A manifest never passes for a backup, so the two kinds of name can be kept apart. */
  lemma {:induction false} ManifestIsNoBackup(name: string)
    ensures ParsePublished(name + MANIFEST_SUFFIX).None?
  {
    var s := name + MANIFEST_SUFFIX;
    assert s[|s| - 1] == 'n';
    if ParsePublished(s).Some? {
      EndsAsBackup(s);
    }
  }

  lemma {:induction false} EndsAsBackup(name: string)
    requires ParsePublished(name).Some?
    ensures name != [] && name[|name| - 1] in ['l', 'e']
  {
    var t := name[|HEAD|..];
    var m := ReadMilli(t[15..]).value.1;
    SuffixEnds(m[1..]);
    assert name[|name| - 1] == m[|m| - 1];
  }

  lemma {:induction false} SuffixEnds(s: string)
    requires ReadSuffix(s).Some?
    ensures s != [] && s[|s| - 1] in ['l', 'e']
  {
  }

  // --- what a directory holds --------------------------------------------

  /** VerifyPublished: the checks of a backup against the manifest beside it. */
  predicate Accepts(files: map<string, Bytes>, manifests: map<string, ManifestFile>, deployment: string, name: string) {
    && name in manifests && manifests[name].Readable? && name in files
    && Describes(manifests[name].manifest, deployment, name, files[name])
  }

  /** The deployment's valid backups. */
  ghost function Valid(files: map<string, Bytes>, manifests: map<string, ManifestFile>,
                       deployment: string): set<Stamp> {
    set n | n in files && Accepts(files, manifests, deployment, n) && ParsePublished(n).Some? :: ParsePublished(n).value
  }

  lemma {:induction false} ValidByName(files: map<string, Bytes>, manifests: map<string, ManifestFile>,
                                       deployment: string,
                                       x: Stamp)
    ensures x in Valid(files, manifests, deployment)
            <==> Accepts(files, manifests, deployment, x.name) && ParsePublished(x.name) == Some(x)
  {
    if Accepts(files, manifests, deployment, x.name) && ParsePublished(x.name) == Some(x) {
      assert x.name in files;
    }
  }

  /** Every manifest of this deployment under its own name records an export that was finished under that name. */
  ghost predicate Genuine(manifests: map<string, ManifestFile>, deployment: string, exports: set<(string, Bytes)>) {
    forall n | n in manifests && manifests[n].Readable? && manifests[n].manifest.deployment == deployment
               && manifests[n].manifest.file == n ::
      manifests[n].manifest.digest.Sha? && (n, manifests[n].manifest.digest.of) in exports
  }

  /** What is accepted is the complete content of a finished export. */
  lemma {:induction false} AcceptedIsFinished(files: map<string, Bytes>, manifests: map<string, ManifestFile>,
                                              deployment: string, exports: set<(string, Bytes)>, name: string)
    requires Genuine(manifests, deployment, exports) && Accepts(files, manifests, deployment, name)
    ensures (name, files[name]) in exports
  {
    var m := manifests[name].manifest;
    assert m.digest.of == files[name];
  }

  /** Nothing that was there is gone or different. */
  ghost predicate Keeps(before: map<string, Bytes>, after: map<string, Bytes>) {
    forall n | n in before :: n in after && after[n] == before[n]
  }

  lemma {:induction false} OthersStayValid(files: map<string, Bytes>, files': map<string, Bytes>,
                                           manifests: map<string, ManifestFile>, manifests': map<string, ManifestFile>,
                                           deployment: string)
    requires Keeps(files, files')
    requires forall n | n in files && n in manifests :: n in manifests' && manifests'[n] == manifests[n]
    ensures Valid(files, manifests, deployment) <= Valid(files', manifests', deployment)
  {
    forall x | x in Valid(files, manifests, deployment)
      ensures x in Valid(files', manifests', deployment)
    {
      ValidByName(files, manifests, deployment, x);
      ValidByName(files', manifests', deployment, x);
    }
  }

  lemma {:induction false} SameManifest(manifests: map<string, ManifestFile>, manifests': map<string, ManifestFile>,
                                        name: string)
    requires manifests - {name} == manifests' - {name}
    ensures forall n | n != name && n in manifests :: n in manifests' && manifests'[n] == manifests[n]
  {
    forall n | n != name && n in manifests
      ensures n in manifests' && manifests'[n] == manifests[n]
    {
      assert n in manifests - {name};
      assert (manifests - {name})[n] == (manifests' - {name})[n];
    }
  }

  /** What happens under one name concerns no other backup. */
  lemma {:induction false} OthersUnaffected(files: map<string, Bytes>, manifests: map<string, ManifestFile>,
                                            files': map<string, Bytes>, manifests': map<string, ManifestFile>,
                                            deployment: string, name: string, y: Stamp)
    requires files - {name} == files' - {name} && manifests - {name} == manifests' - {name} && y.name != name
    ensures y in Valid(files, manifests, deployment) <==> y in Valid(files', manifests', deployment)
  {
    ValidByName(files, manifests, deployment, y);
    ValidByName(files', manifests', deployment, y);
    assert y.name in files <==> y.name in files - {name};
    assert y.name in files' <==> y.name in files' - {name};
    assert y.name in manifests <==> y.name in manifests - {name};
    assert y.name in manifests' <==> y.name in manifests' - {name};
    assert y.name in files ==> files[y.name] == (files - {name})[y.name];
    assert y.name in files' ==> files'[y.name] == (files' - {name})[y.name];
    assert y.name in manifests ==> manifests[y.name] == (manifests - {name})[y.name];
    assert y.name in manifests' ==> manifests'[y.name] == (manifests' - {name})[y.name];
  }

  lemma {:induction false} OneMoreValid(files: map<string, Bytes>, manifests: map<string, ManifestFile>,
                                        manifests': map<string, ManifestFile>, deployment: string, bytes: Bytes,
                                        x: Stamp)
    requires x.name !in files && ParsePublished(x.name) == Some(x)
    requires Accepts(files[x.name := bytes], manifests', deployment, x.name)
    requires manifests - {x.name} == manifests' - {x.name}
    ensures Valid(files[x.name := bytes], manifests', deployment) == Valid(files, manifests, deployment) + {x}
  {
    hide ParsePublished;
    var files' := files[x.name := bytes];
    forall y: Stamp
      ensures y in Valid(files', manifests', deployment) <==> y in Valid(files, manifests, deployment) || y == x
    {
      if y.name != x.name {
        OthersUnaffected(files, manifests, files', manifests', deployment, x.name, y);
      } else {
        ValidByName(files, manifests, deployment, y);
        ValidByName(files', manifests', deployment, y);
      }
    }
  }

  /** Removing a valid backup, with or without its manifest, takes that one from the valid ones. */
  lemma {:induction false} Dropped(files: map<string, Bytes>, manifests: map<string, ManifestFile>,
                                   manifests': map<string, ManifestFile>, deployment: string, x: Stamp)
    requires x in Valid(files, manifests, deployment) && manifests - {x.name} == manifests' - {x.name}
    ensures Valid(files - {x.name}, manifests', deployment) == Valid(files, manifests, deployment) - {x}
  {
    hide ParsePublished;
    var files' := files - {x.name};
    ValidByName(files, manifests, deployment, x);
    forall y: Stamp
      ensures y in Valid(files', manifests', deployment) <==> y in Valid(files, manifests, deployment) && y != x
    {
      if y.name != x.name {
        OthersUnaffected(files, manifests, files', manifests', deployment, x.name, y);
      } else {
        ValidByName(files, manifests, deployment, y);
        ValidByName(files', manifests', deployment, y);
      }
    }
  }

  lemma {:induction false} NextInSlice(q: seq<Stamp>, from: nat, i: nat)
    requires Sorted(q) && from <= i < |q|
    ensures q[from..i + 1] == q[from..i] + [q[i]] && q[i] !in q[from..i]
    ensures q[from..i] <= q[from..i + 1] <= q[from..]
  {
    SortedIsDistinct(q);
  }

  /** What is left after the backups in `gone` were removed. */
  ghost predicate Left(files: map<string, Bytes>, manifests: map<string, ManifestFile>, files': map<string, Bytes>,
                       manifests': map<string, ManifestFile>, deployment: string, gone: seq<Stamp>) {
    && Valid(files', manifests', deployment) == Valid(files, manifests, deployment) - Elements(gone)
    && forall n | n in files && n !in files' :: n in NamesOf(Elements(gone))
  }

  lemma {:induction false} LeftAtFirst(files: map<string, Bytes>, manifests: map<string, ManifestFile>,
                                       deployment: string)
    ensures Left(files, manifests, files, manifests, deployment, [])
  {
  }

  lemma {:induction false} LeftStep(files: map<string, Bytes>, manifests: map<string, ManifestFile>,
                                    files': map<string, Bytes>, manifests': map<string, ManifestFile>,
                                    deployment: string, gone: seq<Stamp>, x: Stamp)
    requires Left(files, manifests, files', manifests', deployment, gone)
    requires x in Valid(files, manifests, deployment) && x !in gone
    ensures x in Valid(files', manifests', deployment)
    ensures Left(files, manifests, files' - {x.name}, manifests', deployment, gone + [x])
    ensures Left(files, manifests, files' - {x.name}, manifests' - {x.name}, deployment, gone + [x])
  {
    assert Elements(gone + [x]) == Elements(gone) + {x};
    Dropped(files', manifests', manifests', deployment, x);
    Dropped(files', manifests', manifests' - {x.name}, deployment, x);
    forall n | n in files && n !in files' - {x.name}
      ensures n in NamesOf(Elements(gone + [x]))
    {
      if n == x.name {
        assert x in Elements(gone + [x]);
      }
    }
  }

  /** Retention removed only valid backups, all of them beyond the newest `k`. */
  ghost predicate Pruned(files: map<string, Bytes>, manifests: map<string, ManifestFile>, files': map<string, Bytes>,
                         manifests': map<string, ManifestFile>, deployment: string, k: nat) {
    var before, after := Valid(files, manifests, deployment), Valid(files', manifests', deployment);
    && Newest(before, k) <= after <= before
    && forall n | n in files && n !in files' :: n in NamesOf(before - after)
  }

  lemma {:induction false} NothingPruned(files: map<string, Bytes>, manifests: map<string, ManifestFile>,
                                         deployment: string, k: nat)
    ensures Pruned(files, manifests, files, manifests, deployment, k)
  {
  }

  lemma {:induction false} LeftIsPruned(files: map<string, Bytes>, manifests: map<string, ManifestFile>,
                                        files': map<string, Bytes>, manifests': map<string, ManifestFile>,
                                        deployment: string, k: nat, gone: seq<Stamp>, beyond: seq<Stamp>)
    requires Left(files, manifests, files', manifests', deployment, gone) && gone <= beyond
    requires var before := Valid(files, manifests, deployment);
             Elements(beyond) <= before - Newest(before, k)
    ensures Pruned(files, manifests, files', manifests', deployment, k)
    ensures Elements(gone) == Valid(files, manifests, deployment) - Valid(files', manifests', deployment)
  {
    assert forall x | x in Elements(gone) :: x in Elements(beyond);
  }

  /** A name a run may publish under. */
  ghost predicate IsNameFor(name: string, clock: Clock, ext: string)
    requires ValidClock(clock)
  {
    exists i: nat :: i <= COLLISIONS && name == PublishedName(Base(clock), i, ext)
  }

  /** One run finishes at most one export: its own bytes, under a name of its own that was free. */
  ghost predicate Finishes(before: set<(string, Bytes)>, after: set<(string, Bytes)>, files: map<string, Bytes>,
                           bytes: Bytes, clock: Clock, ext: string)
    requires ValidClock(clock)
  {
    after == before
    || exists name :: name !in files && IsNameFor(name, clock, ext) && after == before + {(name, bytes)}
  }

  lemma {:induction false} NothingFinished(exports: set<(string, Bytes)>, files: map<string, Bytes>, bytes: Bytes,
                                           clock: Clock, ext: string)
    requires ValidClock(clock)
    ensures Finishes(exports, exports, files, bytes, clock, ext)
  {
  }

  lemma {:induction false} FinishesOne(exports: set<(string, Bytes)>, files: map<string, Bytes>, bytes: Bytes,
                                       clock: Clock, ext: string, number: nat)
    requires ValidClock(clock) && number <= COLLISIONS && PublishedName(Base(clock), number, ext) !in files
    ensures Finishes(exports, exports + {(PublishedName(Base(clock), number, ext), bytes)}, files, bytes, clock, ext)
  {
    assert IsNameFor(PublishedName(Base(clock), number, ext), clock, ext);
  }

  /** This export was finished by one of the first `n` events: a run with those bytes, under a name of its own. */
  ghost predicate FinishedBy(x: (string, Bytes), events: seq<Event>, n: nat)
    requires n <= |events|
  {
    exists i: nat :: i < n && Exports(events[i], x)
  }

  ghost predicate Exports(e: Event, x: (string, Bytes)) {
    e.Run? && ValidClock(e.clock) && Extension(e.ext) && x.1 == e.bytes && IsNameFor(x.0, e.clock, e.ext)
  }

  ghost predicate AllFinishedBy(exports: set<(string, Bytes)>, events: seq<Event>, n: nat)
    requires n <= |events|
  {
    forall x | x in exports :: FinishedBy(x, events, n)
  }

  lemma {:induction false} NoneFinished(exports: set<(string, Bytes)>, events: seq<Event>)
    ensures AllFinishedBy(exports - exports, events, 0)
  {
  }

  lemma {:induction false} FinishedLater(exports: set<(string, Bytes)>, events: seq<Event>, n: nat)
    requires n < |events| && AllFinishedBy(exports, events, n)
    ensures AllFinishedBy(exports, events, n + 1)
  {
  }

  lemma {:induction false} FinishedMore(first: set<(string, Bytes)>, before: set<(string, Bytes)>,
                                        after: set<(string, Bytes)>, files: map<string, Bytes>, events: seq<Event>,
                                        n: nat)
    requires n < |events| && AllFinishedBy(before - first, events, n)
    requires events[n].Run? && ValidClock(events[n].clock) && Extension(events[n].ext)
    requires Finishes(before, after, files, events[n].bytes, events[n].clock, events[n].ext)
    ensures before <= after && AllFinishedBy(after - first, events, n + 1)
  {
    hide IsNameFor;
    forall x | x in after - first
      ensures FinishedBy(x, events, n + 1)
    {
      assert x in before - first || Exports(events[n], x);
    }
  }

  // --- reading a directory -----------------------------------------------

  /** VerifyPublished, check by check; any reading can fail. */
  method VerifyFile(files: map<string, Bytes>, manifests: map<string, ManifestFile>, deployment: string, name: string,
                    reliable: bool)
    returns (ok: bool)
    ensures ok ==> Accepts(files, manifests, deployment, name)
    ensures reliable ==> ok == Accepts(files, manifests, deployment, name)
  {
    var read: bool, readAgain: bool := *, *;
    if (!read && !reliable) || name !in manifests || manifests[name].Unreadable? {
      return false;
    }
    var m := manifests[name].manifest;
    if m.version != MANIFEST_VERSION || m.file != name || m.deployment != deployment {
      return false;
    }
    if (!readAgain && !reliable) || name !in files {
      return false;
    }
    return m.size == |files[name]| && m.digest == Sha(files[name]);
  }

  /**
   * The backups among the files that could be read and verify, newest first. `lists` says whether the directory can
   * be listed, and `fails` for which files a reading fails.
   */
  method ListFiles(files: map<string, Bytes>, manifests: map<string, ManifestFile>, deployment: string, lists: bool,
                   fails: set<string>)
    returns (found: Option<seq<Stamp>>, ghost unread: set<string>)
    ensures unread <= NamesOf(Valid(files, manifests, deployment)) * fails && (found.Some? <==> lists)
    ensures found.Some? ==> Sorted(found.value)
    ensures found.Some? ==>
              forall x :: x in found.value <==> x in Valid(files, manifests, deployment) && x.name !in unread
  {
    hide ParsePublished;
    unread := {};
    if !lists {
      return None, {};
    }
    var valid: seq<Stamp>, left := [], files.Keys;
    while left != {}
      invariant left <= files.Keys && Distinct(valid)
      invariant unread <= NamesOf(Valid(files, manifests, deployment)) * fails
      invariant forall x :: x in valid <==>
                  x in Valid(files, manifests, deployment) && x.name !in unread && x.name !in left
      invariant unread !! left
      decreases left
    {
      var name :| name in left;
      left := left - {name};
      var stamp := ParsePublished(name);
      OneName(files, manifests, deployment, name);
      if stamp.Some? {
        var ok := VerifyFile(files, manifests, deployment, name, name !in fails);
        if ok {
          DistinctAppend(valid, stamp.value);
          valid := valid + [stamp.value];
        } else {
          unread := if Accepts(files, manifests, deployment, name) then unread + {name} else unread;
        }
      }
    }
    SortedIsSorted(valid);
    assert forall x :: x in SortNewest(valid) <==> x in Elements(valid);
    return Some(SortNewest(valid)), unread;
  }

  /** A name stands for one valid backup at most, the one it parses to. */
  lemma {:induction false} OneName(files: map<string, Bytes>, manifests: map<string, ManifestFile>, deployment: string,
                                   name: string)
    ensures forall x | x in Valid(files, manifests, deployment) && x.name == name :: ParsePublished(name) == Some(x)
    ensures ParsePublished(name).Some? && Accepts(files, manifests, deployment, name) ==>
              ParsePublished(name).value in Valid(files, manifests, deployment)
  {
    forall x | x in Valid(files, manifests, deployment) && x.name == name
      ensures ParsePublished(name) == Some(x)
    {
      ValidByName(files, manifests, deployment, x);
    }
  }

  class Directory {
    var files: map<string, Bytes>
    var manifests: map<string, ManifestFile>   // by the name of the backup
    var partial: Option<Bytes>                 // the unpublished export of the current run
    var killed: bool
    var reliable: bool
    const deployment: string
    const links: bool                          // the file system can make hard links
    ghost var exports: set<(string, Bytes)>    // every export ever finished, and the name it got
    ghost var failures: nat                    // how many system calls have failed

    constructor (deployment: string, links: bool)
      ensures Inv() && this.deployment == deployment && files == map[] && manifests == map[]
    {
      files, manifests, partial, killed, reliable, exports, failures := map[], map[], None, false, false, {}, 0;
      this.deployment, this.links := deployment, links;
    }

    ghost predicate Inv()
      reads `manifests, `exports, `killed, `reliable
    {
      Genuine(manifests, deployment, exports) && (reliable ==> !killed)
    }

    // --- system calls ----------------------------------------------------

    /** One system call: it fails without effect, and the process may die instead of making it. */
    method Try() returns (ok: bool)
      requires Inv()
      modifies `killed, `failures
      ensures Inv() && (old(killed) ==> killed)
      ensures ok ==> !killed
      ensures (reliable ==> ok) && failures == old(failures) + if ok then 0 else 1
    {
      var dies: bool, works: bool := *, *;
      killed := killed || (dies && !reliable);
      ok := !killed && (works || reliable);
      failures := failures + if ok then 0 else 1;
    }

    /** A hard link claims a free name with the whole content at once; a file system may not support it. */
    method Link(final: string, bytes: Bytes) returns (c: Claim)
      requires Inv()
      modifies `files, `killed, `failures
      ensures Inv() && (old(killed) ==> killed)
      ensures files == if c.Claimed? then old(files)[final := bytes] else old(files)
      ensures c.Claimed? ==> final !in old(files)
      ensures c.Taken? ==> final in files
      ensures c.NoLinks? ==> !links
      ensures (reliable ==> !c.Failed?) && failures == old(failures) + if c.Failed? then 1 else 0
      ensures links || c in {NoLinks, Claim.Failed}
    {
      var ok := Try();
      if !ok {
        return Failed;
      }
      if !links {
        return NoLinks;
      }
      if final in files {
        return Taken;
      }
      files := files[final := bytes];
      return Claimed;
    }

    /** An exclusive create claims a free name, empty. */
    method Create(final: string) returns (c: Claim)
      requires Inv()
      modifies `files, `killed, `failures
      ensures Inv() && (old(killed) ==> killed) && !c.NoLinks?
      ensures files == if c.Claimed? then old(files)[final := []] else old(files)
      ensures if c.Claimed? then final !in old(files) else c.Taken? ==> final in files
      ensures (reliable ==> !c.Failed?) && failures == old(failures) + if c.Failed? then 1 else 0
    {
      var ok := Try();
      if !ok {
        return Failed;
      }
      if final in files {
        return Taken;
      }
      files := files[final := []];
      return Claimed;
    }

    /** Writes a piece more of this content. */
    method Write(final: string, bytes: Bytes, done: nat) returns (ok: bool, now: nat)
      requires Inv() && done < |bytes| && final in files && files[final] == bytes[..done]
      modifies `files, `killed, `failures
      ensures Inv() && (old(killed) ==> killed) && (ok ==> done < now) && done <= now <= |bytes|
      ensures files == old(files)[final := bytes[..now]]
      ensures (reliable ==> ok) && failures == old(failures) + if ok then 0 else 1
    {
      ok := Try();
      now := done;
      if ok {
        now :| done < now <= |bytes|;
        files := files[final := bytes[..now]];
      }
    }

    method Remove(name: string) returns (ok: bool)
      requires Inv()
      modifies `files, `killed, `failures
      ensures Inv() && (old(killed) ==> killed) && files == if ok then old(files) - {name} else old(files)
      ensures (reliable ==> ok) && failures == old(failures) + if ok then 0 else 1
    {
      ok := Try();
      if ok {
        files := files - {name};
      }
    }

    method RemoveManifest(name: string) returns (ok: bool)
      requires Inv()
      modifies `manifests, `killed, `failures
      ensures Inv() && (old(killed) ==> killed) && manifests == if ok then old(manifests) - {name} else old(manifests)
      ensures (reliable ==> ok) && failures == old(failures) + if ok then 0 else 1
    {
      ok := Try();
      if ok {
        manifests := manifests - {name};
      }
    }

    method Read(name: string) returns (content: Option<Bytes>)
      requires Inv() && name in files
      modifies `killed, `failures
      ensures Inv() && (old(killed) ==> killed) && content in {None, Some(files[name])}
      ensures (reliable ==> content.Some?) && failures == old(failures) + if content.Some? then 0 else 1
    {
      var ok := Try();
      return if ok then Some(files[name]) else None;
    }

    /** Puts a manifest in place at once, from a file of its own; that can fail at two places. */
    method WriteManifest(name: string, m: Manifest, length: nat) returns (ok: bool)
      requires Inv()
      requires m.version == MANIFEST_VERSION && m.deployment == deployment && m.file == name
      requires exists content :: (name, content) in exports && m.size == |content| && m.digest == Sha(content)
      modifies `manifests, `killed, `failures
      ensures Inv() && (old(killed) ==> killed)
      ensures manifests == if ok then old(manifests)[name := Readable(m, length)] else old(manifests)
      ensures (reliable ==> ok) && (ok ==> failures == old(failures)) && (!ok ==> failures > old(failures))
    {
      ok := Try();
      if ok {
        ok := Try();
      }
      if ok {
        manifests := manifests[name := Readable(m, length)];
      }
    }

    /** The unpublished export of a run is written, or not. */
    method Export(bytes: Bytes) returns (ok: bool)
      requires Inv()
      modifies `partial, `killed, `failures
      ensures Inv() && (old(killed) ==> killed) && partial == if ok then Some(bytes) else old(partial)
      ensures (reliable ==> ok) && failures == old(failures) + if ok then 0 else 1
    {
      ok := Try();
      if ok {
        partial := Some(bytes);
      }
    }

    /** The unpublished export is removed, or not. */
    method Discard() returns (ok: bool)
      requires Inv()
      modifies `partial, `killed, `failures
      ensures Inv() && (old(killed) ==> killed) && partial == if ok then None else old(partial)
      ensures (reliable ==> ok) && failures == old(failures) + if ok then 0 else 1
    {
      ok := Try();
      if ok {
        partial := None;
      }
    }

    /** For which files a reading fails while the directory is gone through. */
    method Readings() returns (lists: bool, fails: set<string>)
      requires Inv()
      modifies `killed, `failures
      ensures Inv() && (old(killed) ==> killed)
      ensures (reliable ==> lists && fails == {}) && old(failures) <= failures
      ensures failures == old(failures) <==> lists && fails == {}
    {
      lists := Try();
      fails := *;
      fails := if reliable || !lists then {} else fails;
      failures := failures + if fails == {} then 0 else 1;
    }

    // --- publishing ------------------------------------------------------

    /**
     * An exclusive create claims a free name empty; the content is copied piece by piece, and a failed copy removed.
     */
    method CopyReserved(final: string, bytes: Bytes) returns (c: Claim)
      requires Inv()
      modifies `files, `killed, `failures
      ensures Inv() && (old(killed) ==> killed) && !c.NoLinks?
      ensures c.Claimed? ==> final !in old(files) && files == old(files)[final := bytes]
      ensures c.Taken? ==> final in files && files == old(files)
      ensures c.Failed? ==>
                || files == old(files)
                || (final !in old(files) && final in files && files == old(files)[final := files[final]])
      ensures (reliable ==> !c.Failed?) && old(failures) <= failures && (c.Failed? <==> failures > old(failures))
      ensures failures <= old(failures) + 1 && c.Failed? ==> files == old(files)
    {
      c := Create(final);
      if !c.Claimed? {
        return;
      }
      var done, ok := 0, true;
      while ok && done < |bytes|
        invariant Inv() && (old(killed) ==> killed) && (reliable ==> ok)
        invariant final !in old(files) && done <= |bytes| && files == old(files)[final := bytes[..done]]
        invariant failures == old(failures) + if ok then 0 else 1
        decreases |bytes| - done, ok
      {
        ok, done := Write(final, bytes, done);
      }
      if ok {
        assert bytes[..done] == bytes;
        return Claimed;
      }
      var removed := Remove(final);
      assert files - {final} == old(files) - {final} == old(files);
      return Failed;
    }

    /** One name: by link until the file system turns out not to support links, by copy from then on. */
    method ClaimName(final: string, bytes: Bytes, copying: bool) returns (c: Claim, copies: bool)
      requires Inv()
      modifies `files, `killed, `failures
      ensures Inv() && (old(killed) ==> killed) && !c.NoLinks?
      ensures c.Claimed? ==> final !in old(files) && files == old(files)[final := bytes]
      ensures c.Taken? ==> final in files && files == old(files)
      ensures c.Failed? ==>
                || files == old(files)
                || (final !in old(files) && final in files && files == old(files)[final := files[final]])
      ensures (reliable ==> !c.Failed?) && old(failures) <= failures && (c.Failed? <==> failures > old(failures))
      ensures failures <= old(failures) + 1 && c.Failed? ==> files == old(files)
      ensures !copying && links ==> !copies && (c.Failed? ==> files == old(files))
      ensures copies == (copying || (!links && !c.Failed?)) || c.Failed?
    {
      copies := copying;
      if !copying {
        c := Link(final, bytes);
        if !c.NoLinks? {
          return;
        }
        copies := true;
      }
      c := CopyReserved(final, bytes);
    }

    /**
     * publishNonDestructively. What was there stays as it was on every path; a success takes the first free name
     * of the hundred and one, whole; and as long as it has not succeeded the export itself is still there.
     */
    method Publish(bytes: Bytes, base: string, ext: string) returns (number: Option<nat>)
      requires Inv() && partial == Some(bytes)
      modifies `files, `killed, `failures, `partial
      ensures Inv() && (old(killed) ==> killed)
      ensures Keeps(old(files), files)
      ensures number.Some? ==>
                var final := PublishedName(base, number.value, ext);
                && number.value <= COLLISIONS && final !in old(files) && files == old(files)[final := bytes]
                && forall j: nat | j < number.value :: PublishedName(base, j, ext) in old(files)
      ensures number.None? ==> partial == Some(bytes)
      ensures number.Some? ==> partial == if failures == old(failures) then None else Some(bytes)
      ensures old(failures) <= failures && (reliable ==> failures == old(failures))
      ensures number.None? && (links || failures <= old(failures) + 1) ==> files == old(files)
      ensures number.None? && failures == old(failures) ==>
                forall j: nat | j <= COLLISIONS :: PublishedName(base, j, ext) in files
    {
      hide PublishedName, Genuine;
      var copying := false;
      for i: nat := 0 to COLLISIONS + 1
        invariant Inv() && (old(killed) ==> killed)
        invariant files == old(files) && partial == Some(bytes) && failures == old(failures)
        invariant links ==> !copying
        invariant forall j: nat | j < i :: PublishedName(base, j, ext) in files
      {
        var final := PublishedName(base, i, ext);
        var claim: Claim;
        claim, copying := ClaimName(final, bytes, copying);
        match claim {
          case Claimed =>
            var removed := Discard();
            return Some(i);
          case Taken =>
          case _ => return None;
        }
      }
      return None;
    }

    /**
     * The manifest is written after the backup, from what reading the backup back shows, and appears whole or not at
     * all.
     */
    method PublishManifest(name: string) returns (ok: bool)
      requires Inv() && name in files && (name, files[name]) in exports
      modifies `manifests, `killed, `failures
      ensures Inv() && (old(killed) ==> killed)
      ensures ok ==> Accepts(files, manifests, deployment, name)
      ensures manifests - {name} == old(manifests) - {name}
      ensures !ok ==> manifests == old(manifests)
      ensures (reliable ==> ok) && old(failures) <= failures && (ok <==> failures == old(failures))
    {
      var content := Read(name);
      if content.None? {
        return false;
      }
      var at: int, length: nat := *, *;
      var m := Manifest(MANIFEST_VERSION, deployment, name, |content.value|, Sha(content.value), Some(at));
      ok := WriteManifest(name, m, length);
    }

    /** One backup run. Whatever happens, every earlier valid backup is still a valid backup. */
    method Backup(bytes: Bytes, clock: Clock, ext: string) returns (published: Option<Stamp>)
      requires Inv() && ValidClock(clock) && Extension(ext)
      modifies `files, `manifests, `partial, `killed, `failures, `exports
      ensures Inv() && (old(killed) ==> killed)
      ensures Keeps(old(files), files)
      ensures Valid(old(files), old(manifests), deployment) <= Valid(files, manifests, deployment)
      ensures Finishes(old(exports), exports, old(files), bytes, clock, ext)
      ensures forall x | x in exports - old(exports) :: x.0 in files && files[x.0] == x.1
      ensures published.Some? ==>
                var x := published.value;
                && (x.name, bytes) in exports && x.at == Instant(clock) && x.number <= COLLISIONS
                && x.name == PublishedName(Base(clock), x.number, ext)
                && x.name !in old(files) && files == old(files)[x.name := bytes]
                && (forall j: nat | j < x.number :: PublishedName(Base(clock), j, ext) in old(files))
                && Valid(files, manifests, deployment) == Valid(old(files), old(manifests), deployment) + {x}
      ensures (reliable ==> failures == old(failures)) && old(failures) <= failures
      ensures failures == old(failures) ==>
                partial == if published.Some? then None else Some(bytes)
      ensures failures == old(failures) && published.None? ==>
                files == old(files) && manifests == old(manifests) &&
                forall j: nat | j <= COLLISIONS :: PublishedName(Base(clock), j, ext) in old(files)
    {
      hide ParsePublished, PublishedName, Base, Instant, Extension;
      published := None;
      NothingFinished(exports, files, bytes, clock, ext);
      var base := Base(clock);
      var ok := Export(bytes);
      if !ok {
        return;
      }
      var number := Publish(bytes, base, ext);
      if number.None? {
        OthersStayValid(old(files), files, old(manifests), manifests, deployment);
        return;
      }
      var name := PublishedName(base, number.value, ext);
      FinishesOne(exports, old(files), bytes, clock, ext, number.value);
      exports := exports + {(name, bytes)};
      ok := PublishManifest(name);
      SameManifest(old(manifests), manifests, name);
      OthersStayValid(old(files), files, old(manifests), manifests, deployment);
      if ok {
        NameReadsBack(clock, number.value, ext);
        published := ParsePublished(name);
        OneMoreValid(old(files), old(manifests), manifests, deployment, bytes, published.value);
      }
    }

    // --- retention -------------------------------------------------------

    /** VerifyPublished. */
    method Verify(name: string) returns (ok: bool)
      requires Inv()
      modifies `killed, `failures
      ensures Inv() && (old(killed) ==> killed)
      ensures ok ==> Accepts(files, manifests, deployment, name)
      ensures (reliable ==> failures == old(failures)) && old(failures) <= failures
      ensures failures == old(failures) ==> ok == Accepts(files, manifests, deployment, name)
    {
      var through := Try();
      ok := VerifyFile(files, manifests, deployment, name, through);
    }

    /** The valid backups, newest first; what cannot be read now is left out. */
    method List() returns (found: Option<seq<Stamp>>)
      requires Inv()
      modifies `killed, `failures
      ensures Inv() && (old(killed) ==> killed)
      ensures found.Some? ==> Sorted(found.value) && Elements(found.value) <= Valid(files, manifests, deployment)
      ensures (reliable ==> failures == old(failures)) && old(failures) <= failures
      ensures failures == old(failures) ==>
                found.Some? && Elements(found.value) == Valid(files, manifests, deployment)
    {
      hide ParsePublished;
      var lists, fails := Readings();
      ghost var unread;
      found, unread := ListFiles(files, manifests, deployment, lists, fails);
    }

    /** Removes one backup and then its manifest. */
    method Drop(x: Stamp) returns (ok: bool, ghost went: bool)
      requires Inv() && x in Valid(files, manifests, deployment)
      modifies `files, `manifests, `killed, `failures
      ensures Inv() && (old(killed) ==> killed) && Keeps(files, old(files))
      ensures files == if went then old(files) - {x.name} else old(files)
      ensures manifests == if ok then old(manifests) - {x.name} else old(manifests)
      ensures ok ==> went
      ensures (reliable ==> ok) && old(failures) <= failures && (ok <==> failures == old(failures))
    {
      ok := Remove(x.name);
      went := ok;
      if !ok {
        return;
      }
      ok := RemoveManifest(x.name);
    }

    /** Neither the files of these backups nor their manifests are left. */
    ghost predicate PairsGone(removed: seq<Stamp>, files: set<string>, manifests: set<string>) {
      forall x | x in removed :: x.name !in files && x.name !in manifests
    }

    /** No manifest changed but for those of these backups, which may be gone. */
    ghost predicate OnlyWithout(before: map<string, ManifestFile>, after: map<string, ManifestFile>, gone: seq<Stamp>) {
      && after.Keys <= before.Keys && (forall n | n in after :: after[n] == before[n])
      && forall n | n in before && n !in after :: n in NamesOf(Elements(gone))
    }

    lemma {:induction false} NoPairs(files: set<string>, manifests: map<string, ManifestFile>)
      ensures PairsGone([], files, manifests.Keys) && OnlyWithout(manifests, manifests, [])
    {
    }

    lemma {:induction false} PairsStay(removed: seq<Stamp>, files: set<string>, manifests: set<string>,
                                       files': set<string>, manifests': set<string>)
      requires PairsGone(removed, files, manifests) && files' <= files && manifests' <= manifests
      ensures PairsGone(removed, files', manifests')
    {
    }

    lemma {:induction false} OneMorePair(removed: seq<Stamp>, gone: seq<Stamp>, x: Stamp, files: set<string>,
                                         first: map<string, ManifestFile>, manifests: map<string, ManifestFile>)
      requires PairsGone(removed, files, manifests.Keys) && OnlyWithout(first, manifests, gone)
      ensures PairsGone(removed + [x], files - {x.name}, (manifests - {x.name}).Keys)
      ensures OnlyWithout(first, manifests, gone + [x]) && OnlyWithout(first, manifests - {x.name}, gone + [x])
    {
      assert Elements(gone + [x]) == Elements(gone) + {x};
    }

    /** What is listed beyond the newest `keep`. */
    function Beyond(q: seq<Stamp>, keep: nat): seq<Stamp> {
      if |q| <= keep then [] else q[keep..]
    }

    /** Deletes the listed backups from position `keep` on, up to the first failure. */
    method DropFrom(q: seq<Stamp>, keep: nat) returns (removed: seq<Stamp>, ok: bool, ghost gone: seq<Stamp>)
      requires Inv() && Sorted(q) && keep <= |q| && Elements(q) <= Valid(files, manifests, deployment)
      modifies `files, `manifests, `killed, `failures
      ensures Inv() && (old(killed) ==> killed) && Keeps(files, old(files))
      ensures Left(old(files), old(manifests), files, manifests, deployment, gone)
      ensures removed <= gone <= q[keep..] && (ok <==> removed == q[keep..])
      ensures PairsGone(removed, files.Keys, manifests.Keys) && OnlyWithout(old(manifests), manifests, gone)
      ensures (reliable ==> ok) && old(failures) <= failures && (ok <==> failures == old(failures))
    {
      hide ParsePublished, Valid, PairsGone, OnlyWithout;
      NoPairs(files.Keys, manifests);
      removed, ok, gone := [], true, [];
      LeftAtFirst(files, manifests, deployment);
      for i := keep to |q|
        invariant Inv() && (old(killed) ==> killed) && Keeps(files, old(files))
        invariant removed == gone == q[keep..i] && gone <= q[keep..] && ok && failures == old(failures)
        invariant Left(old(files), old(manifests), files, manifests, deployment, gone)
        invariant PairsGone(removed, files.Keys, manifests.Keys) && OnlyWithout(old(manifests), manifests, gone)
      {
        NextInSlice(q, keep, i);
        LeftStep(old(files), old(manifests), files, manifests, deployment, gone, q[i]);
        ghost var went, left, notes := false, files, manifests;
        ok, went := Drop(q[i]);
        OneMorePair(removed, gone, q[i], left.Keys, old(manifests), notes);
        PairsStay(removed, left.Keys, notes.Keys, files.Keys, manifests.Keys);
        if went {
          gone := gone + [q[i]];
        }
        if !ok {
          return;
        }
        removed := removed + [q[i]];
      }
    }

    /**
     * The report of a retention run: it succeeds exactly when the directory was listed and everything listed beyond the
     * newest `keep` was removed; otherwise it reports the front part of that which it removed.
     */
    ghost predicate Reported(files: map<string, Bytes>, manifests: map<string, ManifestFile>, keep: int,
                             listed: Option<seq<Stamp>>, removed: seq<Stamp>, ok: bool)
    {
      && (listed.Some? ==> keep >= 1 && Sorted(listed.value)
                           && Elements(listed.value) <= Valid(files, manifests, deployment)
                           && removed <= Beyond(listed.value, keep))
      && (listed.None? ==> removed == [])
      && (ok <==> listed.Some? && removed == Beyond(listed.value, keep))
    }

    /**
     * Prune. In whatever state it stops, only valid backups beyond the newest `keep` are gone; when it completes and
     * could read everything, exactly the newest `keep` are left.
     */
    method Prune(keep: int) returns (removed: seq<Stamp>, ok: bool, ghost listed: Option<seq<Stamp>>)
      requires Inv()
      modifies `files, `manifests, `killed, `failures
      ensures Inv() && (old(killed) ==> killed)
      ensures Keeps(files, old(files))
      ensures keep < 1 ==> !ok && files == old(files) && manifests == old(manifests)
      ensures keep >= 1 ==> Pruned(old(files), old(manifests), files, manifests, deployment, keep)
      ensures (reliable ==> failures == old(failures)) && old(failures) <= failures
      ensures keep >= 1 && failures == old(failures) ==>
                ok && Valid(files, manifests, deployment) == Newest(Valid(old(files), old(manifests), deployment), keep)
      ensures ok ==>
                Elements(removed) == Valid(old(files), old(manifests), deployment) - Valid(files, manifests, deployment)
      ensures Reported(old(files), old(manifests), keep, listed, removed, ok)
      ensures failures == old(failures) && keep >= 1 ==>
                listed.Some? && Elements(listed.value) == Valid(old(files), old(manifests), deployment)
      ensures PairsGone(removed, files.Keys, manifests.Keys)
    {
      hide ParsePublished, Valid, PairsGone, OnlyWithout;
      removed, ok, listed := [], false, None;
      NoPairs(files.Keys, manifests);
      if keep < 1 {
        return;
      }
      var found := List();
      listed := found;
      ghost var before := Valid(files, manifests, deployment);
      NothingPruned(files, manifests, deployment, keep);
      if found.None? {
        return;
      }
      var q := found.value;
      CutIsNewest(q, keep);
      if |q| <= keep {
        assert q[..|q|] == q;
        return [], true, listed;
      }
      ghost var gone;
      removed, ok, gone := DropFrom(q, keep);
      BeyondIsBeyond(q, before, keep);
      LeftIsPruned(old(files), old(manifests), files, manifests, deployment, keep, gone, q[keep..]);
    }

    /**
     * RunBackup. Zero means the default, and a negative number is refused before anything happens. A run whose backup
     * failed deletes nothing. After a successful one the newest `keep` of the earlier backups and the new one are
     * valid, and when nothing fails they are all that is.
     */
    method RunBackup(bytes: Bytes, clock: Clock, ext: string, asked: int, mounted: bool)
      returns (published: Option<Stamp>, removed: seq<Stamp>, kept: nat, ok: bool, ghost listed: Option<seq<Stamp>>)
      requires Inv() && ValidClock(clock) && Extension(ext)
      modifies `files, `manifests, `partial, `killed, `failures, `exports
      ensures Inv() && (old(killed) ==> killed)
      ensures Finishes(old(exports), exports, old(files), bytes, clock, ext)
      ensures published.Some? ==> (published.value.name, bytes) in exports
      ensures published.None? ==> !ok && removed == [] && Keeps(old(files), files)
      ensures published.None? ==> Valid(old(files), old(manifests), deployment) <= Valid(files, manifests, deployment)
      ensures asked < 0 || !mounted ==>
                && published.None? && files == old(files) && manifests == old(manifests)
                && exports == old(exports) && partial == old(partial)
      ensures (reliable ==> failures == old(failures)) && old(failures) <= failures
      ensures failures == old(failures) && asked >= 0 ==> kept == |Valid(files, manifests, deployment)|
      ensures failures == old(failures) && asked >= 0 && mounted && published.None? ==>
                forall j: nat | j <= COLLISIONS :: PublishedName(Base(clock), j, ext) in old(files)
      ensures published.Some? ==>
                var keep, all := if asked == 0 then DEFAULT_KEEP else asked,
                                 Valid(old(files), old(manifests), deployment) + {published.value};
                && Newest(all, keep) <= Valid(files, manifests, deployment) <= all
                && (failures == old(failures) ==>
                      && ok && Valid(files, manifests, deployment) == Newest(all, keep)
                      && kept == |Newest(all, keep)|)
                && (ok <==> listed.Some? && removed == Beyond(listed.value, keep))
                && (listed.Some? ==> Sorted(listed.value) && Elements(listed.value) <= all
                                     && removed <= Beyond(listed.value, keep))
                && (listed.None? ==> removed == [])
                && (ok ==> Elements(removed) == all - Valid(files, manifests, deployment))
                && PairsGone(removed, files.Keys, manifests.Keys)
    {
      hide ParsePublished, Instant, Base, PublishedName, PairsGone, Newest, Finishes, Genuine, Extension, Sorted;
      published, removed, kept, ok, listed := None, [], 0, false, None;
      NothingFinished(exports, files, bytes, clock, ext);
      var keep := if asked == 0 then DEFAULT_KEEP else asked;
      if keep < 1 {
        return;
      }
      if mounted {
        published := Backup(bytes, clock, ext);
      }
      if published.None? {
        kept := CountValid();
        return;
      }
      removed, ok, listed := Prune(keep);
      kept := CountValid();
    }

    /** mustList: a list that cannot be read counts as empty. */
    method CountValid() returns (n: nat)
      requires Inv()
      modifies `killed, `failures
      ensures Inv() && (old(killed) ==> killed)
      ensures (reliable ==> failures == old(failures)) && old(failures) <= failures
      ensures failures == old(failures) ==> n == |Valid(files, manifests, deployment)|
    {
      var listed := List();
      if listed.None? {
        return 0;
      }
      SortedIsDistinct(listed.value);
      DistinctCount(listed.value);
      return |listed.value|;
    }

    /** The backup a run publishes survives its own retention when its clock reads later than every valid backup's. */
    lemma {:induction false} LatestSurvives(all: set<Stamp>, x: Stamp, keep: nat)
      requires keep >= 1 && x in all && forall y | y in all && y != x :: y.at < x.at
      ensures x in Newest(all, keep)
    {
      NewerIsTotalOrder(x, x, x);
      assert NewerThan(all, x) == {};
    }

    // --- runs ------------------------------------------------------------

    /**
     * Others who use the directory: any file can appear, change or go; a manifest that names this deployment is never
     * forged.
     */
    method Elsewhere()
      requires Inv()
      modifies `files, `manifests
      ensures Inv()
    {
      var theirs: map<string, Bytes>, notes: map<string, ManifestFile> := *, *;
      files := theirs;
      manifests := map n | n in notes
                           && ((n in manifests && notes[n] == manifests[n]) || notes[n].Unreadable?
                               || notes[n].manifest.deployment != deployment || notes[n].manifest.file != n) ::
                     notes[n];
    }

    /**
     * Any sequence of runs, crashes and changes by others: what verifies is always a finished export, and whatever was
     * finished is the whole export of one of the runs, under a name of that run.
     */
    method Lifetime(events: seq<Event>)
      requires Inv()
      modifies this
      ensures Inv() && old(exports) <= exports
      ensures forall n | Accepts(files, manifests, deployment, n) :: (n, files[n]) in exports
      ensures AllFinishedBy(exports - old(exports), events, |events|)
    {
      hide Finishes, FinishedBy, AllFinishedBy, Genuine;
      NoneFinished(exports, events);
      for i := 0 to |events|
        invariant Inv() && old(exports) <= exports
        invariant AllFinishedBy(exports - old(exports), events, i)
      {
        FinishedLater(exports - old(exports), events, i);
        match events[i] {
          case Run(bytes, clock, ext, keep, mounted) =>
            if ValidClock(clock) && Extension(ext) {
              ghost var before, beforeFiles := exports, files;
              var _, _, _, _, _ := RunBackup(bytes, clock, ext, keep, mounted);
              FinishedMore(old(exports), before, exports, beforeFiles, events, i);
            }
          case Others => Elsewhere();
          case Restart(calm) => killed, reliable := false, calm;
        }
      }
      forall n | Accepts(files, manifests, deployment, n)
        ensures (n, files[n]) in exports
      {
        AcceptedIsFinished(files, manifests, deployment, exports, n);
      }
    }
  }
}
