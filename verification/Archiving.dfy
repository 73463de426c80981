/**
 * Retiring a removed deployment: internal/state/archive.go. The record and the encrypted recovery export move into one
 * archive directory, in several system calls, any of which can fail or be the last one of the process. Every attempt
 * starts from the record on disk, as `guacdeploy teardown` does.
 */
module Archiving {
  import opened Text

  /** An archive directory; identifiers are issued in increasing order. */
  type Name = nat

  /** Where the record or the recovery export is: None is the state directory itself. */
  datatype Path = RecordAt(dir: Option<Name>) | RecoveryAt(dir: Option<Name>)

  /** The record, with the archive directory it names, or the recovery export. */
  datatype Content = Saved(intent: Option<Name>) | Export(id: nat)

  ghost predicate OneRecord(files: map<Path, Content>) {
    && (forall p, q | p in files && q in files && p.RecordAt? && q.RecordAt? :: p == q)
    && exists p :: p in files && p.RecordAt? && files[p].Saved?
  }

  /** The export, if there ever was one, is in exactly one place and unchanged. */
  ghost predicate OneExport(files: map<Path, Content>, backup: Option<nat>) {
    && (forall p, q | p in files && q in files && p.RecoveryAt? && q.RecoveryAt? :: p == q)
    && (forall p | p in files && p.RecoveryAt? :: backup.Some? && files[p] == Export(backup.value))
    && (backup.Some? ==> exists p :: p in files && p.RecoveryAt?)
  }

  /** An export that has moved is where the record says, or where the record is. */
  ghost predicate Together(files: map<Path, Content>) {
    && (forall d | RecoveryAt(Some(d)) in files ::
          RecordAt(Some(d)) in files || (RecordAt(None) in files && files[RecordAt(None)] == Saved(Some(d))))
    && (forall d | RecordAt(Some(d)) in files :: RecoveryAt(None) !in files)
  }

  class StateDir {
    var files: map<Path, Content>
    var dirs: set<Name>
    var next: Name
    var killed: bool
    var reliable: bool
    ghost const backup: Option<nat>

    constructor (backup: Option<nat>)
      ensures Valid() && !killed && this.backup == backup && RecordAt(None) in files
    {
      this.backup := backup;
      var exported := if backup.Some? then map[RecoveryAt(None) := Export(backup.value)] else map[];
      files := exported[RecordAt(None) := Saved(None)];
      dirs, next, killed, reliable := {}, 0, false, false;
      new;
      assert RecordAt(None) in files && files[RecordAt(None)] == Saved(None);
      assert backup.Some? ==> RecoveryAt(None) in files;
    }

    ghost predicate Valid()
      reads this
    {
      && OneRecord(files) && OneExport(files, backup) && Together(files)
      && (forall d | d in dirs :: d < next) && (reliable ==> !killed)
      && (RecordAt(None) in files && files[RecordAt(None)].Saved? && files[RecordAt(None)].intent.Some? ==>
            files[RecordAt(None)].intent.value in dirs)
    }

    /** One system call: it fails without effect, and the process may die instead of making it. */
    method Try() returns (ok: bool)
      requires Valid()
      modifies `killed
      ensures Valid() && (ok ==> !killed) && (reliable ==> ok)
    {
      var dies: bool, works: bool := *, *;
      killed := killed || (dies && !reliable);
      ok := !killed && (works || reliable);
    }

    /** Save replaces the record at once. */
    method Save(intent: Name) returns (ok: bool)
      requires Valid() && files.Keys >= {RecordAt(None)} && files[RecordAt(None)] == Saved(None) && intent in dirs
      modifies `files, `killed
      ensures Valid() && (reliable ==> ok)
      ensures files == if ok then old(files)[RecordAt(None) := Saved(Some(intent))] else old(files)
    {
      ok := Try();
      if ok {
        Intended(files, backup, intent);
        files := files[RecordAt(None) := Saved(Some(intent))];
      }
    }

    /** MkdirTemp: a directory of a name that never was. */
    method MakeDir() returns (made: Option<Name>)
      requires Valid()
      modifies `dirs, `next, `killed
      ensures Valid() && old(dirs) <= dirs && (reliable ==> made.Some?)
      ensures made.Some? ==> made.value in dirs && made.value !in old(dirs)
    {
      var ok := Try();
      if !ok {
        return None;
      }
      made := Some(next);
      dirs, next := dirs + {next}, next + 1;
    }

    /** Renames the recovery export into the directory. */
    method MoveExport(name: Name) returns (ok: bool)
      requires Valid() && RecordAt(None) in files && files[RecordAt(None)] == Saved(Some(name))
      requires RecoveryAt(None) in files
      modifies `files, `killed
      ensures Valid() && (reliable ==> ok)
      ensures files == if ok then
                         (old(files) - {RecoveryAt(None)})[RecoveryAt(Some(name)) := old(files)[RecoveryAt(None)]]
                       else old(files)
    {
      hide OneRecord, OneExport, Together;
      ok := Try();
      if ok {
        ExportMoves(files, backup, name);
        files := (files - {RecoveryAt(None)})[RecoveryAt(Some(name)) := files[RecoveryAt(None)]];
      }
    }

    /** Renames the record into the directory. */
    method MoveRecord(name: Name) returns (ok: bool)
      requires Valid() && RecordAt(None) in files && files[RecordAt(None)] == Saved(Some(name))
      requires RecoveryAt(None) !in files
      modifies `files, `killed
      ensures Valid() && (reliable ==> ok)
      ensures files == if ok then
                         (old(files) - {RecordAt(None)})[RecordAt(Some(name)) := old(files)[RecordAt(None)]]
                       else old(files)
      ensures ok && backup.Some? ==> RecoveryAt(Some(name)) in files
    {
      hide OneRecord, OneExport, Together;
      ok := Try();
      if ok {
        RecordMoves(files, backup, name);
        files := (files - {RecordAt(None)})[RecordAt(Some(name)) := files[RecordAt(None)]];
      }
    }

    /**
     * The directory the record names; without one, a new directory is made and named in the record before anything
     * moves.
     */
    method Intend() returns (name: Option<Name>)
      requires Valid() && RecordAt(None) in files
      modifies `files, `dirs, `next, `killed
      ensures Valid() && RecordAt(None) in files
      ensures name.Some? ==> files[RecordAt(None)] == Saved(name) && name.value in dirs
      ensures files[RecordAt(None)] == old(files)[RecordAt(None)]
              || (old(files)[RecordAt(None)] == Saved(None) && files[RecordAt(None)] == Saved(name))
      ensures files.Keys == old(files).Keys
      ensures old(files)[RecordAt(None)].intent.Some? ==>
                name == old(files)[RecordAt(None)].intent && dirs == old(dirs) && files == old(files)
      ensures reliable ==> name.Some?
    {
      hide OneExport, Together;
      name := files[RecordAt(None)].intent;
      if name.Some? {
        return;
      }
      name := MakeDir();
      if name.None? {
        return;
      }
      var saved := Save(name.value);
      if !saved {
        name := None;
      }
    }

    /**
     * Archive. Wherever it stops, the record and the export each exist once; when it reports a directory, both are
     * in it, and it is the one the record named if it named one. Nothing moves into one that is not private any more.
     */
    method Archive(isPrivate: bool) returns (archive: Option<Name>)
      requires Valid() && RecordAt(None) in files
      modifies `files, `dirs, `next, `killed
      ensures Valid()
      ensures archive.Some? ==>
                && RecordAt(archive) in files && archive.value in dirs
                && (backup.Some? ==> RecoveryAt(archive) in files)
                && old(files)[RecordAt(None)] in {Saved(None), Saved(archive)}
      ensures reliable && isPrivate ==> archive.Some?
      ensures archive.None? ==> RecordAt(None) in files
      ensures !isPrivate ==> archive.None? && files.Keys == old(files).Keys
    {
      hide OneRecord, OneExport, Together;
      var name := Intend();
      if name.None? {
        return None;
      }
      if !isPrivate {
        return None;
      }
      if RecoveryAt(None) in files {
        var moved := MoveExport(name.value);
        if !moved {
          return None;
        }
      }
      var ok := MoveRecord(name.value);
      return if ok then name else None;
    }

    /** Any number of attempts, each in a new process: once one succeeds, record and export lie in one directory. */
    method Retire(attempts: nat, calm: seq<bool>) returns (archive: Option<Name>)
      requires Valid() && RecordAt(None) in files && |calm| == attempts
      modifies this
      ensures Valid()
      ensures archive.Some? ==> RecordAt(archive) in files && (backup.Some? ==> RecoveryAt(archive) in files)
      ensures archive.None? ==> RecordAt(None) in files && true !in calm
    {
      archive := None;
      for i := 0 to attempts
        invariant Valid() && RecordAt(None) in files && archive.None? && true !in calm[..i]
      {
        killed, reliable := false, calm[i];
        var isPrivate: bool := *;
        archive := Archive(isPrivate || calm[i]);
        if archive.Some? {
          return;
        }
        TakeStep(calm, i);
      }
      assert calm[..attempts] == calm;
    }
  }

  lemma {:induction false} Intended(files: map<Path, Content>, backup: Option<nat>, intent: Name)
    requires OneRecord(files) && OneExport(files, backup) && Together(files)
    requires RecordAt(None) in files && files[RecordAt(None)] == Saved(None)
    ensures var after := files[RecordAt(None) := Saved(Some(intent))];
            OneRecord(after) && OneExport(after, backup) && Together(after)
  {
    var after := files[RecordAt(None) := Saved(Some(intent))];
    assert RecordAt(None) in after && after[RecordAt(None)].Saved?;
    assert forall p: Path | p.RecoveryAt? :: p in after <==> p in files;
  }

  lemma {:induction false} ExportMoves(files: map<Path, Content>, backup: Option<nat>, name: Name)
    requires OneRecord(files) && OneExport(files, backup) && Together(files)
    requires RecordAt(None) in files && files[RecordAt(None)] == Saved(Some(name)) && RecoveryAt(None) in files
    ensures var after := (files - {RecoveryAt(None)})[RecoveryAt(Some(name)) := files[RecoveryAt(None)]];
            OneRecord(after) && OneExport(after, backup) && Together(after)
  {
    var after := (files - {RecoveryAt(None)})[RecoveryAt(Some(name)) := files[RecoveryAt(None)]];
    assert RecordAt(None) in after && after[RecordAt(None)].Saved?;
    assert RecoveryAt(Some(name)) in after;
    assert forall p: Path | p.RecordAt? :: p in after <==> p in files;
  }

  lemma {:induction false} RecordMoves(files: map<Path, Content>, backup: Option<nat>, name: Name)
    requires OneRecord(files) && OneExport(files, backup) && Together(files)
    requires RecordAt(None) in files && files[RecordAt(None)] == Saved(Some(name)) && RecoveryAt(None) !in files
    ensures var after := (files - {RecordAt(None)})[RecordAt(Some(name)) := files[RecordAt(None)]];
            OneRecord(after) && OneExport(after, backup) && Together(after)
            && (backup.Some? ==> RecoveryAt(Some(name)) in after)
  {
    var after := (files - {RecordAt(None)})[RecordAt(Some(name)) := files[RecordAt(None)]];
    assert RecordAt(Some(name)) in after && after[RecordAt(Some(name))].Saved?;
    assert forall p: Path | p.RecoveryAt? :: p in after <==> p in files;
    forall d | RecoveryAt(Some(d)) in after
      ensures d == name
    {
      assert RecordAt(Some(d)) !in files;
    }
    if backup.Some? {
      var p :| p in files && p.RecoveryAt?;
      assert p.dir.Some? && RecordAt(p.dir) !in files;
    }
  }
}
