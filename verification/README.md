# guacdeploy: a verified model

A Dafny model of the parts of guacdeploy that must not lose, duplicate or mistake anything: registering the installer
application in Microsoft Entra, keeping backups and recordings on local disk and in a blob container, recovering a lost
deployment record, retiring a removed deployment, and three small text algorithms. `dafny verify dfyconfig.toml` checks
the whole project.

Every effect of the original that can fail or be cut short is a step that can fail here, and the process can be killed
at any of them. A killed process changes nothing any more, so what a method leaves when `killed` is set is what a crash
leaves. What failed is recorded by the steps themselves: the fields `log`, `faults` and `failures` hold what was asked and
heard, which object or listing a failure was about, and how many calls failed. So the contracts can say what a run
achieves for everything that did not fail, and not only what it never does. The fields named `steady` and `reliable` say
that nothing fails from now on. Conclusions of the form "a run that reports success" need none of this. A cancelled
remote run is one whose requests no longer get through, as after a kill.

| module | models |
|---|---|
| `Installer` | the journalled registration of the installer application against an eventually consistent directory |
| `Archiving` | moving a retired record and its recovery export into one archive directory |
| `Manifests`, `LocalStore` | publishing, verifying, listing and pruning backups in a local directory |
| `Ordering`, `Names` | the newest-first order of backups and the names that carry it |
| `Container`, `Sending`, `Retention` | the blob container and its requests, sending files to it, expiry by age and pruning by count |
| `Upload`, `UploadHistory` | one scheduled remote run, and any sequence of runs, crashes and changes by others |
| `CopyNames`, `Spooling`, `Recordings` | which recordings share copy names; scanning and deleting the oldest to fit a budget; copying completed recordings |
| `CopyHeader`, `CopyText`, `CopyLimits`, `CopyVerdicts` | finding the metadata table's COPY line in a dump, reading the deployment record out of its rows, when that runs past a row, and what any rows come to |
| `Recovery`, `RecoveryLaws`, `Classification` | reconciling a recovered record with the providers and restoring it; what becomes of each resource, and when recovery is refused |
| `Framing` | the header, body and hash line of a backup file |
| `Stream`, `Wildcard` | the line splitter and the action matcher |
| `Text`, `Numbers`, `Sorting` | what the others share |

## What the model assumes

- Entra: an explicit 4xx answer means the request had no effect; reads may omit objects but never invent them; the
  directory keeps one service principal for an application and one grant for a principal and role; applications that
  carry this deployment's marker are created by nobody else. One process runs at a time.
- Files: renames and exclusive creates are atomic; a save leaves the old or the new record. Others who share a backup
  destination may do anything to it between runs except write a manifest in this deployment's name.
- Container: an object is written whole or not at all; remote runs do not overlap; others do not touch objects that
  carry this deployment's marker and do not write manifests in its name. Time does not go back. The field `orderly` says
  that the service never repeats a continuation marker; where it may, a listing can end early, and only the conclusions
  about everything stored ask for `orderly`.
- SHA-256 is injective where backups are compared (`Digest`). The framing of a backup file assumes nothing of it except
  that its text is one line.
- Encryption and decryption, JSON decoding, Unicode case folding, the provider queries and the set of unfinished creation
  intents are parameters.

## Where the code and its documentation differ

- `internal/session/entra_automatic.go:119-120` says that resuming uses the same identity again. The search that looks
  for an identity adopts whatever service principal the application has (`internal/entra/installer.go:90-105`), but once
  it is recorded it is read back only with the marker (`internal/entra/installer.go:133`). So if a run dies after it
  created the application and another administrator adds a principal for it, the next run reports success and every
  later one stops, though nothing fails and nothing is pending: `Installer.StrangerExample`. By
  `Installer.Deployment.RegisterAndResume` and the last clauses of `EnsureInstaller`, a successful run in an up-to-date
  directory leaves a record the next run accepts exactly when no principal without the marker was there before it.
- `internal/entra/installer.go:150-153` says that a request without an acknowledged answer is never retried blindly. When
  a required role that comes earlier in the list is missing at the next run, its tag replaces the one that names the
  unanswered request (`internal/entra/installer.go:314-328`); the run then stops as unclear about that request, and the
  one after it makes it again. `Installer.AskedAgainExample` is such a case and `Installer.Deployment.RunAgain` says
  exactly when it happens. The directory keeps one grant for a principal and role, so nothing is granted twice.
- `internal/azure/prune.go:147-150` says that a run which cannot check an object, because the service refused the read
  or the connection failed, removes nothing. When the read of a completion manifest gets no answer at all, the error is
  not a service error, `internal/azure/prune.go:307-312` takes it for a manifest that does not decode, and the run goes
  on to prune. `Retention.LostReadingDoesNotWithhold` is such a run, `Retention.WithheldExactly` says exactly when a run
  withholds, and `Retention.DoomedIsBeyond` shows that even then nothing among the newest `keep` is removed.
- `internal/recover/recover.go:586-589` lets the identifier decide which live resource a recorded one is. If the
  recorded one was renamed at the provider and another marked resource took its name, the other one is left out of the
  restored record. `RecoveryLaws.ShadowingExample` is such a case and `RecoveryLaws.LiveIsRecordedUnlessShadowed` gives
  the exact condition.
- The same comment has the triple decide only where an identifier is missing, but `internal/recover/recover.go:598-602`
  falls back to it also when both sides have one and they differ. A recorded resource is then adopted with the identifier
  recorded for another one, so one live resource is recorded twice and the loss of the other is never pending:
  `RecoveryLaws.RecordedTwiceExample`. `RecoveryLaws.IdentifiersApartExactly` says when identifiers stay apart.
- `internal/recover/recover.go:225-226` counts the fields of a row against the number of different column names, and
  then looks them up by place in the list. A list with a repeated name can make the reader run past a row:
  `CopyLimits.CrashExample`. `CopyLimits.CrashesExactly` says for which dumps it does, and
  `CopyLimits.ListCanCrashExactly` for which lists of columns it can.
- `internal/backup/backup.go:513-516` reads the format number with a scanner that takes a leading zero for octal, so
  the headers `format=01` and `format=018` pass for format 1. `Framing.FormatOneExactly` says exactly which digits do, and
  `Framing.OctalFormatsPass` is a frame with each of the two that validates.
- `internal/recording/recording.go:366-372` and `internal/azure/upload.go:415-422` say that enumerating copy names cannot
  be confused. Two recordings share a copy name exactly when one's name is the other's followed by a copy number
  (`CopyNames.SharedExactlyWhenRelated`). At a run, a verified copy 1 of "x" makes the run report "x-1" as backed up
  though nothing was copied of it (`Recordings.MistakenForACopy`). Names of one length, as history identifiers have, are
  never related (`CopyNames.OneLengthApart`), and with no related name every confirmed recording has a copy of its own.
- `internal/azure/upload.go:119-122` calls a remote copy matching, but `internal/azure/upload.go:139-140` compares
  neither the manifests' version nor their publication time. `Upload.HeldAfterUpload` says what is held in any case, and
  `Upload.HeldIsUnion` says exactly when that is the union of both sides. `Upload.OtherDateIsNoTwin` is a copy that
  matches and is no twin.

## Model

| member | source | states |
|---|---|---|
| Installer.Recorded | internal/session/entra_automatic.go:94-105 | the identifier recorded last for a kind, and that none means no entry of that kind |
| Installer.Deployment.Save | internal/state/state.go:176-211 | the durable record is the old or the new one; success means the new one is durable and the process alive |
| Installer.Deployment.Note | internal/session/entra_automatic.go:70-88 | the in-memory half of the checkpoint is exactly the tag, the client and the identifiers not yet listed |
| Installer.Deployment.Checkpoint | internal/session/entra_automatic.go:70-90 | a checkpoint keeps the invariant in memory and on disk; success means the intent is durable |
| Installer.Deployment.NotedIsTied | internal/session/entra_automatic.go:70-90 | noting a true sighting under any tag whose condition holds keeps the journal tied to the history |
| Installer.Deployment.FindInstaller | internal/entra/installer.go:70-107 | a search may omit but what it shows is the application created here; up to date it shows exactly that one |
| Installer.Deployment.ReadApplication | internal/entra/installer.go:111-125 | a recorded identifier is read directly; a missing or wrong object is an error and never permission to create |
| Installer.Deployment.ReadPrincipal | internal/entra/installer.go:126-138 | whatever is found belongs to the application, carries the marker and was created here |
| Installer.Deployment.ReadRecorded | internal/entra/installer.go:111-146 | a recorded application is read directly, never searched for, and its principal too unless none is recorded; up to date the answer is exactly what is there, or none when something recorded is not |
| Installer.Deployment.Look | internal/entra/installer.go:159-168 | what a run sees first is true and agrees with the record; up to date it is exactly what exists |
| Installer.Deployment.PostApplication | internal/entra/entra.go:114-170 | a refusal has no effect, a lost answer may hide one, and the history only grows |
| Installer.Deployment.PostPrincipal | internal/entra/entra.go:114-170 | the same for the principal, which the directory keeps once for a client; a created one is the only one ever created |
| Installer.Deployment.CreatePrincipal | internal/entra/provision.go:788-821 | retrying repeats only requests refused for replication, as long as its patience lasts, so the created principal is the only one there ever was |
| Installer.Deployment.PostGrant | internal/entra/installer.go:320-326 | a grant is asked for only under its own durable tag, and is unique: a second request for it is a conflict and changes nothing |
| Installer.Deployment.GiveGrant | internal/entra/provision.go:788-805 | a grant request is repeated only for a new principal and only after a refusal for replication, as long as its patience lasts, and still has the effect of one |
| Installer.Deployment.WaitGrant | internal/entra/installer.go:334-359 | a conflict counts as success only when that very grant was read back, and it is looked for until patience ends |
| Installer.Deployment.EnsureApplication | internal/entra/installer.go:207-257 | the application is created only when none ever was, adopted only with this host's key, and up to date the phase passes exactly then |
| Installer.Deployment.EnsurePrincipal | internal/entra/installer.go:258-281 | the principal is created only when none ever was and is then the only one, and a pending request for it stops the run |
| Installer.Deployment.EnsureGrant | internal/entra/installer.go:311-329 | going on means that this grant existed, whatever the directory does; a request without an answer leaves its tag in memory and on disk and ends the run; the tag is cleared only after a grant or an explicit refusal |
| Installer.Deployment.GrantAll | internal/entra/installer.go:288-330 | going on means that every required grant existed; up to date every required role ends up granted, or the run stops exactly when the pending tag names a required grant that is missing, with its tag replaced exactly when an earlier one was missing too |
| Installer.Deployment.ChecksAreExact | internal/entra/installer.go:161-236 | the checks of an up-to-date run hold exactly when the recorded objects are intact and the object the tag names exists |
| Installer.Deployment.EnsureInstaller | internal/entra/installer.go:154-332 | success leaves a complete durable record for one application, principal and key; undisturbed it succeeds exactly when the record is intact and the pending object exists, with every grant present; with an intact record it otherwise stops as unclear, and with something recorded missing or unmarked it stops with an error and changes nothing; the record a successful one leaves is intact exactly when no unmarked principal was there before; an explicit refusal leaves no pending tag; success in any directory means every required grant existed; any failed read, save or request ends the run at once, and how it ends follows from the last thing heard: without an answer the tag stays, after a refusal it is cleared |
| Installer.Deployment.RebuildKnown | internal/session/entra_automatic.go:94-105 | the loop over the record finds the last identifier of each kind |
| Installer.Deployment.Register | internal/session/entra_automatic.go:93-124 | one registration from the record, with the same exact conditions, the final checkpoint, and what the durable record it leaves is worth to the next run; success means every required grant existed, and what was heard last decides how a run ends |
| Installer.Deployment.RegisterAndResume | internal/session/entra_automatic.go:93-124 | after a successful run in a directory that stays up to date, all later runs succeed if no unmarked principal was there before it, and otherwise all of them stop with an error |
| Installer.StrangerExample | internal/entra/installer.go:90-135 | a run died after creating the application and another administrator added a principal: the next run reports success and all later ones stop |
| Installer.Deployment.RunAgain | internal/entra/installer.go:304-330 | after a run that stopped as unclear about a grant, the next one stops too, unless a role earlier in the list was missing: then it makes the unanswered request again |
| Installer.AskedAgainExample | internal/entra/installer.go:304-330 | a request without an answer, and an earlier role taken away: one run stops as unclear, the next repeats the request |
| Installer.Deployment.Lifetime | internal/entra/installer.go:150-332 | over any sequence of runs, crashes, restarts, other saves and outside changes at most one application and at most one principal is ever created |
| Archiving.StateDir.Intend | internal/state/archive.go:15-29 | the archive directory is named in the durable record before anything moves, and a retry uses the same one |
| Archiving.StateDir.Archive | internal/state/archive.go:14-60 | wherever it stops, record and export each exist once; when it reports a directory both are in it; nothing moves into a directory that is not private any more |
| Archiving.StateDir.Retire | internal/state/archive.go:11-13 | over any number of cut-off attempts record and export end in one directory, and an undisturbed attempt always finishes |
| Archiving.ExportMoves | internal/state/archive.go:41-48 | moving the export first keeps it findable from the record |
| Archiving.RecordMoves | internal/state/archive.go:49-51 | moving the record last finds the export already there |
| LocalStore.ManifestIsNoBackup | internal/backup/backup.go:313-316 | the name of a manifest is never the name of a backup |
| LocalStore.AcceptedIsFinished | internal/backup/backup.go:416-428 | whatever is accepted holds the complete bytes of an export finished under that name |
| LocalStore.Directory.Link | internal/backup/backup.go:246-257 | a link claims a free name with the whole content or changes nothing |
| LocalStore.Directory.CopyReserved | internal/backup/backup.go:286-308 | the copy path touches only a name that was free, and success means the whole content is there; a single failure leaves nothing behind |
| LocalStore.Directory.Publish | internal/backup/backup.go:237-269 | no existing backup changes on either path; success takes the first free name of 101, whole; until then the export is kept; with links, or with a single failure, an unsuccessful publish changes no file; when nothing fails it is unsuccessful only with all 101 names taken |
| LocalStore.Directory.PublishManifest | internal/backup/backup.go:358-395 | success makes the backup verify; no other manifest changes |
| LocalStore.Directory.Backup | internal/backup/backup.go:112-211 | every earlier valid backup stays valid whatever happens; at most one export counts as finished, this run's bytes whole under a free name of its own; success adds exactly that valid backup |
| LocalStore.VerifyFile | internal/backup/backup.go:429-454 | the checks in order accept only what the manifest describes, and exactly that when every reading gets through |
| LocalStore.ListFiles | internal/schedule/run.go:112-137 | newest first, exactly the valid backups but those whose reading failed |
| LocalStore.Directory.Verify | internal/backup/backup.go:429-454 | it accepts only what the manifest describes, and all of it when nothing fails |
| LocalStore.Directory.List | internal/schedule/run.go:112-137 | newest first, only valid backups, and all of them when nothing fails |
| LocalStore.Directory.DropFrom | internal/schedule/run.go:157-169 | the backups removed are a front part of those beyond the cut; what is reported removed is gone with its manifest, no other manifest changes, and it succeeds exactly when all of them went |
| LocalStore.Directory.Prune | internal/schedule/run.go:146-171 | interrupted anywhere the newest keep stay valid and only valid backups beyond them go; undisturbed exactly the newest keep are left; it succeeds exactly when the directory was listed and all that was listed beyond the newest keep was removed, and reports just those |
| LocalStore.Directory.RunBackup | internal/schedule/run.go:463-507 | a keep of 0 means 7 and a negative one is refused before anything happens; undisturbed a backup is published unless every name is taken; a failed backup deletes nothing; after a successful one the newest keep of old and new are valid, and exactly those when nothing fails; only this run's export counts as finished; without the mount nothing happens; it succeeds exactly when its retention did, and reports just what that removed; when no call failed the number kept is right |
| LocalStore.Directory.LatestSurvives | internal/schedule/run.go:139-145 | a backup with the latest time survives its own retention |
| LocalStore.Directory.Lifetime | internal/backup/backup.go:345-357 | over any runs, crashes and changes by others, every accepted name holds a finished export, and every finished export is the whole export of one of those runs under a name of that run |
| LocalStore.OneMoreValid | internal/backup/backup.go:345-357 | a new name with its manifest adds exactly one valid backup |
| LocalStore.Dropped | internal/schedule/run.go:158-167 | removing a backup, with or without its manifest, takes away exactly that one |
| Ordering.NewerIsTotalOrder | internal/schedule/run.go:79-87 | newer is a strict total order on stamps |
| Ordering.SortedIsSorted | internal/schedule/run.go:131 | the sorted listing holds the same stamps, newest first |
| Ordering.PositionIsRank | internal/schedule/run.go:131-136 | a position in the listing is the number of newer backups |
| Ordering.CutIsNewest | internal/schedule/run.go:154-157 | cutting the listing after k keeps exactly those with fewer than k newer ones |
| Ordering.BeyondIsBeyond | internal/azure/prune.go:225-228 | what lies beyond the cut of a partial listing lies beyond the cut of the whole |
| Ordering.NewestCount | internal/schedule/run.go:139-145 | exactly k are kept, or all when there are fewer |
| Ordering.CutAgain | internal/azure/upload.go:280-291 | bringing cut ones back and cutting again changes nothing |
| Names.NameReadsBack | internal/schedule/run.go:49-69 | every published name parses back to its own time and number |
| Names.NoSlash | internal/schedule/run.go:49-69 | whatever parses as a backup's name is one path segment |
| Names.InstantIsInjective | internal/backup/backup.go:133-136 | two clock readings with the same order value are the same reading |
| Names.LaterIsNewer | internal/schedule/run.go:71-78 | the order read from the names is the order of publication, for suffixes of any size |
| Container.CompleteIsWhole | internal/azure/upload.go:51-66 | an object that verifies holds exactly the bytes whose digest its manifest records, also under a stale manifest |
| Container.VerdictExactly | internal/azure/prune.go:290-339 | an object is complete exactly when blob and manifest are this deployment's, the manifest is of version 1, names that file, its size, a digest the blob does not contradict, and a time; it is somebody else's exactly when blob or manifest says so |
| Container.ResidueIsInvisible | internal/azure/prune.go:139-145 | incomplete or foreign objects under other names change nothing about what is held |
| Container.Store.Put | internal/azure/blob.go:134-152 | an object is replaced whole or not at all, and nothing above the size limit is sent; anything else is a request that did not get through |
| Container.Store.Delete | internal/azure/blob.go:304-334 | only an object with this deployment's marker is ever deleted, and nothing else changes; a failure is a request that did not get through |
| Container.Store.ListAll | internal/azure/blob.go:226-241 | following the pages yields objects of the area, each once, and all of them unless the service repeats its marker; a repeated marker ends the listing early; no answer, or a last page allowed that is still continued, is its only failure |
| Container.Store.RemovePair | internal/azure/prune.go:234-250 | manifest first, then blob; cut anywhere the invariant holds and only this pair is touched |
| Retention.VerifiedBackup | internal/azure/prune.go:290-339 | the answer is the true verdict but for what the logged readings came to: a failed first reading or a refused manifest reading leaves the object unchecked, a manifest reading without an answer makes it incomplete |
| Retention.CountedTotal | internal/azure/prune.go:182-212 | every object ends in exactly one place of the count |
| Retention.CountedComplete | internal/azure/prune.go:198-211 | an object is counted exactly when its check said complete |
| Retention.CountedIsHeld | internal/azure/prune.go:121-128 | only held backups are counted, and all of them when everything was listed and read |
| Retention.WithheldExactly | internal/azure/prune.go:147-150 | a run withholds exactly when a first reading failed or a manifest reading was refused |
| Retention.LostReadingDoesNotWithhold | internal/azure/prune.go:307-312 | a manifest reading without any answer does not make a run withhold |
| Retention.DoomedIsBeyond | internal/azure/prune.go:225-228 | whatever was listed and read, only held backups beyond the newest keep are removed, and all of those when everything was |
| Retention.HeldWithout | internal/azure/prune.go:228-250 | removing parts of some backups takes at most those from what is held |
| Retention.CheckAll | internal/azure/prune.go:182-212 | every listed data object is checked once and counted as concluded |
| Retention.RemoveDoomed | internal/azure/prune.go:228-250 | one failure does not stop the rest; every doomed backup is accounted for, and without a failure blob and manifest of each are gone; only marked objects of doomed names go; a backup counts as failed only when a request about it did not get through |
| Retention.PruneBackups | internal/azure/prune.go:151-263 | whatever happens only this deployment's objects of held backups beyond the newest keep go; the four outcomes total the listed objects and say what happened to each; withheld removes nothing; with everything listed and read and no failure exactly those backups are gone and reported; a name in failed is incomplete or has a request that did not get through; a run that did not succeed had such a request or no listing |
| Retention.ResidueChangesNoRemoval | internal/azure/prune.go:139-145 | any number of incomplete or foreign objects beside the backups leave the removed backups, the reported names and the count the same, and stay themselves |
| Retention.ExpireNext | internal/azure/expire.go:123-169 | the age of one recording decides, strictly before the cutoff |
| Retention.Expire | internal/azure/expire.go:95-179 | only marked copies past the period go; with no failure exactly those of the listed; the four outcomes total the listed recordings, kept being exactly those not past the period; one counts as failed only when a request about it did not get through or it has no date |
| Sending.UploadPublished | internal/azure/upload.go:67-117 | cut anywhere the invariant holds and nothing is removed; reported done, the copy is complete; nothing unverified is sent; success means the bytes were read back; when nothing about the file failed it succeeds exactly when the file is whole and fits |
| Sending.RemoteComplete | internal/azure/upload.go:126-157 | the answer is whether manifest, length and digest match the local file; when nothing about the file failed there is no answer only for one that is not whole or whose manifest there does not decode |
| Sending.RemoteExactly | internal/azure/upload.go:126-157 | for a copy of ours, matching means that its manifest has the local one's deployment, file, size and digest and its blob the local file's bytes |
| Sending.SendOne | internal/azure/upload.go:451-468 | one file is skipped, sent or left; when nothing about it failed, skipped exactly when a matching copy was there and sent exactly when not, if it is whole and fits; all earlier outcomes stand, and a cancelled run stops early |
| Sending.UploadAll | internal/azure/upload.go:449-475 | unless cancelled every file is attempted and in one place of the report; what is reported sent or there is complete whatever became of the rest; only names sent or failed are touched; every name without a fault of its own is reported as already there exactly when a matching copy was there before, and as sent exactly when not, if it is whole and fits |
| Upload.HeldAfterUpload | internal/azure/upload.go:119-157 | however the uploads went, under every name that did not fail what is held is what was held, with the copies sent in place of what was there |
| Upload.HeldIsUnion | internal/azure/upload.go:119-157 | what is held then is the union of both sides exactly when every copy found there carries the local manifest |
| Upload.OtherDateIsNoTwin | internal/azure/upload.go:139-140 | a copy with another publication time is skipped as matching, and what is held is not the union |
| Upload.BackupNames | internal/azure/upload.go:327-330 | the names sent are those of the valid local backups that could be read, each once; only a file whose reading failed is left out |
| Upload.UnionIsUnion | internal/azure/upload.go:280-291 | with nothing else held under the local names it is the plain union |
| Upload.RepeatChangesNothing | internal/azure/upload.go:280-291 | uploading some of the same files again after the cut and cutting again leaves the same set |
| Upload.CompleteRecordings | internal/azure/upload.go:485-508 | exactly the whole readable copies are split into those to send and those past the period; an unknown age never holds one back; only a file whose reading failed is left out |
| Upload.DueExactly | internal/azure/upload.go:497-505 | a readable whole copy is due exactly when there is no period, its time is unknown, or it was published within the period, and past otherwise |
| Upload.SendBoth | internal/azure/upload.go:326-343 | both areas are sent and nothing is removed; only due recordings are tried; when no upload fails every local backup and every due recording is there; every file without a fault of its own is where it belongs by what was there before; a run that cannot list the local backups sends nothing; when nothing fails exactly the local backups and the due recordings are reported |
| Upload.Forget | internal/azure/upload.go:356-363 | expiry removes only recordings of ours past the period, what it removed is exactly what was ours and is no more, and a complete one leaves none overdue |
| Upload.Upload | internal/azure/upload.go:312-378 | a failed upload removes nothing; otherwise every local backup and every due recording is there and only backups beyond the newest keep of old and sent can be missing; with everything listed and read exactly the newest keep are held; its passage through the recordings area is what it tried, sent and removed there; every file without a fault of its own is skipped exactly when a matching copy was there before; when nothing fails, and the service dates its recordings, it succeeds exactly when everything was sent and the count is not negative |
| Upload.Twice | internal/azure/upload.go:280-378 | a second run with the same files leaves the backups held that the first alone left; when nothing fails the second run sends exactly what the first had removed, and finds the rest |
| UploadHistory.Lifetime | internal/azure/upload.go:280-378 | over any runs, each with its own files, period and count, crashes and foreign changes the completion contract holds, and no run even tries a recording that an earlier run expired, unless its period is longer or its local copy no longer says when it was published |
| UploadHistory.CopiesAge | internal/azure/expire.go:87-92 | as long as local copies carry one publication time, the remote copy is no older than that |
| UploadHistory.RemovedIsOld | internal/azure/expire.go:106-146 | what a run expires was published before the period of that run |
| UploadHistory.ExpiredIsNotSent | internal/azure/upload.go:497-505 | a recording that expired is not tried by any later run with a period no longer |
| UploadHistory.ExpiredStaysAway | internal/azure/upload.go:333-343 | a recording that expired stays away for as long as no later run has a longer period |
| CopyNames.SharedExactlyWhenRelated | internal/recording/recording.go:363-391 | two recordings share a copy name exactly when one's name is the other's followed by a copy number, or they are the same |
| CopyNames.OneLengthApart | internal/recording/recording.go:363-391 | recordings with names of one length never share the name of a copy |
| CopyNames.SharingExample | internal/recording/recording.go:363-391 | "x" and "x-1" share a copy name |
| Spooling.SortOldestSorts | internal/recording/recording.go:346-351 | the scan lists the same recordings, oldest first |
| Spooling.ShownExactly | internal/recording/recording.go:318-345 | a scan shows every file whose name begins with no dot, with its size and time, active when its identity is unknown or a process holds it open |
| Spooling.Spool.Scan | internal/recording/recording.go:318-353 | nothing is scanned when open files cannot be told; otherwise every visible file still there is listed, oldest first, and completed only when its file is known and nobody holds it open; it fails only when open files cannot be told or the directory cannot be read |
| Spooling.CutIsShortest | internal/recording/cleanup.go:46-73 | the cut is the shortest oldest-first run that fits the budget, or everything |
| Spooling.Spool.CleanUp | internal/recording/cleanup.go:46-73 | usage after plus deleted sizes is usage before; only completed recordings go; lost is exactly the deleted without a copy; undisturbed exactly the cut is deleted; the first removal that fails ends it, and it succeeds exactly when none did |
| Recordings.PublishedCopy | internal/recording/recording.go:377-391 | what is found is a copy name of that recording and verifies; when nothing fails it is what the search finds, and nothing when the search finds nothing |
| Recordings.SearchFinds | internal/recording/recording.go:377-391 | the search finds a number exactly when the names up to it are listed and it is the first of them that verifies |
| Recordings.NumberedCopyIsMistaken | internal/recording/recording.go:363-391 | a verified numbered copy is found as copy 0 of the recording whose name it spells |
| Recordings.Publish | internal/recording/recording.go:405-454 | nothing is overwritten and what verified still does; success takes the first free of 101 names and leaves a verified copy of what the recording holds now; a failure adds at most that one finished copy; when no call fails a failure changes no file, and for a recording still there all 101 names were taken |
| Recordings.BackUpOne | internal/recording/backup.go:170-186 | a recording reported as backed up has a verified copy, a newly copied one a copy of what it holds now; undisturbed it is reported as backed up exactly when the search finds a copy, and left uncopied only when every name is taken |
| Recordings.MistakenForACopy | internal/recording/recording.go:363-391 | with a verified copy i of one recording there, the one whose name is that one's with "-i" is reported as backed up though nothing was ever copied of it |
| Recordings.BackUp | internal/recording/backup.go:141-195 | every confirmed recording has a verified copy, and every included one a copy of what it holds now; all that is added is copies of completed recordings; success means all completed ones are confirmed; when nothing fails every completed recording is in one place of the report, one with a copy that the search finds is not copied again, and one that failed and is still there had all 101 names taken |
| Recordings.AcceptedIsSomeCopy | internal/recording/recording.go:363-391 | what verifies under a recording's copy name was copied of it, or of a recording with a related name |
| Recordings.VerifiedIsItsCopy | internal/recording/recording.go:363-391 | with no related name among the recordings a verified copy is a recording's own |
| Recordings.Run | internal/recording/backup.go:93-127 | only completed recordings are deleted; a deleted one not reported lost has a verified copy, its own unless names are related; the sizes balance; undisturbed exactly the shortest oldest-first run that fits the budget is deleted, or everything completed; undisturbed, a lost recording had all its copy names taken, and the run succeeds exactly when no copy failed |
| CopyText.Unescape | internal/recover/recover.go:265-294 | the loop decodes a field as the specification function does |
| CopyText.UnescapeInvertsEscape | internal/recover/recover.go:265-294 | unescaping undoes escaping for every string, and an escaped field holds no tab or line end |
| CopyText.LineReadsBack | internal/recover/recover.go:224-247 | a written row splits back into its fields |
| CopyText.BlockLines | internal/recover/recover.go:217-223 | a written block splits back into its rows |
| CopyText.ExtractSnapshot | internal/recover/recover.go:201-262 | it computes the reading of the whole dump: the first header of the table, its columns, the rows with all skips, and the checks |
| CopyText.ReadRows | internal/recover/recover.go:216-262 | the loop over the rows computes their reading |
| CopyLimits.CrashesExactly | internal/recover/recover.go:201-247 | reading a dump runs past a row exactly when it has a header with the three columns and a row, reached without an unreadable record, lacks a field that is looked up |
| CopyLimits.ListCanCrashExactly | internal/recover/recover.go:206-247 | some rows make that happen exactly when the list places one of the three columns at or beyond the number of different names |
| CopyLimits.ScanStaysInRange | internal/recover/recover.go:217-247 | with all three placed before that number no rows do |
| CopyLimits.DistinctIsInRange | internal/recover/recover.go:206-209 | a list that names every column once places them so |
| CopyLimits.RepeatCanCrash | internal/recover/recover.go:206-247 | a list that repeats a name and ends with the state column does not, and some dump with it makes the reader run past a row |
| CopyLimits.CrashExample | internal/recover/recover.go:206-247 | such a dump exists for the columns id, id, schema_version, state |
| CopyHeader.ParseIsExact | internal/recover/recover.go:196 | the reader takes exactly the lines the expression describes, and in one way only |
| CopyHeader.FirstIsFirst | internal/recover/recover.go:201-205 | what is found begins a line and is a header, and none begins earlier; nothing found means there is none |
| CopyHeader.Find | internal/recover/recover.go:201-205 | the search over the dump finds that one |
| CopyHeader.ColumnsReadBack | internal/recover/recover.go:206-209 | a list of columns as written reads back as those columns |
| CopyText.DumpHeaderReadsBack | internal/recover/recover.go:193-209 | the header as pg_dump spells it is one, with those columns |
| CopyText.BestIsHighest | internal/recover/recover.go:232-242 | the row kept is one with the highest id |
| CopyText.ExtractReadsWhatWasWritten | internal/recover/recover.go:201-247 | over a dump with well-formed rows in any order, whatever stands before the header and whatever the fields hold, the record with the highest id is returned, and refused exactly when its schema or the row's is newer than 1 or it names no deployment |
| CopyText.NothingWasWritten | internal/recover/recover.go:244-247 | a table without rows has no record |
| CopyVerdicts.ScanExactly | internal/recover/recover.go:216-243 | over any lines, reading fails exactly at a row with a higher id than all before it whose record does not decode, and otherwise takes the last row with a higher id than all before it |
| CopyVerdicts.VerdictExactly | internal/recover/recover.go:216-262 | over any lines: no record exactly when no row with an id from 0 on counts; a record exactly when none that topped the rows before it failed to decode and the first with the highest id is of a supported schema and names its deployment; that one is returned |
| CopyVerdicts.ReadingExactly | internal/recover/recover.go:201-262 | over any dump: no header means no record, a missing column is incompatible, and otherwise the rows after the first header decide |
| Recovery.State.EnsureResource | internal/state/state.go:215-225 | a resource is appended unless its provider, type and name are there |
| Recovery.State.Pending | internal/state/state.go:87-104 | exactly the latest attempts that are unresolved, one for an intent, in order of the first attempt at each |
| Recovery.State.Collect | internal/state/state.go:88-95 | the first loop keeps the latest attempt at each intent and the order of the intents |
| Recovery.Match | internal/recover/recover.go:590-604 | a match shares the identifier or the triple; no match means neither occurs |
| Recovery.AskEach | internal/recover/recover.go:448-475 | every provider the record or an unfinished phase mentions is asked, once |
| Recovery.Reconcile | internal/recover/recover.go:435-524 | the report is one classification for each recorded resource and one item for each unrecorded live one, with the tunnel's record retargeted; an unfinished intent is answered exactly when its provider answered |
| Recovery.Restore | internal/recover/recover.go:872-948 | it refuses exactly when an item is for review or an intent is unanswered, and otherwise builds the record and the journal and carries over identity, setting changes and configuration with the two entries about the recovery |
| Classification.RecordedExactly | internal/recover/recover.go:539-584 | a recorded resource is created again exactly when its provider answered and holds nothing, marked or not, that shares its identifier or its provider, type and name; adopted exactly when something marked does; for review exactly when its provider did not answer, or only something unmarked does |
| Classification.AdoptedIdentifier | internal/recover/recover.go:560-567 | an adopted one gets the identifier of a marked resource that could be it, its own when that is still there |
| Classification.FoundExactly | internal/recover/recover.go:477-503 | the rest of the report is exactly what the providers hold that no recorded resource could be: adopted with the marker, for review without |
| Classification.RepointedExactly | internal/recover/recover.go:509-521 | a DNS record is re-pointed exactly when it is adopted and a recorded tunnel is gone |
| Classification.RefusedExactly | internal/recover/recover.go:735-759 | recovery is refused exactly when nothing can be decided about a recorded resource, something unmarked and unrecorded is in the way, or the provider of an unfinished intent did not answer |
| Classification.SilenceRefuses | internal/recover/recover.go:547-555 | one recorded cloud resource whose provider did not answer is enough to refuse |
| Classification.RestoredExactly | internal/recover/recover.go:894-921 | the restored entry of a recorded resource has its provider, type and name, and no identifier, its own, or that of the marked resource found, by its disposition |
| RecoveryLaws.OneEntryPerItem | internal/recover/recover.go:872-920 | record entries correspond one to one with report items and no two share a triple |
| RecoveryLaws.IdentifiersApartExactly | internal/recover/recover.go:586-604 | no identifier is recorded twice exactly when no two recorded resources share one that stays and none matches, by its triple, a live one whose identifier is recorded for another |
| RecoveryLaws.RecordedTwiceExample | internal/recover/recover.go:586-604 | a live resource that took another recorded one's name is recorded twice, and nothing is pending |
| RecoveryLaws.RecreatedHasNoTwin | internal/recover/recover.go:539-604 | nothing to be recreated matches a live resource by identifier or triple |
| RecoveryLaws.AdoptedIsMarked | internal/recover/recover.go:536-584 | only what a provider shows under the marker is adopted, never a matching name alone |
| RecoveryLaws.LiveIsRecordedUnlessShadowed | internal/recover/recover.go:432-524 | a marked live resource is in the restored record under its identifier exactly when it is not shadowed, and is never created twice |
| RecoveryLaws.ShadowingExample | internal/recover/recover.go:586-604 | a renamed resource whose old name another one took shadows that one |
| RecoveryLaws.PendingIsRecreation | internal/recover/recover.go:872-948 | the pending work of the new record is exactly what must be recreated |
| RecoveryLaws.OneIntentPerItem | internal/recover/recover.go:911-917 | pending intents and items to recreate correspond one to one when labels tell items apart |
| RecoveryLaws.PendingCount | internal/recover/recover.go:911-917 | there are as many pending intents as different intents to recreate, no two alike |
| Framing.ParseIsInverse | internal/backup/backup.go:478 | the header expression accepts exactly the rendered headers and returns their fields |
| Framing.FormatOneExactly | internal/backup/backup.go:513-516 | digits pass for format 1 exactly when they are 1 or a zero-led run the scanner reads as octal one |
| Framing.OctalFormatsPass | internal/backup/backup.go:513-516 | framed texts with formats 01 and 018 validate |
| Framing.FrameIsAccepted | internal/backup/backup.go:178-182 | the text a backup writes validates and is returned unchanged |
| Framing.AcceptedIsFrame | internal/backup/backup.go:492-535 | whatever validates is header, body and hash line of that very body |
| Framing.AcceptsExactlyFrames | internal/backup/backup.go:492-535 | validation accepts exactly the framed texts with a supported header |
| Framing.ValidatesExactly | internal/backup/backup.go:492-535 | a file, encrypted or not, is accepted exactly when it holds, or the key opens it to, a framed text with a supported header, and that text is returned |
| Framing.PrefixIsRefused | internal/backup/backup.go:486-535 | every strict prefix of a framed text is refused when no dump line begins like the marker |
| Stream.OneByte | internal/stack/stream.go:49-60 | what one byte does to the finished lines and to the unfinished one |
| Stream.SegmentsAreExact | internal/stack/stream.go:37-70 | segments hold no break byte, and with the break bytes between them they are the stream |
| Stream.EventWriter.Write | internal/stack/stream.go:44-62 | a write keeps lines, unfinished line and kept output those of everything written |
| Stream.EventWriter.Retain | internal/stack/stream.go:45-48 | the kept output is the first MiB |
| Stream.EventWriter.Flush | internal/stack/stream.go:63-70 | a flush emits the unfinished line |
| Stream.Run | internal/stack/stream.go:37-70 | however a stream is cut into writes, the lines and the kept output are those of the whole stream |
| Wildcard.GreedyStep | internal/azure/check.go:261-268 | taking the leftmost place of a part loses no match |
| Wildcard.NoPlace | internal/azure/check.go:261-268 | a part that occurs nowhere means no match |
| Wildcard.MatchAction | internal/azure/check.go:254-272 | true exactly when the action fits the pattern, both folded, with each star standing for any run |
| Wildcard.MatchesAction | internal/azure/check.go:241-248 | true exactly when some pattern fits |
| Wildcard.Permits | internal/azure/check.go:220-236 | allowed exactly when one role grants the action and does not itself exclude it |

## Left out

- HTTP, OAuth, JSON, XML, TPM, age and the device-code flow: only their outcomes appear.
- The polling times of the directory: a deadline is a number of attempts, any number.
- `collectionUsing` and the page address check of the directory listings: a read yields the whole list or fails.
- The reading of role names from the tenant: the required roles are given, and resolving them may fail.
- `CleanupInstaller` and teardown of the installer application: they end the deployment whose history is counted.
- `entra.Plan`, `entra.Apply` and the Cloudflare phases: they create again after an empty search, on consistent reads.
- Installer.Deployment.PostGrant: the journal invariant says nothing about grants, because a later grant's tag replaces an earlier one's (`RunAgain`); a request may be repeated and the directory's unique key makes that harmless.
- Installer.Deployment.FindInstaller: an application of the same name without the marker, or several, is one of its failures.
- Archiving.StateDir.Archive: a second call in one process after a failed save would skip the save; the command makes one call for a process, so each attempt starts from the record on disk.
- LocalStore.Directory.Backup: the snapshot row, the export and the encryption are one step that yields the bytes; leftover partial files are not listed.
- LocalStore.Directory.RunBackup: whether the destination is mounted is given; the status file is not modelled.
- LocalStore.Directory.Link: a file system either makes links or does not, so the error of one file with too many links is left out.
- Container.Base: names are kept apart as area, name and manifest or not, so a data object whose own name ends like a manifest does not occur.
- Container.Store.Delete: the state in which another run deletes between an upload's two writes is excluded, because the command takes no lock.
- The cross-check of local losses against remote copies, and the status reports and summaries.
- Spooling.Spool.Scan: reading the open descriptors of all processes yields a set or an error; subdirectories do not appear.
- Upload.Upload: the local directories do not change while a run reads them, though any reading can fail; a missing deployment, destination or directory name is an error before anything happens.
- Restoring a recording, enabling recording in the database, unit files, the wizard, menus and summaries.
- Name validators, size parsing and retry delays: facts about single functions.
