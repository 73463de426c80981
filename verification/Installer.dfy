/**
 * Registering the installer application: internal/entra/installer.go with the journal of
 * internal/session/entra_automatic.go, the save of internal/state/state.go and the retry of
 * internal/entra/provision.go.
 *
 * The directory is adversarial. Replies can be lost with or without the effect, reads can omit what exists, other
 * administrators delete and add objects, a save can fail having written or not, and the process can be killed: a
 * killed process changes nothing any more. `steady` says that none of this happens from now on.
 */
module Installer {
  import opened Text

  type Id = nat
  type Role = nat

  datatype Tag = NoTag | Application | ServicePrincipal | Permission(role: Role)

  datatype Kind = AppKind | PrincipalKind

  datatype Entry = Entry(kind: Kind, id: Id)

  /** The part of the deployment record the registration uses. */
  datatype Journal = Journal(pending: Tag, client: Option<Id>, entries: seq<Entry>)

  /** The identifiers a run works with; None is the empty string of the source. */
  datatype Known = Known(id: Option<Id>, client: Option<Id>, principal: Option<Id>)

  const UNKNOWN := Known(None, None, None)

  datatype App = App(client: Id, key: Id)
  datatype MadeApp = MadeApp(id: Id, app: App)
  datatype Principal = Principal(id: Id, marked: bool)

  datatype Reading<+T> = Unread | Nothing | Seen(value: T)
  /** Refused is an explicit 4xx answer; `retry` marks the ones that blame replication. Lost is every other failure. */
  datatype Reply = Created(id: Id, client: Id) | Refused(retry: bool) | Lost
  datatype GrantReply = Granted | Conflict | GrantRefused(retry: bool) | GrantLost
  /** What the directory answered to a request. */
  function AnswerTo(r: Reply): Answer {
    match r
    case Created(_, _) => Done
    case Refused(retry) => Denied(retry)
    case Lost => Silent
  }

  function AnswerToGrant(r: GrantReply): Answer {
    match r
    case Granted => Done
    case Conflict => Already
    case GrantRefused(retry) => Denied(retry)
    case GrantLost => Silent
  }

  datatype Sought = Confirmed | ReadRefused | NotReadable | NoAnswer

  /** Rejected is an explicit 4xx answer to a request, after its tag was cleared. */
  datatype Why = Unclear | NeedsReview | Rejected | Error
  datatype Step = Go(app: Known) | Halt(why: Why)
  /** A run in the current process; a new process; a save by another phase; other administrators; the weather. */
  datatype Event = Run(key: Id, required: seq<Role>) | Restart | Flush | Elsewhere | Weather(settles: bool)

  function FailedBy(s: Step): Option<Why> {
    if s.Halt? then Some(s.why) else None
  }

  function FailedRun(r: Outcome): Option<Why> {
    if r.Stopped? then Some(r.why) else None
  }

  datatype Outcome = Registered(app: Known) | Stopped(why: Why)

  /** The identifier recorded last for one kind, as the loop that rebuilds `known` leaves it. */
  function Recorded(entries: seq<Entry>, kind: Kind): (id: Option<Id>)
    ensures id.Some? ==> Entry(kind, id.value) in entries
    ensures id.None? ==> forall e | e in entries :: e.kind != kind
  {
    if entries == [] then None
    else
      var last := entries[|entries| - 1];
      if last.kind == kind then Some(last.id) else Recorded(entries[..|entries| - 1], kind)
  }

  function KnownOf(j: Journal): Known {
    Known(Recorded(j.entries, AppKind), j.client, Recorded(j.entries, PrincipalKind))
  }

  /** What `record` does: an identifier already there is not recorded again. */
  function WithEntry(entries: seq<Entry>, kind: Kind, id: Option<Id>): seq<Entry> {
    if id.None? || Entry(kind, id.value) in entries then entries else entries + [Entry(kind, id.value)]
  }

  /** The journal after `checkpoint(pending, app)`. */
  function Noted(j: Journal, pending: Tag, app: Known): Journal {
    Journal(pending, if app.client.Some? then app.client else j.client,
            WithEntry(WithEntry(j.entries, AppKind, app.id), PrincipalKind, app.principal))
  }

  /** What is recorded after an identifier is noted that does not contradict the record. */
  lemma {:induction false} NotingRecords(entries: seq<Entry>, kind: Kind, id: Option<Id>)
    requires Recorded(entries, kind) in {None, id}
    ensures Recorded(WithEntry(entries, kind, id), kind) == (if id.Some? then id else Recorded(entries, kind))
    ensures forall k | k != kind :: Recorded(WithEntry(entries, kind, id), k) == Recorded(entries, k)
    ensures forall e | e in WithEntry(entries, kind, id) :: e in entries || (id.Some? && e == Entry(kind, id.value))
  {
    if id.Some? && Entry(kind, id.value) !in entries {
      assert (entries + [Entry(kind, id.value)])[..|entries|] == entries;
    }
  }

  /**
   * How far the permission phase has come in a steady directory: `done` is granted, and nothing the tag names was
   * missing.
   */
  ghost predicate Granting(was: set<(Id, Role)>, now: set<(Id, Role)>, principal: Id, done: seq<Role>, pending: Tag) {
    && was <= now && (forall role | role in done :: (principal, role) in now)
    && (pending.Permission? && pending.role in done ==> (principal, pending.role) in was)
  }

  /** One of these roles had not been granted. */
  ghost predicate Gap(was: set<(Id, Role)>, roles: seq<Role>, principal: Id) {
    exists role :: role in roles && (principal, role) !in was
  }

  lemma {:induction false} GrantingStep(was: set<(Id, Role)>, before: set<(Id, Role)>, now: set<(Id, Role)>,
                                        principal: Id, done: seq<Role>, role: Role, pending: Tag)
    requires Granting(was, before, principal, done, pending)
    requires before <= now && (principal, role) in now
    requires pending == Permission(role) ==> (principal, role) in was
    ensures Granting(was, now, principal, done + [role], pending)
  {
  }

  /** What a journal, in memory or on disk, says about everything ever created. */
  ghost predicate TiedTo(j: Journal, madeApps: seq<MadeApp>, madePrincipals: seq<Id>, clientOf: map<Id, Id>) {
    var app, principal := Recorded(j.entries, AppKind), Recorded(j.entries, PrincipalKind);
    // no tag and no identifier: nothing was created
    && (app.None? && j.pending != Application ==> madeApps == [])
    && (principal.None? && j.pending != ServicePrincipal ==> madePrincipals == [])
    // what is recorded is what was created
    && (app.Some? ==> |madeApps| == 1 && app.value == madeApps[0].id && j.client == Some(madeApps[0].app.client))
    && (j.client.Some? ==> app.Some?)
    && (forall e | e in j.entries && e.kind == AppKind :: app == Some(e.id))
    && (principal.Some? ==> app.Some? && principal.value in clientOf)
    && (principal.Some? ==> clientOf[principal.value] == madeApps[0].app.client)
    // a later tag means the earlier identifiers are recorded
    && (madePrincipals != [] ==> app.Some?)
    && (j.pending == Application ==> app.None?)
    && (j.pending == ServicePrincipal ==> app.Some? && principal.None?)
    && (j.pending.Permission? ==> app.Some? && principal.Some?)
  }

  // --- what a run hears --------------------------------------------------

  /**
   * What came of a request. A refusal that blames replication asks for it again. Silent: nothing came, or the run was
   * cancelled while it waited to repeat one.
   */
  datatype Answer = Done | Already | Denied(again: bool) | Silent
  /** A request under its tag; a read that failed or did not show what it should; a record that was not saved. */
  datatype Heard = Asked(tag: Tag, answer: Answer) | Unheard | Unsaved

  predicate Passed(h: Heard) {
    h.Asked? && (h.answer.Done? || h.answer.Already?)
  }

  /** A refused request is repeated, and nothing else that failed is followed by anything but one save. */
  predicate MayFollow(h: Heard, next: Heard) {
    || Passed(h)
    || (h.Asked? && h.answer == Denied(true) && next.Asked? && next.tag == h.tag)
    || (next.Unsaved? && (h.Unheard? || (h.Asked? && h.answer.Denied?)))
  }

  ghost predicate Chained(heard: seq<Heard>) {
    forall k | 0 < k < |heard| :: MayFollow(heard[k - 1], heard[k])
  }

  predicate Fine(heard: seq<Heard>) {
    heard == [] || Passed(heard[|heard| - 1])
  }

  /**
   * How a run, or a part of one, ends after what it heard. Any failure ends it at once. Without an answer the tag is
   * kept, in memory and on disk; after a refusal it is cleared, unless that cannot be saved.
   */
  ghost predicate Told(heard: seq<Heard>, failed: Option<Why>, mem: Tag, disk: Tag) {
    && Chained(heard)
    && if Fine(heard) then failed in {None, Some(Unclear), Some(NeedsReview)}
       else
         match heard[|heard| - 1]
         case Unsaved => failed == Some(Error)
         case Unheard => failed == Some(Error) || (failed == Some(Rejected) && mem == disk == NoTag)
         case Asked(tag, answer) =>
           if answer == Silent then failed == Some(Error) && mem == disk == tag
           else failed == Some(Rejected) && mem == disk == NoTag
  }

  /** The part of the log after `before` tells how a run ends. */
  ghost predicate Went(before: seq<Heard>, after: seq<Heard>, failed: Option<Why>, mem: Tag, disk: Tag) {
    before <= after && Told(after[|before|..], failed, mem, disk)
  }

  lemma {:induction false} WentOn(a: seq<Heard>, b: seq<Heard>, c: seq<Heard>, m: Tag, d: Tag, failed: Option<Why>,
                                  mem: Tag, disk: Tag)
    requires Went(a, b, None, m, d) && Went(b, c, failed, mem, disk)
    ensures Went(a, c, failed, mem, disk)
  {
    assert c[|a|..] == b[|a|..] + c[|b|..];
    assert Fine(b[|a|..]);
  }

  /** A read or a save failed, and that was all. */
  lemma {:induction false} WentWrong(before: seq<Heard>, h: Heard, mem: Tag, disk: Tag)
    requires h.Unheard? || h.Unsaved?
    ensures Went(before, before + [h], Some(Error), mem, disk)
  {
    assert (before + [h])[|before|..] == [h];
  }

  lemma {:induction false} WentNowhere(before: seq<Heard>, failed: Option<Why>, mem: Tag, disk: Tag)
    requires failed in {None, Some(Unclear), Some(NeedsReview)}
    ensures Went(before, before, failed, mem, disk)
  {
  }

  /** One request under this tag, repeated while it was refused. */
  ghost predicate Repeated(before: seq<Heard>, after: seq<Heard>, tag: Tag, last: Answer) {
    && |before| < |after| && before <= after && after[|after| - 1] == Asked(tag, last)
    && forall k | |before| <= k < |after| - 1 :: after[k] == Asked(tag, Denied(true))
  }

  /** What asking for a grant leaves to be done. */
  ghost predicate SoughtSo(before: seq<Heard>, after: seq<Heard>, tag: Tag, s: Sought) {
    match s
    case Confirmed => Went(before, after, None, tag, tag)
    case NotReadable => Went(before, after, Some(Unclear), tag, tag)
    case NoAnswer => Went(before, after, Some(Error), tag, tag)
    case ReadRefused =>
      && Went(before, after, Some(Rejected), NoTag, NoTag)
      && forall d :: Went(before, after + [Unsaved], Some(Error), NoTag, d)
  }

  lemma {:induction false} AskedOnce(before: seq<Heard>, tag: Tag, last: Answer)
    ensures Repeated(before, before + [Asked(tag, last)], tag, last)
  {
  }

  lemma {:induction false} RepeatedOnce(before: seq<Heard>, after: seq<Heard>, tag: Tag, last: Answer)
    requires Repeated(before, after, tag, Denied(true))
    ensures Repeated(before, after + [Asked(tag, last)], tag, last)
  {
  }

  /** How a request that was repeated ends a run, and with a failing save after its refusal. */
  lemma {:induction false} RepeatedWent(before: seq<Heard>, after: seq<Heard>, tag: Tag, last: Answer)
    requires Repeated(before, after, tag, last)
    ensures last.Done? || last.Already? ==> forall m, d :: Went(before, after, None, m, d)
    ensures last.Already? ==> forall m, d :: Went(before, after, Some(Unclear), m, d)
    ensures last.Silent? ==> Went(before, after, Some(Error), tag, tag)
    ensures last.Denied? ==> Went(before, after, Some(Rejected), NoTag, NoTag)
    ensures last.Denied? ==> forall m, d :: Went(before, after + [Unsaved], Some(Error), m, d)
    ensures last.Already? ==> forall m, d :: Went(before, after + [Unheard], Some(Error), m, d)
    ensures last.Already? ==> Went(before, after + [Unheard], Some(Rejected), NoTag, NoTag)
    ensures last.Already? ==> forall m, d :: Went(before, after + [Unheard] + [Unsaved], Some(Error), m, d)
  {
    var heard := after[|before|..];
    assert (after + [Unsaved])[|before|..] == heard + [Unsaved];
    assert (after + [Unheard])[|before|..] == heard + [Unheard];
    assert (after + [Unheard] + [Unsaved])[|before|..] == heard + [Unheard] + [Unsaved];
  }

  /**
   * The directory shows only marked objects that were created here, applications and principals alike, and every
   * principal under its own client.
   */
  ghost predicate Shows(apps: map<Id, App>, principals: map<Id, Principal>, madeApps: seq<MadeApp>,
                        madePrincipals: seq<Id>, clientOf: map<Id, Id>, next: Id) {
    && (forall s | s in clientOf :: s < next && clientOf[s] < next)
    && (forall m | m in madeApps :: m.id < next && m.app.client < next)
    && (forall a | a in apps :: MadeApp(a, apps[a]) in madeApps)
    && (forall c | c in principals :: principals[c].id in clientOf && clientOf[principals[c].id] == c)
    && (forall c | c in principals && principals[c].marked :: principals[c].id in madePrincipals)
  }

  /** A later table of issued identifiers says the same of the earlier ones. */
  ghost predicate Extends(before: map<Id, Id>, after: map<Id, Id>) {
    forall s | s in before :: s in after && after[s] == before[s]
  }

  lemma {:induction false} TiedLater(j: Journal, madeApps: seq<MadeApp>, madePrincipals: seq<Id>, before: map<Id, Id>,
                                     after: map<Id, Id>)
    requires TiedTo(j, madeApps, madePrincipals, before) && Extends(before, after)
    ensures TiedTo(j, madeApps, madePrincipals, after)
  {
  }

  /** While its tag says that the principal was asked for, a journal may have nothing recorded of it. */
  lemma {:induction false} TiedWithPrincipal(j: Journal, madeApps: seq<MadeApp>, madePrincipals: seq<Id>,
                                             before: map<Id, Id>, after: map<Id, Id>, more: seq<Id>)
    requires TiedTo(j, madeApps, madePrincipals, before) && Extends(before, after) && j.pending == ServicePrincipal
    ensures TiedTo(j, madeApps, more, after)
  {
  }

  lemma {:induction false} TiedWithApp(j: Journal, madePrincipals: seq<Id>, clientOf: map<Id, Id>, made: MadeApp)
    requires TiedTo(j, [], madePrincipals, clientOf) && j.pending == Application
    ensures TiedTo(j, [made], madePrincipals, clientOf)
  {
  }

  /** With no application recorded and none asked for, nothing was created. */
  lemma {:induction false} NothingMade(j: Journal, madeApps: seq<MadeApp>, madePrincipals: seq<Id>,
                                       clientOf: map<Id, Id>)
    requires TiedTo(j, madeApps, madePrincipals, clientOf) && Recorded(j.entries, AppKind).None?
    ensures Recorded(j.entries, PrincipalKind).None? && madePrincipals == []
    ensures j.pending != Application ==> madeApps == []
  {
  }

  /** Until the application is recorded, the tag that asks for it may be set, and cleared if it was not created. */
  lemma {:induction false} TiedAsking(j: Journal, madeApps: seq<MadeApp>, madePrincipals: seq<Id>,
                                      clientOf: map<Id, Id>, tag: Tag)
    requires TiedTo(j, madeApps, madePrincipals, clientOf) && Recorded(j.entries, AppKind).None?
    requires tag == Application || (tag == NoTag && madeApps == [])
    ensures Noted(j, tag, UNKNOWN) == j.(pending := tag)
    ensures TiedTo(j.(pending := tag), madeApps, madePrincipals, clientOf)
  {
  }

  lemma {:induction false} ShowsFewer(apps: map<Id, App>, principals: map<Id, Principal>, madeApps: seq<MadeApp>,
                                      madePrincipals: seq<Id>, clientOf: map<Id, Id>, next: Id, gone: set<Id>,
                                      lost: set<Id>)
    requires Shows(apps, principals, madeApps, madePrincipals, clientOf, next)
    ensures Shows(apps - gone, principals - lost, madeApps, madePrincipals, clientOf, next)
  {
  }

  lemma {:induction false} ShowsWithPrincipal(apps: map<Id, App>, principals: map<Id, Principal>,
                                              madeApps: seq<MadeApp>, madePrincipals: seq<Id>, clientOf: map<Id, Id>,
                                              next: Id, client: Id, marked: bool)
    requires Shows(apps, principals, madeApps, madePrincipals, clientOf, next) && client < next
    requires marked ==> next in madePrincipals
    ensures next !in clientOf && Extends(clientOf, clientOf[next := client])
    ensures Shows(apps, principals[client := Principal(next, marked)], madeApps, madePrincipals,
                  clientOf[next := client], next + 1)
  {
  }

  lemma {:induction false} ShowsLater(apps: map<Id, App>, principals: map<Id, Principal>, madeApps: seq<MadeApp>,
                                      madePrincipals: seq<Id>, clientOf: map<Id, Id>, next: Id, id: Id)
    requires Shows(apps, principals, madeApps, madePrincipals, clientOf, next)
    ensures Shows(apps, principals, madeApps, madePrincipals + [id], clientOf, next)
  {
  }

  lemma {:induction false} ShowsWithApp(apps: map<Id, App>, principals: map<Id, Principal>, madePrincipals: seq<Id>,
                                        clientOf: map<Id, Id>, next: Id, key: Id)
    requires Shows(apps, principals, [], madePrincipals, clientOf, next)
    ensures apps == map[] && next + 1 !in principals
    ensures Shows(map[next := App(next + 1, key)], principals, [MadeApp(next, App(next + 1, key))], madePrincipals,
                  clientOf, next + 2)
  {
    assert forall c | c in principals :: c < next;
    if a :| a in apps {
      assert MadeApp(a, apps[a]) in [];
    }
  }

  class Deployment {
    // the durable record, and the copy the running process works on
    var disk: Journal
    var mem: Journal
    var killed: bool

    // the directory
    var apps: map<Id, App>                  // applications that carry this deployment's marker
    var principals: map<Id, Principal>      // by client: the directory keeps one for each
    var grants: set<(Id, Role)>

    var next: Id                            // identifiers are issued in increasing order
    var clientOf: map<Id, Id>               // every principal identifier ever issued, and its client

    // everything this deployment ever created, in order
    ghost var madeApps: seq<MadeApp>
    ghost var madePrincipals: seq<Id>
    ghost var ever: set<(Id, Role)>         // every grant the directory ever had
    ghost var log: seq<Heard>               // what was asked and what came of it, in order

    var steady: bool

    constructor ()
      ensures Inv() && !killed
      ensures madeApps == [] && madePrincipals == [] && disk == mem == Journal(NoTag, None, [])
    {
      disk, mem, killed := Journal(NoTag, None, []), Journal(NoTag, None, []), false;
      apps, principals, grants := map[], map[], {};
      madeApps, madePrincipals, clientOf, next := [], [], map[], 0;
      ever, log, steady := {}, [], false;
    }

    /** A process that has asked for the application, saved that it would, and started again without an answer. */
    constructor Interrupted(key: Id)
      ensures Inv() && !killed && disk == mem == Journal(Application, None, [])
      ensures apps == map[0 := App(1, key)] && madeApps == [MadeApp(0, App(1, key))] && madePrincipals == []
      ensures principals == map[] && next == 2
    {
      disk, mem, killed := Journal(Application, None, []), Journal(Application, None, []), false;
      apps, principals, grants := map[0 := App(1, key)], map[], {};
      madeApps, madePrincipals, clientOf, next := [MadeApp(0, App(1, key))], [], map[], 2;
      ever, log, steady := {}, [], false;
    }

    /** Everything is recorded, and a request for this role got no answer; nothing is granted. */
    constructor Unanswered(key: Id, role: Role)
      ensures Inv() && !killed
      ensures disk == mem == Journal(Permission(role), Some(1), [Entry(AppKind, 0), Entry(PrincipalKind, 2)])
      ensures apps == map[0 := App(1, key)] && principals == map[1 := Principal(2, true)] && grants == {}
      ensures clientOf == map[2 := 1]
    {
      mem := Journal(Permission(role), Some(1), [Entry(AppKind, 0), Entry(PrincipalKind, 2)]);
      disk, killed := Journal(Permission(role), Some(1), [Entry(AppKind, 0), Entry(PrincipalKind, 2)]), false;
      apps, principals, grants := map[0 := App(1, key)], map[1 := Principal(2, true)], {};
      madeApps, madePrincipals, clientOf, next := [MadeApp(0, App(1, key))], [2], map[2 := 1], 3;
      ever, log, steady := {}, [], false;
    }

    // --- the invariant ---------------------------------------------------

    ghost predicate Tied(j: Journal)
      reads `madeApps, `madePrincipals, `clientOf
    {
      TiedTo(j, madeApps, madePrincipals, clientOf)
    }

    ghost predicate Honest()
      reads `apps, `principals, `madeApps, `madePrincipals, `clientOf, `next
    {
      Shows(apps, principals, madeApps, madePrincipals, clientOf, next)
    }

    ghost predicate Inv()
      reads `disk, `mem, `killed, `steady, `apps, `principals, `grants, `ever, `next, `clientOf, `madeApps,
            `madePrincipals
    {
      && |madeApps| <= 1 && |madePrincipals| <= 1
      && Honest() && Tied(mem) && Tied(disk) && grants <= ever
      && (steady ==> !killed)
    }

    /** Nothing is pending, and the durable record says so. */
    predicate Settled()
      reads `disk, `mem, `killed
    {
      disk == mem && mem.pending == NoTag && !killed
    }

    // --- durable state ---------------------------------------------------

    /** Save writes a temporary file and renames it: the record is the old one or the new one. */
    method Save() returns (ok: bool)
      requires Inv()
      modifies `disk, `killed, `log
      ensures disk == mem || disk == old(disk)
      ensures ok ==> disk == mem && !killed && !old(killed)
      ensures old(killed) ==> killed && disk == old(disk)
      ensures steady ==> ok
      ensures Inv() && log == old(log) + if ok then [] else [Unsaved]
    {
      var written: bool, acknowledged: bool, dies: bool := *, *, *;
      if killed {
        log := log + [Unsaved];
        return false;
      }
      if written || steady {
        disk := mem;
      }
      killed := dies && !steady;
      ok := (written && acknowledged && !killed) || steady;
      log := log + if ok then [] else [Unsaved];
    }

    /** The in-memory half of checkpoint. */
    method Note(pending: Tag, app: Known)
      modifies `mem
      ensures mem == Noted(old(mem), pending, app)
    {
      mem := mem.(pending := pending);
      if app.client.Some? {
        mem := mem.(client := app.client);
      }
      if app.id.Some? && Entry(AppKind, app.id.value) !in mem.entries {
        mem := mem.(entries := mem.entries + [Entry(AppKind, app.id.value)]);
      }
      if app.principal.Some? && Entry(PrincipalKind, app.principal.value) !in mem.entries {
        mem := mem.(entries := mem.entries + [Entry(PrincipalKind, app.principal.value)]);
      }
    }

    method Checkpoint(pending: Tag, app: Known) returns (ok: bool)
      requires Inv() && Tied(Noted(mem, pending, app))
      modifies `mem, `disk, `killed, `log
      ensures Inv() && mem == Noted(old(mem), pending, app) && log == old(log) + if ok then [] else [Unsaved]
      ensures disk == mem || disk == old(disk)
      ensures ok ==> disk == mem && !killed && !old(killed)
      ensures old(killed) ==> killed && disk == old(disk)
      ensures steady ==> ok
    {
      Note(pending, app);
      ok := Save();
    }

    /** A journal agrees with what a run has seen. */
    ghost predicate Agrees(j: Journal, app: Known) {
      Recorded(j.entries, AppKind) in {None, app.id} && Recorded(j.entries, PrincipalKind) in {None, app.principal}
    }

    /** Noting a true sighting keeps the journal tied, whatever the tag, as long as the tag's own condition holds. */
    lemma {:induction false} NotedIsTied(j: Journal, tag: Tag, app: Known)
      requires Tied(j) && Agrees(j, app) && Sighted(app)
      requires tag != Application
      requires tag == NoTag ==> app.principal.Some? || madePrincipals == []
      requires tag == ServicePrincipal ==> app.principal.None?
      requires tag.Permission? ==> app.principal.Some?
      ensures Tied(Noted(j, tag, app)) && KnownOf(Noted(j, tag, app)) == app
    {
      NotingRecords(j.entries, AppKind, app.id);
      NotingRecords(WithEntry(j.entries, AppKind, app.id), PrincipalKind, app.principal);
    }

    /** A checkpoint of what a run has seen. */
    method Mark(tag: Tag, app: Known) returns (ok: bool)
      requires Inv() && Agrees(mem, app) && Sighted(app)
      requires tag != Application
      requires tag == NoTag ==> app.principal.Some? || madePrincipals == []
      requires tag == ServicePrincipal ==> app.principal.None?
      requires tag.Permission? ==> app.principal.Some?
      modifies `mem, `disk, `killed, `log
      ensures Inv() && mem.pending == tag && KnownOf(mem) == app
      ensures log == old(log) + if ok then [] else [Unsaved]
      ensures ok ==> disk == mem && !killed && !old(killed)
      ensures old(killed) ==> killed && disk == old(disk)
      ensures steady ==> ok
    {
      NotedIsTied(mem, tag, app);
      ok := Checkpoint(tag, app);
    }

    // --- the directory ---------------------------------------------------

    /** What every read of the directory keeps. */
    twostate predicate Calm()
      reads this
    {
      && Inv() && next >= old(next)
      && Extends(old(clientOf), clientOf) && old(ever) <= ever
      && (steady ==> apps == old(apps) && principals == old(principals))
      && (steady ==> grants == old(grants) && clientOf == old(clientOf))
    }

    /** A new principal under a fresh identifier; one that carries the marker was created here. */
    method Issue(client: Id, marked: bool) returns (id: Id)
      requires Honest() && client < next && (marked ==> next in madePrincipals)
      modifies `principals, `clientOf, `next
      ensures Honest() && id == old(next) && next == id + 1
      ensures id !in old(clientOf) && Extends(old(clientOf), clientOf)
      ensures principals == old(principals)[client := Principal(id, marked)] && clientOf == old(clientOf)[id := client]
    {
      hide Shows;
      ShowsWithPrincipal(apps, principals, madeApps, madePrincipals, clientOf, next, client, marked);
      id := next;
      principals := principals[client := Principal(id, marked)];
      clientOf := clientOf[id := client];
      next := next + 1;
    }

    /** Other administrators: delete anything, add principals for any client, grant and revoke. */
    method Outside()
      requires Inv()
      modifies `apps, `principals, `grants, `ever, `clientOf, `next
      ensures Calm()
    {
      hide Shows, TiedTo;
      if steady {
        return;
      }
      var gone: set<Id>, lost: set<Id>, kept: set<(Id, Role)>, client: Id, add: bool := *, *, *, *, *;
      ShowsFewer(apps, principals, madeApps, madePrincipals, clientOf, next, gone, lost);
      apps := apps - gone;
      principals := principals - lost;
      grants, ever := kept, ever + kept;
      if add && client < next && client !in principals {
        Stranger(client);
      }
    }

    /** Another administrator adds a principal without the marker. */
    method Stranger(client: Id)
      requires Inv() && client < next && client !in principals
      modifies `principals, `clientOf, `next
      ensures Inv() && Extends(old(clientOf), clientOf) && next > old(next)
      ensures client in principals && !principals[client].marked
    {
      hide Shows, TiedTo;
      var _ := Issue(client, false);
      TiedLater(mem, madeApps, madePrincipals, old(clientOf), clientOf);
      TiedLater(disk, madeApps, madePrincipals, old(clientOf), clientOf);
    }

    /** FindInstaller: a search can omit what exists and never invents. */
    method FindInstaller() returns (r: Reading<Known>)
      requires Inv()
      modifies `apps, `principals, `grants, `ever, `clientOf, `next, `log
      ensures Calm() && log == old(log) + if r.Unread? then [Unheard] else []
      ensures r.Seen? ==> Sighted(r.value)
      ensures steady ==> r == if apps == map[] then Nothing else Seen(Sight(madeApps[0]))
    {
      Outside();
      var fails: bool, shown: bool, spShown: bool := *, *, *;
      if !steady && fails {
        log := log + [Unheard];
        return Unread;
      }
      if apps == map[] || (!steady && !shown) {
        return Nothing;
      }
      var a :| a in apps;
      assert MadeApp(a, apps[a]) == madeApps[0];
      var client := apps[a].client;
      return Seen(Known(Some(a), Some(client), if steady || spShown then PrincipalFor(client) else None));
    }

    function PrincipalFor(client: Id): Option<Id>
      reads `principals
    {
      if client in principals then Some(principals[client].id) else None
    }

    /** Everything an up-to-date search shows of the one application. */
    ghost function Sight(m: MadeApp): Known
      reads `principals
    {
      Known(Some(m.id), Some(m.app.client), PrincipalFor(m.app.client))
    }

    /** A sighting is true: the application was created here, and its principal belongs to it. */
    ghost predicate Sighted(k: Known)
      reads `madeApps, `clientOf
    {
      && |madeApps| == 1 && k.id == Some(madeApps[0].id) && k.client == Some(madeApps[0].app.client)
      && (k.principal.Some? ==> k.principal.value in clientOf && clientOf[k.principal.value] == madeApps[0].app.client)
    }

    /** The direct read of one recorded application: a missing or wrong one is an error, never "not found". */
    method ReadApplication(id: Id, client: Option<Id>) returns (app: Option<App>)
      requires Inv()
      modifies `apps, `principals, `grants, `ever, `clientOf, `next, `log
      ensures Calm() && log == old(log) + if app.None? then [Unheard] else []
      ensures app.Some? ==> madeApps == [MadeApp(id, app.value)] && client in {None, Some(app.value.client)}
      ensures steady ==> app == if id in apps && client in {None, Some(apps[id].client)} then Some(apps[id]) else None
    {
      Outside();
      var fails: bool := *;
      if (!steady && fails) || id !in apps || client !in {None, Some(apps[id].client)} {
        log := log + [Unheard];
        return None;
      }
      assert MadeApp(id, apps[id]) == madeApps[0];
      return Some(apps[id]);
    }

    /** The direct read of one recorded service principal: it must belong to the application and carry the marker. */
    method ReadPrincipal(id: Id, client: Id) returns (found: bool)
      requires Inv()
      modifies `apps, `principals, `grants, `ever, `clientOf, `next, `log
      ensures Calm() && log == old(log) + if found then [] else [Unheard]
      ensures found ==> client in principals && principals[client] == Principal(id, true)
      ensures found ==> id in clientOf && clientOf[id] == client && id in madePrincipals
      ensures steady ==> (found <==> client in principals && principals[client] == Principal(id, true))
    {
      Outside();
      var fails: bool := *;
      found := (steady || !fails) && client in principals && principals[client] == Principal(id, true);
      log := log + if found then [] else [Unheard];
    }

    method ReadGrants(principal: Id) returns (roles: Option<set<Role>>)
      requires Inv()
      modifies `apps, `principals, `grants, `ever, `clientOf, `next, `log
      ensures Calm() && log == old(log) + if roles.None? then [Unheard] else []
      ensures roles.Some? ==> forall r | r in roles.value :: (principal, r) in grants
      ensures steady ==> roles.Some? && forall r :: r in roles.value <==> (principal, r) in grants
    {
      Outside();
      var fails: bool, omitted: set<Role> := *, *;
      if !steady && fails {
        log := log + [Unheard];
        return None;
      }
      var all := set g | g in grants && g.0 == principal :: g.1;
      assert forall r :: (principal, r) in grants ==> (principal, r).1 in all;
      return Some(if steady then all else all - omitted);
    }

    /** A request leaves the host, unless the process is or gets killed. */
    method Send() returns (arrives: bool)
      requires Inv()
      modifies `apps, `principals, `grants, `ever, `clientOf, `next, `killed
      ensures Calm() && (old(killed) ==> killed)
      ensures arrives == !killed && (steady ==> arrives)
    {
      Outside();
      var dies: bool := *;
      killed := killed || (dies && !steady);
      return !killed;
    }

    /** The answer to a request that had its effect comes back, unless the process dies or the answer is lost. */
    method Back() returns (arrives: bool)
      requires Inv()
      modifies `killed
      ensures Inv() && (old(killed) ==> killed)
      ensures arrives ==> !killed
      ensures steady ==> arrives
    {
      var dies: bool, answered: bool := *, *;
      killed := killed || (dies && !steady);
      return !killed && (answered || steady);
    }

    /** The directory adds the application. */
    method AddApplication(key: Id) returns (id: Id, client: Id)
      requires Inv() && madeApps == [] && mem.pending == disk.pending == Application
      modifies `apps, `next, `madeApps
      ensures Inv() && madeApps == [MadeApp(id, App(client, key))]
      ensures apps == map[id := App(client, key)] && client !in principals
    {
      hide Shows, TiedTo;
      ShowsWithApp(apps, principals, madePrincipals, clientOf, next, key);
      id, client := next, next + 1;
      TiedWithApp(mem, madePrincipals, clientOf, MadeApp(id, App(client, key)));
      TiedWithApp(disk, madePrincipals, clientOf, MadeApp(id, App(client, key)));
      apps, next := map[id := App(client, key)], next + 2;
      madeApps := [MadeApp(id, App(client, key))];
    }

    /** The directory adds the principal, with the marker. */
    method AddPrincipal(client: Id) returns (id: Id)
      requires Inv() && madePrincipals == [] && mem.pending == disk.pending == ServicePrincipal
      requires |madeApps| == 1 && client == madeApps[0].app.client && client !in principals
      modifies `principals, `clientOf, `next, `madePrincipals
      ensures Inv() && madePrincipals == [id] && id in clientOf && clientOf[id] == client
      ensures principals == old(principals)[client := Principal(id, true)]
    {
      hide Shows, TiedTo;
      ClientIsIssued();
      ShowsLater(apps, principals, madeApps, madePrincipals, clientOf, next, next);
      madePrincipals := madePrincipals + [next];
      ghost var before := clientOf;
      id := Issue(client, true);
      TiedWithPrincipal(mem, madeApps, [], before, clientOf, madePrincipals);
      TiedWithPrincipal(disk, madeApps, [], before, clientOf, madePrincipals);
    }

    /** Creating the application. A refusal has no effect; a lost reply may hide one. */
    method PostApplication(key: Id) returns (r: Reply)
      requires Inv() && madeApps == [] && mem.pending == disk.pending == Application
      modifies `apps, `principals, `grants, `ever, `clientOf, `next, `madeApps, `killed, `log
      ensures Inv() && (old(killed) ==> killed) && log == old(log) + [Asked(Application, AnswerTo(r))]
      ensures old(ever) <= ever && old(madeApps) <= madeApps
      ensures r.Created? ==> madeApps == [MadeApp(r.id, App(r.client, key))] && !killed
      ensures r.Refused? ==> madeApps == []
      ensures steady ==> r.Created? && apps == map[r.id := App(r.client, key)] && PrincipalFor(r.client) == None
      ensures steady ==> principals == old(principals) && grants == old(grants)
    {
      hide Inv, Shows, TiedTo;
      var arrives := Send();
      var refused: bool, retry: bool, applied: bool := *, *, *;
      if !arrives {
        log := log + [Asked(Application, Silent)];
        return Lost;
      }
      if !steady && refused {
        log := log + [Asked(Application, Denied(retry))];
        return Refused(retry);
      }
      if !steady && !applied {
        log := log + [Asked(Application, Silent)];
        return Lost;
      }
      var id, client := AddApplication(key);
      var arrived := Back();
      if !arrived {
        log := log + [Asked(Application, Silent)];
        return Lost;
      }
      log := log + [Asked(Application, Done)];
      return Created(id, client);
    }

    lemma {:induction false} ClientIsIssued()
      requires Inv()
      ensures forall m | m in madeApps :: m.app.client < next
    {
    }

    /** Creating the service principal; the directory keeps one per client. */
    method PostPrincipal(client: Id) returns (r: Reply)
      requires Inv() && madePrincipals == [] && mem.pending == disk.pending == ServicePrincipal
      requires |madeApps| == 1 && client == madeApps[0].app.client
      modifies `apps, `principals, `grants, `ever, `clientOf, `next, `madePrincipals, `killed, `log
      ensures Inv() && (old(killed) ==> killed) && log == old(log) + [Asked(ServicePrincipal, AnswerTo(r))]
      ensures old(ever) <= ever && old(madePrincipals) <= madePrincipals
      ensures r.Created? ==> madePrincipals == [r.id] && r.id in clientOf && clientOf[r.id] == client && !killed
      ensures r.Refused? ==> madePrincipals == [] && (steady ==> old(PrincipalFor(client)).Some?)
      ensures steady ==> (r.Created? <==> old(PrincipalFor(client)).None?)
      ensures steady && r.Created? ==> principals == old(principals)[client := Principal(r.id, true)]
      ensures steady && !r.Created? ==> principals == old(principals)
      ensures steady ==> apps == old(apps) && grants == old(grants)
    {
      hide Inv, Shows, TiedTo;
      var arrives := Send();
      var refused: bool, retry: bool, applied: bool := *, *, *;
      if !arrives {
        log := log + [Asked(ServicePrincipal, Silent)];
        return Lost;
      }
      if (!steady && refused) || client in principals {
        log := log + [Asked(ServicePrincipal, Denied(retry))];
        return Refused(retry);
      }
      if !steady && !applied {
        log := log + [Asked(ServicePrincipal, Silent)];
        return Lost;
      }
      var id := AddPrincipal(client);
      var arrived := Back();
      if !arrived {
        log := log + [Asked(ServicePrincipal, Silent)];
        return Lost;
      }
      log := log + [Asked(ServicePrincipal, Done)];
      return Created(id, client);
    }

    /** The pause before a request is made again: the run may be cancelled then. */
    method Pause(tag: Tag) returns (cancelled: bool)
      modifies `log
      ensures log == old(log) + if cancelled then [Asked(tag, Silent)] else []
    {
      cancelled := *;
      log := log + if cancelled then [Asked(tag, Silent)] else [];
    }

    /** callFresh around the creation: only a refusal that blames replication is sent again, and it had no effect. */
    method CreatePrincipal(client: Id, patience: nat) returns (r: Reply)
      requires Inv() && madePrincipals == [] && mem.pending == disk.pending == ServicePrincipal
      requires |madeApps| == 1 && client == madeApps[0].app.client
      modifies `apps, `principals, `grants, `ever, `clientOf, `next, `madePrincipals, `killed, `log
      ensures Inv() && (old(killed) ==> killed)
      ensures Repeated(old(log), log, ServicePrincipal, AnswerTo(r))
      ensures r.Refused? && r.retry ==> |log| == |old(log)| + patience + 1
      ensures old(ever) <= ever && old(madePrincipals) <= madePrincipals
      ensures r.Created? ==> madePrincipals == [r.id] && r.id in clientOf && clientOf[r.id] == client && !killed
      ensures r.Refused? ==> madePrincipals == []
      ensures steady ==> (r.Created? <==> old(PrincipalFor(client)).None?)
      ensures steady && r.Created? ==> principals == old(principals)[client := Principal(r.id, true)]
      ensures steady && !r.Created? ==> principals == old(principals)
      ensures steady ==> apps == old(apps) && grants == old(grants)
    {
      hide Shows, TiedTo, Repeated;
      var left: nat := patience;
      r := PostPrincipal(client);
      AskedOnce(old(log), ServicePrincipal, AnswerTo(r));
      while r.Refused? && r.retry && left > 0
        invariant Inv() && (old(killed) ==> killed)
        invariant Repeated(old(log), log, ServicePrincipal, AnswerTo(r))
        invariant left <= patience && |log| == |old(log)| + (patience - left) + 1
        invariant old(ever) <= ever && old(madePrincipals) <= madePrincipals
        invariant r.Created? ==> madePrincipals == [r.id] && r.id in clientOf && clientOf[r.id] == client && !killed
        invariant r.Refused? ==> madePrincipals == []
        invariant steady ==> (r.Created? <==> old(PrincipalFor(client)).None?)
        invariant steady && r.Created? ==> principals == old(principals)[client := Principal(r.id, true)]
        invariant steady && !r.Created? ==> principals == old(principals)
        invariant steady ==> apps == old(apps) && grants == old(grants)
        decreases left
      {
        RepeatedOnce(old(log), log, ServicePrincipal, Silent);
        ghost var soFar := log;
        var cancelled := Pause(ServicePrincipal);
        if cancelled {
          return Lost;
        }
        assert soFar + [] == soFar;
        r := PostPrincipal(client);
        RepeatedOnce(old(log), soFar, ServicePrincipal, AnswerTo(r));
        left := left - 1;
      }
    }

    // --- grants ----------------------------------------------------------

    predicate Exists(principal: Id)
      reads `principals, `clientOf
    {
      principal in clientOf && PrincipalFor(clientOf[principal]) == Some(principal)
    }

    /** The directory adds the grant. */
    method AddGrant(principal: Id, role: Role)
      requires Inv()
      modifies `grants, `ever
      ensures Inv() && grants == old(grants) + {(principal, role)} && ever == old(ever) + {(principal, role)}
    {
      hide Shows, TiedTo;
      grants, ever := grants + {(principal, role)}, ever + {(principal, role)};
    }

    /** Granting one role. The directory keeps a grant once: a second request for it is a conflict. */
    method PostGrant(principal: Id, role: Role) returns (r: GrantReply)
      requires Inv() && mem.pending == disk.pending == Permission(role)
      modifies `apps, `principals, `grants, `ever, `clientOf, `next, `killed, `log
      ensures Inv() && (old(killed) ==> killed) && log == old(log) + [Asked(Permission(role), AnswerToGrant(r))]
      ensures Extends(old(clientOf), clientOf) && old(ever) <= ever
      ensures r.Granted? ==> (principal, role) in grants && !killed
      ensures r.Conflict? ==> (principal, role) in ever
      ensures steady ==> apps == old(apps) && principals == old(principals) && clientOf == old(clientOf)
      ensures steady ==> grants == if Exists(principal) then old(grants) + {(principal, role)} else old(grants)
      ensures steady && old(Exists(principal)) ==>
                r == if (principal, role) in old(grants) then Conflict else Granted
    {
      hide Inv, TiedTo, Shows;
      var arrives := Send();
      var refused: bool, retry: bool, applied: bool := *, *, *;
      AreGrants();
      if !arrives {
        log := log + [Asked(Permission(role), Silent)];
        return GrantLost;
      }
      if (!steady && refused) || !Exists(principal) {
        log := log + [Asked(Permission(role), Denied(retry))];
        return GrantRefused(retry);
      }
      if (principal, role) in grants {
        log := log + [Asked(Permission(role), Already)];
        return Conflict;
      }
      if !steady && !applied {
        log := log + [Asked(Permission(role), Silent)];
        return GrantLost;
      }
      AddGrant(principal, role);
      var arrived := Back();
      if !arrived {
        log := log + [Asked(Permission(role), Silent)];
        return GrantLost;
      }
      log := log + [Asked(Permission(role), Done)];
      return Granted;
    }

    /** A conflict says the grant exists; it is confirmed by reads only, for a bounded time. */
    method WaitGrant(principal: Id, role: Role, patience: nat) returns (w: Sought, ghost looks: nat)
      requires Inv()
      modifies `apps, `principals, `grants, `ever, `clientOf, `next, `log
      ensures Calm()
      ensures log == old(log) + if w in {ReadRefused, NoAnswer} then [Unheard] else []
      ensures w.NotReadable? ==> looks == patience + 1
      ensures w.Confirmed? ==> (principal, role) in grants
      ensures steady ==> (w.Confirmed? <==> (principal, role) in grants)
    {
      var left: nat, client: bool := patience, *;
      looks := 0;
      while true
        invariant Calm() && log == old(log) && left <= patience && looks == patience - left
        decreases left
      {
        var rows := ReadGrants(principal);
        looks := looks + 1;
        if rows.None? {
          return if client then ReadRefused else NoAnswer, looks;
        }
        if role in rows.value {
          return Confirmed, looks;
        }
        if left == 0 {
          return NotReadable, looks;
        }
        left := left - 1;
      }
    }

    /** One grant request; a grant for a principal created in this run is sent again while replication refuses it. */
    method GiveGrant(principal: Id, role: Role, created: bool, patience: nat) returns (r: GrantReply)
      requires Inv() && principal in clientOf && mem.pending == disk.pending == Permission(role)
      modifies `apps, `principals, `grants, `ever, `clientOf, `next, `killed, `log
      ensures Inv() && (old(killed) ==> killed)
      ensures Repeated(old(log), log, Permission(role), AnswerToGrant(r))
      ensures r.GrantRefused? && r.retry ==> |log| == |old(log)| + (if created then patience else 0) + 1
      ensures !created ==> |log| == |old(log)| + 1
      ensures Extends(old(clientOf), clientOf) && old(ever) <= ever
      ensures r.Granted? ==> (principal, role) in grants && !killed
      ensures steady ==> apps == old(apps) && principals == old(principals) && clientOf == old(clientOf)
      ensures steady && old(Exists(principal)) ==>
                && grants == old(grants) + {(principal, role)}
                && r == if (principal, role) in old(grants) then Conflict else Granted
    {
      hide Inv, TiedTo, Shows, Repeated;
      var left: nat := patience;
      r := PostGrant(principal, role);
      AskedOnce(old(log), Permission(role), AnswerToGrant(r));
      while created && r.GrantRefused? && r.retry && left > 0
        invariant Inv() && (old(killed) ==> killed)
        invariant Repeated(old(log), log, Permission(role), AnswerToGrant(r))
        invariant left <= patience && |log| == |old(log)| + (patience - left) + 1 && (!created ==> left == patience)
        invariant Extends(old(clientOf), clientOf) && old(ever) <= ever
        invariant r.Granted? ==> (principal, role) in grants && !killed
        invariant steady ==> apps == old(apps) && principals == old(principals) && clientOf == old(clientOf)
        invariant steady && old(Exists(principal)) ==>
                    && grants == old(grants) + {(principal, role)}
                    && r == if (principal, role) in old(grants) then Conflict else Granted
        decreases left
      {
        RepeatedOnce(old(log), log, Permission(role), Silent);
        ghost var soFar := log;
        var cancelled := Pause(Permission(role));
        if cancelled {
          return GrantLost;
        }
        assert soFar + [] == soFar;
        r := PostGrant(principal, role);
        RepeatedOnce(old(log), soFar, Permission(role), AnswerToGrant(r));
        left := left - 1;
      }
    }

    // --- EnsureInstaller -------------------------------------------------

    /** The recorded objects are there and belong together. */
    ghost predicate RecordedThere(known: Known)
      requires known.id.Some?
      reads `apps, `principals
    {
      && known.id.value in apps && known.client in {None, Some(apps[known.id.value].client)}
      && var client := apps[known.id.value].client;
      && (known.principal.Some? ==> client in principals)
      && (known.principal.Some? ==> principals[client] == Principal(known.principal.value, true))
    }

    /** What the first step of an up-to-date run sees. */
    ghost function Expected(known: Known): Reading<Known>
      reads `apps, `principals, `madeApps
    {
      if known.id.None? then
        if apps == map[] || madeApps == [] then Nothing else Seen(Sight(madeApps[0]))
      else if !RecordedThere(known) then Unread
      else
        var client := apps[known.id.value].client;
        Seen(Known(known.id, Some(client), if known.principal.Some? then known.principal else PrincipalFor(client)))
    }

    /** recordedInstaller: recorded identifiers are read directly; only a missing one is searched for. */
    method ReadRecorded(known: Known) returns (r: Reading<Known>)
      requires Inv() && known == KnownOf(mem) && known.id.Some?
      modifies `apps, `principals, `grants, `ever, `clientOf, `next, `log
      ensures Calm() && !r.Nothing? && log == old(log) + if r.Unread? then [Unheard] else []
      ensures r.Seen? ==> Sighted(r.value) && Agrees(mem, r.value)
      ensures steady ==> r == Expected(known)
    {
      hide Recorded, TiedTo, Shows;
      RecordedIsMade();
      var app := ReadApplication(known.id.value, known.client);
      if app.None? {
        return Unread;
      }
      var there := known.(client := Some(app.value.client));
      if known.principal.Some? {
        var found := ReadPrincipal(known.principal.value, app.value.client);
        return if found then Seen(there) else Unread;
      }
      var current := FindInstaller();
      if current.Unread? {
        return Unread;
      }
      if current.Seen? && current.value.id == known.id {
        return Seen(there.(principal := current.value.principal));
      }
      return Seen(there);
    }

    /** A recorded identifier is that of what was created, and only that is shown. */
    lemma {:induction false} RecordedIsMade()
      requires Inv() && KnownOf(mem).id.Some?
      ensures var known := KnownOf(mem);
              && |madeApps| == 1 && known.id == Some(madeApps[0].id)
              && (known.principal.Some? ==> known.principal.value in clientOf)
              && (known.principal.Some? ==> clientOf[known.principal.value] == madeApps[0].app.client)
      ensures forall a | a in apps :: MadeApp(a, apps[a]) == madeApps[0]
    {
      assert forall a | a in apps :: MadeApp(a, apps[a]) in madeApps;
    }

    /** What a run looks at first. */
    method Look(known: Known) returns (r: Reading<Known>)
      requires Inv() && known == KnownOf(mem)
      modifies `apps, `principals, `grants, `ever, `clientOf, `next, `log
      ensures Calm() && log == old(log) + if r.Unread? then [Unheard] else []
      ensures r.Seen? ==> Sighted(r.value) && Agrees(mem, r.value)
      ensures r.Nothing? ==> known.id.None?
      ensures steady ==> r == Expected(known)
    {
      hide Recorded, Shows;
      if known.id.None? {
        r := FindInstaller();
      } else {
        r := ReadRecorded(known);
      }
    }

    /** The certificate the application holds. */
    method ReadKey(id: Id) returns (key: Option<Id>)
      requires Inv()
      modifies `apps, `principals, `grants, `ever, `clientOf, `next, `log
      ensures Calm() && log == old(log) + if key.None? then [Unheard] else []
      ensures key.Some? ==> |madeApps| == 1 && key.value == madeApps[0].app.key
      ensures steady && id in apps ==> key == Some(apps[id].key)
    {
      Outside();
      var fails: bool := *;
      if (!steady && fails) || id !in apps {
        log := log + [Unheard];
        return None;
      }
      assert MadeApp(id, apps[id]) == madeApps[0];
      return Some(apps[id].key);
    }

    /** Creating the one application: the tag before the request, and off again after a refusal or an answer. */
    method CreateApplication(key: Id) returns (s: Step)
      requires Inv() && mem.pending == NoTag && Recorded(mem.entries, AppKind).None?
      modifies `mem, `disk, `killed, `apps, `principals, `grants, `ever, `clientOf, `next, `madeApps, `log
      ensures Inv() && old(madeApps) <= madeApps && old(ever) <= ever
      ensures Went(old(log), log, FailedBy(s), mem.pending, disk.pending)
      ensures s.Go? ==> Sighted(s.app) && Agrees(mem, s.app) && madeApps[0].app.key == key
      ensures s.Go? ==> mem.pending == NoTag && disk == mem && !killed && s.app.principal.None?
      ensures s == Halt(Rejected) ==> Settled()
      ensures steady ==> s.Go? && principals == old(principals) && grants == old(grants)
      ensures steady ==> apps == map[s.app.id.value := App(s.app.client.value, key)]
      ensures steady ==> PrincipalFor(s.app.client.value) == None
    {
      hide Shows, TiedTo, Noted, Went, Repeated, Told, Extends;
      assert log + [] == log;
      NothingMade(mem, madeApps, madePrincipals, clientOf);
      TiedAsking(mem, madeApps, madePrincipals, clientOf, Application);
      var ok := Checkpoint(Application, UNKNOWN);
      if !ok {
        WentWrong(old(log), Unsaved, mem.pending, disk.pending);
        return Halt(Error);
      }
      var reply := PostApplication(key);
      AskedOnce(old(log), Application, AnswerTo(reply));
      RepeatedWent(old(log), log, Application, AnswerTo(reply));
      assert log + [] == log;
      if !reply.Created? {
        if reply.Refused? {
          TiedAsking(mem, madeApps, madePrincipals, clientOf, NoTag);
          ok := Checkpoint(NoTag, UNKNOWN);
          return Halt(if ok then Rejected else Error);
        }
        return Halt(Error);
      }
      var app := Known(Some(reply.id), Some(reply.client), None);
      ghost var sent := log;
      ok := Mark(NoTag, app);
      MarkedAfter(old(log), sent, Application, Application, ok, mem.pending, disk.pending);
      return if ok then Go(app) else Halt(Error);
    }

    /** The application phase: adopt what was found if it holds this host's key, or create the one application. */
    method EnsureApplication(found: Option<Known>, key: Id, pending: Tag) returns (s: Step)
      requires Inv() && pending == mem.pending
      requires found.Some? ==> Sighted(found.value) && Agrees(mem, found.value)
      requires found.None? ==> Recorded(mem.entries, AppKind).None? && pending != Application
      requires steady && found.Some? ==> found.value.id.value in apps
      modifies `mem, `disk, `killed, `apps, `principals, `grants, `ever, `clientOf, `next, `madeApps, `log
      ensures Inv() && old(madeApps) <= madeApps && old(ever) <= ever
      ensures Went(old(log), log, FailedBy(s), mem.pending, disk.pending)
      ensures s.Go? ==> Sighted(s.app) && Agrees(mem, s.app) && madeApps[0].app.key == key
      ensures s.Go? ==> mem.pending == if pending == Application then NoTag else pending
      ensures s.Go? && found.Some? ==> s.app == found.value
      ensures s.Go? && found.Some? && pending != Application ==> mem == old(mem) && disk == old(disk)
      ensures s == Halt(Rejected) ==> Settled()
      ensures s.Go? && found.None? ==> s.app.principal.None? && pending == NoTag && disk == mem && !killed
      ensures steady ==> principals == old(principals) && grants == old(grants)
      ensures steady && found.Some? ==> apps == old(apps)
      ensures steady && found.None? && s.Go? ==> apps == map[s.app.id.value := App(s.app.client.value, key)]
      ensures steady ==> (s.Go? <==> (found.Some? ==> old(apps)[found.value.id.value].key == key))
      ensures steady && s.Go? && found.None? ==> PrincipalFor(s.app.client.value) == None
    {
      hide Shows, TiedTo, Noted;
      if found.None? {
        AppIsRecordedIfTagged();
        if pending != NoTag {
          return Halt(NeedsReview);
        }
        s := CreateApplication(key);
        return;
      }
      var app := found.value;
      var held := ReadKey(app.id.value);
      if held != Some(key) {
        return Halt(if held.None? then Error else NeedsReview);
      }
      if pending == Application {
        NothingRecorded(app);
        var ok := Mark(NoTag, app);
        if !ok {
          return Halt(Error);
        }
      }
      return Go(app);
    }

    /** A later tag than the application's is there only with the application recorded. */
    lemma {:induction false} AppIsRecordedIfTagged()
      requires Inv()
      ensures Recorded(mem.entries, AppKind).None? ==> mem.pending in {NoTag, Application}
    {
    }

    lemma {:induction false} NothingRecorded(app: Known)
      requires Inv() && mem.pending == Application
      ensures madePrincipals == []
    {
    }

    lemma {:induction false} PrincipalNotMade()
      requires Inv() && Recorded(mem.entries, PrincipalKind).None? && mem.pending != ServicePrincipal
      ensures madePrincipals == []
    {
    }

    /** The principal the directory has for this client, if any, carries the marker. */
    predicate Marked(client: Id)
      reads `principals
    {
      client in principals ==> principals[client].marked
    }

    /** No application has a principal that somebody else added. */
    ghost predicate NoStranger()
      reads `apps, `principals
    {
      forall a | a in apps :: Marked(apps[a].client)
    }

    /** The directory has this very principal for the application, with the marker or without. */
    ghost predicate Holds(app: Known, marked: bool)
      reads `principals
    {
      && app.client.Some? && app.principal.Some? && app.client.value in principals
      && principals[app.client.value] == Principal(app.principal.value, marked)
    }

    /** The service principal phase: adopt the one found, or create the one that belongs to the application. */
    method EnsurePrincipal(app: Known, pending: Tag) returns (s: Step)
      requires Inv() && Sighted(app) && Agrees(mem, app)
      requires mem.pending == if pending == Application then NoTag else pending
      modifies `mem, `disk, `killed, `apps, `principals, `grants, `ever, `clientOf, `next, `madePrincipals, `log
      ensures Inv() && old(madePrincipals) <= madePrincipals && old(ever) <= ever
      ensures Went(old(log), log, FailedBy(s), mem.pending, disk.pending)
      ensures app.principal.Some? ==> s == Go(app) && mem == old(mem) && disk == old(disk)
      ensures s.Go? ==> Sighted(s.app) && Agrees(mem, s.app) && s.app.principal.Some?
      ensures s.Go? && app.principal.Some? ==> s.app == app
      ensures s == Halt(Rejected) ==> Settled()
      ensures s.Go? && app.principal.None? ==> pending != ServicePrincipal && Settled()
      ensures s.Go? && app.principal.None? ==> madePrincipals == [s.app.principal.value]
      ensures steady ==> grants == old(grants) && apps == old(apps)
      ensures steady && s.Go? && (app.principal.Some? ==> old(Exists(app.principal.value))) ==>
                Holds(s.app, old(Marked(app.client.value)))
      ensures steady && app.principal.Some? ==> principals == old(principals) && clientOf == old(clientOf)
      ensures steady && app.principal.None? && old(PrincipalFor(app.client.value)).None? ==>
                && (s.Go? <==> pending != ServicePrincipal) && (s.Halt? ==> s.why == Unclear)
                && (s.Go? ==> Exists(s.app.principal.value))
    {
      hide Inv, Shows, TiedTo, Noted, Went, Repeated, Recorded, Extends, Told;
      WentNowhere(log, if app.principal.None? && pending == ServicePrincipal then Some(Unclear) else None, mem.pending,
                  disk.pending);
      assert log + [] == log;
      if app.principal.Some? {
        return Go(app);
      }
      if pending == ServicePrincipal {
        return Halt(Unclear);
      }
      PrincipalNotMade();
      var ok := Mark(ServicePrincipal, app);
      if !ok {
        WentWrong(old(log), Unsaved, mem.pending, disk.pending);
        return Halt(Error);
      }
      var patience: nat := *;
      var reply := CreatePrincipal(app.client.value, patience);
      RepeatedWent(old(log), log, ServicePrincipal, AnswerTo(reply));
      assert log + [] == log;
      if !reply.Created? {
        if reply.Refused? {
          ok := Mark(NoTag, app);
          return Halt(if ok then Rejected else Error);
        }
        return Halt(Error);
      }
      var whole := app.(principal := Some(reply.id));
      ghost var sent := log;
      ok := Mark(NoTag, whole);
      MarkedAfter(old(log), sent, ServicePrincipal, ServicePrincipal, ok, mem.pending, disk.pending);
      return if ok then Go(whole) else Halt(Error);
    }

    /** The tag names a required grant that does not exist. */
    ghost predicate Missing(pending: Tag, required: seq<Role>, principal: Id)
      reads `grants
    {
      pending.Permission? && pending.role in required && (principal, pending.role) !in grants
    }

    /** A required role that comes before the one the tag names is not granted. */
    ghost predicate Overtaken(pending: Tag, required: seq<Role>, principal: Id)
      reads `grants
    {
      pending.Permission? && exists k :: 0 <= k <= |required| && pending.role !in required[..k]
                                         && Gap(grants, required[..k], principal)
    }

    lemma {:induction false} AreGrants()
      requires Inv()
      ensures grants <= ever
    {
    }

    /** The request and, when it conflicts, the search for the grant it conflicts with. */
    method AskGrant(principal: Id, role: Role, created: bool) returns (s: Sought)
      requires Inv() && principal in clientOf && mem.pending == disk.pending == Permission(role)
      modifies `apps, `principals, `grants, `ever, `clientOf, `next, `killed, `log
      ensures Inv() && (old(killed) ==> killed)
      ensures SoughtSo(old(log), log, Permission(role), s)
      ensures Extends(old(clientOf), clientOf) && old(ever) <= ever
      ensures s.Confirmed? ==> (principal, role) in ever
      ensures steady ==> apps == old(apps) && principals == old(principals) && clientOf == old(clientOf)
      ensures steady && old(Exists(principal)) ==> s.Confirmed? && grants == old(grants) + {(principal, role)}
    {
      hide TiedTo, Shows, Repeated, Went;
      var patience: nat := *;
      var reply := GiveGrant(principal, role, created, patience);
      RepeatedWent(old(log), log, Permission(role), AnswerToGrant(reply));
      match reply {
        case Granted => return Confirmed;
        case Conflict =>
          assert log + [] == log;
          ghost var looks;
          s, looks := WaitGrant(principal, role, patience);
        case GrantRefused(_) => return ReadRefused;
        case GrantLost => return NoAnswer;
      }
    }

    /** One required role that the list of grants did not show. */
    method EnsureGrant(app: Known, role: Role, created: bool) returns (s: Step)
      requires Inv() && Sighted(app) && Agrees(mem, app) && app.principal.Some?
      modifies `mem, `disk, `killed, `apps, `principals, `grants, `ever, `clientOf, `next, `log
      ensures Inv() && old(ever) <= ever
      ensures Went(old(log), log, FailedBy(s), mem.pending, disk.pending)
      ensures s.Go? ==> s.app == app && Sighted(app) && Agrees(mem, app) && (app.principal.value, role) in ever
      ensures s.Go? || s == Halt(Rejected) ==> Settled()
      ensures s.Go? ==> KnownOf(mem) == app
      ensures steady ==> apps == old(apps) && principals == old(principals) && clientOf == old(clientOf)
      ensures steady && old(Exists(app.principal.value)) ==>
                s.Go? && grants == old(grants) + {(app.principal.value, role)}
    {
      hide Inv, TiedTo, Shows, Went, Recorded, Told;
      assert log + [] == log;
      var ok := Mark(Permission(role), app);
      if !ok {
        WentWrong(old(log), Unsaved, mem.pending, disk.pending);
        return Halt(Error);
      }
      var sought := AskGrant(app.principal.value, role, created);
      match sought {
        case NotReadable => return Halt(Unclear);
        case NoAnswer => return Halt(Error);
        case ReadRefused =>
          assert log + [] == log;
          ok := Mark(NoTag, app);
          return Halt(if ok then Rejected else Error);
        case Confirmed =>
          assert log + [] == log;
          ghost var sent := log;
          ok := Mark(NoTag, app);
          MarkedAfter(old(log), sent, Permission(role), Permission(role), ok, mem.pending, disk.pending);
          return if ok then Go(app) else Halt(Error);
      }
    }

    /** A part of a run that has gone well, and the save after it. */
    lemma {:induction false} MarkedAfter(before: seq<Heard>, after: seq<Heard>, m: Tag, d: Tag, ok: bool, mem: Tag,
                                         disk: Tag)
      requires Went(before, after, None, m, d)
      ensures ok ==> Went(before, after, None, mem, disk)
      ensures !ok ==> Went(before, after + [Unsaved], Some(Error), mem, disk)
    {
      hide Went;
      if ok {
        WentNowhere(after, None, mem, disk);
        WentOn(before, after, after, m, d, None, mem, disk);
      } else {
        WentWrong(after, Unsaved, mem, disk);
        WentOn(before, after, after + [Unsaved], m, d, Some(Error), mem, disk);
      }
    }

    /** Every required role the list of grants does not show is requested; the first failure ends the run. */
    method GrantAll(app: Known, pending: Tag, created: bool, required: seq<Role>) returns (failed: Option<Why>)
      requires Inv() && Sighted(app) && Agrees(mem, app) && app.principal.Some?
      requires steady ==> Exists(app.principal.value)
      modifies `mem, `disk, `killed, `apps, `principals, `grants, `ever, `clientOf, `next, `log
      ensures Inv() && old(ever) <= ever && (failed.None? ==> Sighted(app) && Agrees(mem, app))
      ensures Went(old(log), log, failed, mem.pending, disk.pending)
      ensures failed.None? ==> forall role | role in required :: (app.principal.value, role) in ever
      ensures failed == Some(Rejected) ==> Settled()
      ensures steady ==> apps == old(apps) && principals == old(principals)
      ensures steady && failed.Some? ==> failed == Some(Unclear)
      ensures steady ==> (failed.None? <==> !old(Missing(pending, required, app.principal.value)))
      ensures steady && failed.Some? ==>
                if old(Overtaken(pending, required, app.principal.value)) then Settled() && KnownOf(mem) == app
                else mem == old(mem) && disk == old(disk) && grants == old(grants)
      ensures steady && failed.None? ==> forall role | role in required :: (app.principal.value, role) in grants
    {
      hide Inv, TiedTo, Shows, Went, Recorded, Told, Agrees;
      var principal := app.principal.value;
      ghost var was := grants;
      assert log + [] == log;
      var listed := ReadGrants(principal);
      AreGrants();
      if listed.None? {
        WentWrong(old(log), Unheard, mem.pending, disk.pending);
        return Some(Error);
      }
      WentNowhere(log, None, mem.pending, disk.pending);
      for i := 0 to |required|
        invariant Inv() && old(ever) <= ever && Sighted(app) && Agrees(mem, app)
        invariant Went(old(log), log, None, mem.pending, disk.pending)
        invariant forall k | 0 <= k < i :: (principal, required[k]) in ever
        invariant forall role | role in listed.value :: (principal, role) in ever
        invariant steady && Gap(was, required[..i], principal) ==> Settled() && KnownOf(mem) == app
        invariant steady && !Gap(was, required[..i], principal) ==>
                    mem == old(mem) && disk == old(disk) && grants == old(grants)
        invariant steady && pending.Permission? && pending.role in required[..i] ==> (principal, pending.role) in was
        invariant steady ==> apps == old(apps) && principals == old(principals)
        invariant steady ==> Exists(principal) && Granting(was, grants, principal, required[..i], pending)
      {
        var role := required[i];
        TakeStep(required, i);
        ghost var before, tag, saved, heard := grants, mem.pending, disk.pending, log;
        if role !in listed.value {
          if pending == Permission(role) {
            WentNowhere(log, Some(Unclear), mem.pending, disk.pending);
            WentOn(old(log), heard, log, tag, saved, Some(Unclear), mem.pending, disk.pending);
            return Some(Unclear);
          }
          var step := EnsureGrant(app, role, created);
          WentOn(old(log), heard, log, tag, saved, FailedBy(step), mem.pending, disk.pending);
          if step.Halt? {
            return Some(step.why);
          }
        }
        if steady {
          GrantingStep(was, before, grants, principal, required[..i], role, pending);
        }
      }
      assert required[..|required|] == required;
      return None;
    }

    /** The permission phase: every required role is granted, and only then is the registration complete. */
    method EnsureGrants(app: Known, pending: Tag, created: bool, required: seq<Role>) returns (r: Outcome)
      requires Inv() && Sighted(app) && Agrees(mem, app) && app.principal.Some?
      requires steady ==> Exists(app.principal.value)
      modifies `mem, `disk, `killed, `apps, `principals, `grants, `ever, `clientOf, `next, `log
      ensures Inv() && old(ever) <= ever
      ensures Went(old(log), log, FailedRun(r), mem.pending, disk.pending)
      ensures r.Registered? ==> forall role | role in required :: (app.principal.value, role) in ever
      ensures r.Registered? ==> r.app == app && Sighted(app) && KnownOf(mem) == app
      ensures r.Registered? || r == Stopped(Rejected) ==> Settled()
      ensures steady ==> (r.Registered? <==> !old(Missing(pending, required, app.principal.value)))
      ensures steady ==> r.Registered? || r == Stopped(Unclear)
      ensures steady ==> apps == old(apps) && principals == old(principals)
      ensures steady && r.Stopped? ==>
                if old(Overtaken(pending, required, app.principal.value)) then Settled() && KnownOf(mem) == app
                else mem == old(mem) && disk == old(disk) && grants == old(grants)
      ensures steady && r.Registered? ==> forall role | role in required :: (app.principal.value, role) in grants
    {
      hide Inv, TiedTo, Shows, Went;
      var failed := GrantAll(app, pending, created, required);
      if failed.Some? {
        return Stopped(failed.value);
      }
      ghost var granted, t, d := log, mem.pending, disk.pending;
      assert log + [] == log;
      var ok := Mark(NoTag, app);
      MarkedAfter(old(log), granted, t, d, ok, mem.pending, disk.pending);
      return if ok then Registered(app) else Stopped(Error);
    }

    /** A tag of the permission phase is there only with the principal recorded. */
    lemma {:induction false} TagNamesRecorded(app: Known)
      requires Inv() && Agrees(mem, app)
      ensures mem.pending.Permission? ==> app.principal.Some?
    {
    }

    /** The principal phase and the permission phase. */
    method Complete(app: Known, pending: Tag, required: seq<Role>) returns (r: Outcome)
      requires Inv() && Sighted(app) && Agrees(mem, app)
      requires mem.pending == if pending == Application then NoTag else pending
      requires steady && app.principal.Some? ==> Exists(app.principal.value)
      requires steady && app.principal.None? ==> PrincipalFor(app.client.value).None?
      modifies `mem, `disk, `killed, `apps, `principals, `grants, `ever, `clientOf, `next, `madePrincipals, `log
      ensures Inv() && old(madePrincipals) <= madePrincipals && old(ever) <= ever
      ensures Went(old(log), log, FailedRun(r), mem.pending, disk.pending)
      ensures r.Registered? ==> Sighted(r.app) && KnownOf(mem) == r.app && r.app.principal.Some?
      ensures r.Registered? ==> forall role | role in required :: (r.app.principal.value, role) in ever
      ensures r.Registered? || r == Stopped(Rejected) ==> Settled()
      ensures steady && r.Registered? ==> forall role | role in required :: (r.app.principal.value, role) in grants
      ensures steady ==> apps == old(apps)
      ensures steady && r.Registered? ==> Holds(r.app, old(Marked(app.client.value)))
      ensures steady ==> (r.Registered? <==> old(Finishes(app, pending, required)))
      ensures steady ==> r.Registered? || r == Stopped(Unclear)
      ensures steady && r.Stopped? && app.principal.Some? ==>
                && principals == old(principals)
                && if old(Overtaken(pending, required, app.principal.value)) then Settled() && KnownOf(mem) == app
                   else mem == old(mem) && disk == old(disk) && grants == old(grants)
    {
      hide Shows, TiedTo, Went, Overtaken, Recorded;
      TagNamesRecorded(app);
      var step := EnsurePrincipal(app, pending);
      if step.Halt? {
        return Stopped(step.why);
      }
      ghost var heard, tag, saved := log, mem.pending, disk.pending;
      r := EnsureGrants(step.app, pending, app.principal.None?, required);
      WentOn(old(log), heard, log, tag, saved, FailedRun(r), mem.pending, disk.pending);
    }

    /** What the last two phases of an up-to-date run ask of what was found. */
    ghost predicate Finishes(app: Known, pending: Tag, required: seq<Role>)
      reads `grants
    {
      if app.principal.None? then pending != ServicePrincipal
      else !Missing(pending, required, app.principal.value)
    }

    /** What an up-to-date run asks of what it found. */
    ghost predicate Passes(found: Known, key: Id, pending: Tag, required: seq<Role>)
      requires found.id.Some?
      reads `apps, `grants
    {
      && found.id.value in apps && apps[found.id.value].key == key
      && Finishes(found, pending, required)
    }

    /** The three phases in their order. */
    method Proceed(found: Option<Known>, key: Id, pending: Tag, required: seq<Role>) returns (r: Outcome)
      requires Inv() && pending == mem.pending
      requires found.Some? ==> Sighted(found.value) && Agrees(mem, found.value)
      requires found.None? ==> Recorded(mem.entries, AppKind).None? && pending != Application
      requires steady && found.Some? ==>
                 && found.value.id.value in apps
                 && (found.value.principal.Some? ==> Exists(found.value.principal.value))
                 && (found.value.principal.None? ==> PrincipalFor(found.value.client.value).None?)
      modifies `mem, `disk, `killed, `apps, `principals, `grants, `ever, `clientOf, `next,
               `madeApps, `madePrincipals, `log
      ensures Inv() && old(madeApps) <= madeApps && old(madePrincipals) <= madePrincipals && old(ever) <= ever
      ensures Went(old(log), log, FailedRun(r), mem.pending, disk.pending)
      ensures r.Registered? ==> Sighted(r.app) && KnownOf(mem) == r.app && r.app.principal.Some?
      ensures r.Registered? ==> forall role | role in required :: (r.app.principal.value, role) in ever
      ensures r.Registered? || r == Stopped(Rejected) ==> Settled()
      ensures r.Registered? ==> madeApps[0].app.key == key
      ensures steady && r.Registered? ==> forall role | role in required :: (r.app.principal.value, role) in grants
      ensures steady && found.None? ==> r.Registered?
      ensures steady && found.Some? ==> (r.Registered? <==> old(Passes(found.value, key, pending, required)))
      ensures steady && r.Stopped? && found.Some? && found.value.principal.Some? && old(Holding(found.value, key)) ==>
                && apps == old(apps) && principals == old(principals)
                && if old(Overtaken(pending, required, found.value.principal.value))
                   then Settled() && KnownOf(mem) == found.value
                   else pending.Permission? ==> mem == old(mem) && disk == old(disk) && grants == old(grants)
      ensures steady && r.Stopped? && old(AllHold(key)) ==> r == Stopped(Unclear)
      ensures steady && r.Registered? ==> (Intact(mem, key) <==> old(NoStranger()))
    {
      hide Shows, TiedTo, NoStranger, Intact, Recorded, Went, Overtaken;
      StrangerIsTheirs(found);
      var step := EnsureApplication(found, key, pending);
      if step.Halt? {
        return Stopped(step.why);
      }
      ghost var heard, tag, saved := log, mem.pending, disk.pending;
      r := Complete(step.app, pending, required);
      WentOn(old(log), heard, log, tag, saved, FailedRun(r), mem.pending, disk.pending);
      if r.Registered? && steady {
        IntactExactly(r.app, key, old(NoStranger()));
      }
    }

    /** The application found holds this key. */
    ghost predicate Holding(found: Known, key: Id)
      reads `apps
    {
      found.id.Some? && found.id.value in apps && apps[found.id.value].key == key
    }

    ghost predicate AllHold(key: Id)
      reads `apps
    {
      forall a | a in apps :: apps[a].key == key
    }

    /** The recorded objects are there, and what exists holds this host's key. */
    ghost predicate Intact(j: Journal, key: Id)
      reads `apps, `principals
    {
      (KnownOf(j).id.Some? ==> RecordedThere(KnownOf(j))) && AllHold(key)
    }

    /** The one application is the only one somebody could have added a principal for. */
    lemma {:induction false} StrangerIsTheirs(found: Option<Known>)
      requires Inv() && (found.Some? ==> Sighted(found.value))
      requires found.None? ==> Recorded(mem.entries, AppKind).None? && mem.pending != Application
      ensures found.Some? && found.value.id.value in apps ==> (NoStranger() <==> Marked(found.value.client.value))
      ensures found.None? ==> NoStranger()
    {
    }

    /** A complete record is one that the next run accepts exactly when the recorded principal carries the marker. */
    lemma {:induction false} IntactExactly(app: Known, key: Id, marked: bool)
      requires Inv() && Sighted(app) && KnownOf(mem) == app && Holds(app, marked)
      requires app.id.value in apps && madeApps[0].app.key == key
      ensures Intact(mem, key) <==> marked
    {
      assert forall a | a in apps :: MadeApp(a, apps[a]) == madeApps[0];
    }

    /** The object the pending tag names exists. */
    ghost predicate PendingThere(j: Journal, required: seq<Role>)
      reads `apps, `principals, `grants
    {
      match j.pending
      case NoTag => true
      case Application => apps != map[]
      case ServicePrincipal => j.client.Some? && PrincipalFor(j.client.value).Some?
      case Permission(role) =>
        var principal := Recorded(j.entries, PrincipalKind);
        role in required ==> principal.Some? && (principal.value, role) in grants
    }

    /** The checks an up-to-date run makes amount to: everything recorded, and what the tag names, is there. */
    lemma {:induction false} ChecksAreExact(key: Id, required: seq<Role>)
      requires Inv()
      ensures var seen := Expected(KnownOf(mem));
              Intact(mem, key) && PendingThere(mem, required)
              <==> (match seen
                    case Unread => false
                    case Nothing => mem.pending != Application
                    case Seen(app) => Passes(app, key, mem.pending, required))
    {
      var seen := Expected(KnownOf(mem));
      if seen.Seen? {
        var id := seen.value.id.value;
        if apps != map[] {
          var a :| a in apps;
          assert MadeApp(a, apps[a]) in madeApps;
        }
        assert id in apps ==> MadeApp(id, apps[id]) == madeApps[0];
        assert forall a | a in apps :: MadeApp(a, apps[a]) == madeApps[0];
      }
    }

    /** What an up-to-date run sees is there, and it sees nothing readable exactly when the record is not intact. */
    lemma {:induction false} SeenIsThere(key: Id)
      requires Inv()
      ensures var seen := Expected(KnownOf(mem));
              && (seen.Seen? ==>
                    && seen.value.id.Some? && seen.value.id.value in apps && seen.value.client.Some?
                    && (seen.value.principal.Some? ==> Exists(seen.value.principal.value))
                    && (seen.value.principal.None? ==> PrincipalFor(seen.value.client.value).None?))
              && (seen.Unread? <==> KnownOf(mem).id.Some? && !RecordedThere(KnownOf(mem)))
              && (Intact(mem, key) ==> AllHold(key) && !seen.Unread?)
    {
      assert forall a | a in apps :: MadeApp(a, apps[a]) in madeApps;
    }

    /**
     * EnsureInstaller. A run that reports success leaves a complete durable record. When the directory is up to date
     * and accepts requests it succeeds exactly when the recorded objects are intact and the object its pending tag
     * names exists, and then every required grant is present. The record it leaves is intact for the next run exactly
     * when no principal was there that somebody else had added; without an intact record a run changes nothing.
     */
    method EnsureInstaller(key: Id, required: seq<Role>, known: Known, pending: Tag) returns (r: Outcome)
      requires Inv() && known == KnownOf(mem) && pending == mem.pending
      modifies `mem, `disk, `killed, `apps, `principals, `grants, `ever, `clientOf, `next,
               `madeApps, `madePrincipals, `log
      ensures Inv() && old(madeApps) <= madeApps && old(madePrincipals) <= madePrincipals && old(ever) <= ever
      ensures Went(old(log), log, FailedRun(r), mem.pending, disk.pending)
      ensures r.Registered? ==> Sighted(r.app) && KnownOf(mem) == r.app && r.app.principal.Some?
      ensures r.Registered? ==> forall role | role in required :: (r.app.principal.value, role) in ever
      ensures r.Registered? || r == Stopped(Rejected) ==> Settled()
      ensures r.Registered? ==> madeApps[0].app.key == key
      ensures steady && r.Registered? ==> forall role | role in required :: (r.app.principal.value, role) in grants
      ensures steady ==> (r.Registered? <==> old(Intact(mem, key) && PendingThere(mem, required)))
      ensures steady && old(Intact(mem, key)) ==> r.Registered? || r == Stopped(Unclear)
      ensures steady && r.Registered? ==> (Intact(mem, key) <==> old(NoStranger()))
      ensures steady && old(Locked()) ==> r == Stopped(Error) && Locked() && mem == old(mem) && disk == old(disk)
      ensures steady && r.Stopped? && old(Intact(mem, key) && mem.pending.Permission?) ==>
                && Intact(mem, key) && apps == old(apps) && principals == old(principals)
                && if old(Overtakes(mem, required)) then Settled()
                   else mem == old(mem) && disk == old(disk) && grants == old(grants)
    {
      hide Shows, TiedTo, Expected, RecordedThere, Intact, PendingThere, Finishes, NoStranger, AllHold, Recorded, Went,
           Overtaken, Holding, Inv, Told, Agrees;
      ChecksAreExact(key, required);
      SeenIsThere(key);
      WithPermission(key);
      assert log + [] == log;
      ghost var before := mem;
      var seen := Look(known);
      WentWrong(old(log), Unheard, mem.pending, disk.pending);
      WentNowhere(log, Some(Unclear), mem.pending, disk.pending);
      var rolesKnown: bool := *;
      if seen.Unread? {
        return Stopped(Error);
      }
      if pending == Application && seen.Nothing? {
        return Stopped(Unclear);
      }
      if !rolesKnown && !steady {
        log := log + [Unheard];
        return Stopped(Error);
      }
      r := Proceed(if seen.Seen? then Some(seen.value) else None, key, pending, required);
      if KnownOf(mem) == known {
        OnlyKnownMatters(before, mem, key);
      }
    }

    /** A record with a permission's tag names the principal, and what an up-to-date run sees is what it names. */
    lemma {:induction false} WithPermission(key: Id)
      requires Inv()
      ensures Intact(mem, key) && mem.pending.Permission? ==>
                && var seen := Expected(KnownOf(mem));
                && seen.Seen? && seen.value.principal.Some? && Holding(seen.value, key)
                && seen.value == KnownOf(mem)
    {
      assert forall a | a in apps :: MadeApp(a, apps[a]) in madeApps;
    }

    /** The journal's tag names a required role, and one before it in the list is not granted. */
    ghost predicate Overtakes(j: Journal, required: seq<Role>)
      reads `grants
    {
      var principal := Recorded(j.entries, PrincipalKind);
      principal.Some? && Overtaken(j.pending, required, principal.value)
    }

    /** Something recorded is not there, or not as recorded. */
    ghost predicate Locked()
      reads `mem, `apps, `principals
    {
      KnownOf(mem).id.Some? && !RecordedThere(KnownOf(mem))
    }

    // --- runs ------------------------------------------------------------

    /** The session rebuilds what is known from the record: the last identifier of each kind wins. */
    method RebuildKnown() returns (known: Known)
      ensures known == KnownOf(mem)
    {
      known := Known(None, mem.client, None);
      for i := 0 to |mem.entries|
        invariant known.client == mem.client
        invariant known.id == Recorded(mem.entries[..i], AppKind)
        invariant known.principal == Recorded(mem.entries[..i], PrincipalKind)
      {
        TakeStep(mem.entries, i);
        match mem.entries[i].kind {
          case AppKind => known := known.(id := Some(mem.entries[i].id));
          case PrincipalKind => known := known.(principal := Some(mem.entries[i].id));
        }
      }
      assert mem.entries[..|mem.entries|] == mem.entries;
    }

    /** One registration by the running process, and the checkpoint the session makes after it. */
    method Register(key: Id, required: seq<Role>) returns (r: Outcome)
      requires Inv()
      modifies `mem, `disk, `killed, `apps, `principals, `grants, `ever, `clientOf, `next,
               `madeApps, `madePrincipals, `log
      ensures Inv() && old(madeApps) <= madeApps && old(madePrincipals) <= madePrincipals && old(ever) <= ever
      ensures Went(old(log), log, FailedRun(r), mem.pending, disk.pending)
      ensures r.Registered? ==> Sighted(r.app) && KnownOf(disk) == r.app && r.app.principal.Some?
      ensures r.Registered? ==> forall role | role in required :: (r.app.principal.value, role) in ever
      ensures r.Registered? || r == Stopped(Rejected) ==> Settled()
      ensures r.Registered? ==> madeApps[0].app.key == key
      ensures steady ==> (r.Registered? <==> old(Intact(mem, key) && PendingThere(mem, required)))
      ensures steady && old(Intact(mem, key)) ==> r.Registered? || r == Stopped(Unclear)
      ensures steady && r.Registered? ==> forall role | role in required :: (r.app.principal.value, role) in grants
      ensures steady && r.Registered? ==> (Intact(disk, key) <==> old(NoStranger()))
      ensures steady && old(Locked()) ==> r == Stopped(Error) && Locked() && mem == old(mem) && disk == old(disk)
      ensures steady && r.Stopped? && old(Intact(mem, key) && mem.pending.Permission?) ==>
                && Intact(mem, key) && apps == old(apps) && principals == old(principals)
                && if old(Overtakes(mem, required)) then Settled()
                   else mem == old(mem) && disk == old(disk) && grants == old(grants)
    {
      hide Inv, TiedTo, Shows, Intact, NoStranger, Locked, Recorded, Went, Overtakes;
      var known := RebuildKnown();
      r := EnsureInstaller(key, required, known, mem.pending);
      if r.Registered? {
        ghost var complete, heard, saved := mem, log, disk.pending;
        assert log + [] == log;
        var ok := Mark(NoTag, r.app);
        OnlyKnownMatters(complete, mem, key);
        MarkedAfter(old(log), heard, complete.pending, saved, ok, mem.pending, disk.pending);
        if !ok {
          r := Stopped(Error);
        }
      }
    }

    /**
     * Whether a registration can be resumed. When it has succeeded in a directory that stays up to date, every later
     * run with the same key succeeds if the principal that was there before it carried the marker, or there was none;
     * and otherwise every later run stops with an error, though nothing fails and nothing is pending.
     */
    method RegisterAndResume(key: Id, required: seq<Role>, later: seq<seq<Role>>)
      returns (first: Outcome, resumed: seq<Outcome>)
      requires Inv() && steady
      modifies `mem, `disk, `killed, `apps, `principals, `grants, `ever, `clientOf, `next,
               `madeApps, `madePrincipals, `log
      ensures Inv() && (first.Registered? <==> old(Intact(mem, key) && PendingThere(mem, required)))
      ensures first.Registered? ==> |resumed| == |later| && Settled()
      ensures first.Registered? && old(NoStranger()) ==> forall r | r in resumed :: r.Registered?
      ensures first.Registered? && !old(NoStranger()) ==> forall r | r in resumed :: r == Stopped(Error)
    {
      hide Inv, TiedTo, Shows, Intact, NoStranger, Locked, Recorded, PendingThere;
      resumed := [];
      first := Register(key, required);
      if first.Registered? {
        ghost var theirs := !old(NoStranger());
        StrangerLocks(first.app, key);
        for i := 0 to |later|
          invariant Inv() && steady && |resumed| == i && Settled()
          invariant if theirs then Locked() else Intact(mem, key) && NoStranger()
          invariant forall r | r in resumed :: if theirs then r == Stopped(Error) else r.Registered?
        {
          NothingIsPending(later[i]);
          var r := Register(key, later[i]);
          resumed := resumed + [r];
          if r.Registered? {
            StrangerLocks(r.app, key);
          }
          SteadyIsAlive();
        }
      }
    }

    /**
     * Whether a permission request without an answer is made again. An up-to-date run that does not find the grant
     * stops as unclear. The next one then stops too, unless a role before that one in the list was missing: the tag
     * of the earlier role has replaced the other, and the run after it asks again, though nothing showed that the
     * request had failed.
     */
    method RunAgain(key: Id, required: seq<Role>) returns (first: Outcome, second: Outcome)
      requires Inv() && steady && Intact(mem, key) && mem.pending.Permission?
      modifies `mem, `disk, `killed, `apps, `principals, `grants, `ever, `clientOf, `next,
               `madeApps, `madePrincipals, `log
      ensures Inv() && (first.Registered? <==> old(PendingThere(mem, required)))
      ensures first.Stopped? ==> first == Stopped(Unclear)
      ensures first.Stopped? && !old(Overtakes(mem, required)) ==> second == Stopped(Unclear)
      ensures first.Stopped? && old(Overtakes(mem, required)) ==> second.Registered?
    {
      hide Inv, TiedTo, Shows, Intact, NoStranger, Locked, Recorded, Went, Overtakes, PendingThere;
      first := Register(key, required);
      if mem.pending == NoTag {
        NothingIsPending(required);
      }
      second := Register(key, required);
    }

    lemma {:induction false} SteadyIsAlive()
      requires Inv() && steady
      ensures !killed
    {
    }

    lemma {:induction false} OnlyKnownMatters(j: Journal, k: Journal, key: Id)
      requires KnownOf(j) == KnownOf(k)
      ensures Intact(j, key) == Intact(k, key)
    {
    }

    lemma {:induction false} NothingIsPending(required: seq<Role>)
      requires mem.pending == NoTag
      ensures PendingThere(mem, required)
    {
    }

    /** A complete record that is not intact is locked; one that is has a principal with the marker. */
    lemma {:induction false} StrangerLocks(app: Known, key: Id)
      requires Inv() && Sighted(app) && KnownOf(mem) == app && app.principal.Some? && madeApps[0].app.key == key
      ensures if Intact(mem, key) then NoStranger() else Locked()
    {
      assert forall a | a in apps :: MadeApp(a, apps[a]) in madeApps;
    }

    /** A new process starts from the durable record. */
    method Begin()
      requires Inv()
      modifies `mem, `killed
      ensures Inv() && mem == disk && !killed
    {
      mem, killed := disk, false;
    }

    /** From now on nothing fails, or things may fail again. A killed process has to be restarted first. */
    method Settle(settles: bool)
      requires Inv()
      modifies `steady
      ensures Inv() && steady == (settles && !killed)
    {
      steady := settles && !killed;
    }

    /** Everything that can happen to a deployment, in any order and any number of times. */
    method Lifetime(events: seq<Event>)
      requires Inv()
      modifies this
      ensures Inv() && old(madeApps) <= madeApps && old(madePrincipals) <= madePrincipals
      ensures |madeApps| <= 1 && |madePrincipals| <= 1
    {
      hide Inv, TiedTo, Shows;
      for i := 0 to |events|
        invariant Inv() && old(madeApps) <= madeApps && old(madePrincipals) <= madePrincipals
      {
        match events[i] {
          case Run(key, required) => var _ := Register(key, required);
          case Restart => Begin();
          case Flush => var _ := Save();
          case Elsewhere => Outside();
          case Weather(settles) => Settle(settles);
        }
      }
      AtMostOne();
    }

    lemma {:induction false} AtMostOne()
      requires Inv()
      ensures |madeApps| <= 1 && |madePrincipals| <= 1
    {
    }
  }

  /**
   * A run dies after it created the application, and another administrator adds a principal for it. From then on
   * nothing fails: the next run adopts that principal and reports success, and no later run ever does.
   */
  method StrangerExample(key: Id, required: seq<Role>, later: seq<seq<Role>>)
    returns (first: Outcome, resumed: seq<Outcome>)
    ensures first.Registered? && |resumed| == |later|
    ensures forall r | r in resumed :: r == Stopped(Error)
  {
    hide Deployment.Inv, TiedTo, Shows;
    var d := new Deployment.Interrupted(key);
    d.Stranger(1);
    d.Settle(true);
    assert Recorded([], AppKind).None? && 0 in d.apps && !d.Marked(d.apps[0].client);
    first, resumed := d.RegisterAndResume(key, required, later);
  }

  /**
   * A request for one role got no answer, and then an earlier one was taken away by another administrator. The next
   * run stops as unclear about the one without an answer, and the run after it makes that request again.
   */
  method AskedAgainExample(key: Id, earlier: Role, asked: Role) returns (first: Outcome, second: Outcome)
    requires earlier != asked
    ensures first == Stopped(Unclear) && second.Registered?
  {
    hide Deployment.Inv, TiedTo, Shows;
    var d := new Deployment.Unanswered(key, asked);
    d.Settle(true);
    var required := [earlier, asked];
    RecordedOfTwo(0, 2);
    assert required[..1] == [earlier] && earlier in required[..1] && asked in required;
    assert Gap(d.grants, required[..1], 2);
    first, second := d.RunAgain(key, required);
  }

  lemma {:induction false} RecordedOfTwo(a: Id, p: Id)
    ensures Recorded([Entry(AppKind, a), Entry(PrincipalKind, p)], AppKind) == Some(a)
    ensures Recorded([Entry(AppKind, a), Entry(PrincipalKind, p)], PrincipalKind) == Some(p)
  {
    var entries := [Entry(AppKind, a), Entry(PrincipalKind, p)];
    assert entries[..1] == [Entry(AppKind, a)];
  }
}
