/**
 * The local recordings: Scan in internal/recording/recording.go and cleanUp in internal/recording/cleanup.go. The
 * oldest completed recordings are deleted until local usage fits the budget.
 */
module Spooling {
  import opened Text
  import opened Ordering
  import opened Manifests
  import opened Sorting

  datatype Recording = Recording(name: string, size: nat, time: int, active: bool)

  // --- Scan --------------------------------------------------------------

  /** Earlier modification first, then the smaller name. */
  predicate Older(a: Recording, b: Recording) {
    a.time < b.time || (a.time == b.time && Before(a.name, b.name))
  }

  predicate OldestFirst(q: seq<Recording>) {
    forall i, j | 0 <= i < j < |q| :: Older(q[i], q[j])
  }

  /** One file: what it holds, its time, and the identity by which open files are known, if there is one. */
  datatype File = File(bytes: Bytes, time: int, id: Option<(nat, nat)>)

  /** A file of unknown identity counts as active. */
  function Seen(name: string, f: File, held: set<(nat, nat)>): Recording {
    Recording(name, |f.bytes|, f.time, f.id.None? || f.id.value in held)
  }

  predicate Visible(name: string) {
    name == [] || name[0] != '.'
  }

  /** The recordings of the visible files. */
  ghost function Shown(files: map<string, File>, held: set<(nat, nat)>): set<Recording> {
    set n | n in files && Visible(n) :: Seen(n, files[n], held)
  }

  /**
   * What a scan shows: every file whose name does not begin with a dot, with its size and time; active when its
   * identity is not known or some process holds it open.
   */
  lemma {:induction false} ShownExactly(files: map<string, File>, held: set<(nat, nat)>, r: Recording)
    ensures r in Shown(files, held) <==>
              && r.name in files && !(r.name != [] && r.name[0] == '.')
              && r.size == |files[r.name].bytes| && r.time == files[r.name].time
              && (r.active <==> files[r.name].id.Some? ==> files[r.name].id.value in held)
  {
    if r in Shown(files, held) {
      var n :| n in files && Visible(n) && r == Seen(n, files[n], held);
      assert r.name == n;
    }
    if r.name in files {
      assert Visible(r.name) ==> Seen(r.name, files[r.name], held) in Shown(files, held);
    }
  }

  /** Nothing new, nothing different. */
  ghost predicate Shrunk(before: map<string, File>, after: map<string, File>) {
    forall n | n in after :: n in before && after[n] == before[n]
  }

  function SortOldest(q: seq<Recording>): seq<Recording> {
    Sort(Older, q)
  }

  ghost predicate DistinctNames(q: seq<Recording>) {
    forall i, j | 0 <= i < j < |q| :: q[i].name != q[j].name
  }

  lemma {:induction false} OlderIsTotal(a: Recording, b: Recording, c: Recording)
    ensures !(Older(a, b) && Older(b, a)) && (a.name != b.name ==> Older(a, b) || Older(b, a))
    ensures Older(a, b) && Older(b, c) ==> Older(a, c)
  {
    BeforeIsStrict(a.name, b.name);
    if Before(a.name, b.name) && Before(b.name, c.name) {
      BeforeIsTransitive(a.name, b.name, c.name);
    }
  }

  lemma {:induction false} SortOldestSorts(q: seq<Recording>)
    requires DistinctNames(q)
    ensures OldestFirst(SortOldest(q)) && forall x :: x in SortOldest(q) <==> x in q
  {
    hide Older;
    forall a, b, c | Older(a, b) && Older(b, c)
      ensures Older(a, c)
    {
      OlderIsTotal(a, b, c);
    }
    forall i, j | 0 <= i < j < |q|
      ensures Older(q[i], q[j]) || Older(q[j], q[i])
    {
      OlderIsTotal(q[i], q[j], q[j]);
    }
    SortOrders(Older, q);
  }

  lemma {:induction false} SortedNames(q: seq<Recording>)
    requires DistinctNames(q) && OldestFirst(SortOldest(q)) && forall x :: x in SortOldest(q) <==> x in q
    ensures DistinctNames(SortOldest(q))
  {
    var s := SortOldest(q);
    forall i, j | 0 <= i < j < |s|
      ensures s[i].name != s[j].name
    {
      OlderIsTotal(s[i], s[j], s[j]);
      assert s[i] in q && s[j] in q;
    }
  }

  // --- cleanUp -----------------------------------------------------------

  function Completed(q: seq<Recording>): (r: seq<Recording>)
    ensures forall x :: x in r <==> x in q && !x.active
  {
    if q == [] then []
    else
      assert q == [q[0]] + q[1..];
      if q[0].active then Completed(q[1..]) else [q[0]] + Completed(q[1..])
  }

  function Total(q: seq<Recording>): nat {
    if q == [] then 0 else q[0].size + Total(q[1..])
  }

  /** How many of the oldest go before the rest fits the budget, or there is no rest. */
  function Cut(q: seq<Recording>, used: int, budget: int): (n: nat)
    ensures n <= |q|
  {
    if q == [] || used <= budget then 0 else 1 + Cut(q[1..], used - q[0].size, budget)
  }

  /** The cut fits the budget or takes everything, and no shorter one fits. */
  lemma {:induction false} CutIsShortest(q: seq<Recording>, used: int, budget: int, j: nat)
    ensures var n := Cut(q, used, budget);
            && (used - Total(q[..n]) <= budget || n == |q|)
            && (j < n ==> used - Total(q[..j]) > budget)
  {
    if q != [] && used > budget {
      var n := Cut(q, used, budget);
      CutIsShortest(q[1..], used - q[0].size, budget, if j == 0 then 0 else j - 1);
      TotalOfTake(q, n);
      if 0 < j < n {
        TotalOfTake(q, j);
      }
    }
  }

  lemma {:induction false} TotalOfTake(q: seq<Recording>, n: nat)
    requires 0 < n <= |q|
    ensures Total(q[..n]) == q[0].size + Total(q[1..][..n - 1])
  {
    assert q[..n][1..] == q[1..][..n - 1];
  }

  lemma {:induction false} TotalOfAppend(q: seq<Recording>, x: Recording)
    ensures Total(q + [x]) == Total(q) + x.size
  {
    if q == [] {
      assert q + [x] == [x];
      assert [x][1..] == [];
    } else {
      TotalOfAppend(q[1..], x);
      assert (q + [x])[1..] == q[1..] + [x];
    }
  }

  /** The names of the completed recordings. */
  ghost function NamesDone(recs: seq<Recording>): set<string> {
    set r | r in recs && !r.active :: r.name
  }

  /** What is listed are visible files of the directory. */
  ghost predicate Listed(q: seq<Recording>, files: map<string, File>, held: set<(nat, nat)>) {
    forall r | r in q :: r.name in files && Visible(r.name) && r == Seen(r.name, files[r.name], held)
  }

  lemma {:induction false} OneMoreListed(q: seq<Recording>, files: map<string, File>, held: set<(nat, nat)>,
                                         name: string)
    requires Listed(q, files, held) && name in files && Visible(name)
    requires DistinctNames(q) && forall r | r in q :: r.name != name
    ensures Listed(q + [Seen(name, files[name], held)], files, held)
    ensures DistinctNames(q + [Seen(name, files[name], held)])
    ensures Seen(name, files[name], held).name == name
  {
  }

  lemma {:induction false} ListedIsShown(q: seq<Recording>, files: map<string, File>, held: set<(nat, nat)>)
    requires Listed(q, files, held)
    ensures Elements(q) <= Shown(files, held)
  {
  }

  datatype Removal = Gone | NotThere | NotRemoved

  /** The local recordings directory. `steady` says that no file goes away by itself and nothing fails. */
  class Spool {
    var files: map<string, File>
    var steady: bool
    ghost var failures: nat   // how many system calls have failed

    constructor (files: map<string, File>)
      ensures this.files == files && !steady
    {
      this.files, steady, failures := files, false, 0;
    }

    /** Reading the directory. */
    method Open() returns (ok: bool)
      modifies `failures
      ensures (steady ==> ok) && failures == old(failures) + if ok then 0 else 1
    {
      ok := *;
      ok := ok || steady;
      failures := failures + if ok then 0 else 1;
    }

    /**
     * Scan. When open files cannot be told, nothing is scanned; one that goes away meanwhile is left out; and every
     * visible file that is still there is listed, oldest first.
     */
    method Scan(held: Option<set<(nat, nat)>>) returns (recs: Option<seq<Recording>>)
      modifies `files, `failures
      ensures recs.Some? <==> held.Some? && failures == old(failures)
      ensures failures == old(failures) + if recs.Some? || held.None? then 0 else 1
      ensures Shrunk(old(files), files) && (steady || held.None? ==> files == old(files))
      ensures held.None? ==> recs.None?
      ensures steady && held.Some? ==> recs.Some?
      ensures recs.Some? ==> OldestFirst(recs.value) && DistinctNames(recs.value)
      ensures recs.Some? ==>
                Shown(files, held.value) <= Elements(recs.value) <= Shown(old(files), held.value)
    {
      hide OldestFirst, Seen, Visible;
      if held.None? {
        return None;
      }
      var readable := Open();
      if !readable {
        return None;
      }
      var q: seq<Recording>, left := [], files.Keys;
      while left != {}
        invariant failures == old(failures)
        invariant left <= old(files).Keys && Shrunk(old(files), files) && (steady ==> files == old(files))
        invariant DistinctNames(q) && forall r | r in q :: r.name !in left
        invariant Listed(q, old(files), held.value)
        invariant forall n | n in files && Visible(n) && n !in left :: Seen(n, files[n], held.value) in q
        decreases left
      {
        var name :| name in left;
        var vanished: bool := *;
        if vanished && !steady {
          files := files - {name};
        }
        left := left - {name};
        if name in files && Visible(name) {
          OneMoreListed(q, old(files), held.value, name);
          q := q + [Seen(name, files[name], held.value)];
        }
      }
      SortOldestSorts(q);
      SortedNames(q);
      ListedIsShown(q, old(files), held.value);
      return Some(SortOldest(q));
    }

    method Remove(name: string) returns (r: Removal)
      modifies `files, `failures
      ensures failures == old(failures) + if r.NotRemoved? then 1 else 0
      ensures files == if r.NotRemoved? then old(files) else old(files) - {name}
      ensures r.Gone? ==> name in old(files)
      ensures steady && name in old(files) ==> r.Gone?
    {
      var works: bool, vanished: bool := *, *;
      if name !in files || (vanished && !steady) {
        files := files - {name};
        return NotThere;
      }
      if !works && !steady {
        failures := failures + 1;
        return NotRemoved;
      }
      files := files - {name};
      return Gone;
    }

    /**
     * Deletes the oldest completed recordings until the rest fits. Active ones count and stay. One that went away by
     * itself is passed over and still counts; the first removal that fails ends the run.
     */
    method CleanUp(recs: seq<Recording>, backedUp: set<string>, usedBefore: int, budget: int)
      returns (deleted: seq<Recording>, lost: seq<Recording>, usedAfter: int, ok: bool)
      requires DistinctNames(recs)
      modifies `files, `failures
      ensures (ok <==> failures == old(failures)) && old(failures) <= failures <= old(failures) + 1
      ensures usedAfter + Total(deleted) == usedBefore && lost == Unbacked(deleted, backedUp)
      ensures Erased(recs, deleted, files.Keys) && Shrunk(old(files), files)
      ensures old(files).Keys - files.Keys <= NamesDone(recs)
      ensures budget <= 0 ==> deleted == [] && files == old(files)
      ensures ok && budget > 0 && steady && AllThere(recs, old(files).Keys) ==>
                var done := Completed(recs);
                deleted == done[..Cut(done, usedBefore, budget)]
      ensures steady && AllThere(recs, old(files).Keys) ==> ok && files == old(files) - NamesIn(deleted)
    {
      NamesInNone(files);
      hide NamesIn, Shrunk, Spared, Cutting, Cut, Completed, Erased, Unbacked, DistinctNames, AllThere, Total;
      hide NamesDone;
      deleted, lost, usedAfter, ok := [], [], usedBefore, true;
      NothingErased(recs, files.Keys, backedUp);
      assert Total(deleted) == 0 by {
        TotalOfNone();
      }
      if budget <= 0 {
        return;
      }
      ghost var goal := Completed(recs)[..Cut(Completed(recs), usedBefore, budget)];
      ghost var present := AllThere(recs, files.Keys);
      CuttingStarts(recs, usedBefore, budget);
      SparedAtFirst(recs, files.Keys);
      var i := 0;
      while i < |recs| && usedAfter > budget
        invariant 0 <= i <= |recs| && ok && failures == old(failures)
        invariant usedAfter + Total(deleted) == usedBefore && lost == Unbacked(deleted, backedUp)
        invariant Erased(recs, deleted, files.Keys) && Spared(recs, i, old(files).Keys, files.Keys)
        invariant Shrunk(old(files), files)
        invariant steady && present ==> files == old(files) - NamesIn(deleted)
        invariant steady && present ==> Cutting(goal, deleted, recs[i..], usedAfter, budget)
      {
        var r := recs[i];
        SparedMore(recs, i, old(files).Keys, files.Keys);
        CuttingMoves(goal, deleted, recs, i, usedAfter, budget);
        if !r.active {
          ErasedMore(recs, deleted, files.Keys, r, backedUp);
          KeysWithout(old(files), files, r.name);
          var removal := Remove(r.name);
          match removal {
            case NotRemoved =>
              ok := false;
              SparedInAll(recs, i, old(files).Keys, files.Keys);
              return;
            case NotThere =>
            case Gone =>
              TotalOfAppend(deleted, r);
              NamesInMore(old(files), deleted, r);
              usedAfter, deleted := usedAfter - r.size, deleted + [r];
              if r.name !in backedUp {
                lost := lost + [r];
              }
          }
        }
        i := i + 1;
      }
      SparedInAll(recs, i, old(files).Keys, files.Keys);
      CuttingEnds(goal, deleted, recs, i, usedAfter, budget);
    }
  }

  /** Only completed recordings are deleted, and they are gone. */
  ghost predicate Erased(recs: seq<Recording>, deleted: seq<Recording>, files: set<string>) {
    forall r | r in deleted :: r in recs && !r.active && r.name !in files
  }

  lemma {:induction false} KeysWithout(before: map<string, File>, files: map<string, File>, name: string)
    requires Shrunk(before, files)
    ensures (files - {name}).Keys == files.Keys - {name} && Shrunk(before, files - {name})
  {
  }

  lemma {:induction false} NamesInMore(files: map<string, File>, deleted: seq<Recording>, r: Recording)
    ensures files - NamesIn(deleted + [r]) == files - NamesIn(deleted) - {r.name}
  {
    assert NamesIn(deleted + [r]) == NamesIn(deleted) + {r.name};
  }

  lemma {:induction false} NamesInNone(files: map<string, File>)
    ensures files - NamesIn([]) == files && Shrunk(files, files)
  {
  }

  /** The deleted recordings without a confirmed copy. */
  function Unbacked(deleted: seq<Recording>, backedUp: set<string>): (lost: seq<Recording>)
    ensures forall r :: r in lost <==> r in deleted && r.name !in backedUp
  {
    if deleted == [] then []
    else
      var front, r := deleted[..|deleted| - 1], deleted[|deleted| - 1];
      assert deleted == front + [r];
      if r.name in backedUp then Unbacked(front, backedUp) else Unbacked(front, backedUp) + [r]
  }

  lemma {:induction false} NothingErased(recs: seq<Recording>, files: set<string>, backedUp: set<string>)
    ensures Erased(recs, [], files) && Unbacked([], backedUp) == []
  {
  }

  lemma {:induction false} ErasedMore(recs: seq<Recording>, deleted: seq<Recording>, files: set<string>, r: Recording,
                                      backedUp: set<string>)
    requires Erased(recs, deleted, files) && r in recs && !r.active
    ensures Erased(recs, deleted, files - {r.name}) && Erased(recs, deleted + [r], files - {r.name})
    ensures Unbacked(deleted + [r], backedUp)
            == if r.name in backedUp then Unbacked(deleted, backedUp) else Unbacked(deleted, backedUp) + [r]
  {
    assert (deleted + [r])[..|deleted|] == deleted;
  }

  /** Only completed recordings that were looked at are gone. */
  ghost predicate Spared(recs: seq<Recording>, i: nat, before: set<string>, files: set<string>)
    requires i <= |recs|
  {
    before - files <= NamesDone(recs[..i])
  }

  lemma {:induction false} SparedAtFirst(recs: seq<Recording>, files: set<string>)
    ensures Spared(recs, 0, files, files)
  {
  }

  ghost function NamesIn(recs: seq<Recording>): set<string> {
    set r | r in recs :: r.name
  }

  ghost predicate AllThere(recs: seq<Recording>, files: set<string>) {
    forall r | r in recs :: r.name in files
  }

  lemma {:induction false} TotalOfNone()
    ensures Total([]) == 0
  {
  }

  lemma {:induction false} SparedMore(recs: seq<Recording>, i: nat, before: set<string>, files: set<string>)
    requires i < |recs| && DistinctNames(recs) && Spared(recs, i, before, files)
    ensures recs[i] in recs && (AllThere(recs, before) ==> recs[i].name in files)
    ensures Spared(recs, i + 1, before, files)
    ensures !recs[i].active ==> Spared(recs, i + 1, before, files - {recs[i].name})
  {
    TakeStep(recs, i);
    assert forall r :: r in recs[..i + 1] <==> r in recs[..i] || r == recs[i];
    assert forall r | r in recs[..i] :: r.name != recs[i].name;
    assert recs[i].name !in NamesDone(recs[..i]);
    assert recs[i].name !in before - files;
  }

  lemma {:induction false} SparedInAll(recs: seq<Recording>, i: nat, before: set<string>, files: set<string>)
    requires i <= |recs| && Spared(recs, i, before, files)
    ensures before - files <= NamesDone(recs)
  {
    assert forall r | r in recs[..i] :: r in recs;
  }

  /** What is deleted so far, and the cut of the rest, make up the cut of the whole. */
  ghost predicate Cutting(goal: seq<Recording>, deleted: seq<Recording>, rest: seq<Recording>, used: int, budget: int) {
    var left := Completed(rest);
    deleted + left[..Cut(left, used, budget)] == goal
  }

  lemma {:induction false} CuttingStarts(recs: seq<Recording>, used: int, budget: int)
    ensures Cutting(Completed(recs)[..Cut(Completed(recs), used, budget)], [], recs[0..], used, budget)
  {
    assert recs[0..] == recs;
  }

  lemma {:induction false} CuttingEnds(goal: seq<Recording>, deleted: seq<Recording>, recs: seq<Recording>, i: nat,
                                       used: int, budget: int)
    requires i <= |recs| && (i == |recs| || used <= budget)
    ensures Cutting(goal, deleted, recs[i..], used, budget) ==> deleted == goal
  {
    var left := Completed(recs[i..]);
    assert left[..0] == [];
  }

  lemma {:induction false} CompletedNext(recs: seq<Recording>, i: nat)
    requires i < |recs|
    ensures Completed(recs[i..])
            == if recs[i].active then Completed(recs[i + 1..]) else [recs[i]] + Completed(recs[i + 1..])
  {
    assert recs[i..][0] == recs[i] && recs[i..][1..] == recs[i + 1..];
  }

  lemma {:induction false} CutNext(x: Recording, next: seq<Recording>, used: int, budget: int)
    requires used > budget
    ensures Cut([x] + next, used, budget) == 1 + Cut(next, used - x.size, budget)
  {
    assert ([x] + next)[1..] == next;
  }

  lemma {:induction false} CuttingMoves(goal: seq<Recording>, deleted: seq<Recording>, recs: seq<Recording>, i: nat,
                                        used: int, budget: int)
    requires i < |recs| && used > budget
    ensures Cutting(goal, deleted, recs[i..], used, budget) ==>
              if recs[i].active then Cutting(goal, deleted, recs[i + 1..], used, budget)
              else Cutting(goal, deleted + [recs[i]], recs[i + 1..], used - recs[i].size, budget)
  {
    hide Completed, Cut;
    CompletedNext(recs, i);
    if !recs[i].active {
      var x, next := recs[i], Completed(recs[i + 1..]);
      CutNext(x, next, used, budget);
      Shift(deleted, x, next, Cut(next, used - x.size, budget));
    }
  }

  lemma {:induction false} Shift(d: seq<Recording>, x: Recording, next: seq<Recording>, n: nat)
    requires n <= |next|
    ensures d + ([x] + next)[..n + 1] == (d + [x]) + next[..n]
  {
  }
}
