/** What Reconcile and Restore achieve together: no triple is recorded twice, nothing is created beside a live twin. */
module RecoveryLaws {
  import opened Text
  import opened Recovery

  // --- what the providers are trusted for --------------------------------

  ghost predicate Answers(finders: map<Provider, Sweep>, order: seq<Provider>, p: Provider) {
    p in order && Ask(finders, p).Answer?
  }

  ghost predicate Owned(finders: map<Provider, Sweep>, order: seq<Provider>, p: Provider, e: Resource) {
    Answers(finders, order, p) && e in Ask(finders, p).owned
  }

  ghost predicate Live(finders: map<Provider, Sweep>, order: seq<Provider>, p: Provider, e: Resource) {
    Answers(finders, order, p) && (e in Ask(finders, p).owned || e in Ask(finders, p).unowned)
  }

  ghost predicate ApartResources(list: seq<Resource>) {
    forall i, j | 0 <= i < j < |list| :: !SameTriple(list[i], list[j])
  }

  /** Sweeps report their own provider's resources, each triple once, and identifiers are unique across providers. */
  ghost predicate Faithful(record: seq<Resource>, order: seq<Provider>, finders: map<Provider, Sweep>) {
    && ApartResources(record)
    && (forall p | Answers(finders, order, p) :: ApartResources(Ask(finders, p).owned))
    && (forall p, e | Live(finders, order, p, e) :: e.provider == p)
    && (forall p, e, q, f | Owned(finders, order, p, e) && Owned(finders, order, q, f)
                            && e.providerID == f.providerID != "" :: e == f)
    && (forall p, e, r | Live(finders, order, p, e) && r in record && e.providerID == r.providerID != "" ::
          r.provider == p)
  }

  // --- one record entry per report item ----------------------------------

  ghost predicate Apart(items: seq<Item>) {
    forall i, j | 0 <= i < j < |items| :: !SameTriple(items[i].resource, items[j].resource)
  }

  ghost predicate Clear(items: seq<Item>) {
    forall it | it in items :: it.disposition != Review
  }

  function Entries(items: seq<Item>): (r: seq<Resource>)
    ensures |r| == |items| && forall i | 0 <= i < |items| :: r[i] == Kept(items[i])
  {
    seq(|items|, i requires 0 <= i < |items| => Kept(items[i]))
  }

  lemma {:induction false} EntriesStep(items: seq<Item>)
    requires items != []
    ensures Entries(items) == Entries(items[..|items| - 1]) + [Kept(items[|items| - 1])]
  {
  }

  lemma {:induction false} RecordIsEntries(items: seq<Item>)
    requires Apart(items)
    ensures Record(items) == Entries(items)
  {
    if items != [] {
      var front, last := items[..|items| - 1], items[|items| - 1];
      RecordIsEntries(front);
      EntriesStep(items);
      forall i | 0 <= i < |front|
        ensures !SameTriple(Entries(front)[i], Kept(last))
      {
        assert !SameTriple(items[i].resource, last.resource);
      }
    }
  }

  lemma {:induction false} ApartConcat(a: seq<Item>, b: seq<Item>)
    requires Apart(a) && Apart(b)
    requires forall x, y | x in a && y in b :: !SameTriple(x.resource, y.resource)
    ensures Apart(a + b)
  {
    forall i, j | 0 <= i < j < |a + b|
      ensures !SameTriple((a + b)[i].resource, (a + b)[j].resource)
    {
      if i < |a| <= j {
        assert a[i] in a && b[j - |a|] in b;
      }
    }
  }

  lemma {:induction false} UnrecordedApart(live: seq<Resource>, record: seq<Resource>)
    requires ApartResources(live)
    ensures Apart(Unrecorded(live, record, Adopt))
  {
    if live != [] {
      UnrecordedApart(live[1..], record);
      var rest := Unrecorded(live[1..], record, Adopt);
      forall y | y in rest
        ensures !SameTriple(live[0], y.resource)
      {
        var k :| 0 <= k < |live[1..]| && live[1..][k] == y.resource;
        assert live[k + 1] == y.resource;
      }
      ApartConcat([Item(live[0], Adopt, live[0].providerID, true, false)], rest);
    }
  }

  /** An extra item is one resource of one asked provider that nothing in the record matches. */
  lemma {:induction false} ExtraOrigin(order: seq<Provider>, finders: map<Provider, Sweep>, record: seq<Resource>,
                                       it: Item)
      returns (p: Provider)
    requires it in AllExtras(order, finders, record)
    ensures Answers(finders, order, p) && it in Extras(Ask(finders, p), record)
  {
    var front, last := order[..|order| - 1], order[|order| - 1];
    if it in Extras(Ask(finders, last), record) {
      p := last;
    } else {
      p := ExtraOrigin(front, finders, record, it);
    }
  }

  lemma {:induction false} ExtraPresent(order: seq<Provider>, finders: map<Provider, Sweep>, record: seq<Resource>,
                                        p: Provider, it: Item)
    requires p in order && it in Extras(Ask(finders, p), record)
    ensures it in AllExtras(order, finders, record)
  {
    hide Extras, Ask;
    var front, last := order[..|order| - 1], order[|order| - 1];
    if p != last {
      assert order == front + [last];
      ExtraPresent(front, finders, record, p, it);
    }
  }

  lemma {:induction false} ClearExtras(s: Sweep, record: seq<Resource>)
    requires s.Answer? && Clear(Extras(s, record))
    ensures Extras(s, record) == Unrecorded(s.owned, record, Adopt)
  {
    assert forall it | it in Unrecorded(s.unowned, record, Review) :: it in Extras(s, record);
    NothingToReview(s.unowned, record);
  }

  lemma {:induction false} NothingToReview(live: seq<Resource>, record: seq<Resource>)
    requires Clear(Unrecorded(live, record, Review))
    ensures Unrecorded(live, record, Review) == []
  {
    if live != [] {
      var all, rest := Unrecorded(live, record, Review), Unrecorded(live[1..], record, Review);
      assert forall it | it in rest :: it in all;
      NothingToReview(live[1..], record);
    }
  }

  lemma {:induction false} ExtrasApart(done: seq<Provider>, order: seq<Provider>, finders: map<Provider, Sweep>,
                                       record: seq<Resource>)
    requires Faithful(record, order, finders) && done <= order
    requires forall i, j | 0 <= i < j < |order| :: order[i] != order[j]
    requires Clear(AllExtras(done, finders, record))
    ensures Apart(AllExtras(done, finders, record))
  {
    if done != [] {
      var front, last := done[..|done| - 1], done[|done| - 1];
      var s := Ask(finders, last);
      var before, here := AllExtras(front, finders, record), Extras(s, record);
      assert front <= order && last in order;
      ExtrasApart(front, order, finders, record);
      if s.Answer? {
        ClearExtras(s, record);
        assert Answers(finders, order, last);
        UnrecordedApart(s.owned, record);
        forall x, y | x in before && y in here
          ensures !SameTriple(x.resource, y.resource)
        {
          var p := ExtraOrigin(front, finders, record, x);
          assert p in order && Live(finders, order, p, x.resource) && Live(finders, order, last, y.resource);
        }
        ApartConcat(before, here);
      }
    }
  }

  /** The report before DNS records are marked for re-pointing, which changes no resource and no disposition. */
  function Plain(record: seq<Resource>, order: seq<Provider>, finders: map<Provider, Sweep>): seq<Item> {
    Classified(record, finders) + AllExtras(order, finders, record)
  }

  /** The same items but for the re-pointing mark. */
  ghost predicate Alike(a: seq<Item>, b: seq<Item>) {
    |a| == |b| && forall i | 0 <= i < |a| :: a[i].(retarget := false) == b[i].(retarget := false)
  }

  lemma {:induction false} AlikeMeans(a: seq<Item>, b: seq<Item>)
    requires Alike(a, b)
    ensures Entries(a) == Entries(b) && (Apart(a) ==> Apart(b)) && (Clear(a) ==> Clear(b))
  {
    assert forall i | 0 <= i < |a| :: a[i].resource == b[i].resource && Kept(a[i]) == Kept(b[i]);
    if Clear(a) {
      forall i | 0 <= i < |b|
        ensures b[i].disposition != Review
      {
        assert a[i] in a && a[i].disposition == b[i].disposition;
      }
    }
  }

  lemma {:induction false} ProposalIsPlain(record: seq<Resource>, order: seq<Provider>, finders: map<Provider, Sweep>)
    ensures var items, plain := Proposal(record, order, finders), Plain(record, order, finders);
            && Alike(items, plain) && Alike(plain, items)
            && (Clear(items) <==> Clear(plain)) && Entries(items) == Entries(plain) && (Apart(items) <==> Apart(plain))
  {
    var items, plain := Proposal(record, order, finders), Plain(record, order, finders);
    assert Alike(items, plain) && Alike(plain, items);
    AlikeMeans(items, plain);
    AlikeMeans(plain, items);
  }

  lemma {:induction false} PlainApart(record: seq<Resource>, order: seq<Provider>, finders: map<Provider, Sweep>)
    requires Faithful(record, order, finders) && Clear(Plain(record, order, finders))
    requires forall i, j | 0 <= i < j < |order| :: order[i] != order[j]
    ensures Apart(Plain(record, order, finders))
  {
    var a, b := Classified(record, finders), AllExtras(order, finders, record);
    assert Clear(b) by {
      assert forall it | it in b :: it in a + b;
    }
    ExtrasApart(order, order, finders, record);
    ClassifiedApart(record, finders);
    forall x, y | x in a && y in b
      ensures !SameTriple(x.resource, y.resource)
    {
      NotRecorded(record, order, finders, x, y);
    }
    ApartConcat(a, b);
  }

  lemma {:induction false} ClassifiedApart(record: seq<Resource>, finders: map<Provider, Sweep>)
    requires ApartResources(record)
    ensures Apart(Classified(record, finders))
  {
    assert forall i | 0 <= i < |record| :: Classified(record, finders)[i].resource == record[i];
  }

  lemma {:induction false} NotRecorded(record: seq<Resource>, order: seq<Provider>, finders: map<Provider, Sweep>,
                                       x: Item, y: Item)
    requires x in Classified(record, finders) && y in AllExtras(order, finders, record)
    ensures !SameTriple(x.resource, y.resource)
  {
    hide Match, AllExtras, Ask, Unrecorded;
    var i :| 0 <= i < |record| && Classified(record, finders)[i] == x;
    assert record[i] in record && x.resource == record[i];
    var p := ExtraOrigin(order, finders, record, y);
    assert Match(y.resource, record).None?;
  }

  /** Record entries correspond one to one with report items, each keeping its item's triple. */
  lemma {:induction false} OneEntryPerItem(record: seq<Resource>, obligations: seq<Obligation>, order: seq<Provider>,
                                           finders: map<Provider, Sweep>, answers: seq<Obligation>)
    requires Order(order, record, obligations) && Faithful(record, order, finders)
    requires !RequiresReview(Proposal(record, order, finders), answers)
    ensures Record(Proposal(record, order, finders)) == Entries(Proposal(record, order, finders))
    ensures ApartResources(Record(Proposal(record, order, finders)))
  {
    ProposalIsPlain(record, order, finders);
    PlainApart(record, order, finders);
    RecordIsEntries(Proposal(record, order, finders));
    EntriesApart(Proposal(record, order, finders));
  }

  lemma {:induction false} EntriesApart(items: seq<Item>)
    requires Apart(items)
    ensures ApartResources(Entries(items))
  {
    assert forall i | 0 <= i < |items| :: SameTriple(Entries(items)[i], items[i].resource);
  }

  // --- identifiers -------------------------------------------------------

  ghost predicate IdentifiersApart(list: seq<Resource>) {
    forall i, j | 0 <= i < j < |list| && list[i].providerID != "" :: list[i].providerID != list[j].providerID
  }

  /** The identifier the restored record has for a recorded resource. */
  function KeptID(finders: map<Provider, Sweep>, r: Resource): string {
    Kept(Classify(r, Ask(finders, r.provider))).providerID
  }

  /** The recorded identifier stays: nobody is asked about it, or the provider still has it under the marker. */
  predicate Retains(finders: map<Provider, Sweep>, r: Resource) {
    && r.providerID != ""
    && (Stays(r) || (Ask(finders, r.provider).Answer? && ById(Ask(finders, r.provider).owned, r.providerID).Some?))
  }

  /** `r` is matched, by its triple, with a live resource that has the identifier recorded for `s`. */
  predicate Takes(finders: map<Provider, Sweep>, r: Resource, s: Resource) {
    && !Stays(r) && Ask(finders, r.provider).Answer? && r.providerID != s.providerID && s.providerID != ""
    && var live := Match(r, Ask(finders, r.provider).owned);
       live.Some? && live.value.providerID == s.providerID
  }

  ghost predicate Clash(finders: map<Provider, Sweep>, r: Resource, s: Resource) {
    || (r.providerID == s.providerID && Retains(finders, r) && Retains(finders, s))
    || Takes(finders, r, s)
  }

  ghost predicate Clashing(finders: map<Provider, Sweep>, record: seq<Resource>) {
    exists r, s | r in record && s in record && r != s :: Clash(finders, r, s)
  }

  lemma {:induction false} RetainedIsKept(finders: map<Provider, Sweep>, r: Resource)
    requires Retains(finders, r)
    ensures KeptID(finders, r) == r.providerID
  {
  }

  /** An identifier that is not the recorded one is that of a marked live resource with the same triple. */
  lemma {:induction false} NewIdentifier(finders: map<Provider, Sweep>, r: Resource) returns (e: Resource)
    requires !Retains(finders, r) && KeptID(finders, r) != ""
    requires Classify(r, Ask(finders, r.provider)).disposition != Review
    ensures !Stays(r) && Ask(finders, r.provider).Answer? && Match(r, Ask(finders, r.provider).owned) == Some(e)
    ensures e in Ask(finders, r.provider).owned && e.providerID == KeptID(finders, r) && SameTriple(e, r)
    ensures r.providerID != e.providerID
  {
    e := Match(r, Ask(finders, r.provider).owned).value;
  }

  /** Two recorded resources end up under one identifier only when they clash. */
  lemma {:induction false} OneIdentifierClashes(record: seq<Resource>, order: seq<Provider>,
                                                finders: map<Provider, Sweep>, r: Resource, s: Resource)
    requires Faithful(record, order, finders) && !SameTriple(r, s)
    requires !Local(r.provider) ==> r.provider in order
    requires !Local(s.provider) ==> s.provider in order
    requires Classify(r, Ask(finders, r.provider)).disposition != Review
    requires Classify(s, Ask(finders, s.provider)).disposition != Review
    requires KeptID(finders, r) == KeptID(finders, s) != ""
    ensures Clash(finders, r, s) || Clash(finders, s, r)
  {
    hide Classify, Match, ById, KeptID, Faithful, Retains, Ask;
    if Retains(finders, r) && Retains(finders, s) {
      RetainedIsKept(finders, r);
      RetainedIsKept(finders, s);
    } else if Retains(finders, s) {
      RetainedIsKept(finders, s);
      var e := NewIdentifier(finders, r);
    } else if Retains(finders, r) {
      RetainedIsKept(finders, r);
      var f := NewIdentifier(finders, s);
    } else {
      var e := NewIdentifier(finders, r);
      var f := NewIdentifier(finders, s);
      SameLive(record, order, finders, r.provider, e, s.provider, f);
    }
  }

  lemma {:induction false} SameLive(record: seq<Resource>, order: seq<Provider>, finders: map<Provider, Sweep>,
                                    p: Provider, e: Resource, q: Provider, f: Resource)
    requires Faithful(record, order, finders) && p in order && q in order
    requires Ask(finders, p).Answer? && e in Ask(finders, p).owned
    requires Ask(finders, q).Answer? && f in Ask(finders, q).owned
    requires e.providerID == f.providerID != ""
    ensures e == f
  {
    assert Owned(finders, order, p, e) && Owned(finders, order, q, f);
  }

  /** When they clash they do. */
  lemma {:induction false} ClashIsOneIdentifier(record: seq<Resource>, order: seq<Provider>,
                                                finders: map<Provider, Sweep>, r: Resource, s: Resource)
    requires Faithful(record, order, finders) && s in record && Clash(finders, r, s)
    requires !Local(r.provider) ==> r.provider in order
    ensures KeptID(finders, r) == KeptID(finders, s) != ""
  {
    if Takes(finders, r, s) {
      var e := Match(r, Ask(finders, r.provider).owned).value;
      assert Live(finders, order, r.provider, e) && s.provider == r.provider;
      assert Retains(finders, s);
    } else {
      RetainedIsKept(finders, r);
    }
    RetainedIsKept(finders, s);
  }

  /** What is added from a provider has an identifier of its own. */
  lemma {:induction false} ExtraIsApart(record: seq<Resource>, order: seq<Provider>, finders: map<Provider, Sweep>,
                                        r: Resource, it: Item)
    requires Faithful(record, order, finders) && r in record && (!Local(r.provider) ==> r.provider in order)
    requires it in AllExtras(order, finders, record) && it.disposition == Adopt && it.providerID != ""
    requires Classify(r, Ask(finders, r.provider)).disposition != Review
    ensures KeptID(finders, r) != it.providerID
  {
    var q := ExtraOrigin(order, finders, record, it);
    var e := it.resource;
    assert it in Unrecorded(Ask(finders, q).owned, record, Adopt);
    assert Match(e, record).None? && e.providerID == it.providerID && e in Ask(finders, q).owned;
    hide Classify, Match, Faithful, Ask, KeptID, Unrecorded;
    if Retains(finders, r) {
      RetainedIsKept(finders, r);
    } else if KeptID(finders, r) == it.providerID {
      var f := NewIdentifier(finders, r);
      SameLive(record, order, finders, q, e, r.provider, f);
    }
  }

  /**
   * No identifier is recorded twice exactly when no two recorded resources clash: share an identifier that stays, or
   * one of them matches, by its triple, a live resource whose identifier is recorded for the other.
   */
  lemma {:induction false} IdentifiersApartExactly(record: seq<Resource>, obligations: seq<Obligation>,
                                                   order: seq<Provider>, finders: map<Provider, Sweep>,
                                                   answers: seq<Obligation>)
    requires Order(order, record, obligations) && Faithful(record, order, finders)
    requires !RequiresReview(Proposal(record, order, finders), answers)
    ensures IdentifiersApart(Record(Proposal(record, order, finders))) <==> !Clashing(finders, record)
  {
    OneEntryPerItem(record, obligations, order, finders, answers);
    ProposalIsPlain(record, order, finders);
    AllAsked(record, obligations, order);
    PlainApart(record, order, finders);
    hide Record, Proposal, Order, RequiresReview, Faithful, Local;
    if Clashing(finders, record) {
      ClashIsRecordedTwice(record, order, finders);
    } else {
      NoClashNoTwins(record, order, finders);
    }
  }

  lemma {:induction false} ClashIsRecordedTwice(record: seq<Resource>, order: seq<Provider>,
                                                finders: map<Provider, Sweep>)
    requires Faithful(record, order, finders) && Clashing(finders, record)
    requires forall r | r in record && !Local(r.provider) :: r.provider in order
    ensures !IdentifiersApart(Entries(Plain(record, order, finders)))
  {
    hide Clash, Faithful, Kept, Classify, Ask, AllExtras;
    var r, s :| r in record && s in record && r != s && Clash(finders, r, s);
    var i :| 0 <= i < |record| && record[i] == r;
    var j :| 0 <= j < |record| && record[j] == s;
    ClashIsOneIdentifier(record, order, finders, r, s);
    var entries := Entries(Plain(record, order, finders));
    EntryOf(record, order, finders, i);
    EntryOf(record, order, finders, j);
    assert entries[i].providerID == entries[j].providerID != "";
    assert i < j || j < i;
  }

  lemma {:induction false} EntryOf(record: seq<Resource>, order: seq<Provider>, finders: map<Provider, Sweep>, i: nat)
    requires i < |record|
    ensures Plain(record, order, finders)[i] == Classify(record[i], Ask(finders, record[i].provider))
    ensures Entries(Plain(record, order, finders))[i].providerID == KeptID(finders, record[i])
  {
    hide Kept, Classify, Ask, AllExtras;
  }

  lemma {:induction false} NoClashNoTwins(record: seq<Resource>, order: seq<Provider>, finders: map<Provider, Sweep>)
    requires Faithful(record, order, finders) && !Clashing(finders, record)
    requires Clear(Plain(record, order, finders)) && Apart(Plain(record, order, finders))
    requires forall r | r in record && !Local(r.provider) :: r.provider in order
    ensures IdentifiersApart(Entries(Plain(record, order, finders)))
  {
    hide *;
    var entries := Entries(Plain(record, order, finders));
    forall i, j | 0 <= i < j < |entries| && entries[i].providerID != ""
      ensures entries[i].providerID != entries[j].providerID
    {
      TwoEntriesApart(record, order, finders, i, j);
    }
    ApartByIndex(entries);
  }

  lemma {:induction false} ApartByIndex(list: seq<Resource>)
    requires forall i, j | 0 <= i < j < |list| && list[i].providerID != "" :: list[i].providerID != list[j].providerID
    ensures IdentifiersApart(list)
  {
  }

  lemma {:induction false} TwoEntriesApart(record: seq<Resource>, order: seq<Provider>, finders: map<Provider, Sweep>,
                                           i: nat, j: nat)
    requires Faithful(record, order, finders) && !Clashing(finders, record)
    requires Clear(Plain(record, order, finders)) && Apart(Plain(record, order, finders))
    requires forall r | r in record && !Local(r.provider) :: r.provider in order
    requires i < j < |Plain(record, order, finders)|
    requires Entries(Plain(record, order, finders))[i].providerID != ""
    ensures Entries(Plain(record, order, finders))[i].providerID != Entries(Plain(record, order, finders))[j].providerID
  {
    hide Clash, Faithful, Kept, Classify, Ask, Local, AllExtras;
    var plain := Plain(record, order, finders);
    assert plain[i] in plain && plain[j] in plain && !SameTriple(plain[i].resource, plain[j].resource);
    if j < |record| {
      EntryOf(record, order, finders, i);
      EntryOf(record, order, finders, j);
      RecordedTriples(finders, record[i], record[j]);
      if KeptID(finders, record[i]) == KeptID(finders, record[j]) {
        OneIdentifierClashes(record, order, finders, record[i], record[j]);
      }
    } else {
      assert plain[j] in AllExtras(order, finders, record);
      ExtraEntry(record, order, finders, plain[j]);
      if i < |record| {
        EntryOf(record, order, finders, i);
        if plain[j].providerID != "" {
          ExtraIsApart(record, order, finders, record[i], plain[j]);
        }
      } else {
        assert plain[i] in AllExtras(order, finders, record);
        ExtraEntry(record, order, finders, plain[i]);
        TwoExtras(record, order, finders, plain[i], plain[j]);
      }
    }
  }

  lemma {:induction false} RecordedTriples(finders: map<Provider, Sweep>, r: Resource, s: Resource)
    ensures Classify(r, Ask(finders, r.provider)).resource == r && Classify(s, Ask(finders, s.provider)).resource == s
  {
  }

  lemma {:induction false} ExtraEntry(record: seq<Resource>, order: seq<Provider>, finders: map<Provider, Sweep>,
                                      it: Item)
    requires it in AllExtras(order, finders, record) && it.disposition != Review
    ensures it.disposition == Adopt && Kept(it).providerID == it.providerID == it.resource.providerID
  {
    var q := ExtraOrigin(order, finders, record, it);
  }

  lemma {:induction false} TwoExtras(record: seq<Resource>, order: seq<Provider>, finders: map<Provider, Sweep>,
                                     a: Item, b: Item)
    requires Faithful(record, order, finders) && !SameTriple(a.resource, b.resource)
    requires a in AllExtras(order, finders, record) && b in AllExtras(order, finders, record)
    requires a.disposition == b.disposition == Adopt && a.providerID != ""
    ensures a.providerID != b.providerID
  {
    var p := ExtraOrigin(order, finders, record, a);
    var q := ExtraOrigin(order, finders, record, b);
    assert a in Unrecorded(Ask(finders, p).owned, record, Adopt);
    assert b in Unrecorded(Ask(finders, q).owned, record, Adopt);
    if a.providerID == b.providerID {
      SameLive(record, order, finders, p, a.resource, q, b.resource);
    }
  }

  /**
   * Such a clash: the provider holds one marked resource, under a name the record has for another identifier. Both
   * recorded resources are adopted with the live one's identifier, and that the other one is gone is never pending.
   */
  lemma {:induction false} RecordedTwiceExample(kind: Kind, earlier: string, later: string, live: string, gone: string)
    requires !kind.ServicePrincipal? && earlier != later && live != gone && live != "" && gone != ""
    ensures var record := [Resource(Entra, kind, earlier, live), Resource(Entra, kind, later, gone)];
            var finders := map[Entra := Answer([Resource(Entra, kind, later, live)], [])];
            && Faithful(record, [Entra], finders) && !RequiresReview(Proposal(record, [Entra], finders), [])
            && Record(Proposal(record, [Entra], finders))
               == [Resource(Entra, kind, earlier, live), Resource(Entra, kind, later, live)]
            && Intents(Proposal(record, [Entra], finders)) == []
  {
    var r, s := Resource(Entra, kind, earlier, live), Resource(Entra, kind, later, gone);
    var e := Resource(Entra, kind, later, live);
    var finders := map[Entra := Answer([e], [])];
    assert Ask(finders, Entra) == Answer([e], []);
    TwiceIsFaithful(r, s, e, finders);
    TwiceIsPlain(r, s, e, finders);
    TwiceIsRecorded([r, s], finders, Item(r, Adopt, live, false, false), Item(s, Adopt, live, false, false));
  }

  lemma {:induction false} NoneUnrecorded(record: seq<Resource>, d: Disposition)
    ensures Unrecorded([], record, d) == []
  {
  }

  lemma {:induction false} TwiceIsRecorded(record: seq<Resource>, finders: map<Provider, Sweep>, a: Item, b: Item)
    requires Plain(record, [Entra], finders) == [a, b] && !SameTriple(a.resource, b.resource)
    requires a.disposition == b.disposition == Adopt
    ensures var items := Proposal(record, [Entra], finders);
            !RequiresReview(items, []) && Record(items) == [Kept(a), Kept(b)] && Intents(items) == []
  {
    hide Plain, Kept, Classified, AllExtras;
    ProposalIsPlain(record, [Entra], finders);
    var items := Proposal(record, [Entra], finders);
    RecordIsEntries(items);
    assert Entries([a, b]) == [Kept(a), Kept(b)];
    NoIntents(items);
  }

  lemma {:induction false} NoIntents(items: seq<Item>)
    requires forall it | it in items :: it.disposition != Recreate
    ensures Intents(items) == []
  {
    if items != [] {
      NoIntents(items[..|items| - 1]);
    }
  }

  lemma {:induction false} TwiceIsFaithful(r: Resource, s: Resource, e: Resource, finders: map<Provider, Sweep>)
    requires r.provider == s.provider == e.provider == Entra && r.name != s.name
    requires Ask(finders, Entra) == Answer([e], [])
    ensures Faithful([r, s], [Entra], finders)
  {
  }

  lemma {:induction false} TwiceIsPlain(r: Resource, s: Resource, e: Resource, finders: map<Provider, Sweep>)
    requires r.provider == s.provider == e.provider == Entra && !r.kind.ServicePrincipal? && r.kind == s.kind == e.kind
    requires r.name != s.name == e.name && r.providerID == e.providerID != s.providerID
    requires e.providerID != "" && s.providerID != "" && Ask(finders, Entra) == Answer([e], [])
    ensures Plain([r, s], [Entra], finders)
            == [Item(r, Adopt, e.providerID, false, false), Item(s, Adopt, e.providerID, false, false)]
  {
    var record := [r, s];
    assert r in record;
    assert [e][1..] == [] && [Entra][..0] == [];
    assert Match(e, record).Some?;
    NoneUnrecorded(record, Adopt);
    NoneUnrecorded(record, Review);
    assert Unrecorded([e], record, Adopt) == [];
    assert AllExtras([], finders, record) == [];
    assert AllExtras([Entra], finders, record) == [];
    assert Match(r, [e]) == Some(e) && Match(s, [e]) == Some(e);
  }

  // --- no duplicate ------------------------------------------------------

  /** A resource to be created again matches nothing any asked provider holds, by identifier or by triple. */
  lemma {:induction false} RecreatedHasNoTwin(record: seq<Resource>, order: seq<Provider>,
                                              finders: map<Provider, Sweep>,
                                              it: Item, p: Provider, e: Resource)
    requires Faithful(record, order, finders)
    requires it in Proposal(record, order, finders) && it.disposition == Recreate
    requires Live(finders, order, p, e)
    ensures !SameTriple(e, it.resource)
    ensures it.resource.providerID != "" ==> e.providerID != it.resource.providerID
  {
    var r := RecreatedIsRecorded(record, order, finders, it);
    if r.provider == p {
      assert Match(r, Ask(finders, p).owned).None? && Match(r, Ask(finders, p).unowned).None?;
    }
  }

  lemma {:induction false} RecreatedIsRecorded(record: seq<Resource>, order: seq<Provider>,
                                               finders: map<Provider, Sweep>, it: Item)
      returns (r: Resource)
    requires it in Proposal(record, order, finders) && it.disposition == Recreate
    ensures r in record && r == it.resource && Classify(r, Ask(finders, r.provider)).disposition == Recreate
  {
    hide Proposal, Ask, Match, AllExtras;
    var twin, i := ItemOrigin(record, order, finders, it);
    if i < |record| {
      r := record[i];
    } else {
      var q := ExtraOrigin(order, finders, record, twin);
    }
  }

  /** Where an item of the report comes from: one recorded resource, or something a provider holds besides. */
  lemma {:induction false} ItemOrigin(record: seq<Resource>, order: seq<Provider>, finders: map<Provider, Sweep>,
                                      it: Item)
      returns (twin: Item, i: nat)
    requires it in Proposal(record, order, finders)
    ensures twin.(retarget := false) == it.(retarget := false)
    ensures if i < |record| then twin == Classify(record[i], Ask(finders, record[i].provider))
            else twin in AllExtras(order, finders, record)
  {
    hide Proposal, Ask, Classify, Entries, Apart, Clear;
    ProposalIsPlain(record, order, finders);
    i := IndexOf(Proposal(record, order, finders), it);
    twin := Plain(record, order, finders)[i];
    if i < |record| {
      assert twin == Classified(record, finders)[i];
    }
  }

  lemma {:induction false} ClassifiedAdopted(r: Resource, s: Sweep) returns (e: Resource)
    requires Classify(r, s).disposition == Adopt
    ensures s.Answer? && e in s.owned && e.providerID == Classify(r, s).providerID
    ensures (r.providerID != "" && e.providerID == r.providerID) || SameTriple(e, r)
  {
    e := Match(r, s.owned).value;
  }

  /**
   * Only what the provider shows under the marker is adopted: the identifier an adopted item gets is that of a marked
   * live resource with the item's own identifier or triple. A matching name alone never suffices.
   */
  lemma {:induction false} AdoptedIsMarked(record: seq<Resource>, order: seq<Provider>, finders: map<Provider, Sweep>,
                                           it: Item)
      returns (p: Provider, e: Resource)
    requires it in Proposal(record, order, finders) && it.disposition == Adopt
    ensures Ask(finders, p).Answer? && e in Ask(finders, p).owned && e.providerID == it.providerID
    ensures (it.resource.providerID != "" && e.providerID == it.resource.providerID) || SameTriple(e, it.resource)
  {
    hide Proposal, Ask, Match, AllExtras;
    var twin, i := ItemOrigin(record, order, finders, it);
    if i < |record| {
      p := record[i].provider;
      e := ClassifiedAdopted(record[i], Ask(finders, p));
    } else {
      p := ExtraOrigin(order, finders, record, twin);
      e := twin.resource;
    }
  }

  lemma {:induction false} IndexOf(items: seq<Item>, it: Item) returns (i: nat)
    requires it in items
    ensures i < |items| && items[i] == it
  {
    i :| 0 <= i < |items| && items[i] == it;
  }

  // --- no orphan ---------------------------------------------------------

  /** Some live resource of the provider has the recorded identifier. */
  ghost predicate TakenByOther(finders: map<Provider, Sweep>, p: Provider, r: Resource) {
    && r.providerID != "" && Ask(finders, p).Answer?
    && exists f | f in Ask(finders, p).owned :: f.providerID == r.providerID
  }

  /**
   * A live resource is shadowed when no recorded resource has its identifier, and the one recorded under its triple
   * is tied to another identifier: one that is never looked up, or one that another live resource of the provider has.
   */
  ghost predicate Shadowed(record: seq<Resource>, finders: map<Provider, Sweep>, e: Resource) {
    && (forall r | r in record :: r.providerID != e.providerID)
    && exists r | r in record && SameTriple(r, e) ::
         Stays(r) || TakenByOther(finders, e.provider, r)
  }

  lemma {:induction false} ById1(list: seq<Resource>, e: Resource)
    requires e in list && forall f | f in list && f.providerID == e.providerID :: f == e
    ensures ById(list, e.providerID) == Some(e)
  {
  }

  lemma {:induction false} ByTriple1(list: seq<Resource>, e: Resource, r: Resource)
    requires e in list && ApartResources(list) && SameTriple(e, r)
    ensures ByTriple(list, r) == Some(e)
  {
    TwinIsUnique(list, e, ByTriple(list, r).value);
  }

  lemma {:induction false} RecordedEntry(record: seq<Resource>, order: seq<Provider>, finders: map<Provider, Sweep>,
                                         r: Resource)
    requires r in record
    ensures Kept(Classify(r, Ask(finders, r.provider))) in Entries(Plain(record, order, finders))
    ensures Classify(r, Ask(finders, r.provider)) in Plain(record, order, finders)
  {
    var i :| 0 <= i < |record| && record[i] == r;
    assert Plain(record, order, finders)[i] == Classify(r, Ask(finders, r.provider));
    assert Entries(Plain(record, order, finders))[i] == Kept(Classify(r, Ask(finders, r.provider)));
  }

  /** A live resource that is not shadowed is in the restored record under its own identifier. */
  lemma {:induction false} UnshadowedIsKept(record: seq<Resource>, order: seq<Provider>, finders: map<Provider, Sweep>,
                                            p: Provider, e: Resource)
    requires Faithful(record, order, finders) && Owned(finders, order, p, e) && e.providerID != ""
    requires !Shadowed(record, finders, e)
    ensures exists x | x in Entries(Plain(record, order, finders)) :: x.providerID == e.providerID
  {
    assert Live(finders, order, p, e);
    if r :| r in record && r.providerID == e.providerID {
      RecordedEntry(record, order, finders, r);
      KeptById(record, order, finders, p, e, r);
    } else if r :| r in record && SameTriple(r, e) {
      RecordedEntry(record, order, finders, r);
      KeptByTriple(finders, p, e, r);
    } else {
      assert Match(e, record).None?;
      var it := Item(e, Adopt, e.providerID, true, false);
      assert it in Unrecorded(Ask(finders, p).owned, record, Adopt);
      ExtraPresent(order, finders, record, p, it);
      var plain := Plain(record, order, finders);
      assert it in plain;
      var i :| 0 <= i < |plain| && plain[i] == it;
      assert Entries(plain)[i] == Kept(it);
    }
  }

  lemma {:induction false} KeptById(record: seq<Resource>, order: seq<Provider>, finders: map<Provider, Sweep>,
                                    p: Provider, e: Resource, r: Resource)
    requires Faithful(record, order, finders) && Owned(finders, order, p, e) && e.providerID != ""
    requires r in record && r.providerID == e.providerID
    ensures Kept(Classify(r, Ask(finders, r.provider))).providerID == e.providerID
  {
    assert Live(finders, order, p, e) && r.provider == p;
    forall f | f in Ask(finders, p).owned && f.providerID == e.providerID
      ensures f == e
    {
      assert Owned(finders, order, p, f);
    }
    ById1(Ask(finders, p).owned, e);
  }

  lemma {:induction false} KeptByTriple(finders: map<Provider, Sweep>, p: Provider, e: Resource, r: Resource)
    requires Ask(finders, p).Answer? && ApartResources(Ask(finders, p).owned)
    requires e in Ask(finders, p).owned && e.provider == p
    requires SameTriple(r, e) && !Stays(r) && !TakenByOther(finders, p, r)
    ensures Kept(Classify(r, Ask(finders, r.provider))).providerID == e.providerID
  {
    var owned := Ask(finders, p).owned;
    ByTriple1(owned, e, r);
    assert r.providerID != "" ==> ById(owned, r.providerID).None?;
    assert Match(r, owned) == Some(e);
  }

  /** A shadowed one is not: its identifier is in no entry. */
  lemma {:induction false} ShadowedIsLost(record: seq<Resource>, order: seq<Provider>, finders: map<Provider, Sweep>,
                                          p: Provider, e: Resource,
                                          x: Resource)
    requires Faithful(record, order, finders) && Owned(finders, order, p, e) && e.providerID != ""
    requires Shadowed(record, finders, e) && Clear(Plain(record, order, finders))
    requires forall r | r in record && !Local(r.provider) :: r.provider in order
    requires x in Entries(Plain(record, order, finders))
    ensures x.providerID != e.providerID
  {
    var plain := Plain(record, order, finders);
    var i :| 0 <= i < |plain| && Kept(plain[i]) == x;
    assert plain[i] in plain;
    assert Live(finders, order, p, e);
    if i < |record| {
      assert record[i] in record && plain[i] == Classified(record, finders)[i];
      RecordedIsNotIt(record, order, finders, p, e, record[i]);
    } else {
      assert plain[i] in AllExtras(order, finders, record);
      ExtraIsNotIt(record, order, finders, p, e, plain[i]);
    }
  }

  lemma {:induction false} RecordedIsNotIt(record: seq<Resource>, order: seq<Provider>, finders: map<Provider, Sweep>,
                                           p: Provider, e: Resource, r: Resource)
    requires Faithful(record, order, finders) && Owned(finders, order, p, e) && e.providerID != ""
    requires Shadowed(record, finders, e) && r in record && (!Local(r.provider) ==> r.provider in order)
    requires Classify(r, Ask(finders, r.provider)).disposition != Review
    ensures Kept(Classify(r, Ask(finders, r.provider))).providerID != e.providerID
  {
    var it := Classify(r, Ask(finders, r.provider));
    assert Live(finders, order, p, e);
    if it.disposition == Adopt {
      var owned := Ask(finders, r.provider).owned;
      var live := Match(r, owned).value;
      assert Owned(finders, order, r.provider, live);
      if live.providerID == e.providerID {
        assert live == e && r.provider == p;
        var twin :| twin in record && SameTriple(twin, e) && (Stays(twin) || TakenByOther(finders, e.provider, twin));
        assert SameTriple(e, r);
        TwinIsUnique(record, r, twin);
      }
    }
  }

  lemma {:induction false} ExtraIsNotIt(record: seq<Resource>, order: seq<Provider>, finders: map<Provider, Sweep>,
                                        p: Provider, e: Resource, it: Item)
    requires Faithful(record, order, finders) && Owned(finders, order, p, e) && e.providerID != ""
    requires Shadowed(record, finders, e) && it in AllExtras(order, finders, record) && it.disposition != Review
    ensures Kept(it).providerID != e.providerID
  {
    var q := ExtraOrigin(order, finders, record, it);
    assert it in Unrecorded(Ask(finders, q).owned, record, Adopt);
    assert Owned(finders, order, q, it.resource) && Match(it.resource, record).None?;
    var twin :| twin in record && SameTriple(twin, e);
  }

  lemma {:induction false} TwinIsUnique(record: seq<Resource>, a: Resource, b: Resource)
    requires ApartResources(record) && a in record && b in record && SameTriple(a, b)
    ensures a == b
  {
    var i :| 0 <= i < |record| && record[i] == a;
    var j :| 0 <= j < |record| && record[j] == b;
    assert SameTriple(record[i], record[j]) && SameTriple(record[j], record[i]);
  }

  /**
   * A live resource carrying the marker is in the restored record under its own identifier exactly when it is not
   * shadowed. In every case the record holds an entry that matches it, so it is not created a second time.
   */
  lemma {:induction false} LiveIsRecordedUnlessShadowed(record: seq<Resource>, obligations: seq<Obligation>,
                                                        order: seq<Provider>,
                                                        finders: map<Provider, Sweep>, answers: seq<Obligation>,
                                                        p: Provider, e: Resource)
    requires Order(order, record, obligations) && Faithful(record, order, finders)
    requires !RequiresReview(Proposal(record, order, finders), answers)
    requires Owned(finders, order, p, e) && e.providerID != ""
    ensures (exists x | x in Record(Proposal(record, order, finders)) :: x.providerID == e.providerID)
            <==> !Shadowed(record, finders, e)
    ensures Match(e, Record(Proposal(record, order, finders))).Some?
  {
    OneEntryPerItem(record, obligations, order, finders, answers);
    ProposalIsPlain(record, order, finders);
    AllAsked(record, obligations, order);
    var entries := Record(Proposal(record, order, finders));
    assert entries == Entries(Plain(record, order, finders));
    if Shadowed(record, finders, e) {
      forall x | x in entries
        ensures x.providerID != e.providerID
      {
        ShadowedIsLost(record, order, finders, p, e, x);
      }
      var x := ShadowingEntry(record, order, finders, e);
    } else {
      UnshadowedIsKept(record, order, finders, p, e);
    }
  }

  lemma {:induction false} ShadowingEntry(record: seq<Resource>, order: seq<Provider>, finders: map<Provider, Sweep>,
                                          e: Resource)
      returns (x: Resource)
    requires Shadowed(record, finders, e)
    ensures x in Entries(Plain(record, order, finders)) && SameTriple(x, e)
  {
    hide Plain, Entries, Ask;
    var r :| r in record && SameTriple(r, e);
    RecordedEntry(record, order, finders, r);
    x := Kept(Classify(r, Ask(finders, r.provider)));
  }

  lemma {:induction false} AllAsked(record: seq<Resource>, obligations: seq<Obligation>, order: seq<Provider>)
    requires Order(order, record, obligations)
    ensures forall r | r in record && !Local(r.provider) :: r.provider in order
  {
    forall r | r in record && !Local(r.provider)
      ensures r.provider in order
    {
      assert Asked(r.provider, record, obligations);
    }
  }

  /**
   * Shadowing happens: the record knows a group by one name and identifier; at the provider that group was renamed
   * and another marked group now has the old name. The recovery adopts the renamed one and leaves the other out.
   */
  lemma {:induction false} ShadowingExample(kind: Kind, name: string, renamed: string, known: string, lost: string)
    requires !kind.ServicePrincipal? && name != renamed && known != lost && known != "" && lost != ""
    ensures var record := [Resource(Entra, kind, name, known)];
            var live := Resource(Entra, kind, name, lost);
            var finders := map[Entra := Answer([Resource(Entra, kind, renamed, known), live], [])];
            && Faithful(record, [Entra], finders) && Owned(finders, [Entra], Entra, live)
            && Shadowed(record, finders, live)
            && Record(Proposal(record, [Entra], finders)) == record
  {
    var r, moved := Resource(Entra, kind, name, known), Resource(Entra, kind, renamed, known);
    var live := Resource(Entra, kind, name, lost);
    var finders := map[Entra := Answer([moved, live], [])];
    assert Ask(finders, Entra) == Answer([moved, live], []);
    ExampleIsShadowed(r, moved, live, finders);
    ExampleRecord(r, moved, live, finders);
  }

  lemma {:induction false} ExampleIsShadowed(r: Resource, moved: Resource, live: Resource,
                                             finders: map<Provider, Sweep>)
    requires r.provider == moved.provider == live.provider == Entra && r.kind == live.kind == moved.kind
    requires r.name == live.name != moved.name
    requires r.providerID == moved.providerID != live.providerID && r.providerID != ""
    requires Ask(finders, Entra) == Answer([moved, live], [])
    ensures Faithful([r], [Entra], finders) && Owned(finders, [Entra], Entra, live) && Shadowed([r], finders, live)
  {
    assert r in [r] && moved in [moved, live];
    assert TakenByOther(finders, Entra, r);
  }

  lemma {:induction false} ExampleRecord(r: Resource, moved: Resource, live: Resource, finders: map<Provider, Sweep>)
    requires r.provider == moved.provider == live.provider == Entra && r.kind == live.kind && r.name == live.name
    requires !r.kind.ServicePrincipal?
    requires r.providerID == moved.providerID != "" && Ask(finders, Entra) == Answer([moved, live], [])
    ensures Record(Proposal([r], [Entra], finders)) == [r]
  {
    var plain := Plain([r], [Entra], finders);
    var it := Item(r, Adopt, r.providerID, false, false);
    assert Match(r, [moved, live]) == Some(moved);
    assert Classified([r], finders) == [it];
    NoExtras(moved, live, r, finders);
    assert plain == [it];
    ProposalIsPlain([r], [Entra], finders);
    RecordIsEntries(Proposal([r], [Entra], finders));
    assert Entries(plain) == [r];
  }

  lemma {:induction false} NoExtras(a: Resource, b: Resource, r: Resource, finders: map<Provider, Sweep>)
    requires Match(a, [r]).Some? && Match(b, [r]).Some? && Ask(finders, Entra) == Answer([a, b], [])
    ensures AllExtras([Entra], finders, [r]) == []
  {
    assert [a, b][1..] == [b] && [b][1..] == [] && [Entra][..0] == [];
    assert Unrecorded([b], [r], Adopt) == [];
    assert Unrecorded([a, b], [r], Adopt) == [];
    assert AllExtras([], finders, [r]) == [];
  }

  // --- the journal -------------------------------------------------------

  lemma {:induction false} IntentsOf(items: seq<Item>)
    ensures forall a | a in Intents(items) :: !a.finished && a.outcome == NoResult
              && exists it | it in items && it.disposition == Recreate :: a.intent == RecreateIntent(it.resource)
    ensures forall it | it in items && it.disposition == Recreate ::
              Action(RecreateIntent(it.resource), false, NoResult) in Intents(items)
  {
    if items != [] {
      var front, last := items[..|items| - 1], items[|items| - 1];
      IntentsOf(front);
      assert items == front + [last];
    }
  }

  lemma {:induction false} DifferentPrefixes(a: string, b: string)
    ensures RECREATE + a != RECONCILED + b && RECREATE + a != RESTORED
  {
    assert (RECREATE + a)[10] == RECREATE[10] == 'c' && (RECREATE + a)[11] == RECREATE[11] == 'r';
    assert (RECONCILED + b)[11] == RECONCILED[11] == 'o';
    assert RESTORED[10] == 's';
  }

  /** Where an action of the new journal comes from. */
  lemma {:induction false} JournalParts(items: seq<Item>, answers: seq<Obligation>, a: Action)
    requires a in Journal(items, answers)
    ensures a in Intents(items) || (a.finished && a.outcome == Done && forall s :: a.intent != RECREATE + s)
  {
    if a !in Intents(items) && a in Reconciled(answers) {
      var i :| 0 <= i < |answers| && Reconciled(answers)[i] == a;
      forall s
        ensures a.intent != RECREATE + s
      {
        DifferentPrefixes(s, answers[i].intent);
      }
    } else if a !in Intents(items) {
      forall s
        ensures a.intent != RECREATE + s
      {
        DifferentPrefixes(s, "");
      }
    }
  }

  /** The pending work of the new record is exactly what must be created again. */
  lemma {:induction false} PendingIsRecreation(items: seq<Item>, answers: seq<Obligation>, p: seq<Action>)
    requires IsPending(p, Journal(items, answers))
    ensures forall a | a in p :: exists it | it in items && it.disposition == Recreate ::
              a.intent == RecreateIntent(it.resource)
    ensures forall it | it in items && it.disposition == Recreate :: exists a | a in p ::
              a.intent == RecreateIntent(it.resource)
  {
    IntentsOf(items);
    forall a | a in p
      ensures a in Intents(items)
    {
      var i: nat :| Latest(Journal(items, answers), i) && Journal(items, answers)[i] == a;
      JournalParts(items, answers, a);
    }
    forall it | it in items && it.disposition == Recreate
      ensures exists a | a in p :: a.intent == RecreateIntent(it.resource)
    {
      var a := RecreationIsPending(items, answers, p, it);
    }
  }

  lemma {:induction false} RecreationIsPending(items: seq<Item>, answers: seq<Obligation>, p: seq<Action>, it: Item)
      returns (a: Action)
    requires IsPending(p, Journal(items, answers)) && it in items && it.disposition == Recreate
    ensures a in p && a.intent == RecreateIntent(it.resource)
  {
    var journal := Journal(items, answers);
    IntentsOf(items);
    var first := Action(RecreateIntent(it.resource), false, NoResult);
    assert first in journal;
    var i :| 0 <= i < |journal| && journal[i] == first;
    var k := LastAttempt(journal, i);
    a := journal[k];
    StillUnresolved(items, answers, a, Label(it.resource));
  }

  lemma {:induction false} StillUnresolved(items: seq<Item>, answers: seq<Obligation>, a: Action, what: string)
    requires a in Journal(items, answers) && a.intent == RECREATE + what
    ensures Unresolved(a)
  {
    IntentsOf(items);
    JournalParts(items, answers, a);
  }

  // --- one intent for each item ------------------------------------------

  /** The intents of the items that must be created again. */
  ghost function RecreateIntents(items: seq<Item>): set<string> {
    set it | it in items && it.disposition == Recreate :: RecreateIntent(it.resource)
  }

  ghost function IntentsIn(p: seq<Action>): set<string> {
    set a | a in p :: a.intent
  }

  lemma {:induction false} DistinctIntents(p: seq<Action>)
    requires forall j, k | 0 <= j < k < |p| :: p[j].intent != p[k].intent
    ensures |IntentsIn(p)| == |p|
  {
    if p != [] {
      var front, last := p[..|p| - 1], p[|p| - 1];
      DistinctIntents(front);
      assert p == front + [last];
      assert IntentsIn(p) == IntentsIn(front) + {last.intent};
      assert last.intent !in IntentsIn(front);
    }
  }

  /** There is one pending action for each different intent, neither more nor fewer. */
  lemma {:induction false} PendingCount(items: seq<Item>, answers: seq<Obligation>, p: seq<Action>)
    requires IsPending(p, Journal(items, answers))
    ensures |p| == |RecreateIntents(items)|
    ensures forall j, k | 0 <= j < k < |p| :: p[j].intent != p[k].intent
  {
    hide Journal, Intents, Latest, Unresolved, RecreateIntent;
    PendingIsRecreation(items, answers, p);
    forall j, k | 0 <= j < k < |p|
      ensures p[j].intent != p[k].intent
    {
      PrecedesIsStrict(Journal(items, answers), p[j].intent, p[k].intent);
    }
    DistinctIntents(p);
    assert IntentsIn(p) == RecreateIntents(items);
  }

  lemma {:induction false} PrecedesIsStrict(actions: seq<Action>, s: string, t: string)
    requires Precedes(actions, s, t)
    ensures s != t
  {
  }

  /** Names that do not hold the marks a label is built with, and are not those of a kind with its own constructor. */
  predicate Canonical(r: Resource) {
    && '/' !in ProviderName(r.provider) && ':' !in KindName(r.kind)
    && (r.provider.OtherProvider? ==> r.provider.name !in ["host", "docker", "entra", "cloudflare", "azure"])
    && (r.kind.OtherKind? ==> r.kind.name !in ["access-policy", "service-principal", "tunnel", "dns-record"])
  }

  lemma {:induction false} CutAtMark(a: string, b: string, mark: char, x: string, y: string)
    requires mark !in a && mark !in b && a + ([mark] + x) == b + ([mark] + y)
    ensures a == b && x == y
  {
    var s := a + ([mark] + x);
    assert s[|a|] == mark && s[|b|] == mark;
    assert forall k | 0 <= k < |a| :: s[k] == a[k];
    assert forall k | 0 <= k < |b| :: s[k] == b[k];
    assert |a| == |b|;
    assert s[..|a|] == a && s[..|b|] == b && s[|a| + 1..] == x && s[|b| + 1..] == y;
  }

  /** Such resources share a label only when they share provider, kind and name. */
  lemma {:induction false} LabelsApart(a: Resource, b: Resource)
    requires Canonical(a) && Canonical(b) && RecreateIntent(a) == RecreateIntent(b)
    ensures SameTriple(a, b)
  {
    hide ProviderName, KindName;
    var p, q, k, l := ProviderName(a.provider), ProviderName(b.provider), KindName(a.kind), KindName(b.kind);
    IntentParts(a);
    IntentParts(b);
    CutAtMark(p, q, '/', k + ([':'] + a.name), l + ([':'] + b.name));
    CutAtMark(k, l, ':', a.name, b.name);
    SameProvider(a.provider, b.provider);
    SameKind(a.kind, b.kind);
  }

  lemma {:induction false} IntentParts(r: Resource)
    ensures RecreateIntent(r)[|RECREATE|..]
            == ProviderName(r.provider) + (['/'] + (KindName(r.kind) + ([':'] + r.name)))
  {
    hide ProviderName, KindName;
    assert Label(r) == ProviderName(r.provider) + (['/'] + (KindName(r.kind) + ([':'] + r.name)));
  }

  lemma {:induction false} SameProvider(p: Provider, q: Provider)
    requires ProviderName(p) == ProviderName(q)
    requires p.OtherProvider? ==> p.name !in ["host", "docker", "entra", "cloudflare", "azure"]
    requires q.OtherProvider? ==> q.name !in ["host", "docker", "entra", "cloudflare", "azure"]
    ensures p == q
  {
    assert "host"[0] == 'h' && "docker"[0] == 'd' && "entra"[0] == 'e' && "cloudflare"[0] == 'c' && "azure"[0] == 'a';
  }

  lemma {:induction false} SameKind(k: Kind, l: Kind)
    requires KindName(k) == KindName(l)
    requires k.OtherKind? ==> k.name !in ["access-policy", "service-principal", "tunnel", "dns-record"]
    requires l.OtherKind? ==> l.name !in ["access-policy", "service-principal", "tunnel", "dns-record"]
    ensures k == l
  {
    assert "access-policy"[0] == 'a' && "service-principal"[0] == 's' && "tunnel"[0] == 't' && "dns-record"[0] == 'd';
  }

  /** The items a report asks to create again and the pending work of the new record correspond one to one. */
  lemma {:induction false} OneIntentPerItem(items: seq<Item>, answers: seq<Obligation>, p: seq<Action>)
    requires IsPending(p, Journal(items, answers)) && Apart(items)
    requires forall it | it in items :: Canonical(it.resource)
    ensures |p| == |Intents(items)|
    ensures forall i, j | 0 <= i < j < |items| && items[i].disposition == items[j].disposition == Recreate ::
              RecreateIntent(items[i].resource) != RecreateIntent(items[j].resource)
  {
    hide Canonical, Journal, IsPending, RecreateIntent;
    PendingCount(items, answers, p);
    forall i, j | 0 <= i < j < |items| && items[i].disposition == items[j].disposition == Recreate
      ensures RecreateIntent(items[i].resource) != RecreateIntent(items[j].resource)
    {
      assert items[i] in items && items[j] in items;
      if RecreateIntent(items[i].resource) == RecreateIntent(items[j].resource) {
        LabelsApart(items[i].resource, items[j].resource);
      }
    }
    IntentCount(items);
  }

  ghost predicate IntentsDiffer(items: seq<Item>) {
    forall i, j | 0 <= i < j < |items| && items[i].disposition == items[j].disposition == Recreate ::
      RecreateIntent(items[i].resource) != RecreateIntent(items[j].resource)
  }

  lemma {:induction false} IntentsMore(front: seq<Item>, last: Item)
    requires IntentsDiffer(front + [last])
    ensures IntentsDiffer(front)
    ensures last.disposition == Recreate ==> RecreateIntent(last.resource) !in RecreateIntents(front)
    ensures RecreateIntents(front + [last]) == if last.disposition == Recreate
                                               then RecreateIntents(front) + {RecreateIntent(last.resource)}
                                               else RecreateIntents(front)
  {
    hide RecreateIntent;
    var items := front + [last];
    assert items[|front|] == last && forall i | 0 <= i < |front| :: items[i] == front[i];
    assert forall it :: it in items <==> it in front || it == last;
  }

  lemma {:induction false} IntentCount(items: seq<Item>)
    requires IntentsDiffer(items)
    ensures |Intents(items)| == |RecreateIntents(items)|
  {
    if items != [] {
      var front, last := items[..|items| - 1], items[|items| - 1];
      assert items == front + [last];
      IntentsMore(front, last);
      IntentCount(front);
      hide RecreateIntent, RecreateIntents, IntentsDiffer;
    }
  }
}
