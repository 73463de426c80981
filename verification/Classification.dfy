/** What Reconcile says of each resource, and when that stops a recovery, in terms of what the providers hold. */
module Classification {
  import opened Text
  import opened Recovery
  import RecoveryLaws

  /** The two are one resource as far as a recovery can tell: by identifier, or by provider, type and name. */
  predicate Shares(r: Resource, e: Resource) {
    (r.providerID != "" && e.providerID == r.providerID) || SameTriple(e, r)
  }

  predicate SharedIn(r: Resource, list: seq<Resource>) {
    exists e | e in list :: Shares(r, e)
  }

  /** Its ownership follows a parent's, or it lives on the host that was lost. */
  predicate Apart(r: Resource) {
    || (r.provider == Cloudflare && r.kind == AccessPolicy) || (r.provider == Entra && r.kind == ServicePrincipal)
    || r.provider == Host || r.provider == Docker
  }

  /** Its provider was asked and answered. */
  predicate Known(finders: map<Provider, Sweep>, p: Provider) {
    p in finders && finders[p].Answer?
  }

  function Marked(finders: map<Provider, Sweep>, p: Provider): seq<Resource> {
    if Known(finders, p) then finders[p].owned else []
  }

  function Unmarked(finders: map<Provider, Sweep>, p: Provider): seq<Resource> {
    if Known(finders, p) then finders[p].unowned else []
  }

  lemma {:induction false} MatchIsShared(r: Resource, list: seq<Resource>)
    ensures Match(r, list).Some? <==> SharedIn(r, list)
    ensures Match(r, list).Some? ==> Shares(r, Match(r, list).value)
    ensures (exists e | e in list :: r.providerID != "" && e.providerID == r.providerID) ==>
              Match(r, list).Some? && Match(r, list).value.providerID == r.providerID
  {
  }

  /** The place of a recorded resource in the report. */
  lemma {:induction false} ItemOf(record: seq<Resource>, order: seq<Provider>, finders: map<Provider, Sweep>, i: nat)
    requires i < |record|
    ensures i < |Proposal(record, order, finders)|
    ensures Proposal(record, order, finders)[i].(retarget := false)
            == Classify(record[i], Ask(finders, record[i].provider))
  {
  }

  /**
   * Every recorded resource gets one disposition. It is created again exactly when its provider answered and holds
   * nothing that could be it, with the marker or without; adopted exactly when something with the marker could be it;
   * and in every other case nothing is decided: it is for review.
   */
  lemma {:induction false} RecordedExactly(record: seq<Resource>, order: seq<Provider>,
                                           finders: map<Provider, Sweep>, i: nat)
    requires i < |record|
    ensures i < |Proposal(record, order, finders)|
    ensures var r, it := record[i], Proposal(record, order, finders)[i];
            var p := r.provider;
            && it.resource == r && !it.recovered
            && (it.disposition == WithParent <==> Apart(r) && p != Host && p != Docker)
            && (it.disposition == Rebuild <==> p == Host || p == Docker)
            && (it.disposition == Recreate <==>
                  && !Apart(r) && Known(finders, p)
                  && !SharedIn(r, Marked(finders, p)) && !SharedIn(r, Unmarked(finders, p)))
            && (it.disposition == Adopt <==> !Apart(r) && SharedIn(r, Marked(finders, p)))
            && (it.disposition == Review <==>
                  && !Apart(r) && !SharedIn(r, Marked(finders, p))
                  && (!Known(finders, p) || SharedIn(r, Unmarked(finders, p))))
  {
    ItemOf(record, order, finders, i);
    var r := record[i];
    MatchIsShared(r, Marked(finders, r.provider));
    MatchIsShared(r, Unmarked(finders, r.provider));
    hide Match, SharedIn, Proposal;
  }

  /** An adopted resource gets the identifier of one that could be it: its own, when that is still there. */
  lemma {:induction false} AdoptedIdentifier(record: seq<Resource>, order: seq<Provider>,
                                             finders: map<Provider, Sweep>, i: nat)
    requires i < |record| && i < |Proposal(record, order, finders)|
    requires Proposal(record, order, finders)[i].disposition == Adopt
    ensures var r, it, marked := record[i], Proposal(record, order, finders)[i], Marked(finders, record[i].provider);
            && (exists e | e in marked :: Shares(r, e) && it.providerID == e.providerID)
            && (r.providerID != "" && (exists e | e in marked :: e.providerID == r.providerID) ==>
                  it.providerID == r.providerID)
  {
    ItemOf(record, order, finders, i);
    RecordedExactly(record, order, finders, i);
    MatchIsShared(record[i], Marked(finders, record[i].provider));
    hide Match, SharedIn, Proposal;
  }

  /** The rest of the report: what the providers hold that no recorded resource could be. */
  lemma {:induction false} UnrecordedExactly(live: seq<Resource>, record: seq<Resource>, d: Disposition, it: Item)
    ensures it in Unrecorded(live, record, d) <==>
              && it == Item(it.resource, d, it.resource.providerID, true, false)
              && it.resource in live && !SharedIn(it.resource, record)
  {
    hide Match;
    MatchIsShared(it.resource, record);
    if live != [] {
      UnrecordedExactly(live[1..], record, d, it);
    }
  }

  lemma {:induction false} FoundExactly(order: seq<Provider>, finders: map<Provider, Sweep>, record: seq<Resource>,
                                        it: Item)
    ensures it in AllExtras(order, finders, record) <==>
              && it == Item(it.resource, it.disposition, it.resource.providerID, true, false)
              && !SharedIn(it.resource, record)
              && exists p | p in order ::
                   || (it.disposition == Adopt && it.resource in Marked(finders, p))
                   || (it.disposition == Review && it.resource in Unmarked(finders, p))
  {
    hide SharedIn, Unrecorded;
    if order != [] {
      var front, last := order[..|order| - 1], order[|order| - 1];
      FoundExactly(front, finders, record, it);
      UnrecordedExactly(Marked(finders, last), record, Adopt, it);
      UnrecordedExactly(Unmarked(finders, last), record, Review, it);
      assert forall p :: p in order <==> p in front || p == last;
      if Known(finders, last) {
        assert Extras(Ask(finders, last), record)
               == Unrecorded(Marked(finders, last), record, Adopt)
                  + Unrecorded(Unmarked(finders, last), record, Review);
      }
    }
  }

  /** A tunnel of the record is gone at its provider. */
  ghost predicate TunnelLost(record: seq<Resource>, finders: map<Provider, Sweep>) {
    exists r | r in record :: LostTunnel(finders, r)
  }

  predicate LostTunnel(finders: map<Provider, Sweep>, r: Resource) {
    && r.provider == Cloudflare && r.kind == Tunnel && Known(finders, Cloudflare)
    && !SharedIn(r, Marked(finders, Cloudflare)) && !SharedIn(r, Unmarked(finders, Cloudflare))
  }

  lemma {:induction false} GoneIsLost(record: seq<Resource>, order: seq<Provider>, finders: map<Provider, Sweep>)
    ensures TunnelGone(Classified(record, finders) + AllExtras(order, finders, record)) <==> TunnelLost(record, finders)
  {
    hide SharedIn, Classified, AllExtras;
    var plain := Classified(record, finders) + AllExtras(order, finders, record);
    PlainRecreated(record, order, finders);
    if r :| r in record && LostTunnel(finders, r) {
      var i :| 0 <= i < |record| && record[i] == r;
      assert plain[i] in plain;
    }
    if it :| it in plain && it.resource.provider == Cloudflare && it.resource.kind == Tunnel
             && it.disposition == Recreate {
      var i :| 0 <= i < |plain| && plain[i] == it;
      assert record[i] in record;
    }
  }

  /** What is to be created again is a recorded resource that no answer shows. */
  lemma {:induction false} PlainRecreated(record: seq<Resource>, order: seq<Provider>, finders: map<Provider, Sweep>)
    ensures var plain := Classified(record, finders) + AllExtras(order, finders, record);
            && |record| <= |plain|
            && (forall i | 0 <= i < |record| ::
                  && plain[i].resource == record[i]
                  && (plain[i].disposition == Recreate <==>
                        && !Apart(record[i]) && Known(finders, record[i].provider)
                        && !SharedIn(record[i], Marked(finders, record[i].provider))
                        && !SharedIn(record[i], Unmarked(finders, record[i].provider))))
            && forall i | |record| <= i < |plain| :: plain[i].disposition != Recreate
  {
    hide SharedIn, AllExtras, Apart, Classify;
    var plain := Classified(record, finders) + AllExtras(order, finders, record);
    forall i | 0 <= i < |record|
      ensures plain[i].resource == record[i]
      ensures plain[i].disposition == Recreate <==>
                && !Apart(record[i]) && Known(finders, record[i].provider)
                && !SharedIn(record[i], Marked(finders, record[i].provider))
                && !SharedIn(record[i], Unmarked(finders, record[i].provider))
    {
      ItemOf(record, order, finders, i);
      RecordedExactly(record, order, finders, i);
    }
    forall i | |record| <= i < |plain|
      ensures plain[i].disposition != Recreate
    {
      assert plain[i] in AllExtras(order, finders, record);
      FoundExactly(order, finders, record, plain[i]);
    }
  }

  /** A record of the name service is re-pointed exactly when it is adopted and a recorded tunnel is gone. */
  lemma {:induction false} RepointedExactly(record: seq<Resource>, order: seq<Provider>,
                                            finders: map<Provider, Sweep>, it: Item)
    requires it in Proposal(record, order, finders)
    ensures it.retarget <==>
              && it.resource.provider == Cloudflare && it.resource.kind == DnsRecord && it.disposition == Adopt
              && TunnelLost(record, finders)
  {
    hide SharedIn, TunnelLost, Classify;
    GoneIsLost(record, order, finders);
    var plain := Classified(record, finders) + AllExtras(order, finders, record);
    var i :| 0 <= i < |plain| && Proposal(record, order, finders)[i] == it;
    PlainIsNotMarked(record, order, finders, plain[i]);
    hide Classified, AllExtras, TunnelGone;
  }

  lemma {:induction false} PlainIsNotMarked(record: seq<Resource>, order: seq<Provider>,
                                            finders: map<Provider, Sweep>, it: Item)
    requires it in Classified(record, finders) + AllExtras(order, finders, record)
    ensures !it.retarget
  {
    FoundExactly(order, finders, record, it);
  }

  /** Nothing can be decided about this recorded resource. */
  predicate Undecided(finders: map<Provider, Sweep>, r: Resource) {
    && !Apart(r) && !SharedIn(r, Marked(finders, r.provider))
    && (!Known(finders, r.provider) || SharedIn(r, Unmarked(finders, r.provider)))
  }

  /** A provider that was asked holds something under this deployment's naming, without the marker, not recorded. */
  predicate Foreign(order: seq<Provider>, finders: map<Provider, Sweep>, record: seq<Resource>) {
    exists p | p in order :: exists e | e in Unmarked(finders, p) :: !SharedIn(e, record)
  }

  /**
   * When a recovery is refused: exactly when nothing can be decided about a recorded resource, something unmarked is
   * in the way, or the provider of an unfinished phase did not answer.
   */
  lemma {:induction false} RefusedExactly(record: seq<Resource>, obligations: seq<Obligation>, order: seq<Provider>,
                                          finders: map<Provider, Sweep>, answers: seq<Obligation>)
    requires |answers| == |obligations|
    requires forall i | 0 <= i < |answers| :: answers[i].answered <==> Known(finders, obligations[i].provider)
    ensures RequiresReview(Proposal(record, order, finders), answers) <==>
              || (exists r | r in record :: Undecided(finders, r))
              || Foreign(order, finders, record)
              || (exists o | o in obligations :: !Known(finders, o.provider))
  {
    hide SharedIn, Classify, Marked, Unmarked, Apart;
    var items := Proposal(record, order, finders);
    ReviewedExactly(record, order, finders);
    hide Proposal, Undecided, Foreign;
    if o :| o in obligations && !Known(finders, o.provider) {
      var i :| 0 <= i < |obligations| && obligations[i] == o;
      assert answers[i] in answers;
    }
    if o :| o in answers && !o.answered {
      var i :| 0 <= i < |answers| && answers[i] == o;
      assert obligations[i] in obligations;
    }
  }

  lemma {:induction false} ReviewedExactly(record: seq<Resource>, order: seq<Provider>, finders: map<Provider, Sweep>)
    ensures (exists it | it in Proposal(record, order, finders) :: it.disposition == Review) <==>
              (exists r | r in record :: Undecided(finders, r)) || Foreign(order, finders, record)
  {
    hide SharedIn, Classify, Classified, AllExtras, Apart, Marked, Unmarked;
    var items := Proposal(record, order, finders);
    var plain := Classified(record, finders) + AllExtras(order, finders, record);
    if r :| r in record && Undecided(finders, r) {
      var i :| 0 <= i < |record| && record[i] == r;
      RecordedExactly(record, order, finders, i);
      assert items[i] in items;
    }
    if p, e :| p in order && e in Unmarked(finders, p) && !SharedIn(e, record) {
      var it := Item(e, Review, e.providerID, true, false);
      FoundExactly(order, finders, record, it);
      assert it in plain;
      var i :| 0 <= i < |plain| && plain[i] == it;
      assert items[i] in items;
    }
    if it :| it in items && it.disposition == Review {
      var i :| 0 <= i < |items| && items[i] == it;
      if i < |record| {
        RecordedExactly(record, order, finders, i);
        assert Undecided(finders, record[i]);
      } else {
        assert plain[i] in AllExtras(order, finders, record);
        FoundExactly(order, finders, record, plain[i]);
      }
    }
  }

  /** A recorded resource in the cloud whose provider did not answer is enough. */
  lemma {:induction false} SilenceRefuses(record: seq<Resource>, order: seq<Provider>, finders: map<Provider, Sweep>,
                                          answers: seq<Obligation>, r: Resource)
    requires r in record && !Apart(r) && !Known(finders, r.provider)
    ensures RequiresReview(Proposal(record, order, finders), answers)
  {
    hide SharedIn, Classify, Proposal;
    ReviewedExactly(record, order, finders);
    assert Marked(finders, r.provider) == [];
    assert Undecided(finders, r) by {
      NothingIsShared(r);
    }
  }

  /**
   * What the restored record says of a recorded resource: the same provider, type and name; no identifier when it is
   * to be created again, that of one that could be it when it was found with the marker, and otherwise its own.
   */
  lemma {:induction false} RestoredExactly(record: seq<Resource>, obligations: seq<Obligation>, order: seq<Provider>,
                                           finders: map<Provider, Sweep>, answers: seq<Obligation>, i: nat)
    requires Order(order, record, obligations) && RecoveryLaws.Faithful(record, order, finders)
    requires !RequiresReview(Proposal(record, order, finders), answers) && i < |record|
    ensures i < |Record(Proposal(record, order, finders))|
    ensures var r, restored := record[i], Record(Proposal(record, order, finders))[i];
            && SameTriple(restored, r)
            && (Apart(r) ==> restored == r)
            && (!Apart(r) && SharedIn(r, Marked(finders, r.provider)) ==>
                  exists e | e in Marked(finders, r.provider) :: Shares(r, e) && restored.providerID == e.providerID)
            && (!Apart(r) && !SharedIn(r, Marked(finders, r.provider)) ==> restored.providerID == "")
  {
    hide SharedIn, Marked, Unmarked, Order, RecoveryLaws.Faithful, Classify, Known, Apart, Shares;
    RecoveryLaws.OneEntryPerItem(record, obligations, order, finders, answers);
    RecordedExactly(record, order, finders, i);
    var it := Proposal(record, order, finders)[i];
    assert it in Proposal(record, order, finders);
    hide Proposal;
    if it.disposition == Adopt {
      AdoptedIdentifier(record, order, finders, i);
    }
  }

  lemma {:induction false} NothingIsShared(r: Resource)
    ensures !SharedIn(r, [])
  {
  }
}
