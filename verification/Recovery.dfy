/**
 * Bringing a lost deployment record back: internal/recover/recover.go and the parts of internal/state/state.go it
 * builds on. What each provider reports and which intents are unfinished are parameters.
 */
module Recovery {
  import opened Text

  /** The providers a record names, and the kinds of resource the rules single out. */
  datatype Provider = Host | Docker | Entra | Cloudflare | Azure | OtherProvider(name: string)
  datatype Kind = AccessPolicy | ServicePrincipal | Tunnel | DnsRecord | OtherKind(name: string)

  /** One recorded or live resource. Evidence text and timestamps are left out; they decide nothing. */
  datatype Resource = Resource(provider: Provider, kind: Kind, name: string, providerID: string)

  predicate SameTriple(a: Resource, b: Resource) {
    a.provider == b.provider && a.kind == b.kind && a.name == b.name
  }

  datatype Outcome = NoResult | Done | Failed | Uncertain

  datatype Action = Action(intent: string, finished: bool, outcome: Outcome)

  predicate Unresolved(a: Action) {
    !a.finished || a.outcome == Uncertain || a.outcome == Failed
  }

  // --- the deployment record ---------------------------------------------

  function Ensured(list: seq<Resource>, r: Resource): seq<Resource> {
    if exists e | e in list :: SameTriple(e, r) then list else list + [r]
  }

  /** The last attempt at an intent. */
  predicate Latest(actions: seq<Action>, i: nat) {
    i < |actions| && forall j | i < j < |actions| :: actions[j].intent != actions[i].intent
  }

  /** `s` was attempted before `t` first was. */
  ghost predicate Precedes(actions: seq<Action>, s: string, t: string) {
    exists i: nat :: i < |actions| && actions[i].intent == s && forall k | 0 <= k <= i :: actions[k].intent != t
  }

  ghost predicate InOrder(order: seq<string>, actions: seq<Action>) {
    forall j, k | 0 <= j < k < |order| :: Precedes(actions, order[j], order[k])
  }

  class State {
    var deployment: string
    var config: map<string, string>
    var changes: seq<string>
    var resources: seq<Resource>
    var actions: seq<Action>

    constructor (deployment: string, changes: seq<string>)
      ensures this.deployment == deployment && config == map[] && this.changes == changes
      ensures resources == [] && actions == []
    {
      this.deployment, this.changes := deployment, changes;
      config, resources, actions := map[], [], [];
    }

    method EnsureResource(r: Resource)
      modifies `resources
      ensures resources == Ensured(old(resources), r)
    {
      for i := 0 to |resources|
        invariant resources == old(resources)
        invariant forall j | 0 <= j < i :: !SameTriple(resources[j], r)
      {
        if SameTriple(resources[i], r) {
          return;
        }
      }
      resources := resources + [r];
    }

    /** The intents whose latest attempt did not succeed, each once, in order of first attempt. */
    method Pending() returns (p: seq<Action>)
      ensures IsPending(p, actions)
    {
      hide Latest, Precedes, Summary, Picked, InOrder;
      var latest, order := Collect();
      SummaryKeys(latest, order, actions);
      NothingPicked(latest, actions);
      p := [];
      assert order[..0] == [];
      for i := 0 to |order|
        invariant Picked(p, latest, order[..i], actions)
      {
        var a := latest[order[i]];
        PickedStep(p, latest, order, i, actions);
        if Unresolved(a) {
          p := p + [a];
        }
      }
      assert order[..|order|] == order;
      SummaryIsPending(latest, order, actions, p);
    }

    /** The first loop of Pending: the latest attempt at each intent. */
    method Collect() returns (latest: map<string, Action>, order: seq<string>)
      ensures Summary(latest, order, actions)
    {
      latest, order := map[], [];
      for i := 0 to |actions|
        invariant Summary(latest, order, actions[..i])
      {
        var a := actions[i];
        SummaryStep(latest, order, actions[..i], a);
        TakeStep(actions, i);
        if a.intent !in latest {
          order := order + [a.intent];
        }
        latest := latest[a.intent := a];
      }
      assert actions[..|actions|] == actions;
    }
  }

  /** Exactly the latest attempts that are unresolved, one per intent, in order of the first attempt at each. */
  ghost predicate IsPending(p: seq<Action>, actions: seq<Action>) {
    && (forall a | a in p :: exists i: nat :: Latest(actions, i) && actions[i] == a)
    && (forall i: nat | Latest(actions, i) ::
          actions[i] in p <==> !actions[i].finished || actions[i].outcome == Uncertain || actions[i].outcome == Failed)
    && (forall j, k | 0 <= j < k < |p| :: Precedes(actions, p[j].intent, p[k].intent))
  }

  /** The map holds the latest attempt at each intent. */
  ghost predicate Recent(latest: map<string, Action>, actions: seq<Action>) {
    && (forall s | s in latest ::
          latest[s].intent == s && exists i: nat :: Latest(actions, i) && actions[i] == latest[s])
    && (forall i: nat | Latest(actions, i) :: actions[i].intent in latest && latest[actions[i].intent] == actions[i])
  }

  ghost predicate Summary(latest: map<string, Action>, order: seq<string>, actions: seq<Action>) {
    (forall s :: s in latest <==> s in order) && InOrder(order, actions) && Recent(latest, actions)
  }

  /** One more attempt displaces only the earlier attempts at the same intent. */
  lemma {:induction false} LatestStep(actions: seq<Action>, a: Action)
    ensures Latest(actions + [a], |actions|)
    ensures forall i: nat | i < |actions| ::
              Latest(actions + [a], i) <==> Latest(actions, i) && actions[i].intent != a.intent
  {
    var more := actions + [a];
    assert more[|actions|] == a && forall j | 0 <= j < |actions| :: more[j] == actions[j];
    forall i: nat | i < |actions| && Latest(more, i)
      ensures Latest(actions, i)
    {
      assert forall j | i < j < |actions| :: more[j].intent != more[i].intent;
    }
  }

  lemma {:induction false} SummaryKeys(latest: map<string, Action>, order: seq<string>, actions: seq<Action>)
    requires Summary(latest, order, actions)
    ensures forall k | 0 <= k < |order| :: order[k] in latest && latest[order[k]].intent == order[k]
    ensures InOrder(order, actions)
  {
    forall k | 0 <= k < |order|
      ensures order[k] in latest
    {
      assert order[k] in order;
    }
  }

  lemma {:induction false} InOrderStep(order: seq<string>, actions: seq<Action>, a: Action)
    requires InOrder(order, actions)
    requires forall s | s in order :: exists i: nat :: i < |actions| && actions[i].intent == s
    requires a.intent in order || forall i | 0 <= i < |actions| :: actions[i].intent != a.intent
    ensures InOrder(if a.intent in order then order else order + [a.intent], actions + [a])
  {
    var more := actions + [a];
    forall s, t | Precedes(actions, s, t)
      ensures Precedes(more, s, t)
    {
      var i: nat :| i < |actions| && actions[i].intent == s && forall k | 0 <= k <= i :: actions[k].intent != t;
      assert more[i] == actions[i] && forall k | 0 <= k <= i :: more[k] == actions[k];
    }
    if a.intent !in order {
      forall s | s in order
        ensures Precedes(more, s, a.intent)
      {
        var i: nat :| i < |actions| && actions[i].intent == s;
        assert more[i] == actions[i] && forall k | 0 <= k <= i :: more[k] == actions[k];
      }
    }
  }

  lemma {:induction false} EveryIntent(latest: map<string, Action>, order: seq<string>, actions: seq<Action>, s: string)
    requires Summary(latest, order, actions)
    ensures s in order ==> exists i: nat :: i < |actions| && actions[i].intent == s
    ensures s !in order ==> forall i | 0 <= i < |actions| :: actions[i].intent != s
  {
    forall i: nat | i < |actions| && actions[i].intent == s
      ensures s in latest
    {
      var l := LastAttempt(actions, i);
    }
  }

  lemma {:induction false} LastAttempt(actions: seq<Action>, i: nat) returns (l: nat)
    requires i < |actions|
    ensures Latest(actions, l) && actions[l].intent == actions[i].intent
    decreases |actions| - i
  {
    l := i;
    if !Latest(actions, i) {
      var j :| i < j < |actions| && actions[j].intent == actions[i].intent;
      l := LastAttempt(actions, j);
    }
  }

  lemma {:induction false} RecentStep(latest: map<string, Action>, actions: seq<Action>, a: Action)
    requires Recent(latest, actions)
    ensures Recent(latest[a.intent := a], actions + [a])
  {
    LatestStep(actions, a);
    var now := latest[a.intent := a];
    forall s | s in now
      ensures now[s].intent == s && exists i: nat :: Latest(actions + [a], i) && (actions + [a])[i] == now[s]
    {
      if s == a.intent {
        assert (actions + [a])[|actions|] == now[s];
      } else {
        var i: nat :| Latest(actions, i) && actions[i] == latest[s];
        assert Latest(actions + [a], i);
      }
    }
  }

  lemma {:induction false} SummaryStep(latest: map<string, Action>, order: seq<string>, actions: seq<Action>, a: Action)
    requires Summary(latest, order, actions)
    ensures Summary(latest[a.intent := a], if a.intent in latest then order else order + [a.intent], actions + [a])
  {
    hide Recent, InOrder;
    RecentStep(latest, actions, a);
    forall s | s in order
      ensures exists i: nat :: i < |actions| && actions[i].intent == s
    {
      EveryIntent(latest, order, actions, s);
    }
    EveryIntent(latest, order, actions, a.intent);
    InOrderStep(order, actions, a);
  }

  /** The unresolved ones among the intents looked at, in their order. */
  ghost predicate Picked(p: seq<Action>, latest: map<string, Action>, seen: seq<string>, actions: seq<Action>) {
    && (forall a | a in p :: a.intent in seen && a.intent in latest && latest[a.intent] == a && Unresolved(a))
    && (forall s | s in seen :: s in latest && (Unresolved(latest[s]) ==> latest[s] in p))
    && (forall j, k | 0 <= j < k < |p| :: Precedes(actions, p[j].intent, p[k].intent))
  }

  lemma {:induction false} NothingPicked(latest: map<string, Action>, actions: seq<Action>)
    ensures Picked([], latest, [], actions)
  {
  }

  lemma {:induction false} PickedStep(p: seq<Action>, latest: map<string, Action>, order: seq<string>, i: nat,
                                      actions: seq<Action>)
    requires i < |order| && Picked(p, latest, order[..i], actions) && InOrder(order, actions)
    requires order[i] in latest && latest[order[i]].intent == order[i]
    ensures var a := latest[order[i]];
            Picked(if Unresolved(a) then p + [a] else p, latest, order[..i + 1], actions)
  {
    hide Precedes;
    TakeStep(order, i);
    assert forall s | s in order[..i] :: Precedes(actions, s, order[i]);
  }

  lemma {:induction false} SummaryIsPending(latest: map<string, Action>, order: seq<string>, actions: seq<Action>,
                                            p: seq<Action>)
    requires Summary(latest, order, actions) && Picked(p, latest, order, actions)
    ensures IsPending(p, actions)
  {
    hide InOrder, Precedes;
    forall i: nat | Latest(actions, i) && Unresolved(actions[i])
      ensures actions[i] in p
    {
      assert actions[i].intent in order;
    }
  }

  // --- reconciling -------------------------------------------------------

  datatype Disposition = Adopt | Recreate | Review | Rebuild | WithParent

  datatype Item = Item(resource: Resource, disposition: Disposition, providerID: string, recovered: bool,
                       retarget: bool)

  /** One provider's answer, or why there is none. */
  datatype Sweep = NotWired | Unreachable | Answer(owned: seq<Resource>, unowned: seq<Resource>)

  datatype Obligation = Obligation(intent: string, provider: Provider, answered: bool)

  predicate Local(provider: Provider) {
    provider.Host? || provider.Docker?
  }

  /** Resources whose ownership follows a parent. */
  predicate FollowsParent(r: Resource) {
    (r.provider.Cloudflare? && r.kind.AccessPolicy?) || (r.provider.Entra? && r.kind.ServicePrincipal?)
  }

  /** Resources no provider is consulted about: their recorded identifier stays. */
  predicate Stays(r: Resource) {
    FollowsParent(r) || Local(r.provider)
  }

  function ById(list: seq<Resource>, id: string): (m: Option<Resource>)
    ensures m.Some? ==> m.value in list && m.value.providerID == id
    ensures m.None? ==> forall e | e in list :: e.providerID != id
  {
    if list == [] then None else if list[0].providerID == id then Some(list[0]) else ById(list[1..], id)
  }

  function ByTriple(list: seq<Resource>, r: Resource): (m: Option<Resource>)
    ensures m.Some? ==> m.value in list && SameTriple(m.value, r)
    ensures m.None? ==>
              forall e | e in list :: !SameTriple(e, r)
  {
    if list == [] then None else if SameTriple(list[0], r) then Some(list[0]) else ByTriple(list[1..], r)
  }

  /** The identifier decides when both sides have one, the triple otherwise. */
  function Match(r: Resource, list: seq<Resource>): (m: Option<Resource>)
    ensures m.Some? ==> m.value in list
                        && ((r.providerID != "" && m.value.providerID == r.providerID) || SameTriple(m.value, r))
    ensures m.None? ==>
              forall e | e in list :: !SameTriple(e, r) && (r.providerID != "" ==> e.providerID != r.providerID)
  {
    if r.providerID != "" && ById(list, r.providerID).Some? then ById(list, r.providerID) else ByTriple(list, r)
  }

  function Classify(r: Resource, s: Sweep): Item {
    if FollowsParent(r) then Item(r, WithParent, r.providerID, false, false)
    else if Local(r.provider) then Item(r, Rebuild, r.providerID, false, false)
    else if !s.Answer? then Item(r, Review, r.providerID, false, false)
    else if Match(r, s.owned).Some? then Item(r, Adopt, Match(r, s.owned).value.providerID, false, false)
    else if Match(r, s.unowned).Some? then Item(r, Review, Match(r, s.unowned).value.providerID, false, false)
    else Item(r, Recreate, "", false, false)
  }

  function Ask(finders: map<Provider, Sweep>, provider: Provider): Sweep {
    if provider in finders then finders[provider] else NotWired
  }

  function Classified(record: seq<Resource>, finders: map<Provider, Sweep>): (items: seq<Item>)
    ensures |items| == |record|
    ensures forall i | 0 <= i < |record| :: items[i] == Classify(record[i], Ask(finders, record[i].provider))
  {
    seq(|record|, i requires 0 <= i < |record| => Classify(record[i], Ask(finders, record[i].provider)))
  }

  /** What a provider holds that no recorded resource matches. */
  function Unrecorded(live: seq<Resource>, record: seq<Resource>, d: Disposition): (items: seq<Item>)
    ensures forall it | it in items :: it.disposition == d && it.recovered && it.resource in live
                                       && it.providerID == it.resource.providerID && Match(it.resource, record).None?
    ensures forall e | e in live && Match(e, record).None? :: Item(e, d, e.providerID, true, false) in items
  {
    if live == [] then []
    else
      var rest := Unrecorded(live[1..], record, d);
      if Match(live[0], record).Some? then rest else [Item(live[0], d, live[0].providerID, true, false)] + rest
  }

  function Extras(s: Sweep, record: seq<Resource>): seq<Item> {
    if s.Answer? then Unrecorded(s.owned, record, Adopt) + Unrecorded(s.unowned, record, Review) else []
  }

  function AllExtras(order: seq<Provider>, finders: map<Provider, Sweep>, record: seq<Resource>): seq<Item> {
    if order == [] then []
    else AllExtras(order[..|order| - 1], finders, record) + Extras(Ask(finders, order[|order| - 1]), record)
  }

  /** The providers that are asked: those of the record and those an unfinished phase may have created at. */
  predicate Asked(provider: Provider, record: seq<Resource>, obligations: seq<Obligation>) {
    || (!Local(provider) && exists r | r in record :: r.provider == provider)
    || (exists o | o in obligations :: o.provider == provider)
  }

  ghost predicate Order(order: seq<Provider>, record: seq<Resource>, obligations: seq<Obligation>) {
    && (forall p :: p in order <==> Asked(p, record, obligations))
    && (forall i, j | 0 <= i < j < |order| :: order[i] != order[j])
  }

  predicate TunnelGone(items: seq<Item>) {
    exists it | it in items ::
      it.resource.provider.Cloudflare? && it.resource.kind.Tunnel? && it.disposition == Recreate
  }

  function Retargeted(it: Item, gone: bool): Item {
    if gone && it.resource.provider.Cloudflare? && it.resource.kind.DnsRecord? && it.disposition == Adopt
    then it.(retarget := true) else it
  }

  /** The whole report, for the order in which the providers were asked. */
  function Proposal(record: seq<Resource>, order: seq<Provider>, finders: map<Provider, Sweep>): (items: seq<Item>) {
    var plain := Classified(record, finders) + AllExtras(order, finders, record);
    seq(|plain|, i requires 0 <= i < |plain| => Retargeted(plain[i], TunnelGone(plain)))
  }

  function AnswerTo(o: Obligation, s: Sweep): Obligation {
    o.(answered := s.Answer?)
  }

  /** Each provider is asked once, in the order it first comes up. */
  method AskEach(record: seq<Resource>, obligations: seq<Obligation>, finders: map<Provider, Sweep>)
    returns (asked: map<Provider, Sweep>, providers: seq<Provider>)
    ensures Order(providers, record, obligations)
    ensures forall p :: p in asked <==> p in providers
    ensures forall p | p in asked :: asked[p] == Ask(finders, p)
  {
    asked, providers := map[], [];
    for i := 0 to |record|
      invariant Order(providers, record[..i], [])
      invariant forall p :: p in asked <==> p in providers
      invariant forall p | p in asked :: asked[p] == Ask(finders, p)
    {
      var p := record[i].provider;
      OrderRecord(providers, record[..i], record[i]);
      assert record[..i + 1] == record[..i] + [record[i]];
      if !Local(p) && p !in asked {
        asked, providers := asked[p := Ask(finders, p)], providers + [p];
      }
    }
    assert record[..|record|] == record;
    for i := 0 to |obligations|
      invariant Order(providers, record, obligations[..i])
      invariant forall p :: p in asked <==> p in providers
      invariant forall p | p in asked :: asked[p] == Ask(finders, p)
    {
      var p := obligations[i].provider;
      OrderObligation(providers, record, obligations[..i], obligations[i]);
      assert obligations[..i + 1] == obligations[..i] + [obligations[i]];
      if p !in asked {
        asked, providers := asked[p := Ask(finders, p)], providers + [p];
      }
    }
    assert obligations[..|obligations|] == obligations;
  }

  function WithProvider(order: seq<Provider>, p: Provider): seq<Provider> {
    if p in order then order else order + [p]
  }

  lemma {:induction false} OrderRecord(order: seq<Provider>, record: seq<Resource>, r: Resource)
    requires Order(order, record, [])
    ensures Order(if Local(r.provider) then order else WithProvider(order, r.provider), record + [r], [])
  {
    forall p
      ensures Asked(p, record + [r], []) <==> Asked(p, record, []) || (p == r.provider && !Local(p))
    {
      assert forall x :: x in record + [r] <==> x in record || x == r;
    }
  }

  lemma {:induction false} OrderObligation(order: seq<Provider>, record: seq<Resource>, obligations: seq<Obligation>,
                                           o: Obligation)
    requires Order(order, record, obligations)
    ensures Order(WithProvider(order, o.provider), record, obligations + [o])
  {
    forall p
      ensures Asked(p, record, obligations + [o]) <==> Asked(p, record, obligations) || p == o.provider
    {
      assert forall x :: x in obligations + [o] <==> x in obligations || x == o;
    }
  }

  /** A surviving DNS record is re-pointed when its tunnel has to be created again. */
  method Retarget(plain: seq<Item>) returns (items: seq<Item>)
    ensures |items| == |plain| && forall i | 0 <= i < |items| :: items[i] == Retargeted(plain[i], TunnelGone(plain))
  {
    items := plain;
    if TunnelGone(plain) {
      for i := 0 to |items|
        invariant |items| == |plain|
        invariant forall j | 0 <= j < |items| :: items[j] == if j < i then Retargeted(plain[j], true) else plain[j]
      {
        items := items[i := Retargeted(items[i], true)];
      }
    }
  }

  method Reconcile(record: seq<Resource>, obligations: seq<Obligation>, finders: map<Provider, Sweep>)
    returns (items: seq<Item>, answers: seq<Obligation>, ghost order: seq<Provider>)
    ensures Order(order, record, obligations)
    ensures items == Proposal(record, order, finders)
    ensures |answers| == |obligations|
    ensures forall i | 0 <= i < |answers| ::
              && answers[i].intent == obligations[i].intent && answers[i].provider == obligations[i].provider
              && (answers[i].answered <==>
                    obligations[i].provider in finders && finders[obligations[i].provider].Answer?)
  {
    var asked, providers := AskEach(record, obligations, finders);
    order := providers;
    items := ClassifyEach(record, finders, asked, obligations, order);
    items := AddExtras(items, record, finders, asked, providers);
    answers := AnswerEach(record, obligations, finders, asked);
    items := Retarget(items);
    assert items == Proposal(record, order, finders);
  }

  method ClassifyEach(record: seq<Resource>, ghost finders: map<Provider, Sweep>, asked: map<Provider, Sweep>,
                      ghost obligations: seq<Obligation>, ghost order: seq<Provider>) returns (items: seq<Item>)
    requires forall p :: p in asked <==> p in order
    requires forall p | p in asked :: asked[p] == Ask(finders, p)
    requires Order(order, record, obligations)
    ensures items == Classified(record, finders)
  {
    items := [];
    for i := 0 to |record|
      invariant items == Classified(record, finders)[..i]
    {
      var r := record[i];
      assert !Local(r.provider) ==> Asked(r.provider, record, obligations);
      items := items + [Classify(r, if r.provider in asked then asked[r.provider] else NotWired)];
    }
  }

  method AddExtras(start: seq<Item>, record: seq<Resource>, ghost finders: map<Provider, Sweep>,
                   asked: map<Provider, Sweep>,
                   providers: seq<Provider>) returns (items: seq<Item>)
    requires forall p :: p in asked <==> p in providers
    requires forall p | p in asked :: asked[p] == Ask(finders, p)
    ensures items == start + AllExtras(providers, finders, record)
  {
    items := start;
    for i := 0 to |providers|
      invariant items == start + AllExtras(providers[..i], finders, record)
    {
      var s := asked[providers[i]];
      TakeStep(providers, i);
      Regroup(start, AllExtras(providers[..i], finders, record), Extras(s, record));
      if s.Answer? {
        items := items + (Unrecorded(s.owned, record, Adopt) + Unrecorded(s.unowned, record, Review));
      }
    }
    assert providers[..|providers|] == providers;
  }

  method AnswerEach(ghost record: seq<Resource>, obligations: seq<Obligation>, ghost finders: map<Provider, Sweep>,
                    asked: map<Provider, Sweep>) returns (answers: seq<Obligation>)
    requires forall p | p in asked :: asked[p] == Ask(finders, p)
    requires forall o | o in obligations :: o.provider in asked
    ensures |answers| == |obligations|
    ensures forall i | 0 <= i < |answers| ::
              answers[i] == AnswerTo(obligations[i], Ask(finders, obligations[i].provider))
  {
    answers := [];
    for i := 0 to |obligations|
      invariant |answers| == i
      invariant forall j | 0 <= j < i :: answers[j] == AnswerTo(obligations[j], Ask(finders, obligations[j].provider))
    {
      assert obligations[i] in obligations;
      answers := answers + [AnswerTo(obligations[i], asked[obligations[i].provider])];
    }
  }

  // --- the record for the replacement host -------------------------------

  const RESTORED := "recover:restore"
  const RECREATE := "recover:recreate:"
  const RECONCILED := "recover:reconciled:"

  function ProviderName(p: Provider): string {
    match p
    case Host => "host"
    case Docker => "docker"
    case Entra => "entra"
    case Cloudflare => "cloudflare"
    case Azure => "azure"
    case OtherProvider(name) => name
  }

  function KindName(k: Kind): string {
    match k
    case AccessPolicy => "access-policy"
    case ServicePrincipal => "service-principal"
    case Tunnel => "tunnel"
    case DnsRecord => "dns-record"
    case OtherKind(name) => name
  }

  function Label(r: Resource): string {
    ProviderName(r.provider) + "/" + KindName(r.kind) + ":" + r.name
  }

  function RecreateIntent(r: Resource): string {
    RECREATE + Label(r)
  }

  /** What the record keeps of one item. */
  function Kept(it: Item): Resource {
    match it.disposition
    case Adopt => it.resource.(providerID := it.providerID)
    case Recreate => it.resource.(providerID := "")
    case _ => it.resource
  }

  function Record(items: seq<Item>): seq<Resource> {
    if items == [] then [] else Ensured(Record(items[..|items| - 1]), Kept(items[|items| - 1]))
  }

  function Intents(items: seq<Item>): seq<Action> {
    if items == [] then []
    else
      var last := items[|items| - 1];
      var front := Intents(items[..|items| - 1]);
      if last.disposition == Recreate then front + [Action(RecreateIntent(last.resource), false, NoResult)] else front
  }

  function Reconciled(answers: seq<Obligation>): seq<Action> {
    seq(|answers|, i requires 0 <= i < |answers| => Action(RECONCILED + answers[i].intent, true, Done))
  }

  predicate RequiresReview(items: seq<Item>, answers: seq<Obligation>) {
    (exists it | it in items :: it.disposition == Review) || (exists o | o in answers :: !o.answered)
  }

  function Journal(items: seq<Item>, answers: seq<Obligation>): seq<Action> {
    [Action(RESTORED, true, Done)] + (Intents(items) + Reconciled(answers))
  }

  /** What the restored record takes over unchanged: identity, configuration, and the changes made to settings. */
  datatype Carried = Carried(deployment: string, config: map<string, string>, changes: seq<string>)

  const RECOVERED_AT := "recovered-at"
  const RECOVERED_FROM := "recovered-from"

  /** Copies the old configuration entry by entry. */
  method CopyConfig(config: map<string, string>) returns (copy: map<string, string>)
    ensures copy == config
  {
    copy := map[];
    var left := config.Keys;
    while left != {}
      invariant left <= config.Keys && copy == map k | k in config && k !in left :: config[k]
      decreases left
    {
      var k :| k in left;
      copy, left := copy[k := config[k]], left - {k};
    }
  }

  method Restore(lost: Carried, items: seq<Item>, answers: seq<Obligation>, file: string, now: string)
    returns (st: State?)
    ensures st == null <==> (exists it | it in items :: it.disposition == Review)
                            || exists o | o in answers :: !o.answered
    ensures st != null ==> fresh(st) && st.resources == Record(items) && st.actions == Journal(items, answers)
    ensures st != null ==> st.deployment == lost.deployment && st.changes == lost.changes
    ensures st != null ==> st.config == lost.config[RECOVERED_AT := now][RECOVERED_FROM := file]
  {
    if RequiresReview(items, answers) {
      return null;
    }
    var config := CopyConfig(lost.config);
    st := new State(lost.deployment, lost.changes);
    st.config := config[RECOVERED_AT := now][RECOVERED_FROM := file];
    AddItems(st, items);
    AddAnswers(st, items, answers);
    st.actions := [Action(RESTORED, true, Done)] + st.actions;
  }

  /** One entry for each item, and one journalled intent for each that has to be created again. */
  method AddItems(st: State, items: seq<Item>)
    requires st.resources == [] && st.actions == []
    modifies st`resources, st`actions
    ensures st.resources == Record(items) && st.actions == Intents(items)
  {
    for i := 0 to |items|
      invariant st.resources == Record(items[..i]) && st.actions == Intents(items[..i])
    {
      var it := items[i];
      var r := it.resource;
      if it.disposition == Adopt {
        r := r.(providerID := it.providerID);
      } else if it.disposition == Recreate {
        r := r.(providerID := "");
        st.actions := st.actions + [Action(RecreateIntent(r), false, NoResult)];
      }
      st.EnsureResource(r);
      assert items[..i + 1][..i] == items[..i];
    }
    assert items[..|items|] == items;
  }

  /** Every unfinished phase of the lost host, with its answer. */
  method AddAnswers(st: State, ghost items: seq<Item>, answers: seq<Obligation>)
    requires st.actions == Intents(items)
    modifies st`actions
    ensures st.actions == Intents(items) + Reconciled(answers)
  {
    for i := 0 to |answers|
      invariant st.actions == Intents(items) + Reconciled(answers[..i])
    {
      var a := Action(RECONCILED + answers[i].intent, true, Done);
      st.actions := st.actions + [a];
      assert Reconciled(answers[..i + 1]) == Reconciled(answers[..i]) + [a];
    }
    assert answers[..|answers|] == answers;
  }
}
