/** From candidate lists to the published maps, and what holds of every published map. */
module RoutingPublication {
  import opened Wrappers
  import opened Text
  import opened ProviderSelection
  import opened RoutingCandidates
  import opened RoutingMaps

  /** The three routability checks of confidential mode. */
  datatype Verifier = Verifier(
    proven: (Provider, Model, string) -> bool,
    reachable: (Provider, Model) -> bool,
    publishable: (Provider, Model, string) -> bool)

  predicate Passes(v: Verifier, alias: string, c: Candidate) {
    && v.proven(c.upstream.provider, c.model, alias)
    && v.reachable(c.upstream.provider, c.model)
    && v.publishable(c.upstream.provider, c.model, alias)
  }

  datatype Shape = Shape(id: string, forwarded: Option<string>, endpoints: Option<seq<string>>)

  function NormalEndpoints(xs: seq<string>): seq<string> {
    if xs == [] then []
    else if Strip(xs[0]) == "" then NormalEndpoints(xs[1..])
    else [Lower(Strip(xs[0]))] + NormalEndpoints(xs[1..])
  }

  /** What a fallback must share with the selected model to be forwarded the same request. */
  function ShapeOf(m: Model): Shape {
    match RouteOf(m)
    case None => Shape("", None, None)
    case Some(r) =>
      Shape(Lower(r.id), if r.forwarded.Some? then Some(Lower(r.forwarded.value)) else None,
            if m.endpoints.Some? then Some(Sort(NormalEndpoints(m.endpoints.value))) else None)
  }

  predicate SameNames(a: Option<string>, b: Option<string>) {
    a.Some? == b.Some? && (a.Some? ==> Lower(Strip(a.value)) == Lower(Strip(b.value)))
  }

  /** Endpoints are read one by one, lowercased and without outer space; blank ones are skipped. */
  lemma {:induction false} EndpointsExactly(xs: seq<string>, ys: seq<string>)
    ensures NormalEndpoints(xs + ys) == NormalEndpoints(xs) + NormalEndpoints(ys)
    ensures forall x :: NormalEndpoints([x]) == if Strip(x) == "" then [] else [Lower(Strip(x))]
  {
    hide Strip, Lower;
    forall x
      ensures NormalEndpoints([x]) == if Strip(x) == "" then [] else [Lower(Strip(x))]
    {
      assert [x][1..] == [] && NormalEndpoints([]) == [];
    }
    if xs == [] {
      assert xs + ys == ys;
    } else {
      assert (xs + ys)[1..] == xs[1..] + ys;
      EndpointsExactly(xs[1..], ys);
    }
  }

  /** Two well-named models have one forwarding shape if and only if they agree, up to letter case and outer space, on
      id, forwarded id and, whatever their order, the endpoints; models without proper names all have the same. */
  lemma ShapeExactly(m: Model, n: Model)
    ensures WellNamed(m) && WellNamed(n) ==>
      (ShapeOf(m) == ShapeOf(n) <==>
        && Lower(Strip(m.id)) == Lower(Strip(n.id)) && SameNames(m.forwardedId, n.forwardedId)
        && m.endpoints.Some? == n.endpoints.Some?
        && (m.endpoints.Some? ==> multiset(NormalEndpoints(m.endpoints.value)) == multiset(NormalEndpoints(n.endpoints.value))))
    ensures WellNamed(m) != WellNamed(n) ==> ShapeOf(m) != ShapeOf(n)
    ensures !WellNamed(m) && !WellNamed(n) ==> ShapeOf(m) == ShapeOf(n)
  {
    hide Strip, Lower, Sort, NormalEndpoints, WellNamed, RouteOf;
    NamedShape(m);
    NamedShape(n);
    if m.endpoints.Some? && n.endpoints.Some? {
      SortIsCanonical(NormalEndpoints(m.endpoints.value), NormalEndpoints(n.endpoints.value));
    }
  }

  lemma NamedShape(m: Model)
    ensures !WellNamed(m) ==> ShapeOf(m) == Shape("", None, None)
    ensures WellNamed(m) ==>
      ShapeOf(m) == Shape(Lower(Strip(m.id)), if m.forwardedId.Some? then Some(Lower(Strip(m.forwardedId.value))) else None,
                          if m.endpoints.Some? then Some(Sort(NormalEndpoints(m.endpoints.value))) else None)
    ensures WellNamed(m) ==> ShapeOf(m).id != ""
  {
    hide Strip;
    if RouteOf(m).Some? {
      RouteOfExactly(m, RouteOf(m).value);
    } else {
      RouteOfExactly(m, Route("", None, [], None));
    }
  }

  function Routable(v: Verifier, alias: string, cs: seq<Candidate>): (r: seq<Candidate>)
    ensures forall c :: c in r <==> c in cs && Passes(v, alias, c)
  {
    if cs == [] then []
    else if Passes(v, alias, cs[|cs| - 1]) then Routable(v, alias, cs[..|cs| - 1]) + [cs[|cs| - 1]]
    else Routable(v, alias, cs[..|cs| - 1])
  }

  function SameShape(cs: seq<Candidate>, shape: Shape): (r: seq<Candidate>)
    ensures forall c :: c in r <==> c in cs && ShapeOf(c.model) == shape
    ensures cs != [] && ShapeOf(cs[0].model) == shape ==> r != [] && r[0] == cs[0]
  {
    if cs == [] then []
    else if ShapeOf(cs[|cs| - 1].model) == shape then SameShape(cs[..|cs| - 1], shape) + [cs[|cs| - 1]]
    else SameShape(cs[..|cs| - 1], shape)
  }

  lemma {:induction false} RoutableStaysSorted(v: Verifier, alias: string, cs: seq<Candidate>)
    requires RankedBestFirst(alias, cs)
    ensures RankedBestFirst(alias, Routable(v, alias, cs))
  {
    if cs != [] {
      var front := cs[..|cs| - 1];
      RoutableStaysSorted(v, alias, front);
      var kept := Routable(v, alias, front);
      forall i | 0 <= i < |kept|
        ensures !Better(RankOf(alias, cs[|cs| - 1]), RankOf(alias, kept[i]))
      {
        assert kept[i] in front;
      }
    }
  }

  lemma {:induction false} SameShapeStaysSorted(alias: string, cs: seq<Candidate>, shape: Shape)
    requires RankedBestFirst(alias, cs)
    ensures RankedBestFirst(alias, SameShape(cs, shape))
  {
    if cs != [] {
      var front := cs[..|cs| - 1];
      SameShapeStaysSorted(alias, front, shape);
      var kept := SameShape(front, shape);
      forall i | 0 <= i < |kept|
        ensures !Better(RankOf(alias, cs[|cs| - 1]), RankOf(alias, kept[i]))
      {
        assert kept[i] in front;
      }
    }
  }

  /** The candidates an alias is published with, best first; empty when the alias is not published. */
  function Listed(confidential: bool, v: Verifier, alias: string, items: seq<Candidate>): seq<Candidate> {
    var ranked := Ranked(alias, items);
    if !confidential then ranked
    else
      var ok := Routable(v, alias, ranked);
      if ok == [] then [] else SameShape(ok, ShapeOf(ok[0].model))
  }

  function UpstreamsOf(cs: seq<Candidate>): (r: seq<Upstream>)
    ensures |r| == |cs| && forall i :: 0 <= i < |cs| ==> r[i] == cs[i].upstream
  {
    if cs == [] then [] else UpstreamsOf(cs[..|cs| - 1]) + [cs[|cs| - 1].upstream]
  }

  // ---------- What a published list is ----------

  /** Outside confidential mode: all candidates, and no other, best first. */
  lemma PlainListIsRanking(v: Verifier, alias: string, items: seq<Candidate>)
    ensures var l := Listed(false, v, alias, items);
      StableRanking(alias, l, items) && RankedBestFirst(alias, l) && SameMembers(l, items)
  {
    RankedIsSorted(alias, items);
    StableRankingExactly(alias, Ranked(alias, items), items);
  }

  /** In confidential mode: best first; exactly the candidates that pass all checks and share the forwarding
      shape of the head, which no candidate that passes outranks; empty only when none passes. */
  lemma ConfidentialListIsVerified(v: Verifier, alias: string, items: seq<Candidate>)
    ensures var l := Listed(true, v, alias, items);
      && RankedBestFirst(alias, l)
      && (l == [] <==> forall c :: c in items ==> !Passes(v, alias, c))
      && (l != [] ==>
            && (forall c :: c in l <==> c in items && Passes(v, alias, c) && ShapeOf(c.model) == ShapeOf(l[0].model))
            && (forall c :: c in items && Passes(v, alias, c) ==> !Better(RankOf(alias, c), RankOf(alias, l[0]))))
  {
    RankedIsSorted(alias, items);
    var ranked := Ranked(alias, items);
    var ok := Routable(v, alias, ranked);
    RoutableStaysSorted(v, alias, ranked);
    if ok == [] {
      assert forall c :: c !in ok;
    } else {
      assert ok[0] in ok;
      SameShapeStaysSorted(alias, ok, ShapeOf(ok[0].model));
      forall c | c in items && Passes(v, alias, c)
        ensures !Better(RankOf(alias, c), RankOf(alias, ok[0]))
      {
        assert c in ok;
        var i :| 0 <= i < |ok| && ok[i] == c;
      }
    }
  }

  // ---------- Building the maps ----------

  type Lists = map<string, seq<Candidate>>

  /** The list of every published alias. */
  function ListsOf(confidential: bool, v: Verifier, cs: Candidates): (r: Lists)
    ensures forall a :: a in r ==> r[a] != []
  {
    map a | a in cs && Listed(confidential, v, a, cs[a]) != [] :: Listed(confidential, v, a, cs[a])
  }

  /** The aliases done so far, with the model and the providers of their lists. */
  ghost predicate MapsOf(lists: Lists, done: set<string>, instances: map<string, Model>, providers: map<string, seq<Upstream>>) {
    && (forall a :: a in instances <==> a in done && a in lists)
    && (forall a :: a in providers <==> a in instances)
    && (forall a :: a in instances ==> MapsEntry(lists, a, instances[a], providers[a]))
  }

  predicate MapsEntry(lists: Lists, alias: string, m: Model, us: seq<Upstream>) {
    alias in lists && lists[alias] != [] && m == lists[alias][0].model && us == UpstreamsOf(lists[alias])
  }

  function AdvertKey(m: Model, alias: string): string {
    var forwarded := LowerNonEmpty(m.forwardedId);
    if forwarded.Some? then forwarded.value else alias
  }

  /** In confidential mode the advertised models are published aliases with their best provider, one for each
      key that a published alias has. */
  ghost predicate Advertises(lists: Lists, done: set<string>, unique: map<string, Listing>) {
    && (forall k :: k in unique ==> AdvertFor(lists, done, k, unique[k]))
    && (forall a :: a in done && a in lists ==> HasAdvert(lists, a, unique))
  }

  ghost predicate AdvertFor(lists: Lists, done: set<string>, key: string, l: Listing) {
    && l.id in done && l.id in lists && lists[l.id] != []
    && lists[l.id][0] == Candidate(l.model, l.upstream)
    && key == AdvertKey(l.model, l.id)
  }

  ghost predicate HasAdvert(lists: Lists, alias: string, unique: map<string, Listing>) {
    alias in lists && lists[alias] != [] && AdvertKey(lists[alias][0].model, alias) in unique
  }

  /** The advertised key: the forwarded id where there is one, else the alias. */
  lemma AdvertKeyExactly(m: Model, alias: string)
    ensures AdvertKey(m, alias) ==
      if m.forwardedId.Some? && Strip(m.forwardedId.value) != "" then Lower(Strip(m.forwardedId.value)) else alias
  {
    hide Strip, Lower;
  }

  /** No published alias before position `i` has the key. */
  ghost predicate NoneBefore(lists: Lists, order: seq<string>, i: nat, key: string)
    requires i <= |order|
  {
    forall j :: 0 <= j < i && order[j] in lists && lists[order[j]] != [] ==> AdvertKey(lists[order[j]][0].model, order[j]) != key
  }

  ghost predicate FirstFor(lists: Lists, order: seq<string>, key: string, alias: string) {
    exists i :: 0 <= i < |order| && order[i] == alias && NoneBefore(lists, order, i, key)
  }

  /** Every key is advertised by the first published alias that has it. */
  ghost predicate AdvertisedFirst(lists: Lists, order: seq<string>, unique: map<string, Listing>) {
    forall k :: k in unique ==> FirstFor(lists, order, k, unique[k].id)
  }

  lemma FirstStaysFirst(lists: Lists, order: seq<string>, key: string, alias: string, next: string)
    requires FirstFor(lists, order, key, alias)
    ensures FirstFor(lists, order + [next], key, alias)
  {
    hide AdvertKey;
    var i :| 0 <= i < |order| && order[i] == alias && NoneBefore(lists, order, i, key);
    var more := order + [next];
    assert more[i] == alias && forall j :: 0 <= j < i ==> more[j] == order[j];
    assert NoneBefore(lists, more, i, key);
  }

  lemma AdvertisedFirstStep(lists: Lists, order: seq<string>, unique: map<string, Listing>, alias: string)
    requires AdvertisedFirst(lists, order, unique) && Advertises(lists, (set a | a in order), unique)
    ensures AdvertisedFirst(lists, order + [alias], unique)
    ensures alias in lists && lists[alias] != [] ==> AdvertisedFirst(lists, order + [alias], Advertise(unique, alias, lists[alias][0]))
  {
    hide AdvertKey, FirstFor;
    forall k | k in unique
      ensures FirstFor(lists, order + [alias], k, unique[k].id)
    {
      FirstStaysFirst(lists, order, k, unique[k].id, alias);
    }
    if alias in lists && lists[alias] != [] {
      var key, more := AdvertKey(lists[alias][0].model, alias), order + [alias];
      if key !in unique {
        assert NoneBefore(lists, more, |order|, key) by {
          forall j | 0 <= j < |order| && more[j] in lists && lists[more[j]] != []
            ensures AdvertKey(lists[more[j]][0].model, more[j]) != key
          {
            assert more[j] in order && HasAdvert(lists, more[j], unique);
          }
        }
        FirstAt(lists, more, |order|, key);
      }
    }
  }

  lemma FirstAt(lists: Lists, order: seq<string>, i: nat, key: string)
    requires i < |order| && NoneBefore(lists, order, i, key)
    ensures FirstFor(lists, order, key, order[i])
  {
  }

  method RoutableItems(v: Verifier, alias: string, items: seq<Candidate>) returns (r: seq<Candidate>)
    ensures r == Routable(v, alias, items)
  {
    r := [];
    for i := 0 to |items|
      invariant r == Routable(v, alias, items[..i])
    {
      assert items[..i + 1][..i] == items[..i];
      if Passes(v, alias, items[i]) {
        r := r + [items[i]];
      }
    }
    assert items[..|items|] == items;
  }

  method ItemsOfShape(items: seq<Candidate>, shape: Shape) returns (r: seq<Candidate>)
    ensures r == SameShape(items, shape)
  {
    r := [];
    for i := 0 to |items|
      invariant r == SameShape(items[..i], shape)
    {
      assert items[..i + 1][..i] == items[..i];
      if ShapeOf(items[i].model) == shape {
        r := r + [items[i]];
      }
    }
    assert items[..|items|] == items;
  }

  method PublishAlias(confidential: bool, v: Verifier, alias: string, items: seq<Candidate>) returns (r: seq<Candidate>)
    ensures r == Listed(confidential, v, alias, items)
  {
    var ranked := Ranked(alias, items);
    if !confidential {
      return ranked;
    }
    var routable := RoutableItems(v, alias, ranked);
    if routable == [] {
      return [];
    }
    r := ItemsOfShape(routable, ShapeOf(routable[0].model));
  }

  lemma NothingPublished(lists: Lists)
    ensures MapsOf(lists, {}, map[], map[]) && Advertises(lists, {}, map[]) && AdvertisedFirst(lists, [], map[])
  {
  }

  lemma ListAt(confidential: bool, v: Verifier, cs: Candidates, alias: string)
    requires alias in cs
    ensures var lists, l := ListsOf(confidential, v, cs), Listed(confidential, v, alias, cs[alias]);
      (alias in lists <==> l != []) && (alias in lists ==> lists[alias] == l)
  {
    hide Listed;
  }

  method PublishAll(confidential: bool, v: Verifier, cs: Candidates, order: seq<string>, listed: map<string, Listing>)
    returns (instances: map<string, Model>, providers: map<string, seq<Upstream>>, unique: map<string, Listing>)
    requires forall a :: a in order <==> a in cs
    requires confidential ==> listed == map[]
    ensures MapsOf(ListsOf(confidential, v, cs), cs.Keys, instances, providers)
    ensures confidential ==> Advertises(ListsOf(confidential, v, cs), cs.Keys, unique)
    ensures confidential ==> AdvertisedFirst(ListsOf(confidential, v, cs), order, unique)
    ensures !confidential ==> unique == listed
  {
    hide ListsOf, MapsOf, Advertises, AdvertisedFirst, Advertise, Listed;
    instances, providers, unique := map[], map[], listed;
    ghost var done: set<string>, lists := {}, ListsOf(confidential, v, cs);
    NothingPublished(lists);
    for i := 0 to |order|
      invariant done == set a | a in order[..i]
      invariant MapsOf(lists, done, instances, providers)
      invariant confidential ==> Advertises(lists, done, unique) && AdvertisedFirst(lists, order[..i], unique)
      invariant !confidential ==> unique == listed
    {
      var alias := order[i];
      assert order[..i + 1] == order[..i] + [alias];
      assert alias in cs;
      var l := PublishAlias(confidential, v, alias, cs[alias]);
      ListAt(confidential, v, cs, alias);
      MapsStep(lists, done, instances, providers, alias);
      if confidential {
        AdvertStep(lists, done, unique, alias);
        AdvertisedFirstStep(lists, order[..i], unique, alias);
      }
      done := done + {alias};
      if l != [] {
        instances := instances[alias := l[0].model];
        providers := providers[alias := UpstreamsOf(l)];
        if confidential {
          unique := Advertise(unique, alias, l[0]);
        }
      }
    }
    assert order[..|order|] == order;
    assert done == cs.Keys;
  }

  /** The first published alias that has the key advertises it. */
  function Advertise(unique: map<string, Listing>, alias: string, best: Candidate): map<string, Listing> {
    var key := AdvertKey(best.model, alias);
    if key in unique then unique else unique[key := Listing(alias, best.model, best.upstream)]
  }

  lemma MapsStep(lists: Lists, done: set<string>, instances: map<string, Model>, providers: map<string, seq<Upstream>>, alias: string)
    requires MapsOf(lists, done, instances, providers)
    requires alias in lists ==> lists[alias] != []
    ensures alias !in lists ==> MapsOf(lists, done + {alias}, instances, providers)
    ensures alias in lists ==>
      MapsOf(lists, done + {alias}, instances[alias := lists[alias][0].model], providers[alias := UpstreamsOf(lists[alias])])
  {
    if alias in lists {
      assert MapsEntry(lists, alias, lists[alias][0].model, UpstreamsOf(lists[alias]));
    }
  }

  lemma AdvertStep(lists: Lists, done: set<string>, unique: map<string, Listing>, alias: string)
    requires Advertises(lists, done, unique)
    requires alias in lists ==> lists[alias] != []
    ensures alias !in lists ==> Advertises(lists, done + {alias}, unique)
    ensures alias in lists ==> Advertises(lists, done + {alias}, Advertise(unique, alias, lists[alias][0]))
  {
    forall k | k in unique
      ensures AdvertFor(lists, done + {alias}, k, unique[k])
    {
      assert AdvertFor(lists, done, k, unique[k]);
    }
    if alias in lists {
      var best := lists[alias][0];
      var more := Advertise(unique, alias, best);
      assert AdvertFor(lists, done + {alias}, AdvertKey(best.model, alias), Listing(alias, best.model, best.upstream));
      forall a | a in done && a in lists
        ensures HasAdvert(lists, a, more)
      {
        assert HasAdvert(lists, a, unique);
      }
      assert HasAdvert(lists, alias, more);
    }
  }

  /** The offers behind a call. */
  function AllOffers(s: Setting, upstreams: seq<Provider>): seq<Offer> {
    Offers(s, Validated(upstreams), Discovery(upstreams, s.confidential), |s.overrides|)
  }

  method CreateModelMappings(s: Setting, v: Verifier, upstreams: seq<Provider>)
    returns (instances: map<string, Model>, providers: map<string, seq<Upstream>>, unique: map<string, Listing>)
    ensures var cs := CandidatesOf(AllOffers(s, upstreams));
      && MapsOf(ListsOf(s.confidential, v, cs), cs.Keys, instances, providers)
      && (s.confidential ==> Advertises(ListsOf(true, v, cs), cs.Keys, unique))
      && (s.confidential ==> AdvertisedFirst(ListsOf(true, v, cs), KeyOrder(AllOffers(s, upstreams)), unique))
    ensures !s.confidential ==> unique == ListedModels(AllOffers(s, upstreams))
  {
    var valid, discovery := DiscoveryProviders(upstreams, s.confidential);
    var b := new Builder(s);
    b.ProcessAll(discovery);
    b.ProcessOverrides(valid, discovery);
    instances, providers, unique := PublishAll(s.confidential, v, b.candidates, b.order, b.unique);
  }

  // ---------- The theorems ----------

  /** Outside confidential mode both maps have exactly the aliases of admitted models as keys, and each list is
      the stable ranking of all that was offered under the alias, headed by the provider of the alias's model. */
  lemma PlainMapsAreRankings(v: Verifier, offers: seq<Offer>, instances: map<string, Model>, providers: map<string, seq<Upstream>>)
    requires var cs := CandidatesOf(offers); MapsOf(ListsOf(false, v, cs), cs.Keys, instances, providers)
    ensures forall a :: a in instances <==> SomeoneNames(offers, a)
    ensures instances.Keys == providers.Keys
    ensures forall a :: a in instances ==> PlainEntry(offers, a, instances[a], providers[a])
  {
    var cs := CandidatesOf(offers);
    forall a
      ensures a in instances <==> SomeoneNames(offers, a)
      ensures a in instances ==> PlainEntry(offers, a, instances[a], providers[a])
    {
      CandidatesAreOffers(offers, a);
      if a in cs {
        PlainListIsRanking(v, a, cs[a]);
        CandidatesAreInOfferOrder(offers, a);
        var l := Listed(false, v, a, cs[a]);
        assert cs[a][0] in cs[a] && cs[a][0] in l;
        if a in instances {
          assert MapsEntry(ListsOf(false, v, cs), a, instances[a], providers[a]);
          assert PlainList(offers, a, l);
        }
      }
    }
  }

  /** The stable ranking of the candidates in the order they were offered: every candidate offered under the
      alias, best first, ties in insertion order. */
  ghost predicate PlainList(offers: seq<Offer>, alias: string, l: seq<Candidate>) {
    && l != [] && StableRanking(alias, l, InOfferOrder(offers, alias))
    && RankedBestFirst(alias, l) && forall c :: c in l <==> Offered(offers, alias, c)
  }

  /** The stable ranking with everything removed that fails a check or has another shape than the head, which is
      the best of all that pass. */
  ghost predicate VerifiedList(offers: seq<Offer>, v: Verifier, alias: string, l: seq<Candidate>) {
    && l != [] && RankedBestFirst(alias, l)
    && l == SameShape(Routable(v, alias, Ranked(alias, InOfferOrder(offers, alias))), ShapeOf(l[0].model))
    && (forall c :: c in l <==> Offered(offers, alias, c) && Passes(v, alias, c) && ShapeOf(c.model) == ShapeOf(l[0].model))
    && (forall c :: Offered(offers, alias, c) && Passes(v, alias, c) ==> !Better(RankOf(alias, c), RankOf(alias, l[0])))
  }

  ghost predicate SomethingPasses(offers: seq<Offer>, v: Verifier, alias: string) {
    exists c :: Offered(offers, alias, c) && Passes(v, alias, c)
  }

  ghost predicate PlainEntry(offers: seq<Offer>, alias: string, m: Model, us: seq<Upstream>) {
    exists l: seq<Candidate> :: PlainList(offers, alias, l) && l[0].model == m && us == UpstreamsOf(l)
  }

  ghost predicate VerifiedEntry(offers: seq<Offer>, v: Verifier, alias: string, m: Model, us: seq<Upstream>) {
    exists l: seq<Candidate> :: VerifiedList(offers, v, alias, l) && l != [] && l[0].model == m && us == UpstreamsOf(l)
  }

  /** In confidential mode an alias is published exactly when something offered under it passes every check, and
      its list holds verified candidates of one forwarding shape, headed by the best routable one. */
  lemma ConfidentialMapsAreVerified(v: Verifier, offers: seq<Offer>, instances: map<string, Model>, providers: map<string, seq<Upstream>>)
    requires var cs := CandidatesOf(offers); MapsOf(ListsOf(true, v, cs), cs.Keys, instances, providers)
    ensures forall a :: a in instances <==> SomethingPasses(offers, v, a)
    ensures instances.Keys == providers.Keys
    ensures forall a :: a in instances ==> VerifiedEntry(offers, v, a, instances[a], providers[a])
  {
    hide VerifiedList, Listed, CandidatesOf, SomethingPasses;
    var cs := CandidatesOf(offers);
    forall a
      ensures a in instances <==> SomethingPasses(offers, v, a)
      ensures a in instances ==> VerifiedEntry(offers, v, a, instances[a], providers[a])
    {
      NothingUnofferedPasses(offers, v, a);
      if a in cs {
        ListIsVerified(offers, v, a);
        if a in instances {
          assert MapsEntry(ListsOf(true, v, cs), a, instances[a], providers[a]);
          assert VerifiedList(offers, v, a, Listed(true, v, a, cs[a]));
        }
      }
    }
  }

  /** Proven, reachable and publishable under the alias. */
  predicate Trusted(v: Verifier, alias: string, m: Model, u: Upstream) {
    v.proven(u.provider, m, alias) && v.reachable(u.provider, m) && v.publishable(u.provider, m, alias)
  }

  ghost predicate TrustedOffer(v: Verifier, offers: seq<Offer>, alias: string, m: Model, u: Upstream) {
    Offered(offers, alias, Candidate(m, u)) && Trusted(v, alias, m, u)
  }

  ghost predicate SomeTrustedOffer(v: Verifier, offers: seq<Offer>, alias: string, u: Upstream) {
    exists m :: TrustedOffer(v, offers, alias, m, u)
  }

  /** In confidential mode every provider of every published alias was offered for it with a model that passes all
      three checks; the first one with the published model. Whatever is so offered gets the alias published. */
  lemma EveryProviderIsTrusted(v: Verifier, offers: seq<Offer>, instances: map<string, Model>,
                               providers: map<string, seq<Upstream>>, a: string)
    requires var cs := CandidatesOf(offers); MapsOf(ListsOf(true, v, cs), cs.Keys, instances, providers)
    ensures a in instances <==> exists m, u :: TrustedOffer(v, offers, a, m, u)
    ensures a in instances ==>
      && a in providers && providers[a] != [] && TrustedOffer(v, offers, a, instances[a], providers[a][0])
      && forall i :: 0 <= i < |providers[a]| ==> SomeTrustedOffer(v, offers, a, providers[a][i])
  {
    hide MapsOf, ListsOf, CandidatesOf, VerifiedEntry, SomethingPasses, TrustedOffer, SomeTrustedOffer;
    ConfidentialMapsAreVerified(v, offers, instances, providers);
    SomethingIsTrusted(v, offers, a);
    if a in instances {
      EntryIsTrusted(v, offers, a, instances[a], providers[a]);
    }
  }

  lemma SomethingIsTrusted(v: Verifier, offers: seq<Offer>, alias: string)
    ensures SomethingPasses(offers, v, alias) <==> exists m, u :: TrustedOffer(v, offers, alias, m, u)
  {
    hide Offered, Passes, Trusted;
    if c :| Offered(offers, alias, c) && Passes(v, alias, c) {
      TrustedPasses(v, alias, c.model, c.upstream);
      assert c == Candidate(c.model, c.upstream);
      assert TrustedOffer(v, offers, alias, c.model, c.upstream);
    }
    if m, u :| TrustedOffer(v, offers, alias, m, u) {
      TrustedPasses(v, alias, m, u);
    }
  }

  lemma EntryIsTrusted(v: Verifier, offers: seq<Offer>, alias: string, m: Model, us: seq<Upstream>)
    requires VerifiedEntry(offers, v, alias, m, us)
    ensures us != [] && TrustedOffer(v, offers, alias, m, us[0])
    ensures forall i :: 0 <= i < |us| ==> SomeTrustedOffer(v, offers, alias, us[i])
  {
    hide VerifiedList, TrustedOffer;
    var l: seq<Candidate> :| VerifiedList(offers, v, alias, l) && l != [] && l[0].model == m && us == UpstreamsOf(l);
    VerifiedIsTrusted(v, offers, alias, l);
    forall i | 0 <= i < |us|
      ensures SomeTrustedOffer(v, offers, alias, us[i])
    {
      assert TrustedOffer(v, offers, alias, l[i].model, us[i]);
    }
  }

  lemma TrustedPasses(v: Verifier, alias: string, m: Model, u: Upstream)
    ensures Trusted(v, alias, m, u) <==> Passes(v, alias, Candidate(m, u))
  {
  }

  lemma VerifiedIsTrusted(v: Verifier, offers: seq<Offer>, alias: string, l: seq<Candidate>)
    requires VerifiedList(offers, v, alias, l)
    ensures l != [] && forall i :: 0 <= i < |l| ==> TrustedOffer(v, offers, alias, l[i].model, l[i].upstream)
  {
    hide Offered, RankedBestFirst, SameShape, Routable;
    forall i | 0 <= i < |l|
      ensures TrustedOffer(v, offers, alias, l[i].model, l[i].upstream)
    {
      assert l[i] in l && Passes(v, alias, l[i]);
      assert l[i] == Candidate(l[i].model, l[i].upstream);
    }
  }

  lemma NothingUnofferedPasses(offers: seq<Offer>, v: Verifier, alias: string)
    ensures SomethingPasses(offers, v, alias) ==> alias in CandidatesOf(offers)
  {
    hide Passes;
    CandidatesAreOffers(offers, alias);
  }

  lemma ListIsVerified(offers: seq<Offer>, v: Verifier, alias: string)
    requires alias in CandidatesOf(offers)
    ensures var l := Listed(true, v, alias, CandidatesOf(offers)[alias]);
      && (l != [] ==> VerifiedList(offers, v, alias, l))
      && (l != [] <==> SomethingPasses(offers, v, alias))
  {
    hide CandidatesOf, InOfferOrder, Offered, SomeoneNames, RankedBestFirst, Ranked, Passes, RankOf, ShapeOf;
    var items := CandidatesOf(offers)[alias];
    var l := Listed(true, v, alias, items);
    CandidatesAreOffers(offers, alias);
    CandidatesAreInOfferOrder(offers, alias);
    ConfidentialListIsVerified(v, alias, items);
    if l != [] {
      assert l[0] in l;
    }
  }

  /** Whatever is advertised can be routed: outside confidential mode the published id of every listed model is a
      routable alias. */
  lemma AdvertisedIsRoutable(offers: seq<Offer>, key: string)
    requires key in ListedModels(offers)
    ensures Lower(ListedModels(offers)[key].id) in CandidatesOf(offers) && Lower(key) in CandidatesOf(offers)
  {
    DirectProvidersArePublished(offers, key);
    var l := ListedModels(offers)[key];
    var i :| 0 <= i < |offers| && UniqueKey(offers[i]) == key && l == Listing(BaseId(offers[i].route.id), offers[i].model, offers[i].upstream);
    MemberHolds(Aliases(offers[i]), l.id);
    MemberHolds(Aliases(offers[i]), key);
    assert offers[i] in offers;
    CandidatesAreOffers(offers, Lower(l.id));
    CandidatesAreOffers(offers, Lower(key));
  }

  lemma MemberHolds(xs: seq<string>, x: string)
    requires x in xs
    ensures Text.Holds(xs, Lower(x))
  {
  }
}
