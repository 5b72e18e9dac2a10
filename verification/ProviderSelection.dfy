/** Which providers take part in the discovery pass, and in what order. */
module ProviderSelection {
  import opened Wrappers
  import opened Text

  const OPENROUTER := "https://openrouter.ai/api/v1"

  /** A catalogue entry; `cost` is the representative cost score. */
  datatype Model = Model(
    id: string,
    canonicalSlug: Option<string>,
    aliasIds: Option<seq<string>>,
    forwardedId: Option<string>,
    enabled: bool,
    endpoints: Option<seq<string>>,
    cost: real)

  /** Fields that may be missing or of another type are None. */
  datatype Provider = Provider(
    baseUrl: Option<string>,
    dbId: Option<int>,
    kind: Option<string>,
    fee: Option<real>,
    name: Option<string>,
    catalogue: seq<Model>)

  datatype Key = ByDb(id: int) | ByText(text: string)

  function NonEmpty(s: Option<string>): (r: Option<string>)
    ensures r.Some? ==> r.value != ""
  {
    if s.None? || Strip(s.value) == "" then None else Some(Strip(s.value))
  }

  function LowerNonEmpty(s: Option<string>): Option<string> {
    match NonEmpty(s)
    case None => None
    case Some(t) => Some(Lower(t))
  }

  /** The key under which a provider's models are deduplicated, and its normalised URL. */
  function Identity(p: Provider): Option<(Key, string)> {
    match LowerNonEmpty(p.baseUrl)
    case None => None
    case Some(url) =>
      if p.dbId.Some? then Some((ByDb(p.dbId.value), url))
      else match LowerNonEmpty(p.kind)
      case None => None
      case Some(kind) => Some((ByText(kind + "|" + url), url))
  }

  /** A provider that passed validation, with what the validation found out. */
  datatype Upstream = Upstream(provider: Provider, key: Key, url: string, fee: real, openrouter: bool)

  predicate IsOpenRouter(p: Provider) {
    p.baseUrl == Some(OPENROUTER)
  }

  function Validate(p: Provider): Option<Upstream> {
    match Identity(p)
    case None => None
    case Some(identity) =>
      if p.fee.None? || p.fee.value <= 0.0 then None
      else Some(Upstream(p, identity.0, identity.1, p.fee.value, IsOpenRouter(p)))
  }

  function Validated(ps: seq<Provider>): seq<Upstream> {
    if ps == [] then []
    else
      var before := Validated(ps[..|ps| - 1]);
      match Validate(ps[|ps| - 1])
      case None => before
      case Some(u) => before + [u]
  }

  method ValidatedUpstreams(upstreams: seq<Provider>) returns (r: seq<Upstream>)
    ensures r == Validated(upstreams)
  {
    r := [];
    for i := 0 to |upstreams|
      invariant r == Validated(upstreams[..i])
    {
      assert upstreams[..i + 1][..i] == upstreams[..i];
      match Validate(upstreams[i]) {
        case None =>
        case Some(u) => r := r + [u];
      }
    }
    assert upstreams[..|upstreams|] == upstreams;
  }

  predicate Names(s: Option<string>, text: string) {
    s.Some? && text != "" && Strip(s.value) == text
  }

  /** What validation asks for: a base URL, a positive fee, and a database id or else a kind. The key is the database
      id if there is one; URL and kind lose outer space and letter case; OpenRouter is known by its exact base URL. */
  ghost predicate IsValidated(u: Upstream) {
    var p := u.provider;
    && p.fee == Some(u.fee) && u.fee > 0.0
    && (exists url :: Names(p.baseUrl, url) && u.url == Lower(url))
    && (if p.dbId.Some? then u.key == ByDb(p.dbId.value)
        else exists kind :: Names(p.kind, kind) && u.key == ByText(Lower(kind) + "|" + u.url))
    && (u.openrouter <==> p.baseUrl == Some("https://openrouter.ai/api/v1"))
  }

  lemma ValidateExactly(u: Upstream)
    ensures Validate(u.provider) == Some(u) <==> IsValidated(u)
  {
    hide Strip, Lower;
    var p := u.provider;
    if p.baseUrl.Some? && NonEmpty(p.baseUrl).Some? {
      assert Names(p.baseUrl, NonEmpty(p.baseUrl).value);
    }
    if p.kind.Some? && NonEmpty(p.kind).Some? {
      assert Names(p.kind, NonEmpty(p.kind).value);
    }
  }

  /** Exactly the providers that validation accepts take part. */
  lemma {:induction false} ValidatedExactly(ps: seq<Provider>, u: Upstream)
    ensures u in Validated(ps) <==> u.provider in ps && IsValidated(u)
  {
    hide Validate, IsValidated;
    if ps != [] {
      var front, last := ps[..|ps| - 1], ps[|ps| - 1];
      assert ps == front + [last];
      ValidatedExactly(front, u);
      ValidateExactly(u);
      ValidatedIsItsProvider(last);
    }
  }

  lemma ValidatedIsItsProvider(p: Provider)
    ensures Validate(p).Some? ==> Validate(p).value.provider == p
  {
  }

  /** They keep their order. */
  lemma {:induction false} ValidatedInOrder(ps: seq<Provider>, qs: seq<Provider>)
    ensures Validated(ps + qs) == Validated(ps) + Validated(qs)
  {
    if qs == [] {
      assert ps + qs == ps;
    } else {
      assert (ps + qs)[..|ps + qs| - 1] == ps + qs[..|qs| - 1];
      ValidatedInOrder(ps, qs[..|qs| - 1]);
    }
  }

  predicate SameOpenRouter(ps: seq<Upstream>) {
    forall i, j :: 0 <= i < |ps| && 0 <= j < |ps| && ps[i].openrouter && ps[j].openrouter ==> ps[i].url == ps[j].url
  }

  lemma OpenRouterUrl(p: Provider)
    requires Validate(p).Some? && Validate(p).value.openrouter
    ensures Validate(p).value.url == Lower(Strip(OPENROUTER))
  {
  }

  /** All upstreams that count as OpenRouter share one normalised URL. */
  lemma OpenRouterHasOneUrl(ps: seq<Provider>)
    ensures SameOpenRouter(Validated(ps))
  {
    hide Validate, IsValidated, Lower, Strip;
    var us := Validated(ps);
    forall i | 0 <= i < |us| && us[i].openrouter
      ensures us[i].url == Lower(Strip(OPENROUTER))
    {
      ValidatedExactly(ps, us[i]);
      ValidateExactly(us[i]);
      OpenRouterUrl(us[i].provider);
    }
  }

  // ---------- One provider per URL ----------

  /** The URLs in the order in which they first appear. */
  function Urls(ps: seq<Upstream>): seq<string>
  {
    if ps == [] then []
    else
      var before, url := Urls(ps[..|ps| - 1]), ps[|ps| - 1].url;
      if url in before then before else before + [url]
  }

  function AtUrl(ps: seq<Upstream>, url: string): (r: seq<Upstream>)
    ensures forall p :: p in r <==> p in ps && p.url == url
  {
    if ps == [] then []
    else if ps[|ps| - 1].url == url then AtUrl(ps[..|ps| - 1], url) + [ps[|ps| - 1]]
    else AtUrl(ps[..|ps| - 1], url)
  }

  /** The first provider with the lowest fee. */
  function Cheapest(ps: seq<Upstream>): (r: Upstream)
    requires ps != []
    ensures r in ps
    ensures forall p :: p in ps ==> r.fee <= p.fee
  {
    if |ps| == 1 then ps[0]
    else
      var best, last := Cheapest(ps[..|ps| - 1]), ps[|ps| - 1];
      if last.fee < best.fee then last else best
  }

  /** The provider at `i` is cheaper than all before it. */
  predicate CheaperThanBefore(ps: seq<Upstream>, i: nat)
    requires i < |ps|
  {
    forall j :: 0 <= j < i ==> ps[i].fee < ps[j].fee
  }

  /** Among equal fees the one that comes first. */
  lemma {:induction false} CheapestIsFirst(ps: seq<Upstream>) returns (i: nat)
    requires ps != []
    ensures i < |ps| && ps[i] == Cheapest(ps) && CheaperThanBefore(ps, i)
  {
    if |ps| == 1 {
      i := 0;
    } else {
      var front, last := ps[..|ps| - 1], ps[|ps| - 1];
      i := CheapestIsFirst(front);
      if last.fee < Cheapest(front).fee {
        LowerThanAll(front, last);
        i := |front|;
      }
    }
  }

  lemma LowerThanAll(front: seq<Upstream>, last: Upstream)
    requires front != [] && last.fee < Cheapest(front).fee
    ensures CheaperThanBefore(front + [last], |front|)
  {
    forall j | 0 <= j < |front|
      ensures last.fee < front[j].fee
    {
      assert front[j] in front;
    }
  }

  /** URLs come in the order of their first provider, and the providers of a URL in theirs. */
  lemma {:induction false} GroupedInOrder(ps: seq<Upstream>, qs: seq<Upstream>, url: string)
    ensures Urls(ps) <= Urls(ps + qs)
    ensures AtUrl(ps + qs, url) == AtUrl(ps, url) + AtUrl(qs, url)
  {
    if qs == [] {
      assert ps + qs == ps;
    } else {
      assert (ps + qs)[..|ps + qs| - 1] == ps + qs[..|qs| - 1];
      GroupedInOrder(ps, qs[..|qs| - 1], url);
    }
  }

  predicate AllUsed(ps: seq<Upstream>, urls: seq<string>) {
    forall i :: 0 <= i < |urls| ==> AtUrl(ps, urls[i]) != []
  }

  function CheapestOfEach(ps: seq<Upstream>, urls: seq<string>): (r: seq<Upstream>)
    requires AllUsed(ps, urls)
    ensures |r| == |urls|
    ensures forall i :: 0 <= i < |r| ==> r[i] == Cheapest(AtUrl(ps, urls[i]))
  {
    if urls == [] then []
    else
      assert AtUrl(ps, urls[|urls| - 1]) != [];
      CheapestOfEach(ps, urls[..|urls| - 1]) + [Cheapest(AtUrl(ps, urls[|urls| - 1]))]
  }

  lemma {:induction false} UrlsAreDistinct(ps: seq<Upstream>)
    ensures forall i, j :: 0 <= i < j < |Urls(ps)| ==> Urls(ps)[i] != Urls(ps)[j]
    ensures forall u :: u in Urls(ps) <==> exists p :: p in ps && p.url == u
    ensures AllUsed(ps, Urls(ps))
  {
    if ps != [] {
      var front, last := ps[..|ps| - 1], ps[|ps| - 1];
      assert ps == front + [last];
      UrlsAreDistinct(front);
      assert last in ps;
      forall u
        ensures u in Urls(ps) <==> exists p :: p in ps && p.url == u
      {
        assert (exists p :: p in ps && p.url == u) <==> (u == last.url || exists p :: p in front && p.url == u);
      }
      forall i | 0 <= i < |Urls(ps)|
        ensures AtUrl(ps, Urls(ps)[i]) != []
      {
        assert Urls(ps)[i] in Urls(ps);
        var p :| p in ps && p.url == Urls(ps)[i];
        assert p in AtUrl(ps, Urls(ps)[i]);
      }
    }
  }

  function Survivors(ps: seq<Upstream>): seq<Upstream> {
    UrlsAreDistinct(ps);
    CheapestOfEach(ps, Urls(ps))
  }

  lemma SurvivorAt(ps: seq<Upstream>, i: nat)
    requires i < |Urls(ps)|
    ensures |Survivors(ps)| == |Urls(ps)|
    ensures var p := Survivors(ps)[i];
      p in ps && p.url == Urls(ps)[i] && forall q :: q in ps && q.url == p.url ==> p.fee <= q.fee
  {
    UrlsAreDistinct(ps);
    var there := AtUrl(ps, Urls(ps)[i]);
    assert there != [];
    var p := Cheapest(there);
    assert p in there;
    forall q | q in ps && q.url == p.url
      ensures p.fee <= q.fee
    {
      assert q in there;
    }
  }

  predicate CheapestAtItsUrl(ps: seq<Upstream>, p: Upstream) {
    p in ps && forall q :: q in ps && q.url == p.url ==> p.fee <= q.fee
  }

  predicate DistinctUrls(ps: seq<Upstream>) {
    forall i, j :: 0 <= i < j < |ps| ==> ps[i].url != ps[j].url
  }

  /** Exactly one provider survives per URL, and none sharing its URL has a lower fee. */
  lemma OneCheapestPerUrl(ps: seq<Upstream>)
    ensures DistinctUrls(Survivors(ps))
    ensures forall p :: p in Survivors(ps) ==> CheapestAtItsUrl(ps, p)
    ensures forall q :: q in ps ==> exists p :: p in Survivors(ps) && p.url == q.url
  {
    UrlsAreDistinct(ps);
    var r, urls := Survivors(ps), Urls(ps);
    forall i | 0 <= i < |r|
      ensures r[i].url == urls[i] && CheapestAtItsUrl(ps, r[i])
    {
      SurvivorAt(ps, i);
    }
    forall q | q in ps
      ensures exists p :: p in r && p.url == q.url
    {
      assert q.url in urls;
      var i :| 0 <= i < |urls| && urls[i] == q.url;
      assert r[i] in r;
    }
  }

  lemma {:induction false} NothingAtUrl(ps: seq<Upstream>, url: string)
    requires url !in Urls(ps)
    ensures AtUrl(ps, url) == []
  {
    if ps != [] {
      NothingAtUrl(ps[..|ps| - 1], url);
    }
  }

  lemma UrlStep(ps: seq<Upstream>, i: nat)
    requires i < |ps|
    ensures var before, url := Urls(ps[..i]), ps[i].url;
      Urls(ps[..i + 1]) == if url in before then before else before + [url]
    ensures forall u :: AtUrl(ps[..i + 1], u) == if u == ps[i].url then AtUrl(ps[..i], u) + [ps[i]] else AtUrl(ps[..i], u)
  {
    assert ps[..i + 1][..i] == ps[..i];
  }

  method GroupByUrl(ps: seq<Upstream>) returns (order: seq<string>, byUrl: map<string, seq<Upstream>>)
    ensures order == Urls(ps)
    ensures forall u :: u in byUrl <==> u in order
    ensures forall u :: u in byUrl ==> byUrl[u] == AtUrl(ps, u)
  {
    hide Urls, AtUrl;
    order, byUrl := [], map[];
    NoUrls();
    assert ps[..0] == [];
    for i := 0 to |ps|
      invariant order == Urls(ps[..i])
      invariant forall u :: u in byUrl <==> u in order
      invariant forall u :: u in byUrl ==> byUrl[u] == AtUrl(ps[..i], u)
    {
      var url := ps[i].url;
      UrlStep(ps, i);
      if url !in byUrl {
        NothingAtUrl(ps[..i], url);
        byUrl := byUrl[url := []];
        order := order + [url];
      }
      byUrl := byUrl[url := byUrl[url] + [ps[i]]];
    }
    assert ps[..|ps|] == ps;
  }

  lemma NoUrls()
    ensures Urls([]) == []
  {
  }

  method KeepCheapest(ps: seq<Upstream>) returns (r: seq<Upstream>)
    ensures r == Survivors(ps)
  {
    hide Urls, AtUrl, Cheapest;
    var order, byUrl := GroupByUrl(ps);
    UrlsAreDistinct(ps);
    r := [];
    for i := 0 to |order|
      invariant |r| == i && forall k :: 0 <= k < i ==> r[k] == Cheapest(AtUrl(ps, order[k]))
    {
      assert order[i] in order && AtUrl(ps, order[i]) != [];
      r := r + [Cheapest(byUrl[order[i]])];
    }
    assert r == CheapestOfEach(ps, order);
  }

  // ---------- OpenRouter last ----------

  function Others(ps: seq<Upstream>): (r: seq<Upstream>)
    ensures forall p :: p in r <==> p in ps && !p.openrouter
  {
    if ps == [] then []
    else if ps[|ps| - 1].openrouter then Others(ps[..|ps| - 1])
    else Others(ps[..|ps| - 1]) + [ps[|ps| - 1]]
  }

  /** The last one wins when there are several. */
  function LastOpenRouter(ps: seq<Upstream>): (r: seq<Upstream>)
    ensures |r| <= 1 && forall p :: p in r ==> p in ps && p.openrouter
  {
    if ps == [] then []
    else if ps[|ps| - 1].openrouter then [ps[|ps| - 1]]
    else LastOpenRouter(ps[..|ps| - 1])
  }

  /** The others keep their order, and of the OpenRouter providers the last is set apart. */
  lemma {:induction false} SetApartExactly(ps: seq<Upstream>, qs: seq<Upstream>)
    ensures Others(ps + qs) == Others(ps) + Others(qs)
    ensures LastOpenRouter(ps + qs) == if LastOpenRouter(qs) != [] then LastOpenRouter(qs) else LastOpenRouter(ps)
    ensures LastOpenRouter(ps) == [] <==> forall p :: p in ps ==> !p.openrouter
  {
    OthersAndOpenRouters(ps);
    OpenRoutersCounted(ps);
    if qs == [] {
      assert ps + qs == ps;
    } else {
      assert (ps + qs)[..|ps + qs| - 1] == ps + qs[..|qs| - 1];
      SetApartExactly(ps, qs[..|qs| - 1]);
    }
  }

  lemma {:induction false} OpenRoutersCounted(ps: seq<Upstream>)
    ensures CountOpenRouter(ps) == 0 <==> forall p :: p in ps ==> !p.openrouter
  {
    if ps != [] {
      assert ps == ps[..|ps| - 1] + [ps[|ps| - 1]];
      OpenRoutersCounted(ps[..|ps| - 1]);
    }
  }

  /** In confidential mode no provider is dropped for its fee. */
  function Kept(upstreams: seq<Provider>, confidential: bool): seq<Upstream> {
    if confidential then Validated(upstreams) else Survivors(Validated(upstreams))
  }

  /** The providers of the discovery pass, in processing order. */
  function Discovery(upstreams: seq<Provider>, confidential: bool): seq<Upstream> {
    Others(Kept(upstreams, confidential)) + LastOpenRouter(Kept(upstreams, confidential))
  }

  function CountOpenRouter(ps: seq<Upstream>): nat {
    if ps == [] then 0 else CountOpenRouter(ps[..|ps| - 1]) + (if ps[|ps| - 1].openrouter then 1 else 0)
  }

  lemma {:induction false} OthersAndOpenRouters(ps: seq<Upstream>)
    ensures |ps| == |Others(ps)| + CountOpenRouter(ps)
    ensures (LastOpenRouter(ps) == []) <==> (CountOpenRouter(ps) == 0)
  {
    if ps != [] {
      OthersAndOpenRouters(ps[..|ps| - 1]);
    }
  }

  lemma {:induction false} AtMostOneOpenRouter(ps: seq<Upstream>)
    requires DistinctUrls(ps) && SameOpenRouter(ps)
    ensures CountOpenRouter(ps) <= 1
    ensures CountOpenRouter(ps) > 0 ==> exists i :: 0 <= i < |ps| && ps[i].openrouter
  {
    if ps != [] {
      AtMostOneOpenRouter(ps[..|ps| - 1]);
    }
  }

  /** Every kept provider is processed unless several are OpenRouter, of which all but the last are dropped.
      Outside confidential mode grouping by URL rules that out; in confidential mode it does not. */
  lemma NoProviderIsSkippedIff(upstreams: seq<Provider>, confidential: bool)
    ensures var kept := Kept(upstreams, confidential);
      && (|Discovery(upstreams, confidential)| == |kept| <==> CountOpenRouter(kept) <= 1)
      && (CountOpenRouter(kept) <= 1 ==> multiset(Discovery(upstreams, confidential)) == multiset(kept))
      && (!confidential ==> CountOpenRouter(kept) <= 1)
  {
    var kept := Kept(upstreams, confidential);
    OthersAndOpenRouters(kept);
    if !confidential {
      SurvivorsHaveOneOpenRouter(upstreams);
    }
    if CountOpenRouter(kept) <= 1 {
      SplitIsWhole(kept);
    }
  }

  /** Two OpenRouter providers in confidential mode: the first is dropped. */
  lemma ConfidentialModeDropsAnOpenRouter(first: int, second: int)
    ensures var a := Provider(Some(OPENROUTER), Some(first), None, Some(1.0), None, []);
      var b := a.(dbId := Some(second));
      && |Kept([a, b], true)| == 2
      && Discovery([a, b], true) == [Upstream(b, ByDb(second), Lower(OPENROUTER), 1.0, true)]
  {
    hide Validate, Lower;
    var a := Provider(Some(OPENROUTER), Some(first), None, Some(1.0), None, []);
    var b := a.(dbId := Some(second));
    OpenRouterIsValid(first);
    OpenRouterIsValid(second);
    TheLastOfTwo(a, b);
  }

  lemma OpenRouterIsValid(id: int)
    ensures var p := Provider(Some(OPENROUTER), Some(id), None, Some(1.0), None, []);
      Validate(p) == Some(Upstream(p, ByDb(id), Lower(OPENROUTER), 1.0, true))
  {
    hide Validate, Lower, Strip;
    assert OPENROUTER[0] == 'h' && OPENROUTER[|OPENROUTER| - 1] == '1';
    ValidAtUrl(OPENROUTER, id);
  }

  lemma ValidAtUrl(url: string, id: int)
    requires Stripped(url) && url != ""
    ensures var p := Provider(Some(url), Some(id), None, Some(1.0), None, []);
      Validate(p) == Some(Upstream(p, ByDb(id), Lower(url), 1.0, IsOpenRouter(p)))
  {
    hide Strip, Lower, IsOpenRouter;
    StripIsStripped(url);
  }

  lemma TheLastOfTwo(a: Provider, b: Provider)
    requires Validate(a).Some? && Validate(a).value.openrouter && Validate(b).Some? && Validate(b).value.openrouter
    ensures |Kept([a, b], true)| == 2 && Discovery([a, b], true) == [Validate(b).value]
  {
    hide Validate;
    var u, w := Validate(a).value, Validate(b).value;
    assert [a, b][..1] == [a] && [a][..0] == [];
    assert Validated([a]) == [u] && Validated([a, b]) == [u] + [w];
    assert [u, w] == [u] + [w] && [u, w][..1] == [u] && [u][..0] == [];
    assert Others([u]) == [];
    assert Others([u, w]) == Others([u, w][..1]);
    assert LastOpenRouter([u, w]) == [w];
  }

  lemma SurvivorsHaveOneOpenRouter(upstreams: seq<Provider>)
    ensures CountOpenRouter(Survivors(Validated(upstreams))) <= 1
  {
    var valid := Validated(upstreams);
    var kept := Survivors(valid);
    OpenRouterHasOneUrl(upstreams);
    OneCheapestPerUrl(valid);
    forall i | 0 <= i < |kept|
      ensures kept[i] in valid
    {
      assert CheapestAtItsUrl(valid, kept[i]);
    }
    AtMostOneOpenRouter(kept);
  }

  lemma {:induction false} SplitIsWhole(ps: seq<Upstream>)
    requires CountOpenRouter(ps) <= 1
    ensures multiset(Others(ps) + LastOpenRouter(ps)) == multiset(ps)
  {
    if ps != [] {
      var front, last := ps[..|ps| - 1], ps[|ps| - 1];
      assert ps == front + [last];
      SplitIsWhole(front);
      OthersAndOpenRouters(front);
    }
  }

  method DiscoveryProviders(upstreams: seq<Provider>, confidential: bool) returns (validated: seq<Upstream>, r: seq<Upstream>)
    ensures validated == Validated(upstreams)
    ensures r == Discovery(upstreams, confidential)
  {
    validated := ValidatedUpstreams(upstreams);
    var kept := validated;
    if !confidential {
      kept := KeepCheapest(validated);
    }
    r := OpenRouterLast(kept);
  }

  method OpenRouterLast(kept: seq<Upstream>) returns (r: seq<Upstream>)
    ensures r == Others(kept) + LastOpenRouter(kept)
  {
    var others: seq<Upstream>, openrouter: Option<Upstream> := [], None;
    for i := 0 to |kept|
      invariant others == Others(kept[..i])
      invariant LastOpenRouter(kept[..i]) == if openrouter.Some? then [openrouter.value] else []
    {
      assert kept[..i + 1][..i] == kept[..i];
      if kept[i].openrouter {
        openrouter := Some(kept[i]);
      } else {
        others := others + [kept[i]];
      }
    }
    assert kept[..|kept|] == kept;
    r := if openrouter.Some? then others + [openrouter.value] else others;
  }
}
