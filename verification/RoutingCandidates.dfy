/** Which models each provider offers, under which aliases, and the candidate lists built from them. */
module RoutingCandidates {
  import opened Wrappers
  import opened Text
  import opened ProviderSelection

  // ---------- Names ----------

  function SlashAt(s: string): nat
    ensures SlashAt(s) <= |s|
    ensures SlashAt(s) < |s| <==> '/' in s
  {
    if s == "" then 0 else if s[0] == '/' then 0 else 1 + SlashAt(s[1..])
  }

  function BeforeSlash(s: string): string {
    s[..SlashAt(s)]
  }

  /** The name without its provider prefix. */
  function BaseId(s: string): string {
    if SlashAt(s) < |s| then s[SlashAt(s) + 1..] else s
  }

  /** A prefix ends at the first slash; a name without a slash has none. */
  lemma {:induction false} PrefixAndBase(prefix: string, base: string)
    requires '/' !in prefix
    ensures BeforeSlash(prefix + "/" + base) == prefix && BaseId(prefix + "/" + base) == base
    ensures BeforeSlash(prefix) == prefix && BaseId(prefix) == prefix
  {
    var s := prefix + "/" + base;
    if prefix == "" {
      assert s[0] == '/' && s[1..] == base;
    } else {
      PrefixAndBase(prefix[1..], base);
      assert s[1..] == prefix[1..] + "/" + base && prefix == [prefix[0]] + prefix[1..];
      assert SlashAt(s) == |prefix| && s[|prefix| + 1..] == base;
    }
  }

  /** Ends in -dddd-dd-dd. */
  predicate Dated(s: string) {
    |s| >= 11
    && var d := s[|s| - 11..];
      && d[0] == '-' && d[5] == '-' && d[8] == '-'
      && forall i :: 0 <= i < 11 && i != 0 && i != 5 && i != 8 ==> IsDigit(d[i])
  }

  function WithoutDate(s: string): string {
    if Dated(s) then s[..|s| - 11] else s
  }

  /** -dddd-dd-dd. */
  predicate IsDate(d: string) {
    && |d| == 11 && d[0] == '-' && d[5] == '-' && d[8] == '-'
    && IsDecimal(d[1]) && IsDecimal(d[2]) && IsDecimal(d[3]) && IsDecimal(d[4])
    && IsDecimal(d[6]) && IsDecimal(d[7]) && IsDecimal(d[9]) && IsDecimal(d[10])
  }

  lemma DatedExactly(s: string)
    ensures Dated(s) <==> |s| >= 11 && IsDate(s[|s| - 11..])
  {
    hide IsDigit, IsDecimal;
    forall c
      ensures IsDigit(c) <==> IsDecimal(c)
    {
      DigitsExactly(c);
    }
    if |s| >= 11 {
      var d := s[|s| - 11..];
      if Dated(s) {
        assert IsDigit(d[1]) && IsDigit(d[2]) && IsDigit(d[3]) && IsDigit(d[4]) && IsDigit(d[6]) && IsDigit(d[7]) && IsDigit(d[9]) && IsDigit(d[10]);
      }
    }
  }

  /** A date at the end of a name is dropped, and nothing else. */
  lemma DateIsDropped(name: string, date: string)
    ensures IsDate(date) ==> Dated(name + date) && WithoutDate(name + date) == name
    ensures Dated(name) ==> IsDate(name[|name| - 11..]) && name == WithoutDate(name) + name[|name| - 11..]
    ensures !Dated(name) ==> WithoutDate(name) == name
  {
    hide IsDate, Dated, IsDecimal;
    var s := name + date;
    DatedExactly(s);
    DatedExactly(name);
    if IsDate(date) {
      DateLength(date);
      assert s[|s| - 11..] == date && s[..|s| - 11] == name;
    }
  }

  lemma DateLength(date: string)
    requires IsDate(date)
    ensures |date| == 11
  {
  }

  predicate Distinct(xs: seq<string>) {
    forall i, j :: 0 <= i < j < |xs| ==> xs[i] != xs[j]
  }

  function AddNew(xs: seq<string>, x: string): (r: seq<string>)
    ensures x in r && forall y :: y in xs ==> y in r
  {
    if x in xs then xs else xs + [x]
  }

  lemma AddNewExactly(xs: seq<string>, x: string, y: string)
    ensures y in AddNew(xs, x) <==> y in xs || y == x
    ensures Distinct(xs) ==> Distinct(AddNew(xs, x))
  {
  }

  function IdAliases(id: string): (r: seq<string>)
    ensures id in r && BaseId(id) in r
  {
    var plain := if '/' in id then [id, BaseId(id)] else [id];
    assert plain[0] == id && plain[|plain| - 1] == BaseId(id);
    if !Dated(BaseId(id)) then plain
    else
      var undated := AddNew(plain, WithoutDate(BaseId(id)));
      if '/' in id then AddNew(undated, BeforeSlash(id) + "/" + WithoutDate(BaseId(id))) else undated
  }

  /** The id, its base, and either of them without the date. */
  predicate NamesId(id: string, x: string) {
    || x == id || x == BaseId(id)
    || (Dated(BaseId(id)) && x == WithoutDate(BaseId(id)))
    || (Dated(BaseId(id)) && '/' in id && x == BeforeSlash(id) + "/" + WithoutDate(BaseId(id)))
  }

  lemma IdAliasesExactly(id: string, x: string)
    ensures x in IdAliases(id) <==> NamesId(id, x)
    ensures Distinct(IdAliases(id))
  {
    hide Dated, WithoutDate, BeforeSlash, AddNew;
    var plain := if '/' in id then [id, BaseId(id)] else [id];
    AddNewExactly(plain, WithoutDate(BaseId(id)), x);
    AddNewExactly(AddNew(plain, WithoutDate(BaseId(id))), BeforeSlash(id) + "/" + WithoutDate(BaseId(id)), x);
  }

  function SlugAliases(aliases: seq<string>, slug: string): (r: seq<string>)
    ensures forall x :: x in aliases ==> x in r
  {
    if slug in aliases then aliases
    else
      var named := aliases + [slug];
      if '/' !in slug then named
      else
        var based := AddNew(named, BaseId(slug));
        if Dated(BaseId(slug)) then AddNew(based, WithoutDate(BaseId(slug))) else based
  }

  /** The slug, its base, and that without the date; a date is dropped only after a slash. */
  predicate NamesSlug(slug: string, x: string) {
    || x == slug
    || ('/' in slug && x == BaseId(slug))
    || ('/' in slug && Dated(BaseId(slug)) && x == WithoutDate(BaseId(slug)))
  }

  lemma SlugAliasesExactly(aliases: seq<string>, slug: string, x: string)
    ensures x in SlugAliases(aliases, slug) <==> x in aliases || (slug !in aliases && NamesSlug(slug, x))
    ensures Distinct(aliases) ==> Distinct(SlugAliases(aliases, slug))
  {
    hide Dated, WithoutDate, BaseId, AddNew;
    var named := aliases + [slug];
    AddNewExactly(named, BaseId(slug), x);
    AddNewExactly(AddNew(named, BaseId(slug)), WithoutDate(BaseId(slug)), x);
  }

  /** The id, its variants without prefix and date, the slug's variants, then the declared aliases. */
  function ResolveAlias(r: Route): (aliases: seq<string>)
    ensures r.id in aliases && BaseId(r.id) in aliases
  {
    var named := IdAliases(r.id);
    var slugged := if r.slug.Some? then SlugAliases(named, r.slug.value) else named;
    slugged + r.aliasIds
  }

  /** Exactly these are the aliases; none comes twice, unless the declared ones repeat it. */
  lemma ResolveAliasExactly(r: Route, x: string)
    ensures x in ResolveAlias(r) <==>
      || NamesId(r.id, x) || x in r.aliasIds
      || (r.slug.Some? && !NamesId(r.id, r.slug.value) && NamesSlug(r.slug.value, x))
    ensures r.aliasIds == [] ==> Distinct(ResolveAlias(r))
  {
    hide IdAliases, SlugAliases, NamesId, NamesSlug;
    IdAliasesExactly(r.id, x);
    var named := IdAliases(r.id);
    if r.slug.Some? {
      IdAliasesExactly(r.id, r.slug.value);
      SlugAliasesExactly(named, r.slug.value, x);
      assert r.aliasIds == [] ==> ResolveAlias(r) == SlugAliases(named, r.slug.value);
    } else {
      assert r.aliasIds == [] ==> ResolveAlias(r) == named;
    }
  }

  // ---------- Identity of a model ----------

  datatype Route = Route(id: string, slug: Option<string>, aliasIds: seq<string>, forwarded: Option<string>)

  predicate AbsentOrNamed(s: Option<string>) {
    s.Some? ==> NonEmpty(s).Some?
  }

  /** None when a field that is present is blank. */
  function RouteOf(m: Model): Option<Route> {
    if NonEmpty(Some(m.id)).None? || !AbsentOrNamed(m.canonicalSlug) || !AbsentOrNamed(m.forwardedId) then None
    else if m.aliasIds.Some? && !NoBlank(m.aliasIds.value) then None
    else Some(Route(Strip(m.id), NonEmpty(m.canonicalSlug),
                    if m.aliasIds.Some? then StripAll(m.aliasIds.value) else [], NonEmpty(m.forwardedId)))
  }

  /** No name that is present is blank. */
  predicate WellNamed(m: Model) {
    && Strip(m.id) != ""
    && (m.canonicalSlug.Some? ==> Strip(m.canonicalSlug.value) != "")
    && (m.forwardedId.Some? ==> Strip(m.forwardedId.value) != "")
    && (m.aliasIds.Some? ==> forall i :: 0 <= i < |m.aliasIds.value| ==> Strip(m.aliasIds.value[i]) != "")
  }

  predicate StripsTo(a: Option<string>, b: Option<string>) {
    if a.Some? then b == Some(Strip(a.value)) else b == None
  }

  /** The route has the model's names without outer space. */
  predicate RoutedAs(m: Model, r: Route) {
    && r.id == Strip(m.id) && StripsTo(m.canonicalSlug, r.slug) && StripsTo(m.forwardedId, r.forwarded)
    && |r.aliasIds| == (if m.aliasIds.Some? then |m.aliasIds.value| else 0)
    && forall i :: 0 <= i < |r.aliasIds| ==> r.aliasIds[i] == Strip(m.aliasIds.value[i])
  }

  lemma RouteOfExactly(m: Model, r: Route)
    ensures RouteOf(m) == Some(r) <==> WellNamed(m) && RoutedAs(m, r)
    ensures RouteOf(m).Some? <==> WellNamed(m)
  {
    hide Strip;
    if RouteOf(m).Some? && RoutedAs(m, r) {
      assert RouteOf(m).value.aliasIds == r.aliasIds;
    }
  }

  // ---------- Offers ----------

  /** A row stored for a model: its key, its provider, and the model it converts to (None: conversion fails). */
  datatype Override = Override(key: string, providerId: Option<int>, model: Option<Model>)

  datatype Setting = Setting(
    overrides: seq<Override>,
    disabled: set<string>,
    confidential: bool,
    gated: Provider -> bool)

  /** A model that a provider was found to offer. */
  datatype Offer = Offer(model: Model, upstream: Upstream, route: Route, seenAs: string)

  function Find(overrides: seq<Override>, key: string): Option<Override> {
    if overrides == [] then None
    else if overrides[0].key == key then Some(overrides[0])
    else Find(overrides[1..], key)
  }

  function PreserveShape(s: Setting, stored: Model, catalogued: Model, p: Provider): Model {
    if s.confidential && s.gated(p) then
      stored.(endpoints := catalogued.endpoints, canonicalSlug := catalogued.canonicalSlug,
        aliasIds := catalogued.aliasIds, forwardedId := catalogued.forwardedId)
    else stored
  }

  /** What the discovery pass makes of one catalogue entry. */
  function CatalogueOffer(s: Setting, u: Upstream, m: Model): Option<Offer> {
    match RouteOf(m)
    case None => None
    case Some(own) =>
      if !m.enabled || own.id in s.disabled then None
      else
        var stored := Find(s.overrides, own.id);
        if stored.Some? && stored.value.model.None? then None
        else
          var used := if stored.Some? then PreserveShape(s, stored.value.model.value, m, u.provider) else m;
          match RouteOf(used)
          case None => None
          case Some(route) => Some(Offer(used, u, route, Lower(route.id)))
  }

  function CatalogueOffers(s: Setting, u: Upstream, models: seq<Model>): seq<Offer> {
    if models == [] then []
    else
      var before := CatalogueOffers(s, u, models[..|models| - 1]);
      match CatalogueOffer(s, u, models[|models| - 1])
      case None => before
      case Some(o) => before + [o]
  }

  function Discovered(s: Setting, us: seq<Upstream>): seq<Offer> {
    if us == [] then []
    else Discovered(s, us[..|us| - 1]) + CatalogueOffers(s, us[|us| - 1], us[|us| - 1].provider.catalogue)
  }

  /** The last validated provider with this database id. */
  function ByDbId(us: seq<Upstream>, id: int): Option<Upstream> {
    if us == [] then None
    else if us[|us| - 1].provider.dbId == Some(id) then Some(us[|us| - 1])
    else ByDbId(us[..|us| - 1], id)
  }

  predicate SeenIn(offers: seq<Offer>, seenAs: string, key: Key) {
    exists i :: 0 <= i < |offers| && offers[i].seenAs == seenAs && offers[i].upstream.key == key
  }

  /** What the second pass makes of one stored row, after the offers so far. */
  function StoredOffer(s: Setting, us: seq<Upstream>, o: Override, soFar: seq<Offer>): Option<Offer> {
    if o.key in s.disabled || o.providerId.None? then None
    else match ByDbId(us, o.providerId.value)
    case None => None
    case Some(u) =>
      if s.confidential && s.gated(u.provider) then None
      else if SeenIn(soFar, Lower(o.key), u.key) then None
      else if o.model.None? || !o.model.value.enabled then None
      else match RouteOf(o.model.value)
      case None => None
      case Some(route) => Some(Offer(o.model.value, u, route, Lower(o.key)))
  }

  /** The offers of both passes; the first `n` stored rows have been looked at. */
  function Offers(s: Setting, valid: seq<Upstream>, discovery: seq<Upstream>, n: nat): seq<Offer>
    requires n <= |s.overrides|
  {
    if n == 0 then Discovered(s, discovery)
    else
      var before := Offers(s, valid, discovery, n - 1);
      match StoredOffer(s, valid, s.overrides[n - 1], before)
      case None => before
      case Some(o) => before + [o]
  }

  predicate Stored(overrides: seq<Override>, key: string) {
    exists i :: 0 <= i < |overrides| && overrides[i].key == key
  }

  /** The first row stored under the key. */
  predicate StoredFirst(overrides: seq<Override>, key: string, row: Override) {
    exists i :: 0 <= i < |overrides| && overrides[i] == row && row.key == key && forall j :: 0 <= j < i ==> overrides[j].key != key
  }

  lemma {:induction false} FindExactly(overrides: seq<Override>, key: string, row: Override)
    ensures Find(overrides, key) == Some(row) <==> StoredFirst(overrides, key, row)
    ensures Find(overrides, key).Some? <==> Stored(overrides, key)
  {
    if overrides != [] {
      var rest := overrides[1..];
      FindExactly(rest, key, row);
      assert forall i :: 0 <= i < |rest| ==> rest[i] == overrides[i + 1];
      if overrides[0].key != key {
        assert StoredFirst(overrides, key, row) <==> StoredFirst(rest, key, row) by {
          if StoredFirst(overrides, key, row) {
            var i :| 0 <= i < |overrides| && overrides[i] == row && row.key == key && forall j :: 0 <= j < i ==> overrides[j].key != key;
            assert rest[i - 1] == row && forall j :: 0 <= j < i - 1 ==> rest[j].key != key;
          }
          if StoredFirst(rest, key, row) {
            var i :| 0 <= i < |rest| && rest[i] == row && row.key == key && forall j :: 0 <= j < i ==> rest[j].key != key;
            assert overrides[i + 1] == row && forall j :: 0 <= j < i + 1 ==> j == 0 || overrides[j] == rest[j - 1];
          }
        }
        assert Stored(overrides, key) <==> Stored(rest, key) by {
          if Stored(overrides, key) {
            var i :| 0 <= i < |overrides| && overrides[i].key == key;
            assert rest[i - 1].key == key;
          }
        }
      }
    }
  }

  /** Everything of the stored model, but for a provider that insists on its endpoints in confidential mode the
      route shape of the catalogue. */
  predicate Replaces(s: Setting, p: Provider, stored: Model, catalogued: Model, used: Model) {
    && used.id == stored.id && used.enabled == stored.enabled && used.cost == stored.cost
    && (var shape := if s.confidential && s.gated(p) then catalogued else stored;
        && used.canonicalSlug == shape.canonicalSlug && used.aliasIds == shape.aliasIds
        && used.forwardedId == shape.forwardedId && used.endpoints == shape.endpoints)
  }

  /** The catalogue entry is enabled, well named and not disabled; it is offered as itself, or as its stored model
      when there is one, which then converts and is well named. */
  predicate OfferedAs(s: Setting, u: Upstream, m: Model, o: Offer) {
    && m.enabled && WellNamed(m) && Strip(m.id) !in s.disabled
    && (!Stored(s.overrides, Strip(m.id)) ==> o.model == m)
    && (Stored(s.overrides, Strip(m.id)) ==> exists i ::
          && 0 <= i < |s.overrides| && StoredFirst(s.overrides, Strip(m.id), s.overrides[i])
          && s.overrides[i].model.Some? && Replaces(s, u.provider, s.overrides[i].model.value, m, o.model))
    && o.upstream == u && WellNamed(o.model) && RoutedAs(o.model, o.route) && o.seenAs == Lower(Strip(o.model.id))
  }

  lemma ReplacedExactly(s: Setting, p: Provider, stored: Model, catalogued: Model, used: Model)
    ensures PreserveShape(s, stored, catalogued, p) == used <==> Replaces(s, p, stored, catalogued, used)
  {
  }

  lemma CatalogueOfferExactly(s: Setting, u: Upstream, m: Model, o: Offer)
    ensures CatalogueOffer(s, u, m) == Some(o) <==> OfferedAs(s, u, m, o)
  {
    hide RouteOf, Find, WellNamed, Stored, StoredFirst, Strip, Lower, Replaces, PreserveShape;
    RouteOfExactly(o.model, o.route);
    RouteOfExactly(m, o.route);
    if RouteOf(m).Some? {
      RouteHasId(m);
      var key := Strip(m.id);
      var stored := Find(s.overrides, key);
      FindExactly(s.overrides, key, Override(key, None, None));
      forall row
        ensures stored == Some(row) <==> StoredFirst(s.overrides, key, row)
      {
        FindExactly(s.overrides, key, row);
      }
      if stored.Some? {
        StoredSomewhere(s.overrides, key, stored.value);
        var i :| 0 <= i < |s.overrides| && s.overrides[i] == stored.value;
        if stored.value.model.Some? {
          ReplacedExactly(s, u.provider, s.overrides[i].model.value, m, o.model);
          var used := PreserveShape(s, stored.value.model.value, m, u.provider);
          RouteOfExactly(used, o.route);
        }
        assert forall j :: 0 <= j < |s.overrides| && StoredFirst(s.overrides, key, s.overrides[j]) ==> s.overrides[j] == s.overrides[i];
      }
    }
  }

  lemma StoredSomewhere(overrides: seq<Override>, key: string, row: Override)
    requires StoredFirst(overrides, key, row)
    ensures exists i :: 0 <= i < |overrides| && overrides[i] == row
  {
  }

  lemma RouteHasId(m: Model)
    requires RouteOf(m).Some?
    ensures RouteOf(m).value.id == Strip(m.id)
  {
    hide Strip;
  }

  ghost predicate FromCatalogue(s: Setting, us: seq<Upstream>, o: Offer) {
    exists u, m :: u in us && m in u.provider.catalogue && OfferedAs(s, u, m, o)
  }

  lemma {:induction false} CatalogueOffersExactly(s: Setting, u: Upstream, models: seq<Model>, o: Offer)
    ensures o in CatalogueOffers(s, u, models) <==> exists m :: m in models && OfferedAs(s, u, m, o)
  {
    hide CatalogueOffer, OfferedAs;
    if models != [] {
      var front, last := models[..|models| - 1], models[|models| - 1];
      assert models == front + [last];
      CatalogueOffersExactly(s, u, front, o);
      CatalogueOfferExactly(s, u, last, o);
    }
  }

  /** Discovery admits exactly what the catalogues of the processed providers allow: their enabled entries that are not
      disabled, as themselves or as their stored models. */
  lemma {:induction false} DiscoveredExactly(s: Setting, us: seq<Upstream>, o: Offer)
    ensures o in Discovered(s, us) <==> FromCatalogue(s, us, o)
  {
    hide OfferedAs, CatalogueOffers;
    if us != [] {
      var front, last := us[..|us| - 1], us[|us| - 1];
      assert us == front + [last];
      DiscoveredExactly(s, front, o);
      CatalogueOffersExactly(s, last, last.provider.catalogue, o);
      assert last in us && forall u :: u in us <==> u in front || u == last;
    }
  }

  /** An enabled entry that is not disabled is offered: as itself when no row is stored for it, else as the model
      of that row, unless it does not convert to a well-named one. */
  lemma EnabledEntriesAreOffered(s: Setting, us: seq<Upstream>, u: Upstream, m: Model)
    requires u in us && m in u.provider.catalogue
    requires m.enabled && WellNamed(m) && Strip(m.id) !in s.disabled
    ensures !Stored(s.overrides, Strip(m.id)) ==>
      exists o :: o in Discovered(s, us) && OfferedAs(s, u, m, o) && o.model == m
    ensures forall row :: StoredFirst(s.overrides, Strip(m.id), row) && row.model.Some?
                          && WellNamed(PreserveShape(s, row.model.value, m, u.provider)) ==>
      exists o :: o in Discovered(s, us) && OfferedAs(s, u, m, o)
  {
    hide WellNamed, OfferedAs, RoutedAs, StoredFirst, Stored, Discovered, PreserveShape;
    var own := CatalogueOffer(s, u, m);
    RouteHasIdIfNamed(m);
    if own.Some? {
      CatalogueOfferExactly(s, u, m, own.value);
      DiscoveredExactly(s, us, own.value);
    }
    FindExactly(s.overrides, Strip(m.id), Override("", None, None));
    forall row | StoredFirst(s.overrides, Strip(m.id), row) && row.model.Some?
                 && WellNamed(PreserveShape(s, row.model.value, m, u.provider))
      ensures own.Some?
    {
      FindExactly(s.overrides, Strip(m.id), row);
      RouteHasIdIfNamed(PreserveShape(s, row.model.value, m, u.provider));
    }
  }

  lemma RouteHasIdIfNamed(m: Model)
    requires WellNamed(m)
    ensures RouteOf(m).Some? && RouteOf(m).value.id == Strip(m.id)
  {
    hide Strip;
  }

  /** The last of the validated providers with this database id. */
  predicate LastWithId(us: seq<Upstream>, id: int, u: Upstream) {
    exists i :: 0 <= i < |us| && us[i] == u && u.provider.dbId == Some(id) && forall j :: i < j < |us| ==> us[j].provider.dbId != Some(id)
  }

  lemma {:induction false} ByDbIdExactly(us: seq<Upstream>, id: int, u: Upstream)
    ensures ByDbId(us, id) == Some(u) <==> LastWithId(us, id, u)
  {
    if us != [] {
      var front := us[..|us| - 1];
      ByDbIdExactly(front, id, u);
      assert forall i :: 0 <= i < |front| ==> front[i] == us[i];
      if us[|us| - 1].provider.dbId != Some(id) {
        if LastWithId(front, id, u) {
          var i :| 0 <= i < |front| && front[i] == u && u.provider.dbId == Some(id) && forall j :: i < j < |front| ==> front[j].provider.dbId != Some(id);
          assert us[i] == u && forall j :: i < j < |us| ==> us[j].provider.dbId != Some(id);
        }
      } else {
        assert LastWithId(us, id, us[|us| - 1]);
      }
    }
  }

  /** A stored row that is not disabled belongs to a provider by its id, which does not insist on its endpoints in
      confidential mode and was not seen with the row's key; its model converts, is enabled and well named. */
  predicate AddedAs(s: Setting, us: seq<Upstream>, row: Override, soFar: seq<Offer>, o: Offer) {
    && row.key !in s.disabled && row.providerId.Some? && LastWithId(us, row.providerId.value, o.upstream)
    && !(s.confidential && s.gated(o.upstream.provider))
    && (forall i :: 0 <= i < |soFar| && soFar[i].upstream.key == o.upstream.key ==> soFar[i].seenAs != Lower(row.key))
    && row.model == Some(o.model) && o.model.enabled
    && WellNamed(o.model) && RoutedAs(o.model, o.route) && o.seenAs == Lower(row.key)
  }

  lemma StoredOfferExactly(s: Setting, us: seq<Upstream>, row: Override, soFar: seq<Offer>, o: Offer)
    ensures StoredOffer(s, us, row, soFar) == Some(o) <==> AddedAs(s, us, row, soFar, o)
  {
    hide RouteOf, WellNamed, RoutedAs, LastWithId, Lower;
    RouteOfExactly(o.model, o.route);
    if row.providerId.Some? {
      ByDbIdExactly(us, row.providerId.value, o.upstream);
    }
  }

  /** One of the first `n` stored rows adds the offer to those before it. */
  predicate FromStored(s: Setting, valid: seq<Upstream>, discovery: seq<Upstream>, n: nat, o: Offer)
    requires n <= |s.overrides|
  {
    exists i :: 0 <= i < n && AddedAs(s, valid, s.overrides[i], Offers(s, valid, discovery, i), o)
  }

  /** Everything on offer comes from an enabled catalogue entry or from an enabled stored row, neither of them disabled,
      and every such entry and row that discovery missed is on offer. */
  lemma {:induction false} OffersExactly(s: Setting, valid: seq<Upstream>, discovery: seq<Upstream>, n: nat, o: Offer)
    requires n <= |s.overrides|
    ensures o in Offers(s, valid, discovery, n) <==> FromCatalogue(s, discovery, o) || FromStored(s, valid, discovery, n, o)
  {
    hide StoredOffer, AddedAs, FromCatalogue, Discovered, FromStored;
    if n == 0 {
      DiscoveredExactly(s, discovery, o);
      NothingStored(s, valid, discovery, o);
    } else {
      OffersExactly(s, valid, discovery, n - 1, o);
      StoredOfferExactly(s, valid, s.overrides[n - 1], Offers(s, valid, discovery, n - 1), o);
      OneMoreStored(s, valid, discovery, n, o);
    }
  }

  lemma NothingStored(s: Setting, valid: seq<Upstream>, discovery: seq<Upstream>, o: Offer)
    ensures !FromStored(s, valid, discovery, 0, o)
  {
  }

  lemma OneMoreStored(s: Setting, valid: seq<Upstream>, discovery: seq<Upstream>, n: nat, o: Offer)
    requires 0 < n <= |s.overrides|
    ensures FromStored(s, valid, discovery, n, o) <==>
      FromStored(s, valid, discovery, n - 1, o) || AddedAs(s, valid, s.overrides[n - 1], Offers(s, valid, discovery, n - 1), o)
  {
    hide AddedAs, Offers;
  }

  predicate SameEntry(a: Offer, b: Offer) {
    a.seenAs == b.seenAs && a.upstream.key == b.upstream.key
  }

  /** No entry from `first` on repeats an earlier one. */
  predicate NewFrom(first: nat, all: seq<Offer>) {
    forall i, j :: 0 <= i < j < |all| && first <= j ==> !SameEntry(all[i], all[j])
  }

  lemma NewWithOneMore(first: nat, offers: seq<Offer>, o: Offer)
    requires NewFrom(first, offers) && !SeenIn(offers, o.seenAs, o.upstream.key)
    ensures NewFrom(first, offers + [o])
  {
  }

  lemma StoredOfferIsUnseen(s: Setting, us: seq<Upstream>, o: Override, soFar: seq<Offer>)
    requires StoredOffer(s, us, o, soFar).Some?
    ensures var offer := StoredOffer(s, us, o, soFar).value; !SeenIn(soFar, offer.seenAs, offer.upstream.key)
  {
  }

  /** The second pass leaves what discovery found in place, and never admits a model of a provider that was
      admitted before it. */
  lemma {:induction false} StoredOffersAreNew(s: Setting, valid: seq<Upstream>, discovery: seq<Upstream>, n: nat)
    requires n <= |s.overrides|
    ensures Discovered(s, discovery) <= Offers(s, valid, discovery, n)
    ensures NewFrom(|Discovered(s, discovery)|, Offers(s, valid, discovery, n))
  {
    hide StoredOffer;
    if n > 0 {
      StoredOffersAreNew(s, valid, discovery, n - 1);
      var before := Offers(s, valid, discovery, n - 1);
      var more := StoredOffer(s, valid, s.overrides[n - 1], before);
      if more.Some? {
        StoredOfferIsUnseen(s, valid, s.overrides[n - 1], before);
        NewWithOneMore(|Discovered(s, discovery)|, before, more.value);
      }
    }
  }

  /** The aliases of the route, the id under the provider's name if it has no prefix, and the forwarded id. */
  function Aliases(o: Offer): (r: seq<string>)
    ensures o.route.id in r && BaseId(o.route.id) in r
    ensures o.route.forwarded.Some? ==> o.route.forwarded.value in r
  {
    var name := NonEmpty(o.upstream.provider.name);
    var resolved := ResolveAlias(o.route);
    var prefixed := if name.Some? && '/' !in o.route.id then AddNew(resolved, name.value + "/" + o.route.id) else resolved;
    if o.route.forwarded.Some? then AddNew(prefixed, o.route.forwarded.value) else prefixed
  }

  lemma AliasesExactly(o: Offer, x: string)
    ensures x in Aliases(o) <==>
      || x in ResolveAlias(o.route) || Some(x) == o.route.forwarded
      || ('/' !in o.route.id && ProviderName(o.upstream.provider) != "" && x == ProviderName(o.upstream.provider) + "/" + o.route.id)
    ensures o.route.aliasIds == [] ==> Distinct(Aliases(o))
  {
    hide ResolveAlias, AddNew, Strip, Distinct;
    var name, resolved := ProviderName(o.upstream.provider), ResolveAlias(o.route);
    ResolveAliasExactly(o.route, x);
    AddNewExactly(resolved, name + "/" + o.route.id, x);
    if o.route.forwarded.Some? {
      AddNewExactly(resolved, o.route.forwarded.value, x);
      AddNewExactly(AddNew(resolved, name + "/" + o.route.id), o.route.forwarded.value, x);
    }
  }

  function ProviderName(p: Provider): string {
    if p.name.Some? then Strip(p.name.value) else ""
  }

  // ---------- Candidates per alias ----------

  datatype Candidate = Candidate(model: Model, upstream: Upstream)

  type Candidates = map<string, seq<Candidate>>

  function Under(cs: Candidates, alias: string): seq<Candidate> {
    if alias in cs then cs[alias] else []
  }

  function WithAlias(cs: Candidates, alias: string, c: Candidate): Candidates {
    cs[Lower(alias) := Under(cs, Lower(alias)) + [c]]
  }

  function WithAliases(cs: Candidates, aliases: seq<string>, c: Candidate): Candidates {
    if aliases == [] then cs else WithAlias(WithAliases(cs, aliases[..|aliases| - 1], c), aliases[|aliases| - 1], c)
  }

  function CandidatesOf(offers: seq<Offer>): Candidates {
    if offers == [] then map[]
    else
      var last := offers[|offers| - 1];
      WithAliases(CandidatesOf(offers[..|offers| - 1]), Aliases(last), Candidate(last.model, last.upstream))
  }

  /** Some alias of the offer is this one, up to letter case. */
  predicate Names(o: Offer, alias: string) {
    Text.Holds(Aliases(o), alias)
  }

  lemma {:induction false} WithAliasesHolds(cs: Candidates, aliases: seq<string>, c: Candidate, alias: string)
    ensures alias in WithAliases(cs, aliases, c) <==> alias in cs || Text.Holds(aliases, alias)
    ensures forall x :: x in Under(WithAliases(cs, aliases, c), alias) <==> x in Under(cs, alias) || (x == c && Text.Holds(aliases, alias))
  {
    if aliases != [] {
      var front, last := aliases[..|aliases| - 1], aliases[|aliases| - 1];
      WithAliasesHolds(cs, front, c, alias);
      HoldsLast(aliases, alias);
      if Lower(last) == alias {
        assert Under(WithAliases(cs, aliases, c), alias) == Under(WithAliases(cs, front, c), alias) + [c];
      } else {
        assert Under(WithAliases(cs, aliases, c), alias) == Under(WithAliases(cs, front, c), alias);
      }
    }
  }

  lemma HoldsLast(xs: seq<string>, l: string)
    requires xs != []
    ensures Text.Holds(xs, l) <==> Text.Holds(xs[..|xs| - 1], l) || Lower(xs[|xs| - 1]) == l
  {
    var front := xs[..|xs| - 1];
    if Text.Holds(front, l) {
      var i :| 0 <= i < |front| && Lower(front[i]) == l;
      assert Lower(xs[i]) == l;
    }
    if Text.Holds(xs, l) && Lower(xs[|xs| - 1]) != l {
      var i :| 0 <= i < |xs| && Lower(xs[i]) == l;
      assert Lower(front[i]) == l;
    }
  }

  ghost predicate Offered(offers: seq<Offer>, alias: string, c: Candidate) {
    exists o {:trigger o in offers} :: o in offers && Makes(o, alias, c)
  }

  predicate Makes(o: Offer, alias: string, c: Candidate) {
    c == Candidate(o.model, o.upstream) && Names(o, alias)
  }

  ghost predicate SomeoneNames(offers: seq<Offer>, alias: string) {
    exists o {:trigger o in offers} :: o in offers && Names(o, alias)
  }

  /** The candidates of an alias are exactly the admitted models one of whose aliases it is. */
  lemma {:induction false} CandidatesAreOffers(offers: seq<Offer>, alias: string)
    ensures alias in CandidatesOf(offers) <==> SomeoneNames(offers, alias)
    ensures forall c :: c in Under(CandidatesOf(offers), alias) <==> Offered(offers, alias, c)
    ensures alias in CandidatesOf(offers) ==> CandidatesOf(offers)[alias] != []
  {
    if offers != [] {
      var front, last := offers[..|offers| - 1], offers[|offers| - 1];
      CandidatesAreOffers(front, alias);
      CandidateStep(CandidatesOf(front), last, alias);
      NamesLast(offers, alias);
      forall c
        ensures Offered(offers, alias, c) <==> Offered(front, alias, c) || Makes(last, alias, c)
      {
        OfferedLast(offers, alias, c);
      }
    }
  }

  lemma CandidateStep(cs: Candidates, o: Offer, alias: string)
    requires alias in cs ==> cs[alias] != []
    ensures var more := WithAliases(cs, Aliases(o), Candidate(o.model, o.upstream));
      && (alias in more <==> alias in cs || Names(o, alias))
      && (forall c :: c in Under(more, alias) <==> c in Under(cs, alias) || Makes(o, alias, c))
      && (alias in more ==> more[alias] != [])
  {
    var c0 := Candidate(o.model, o.upstream);
    WithAliasesHolds(cs, Aliases(o), c0, alias);
    var more := WithAliases(cs, Aliases(o), c0);
    if alias in more {
      if Names(o, alias) {
        assert c0 in Under(more, alias);
      } else {
        assert cs[alias][0] in Under(cs, alias);
      }
    }
  }

  lemma OfferedLast(offers: seq<Offer>, alias: string, c: Candidate)
    requires offers != []
    ensures Offered(offers, alias, c) <==> Offered(offers[..|offers| - 1], alias, c) || Makes(offers[|offers| - 1], alias, c)
  {
    var front, last := offers[..|offers| - 1], offers[|offers| - 1];
    assert offers == front + [last] && last in offers;
    assert forall o :: o in offers <==> o in front || o == last;
  }

  lemma NamesLast(offers: seq<Offer>, alias: string)
    requires offers != []
    ensures SomeoneNames(offers, alias) <==> SomeoneNames(offers[..|offers| - 1], alias) || Names(offers[|offers| - 1], alias)
  {
    var front, last := offers[..|offers| - 1], offers[|offers| - 1];
    assert offers == front + [last] && last in offers;
    assert forall o :: o in offers <==> o in front || o == last;
  }

  // ---------- The order of a candidate list ----------

  function TimesNamed(aliases: seq<string>, alias: string): nat {
    if aliases == [] then 0 else TimesNamed(aliases[..|aliases| - 1], alias) + (if Lower(aliases[|aliases| - 1]) == alias then 1 else 0)
  }

  function Repeated(c: Candidate, n: nat): seq<Candidate> {
    if n == 0 then [] else Repeated(c, n - 1) + [c]
  }

  /** The offers under an alias in the order they were made, each once for every alias that matches. */
  function InOfferOrder(offers: seq<Offer>, alias: string): seq<Candidate> {
    if offers == [] then []
    else
      var last := offers[|offers| - 1];
      InOfferOrder(offers[..|offers| - 1], alias) + Repeated(Candidate(last.model, last.upstream), TimesNamed(Aliases(last), alias))
  }

  lemma AliasAppends(cs: Candidates, name: string, c: Candidate, alias: string)
    ensures Under(WithAlias(cs, name, c), alias) == if Lower(name) == alias then Under(cs, alias) + [c] else Under(cs, alias)
  {
    hide Lower;
  }

  lemma {:induction false} AliasesAppend(cs: Candidates, aliases: seq<string>, c: Candidate, alias: string)
    ensures Under(WithAliases(cs, aliases, c), alias) == Under(cs, alias) + Repeated(c, TimesNamed(aliases, alias))
  {
    hide Lower;
    if aliases == [] {
      assert Under(cs, alias) + [] == Under(cs, alias);
    } else {
      var front, last := aliases[..|aliases| - 1], aliases[|aliases| - 1];
      AliasesAppend(cs, front, c, alias);
      AliasAppends(WithAliases(cs, front, c), last, c, alias);
      var n := TimesNamed(front, alias);
      if Lower(last) == alias {
        assert Under(cs, alias) + Repeated(c, n) + [c] == Under(cs, alias) + (Repeated(c, n) + [c]);
      }
    }
  }

  /** A candidate list holds the offers in the order they were made, once per matching alias. */
  lemma {:induction false} CandidatesAreInOfferOrder(offers: seq<Offer>, alias: string)
    ensures Under(CandidatesOf(offers), alias) == InOfferOrder(offers, alias)
  {
    hide WithAliases, Aliases, Repeated, TimesNamed;
    if offers != [] {
      var front, last := offers[..|offers| - 1], offers[|offers| - 1];
      CandidatesAreInOfferOrder(front, alias);
      AliasesAppend(CandidatesOf(front), Aliases(last), Candidate(last.model, last.upstream), alias);
    }
  }

  /** The keys that one more list of aliases adds. */
  function KeysWith(keys: seq<string>, aliases: seq<string>): seq<string> {
    if aliases == [] then keys else AddNew(KeysWith(keys, aliases[..|aliases| - 1]), Lower(aliases[|aliases| - 1]))
  }

  /** The keys of the candidate lists in the order in which they first appear. */
  function KeyOrder(offers: seq<Offer>): seq<string> {
    if offers == [] then [] else KeysWith(KeyOrder(offers[..|offers| - 1]), Aliases(offers[|offers| - 1]))
  }

  lemma {:induction false} KeysGrow(keys: seq<string>, aliases: seq<string>)
    ensures keys <= KeysWith(keys, aliases)
    ensures Distinct(keys) ==> Distinct(KeysWith(keys, aliases))
    ensures forall x :: x in KeysWith(keys, aliases) <==> x in keys || Text.Holds(aliases, x)
  {
    hide Lower;
    if aliases != [] {
      var front, last := aliases[..|aliases| - 1], aliases[|aliases| - 1];
      KeysGrow(keys, front);
      forall x
        ensures x in KeysWith(keys, aliases) <==> x in keys || Text.Holds(aliases, x)
      {
        HoldsLast(aliases, x);
        AddNewExactly(KeysWith(keys, front), Lower(last), x);
      }
    }
  }

  /** Every key comes once. */
  lemma {:induction false} KeyOrderExactly(offers: seq<Offer>)
    ensures Distinct(KeyOrder(offers))
    ensures forall x :: x in KeyOrder(offers) <==> SomeoneNames(offers, x)
  {
    hide KeysWith, Aliases, Names, SomeoneNames, Distinct;
    if offers == [] {
      NobodyNames();
    } else {
      var front, last := offers[..|offers| - 1], offers[|offers| - 1];
      KeyOrderExactly(front);
      KeysGrow(KeyOrder(front), Aliases(last));
      forall x
        ensures x in KeyOrder(offers) <==> SomeoneNames(offers, x)
      {
        NamesLast(offers, x);
        NamesIsHolds(last, x);
      }
    }
  }

  lemma NobodyNames()
    ensures Distinct([]) && forall x :: !SomeoneNames([], x)
  {
  }

  /** Later offers add their keys at the end. */
  lemma {:induction false} KeyOrderGrows(offers: seq<Offer>, more: seq<Offer>)
    ensures KeyOrder(offers) <= KeyOrder(offers + more)
  {
    hide KeysWith, Aliases, KeyOrder;
    if more == [] {
      assert offers + more == offers;
    } else {
      var front, last := more[..|more| - 1], more[|more| - 1];
      KeyOrderGrows(offers, front);
      assert offers + more == (offers + front) + [last];
      OneMoreKeyed(offers + front, last);
      KeysExtend(KeyOrder(offers + front), Aliases(last), KeyOrder(offers));
    }
  }

  lemma KeysExtend(keys: seq<string>, aliases: seq<string>, first: seq<string>)
    requires first <= keys
    ensures first <= KeysWith(keys, aliases)
  {
    KeysGrow(keys, aliases);
  }

  lemma NamesIsHolds(o: Offer, x: string)
    ensures Names(o, x) <==> Text.Holds(Aliases(o), x)
  {
  }

  // ---------- Published models outside confidential mode ----------

  /** An entry of the list of unique models. */
  datatype Listing = Listing(id: string, model: Model, upstream: Upstream)

  function UniqueKey(o: Offer): string {
    if o.route.forwarded.Some? then o.route.forwarded.value else BaseId(o.route.id)
  }

  /** A model is listed under its forwarded id, else under its id without prefix, whatever the prefix. */
  lemma PrefixesShareAKey(o: Offer, prefix: string, base: string)
    requires '/' !in prefix
    ensures o.route.forwarded.Some? ==> UniqueKey(o) == o.route.forwarded.value
    ensures o.route.forwarded.None? && o.route.id == prefix + "/" + base ==> UniqueKey(o) == base
    ensures o.route.forwarded.None? && o.route.id == prefix ==> UniqueKey(o) == prefix
  {
    PrefixAndBase(prefix, base);
  }

  function ListedWith(unique: map<string, Listing>, o: Offer): map<string, Listing> {
    if o.upstream.openrouter && UniqueKey(o) in unique then unique
    else unique[UniqueKey(o) := Listing(BaseId(o.route.id), o.model, o.upstream)]
  }

  function ListedModels(offers: seq<Offer>): map<string, Listing> {
    if offers == [] then map[] else ListedWith(ListedModels(offers[..|offers| - 1]), offers[|offers| - 1])
  }

  predicate OffersKey(offers: seq<Offer>, key: string, direct: bool) {
    exists i :: 0 <= i < |offers| && UniqueKey(offers[i]) == key && (direct ==> !offers[i].upstream.openrouter)
  }

  predicate ListedFrom(offers: seq<Offer>, key: string, l: Listing) {
    exists i :: 0 <= i < |offers| && UniqueKey(offers[i]) == key && l == Listing(BaseId(offers[i].route.id), offers[i].model, offers[i].upstream)
  }

  /** A key is published if and only if someone offers it; the entry comes from OpenRouter only when no other
      provider offers the key. */
  lemma {:induction false} DirectProvidersArePublished(offers: seq<Offer>, key: string)
    ensures key in ListedModels(offers) <==> OffersKey(offers, key, false)
    ensures key in ListedModels(offers) ==> ListedFrom(offers, key, ListedModels(offers)[key])
    ensures key in ListedModels(offers) ==> (!ListedModels(offers)[key].upstream.openrouter <==> OffersKey(offers, key, true))
  {
    if offers != [] {
      var front, last := offers[..|offers| - 1], offers[|offers| - 1];
      assert offers == front + [last];
      assert forall i :: 0 <= i < |front| ==> front[i] == offers[i];
      DirectProvidersArePublished(front, key);
      assert OffersKey(offers, key, true) <==> OffersKey(front, key, true) || (UniqueKey(last) == key && !last.upstream.openrouter);
      assert OffersKey(offers, key, false) <==> OffersKey(front, key, false) || UniqueKey(last) == key;
      assert UniqueKey(last) == key ==> ListedFrom(offers, key, Listing(BaseId(last.route.id), last.model, last.upstream));
    }
  }

  // ---------- The builder ----------

  /** The maps are what the offers made so far call for. */
  ghost predicate Fits(confidential: bool, candidates: Candidates, order: seq<string>, unique: map<string, Listing>,
                       seen: set<(string, Key)>, offers: seq<Offer>) {
    && candidates == CandidatesOf(offers)
    && unique == (if confidential then map[] else ListedModels(offers))
    && (forall a, k :: (a, k) in seen <==> SeenIn(offers, a, k))
    && order == KeyOrder(offers)
  }

  lemma OneMoreFits(confidential: bool, candidates: Candidates, order: seq<string>, unique: map<string, Listing>,
                    seen: set<(string, Key)>, offers: seq<Offer>, o: Offer)
    requires Fits(confidential, candidates, order, unique, seen, offers)
    ensures Fits(confidential, WithAliases(candidates, Aliases(o), Candidate(o.model, o.upstream)), KeysWith(order, Aliases(o)),
                 if confidential then unique else ListedWith(unique, o), seen + {(o.seenAs, o.upstream.key)}, offers + [o])
  {
    hide WithAliases, Aliases, ListedWith, CandidatesOf, ListedModels, SeenIn, KeysWith, KeyOrder;
    OneMoreCandidate(offers, o);
    OneMoreListed(offers, o);
    OneMoreSeen(offers, o);
    OneMoreKeyed(offers, o);
  }

  class Builder {
    const s: Setting
    var candidates: Candidates
    var order: seq<string>
    var unique: map<string, Listing>
    var seen: set<(string, Key)>
    ghost var offers: seq<Offer>

    constructor (s: Setting)
      ensures this.s == s && offers == [] && Valid()
    {
      this.s := s;
      candidates, order, unique, seen, offers := map[], [], map[], {}, [];
    }

    ghost predicate Valid()
      reads this
    {
      Ordered() && Fits(s.confidential, candidates, order, unique, seen, offers)
    }

    /** The keys, each once. */
    ghost predicate Ordered()
      reads this`order, this`candidates
    {
      && (forall a :: a in order <==> a in candidates)
      && (forall i, j :: 0 <= i < j < |order| ==> order[i] != order[j])
    }

    method AddCandidate(alias: string, c: Candidate)
      requires Ordered()
      modifies this`candidates, this`order
      ensures candidates == WithAlias(old(candidates), alias, c)
      ensures Ordered() && order == AddNew(old(order), Lower(alias))
    {
      var key := Lower(alias);
      if key !in candidates {
        candidates := candidates[key := []];
        order := order + [key];
      }
      candidates := candidates[key := candidates[key] + [c]];
    }

    method AddCandidates(aliases: seq<string>, c: Candidate)
      requires Ordered()
      modifies this`candidates, this`order
      ensures candidates == WithAliases(old(candidates), aliases, c)
      ensures Ordered() && order == KeysWith(old(order), aliases)
    {
      for i := 0 to |aliases|
        invariant candidates == WithAliases(old(candidates), aliases[..i], c)
        invariant Ordered() && order == KeysWith(old(order), aliases[..i])
      {
        assert aliases[..i + 1][..i] == aliases[..i];
        AddCandidate(aliases[i], c);
      }
      assert aliases[..|aliases|] == aliases;
    }

    method Publish(o: Offer)
      modifies this`unique
      ensures unique == ListedWith(old(unique), o)
    {
      var key := UniqueKey(o);
      if !o.upstream.openrouter || key !in unique {
        unique := unique[key := Listing(BaseId(o.route.id), o.model, o.upstream)];
      }
    }

    /** Record an offer: publish it, then register its aliases. */
    method Admit(o: Offer)
      requires Valid()
      modifies this
      ensures Valid() && offers == old(offers) + [o]
    {
      hide WithAliases, Aliases, ListedWith, Fits, Ordered, KeysWith;
      OneMoreFits(s.confidential, candidates, order, unique, seen, offers, o);
      if !s.confidential {
        Publish(o);
      }
      AddCandidates(Aliases(o), Candidate(o.model, o.upstream));
      seen := seen + {(o.seenAs, o.upstream.key)};
      offers := offers + [o];
    }

    method ProcessProviderModels(u: Upstream)
      requires Valid()
      modifies this
      ensures Valid() && offers == old(offers) + CatalogueOffers(s, u, u.provider.catalogue)
    {
      hide CatalogueOffer, Valid;
      var models := u.provider.catalogue;
      for i := 0 to |models|
        invariant Valid() && offers == old(offers) + CatalogueOffers(s, u, models[..i])
      {
        assert models[..i + 1][..i] == models[..i];
        var offer := CatalogueOffer(s, u, models[i]);
        if offer.Some? {
          Admit(offer.value);
        }
      }
      assert models[..|models|] == models;
    }

    method ProcessAll(us: seq<Upstream>)
      requires Valid() && offers == []
      modifies this
      ensures Valid() && offers == Discovered(s, us)
    {
      for i := 0 to |us|
        invariant Valid() && offers == Discovered(s, us[..i])
      {
        assert us[..i + 1][..i] == us[..i];
        ProcessProviderModels(us[i]);
      }
      assert us[..|us|] == us;
    }

    /** What a stored row adds to the offers so far. */
    method MissedModel(valid: seq<Upstream>, o: Override) returns (r: Option<Offer>)
      requires Valid()
      ensures r == StoredOffer(s, valid, o, offers)
    {
      if o.key in s.disabled || o.providerId.None? {
        return None;
      }
      var u := ByDbId(valid, o.providerId.value);
      if u.None? || (s.confidential && s.gated(u.value.provider)) || (Lower(o.key), u.value.key) in seen {
        return None;
      }
      if o.model.None? || !o.model.value.enabled {
        return None;
      }
      var route := RouteOf(o.model.value);
      return if route.None? then None else Some(Offer(o.model.value, u.value, route.value, Lower(o.key)));
    }

    /** Stored rows that discovery missed. */
    method ProcessOverrides(valid: seq<Upstream>, ghost discovery: seq<Upstream>)
      requires Valid() && offers == Discovered(s, discovery)
      modifies this
      ensures Valid() && offers == Offers(s, valid, discovery, |s.overrides|)
    {
      hide StoredOffer, Valid;
      for i := 0 to |s.overrides|
        invariant Valid() && offers == Offers(s, valid, discovery, i)
      {
        var missed := MissedModel(valid, s.overrides[i]);
        if missed.Some? {
          Admit(missed.value);
        }
      }
    }
  }

  lemma OneMoreCandidate(offers: seq<Offer>, o: Offer)
    ensures CandidatesOf(offers + [o]) == WithAliases(CandidatesOf(offers), Aliases(o), Candidate(o.model, o.upstream))
  {
    hide WithAliases, Aliases;
    assert (offers + [o])[..|offers + [o]| - 1] == offers;
  }

  lemma OneMoreKeyed(offers: seq<Offer>, o: Offer)
    ensures KeyOrder(offers + [o]) == KeysWith(KeyOrder(offers), Aliases(o))
  {
    hide KeysWith, Aliases;
    assert (offers + [o])[..|offers + [o]| - 1] == offers;
  }

  lemma OneMoreListed(offers: seq<Offer>, o: Offer)
    ensures ListedModels(offers + [o]) == ListedWith(ListedModels(offers), o)
  {
    hide ListedWith;
    assert (offers + [o])[..|offers + [o]| - 1] == offers;
  }

  lemma OneMoreSeen(offers: seq<Offer>, o: Offer)
    ensures forall a, k :: SeenIn(offers + [o], a, k) <==> SeenIn(offers, a, k) || (a == o.seenAs && k == o.upstream.key)
  {
    var all := offers + [o];
    assert all[|offers|] == o && forall i :: 0 <= i < |offers| ==> all[i] == offers[i];
  }
}
