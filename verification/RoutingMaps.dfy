/** Ranking the candidates of each alias and publishing the routing maps. */
module RoutingMaps {
  import opened Wrappers
  import opened Text
  import opened ProviderSelection
  import opened RoutingCandidates

  // ---------- Ranking ----------

  datatype Rank = Rank(priority: int, cost: real)

  predicate Better(a: Rank, b: Rank) {
    a.priority > b.priority || (a.priority == b.priority && a.cost < b.cost)
  }

  datatype Keyed = Keyed(rank: Rank, candidate: Candidate)

  /** How specifically the model is meant by the alias. */
  function AliasPriority(m: Model, alias: string): int {
    var id, slug := LowerNonEmpty(Some(m.id)), LowerNonEmpty(m.canonicalSlug);
    if LowerNonEmpty(m.forwardedId) == Some(alias) then 5
    else if id == Some(alias) then 4
    else if id.None? then 1
    else if BaseId(id.value) == alias then 3
    else if slug.Some? && BaseId(slug.value) == alias then 2
    else 1
  }

  /** The name without outer space and letter case, and whether the alias is it or what follows its prefix. */
  predicate Is(s: Option<string>, alias: string) {
    s.Some? && Strip(s.value) != "" && Lower(Strip(s.value)) == alias
  }

  predicate BaseIs(s: Option<string>, alias: string) {
    s.Some? && Strip(s.value) != "" && BaseId(Lower(Strip(s.value))) == alias
  }

  /** The five levels: forwarded id, id, base of the id, base of the slug, anything else. */
  lemma PriorityExactly(m: Model, alias: string)
    ensures AliasPriority(m, alias) == 5 <==> Is(m.forwardedId, alias)
    ensures AliasPriority(m, alias) == 4 <==> !Is(m.forwardedId, alias) && Is(Some(m.id), alias)
    ensures AliasPriority(m, alias) == 3 <==> !Is(m.forwardedId, alias) && !Is(Some(m.id), alias) && BaseIs(Some(m.id), alias)
    ensures AliasPriority(m, alias) == 2 <==>
      && !Is(m.forwardedId, alias) && !Is(Some(m.id), alias) && !BaseIs(Some(m.id), alias)
      && Strip(m.id) != "" && BaseIs(m.canonicalSlug, alias)
    ensures 1 <= AliasPriority(m, alias) <= 5
  {
    hide Strip, Lower, BaseId;
  }

  predicate Contains(s: string, t: string) {
    (|t| <= |s| && s[..|t|] == t) || (s != "" && Contains(s[1..], t))
  }

  lemma {:induction false} ContainsInside(before: string, t: string, after: string)
    ensures Contains(before + t + after, t)
  {
    var s := before + t + after;
    if before == "" {
      assert s[..|t|] == t;
    } else {
      assert s[1..] == before[1..] + t + after;
      ContainsInside(before[1..], t, after);
    }
  }

  lemma {:induction false} ContainsExactly(s: string, t: string)
    ensures Contains(s, t) <==> exists before, after :: s == before + t + after
  {
    if Contains(s, t) {
      if |t| <= |s| && s[..|t|] == t {
        assert s == "" + t + s[|t|..];
      } else {
        ContainsExactly(s[1..], t);
        var before, after :| s[1..] == before + t + after;
        assert s == ([s[0]] + before) + t + after;
      }
    }
    if before, after :| s == before + t + after {
      ContainsInside(before, t, after);
    }
  }

  predicate OnOpenRouter(p: Provider) {
    p.baseUrl.Some? && Contains(Lower(p.baseUrl.value), "openrouter.ai")
  }

  function Penalty(p: Provider): (r: real)
    ensures r > 0.0
  {
    if OnOpenRouter(p) then 1.001 else 1.0
  }

  function RankOf(alias: string, c: Candidate): Rank {
    Rank(AliasPriority(c.model, alias), c.model.cost * Penalty(c.upstream.provider))
  }

  predicate Forwards(m: Model, alias: string) {
    LowerNonEmpty(m.forwardedId) == Some(alias)
  }

  predicate IdIs(m: Model, alias: string) {
    LowerNonEmpty(Some(m.id)) == Some(alias)
  }

  predicate IdBaseIs(m: Model, alias: string) {
    LowerNonEmpty(Some(m.id)).Some? && BaseId(LowerNonEmpty(Some(m.id)).value) == alias
  }

  /** A match of the forwarded id beats any other, a match of the id beats any weaker one, then of the id's base,
      whatever the candidates cost. */
  lemma MoreSpecificWins(alias: string, x: Candidate, y: Candidate)
    requires !Forwards(y.model, alias)
    ensures Forwards(x.model, alias) ==> Better(RankOf(alias, x), RankOf(alias, y))
    ensures IdIs(x.model, alias) && !IdIs(y.model, alias) ==> Better(RankOf(alias, x), RankOf(alias, y))
    ensures IdBaseIs(x.model, alias) && !IdIs(y.model, alias) && !IdBaseIs(y.model, alias) ==> Better(RankOf(alias, x), RankOf(alias, y))
  {
    hide LowerNonEmpty, Penalty;
  }

  /** Among equally specific matches a provider elsewhere beats OpenRouter exactly when it costs less than 0.1%
      more; in particular at the same positive price. */
  lemma OpenRouterIsPenalised(alias: string, x: Candidate, y: Candidate)
    requires !OnOpenRouter(x.upstream.provider) && OnOpenRouter(y.upstream.provider)
    requires AliasPriority(x.model, alias) == AliasPriority(y.model, alias)
    ensures Better(RankOf(alias, x), RankOf(alias, y)) <==> 1000.0 * x.model.cost < 1001.0 * y.model.cost
  {
    hide AliasPriority, OnOpenRouter;
  }

  /** Otherwise the cheaper one wins, and a tie is left to the order. */
  lemma CheaperWins(alias: string, x: Candidate, y: Candidate)
    requires OnOpenRouter(x.upstream.provider) == OnOpenRouter(y.upstream.provider)
    requires AliasPriority(x.model, alias) == AliasPriority(y.model, alias)
    ensures Better(RankOf(alias, x), RankOf(alias, y)) <==> x.model.cost < y.model.cost
  {
    hide AliasPriority, OnOpenRouter;
  }

  /** OpenRouter is recognised by its host name anywhere in the base URL, in any letter case. */
  lemma OnOpenRouterExactly(p: Provider)
    ensures OnOpenRouter(p) <==> p.baseUrl.Some? && exists before, after :: Lower(p.baseUrl.value) == before + "openrouter.ai" + after
  {
    hide Lower;
    if p.baseUrl.Some? {
      ContainsExactly(Lower(p.baseUrl.value), "openrouter.ai");
    }
  }

  function WithKeys(alias: string, items: seq<Candidate>): (r: seq<Keyed>)
    ensures |r| == |items|
    ensures forall i :: 0 <= i < |items| ==> r[i] == Keyed(RankOf(alias, items[i]), items[i])
  {
    if items == [] then [] else WithKeys(alias, items[..|items| - 1]) + [Keyed(RankOf(alias, items[|items| - 1]), items[|items| - 1])]
  }

  function WithoutKeys(items: seq<Keyed>): (r: seq<Candidate>)
    ensures |r| == |items|
    ensures forall i :: 0 <= i < |items| ==> r[i] == items[i].candidate
  {
    if items == [] then [] else WithoutKeys(items[..|items| - 1]) + [items[|items| - 1].candidate]
  }

  function InsertKeyed(x: Keyed, xs: seq<Keyed>): seq<Keyed> {
    if xs == [] || !Better(xs[0].rank, x.rank) then [x] + xs else [xs[0]] + InsertKeyed(x, xs[1..])
  }

  /** The library's stable sort, best rank first. */
  function SortKeyed(xs: seq<Keyed>): seq<Keyed> {
    if xs == [] then [] else InsertKeyed(xs[0], SortKeyed(xs[1..]))
  }

  predicate BestFirst(xs: seq<Keyed>) {
    forall i, j :: 0 <= i < j < |xs| ==> !Better(xs[j].rank, xs[i].rank)
  }

  /** The items of one rank, in order. */
  function Tied(xs: seq<Keyed>, r: Rank): seq<Keyed> {
    if xs == [] then [] else if xs[0].rank == r then [xs[0]] + Tied(xs[1..], r) else Tied(xs[1..], r)
  }

  ghost predicate SameTies(xs: seq<Keyed>, ys: seq<Keyed>) {
    forall r :: Tied(xs, r) == Tied(ys, r)
  }

  lemma {:induction false} InsertInOrder(x: Keyed, xs: seq<Keyed>)
    requires BestFirst(xs)
    ensures BestFirst(InsertKeyed(x, xs)) && multiset(InsertKeyed(x, xs)) == multiset{x} + multiset(xs)
  {
    if xs != [] && Better(xs[0].rank, x.rank) {
      InsertInOrder(x, xs[1..]);
      assert xs == [xs[0]] + xs[1..];
      var rest := InsertKeyed(x, xs[1..]);
      forall j | 0 <= j < |rest|
        ensures !Better(rest[j].rank, xs[0].rank)
      {
        assert rest[j] in multiset(rest);
        assert rest[j] == x || rest[j] in multiset(xs[1..]);
      }
    }
  }

  lemma {:induction false} InsertTies(x: Keyed, xs: seq<Keyed>, r: Rank)
    ensures Tied(InsertKeyed(x, xs), r) == if x.rank == r then [x] + Tied(xs, r) else Tied(xs, r)
  {
    if xs == [] || !Better(xs[0].rank, x.rank) {
      assert ([x] + xs)[1..] == xs;
    } else {
      InsertTies(x, xs[1..], r);
      assert ([xs[0]] + InsertKeyed(x, xs[1..]))[1..] == InsertKeyed(x, xs[1..]);
    }
  }

  lemma {:induction false} SortKeyedSorts(xs: seq<Keyed>)
    ensures BestFirst(SortKeyed(xs)) && SameTies(SortKeyed(xs), xs) && multiset(SortKeyed(xs)) == multiset(xs)
  {
    if xs != [] {
      SortKeyedSorts(xs[1..]);
      InsertInOrder(xs[0], SortKeyed(xs[1..]));
      forall r
        ensures Tied(SortKeyed(xs), r) == Tied(xs, r)
      {
        InsertTies(xs[0], SortKeyed(xs[1..]), r);
      }
      assert xs == [xs[0]] + xs[1..];
    }
  }

  lemma {:induction false} TiedHas(xs: seq<Keyed>, r: Rank)
    ensures Tied(xs, r) != [] ==> exists i :: 0 <= i < |xs| && xs[i].rank == r
    ensures xs != [] ==> Tied(xs, xs[0].rank) == [xs[0]] + Tied(xs[1..], xs[0].rank)
  {
    if xs != [] {
      TiedHas(xs[1..], r);
    }
  }

  lemma SameHead(xs: seq<Keyed>, ys: seq<Keyed>)
    requires BestFirst(xs) && BestFirst(ys) && SameTies(xs, ys) && xs != []
    ensures ys != [] && ys[0] == xs[0]
  {
    TiedHas(xs, xs[0].rank);
    assert Tied(ys, xs[0].rank) == Tied(xs, xs[0].rank) != [];
    TiedHas(ys, xs[0].rank);
    var i :| 0 <= i < |ys| && ys[i].rank == xs[0].rank;
    assert !Better(ys[i].rank, ys[0].rank);
    TiedHas(ys, ys[0].rank);
    assert Tied(xs, ys[0].rank) == Tied(ys, ys[0].rank) != [];
    TiedHas(xs, ys[0].rank);
    var j :| 0 <= j < |xs| && xs[j].rank == ys[0].rank;
    assert !Better(xs[j].rank, xs[0].rank);
    assert xs[0].rank == ys[0].rank;
    assert Tied(xs, xs[0].rank)[0] == xs[0] && Tied(ys, xs[0].rank)[0] == ys[0];
  }

  lemma TiedRest(xs: seq<Keyed>, ys: seq<Keyed>, r: Rank)
    requires xs != [] && ys != [] && xs[0] == ys[0] && Tied(xs, r) == Tied(ys, r)
    ensures Tied(xs[1..], r) == Tied(ys[1..], r)
  {
    if xs[0].rank == r {
      assert Tied(xs[1..], r) == Tied(xs, r)[1..];
      assert Tied(ys[1..], r) == Tied(ys, r)[1..];
    }
  }

  lemma {:induction false} StableSortIsUnique(xs: seq<Keyed>, ys: seq<Keyed>)
    requires BestFirst(xs) && BestFirst(ys) && SameTies(xs, ys)
    ensures xs == ys
  {
    if xs == [] {
      if ys != [] {
        SameHead(ys, xs);
      }
    } else {
      SameHead(xs, ys);
      forall r
        ensures Tied(xs[1..], r) == Tied(ys[1..], r)
      {
        TiedRest(xs, ys, r);
      }
      StableSortIsUnique(xs[1..], ys[1..]);
      assert xs == [xs[0]] + xs[1..] && ys == [ys[0]] + ys[1..];
    }
  }

  /** The ranking is the one order that puts better ranks first and leaves ties as they came. */
  lemma RankedExactly(xs: seq<Keyed>, ys: seq<Keyed>)
    ensures ys == SortKeyed(xs) <==> BestFirst(ys) && SameTies(ys, xs)
  {
    SortKeyedSorts(xs);
    if BestFirst(ys) && SameTies(ys, xs) {
      StableSortIsUnique(ys, SortKeyed(xs));
    }
  }

  lemma SortKeyedLength(xs: seq<Keyed>)
    ensures |SortKeyed(xs)| == |xs|
  {
    SortKeyedSorts(xs);
    assert |multiset(SortKeyed(xs))| == |SortKeyed(xs)| && |multiset(xs)| == |xs|;
  }

  function Ranked(alias: string, items: seq<Candidate>): seq<Candidate> {
    WithoutKeys(SortKeyed(WithKeys(alias, items)))
  }

  predicate RankedBestFirst(alias: string, xs: seq<Candidate>) {
    forall i, j :: 0 <= i < j < |xs| ==> !Better(RankOf(alias, xs[j]), RankOf(alias, xs[i]))
  }

  ghost predicate SameMembers(xs: seq<Candidate>, ys: seq<Candidate>) {
    |xs| == |ys| && forall c :: c in xs <==> c in ys
  }

  lemma KeysAreRanks(alias: string, items: seq<Candidate>, k: Keyed)
    ensures k in SortKeyed(WithKeys(alias, items)) <==> k.candidate in items && k.rank == RankOf(alias, k.candidate)
  {
    var keyed := WithKeys(alias, items);
    SortKeyedSorts(keyed);
    assert k in SortKeyed(keyed) <==> k in multiset(keyed);
    if k.candidate in items && k.rank == RankOf(alias, k.candidate) {
      var i :| 0 <= i < |items| && items[i] == k.candidate;
      assert keyed[i] == k;
    }
  }

  lemma RankedIsSorted(alias: string, items: seq<Candidate>)
    ensures RankedBestFirst(alias, Ranked(alias, items)) && SameMembers(Ranked(alias, items), items)
  {
    var sorted := SortKeyed(WithKeys(alias, items));
    var r := Ranked(alias, items);
    SortKeyedSorts(WithKeys(alias, items));
    forall i | 0 <= i < |sorted|
      ensures sorted[i].rank == RankOf(alias, r[i]) && r[i] in items
    {
      KeysAreRanks(alias, items, sorted[i]);
    }
    forall c | c in items
      ensures c in r
    {
      KeysAreRanks(alias, items, Keyed(RankOf(alias, c), c));
      var i :| 0 <= i < |sorted| && sorted[i] == Keyed(RankOf(alias, c), c);
      assert r[i] == c;
    }
    SortKeyedLength(WithKeys(alias, items));
  }

  /** Better ranks first, ties as they came, nothing lost or repeated. */
  ghost predicate StableRanking(alias: string, l: seq<Candidate>, items: seq<Candidate>) {
    BestFirst(WithKeys(alias, l)) && SameTies(WithKeys(alias, l), WithKeys(alias, items))
  }

  /** The ranking of a candidate list is its one stable ranking. */
  lemma StableRankingExactly(alias: string, l: seq<Candidate>, items: seq<Candidate>)
    ensures StableRanking(alias, l, items) <==> l == Ranked(alias, items)
  {
    hide RankOf, Tied;
    var sorted := SortKeyed(WithKeys(alias, items));
    var r := Ranked(alias, items);
    forall i | 0 <= i < |sorted|
      ensures sorted[i] == Keyed(RankOf(alias, r[i]), r[i])
    {
      KeysAreRanks(alias, items, sorted[i]);
    }
    assert WithKeys(alias, r) == sorted;
    RankedExactly(WithKeys(alias, items), sorted);
    RankedExactly(WithKeys(alias, items), WithKeys(alias, l));
    if StableRanking(alias, l, items) {
      assert WithKeys(alias, l) == WithKeys(alias, r);
      forall i | 0 <= i < |l|
        ensures i < |r| && l[i] == r[i]
      {
        assert WithKeys(alias, l)[i].candidate == l[i] && WithKeys(alias, r)[i].candidate == r[i];
      }
    }
  }
}
