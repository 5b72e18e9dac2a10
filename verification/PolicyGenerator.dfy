/** The policy generator: command-line values in, policy document out, and back through the runtime parser. */
module PolicyGenerator {
  import opened Wrappers
  import opened Text
  import opened PolicyParsers

  const PRIVATEMODE := Vocabulary(
    ["expected_workload_ids", "expectedWorkloadIDs"],
    ["expected_workload_sans", "expectedWorkloadSANs"],
    ["model_workload_bindings", "modelWorkloadBindings"],
    ["workload_ids", "workloadIDs"],
    ["workload_sans", "workloadSANs"])

  // ---------- Normalising lists ----------

  function UniqueStrings(values: seq<string>): Option<seq<string>> {
    if NoBlank(values) && CaseDistinct(StripAll(values)) then Some(StripAll(values)) else None
  }

  lemma CaseDistinctSnoc(xs: seq<string>, x: string)
    ensures CaseDistinct(xs + [x]) <==> CaseDistinct(xs) && !Text.Holds(xs, Lower(x))
  {
    var all := xs + [x];
    assert all[|xs|] == x && forall i :: 0 <= i < |xs| ==> all[i] == xs[i];
    if CaseDistinct(all) {
      assert forall i :: 0 <= i < |xs| ==> Lower(all[i]) != Lower(all[|xs|]);
    }
  }

  lemma {:induction false} UniqueFailureSticks(values: seq<string>, i: nat)
    requires i <= |values|
    ensures UniqueStrings(values[..i]).None? ==> UniqueStrings(values).None?
    decreases |values|
  {
    if i < |values| {
      var front := values[..|values| - 1];
      assert front[..i] == values[..i];
      UniqueFailureSticks(front, i);
      CaseDistinctSnoc(StripAll(front), Strip(values[|values| - 1]));
    } else {
      assert values[..i] == values;
    }
  }

  method NonEmptyUniqueStrings(values: seq<string>) returns (r: Option<seq<string>>)
    ensures r == UniqueStrings(values)
  {
    var normalized: seq<string> := [];
    var seen: set<string> := {};
    for i := 0 to |values|
      invariant UniqueStrings(values[..i]) == Some(normalized)
      invariant forall x :: x in seen <==> Text.Holds(normalized, x)
    {
      assert values[..i + 1][..i] == values[..i];
      UniqueFailureSticks(values, i + 1);
      var value := Strip(values[i]);
      CaseDistinctSnoc(normalized, value);
      if value == "" || Lower(value) in seen {
        return None;
      }
      HoldsSnoc(normalized, value);
      seen := seen + {Lower(value)};
      normalized := normalized + [value];
    }
    assert values[..|values|] == values;
    return Some(normalized);
  }

  lemma HoldsSnoc(xs: seq<string>, x: string)
    ensures forall l :: Text.Holds(xs + [x], l) <==> Text.Holds(xs, l) || l == Lower(x)
  {
    var all := xs + [x];
    assert all[|xs|] == x;
    forall l
      ensures Text.Holds(all, l) <==> Text.Holds(xs, l) || l == Lower(x)
    {
      if Text.Holds(xs, l) {
        var i :| 0 <= i < |xs| && Lower(xs[i]) == l;
        assert all[i] == xs[i];
      }
      if Text.Holds(all, l) && l != Lower(x) {
        var i :| 0 <= i < |all| && Lower(all[i]) == l;
        assert xs[i] == all[i];
      }
    }
  }

  predicate StartsWith(s: string, prefix: string) {
    |prefix| <= |s| && s[..|prefix|] == prefix
  }

  /** Selected models: unique, named privatemode/…, lowercased. */
  function NormalModelIds(values: seq<string>): Option<seq<string>> {
    match UniqueStrings(values)
    case None => None
    case Some(ids) =>
      if forall i :: 0 <= i < |ids| ==> StartsWith(Lower(ids[i]), "privatemode/") then Some(LowerAll(ids)) else None
  }

  method NormalizeModelIds(values: seq<string>) returns (r: Option<seq<string>>)
    ensures r == NormalModelIds(values)
  {
    var ids := NonEmptyUniqueStrings(values);
    if ids.None? {
      return None;
    }
    for i := 0 to |ids.value|
      invariant forall k :: 0 <= k < i ==> StartsWith(Lower(ids.value[k]), "privatemode/")
    {
      if !StartsWith(Lower(ids.value[i]), "privatemode/") {
        return None;
      }
    }
    return Some(LowerAll(ids.value));
  }

  /** Values are accepted if and only if none is blank and no two are alike up to letter case, without their outer
      space. */
  lemma UniqueStringsExactly(values: seq<string>, r: seq<string>)
    ensures UniqueStrings(values) == Some(r) <==>
      && |r| == |values| && (forall i :: 0 <= i < |r| ==> r[i] == Strip(values[i]) && r[i] != "")
      && (forall i, j :: 0 <= i < j < |r| ==> Lower(r[i]) != Lower(r[j]))
  {
    hide Strip, Lower;
    if |r| == |values| && forall i :: 0 <= i < |r| ==> r[i] == Strip(values[i]) {
      assert r == StripAll(values);
    }
  }

  /** Models are accepted if and only if, in lower case, they all start with privatemode/ and differ. */
  lemma NormalModelIdsExactly(values: seq<string>, r: seq<string>)
    ensures NormalModelIds(values) == Some(r) <==>
      && |r| == |values| && (forall i :: 0 <= i < |r| ==> r[i] == Lower(Strip(values[i])) && "privatemode/" <= r[i])
      && (forall i, j :: 0 <= i < j < |r| ==> r[i] != r[j])
  {
    hide Strip, Lower, UniqueStrings, StartsWith;
    var ids := StripAll(values);
    UniqueStringsExactly(values, ids);
    forall i | 0 <= i < |ids|
      ensures StartsWith(Lower(ids[i]), "privatemode/") <==> "privatemode/" <= Lower(ids[i])
      ensures "privatemode/" <= Lower(ids[i]) ==> ids[i] != ""
    {
      PrefixExactly(Lower(ids[i]), "privatemode/");
    }
    if UniqueStrings(values).Some? {
      UniqueStringsExactly(values, UniqueStrings(values).value);
      assert UniqueStrings(values).value == ids;
    }
    if |r| == |values| && forall i :: 0 <= i < |r| ==> r[i] == Lower(Strip(values[i])) {
      assert r == LowerAll(ids);
    }
  }

  lemma PrefixExactly(s: string, prefix: string)
    ensures StartsWith(s, prefix) <==> prefix <= s
    ensures prefix <= s ==> |s| >= |prefix|
  {
  }

  // ---------- MODEL=WORKLOAD pairs ----------

  function Split(s: string): Option<(string, string)> {
    if s == "" then None
    else if s[0] == '=' then Some(("", s[1..]))
    else match Split(s[1..])
    case None => None
    case Some(p) => Some(([s[0]] + p.0, p.1))
  }

  /** A value is split at its first equals sign: model before, workload after, and that may hold more of them. */
  lemma {:induction false} SplitAtFirst(s: string, model: string, workload: string)
    ensures Split(s) == Some((model, workload)) <==> s == model + "=" + workload && '=' !in model
    ensures Split(s).None? <==> '=' !in s
  {
    if s != "" && s[0] != '=' {
      assert s == [s[0]] + s[1..];
      if model != "" {
        SplitAtFirst(s[1..], model[1..], workload);
        assert model == [model[0]] + model[1..];
        assert (model + "=" + workload)[1..] == model[1..] + "=" + workload;
      } else {
        SplitAtFirst(s[1..], "", workload);
        assert (model + "=" + workload)[0] == '=';
      }
    } else if s != "" {
      assert s == "=" + s[1..];
      if model != "" && s == model + "=" + workload {
        assert model[0] == s[0];
      } else if model == "" {
        assert ("=" + workload)[1..] == workload && "" + "=" + workload == "=" + workload;
      }
    }
  }

  type Workloads = map<string, seq<string>>

  function WorkloadsOf(m: Workloads, model: string): seq<string> {
    if model in m then m[model] else []
  }

  /** The workloads of each model, in the order given. */
  function Grouped(values: seq<string>): Option<Workloads> {
    if values == [] then Some(map[]) else
    match Grouped(values[..|values| - 1])
    case None => None
    case Some(m) =>
      match Split(values[|values| - 1])
      case None => None
      case Some(p) =>
        var model, workload := Lower(Strip(p.0)), Strip(p.1);
        if model == "" || workload == "" then None
        else Some(m[model := WorkloadsOf(m, model) + [workload]])
  }

  /** The pair binds this model, up to letter case and outer space. */
  predicate Binds(value: string, model: string) {
    Split(value).Some? && Lower(Strip(Split(value).value.0)) == model
  }

  function BoundTo(values: seq<string>, model: string): seq<string> {
    if values == [] then []
    else
      var before, last := BoundTo(values[..|values| - 1], model), values[|values| - 1];
      if Binds(last, model) then before + [Strip(Split(last).value.1)] else before
  }

  predicate WellFormedPair(value: string) {
    Split(value).Some? && Strip(Split(value).value.0) != "" && Strip(Split(value).value.1) != ""
  }

  /** Grouping succeeds if and only if every value is a pair with both sides, and gives each model the workloads
      of its own pairs in order. */
  lemma {:induction false} GroupedIsPerModel(values: seq<string>, model: string)
    ensures Grouped(values).Some? <==> forall i :: 0 <= i < |values| ==> WellFormedPair(values[i])
    ensures Grouped(values).Some? ==>
      && WorkloadsOf(Grouped(values).value, model) == BoundTo(values, model)
      && (model in Grouped(values).value <==> BoundTo(values, model) != [])
  {
    hide Split, Strip;
    if values != [] {
      var front, last := values[..|values| - 1], values[|values| - 1];
      GroupedIsPerModel(front, model);
      assert forall i :: 0 <= i < |front| ==> front[i] == values[i];
    }
  }

  function AllUnique(m: Workloads): Option<Workloads> {
    if forall k :: k in m ==> UniqueStrings(m[k]).Some? then Some(map k | k in m :: UniqueStrings(m[k]).value) else None
  }

  /** The workloads of every model are made unique; one model whose workloads repeat refuses all. */
  lemma AllUniqueExactly(m: Workloads)
    ensures AllUnique(m).Some? <==> forall k :: k in m ==> UniqueStrings(m[k]).Some?
    ensures AllUnique(m).Some? ==> AllUnique(m).value.Keys == m.Keys && forall k :: k in m ==> UniqueStrings(m[k]) == Some(AllUnique(m).value[k])
  {
    hide UniqueStrings;
  }

  function BindingValues(values: seq<string>): Option<Workloads> {
    match Grouped(values)
    case None => None
    case Some(m) => AllUnique(m)
  }

  method ParseBindingValues(values: seq<string>) returns (r: Option<Workloads>)
    ensures r == BindingValues(values)
  {
    var m: Workloads := map[];
    for i := 0 to |values|
      invariant Grouped(values[..i]) == Some(m)
    {
      assert values[..i + 1][..i] == values[..i];
      GroupFailureSticks(values, i + 1);
      var pair := Split(values[i]);
      if pair.None? {
        return None;
      }
      var model, workload := Lower(Strip(pair.value.0)), Strip(pair.value.1);
      if model == "" || workload == "" {
        return None;
      }
      m := m[model := WorkloadsOf(m, model) + [workload]];
    }
    assert values[..|values|] == values;
    r := UniquePerModel(m);
  }

  method UniquePerModel(m: Workloads) returns (r: Option<Workloads>)
    ensures r == AllUnique(m)
  {
    var result: Workloads := map[];
    var rest := m.Keys;
    while rest != {}
      invariant rest <= m.Keys && result.Keys == m.Keys - rest
      invariant forall k :: k in result ==> UniqueStrings(m[k]) == Some(result[k])
      decreases rest
    {
      var k :| k in rest;
      var unique := NonEmptyUniqueStrings(m[k]);
      if unique.None? {
        return None;
      }
      rest := rest - {k};
      result := result[k := unique.value];
    }
    assert result == map k | k in m :: UniqueStrings(m[k]).value;
    return Some(result);
  }

  lemma {:induction false} GroupFailureSticks(values: seq<string>, i: nat)
    requires i <= |values|
    ensures Grouped(values[..i]).None? ==> Grouped(values).None?
    decreases |values|
  {
    if i < |values| {
      assert values[..|values| - 1][..i] == values[..i];
      GroupFailureSticks(values[..|values| - 1], i);
    } else {
      assert values[..i] == values;
    }
  }

  // ---------- Bindings ----------

  /** Without explicit bindings a single model gets everything that is expected. */
  function Explicit(models: seq<string>, expected: seq<string>, given: Workloads, other: Workloads): Workloads {
    if given == map[] && other == map[] && |models| == 1 && expected != [] then map[models[0] := expected] else given
  }

  function BindingFor(model: string, sans: Workloads, ids: Workloads): Binding {
    Binding(Sort(WorkloadsOf(ids, model)), Sort(WorkloadsOf(sans, model)))
  }

  /** Each selected model is bound to something, only to expected workloads, and every expected workload is bound. */
  predicate Bindable(models: seq<string>, expectedSans: seq<string>, expectedIds: seq<string>, sans: Workloads, ids: Workloads) {
    var bindings := BindingsFor(models, sans, ids);
    && models != [] && sans.Keys + ids.Keys == Elements(models)
    && (forall m :: m in models ==> bindings[m].ids != [] || bindings[m].sans != [])
    && BoundSans(bindings) == Elements(expectedSans)
    && BoundIds(bindings) == Elements(expectedIds)
  }

  function BindingsFor(models: seq<string>, sans: Workloads, ids: Workloads): map<string, Binding> {
    map m | m in models :: BindingFor(m, sans, ids)
  }

  function Built(models: seq<string>, expectedSans: seq<string>, expectedIds: seq<string>, sans: Workloads, ids: Workloads)
    : Option<map<string, Binding>>
  {
    var s, i := Explicit(models, expectedSans, sans, ids), Explicit(models, expectedIds, ids, sans);
    if Bindable(models, expectedSans, expectedIds, s, i) then Some(BindingsFor(models, s, i)) else None
  }

  predicate BoundSomewhere(models: seq<string>, w: Workloads, x: string) {
    exists m :: m in models && x in WorkloadsOf(w, m)
  }

  /** The same values in sorting order. */
  predicate SortedFrom(xs: seq<string>, ys: seq<string>) {
    Sorted(xs) && multiset(xs) == multiset(ys)
  }

  lemma BoundOfModels(models: seq<string>, sans: Workloads, ids: Workloads)
    ensures forall x :: x in BoundSans(BindingsFor(models, sans, ids)) <==> BoundSomewhere(models, sans, x)
    ensures forall x :: x in BoundIds(BindingsFor(models, sans, ids)) <==> BoundSomewhere(models, ids, x)
  {
    var bindings := BindingsFor(models, sans, ids);
    forall m | m in models
      ensures m in bindings && SortedFrom(bindings[m].ids, WorkloadsOf(ids, m)) && SortedFrom(bindings[m].sans, WorkloadsOf(sans, m))
      ensures forall x :: (x in bindings[m].ids <==> x in WorkloadsOf(ids, m)) && (x in bindings[m].sans <==> x in WorkloadsOf(sans, m))
    {
      SortSorts(WorkloadsOf(ids, m));
      SortSorts(WorkloadsOf(sans, m));
      SortMembers(WorkloadsOf(ids, m));
      SortMembers(WorkloadsOf(sans, m));
    }
  }

  /** Without explicit bindings: accepted for a single model when something is expected, all of which it gets. */
  lemma BuiltForOne(models: seq<string>, expectedSans: seq<string>, expectedIds: seq<string>)
    ensures Built(models, expectedSans, expectedIds, map[], map[]).Some? <==> |models| == 1 && (expectedSans != [] || expectedIds != [])
    ensures Built(models, expectedSans, expectedIds, map[], map[]).Some? ==>
      var b := Built(models, expectedSans, expectedIds, map[], map[]).value;
      b.Keys == {models[0]} && SortedFrom(b[models[0]].ids, expectedIds) && SortedFrom(b[models[0]].sans, expectedSans)
  {
    hide Sort;
    var s, i := Explicit(models, expectedSans, map[], map[]), Explicit(models, expectedIds, map[], map[]);
    if |models| == 1 {
      var m := models[0];
      assert Elements(models) == {m};
      assert WorkloadsOf(s, m) == expectedSans && WorkloadsOf(i, m) == expectedIds;
      SortSorts(expectedIds);
      SortSorts(expectedSans);
      SortMembers(expectedIds);
      SortMembers(expectedSans);
      BoundOfModels(models, s, i);
      assert forall x :: (BoundSomewhere(models, s, x) <==> x in expectedSans) && (BoundSomewhere(models, i, x) <==> x in expectedIds) by {
        assert m in models;
      }
    } else if models != [] {
      assert models[0] in Elements(models);
    }
  }

  lemma BindingsAreSorted(models: seq<string>, sans: Workloads, ids: Workloads, m: string)
    requires m in models
    ensures var b := BindingsFor(models, sans, ids)[m];
      && SortedFrom(b.ids, WorkloadsOf(ids, m)) && SortedFrom(b.sans, WorkloadsOf(sans, m))
      && (b.ids == [] <==> WorkloadsOf(ids, m) == []) && (b.sans == [] <==> WorkloadsOf(sans, m) == [])
  {
    hide Sort, WorkloadsOf, Sorted;
    SortSorts(WorkloadsOf(ids, m));
    SortSorts(WorkloadsOf(sans, m));
    SortMembers(WorkloadsOf(ids, m));
    SortMembers(WorkloadsOf(sans, m));
  }

  lemma BindableExactly(models: seq<string>, expectedSans: seq<string>, expectedIds: seq<string>, sans: Workloads, ids: Workloads)
    ensures Bindable(models, expectedSans, expectedIds, sans, ids) <==>
      && models != [] && (forall m :: m in models <==> m in sans || m in ids)
      && (forall m :: m in models ==> WorkloadsOf(sans, m) != [] || WorkloadsOf(ids, m) != [])
      && (forall x :: x in expectedSans <==> BoundSomewhere(models, sans, x))
      && (forall x :: x in expectedIds <==> BoundSomewhere(models, ids, x))
  {
    hide WorkloadsOf, BoundSomewhere, BoundSans, BoundIds, SortedFrom, BindingFor;
    var bindings := BindingsFor(models, sans, ids);
    BoundOfModels(models, sans, ids);
    forall m | m in models
      ensures (bindings[m].ids == [] <==> WorkloadsOf(ids, m) == []) && (bindings[m].sans == [] <==> WorkloadsOf(sans, m) == [])
    {
      BindingsAreSorted(models, sans, ids, m);
    }
    assert sans.Keys + ids.Keys == Elements(models) <==> forall m :: m in models <==> m in sans || m in ids by {
      assert forall m :: (m in sans.Keys + ids.Keys <==> m in sans || m in ids) && (m in Elements(models) <==> m in models);
    }
    assert BoundSans(bindings) == Elements(expectedSans) <==> forall x :: x in expectedSans <==> BoundSomewhere(models, sans, x);
    assert BoundIds(bindings) == Elements(expectedIds) <==> forall x :: x in expectedIds <==> BoundSomewhere(models, ids, x);
  }

  /** With explicit bindings: accepted if and only if the models are exactly those bound, each to something, and the
      bound workloads are exactly the expected ones; each model gets its own, sorted. */
  lemma BuiltFromGiven(models: seq<string>, expectedSans: seq<string>, expectedIds: seq<string>, sans: Workloads, ids: Workloads)
    requires sans != map[] || ids != map[]
    ensures Built(models, expectedSans, expectedIds, sans, ids).Some? <==>
      && models != [] && (forall m :: m in models <==> m in sans || m in ids)
      && (forall m :: m in models ==> WorkloadsOf(sans, m) != [] || WorkloadsOf(ids, m) != [])
      && (forall x :: x in expectedSans <==> BoundSomewhere(models, sans, x))
      && (forall x :: x in expectedIds <==> BoundSomewhere(models, ids, x))
    ensures Built(models, expectedSans, expectedIds, sans, ids).Some? ==>
      var b := Built(models, expectedSans, expectedIds, sans, ids).value;
      (forall m :: m in b <==> m in models)
      && forall m :: m in models ==> SortedFrom(b[m].ids, WorkloadsOf(ids, m)) && SortedFrom(b[m].sans, WorkloadsOf(sans, m))
  {
    hide WorkloadsOf, BoundSomewhere, Bindable, SortedFrom, BindingFor;
    BindableExactly(models, expectedSans, expectedIds, sans, ids);
    forall m | m in models
      ensures var b := BindingsFor(models, sans, ids)[m]; SortedFrom(b.ids, WorkloadsOf(ids, m)) && SortedFrom(b.sans, WorkloadsOf(sans, m))
    {
      BindingsAreSorted(models, sans, ids, m);
    }
  }

  method BuildModelWorkloadBindings(models: seq<string>, expectedSans: seq<string>, expectedIds: seq<string>,
                                    givenSans: Workloads, givenIds: Workloads)
    returns (r: Option<map<string, Binding>>)
    ensures r == Built(models, expectedSans, expectedIds, givenSans, givenIds)
  {
    var sans, ids := givenSans, givenIds;
    if sans == map[] && ids == map[] {
      if |models| != 1 {
        NoElements(models);
        return None;
      }
      sans := if expectedSans != [] then map[models[0] := expectedSans] else map[];
      ids := if expectedIds != [] then map[models[0] := expectedIds] else map[];
    }
    assert sans == Explicit(models, expectedSans, givenSans, givenIds);
    assert ids == Explicit(models, expectedIds, givenIds, givenSans);
    if models == [] || sans.Keys + ids.Keys != Elements(models) {
      return None;
    }
    r := BindAll(models, expectedSans, expectedIds, sans, ids);
  }

  lemma BindStep(models: seq<string>, i: nat, sans: Workloads, ids: Workloads)
    requires i < |models|
    ensures var done, more, b := BindingsFor(models[..i], sans, ids), BindingsFor(models[..i + 1], sans, ids), BindingFor(models[i], sans, ids);
      && more == done[models[i] := b]
      && BoundSans(more) == BoundSans(done) + Elements(b.sans)
      && BoundIds(more) == BoundIds(done) + Elements(b.ids)
  {
    var done, more, b := BindingsFor(models[..i], sans, ids), BindingsFor(models[..i + 1], sans, ids), BindingFor(models[i], sans, ids);
    assert models[..i + 1] == models[..i] + [models[i]];
    assert more == done[models[i] := b];
    if models[i] in done {
      assert done[models[i] := b] == done;
      BoundByOne(done, models[i]);
    } else {
      BoundByOneMore(done, models[i], b);
    }
  }

  predicate Excessive(b: Binding, expectedSans: set<string>, expectedIds: set<string>) {
    (b.ids == [] && b.sans == []) || Elements(b.sans) - expectedSans != {} || Elements(b.ids) - expectedIds != {}
  }

  lemma ExcessIsUnbindable(models: seq<string>, expectedSans: seq<string>, expectedIds: seq<string>, sans: Workloads, ids: Workloads, m: string)
    requires m in models && Excessive(BindingFor(m, sans, ids), Elements(expectedSans), Elements(expectedIds))
    ensures !Bindable(models, expectedSans, expectedIds, sans, ids)
  {
    var all, b := BindingsFor(models, sans, ids), BindingFor(m, sans, ids);
    assert m in all && all[m] == b;
    BoundByOne(all, m);
    NothingMissing(Elements(b.sans), Elements(expectedSans));
    NothingMissing(Elements(b.ids), Elements(expectedIds));
  }

  /** The loop over the sorted models; stops at the first binding that is empty or exceeds what is expected. */
  method BindEach(sorted: seq<string>, expectedSans: set<string>, expectedIds: set<string>, sans: Workloads, ids: Workloads)
    returns (ok: bool, bindings: map<string, Binding>, boundSans: set<string>, boundIds: set<string>)
    ensures ok <==> forall m :: m in sorted ==> !Excessive(BindingFor(m, sans, ids), expectedSans, expectedIds)
    ensures ok ==> bindings == BindingsFor(sorted, sans, ids) && boundSans == BoundSans(bindings) && boundIds == BoundIds(bindings)
  {
    ok, bindings, boundSans, boundIds := true, map[], {}, {};
    for i := 0 to |sorted|
      invariant ok && bindings == BindingsFor(sorted[..i], sans, ids)
      invariant boundSans == BoundSans(bindings) && boundIds == BoundIds(bindings)
      invariant forall k :: 0 <= k < i ==> !Excessive(BindingFor(sorted[k], sans, ids), expectedSans, expectedIds)
    {
      var b := BindingFor(sorted[i], sans, ids);
      if Excessive(b, expectedSans, expectedIds) {
        assert sorted[i] in sorted;
        return false, bindings, boundSans, boundIds;
      }
      BindStep(sorted, i, sans, ids);
      bindings := bindings[sorted[i] := b];
      boundSans := boundSans + Elements(b.sans);
      boundIds := boundIds + Elements(b.ids);
    }
    assert sorted[..|sorted|] == sorted;
  }

  method BindAll(models: seq<string>, expectedSans: seq<string>, expectedIds: seq<string>, sans: Workloads, ids: Workloads)
    returns (r: Option<map<string, Binding>>)
    requires models != [] && sans.Keys + ids.Keys == Elements(models)
    ensures r == if Bindable(models, expectedSans, expectedIds, sans, ids) then Some(BindingsFor(models, sans, ids)) else None
  {
    hide Sort, Excessive, BindingFor;
    SortMembers(models);
    var expectedSanSet, expectedIdSet := Elements(expectedSans), Elements(expectedIds);
    var ok, bindings, boundSans, boundIds := BindEach(Sort(models), expectedSanSet, expectedIdSet, sans, ids);
    if !ok {
      ghost var m :| m in Sort(models) && Excessive(BindingFor(m, sans, ids), expectedSanSet, expectedIdSet);
      ExcessIsUnbindable(models, expectedSans, expectedIds, sans, ids, m);
      return None;
    }
    assert bindings == BindingsFor(models, sans, ids);
    BoundWithin(bindings, expectedSanSet, expectedIdSet);
    NothingMissing(expectedSanSet, boundSans);
    NothingMissing(expectedIdSet, boundIds);
    return if expectedSanSet - boundSans != {} || expectedIdSet - boundIds != {} then None else Some(bindings);
  }

  lemma BoundWithin(bindings: map<string, Binding>, sans: set<string>, ids: set<string>)
    requires forall m :: m in bindings ==> !Excessive(bindings[m], sans, ids)
    ensures BoundSans(bindings) <= sans && BoundIds(bindings) <= ids
    ensures forall m :: m in bindings ==> bindings[m].ids != [] || bindings[m].sans != []
  {
    forall m | m in bindings
      ensures Elements(bindings[m].sans) <= sans && Elements(bindings[m].ids) <= ids
    {
      NothingMissing(Elements(bindings[m].sans), sans);
      NothingMissing(Elements(bindings[m].ids), ids);
    }
  }

  // ---------- The policy document ----------

  function Strs(words: seq<string>): (r: seq<Json>)
    ensures |r| == |words| && forall i :: 0 <= i < |words| ==> r[i] == Str(words[i])
  {
    if words == [] then [] else [Str(words[0])] + Strs(words[1..])
  }

  /** A key with a list, left out when the list is empty. */
  function Field(key: string, words: seq<string>): Entries {
    if words == [] then [] else [(key, List(Strs(words)))]
  }

  function BindingJson(v: Vocabulary, b: Binding): Json
    requires WellSpelled(v)
  {
    Dict(Field(v.modelSans[0], b.sans) + Field(v.modelIds[0], b.ids))
  }

  /** The bindings in the order of the sorted models. */
  function BindingEntries(v: Vocabulary, models: seq<string>, bindings: map<string, Binding>): Entries
    requires WellSpelled(v) && forall m :: m in models ==> m in bindings
  {
    if models == [] then []
    else
      var last := models[|models| - 1];
      BindingEntries(v, models[..|models| - 1], bindings) + [(last, BindingJson(v, bindings[last]))]
  }

  /** Two spellings of every key, all different where they are looked up together. */
  predicate WellSpelled(v: Vocabulary) {
    && |v.expectedIds| == |v.expectedSans| == |v.bindings| == |v.modelIds| == |v.modelSans| == 2
    && AllDifferent(v.expectedIds + v.expectedSans + v.bindings)
    && AllDifferent(v.modelIds + v.modelSans)
  }

  predicate AllDifferent(xs: seq<string>) {
    forall i, j :: 0 <= i < j < |xs| ==> xs[i] != xs[j]
  }

  /** The policy; `others` are its fields that have nothing to do with workloads. */
  function PolicyDocument(v: Vocabulary, others: Entries, models: seq<string>, bindings: map<string, Binding>,
                          expectedSans: seq<string>, expectedIds: seq<string>): Entries
    requires WellSpelled(v) && forall m :: m in Sort(models) ==> m in bindings
  {
    others + [(v.bindings[0], Dict(BindingEntries(v, Sort(models), bindings)))]
      + Field(v.expectedSans[0], expectedSans) + Field(v.expectedIds[0], expectedIds)
  }
}
