/** Whatever the generator accepts, the runtime parser reads back, and accepts as covering. */
module PolicyRoundTrip {
  import opened Wrappers
  import opened Text
  import opened PolicyParsers
  import opened PolicyGenerator

  /** The generator from its command-line values; `others` are the fields unrelated to workloads. */
  function GeneratedPolicy(v: Vocabulary, others: Entries, rawModels: seq<string>, rawSans: seq<string>, rawIds: seq<string>,
                           rawModelSans: seq<string>, rawModelIds: seq<string>): Option<Entries>
    requires WellSpelled(v)
  {
    var models, sans, ids := NormalModelIds(rawModels), UniqueStrings(rawSans), UniqueStrings(rawIds);
    if rawModels == [] || models.None? || sans.None? || ids.None? || (sans.value == [] && ids.value == []) then None
    else
      var modelSans, modelIds := BindingValues(rawModelSans), BindingValues(rawModelIds);
      if modelSans.None? || modelIds.None? then None
      else
        var built := Built(models.value, sans.value, ids.value, modelSans.value, modelIds.value);
        if built.None? then None
        else
          assert forall m :: m in Sort(models.value) ==> m in built.value by { SortMembers(models.value); }
          Some(PolicyDocument(v, others, models.value, built.value, sans.value, ids.value))
  }

  // ---------- Normal words ----------

  /** Stripped, non-blank, distinct up to letter case. */
  predicate Normal(xs: seq<string>) {
    CaseDistinct(xs) && forall i :: 0 <= i < |xs| ==> Strip(xs[i]) == xs[i] != ""
  }

  lemma UniqueIsNormal(values: seq<string>)
    requires UniqueStrings(values).Some?
    ensures Normal(UniqueStrings(values).value)
  {
    var xs := StripAll(values);
    forall i | 0 <= i < |xs|
      ensures Strip(xs[i]) == xs[i] != ""
    {
      NormalFormsAreStable(values[i]);
    }
  }

  /** Model ids that survived: lowercase and normal. */
  lemma ModelIdsAreNormal(values: seq<string>)
    requires NormalModelIds(values).Some?
    ensures var ids := NormalModelIds(values).value;
      Normal(ids) && |ids| == |values| && forall i :: 0 <= i < |ids| ==> Lower(ids[i]) == ids[i]
  {
    var xs := UniqueStrings(values).value;
    var ids := LowerAll(xs);
    forall i | 0 <= i < |xs|
      ensures Strip(ids[i]) == ids[i] && ids[i] != "" && Lower(ids[i]) == ids[i]
    {
      NormalFormsAreStable(values[i]);
      LowerTwice(xs[i]);
    }
  }

  lemma CaseDistinctCons(x: string, xs: seq<string>)
    ensures CaseDistinct([x] + xs) <==> !Text.Holds(xs, Lower(x)) && CaseDistinct(xs)
  {
    if CaseDistinct([x] + xs) {
      DistinctTail(x, xs);
    }
    if !Text.Holds(xs, Lower(x)) && CaseDistinct(xs) {
      var all := [x] + xs;
      forall i, j | 0 <= i < j < |all|
        ensures Lower(all[i]) != Lower(all[j])
      {
        assert all[j] == xs[j - 1];
        assert i > 0 ==> all[i] == xs[i - 1];
      }
    }
  }

  lemma DistinctTail(x: string, xs: seq<string>)
    requires CaseDistinct([x] + xs)
    ensures !Text.Holds(xs, Lower(x)) && CaseDistinct(xs)
  {
    DistinctFromHead(x, xs);
    DistinctRest(x, xs);
  }

  lemma DistinctFromHead(x: string, xs: seq<string>)
    requires CaseDistinct([x] + xs)
    ensures !Text.Holds(xs, Lower(x))
  {
    forall i | 0 <= i < |xs|
      ensures Lower(xs[i]) != Lower(x)
    {
      DistinctAt([x] + xs, 0, i + 1);
    }
  }

  lemma DistinctRest(x: string, xs: seq<string>)
    requires CaseDistinct([x] + xs)
    ensures CaseDistinct(xs)
  {
    forall i, j | 0 <= i < j < |xs|
      ensures Lower(xs[i]) != Lower(xs[j])
    {
      DistinctAt([x] + xs, i + 1, j + 1);
    }
  }

  lemma DistinctAt(xs: seq<string>, i: int, j: int)
    requires CaseDistinct(xs) && 0 <= i < j < |xs|
    ensures Lower(xs[i]) != Lower(xs[j])
  {
  }

  lemma HoldsCons(x: string, xs: seq<string>, l: string)
    ensures Text.Holds([x] + xs, l) <==> Lower(x) == l || Text.Holds(xs, l)
  {
    var all := [x] + xs;
    assert all[0] == x && forall i :: 0 <= i < |xs| ==> xs[i] == all[i + 1];
    if Text.Holds(all, l) && Lower(x) != l {
      var i :| 0 <= i < |all| && Lower(all[i]) == l;
      assert xs[i - 1] == all[i];
    }
  }

  lemma {:induction false} InsertHolds(x: string, xs: seq<string>, l: string)
    ensures Text.Holds(Insert(x, xs), l) <==> Lower(x) == l || Text.Holds(xs, l)
  {
    if xs == [] || Leq(x, xs[0]) {
      HoldsCons(x, xs, l);
    } else {
      InsertHolds(x, xs[1..], l);
      HoldsCons(xs[0], Insert(x, xs[1..]), l);
      HoldsCons(xs[0], xs[1..], l);
      assert xs == [xs[0]] + xs[1..];
    }
  }

  lemma {:induction false} InsertKeepsDistinct(x: string, xs: seq<string>)
    requires CaseDistinct(xs) && !Text.Holds(xs, Lower(x))
    ensures CaseDistinct(Insert(x, xs))
  {
    if xs == [] || Leq(x, xs[0]) {
      CaseDistinctCons(x, xs);
    } else {
      assert xs == [xs[0]] + xs[1..];
      CaseDistinctCons(xs[0], xs[1..]);
      HoldsCons(xs[0], xs[1..], Lower(x));
      InsertKeepsDistinct(x, xs[1..]);
      InsertHolds(x, xs[1..], Lower(xs[0]));
      CaseDistinctCons(xs[0], Insert(x, xs[1..]));
    }
  }

  lemma {:induction false} SortKeepsDistinct(xs: seq<string>)
    requires CaseDistinct(xs)
    ensures CaseDistinct(Sort(xs))
    ensures forall l :: Text.Holds(Sort(xs), l) <==> Text.Holds(xs, l)
  {
    if xs != [] {
      assert xs == [xs[0]] + xs[1..];
      CaseDistinctCons(xs[0], xs[1..]);
      SortKeepsDistinct(xs[1..]);
      InsertKeepsDistinct(xs[0], Sort(xs[1..]));
      forall l
        ensures Text.Holds(Sort(xs), l) <==> Text.Holds(xs, l)
      {
        InsertHolds(xs[0], Sort(xs[1..]), l);
        HoldsCons(xs[0], xs[1..], l);
      }
    }
  }

  lemma SortKeepsNormal(xs: seq<string>)
    requires Normal(xs)
    ensures Normal(Sort(xs))
  {
    SortKeepsDistinct(xs);
    SortMembers(xs);
    var sorted := Sort(xs);
    forall i | 0 <= i < |sorted|
      ensures Strip(sorted[i]) == sorted[i] != ""
    {
      assert sorted[i] in xs;
    }
  }

  // ---------- One list through the parser ----------

  lemma ListedBack(words: seq<string>)
    requires Normal(words) && words != []
    ensures Listed(List(Strs(words))) == Some(words)
  {
    var items := Strs(words);
    assert forall i :: 0 <= i < |items| ==> IsWord(items[i]);
    assert Words(items) == words;
  }

  lemma ValuesOfField(policy: Entries, keys: seq<string>, words: seq<string>)
    requires |keys| == 2 && Normal(words)
    requires Get(policy, keys[0]) == if words == [] then None else Some(List(Strs(words)))
    requires Get(policy, keys[1]).None?
    ensures RuntimeValues(policy, keys) == Some(Sort(words))
  {
    assert keys[..1] == [keys[0]] && keys[..1][..0] == [];
    if words != [] {
      ListedBack(words);
    }
    assert RuntimeValues(policy, keys[..1]) == Some(Sort(words));
  }

  lemma {:induction false} GetAppend(a: Entries, b: Entries, key: string)
    ensures Get(a + b, key) == if Get(a, key).Some? then Get(a, key) else Get(b, key)
  {
    if a == [] {
      assert a + b == b;
    } else {
      assert (a + b)[1..] == a[1..] + b;
      GetAppend(a[1..], b, key);
    }
  }

  lemma GetField(key: string, words: seq<string>, other: string)
    ensures Get(Field(key, words), other) == if key == other && words != [] then Some(List(Strs(words))) else None
  {
    if words != [] {
      assert Field(key, words)[1..] == [];
    }
  }

  lemma TwoFields(k: string, xs: seq<string>, l: string, ys: seq<string>, key: string)
    requires k != l
    ensures Get(Field(k, xs) + Field(l, ys), key) ==
      if key == k && xs != [] then Some(List(Strs(xs)))
      else if key == l && ys != [] then Some(List(Strs(ys))) else None
  {
    GetAppend(Field(k, xs), Field(l, ys), key);
    GetField(k, xs, key);
    GetField(l, ys, key);
  }

  /** One binding, written and read back. */
  lemma BindingBack(v: Vocabulary, b: Binding)
    requires WellSpelled(v) && Readable(b)
    ensures ParsedBinding(v, BindingJson(v, b), false) == Some(b)
  {
    var all := v.modelIds + v.modelSans;
    assert all[0] == v.modelIds[0] && all[1] == v.modelIds[1] && all[2] == v.modelSans[0] && all[3] == v.modelSans[1];
    var entries := BindingJson(v, b).entries;
    TwoFields(all[2], b.sans, all[0], b.ids, all[0]);
    TwoFields(all[2], b.sans, all[0], b.ids, all[1]);
    TwoFields(all[2], b.sans, all[0], b.ids, all[2]);
    TwoFields(all[2], b.sans, all[0], b.ids, all[3]);
    assert RuntimeValues(entries, v.modelIds) == Some(b.ids) by {
      ValuesOfField(entries, v.modelIds, b.ids);
    }
    assert RuntimeValues(entries, v.modelSans) == Some(b.sans) by {
      ValuesOfField(entries, v.modelSans, b.sans);
    }
  }

  // ---------- All bindings through the parser ----------

  predicate Readable(b: Binding) {
    && Normal(b.ids) && Normal(b.sans) && (b.ids != [] || b.sans != [])
    && Sort(b.ids) == b.ids && Sort(b.sans) == b.sans
  }

  function Selected(models: seq<string>, bindings: map<string, Binding>): map<string, Binding>
    requires forall m :: m in models ==> m in bindings
  {
    map m | m in models :: bindings[m]
  }

  lemma LastIsNew(models: seq<string>, bindings: map<string, Binding>)
    requires models != [] && Normal(models) && forall m :: m in models ==> m in bindings
    ensures var front, last := models[..|models| - 1], models[|models| - 1];
      && Lower(last) !in LowerKeys(Selected(front, bindings))
      && Selected(models, bindings) == Selected(front, bindings)[last := bindings[last]]
  {
    var front, last := models[..|models| - 1], models[|models| - 1];
    assert models == front + [last];
    var before := Selected(front, bindings);
    forall m | m in before
      ensures Lower(m) != Lower(last)
    {
      var i :| 0 <= i < |front| && front[i] == m;
      assert models[i] == m;
    }
  }

  lemma {:induction false} EntriesBack(v: Vocabulary, models: seq<string>, bindings: map<string, Binding>)
    requires WellSpelled(v) && Normal(models)
    requires forall m :: m in models ==> m in bindings && Readable(bindings[m])
    ensures ParsedEntries(v, BindingEntries(v, models, bindings), false) == Some(Selected(models, bindings))
  {
    if models != [] {
      var front, last := models[..|models| - 1], models[|models| - 1];
      EntriesBack(v, front, bindings);
      LastIsNew(models, bindings);
      assert last in models;
      BindingBack(v, bindings[last]);
      var entries := BindingEntries(v, models, bindings);
      assert entries[..|entries| - 1] == BindingEntries(v, front, bindings);
      assert entries[|entries| - 1] == (last, BindingJson(v, bindings[last]));
      assert Strip(last) == last != "";
    }
  }

  /** The workloads a generated binding draws on are normal lists. */
  ghost predicate NormalWorkloads(m: Workloads) {
    forall k :: k in m ==> Normal(m[k])
  }

  lemma BindingValuesAreNormal(values: seq<string>)
    requires BindingValues(values).Some?
    ensures NormalWorkloads(BindingValues(values).value)
  {
    var m := Grouped(values).value;
    forall k | k in m
      ensures Normal(UniqueStrings(m[k]).value)
    {
      UniqueIsNormal(m[k]);
    }
  }

  lemma GeneratedBindingIsReadable(model: string, sans: Workloads, ids: Workloads)
    requires NormalWorkloads(sans) && NormalWorkloads(ids)
    requires BindingFor(model, sans, ids).ids != [] || BindingFor(model, sans, ids).sans != []
    ensures Readable(BindingFor(model, sans, ids))
  {
    SortKeepsNormal(WorkloadsOf(sans, model));
    SortKeepsNormal(WorkloadsOf(ids, model));
    SortIsCanonical(WorkloadsOf(sans, model), []);
    SortIsCanonical(WorkloadsOf(ids, model), []);
  }

  /** The three workload fields of the document, as the parser finds them. */
  lemma DocumentFields(v: Vocabulary, others: Entries, models: seq<string>, bindings: map<string, Binding>,
                       sans: seq<string>, ids: seq<string>)
    requires WellSpelled(v) && forall m :: m in Sort(models) ==> m in bindings
    requires forall k :: k in v.expectedIds + v.expectedSans + v.bindings ==> Get(others, k).None?
    requires Normal(sans) && Normal(ids)
    ensures var policy := PolicyDocument(v, others, models, bindings, sans, ids);
      && Get(policy, v.bindings[0]) == Some(Dict(BindingEntries(v, Sort(models), bindings)))
      && Get(policy, v.bindings[1]).None?
      && RuntimeValues(policy, v.expectedSans) == Some(Sort(sans))
      && RuntimeValues(policy, v.expectedIds) == Some(Sort(ids))
  {
    var all := v.expectedIds + v.expectedSans + v.bindings;
    var written: Entries := [(v.bindings[0], Dict(BindingEntries(v, Sort(models), bindings)))];
    var sanField, idField := Field(v.expectedSans[0], sans), Field(v.expectedIds[0], ids);
    var policy := PolicyDocument(v, others, models, bindings, sans, ids);
    assert policy == others + written + sanField + idField;
    assert written[1..] == [];
    forall i | 0 <= i < 6
      ensures all[i] in all
      ensures Get(policy, all[i]) ==
        if all[i] == v.bindings[0] then Some(written[0].1)
        else if Get(sanField, all[i]).Some? then Get(sanField, all[i])
        else Get(idField, all[i])
    {
      var key := all[i];
      GetAppend(others + written + sanField, idField, key);
      GetAppend(others + written, sanField, key);
      GetAppend(others, written, key);
      assert key in all;
      assert Get(written, key) == if key == v.bindings[0] then Some(written[0].1) else None;
    }
    assert all[0] == v.expectedIds[0] && all[1] == v.expectedIds[1] && all[2] == v.expectedSans[0];
    assert all[3] == v.expectedSans[1] && all[4] == v.bindings[0] && all[5] == v.bindings[1];
    forall i | 0 <= i < 6
      ensures Get(sanField, all[i]) == if i == 2 && sans != [] then Some(List(Strs(sans))) else None
      ensures Get(idField, all[i]) == if i == 0 && ids != [] then Some(List(Strs(ids))) else None
    {
      GetField(v.expectedSans[0], sans, all[i]);
      GetField(v.expectedIds[0], ids, all[i]);
    }
    ValuesOfField(policy, v.expectedSans, sans);
    ValuesOfField(policy, v.expectedIds, ids);
  }

  lemma OneParsed(v: Vocabulary, policy: Entries, parsed: map<string, Binding>)
    requires |v.bindings| == 2 && Get(policy, v.bindings[0]).Some? && Get(policy, v.bindings[1]).None?
    requires ParsedDict(v, Get(policy, v.bindings[0]).value, false) == Some(parsed)
    ensures RuntimeBindings(v, policy) == Some(parsed)
  {
    var keys := v.bindings;
    assert keys[..|keys| - 1] == keys[..1] && keys[..1][..|keys[..1]| - 1] == [];
    assert keys[..1] == [keys[0]];
    var none: seq<map<string, Binding>> := [];
    assert AllParsed(v, policy, []) == Some(none) && none + [parsed] == [parsed];
    assert AllParsed(v, policy, keys[..1]) == Some([parsed]);
    assert AllParsed(v, policy, keys) == Some([parsed]);
  }

  lemma SortedAreReadable(models: seq<string>, s: Workloads, i: Workloads)
    requires Normal(models) && NormalWorkloads(s) && NormalWorkloads(i)
    requires forall m :: m in models ==> BindingFor(m, s, i).ids != [] || BindingFor(m, s, i).sans != []
    ensures Normal(Sort(models)) && |Sort(models)| == |models|
    ensures forall m :: m in Sort(models) <==> m in models
    ensures forall m :: m in models ==> Readable(BindingFor(m, s, i))
  {
    SortKeepsNormal(models);
    SortMembers(models);
    forall m | m in models
      ensures Readable(BindingFor(m, s, i))
    {
      GeneratedBindingIsReadable(m, s, i);
    }
  }

  lemma EntriesLength(v: Vocabulary, models: seq<string>, bindings: map<string, Binding>)
    requires WellSpelled(v) && forall m :: m in models ==> m in bindings
    ensures |BindingEntries(v, models, bindings)| == |models|
  {
  }

  lemma SortedBack(v: Vocabulary, sorted: seq<string>, bindings: map<string, Binding>)
    requires WellSpelled(v) && Normal(sorted) && sorted != [] && bindings.Keys == Elements(sorted)
    requires forall m :: m in bindings ==> Readable(bindings[m])
    ensures forall m :: m in sorted ==> m in bindings
    ensures ParsedDict(v, Dict(BindingEntries(v, sorted, bindings)), false) == Some(bindings)
  {
    assert forall m :: m in sorted <==> m in Elements(sorted);
    EntriesBack(v, sorted, bindings);
    EntriesLength(v, sorted, bindings);
    assert bindings == Selected(sorted, bindings);
  }

  lemma BindingsBack(v: Vocabulary, models: seq<string>, s: Workloads, i: Workloads)
    requires WellSpelled(v) && Normal(models) && models != [] && NormalWorkloads(s) && NormalWorkloads(i)
    requires forall m :: m in models ==> BindingFor(m, s, i).ids != [] || BindingFor(m, s, i).sans != []
    ensures var bindings := BindingsFor(models, s, i);
      && (forall m :: m in Sort(models) ==> m in bindings)
      && ParsedDict(v, Dict(BindingEntries(v, Sort(models), bindings)), false) == Some(bindings)
  {
    var bindings := BindingsFor(models, s, i);
    SortedAreReadable(models, s, i);
    assert bindings.Keys == Elements(Sort(models));
    SortedBack(v, Sort(models), bindings);
  }

  /** The round trip from normalised inputs. */
  lemma DocumentIsAccepted(v: Vocabulary, others: Entries, models: seq<string>, sans: seq<string>, ids: seq<string>,
                           s: Workloads, i: Workloads)
    requires WellSpelled(v)
    requires forall k :: k in v.expectedIds + v.expectedSans + v.bindings ==> Get(others, k).None?
    requires Normal(models) && Normal(sans) && Normal(ids) && (sans != [] || ids != [])
    requires NormalWorkloads(s) && NormalWorkloads(i) && Bindable(models, sans, ids, s, i)
    ensures var bindings := BindingsFor(models, s, i);
      && (forall m :: m in Sort(models) ==> m in bindings)
      && var policy := PolicyDocument(v, others, models, bindings, sans, ids);
      && RuntimeBindings(v, policy) == Some(bindings)
      && Covers(v, policy, bindings)
  {
    var bindings := BindingsFor(models, s, i);
    BindingsBack(v, models, s, i);
    DocumentFields(v, others, models, bindings, sans, ids);
    var policy := PolicyDocument(v, others, models, bindings, sans, ids);
    OneParsed(v, policy, bindings);
    CoversSorted(v, policy, bindings, sans, ids);
  }

  lemma CoversSorted(v: Vocabulary, policy: Entries, bindings: map<string, Binding>, sans: seq<string>, ids: seq<string>)
    requires RuntimeValues(policy, v.expectedSans) == Some(Sort(sans)) && RuntimeValues(policy, v.expectedIds) == Some(Sort(ids))
    requires sans != [] || ids != []
    requires BoundSans(bindings) == Elements(sans) && BoundIds(bindings) == Elements(ids)
    ensures Covers(v, policy, bindings)
  {
    SortMembers(sans);
    SortMembers(ids);
    assert Elements(Sort(sans)) == Elements(sans) && Elements(Sort(ids)) == Elements(ids);
  }

  /** For all command-line values: a generated policy is parsed by the runtime to bindings over exactly the
      selected models, the coverage check accepts them, and the live checker reads the same. */
  lemma GeneratedPolicyIsAccepted(v: Vocabulary, others: Entries, rawModels: seq<string>, rawSans: seq<string>,
                                  rawIds: seq<string>, rawModelSans: seq<string>, rawModelIds: seq<string>)
    requires WellSpelled(v)
    requires forall k :: k in v.expectedIds + v.expectedSans + v.bindings ==> Get(others, k).None?
    requires GeneratedPolicy(v, others, rawModels, rawSans, rawIds, rawModelSans, rawModelIds).Some?
    ensures var policy := GeneratedPolicy(v, others, rawModels, rawSans, rawIds, rawModelSans, rawModelIds).value;
      && RuntimeBindings(v, policy).Some?
      && RuntimeBindings(v, policy).value.Keys == Elements(NormalModelIds(rawModels).value)
      && Covers(v, policy, RuntimeBindings(v, policy).value)
      && LiveBindings(v, policy) == RuntimeBindings(v, policy)
  {
    var models, sans, ids := NormalModelIds(rawModels).value, UniqueStrings(rawSans).value, UniqueStrings(rawIds).value;
    var givenSans, givenIds := BindingValues(rawModelSans).value, BindingValues(rawModelIds).value;
    ModelIdsAreNormal(rawModels);
    UniqueIsNormal(rawSans);
    UniqueIsNormal(rawIds);
    BindingValuesAreNormal(rawModelSans);
    BindingValuesAreNormal(rawModelIds);
    DocumentIsAccepted(v, others, models, sans, ids,
                       Explicit(models, sans, givenSans, givenIds), Explicit(models, ids, givenIds, givenSans));
    LiveCheckerRefinesRuntime(v, GeneratedPolicy(v, others, rawModels, rawSans, rawIds, rawModelSans, rawModelIds).value);
  }

  /** The spellings in use are well-spelled. */
  lemma PrivatemodeIsWellSpelled()
    ensures WellSpelled(PRIVATEMODE)
  {
    var v := PRIVATEMODE;
    assert v.expectedIds[0][8] == '_' && v.expectedIds[1][8] == 'W' && v.expectedSans[0][8] == '_';
    assert v.expectedIds[0][18] == 'i' && v.expectedSans[0][18] == 's';
    assert |v.expectedIds[0]| == 21 && |v.expectedSans[0]| == 22 && |v.bindings[0]| == 23;
    assert |v.expectedIds[1]| == 19 && |v.expectedSans[1]| == 20 && |v.bindings[1]| == 21;
    assert v.bindings[1][0] == 'm' && v.expectedIds[0][0] == 'e';
    assert |v.modelIds[0]| == 12 && |v.modelIds[1]| == 11 && |v.modelSans[0]| == 13 && |v.modelSans[1]| == 12;
    assert v.modelIds[0][8] == '_' && v.modelSans[1][8] == 'S';
  }
}
