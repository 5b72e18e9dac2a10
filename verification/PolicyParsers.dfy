/** The workload part of a Privatemode policy, read by the runtime checker and by the separately written live
    checker. Both read lists under two spellings of each key; the runtime demands that the spellings agree, the
    live checker merges them. */
module PolicyParsers {
  import opened Wrappers
  import opened Text

  datatype Json = Null | Str(value: string) | List(items: seq<Json>) | Dict(entries: seq<(string, Json)>) | Other

  type Entries = seq<(string, Json)>

  function Get(entries: Entries, key: string): Option<Json> {
    if entries == [] then None
    else if entries[0].0 == key then Some(entries[0].1)
    else Get(entries[1..], key)
  }

  /** The spellings of each key, in the order they are looked up. */
  datatype Vocabulary = Vocabulary(
    expectedIds: seq<string>,
    expectedSans: seq<string>,
    bindings: seq<string>,
    modelIds: seq<string>,
    modelSans: seq<string>)

  /** The workloads one model is bound to. */
  datatype Binding = Binding(ids: seq<string>, sans: seq<string>)

  // ---------- One list ----------

  predicate IsWord(j: Json) {
    j.Str? && Strip(j.value) != ""
  }

  function Words(items: seq<Json>): (r: seq<string>)
    requires forall i :: 0 <= i < |items| ==> IsWord(items[i])
    ensures |r| == |items| && forall i :: 0 <= i < |items| ==> IsWord(items[i]) && r[i] == Strip(items[i].value)
  {
    if items == [] then []
    else
      assert IsWord(items[|items| - 1]);
      Words(items[..|items| - 1]) + [Strip(items[|items| - 1].value)]
  }

  /** A non-empty list of non-blank strings, distinct up to letter case, stripped. */
  function Listed(j: Json): (r: Option<seq<string>>)
    ensures r.Some? ==> r.value != [] && CaseDistinct(r.value)
  {
    if !j.List? || j.items == [] then None
    else if exists i :: 0 <= i < |j.items| && !IsWord(j.items[i]) then None
    else if !CaseDistinct(Words(j.items)) then None
    else Some(Words(j.items))
  }

  lemma ListedExactly(j: Json, words: seq<string>)
    ensures Listed(j) == Some(words) <==>
      && j.List? && |words| == |j.items| && words != []
      && (forall i :: 0 <= i < |words| ==> j.items[i].Str? && Strip(j.items[i].value) == words[i] && words[i] != "")
      && (forall i, k :: 0 <= i < k < |words| ==> Lower(words[i]) != Lower(words[k]))
  {
    if Listed(j).Some? {
      var read := Listed(j).value;
      assert forall i :: 0 <= i < |j.items| ==> IsWord(j.items[i]);
      if |words| == |j.items| && forall i :: 0 <= i < |words| ==> Strip(j.items[i].value) == words[i] {
        assert words == read;
      }
    } else if j.List? && forall i :: 0 <= i < |j.items| ==> IsWord(j.items[i]) {
      var read := Words(j.items);
      if |words| == |j.items| && forall i :: 0 <= i < |words| ==> Strip(j.items[i].value) == words[i] {
        assert words == read;
      }
    }
  }

  // ---------- The runtime parser: every spelling must say the same ----------

  function RuntimeValues(policy: Entries, keys: seq<string>): Option<seq<string>> {
    if keys == [] then Some([]) else
    match RuntimeValues(policy, keys[..|keys| - 1])
    case None => None
    case Some(selected) =>
      match Get(policy, keys[|keys| - 1])
      case None => Some(selected)
      case Some(value) =>
        match Listed(value)
        case None => None
        case Some(words) =>
          if selected == [] then Some(Sort(words))
          else if Sort(words) == selected then Some(selected)
          else None
  }

  method StrictPolicyStringValues(policy: Entries, keys: seq<string>) returns (r: Option<seq<string>>)
    ensures r == RuntimeValues(policy, keys)
  {
    var selected: Option<seq<string>> := None;
    for i := 0 to |keys|
      invariant selected == Some([]) ==> false
      invariant RuntimeValues(policy, keys[..i]) == Some(if selected.Some? then selected.value else [])
    {
      assert keys[..i + 1][..i] == keys[..i];
      FailureSticks(policy, keys, i + 1);
      match Get(policy, keys[i]) {
        case None =>
        case Some(value) =>
          match Listed(value) {
            case None => return None;
            case Some(words) =>
              SortMembers(words);
              var canonical := Sort(words);
              if selected.None? {
                selected := Some(canonical);
              } else if canonical != selected.value {
                return None;
              }
          }
      }
    }
    assert keys[..|keys|] == keys;
    return Some(if selected.Some? then selected.value else []);
  }

  lemma {:induction false} FailureSticks(policy: Entries, keys: seq<string>, i: nat)
    requires i <= |keys|
    ensures RuntimeValues(policy, keys[..i]).None? ==> RuntimeValues(policy, keys).None?
    decreases |keys|
  {
    if i < |keys| {
      assert keys[..|keys| - 1][..i] == keys[..i];
      FailureSticks(policy, keys[..|keys| - 1], i);
    } else {
      assert keys[..i] == keys;
    }
  }

  predicate PresentListed(policy: Entries, key: string) {
    Get(policy, key).Some? ==> Listed(Get(policy, key).value).Some?
  }

  predicate Agree(policy: Entries, k: string, l: string)
    requires PresentListed(policy, k) && PresentListed(policy, l)
  {
    Get(policy, k).Some? && Get(policy, l).Some? ==>
      Sort(Listed(Get(policy, k).value).value) == Sort(Listed(Get(policy, l).value).value)
  }

  ghost predicate AllListed(policy: Entries, keys: seq<string>) {
    forall k :: k in keys ==> PresentListed(policy, k)
  }

  ghost predicate AllAgree(policy: Entries, keys: seq<string>)
    requires AllListed(policy, keys)
  {
    forall k, l :: k in keys && l in keys ==> Agree(policy, k, l)
  }

  /** What the accepted value is: the canonical form of any spelling that is present. */
  lemma {:induction false} RuntimeAcceptsIff(policy: Entries, keys: seq<string>)
    ensures RuntimeValues(policy, keys).Some? <==> AllListed(policy, keys) && AllAgree(policy, keys)
    ensures RuntimeValues(policy, keys).Some? ==>
      && (forall k :: k in keys && Get(policy, k).Some? ==>
            RuntimeValues(policy, keys).value == Sort(Listed(Get(policy, k).value).value))
      && ((forall k :: k in keys ==> Get(policy, k).None?) <==> RuntimeValues(policy, keys).value == [])
  {
    if keys != [] {
      var front, last := keys[..|keys| - 1], keys[|keys| - 1];
      assert keys == front + [last];
      RuntimeAcceptsIff(policy, front);
      assert last in keys;
      if Get(policy, last).Some? && Listed(Get(policy, last).value).Some? {
        SortMembers(Listed(Get(policy, last).value).value);
      }
      if RuntimeValues(policy, front).Some? && RuntimeValues(policy, front).value != [] {
        var k :| k in front && Get(policy, k).Some?;
        assert AllListed(policy, keys) ==> (Agree(policy, k, last) <==> last in keys && Agree(policy, last, k));
      }
    }
  }

  // ---------- The live checker: merge, then drop duplicates ----------

  function Collected(policy: Entries, keys: seq<string>): Option<seq<string>> {
    if keys == [] then Some([]) else
    match Collected(policy, keys[..|keys| - 1])
    case None => None
    case Some(values) =>
      match Get(policy, keys[|keys| - 1])
      case None => Some(values)
      case Some(value) =>
        match Listed(value)
        case None => None
        case Some(words) => Some(values + words)
  }

  /** The first value of each case-insensitive class, in order. */
  function FirstByCase(xs: seq<string>): seq<string> {
    if xs == [] then []
    else
      var kept := FirstByCase(xs[..|xs| - 1]);
      if Holds(kept, Lower(xs[|xs| - 1])) then kept else kept + [xs[|xs| - 1]]
  }

  lemma {:induction false} NoCaseIsLost(xs: seq<string>, lowered: string)
    ensures Holds(FirstByCase(xs), lowered) <==> Holds(xs, lowered)
  {
    hide Lower, Holds;
    if xs != [] {
      var front, last := xs[..|xs| - 1], xs[|xs| - 1];
      assert xs == front + [last];
      NoCaseIsLost(front, lowered);
      HoldsOneMore(front, last, lowered);
      HoldsOneMore(FirstByCase(front), last, lowered);
    }
  }

  predicate FirstAt(xs: seq<string>, i: nat, x: string)
    requires i < |xs|
  {
    xs[i] == x && !Holds(xs[..i], Lower(x))
  }

  /** A value is kept exactly where it comes first among its spellings. */
  lemma {:induction false} FirstByCaseExactly(xs: seq<string>, x: string)
    ensures x in FirstByCase(xs) <==> exists i :: 0 <= i < |xs| && FirstAt(xs, i, x)
  {
    hide Lower, Holds;
    if xs != [] {
      var front, last := xs[..|xs| - 1], xs[|xs| - 1];
      FirstByCaseExactly(front, x);
      NoCaseIsLost(front, Lower(last));
      forall i | 0 <= i < |front|
        ensures FirstAt(front, i, x) <==> FirstAt(xs, i, x)
      {
        assert front[..i] == xs[..i];
      }
      assert FirstAt(xs, |front|, x) <==> last == x && !Holds(front, Lower(x));
    }
  }

  lemma {:induction false} KeptAreDistinct(xs: seq<string>)
    ensures CaseDistinct(FirstByCase(xs))
  {
    hide Lower;
    if xs != [] {
      KeptAreDistinct(xs[..|xs| - 1]);
    }
  }

  lemma HoldsOneMore(xs: seq<string>, last: string, lowered: string)
    ensures Holds(xs + [last], lowered) <==> Holds(xs, lowered) || Lower(last) == lowered
  {
    hide Lower;
    var all := xs + [last];
    assert all[|xs|] == last && forall i :: 0 <= i < |xs| ==> all[i] == xs[i];
  }

  function LiveValues(policy: Entries, keys: seq<string>): Option<seq<string>> {
    match Collected(policy, keys)
    case None => None
    case Some(values) => Some(Sort(FirstByCase(values)))
  }

  method StrictPolicySortedStrings(policy: Entries, keys: seq<string>) returns (r: Option<seq<string>>)
    ensures r == LiveValues(policy, keys)
  {
    var values := [];
    for i := 0 to |keys|
      invariant Collected(policy, keys[..i]) == Some(values)
    {
      assert keys[..i + 1][..i] == keys[..i];
      LiveFailureSticks(policy, keys, i + 1);
      match Get(policy, keys[i]) {
        case None =>
        case Some(value) =>
          match Listed(value) {
            case None => return None;
            case Some(words) => values := values + words;
          }
      }
    }
    assert keys[..|keys|] == keys;
    var deduplicated := [];
    for i := 0 to |values|
      invariant deduplicated == FirstByCase(values[..i])
    {
      assert values[..i + 1][..i] == values[..i];
      if !Holds(deduplicated, Lower(values[i])) {
        deduplicated := deduplicated + [values[i]];
      }
    }
    assert values[..|values|] == values;
    return Some(Sort(deduplicated));
  }

  lemma {:induction false} LiveFailureSticks(policy: Entries, keys: seq<string>, i: nat)
    requires i <= |keys|
    ensures Collected(policy, keys[..i]).None? ==> Collected(policy, keys).None?
    decreases |keys|
  {
    if i < |keys| {
      assert keys[..|keys| - 1][..i] == keys[..i];
      LiveFailureSticks(policy, keys[..|keys| - 1], i);
    } else {
      assert keys[..i] == keys;
    }
  }

  lemma {:induction false} DistinctIsKept(xs: seq<string>)
    requires CaseDistinct(xs)
    ensures FirstByCase(xs) == xs
  {
    if xs != [] {
      DistinctIsKept(xs[..|xs| - 1]);
    }
  }

  /** Whenever the runtime parser accepts, the collected values are one spelling's words followed by
      repeats of them, so merging and dropping duplicates gives the same canonical list. */
  lemma {:induction false} CollectedIsOneSpelling(policy: Entries, keys: seq<string>)
    requires RuntimeValues(policy, keys).Some?
    ensures Collected(policy, keys).Some?
    ensures Sort(FirstByCase(Collected(policy, keys).value)) == RuntimeValues(policy, keys).value
    ensures forall x :: x in FirstByCase(Collected(policy, keys).value) <==> x in RuntimeValues(policy, keys).value
  {
    if keys != [] {
      var front, last := keys[..|keys| - 1], keys[|keys| - 1];
      CollectedIsOneSpelling(policy, front);
      if Get(policy, last).Some? {
        var words := Listed(Get(policy, last).value).value;
        var values := Collected(policy, front).value;
        SortMembers(words);
        DistinctIsKept(words);
        if RuntimeValues(policy, front).value == [] {
          NothingCollected(policy, front);
          assert values + words == words;
        } else {
          RepeatsAfter(values, words);
        }
      }
    }
  }

  lemma {:induction false} NothingCollected(policy: Entries, keys: seq<string>)
    requires RuntimeValues(policy, keys) == Some([])
    ensures Collected(policy, keys) == Some([])
  {
    if keys != [] {
      var front, last := keys[..|keys| - 1], keys[|keys| - 1];
      if Get(policy, last).Some? {
        SortMembers(Listed(Get(policy, last).value).value);
      }
      NothingCollected(policy, front);
    }
  }

  lemma {:induction false} RepeatsAfter(values: seq<string>, words: seq<string>)
    requires forall i :: 0 <= i < |words| ==> words[i] in FirstByCase(values)
    ensures FirstByCase(values + words) == FirstByCase(values)
  {
    if words == [] {
      assert values + words == values;
    } else {
      var front := words[..|words| - 1];
      RepeatsAfter(values, front);
      assert (values + words)[..|values + words| - 1] == values + front;
      var kept := FirstByCase(values);
      var i :| 0 <= i < |kept| && kept[i] == words[|words| - 1];
    }
  }

  lemma {:induction false} LiveAcceptsIff(policy: Entries, keys: seq<string>)
    ensures LiveValues(policy, keys).Some? <==> AllListed(policy, keys)
  {
    if keys != [] {
      var front, last := keys[..|keys| - 1], keys[|keys| - 1];
      assert keys == front + [last];
      LiveAcceptsIff(policy, front);
      assert last in keys;
    }
  }

  /** The live checker's value: sorted, no two values alike up to letter case, none lost but for its letter case;
      where two spellings of a key differ in letter case only, the value of the first key stays. */
  lemma LiveValuesExactly(policy: Entries, k: string, l: string)
    requires Get(policy, k).Some? && Get(policy, l).Some? && PresentListed(policy, k) && PresentListed(policy, l)
    ensures var all := Listed(Get(policy, k).value).value + Listed(Get(policy, l).value).value;
      && LiveValues(policy, [k, l]).Some?
      && var r := LiveValues(policy, [k, l]).value;
      && Sorted(r)
      && (forall x :: x in r <==> exists i :: 0 <= i < |all| && FirstAt(all, i, x))
  {
    hide Listed, Sort, FirstByCase, Lower, Collected, Sorted;
    TwoSpellings(policy, k, l);
    var all := Listed(Get(policy, k).value).value + Listed(Get(policy, l).value).value;
    SortSorts(FirstByCase(all));
    SortMembers(FirstByCase(all));
    forall x
      ensures x in FirstByCase(all) <==> exists i :: 0 <= i < |all| && FirstAt(all, i, x)
    {
      FirstByCaseExactly(all, x);
    }
  }

  lemma TwoSpellings(policy: Entries, k: string, l: string)
    requires Get(policy, k).Some? && Get(policy, l).Some? && PresentListed(policy, k) && PresentListed(policy, l)
    ensures Collected(policy, [k, l]) == Some(Listed(Get(policy, k).value).value + Listed(Get(policy, l).value).value)
  {
    hide Listed;
    assert [k, l][..1] == [k] && [k][..0] == [];
    assert Collected(policy, []) == Some([]);
    assert Collected(policy, [k]) == Some([] + Listed(Get(policy, k).value).value);
    assert [] + Listed(Get(policy, k).value).value == Listed(Get(policy, k).value).value;
  }

  lemma {:induction false} LiveEmptyIff(policy: Entries, keys: seq<string>)
    requires Collected(policy, keys).Some?
    ensures Collected(policy, keys).value == [] <==> forall k :: k in keys ==> Get(policy, k).None?
  {
    if keys != [] {
      var front, last := keys[..|keys| - 1], keys[|keys| - 1];
      assert keys == front + [last] && last in keys;
      LiveEmptyIff(policy, front);
    }
  }

  /** The live checker refines the runtime parser on every policy and every list of key spellings: where the
      runtime accepts, both return the same canonical list; where only the live checker accepts, two
      spellings disagree. */
  lemma LiveRefinesRuntime(policy: Entries, keys: seq<string>)
    ensures RuntimeValues(policy, keys).Some? ==> LiveValues(policy, keys) == RuntimeValues(policy, keys)
    ensures RuntimeValues(policy, keys).Some?
        <==> LiveValues(policy, keys).Some? && AllListed(policy, keys) && AllAgree(policy, keys)
  {
    RuntimeAcceptsIff(policy, keys);
    LiveAcceptsIff(policy, keys);
    if RuntimeValues(policy, keys).Some? {
      CollectedIsOneSpelling(policy, keys);
    }
  }

  // ---------- Bindings of models to workloads ----------

  function Values(policy: Entries, keys: seq<string>, live: bool): Option<seq<string>> {
    if live then LiveValues(policy, keys) else RuntimeValues(policy, keys)
  }

  /** One entry of the bindings dict. */
  function ParsedBinding(v: Vocabulary, j: Json, live: bool): Option<Binding> {
    if !j.Dict? then None
    else
      var ids, sans := Values(j.entries, v.modelIds, live), Values(j.entries, v.modelSans, live);
      if ids.None? || sans.None? || (ids.value == [] && sans.value == []) then None
      else Some(Binding(ids.value, sans.value))
  }

  /** One list is readable: all present spellings are well formed and, for the runtime, say the same. */
  ghost predicate Readable(entries: Entries, keys: seq<string>, live: bool) {
    AllListed(entries, keys) && (live || AllAgree(entries, keys))
  }

  ghost predicate Given(entries: Entries, keys: seq<string>) {
    exists k :: k in keys && Get(entries, k).Some?
  }

  lemma ValuesExactly(entries: Entries, keys: seq<string>, live: bool)
    ensures Values(entries, keys, live).Some? <==> Readable(entries, keys, live)
    ensures Values(entries, keys, live).Some? ==> (Values(entries, keys, live).value != [] <==> Given(entries, keys))
  {
    if live {
      LiveAcceptsIff(entries, keys);
      if Collected(entries, keys).Some? {
        LiveEmptyIff(entries, keys);
        var values := Collected(entries, keys).value;
        SortMembers(FirstByCase(values));
        if values != [] {
          NoCaseIsLost(values, Lower(values[0]));
          assert Holds(values, Lower(values[0]));
        }
      }
    } else {
      RuntimeAcceptsIff(entries, keys);
    }
  }

  /** What binds a model: a dict whose two lists are readable, at least one of them given. */
  ghost predicate BindsSomething(v: Vocabulary, j: Json, live: bool) {
    && j.Dict? && Readable(j.entries, v.modelIds, live) && Readable(j.entries, v.modelSans, live)
    && (Given(j.entries, v.modelIds) || Given(j.entries, v.modelSans))
  }

  lemma BindingExactly(v: Vocabulary, j: Json, live: bool)
    ensures ParsedBinding(v, j, live).Some? <==> BindsSomething(v, j, live)
    ensures ParsedBinding(v, j, live).Some? ==> var b := ParsedBinding(v, j, live).value;
      && Some(b.ids) == Values(j.entries, v.modelIds, live) && Some(b.sans) == Values(j.entries, v.modelSans, live)
      && (b.ids != [] || b.sans != [])
  {
    hide Values, Readable, Given;
    if j.Dict? {
      ValuesExactly(j.entries, v.modelIds, live);
      ValuesExactly(j.entries, v.modelSans, live);
    }
  }

  function LowerKeys(bindings: map<string, Binding>): set<string> {
    set m | m in bindings :: Lower(m)
  }

  /** Model names are stripped, not lowercased, and must be distinct up to letter case. */
  function ParsedEntries(v: Vocabulary, entries: Entries, live: bool): Option<map<string, Binding>> {
    if entries == [] then Some(map[]) else
    match ParsedEntries(v, entries[..|entries| - 1], live)
    case None => None
    case Some(bindings) =>
      var model := Strip(entries[|entries| - 1].0);
      if model == "" || Lower(model) in LowerKeys(bindings) then None
      else match ParsedBinding(v, entries[|entries| - 1].1, live)
      case None => None
      case Some(binding) => Some(bindings[model := binding])
  }

  function ParsedDict(v: Vocabulary, j: Json, live: bool): Option<map<string, Binding>> {
    if j.Dict? && j.entries != [] then ParsedEntries(v, j.entries, live) else None
  }

  /** A dict of bindings: every entry names a model and binds it to something, and no two names are alike up to
      letter case. */
  ghost predicate WellBound(v: Vocabulary, entries: Entries, live: bool) {
    && (forall i :: 0 <= i < |entries| ==> Strip(entries[i].0) != "" && BindsSomething(v, entries[i].1, live))
    && (forall i, j :: 0 <= i < j < |entries| ==> Lower(Strip(entries[i].0)) != Lower(Strip(entries[j].0)))
  }

  ghost predicate NamedIn(entries: Entries, m: string) {
    exists i :: 0 <= i < |entries| && Strip(entries[i].0) == m
  }

  lemma OneMoreWellBound(v: Vocabulary, front: Entries, last: (string, Json), live: bool)
    ensures WellBound(v, front + [last], live) <==>
      && WellBound(v, front, live) && Strip(last.0) != "" && BindsSomething(v, last.1, live)
      && !exists i :: 0 <= i < |front| && Lower(Strip(front[i].0)) == Lower(Strip(last.0))
  {
    hide Strip, Lower, BindsSomething;
    var all := front + [last];
    assert all[|front|] == last && forall i :: 0 <= i < |front| ==> all[i] == front[i];
    if WellBound(v, all, live) {
      assert forall i :: 0 <= i < |front| ==> Lower(Strip(all[i].0)) != Lower(Strip(all[|front|].0));
    }
  }

  lemma OneMoreNamed(front: Entries, last: (string, Json), m: string)
    ensures NamedIn(front + [last], m) <==> NamedIn(front, m) || Strip(last.0) == m
  {
    hide Strip;
    var all := front + [last];
    assert all[|front|] == last && forall i :: 0 <= i < |front| ==> all[i] == front[i];
  }

  /** Both checkers accept exactly the well-bound dicts; every model named there is bound to some workload, and
      nothing else is. */
  lemma {:induction false} EntriesExactly(v: Vocabulary, entries: Entries, live: bool)
    ensures ParsedEntries(v, entries, live).Some? <==> WellBound(v, entries, live)
    ensures ParsedEntries(v, entries, live).Some? ==> var bindings := ParsedEntries(v, entries, live).value;
      forall m :: (m in bindings <==> NamedIn(entries, m)) && (m in bindings ==> bindings[m].ids != [] || bindings[m].sans != [])
  {
    hide Strip, Lower, ParsedBinding, BindsSomething, WellBound, NamedIn, LowerKeys;
    if entries == [] {
      NothingBound(v, live);
    } else {
      var front, last := entries[..|entries| - 1], entries[|entries| - 1];
      assert entries == front + [last];
      EntriesExactly(v, front, live);
      BindingExactly(v, last.1, live);
      OneMoreWellBound(v, front, last, live);
      if ParsedEntries(v, front, live).Some? {
        NamesSoFar(front, ParsedEntries(v, front, live).value, Lower(Strip(last.0)));
      }
      forall m
        ensures NamedIn(entries, m) <==> NamedIn(front, m) || Strip(last.0) == m
      {
        OneMoreNamed(front, last, m);
      }
    }
  }

  lemma NothingBound(v: Vocabulary, live: bool)
    ensures WellBound(v, [], live) && forall m :: !NamedIn([], m)
  {
  }

  /** Each model is bound to what its own entry says. */
  lemma {:induction false} EntryIsBinding(v: Vocabulary, entries: Entries, live: bool, i: nat)
    requires ParsedEntries(v, entries, live).Some? && i < |entries|
    ensures var bindings, m := ParsedEntries(v, entries, live).value, Strip(entries[i].0);
      m in bindings && Some(bindings[m]) == ParsedBinding(v, entries[i].1, live)
  {
    hide Strip, Lower, ParsedBinding;
    if i < |entries| - 1 {
      EntryIsBinding(v, entries[..|entries| - 1], live, i);
    }
  }

  lemma NamesSoFar(entries: Entries, bindings: map<string, Binding>, lowered: string)
    requires forall m :: m in bindings <==> NamedIn(entries, m)
    ensures lowered in LowerKeys(bindings) <==> exists i :: 0 <= i < |entries| && Lower(Strip(entries[i].0)) == lowered
  {
    hide Strip, Lower;
    if lowered in LowerKeys(bindings) {
      var m :| m in bindings && Lower(m) == lowered;
      assert NamedIn(entries, m);
    }
    if i :| 0 <= i < |entries| && Lower(Strip(entries[i].0)) == lowered {
      assert NamedIn(entries, Strip(entries[i].0));
    }
  }

  lemma {:induction false} EntriesFailureSticks(v: Vocabulary, entries: Entries, live: bool, i: nat)
    requires i <= |entries|
    ensures ParsedEntries(v, entries[..i], live).None? ==> ParsedEntries(v, entries, live).None?
    decreases |entries|
  {
    if i < |entries| {
      assert entries[..|entries| - 1][..i] == entries[..i];
      EntriesFailureSticks(v, entries[..|entries| - 1], live, i);
    } else {
      assert entries[..i] == entries;
    }
  }

  method ParseBinding(v: Vocabulary, j: Json, live: bool) returns (r: Option<Binding>)
    ensures r == ParsedBinding(v, j, live)
  {
    if !j.Dict? {
      return None;
    }
    var ids, sans;
    if live {
      ids := StrictPolicySortedStrings(j.entries, v.modelIds);
      sans := StrictPolicySortedStrings(j.entries, v.modelSans);
    } else {
      ids := StrictPolicyStringValues(j.entries, v.modelIds);
      sans := StrictPolicyStringValues(j.entries, v.modelSans);
    }
    if ids.None? || sans.None? || (ids.value == [] && sans.value == []) {
      return None;
    }
    return Some(Binding(ids.value, sans.value));
  }

  lemma LowerKeysGrow(bindings: map<string, Binding>, m: string, b: Binding)
    ensures LowerKeys(bindings[m := b]) == LowerKeys(bindings) + {Lower(m)}
  {
    var more := bindings[m := b];
    forall x | x in LowerKeys(bindings) + {Lower(m)}
      ensures x in LowerKeys(more)
    {
      if x == Lower(m) {
        assert m in more;
      } else {
        var k :| k in bindings && Lower(k) == x;
        assert k in more;
      }
    }
  }

  /** The loop over the entries of one dict, as both checkers have it. */
  method ParseEntries(v: Vocabulary, entries: Entries, live: bool) returns (r: Option<map<string, Binding>>)
    ensures r == ParsedEntries(v, entries, live)
  {
    var bindings: map<string, Binding> := map[];
    var seen: set<string> := {};
    for i := 0 to |entries|
      invariant ParsedEntries(v, entries[..i], live) == Some(bindings)
      invariant seen == LowerKeys(bindings)
    {
      assert entries[..i + 1][..i] == entries[..i];
      EntriesFailureSticks(v, entries, live, i + 1);
      var model := Strip(entries[i].0);
      if model == "" || Lower(model) in seen {
        return None;
      }
      seen := seen + {Lower(model)};
      var binding := ParseBinding(v, entries[i].1, live);
      if binding.None? {
        return None;
      }
      LowerKeysGrow(bindings, model, binding.value);
      bindings := bindings[model := binding.value];
    }
    assert entries[..|entries|] == entries;
    return Some(bindings);
  }

  /** Every present spelling of the bindings, parsed; none when one of them does not parse. */
  function AllParsed(v: Vocabulary, policy: Entries, keys: seq<string>): Option<seq<map<string, Binding>>> {
    if keys == [] then Some([]) else
    match AllParsed(v, policy, keys[..|keys| - 1])
    case None => None
    case Some(parsed) =>
      match Get(policy, keys[|keys| - 1])
      case None => Some(parsed)
      case Some(raw) =>
        match ParsedDict(v, raw, false)
        case None => None
        case Some(bindings) => Some(parsed + [bindings])
  }

  lemma {:induction false} ParseFailureSticks(v: Vocabulary, policy: Entries, keys: seq<string>, i: nat)
    requires i <= |keys|
    ensures AllParsed(v, policy, keys[..i]).None? ==> AllParsed(v, policy, keys).None?
    decreases |keys|
  {
    if i < |keys| {
      assert keys[..|keys| - 1][..i] == keys[..i];
      ParseFailureSticks(v, policy, keys[..|keys| - 1], i);
    } else {
      assert keys[..i] == keys;
    }
  }

  /** The runtime: all present spellings of the dict must parse, to the same bindings. */
  function RuntimeBindings(v: Vocabulary, policy: Entries): Option<map<string, Binding>> {
    match AllParsed(v, policy, v.bindings)
    case None => None
    case Some(parsed) =>
      if parsed == [] || (exists i :: 0 < i < |parsed| && parsed[i] != parsed[0]) then None else Some(parsed[0])
  }

  /** The live checker: the first spelling that is not null. */
  function FirstNonNull(policy: Entries, keys: seq<string>): Json {
    if keys == [] then Null
    else
      var value := Get(policy, keys[0]);
      if value.Some? && value.value != Null then value.value else FirstNonNull(policy, keys[1..])
  }

  function LiveBindings(v: Vocabulary, policy: Entries): Option<map<string, Binding>> {
    ParsedDict(v, FirstNonNull(policy, v.bindings), true)
  }

  lemma {:induction false} AllParsedIff(v: Vocabulary, policy: Entries, keys: seq<string>)
    ensures AllParsed(v, policy, keys).Some? <==>
      forall k :: k in keys && Get(policy, k).Some? ==> ParsedDict(v, Get(policy, k).value, false).Some?
    ensures AllParsed(v, policy, keys).Some? ==> forall b :: b in AllParsed(v, policy, keys).value <==>
      exists k :: k in keys && Get(policy, k).Some? && ParsedDict(v, Get(policy, k).value, false) == Some(b)
  {
    hide ParsedDict;
    if keys != [] {
      var front, last := keys[..|keys| - 1], keys[|keys| - 1];
      assert keys == front + [last] && last in keys;
      AllParsedIff(v, policy, front);
    }
  }

  /** The runtime reads the bindings b if and only if some spelling of the key is present and every present one
      parses to b. */
  lemma RuntimeBindingsExactly(v: Vocabulary, policy: Entries, b: map<string, Binding>)
    ensures RuntimeBindings(v, policy) == Some(b) <==>
      && Given(policy, v.bindings)
      && forall k :: k in v.bindings && Get(policy, k).Some? ==> ParsedDict(v, Get(policy, k).value, false) == Some(b)
  {
    hide ParsedDict;
    AllParsedIff(v, policy, v.bindings);
    if AllParsed(v, policy, v.bindings).Some? {
      var parsed := AllParsed(v, policy, v.bindings).value;
      if parsed != [] {
        assert parsed[0] in parsed;
        if RuntimeBindings(v, policy).Some? {
          assert forall c :: c in parsed ==> c == parsed[0];
        } else {
          var i :| 0 < i < |parsed| && parsed[i] != parsed[0];
          assert parsed[i] in parsed;
        }
      }
    }
  }

  /** The first spelling that is present and not null; null when there is none. */
  lemma {:induction false} FirstNonNullExactly(policy: Entries, keys: seq<string>, j: Json)
    requires j != Null
    ensures FirstNonNull(policy, keys) == j <==> exists i ::
      0 <= i < |keys| && Get(policy, keys[i]) == Some(j) && forall l :: 0 <= l < i ==> Get(policy, keys[l]) in {None, Some(Null)}
  {
    hide Get;
    if keys != [] {
      var rest := keys[1..];
      FirstNonNullExactly(policy, rest, j);
      assert forall i :: 0 <= i < |rest| ==> rest[i] == keys[i + 1];
      if Get(policy, keys[0]) in {None, Some(Null)} && FirstNonNull(policy, rest) == j {
        var i :| 0 <= i < |rest| && Get(policy, rest[i]) == Some(j) && forall l :: 0 <= l < i ==> Get(policy, rest[l]) in {None, Some(Null)};
        assert Get(policy, keys[i + 1]) == Some(j) && forall l :: 0 <= l < i + 1 ==> l == 0 || keys[l] == rest[l - 1];
      }
      if i :| 0 <= i < |keys| && Get(policy, keys[i]) == Some(j) && forall l :: 0 <= l < i ==> Get(policy, keys[l]) in {None, Some(Null)} {
        if i > 0 {
          assert Get(policy, keys[0]) in {None, Some(Null)};
          assert Get(policy, rest[i - 1]) == Some(j) && forall l :: 0 <= l < i - 1 ==> Get(policy, rest[l]) in {None, Some(Null)};
        }
      }
    }
  }

  /** Whatever either checker accepts is not empty and binds every model, named without outer space, to some
      workload; the dict it was read from is well bound. */
  lemma AcceptedBindsEveryModel(v: Vocabulary, j: Json, live: bool)
    ensures ParsedDict(v, j, live).Some? <==> j.Dict? && j.entries != [] && WellBound(v, j.entries, live)
    ensures ParsedDict(v, j, live).Some? ==> var bindings := ParsedDict(v, j, live).value;
      bindings != map[] && forall m :: m in bindings ==> m != "" && Strip(m) == m && (bindings[m].ids != [] || bindings[m].sans != [])
  {
    hide Strip, Lower, BindsSomething;
    if j.Dict? && j.entries != [] {
      EntriesExactly(v, j.entries, live);
      assert NamedIn(j.entries, Strip(j.entries[0].0));
      if WellBound(v, j.entries, live) {
        forall m | NamedIn(j.entries, m)
          ensures m != "" && Strip(m) == m
        {
          var i :| 0 <= i < |j.entries| && Strip(j.entries[i].0) == m;
          NormalFormsAreStable(j.entries[i].0);
        }
      }
    }
  }

  /** No checker ever accepts a model that is bound to nothing. */
  lemma NoModelIsUnbound(v: Vocabulary, policy: Entries, m: string)
    ensures RuntimeBindings(v, policy).Some? && m in RuntimeBindings(v, policy).value ==>
      var b := RuntimeBindings(v, policy).value[m]; m != "" && (b.ids != [] || b.sans != [])
    ensures LiveBindings(v, policy).Some? && m in LiveBindings(v, policy).value ==>
      var b := LiveBindings(v, policy).value[m]; m != "" && (b.ids != [] || b.sans != [])
  {
    hide ParsedDict, Strip;
    AcceptedBindsEveryModel(v, FirstNonNull(policy, v.bindings), true);
    if RuntimeBindings(v, policy).Some? {
      RuntimeBindingsExactly(v, policy, RuntimeBindings(v, policy).value);
      var k :| k in v.bindings && Get(policy, k).Some?;
      AcceptedBindsEveryModel(v, Get(policy, k).value, false);
    }
  }

  method PrivatemodeModelWorkloadBindings(v: Vocabulary, policy: Entries) returns (r: Option<map<string, Binding>>)
    ensures r == RuntimeBindings(v, policy)
  {
    var keys := v.bindings;
    var parsed: seq<map<string, Binding>> := [];
    for i := 0 to |keys|
      invariant AllParsed(v, policy, keys[..i]) == Some(parsed)
    {
      assert keys[..i + 1][..i] == keys[..i];
      ParseFailureSticks(v, policy, keys, i + 1);
      match Get(policy, keys[i]) {
        case None =>
        case Some(raw) =>
          if !raw.Dict? || raw.entries == [] {
            return None;
          }
          var bindings := ParseEntries(v, raw.entries, false);
          if bindings.None? {
            return None;
          }
          parsed := parsed + [bindings.value];
      }
    }
    assert keys[..|keys|] == keys;
    if parsed == [] || (exists i :: 0 < i < |parsed| && parsed[i] != parsed[0]) {
      return None;
    }
    return Some(parsed[0]);
  }

  method LivePrivatemodeModelWorkloadBindings(v: Vocabulary, policy: Entries) returns (r: Option<map<string, Binding>>)
    ensures r == LiveBindings(v, policy)
  {
    var raw := Null;
    var i := 0;
    while i < |v.bindings| && raw == Null
      invariant 0 <= i <= |v.bindings|
      invariant FirstNonNull(policy, v.bindings) == if raw != Null then raw else FirstNonNull(policy, v.bindings[i..])
    {
      var value := Get(policy, v.bindings[i]);
      if value.Some? {
        raw := value.value;
      }
      i := i + 1;
    }
    if !raw.Dict? || raw.entries == [] {
      return None;
    }
    r := ParseEntries(v, raw.entries, true);
  }

  // ---------- The live checker refines the runtime on bindings ----------

  lemma LiveBindingAgrees(v: Vocabulary, j: Json)
    requires ParsedBinding(v, j, false).Some?
    ensures ParsedBinding(v, j, true) == ParsedBinding(v, j, false)
  {
    LiveRefinesRuntime(j.entries, v.modelIds);
    LiveRefinesRuntime(j.entries, v.modelSans);
  }

  lemma {:induction false} LiveEntriesAgree(v: Vocabulary, entries: Entries)
    requires ParsedEntries(v, entries, false).Some?
    ensures ParsedEntries(v, entries, true) == ParsedEntries(v, entries, false)
  {
    if entries != [] {
      LiveEntriesAgree(v, entries[..|entries| - 1]);
      LiveBindingAgrees(v, entries[|entries| - 1].1);
    }
  }

  lemma {:induction false} ParsedAreThePresent(v: Vocabulary, policy: Entries, keys: seq<string>)
    requires AllParsed(v, policy, keys).Some?
    ensures forall k :: k in keys && Get(policy, k).Some? ==>
      ParsedDict(v, Get(policy, k).value, false).Some?
      && ParsedDict(v, Get(policy, k).value, false).value in AllParsed(v, policy, keys).value
    ensures AllParsed(v, policy, keys).value != [] ==> exists k :: k in keys && Get(policy, k).Some?
  {
    if keys != [] {
      var front, last := keys[..|keys| - 1], keys[|keys| - 1];
      assert keys == front + [last];
      ParsedAreThePresent(v, policy, front);
      assert last in keys;
    }
  }

  lemma {:induction false} FirstNonNullIsPresent(policy: Entries, keys: seq<string>, k: string)
    requires k in keys && Get(policy, k).Some? && Get(policy, k).value != Null
    ensures exists l :: l in keys && Get(policy, l) == Some(FirstNonNull(policy, keys))
  {
    assert keys[0] in keys;
    if Get(policy, keys[0]).None? || Get(policy, keys[0]).value == Null {
      FirstNonNullIsPresent(policy, keys[1..], k);
    }
  }

  /** For every policy whose workload lists and bindings the runtime accepts, the live checker reads the same
      expected identities and the same bindings, hence hashes the same inputs. */
  lemma LiveCheckerRefinesRuntime(v: Vocabulary, policy: Entries)
    ensures RuntimeBindings(v, policy).Some? ==> LiveBindings(v, policy) == RuntimeBindings(v, policy)
    ensures RuntimeValues(policy, v.expectedIds).Some? ==>
      LiveValues(policy, v.expectedIds) == RuntimeValues(policy, v.expectedIds)
    ensures RuntimeValues(policy, v.expectedSans).Some? ==>
      LiveValues(policy, v.expectedSans) == RuntimeValues(policy, v.expectedSans)
  {
    LiveRefinesRuntime(policy, v.expectedIds);
    LiveRefinesRuntime(policy, v.expectedSans);
    if RuntimeBindings(v, policy).Some? {
      ParsedAreThePresent(v, policy, v.bindings);
      var k :| k in v.bindings && Get(policy, k).Some?;
      assert ParsedDict(v, Get(policy, k).value, false).Some?;
      FirstNonNullIsPresent(policy, v.bindings, k);
      var first := FirstNonNull(policy, v.bindings);
      assert ParsedDict(v, first, false).Some? && ParsedDict(v, first, false).value in AllParsed(v, policy, v.bindings).value;
      LiveEntriesAgree(v, first.entries);
    }
  }

  lemma OneWord(w: string)
    requires Strip(w) == w != ""
    ensures Listed(List([Str(w)])) == Some([w]) && Sort([w]) == [w]
  {
    var items := [Str(w)];
    assert IsWord(items[0]) && items[..0] == [];
    assert Words(items) == [w];
    assert [w][1..] == [];
  }

  /** The converse fails: a list whose two spellings name different workloads is merged by the live checker
      and refused by the runtime. */
  lemma LiveMergesDisagreeingSpellings(policy: Entries, k: string, l: string, x: string, y: string)
    requires Strip(x) == x != "" && Strip(y) == y != "" && x != y
    requires Get(policy, k) == Some(List([Str(x)])) && Get(policy, l) == Some(List([Str(y)]))
    ensures RuntimeValues(policy, [k, l]).None? && LiveValues(policy, [k, l]).Some?
  {
    OneWord(x);
    OneWord(y);
    LiveAcceptsIff(policy, [k, l]);
    RuntimeAcceptsIff(policy, [k, l]);
    assert k in [k, l] && l in [k, l];
    assert PresentListed(policy, k) && PresentListed(policy, l) && !Agree(policy, k, l);
  }

  // ---------- Coverage ----------

  function BoundIds(bindings: map<string, Binding>): set<string> {
    set m, x | m in bindings && x in bindings[m].ids :: x
  }

  function BoundSans(bindings: map<string, Binding>): set<string> {
    set m, x | m in bindings && x in bindings[m].sans :: x
  }

  function Elements(xs: seq<string>): set<string> {
    set x | x in xs
  }

  /** Every bound workload is expected, and every expected workload is bound. */
  predicate Covers(v: Vocabulary, policy: Entries, bindings: map<string, Binding>) {
    var ids, sans := RuntimeValues(policy, v.expectedIds), RuntimeValues(policy, v.expectedSans);
    && ids.Some? && sans.Some? && (ids.value != [] || sans.value != [])
    && BoundIds(bindings) == Elements(ids.value)
    && BoundSans(bindings) == Elements(sans.value)
  }

  lemma BoundByOneMore(done: map<string, Binding>, m: string, b: Binding)
    requires m !in done
    ensures BoundIds(done[m := b]) == BoundIds(done) + Elements(b.ids)
    ensures BoundSans(done[m := b]) == BoundSans(done) + Elements(b.sans)
  {
    var more := done[m := b];
    assert forall k :: k in more <==> k in done || k == m;
    forall x | x in BoundIds(done) + Elements(b.ids) ensures x in BoundIds(more) {
      if x in Elements(b.ids) { assert m in more && x in more[m].ids; }
      else { var k :| k in done && x in done[k].ids; assert k in more && x in more[k].ids; }
    }
    forall x | x in BoundSans(done) + Elements(b.sans) ensures x in BoundSans(more) {
      if x in Elements(b.sans) { assert m in more && x in more[m].sans; }
      else { var k :| k in done && x in done[k].sans; assert k in more && x in more[k].sans; }
    }
  }

  lemma BoundByOne(bindings: map<string, Binding>, m: string)
    requires m in bindings
    ensures Elements(bindings[m].ids) <= BoundIds(bindings) && Elements(bindings[m].sans) <= BoundSans(bindings)
  {
    forall x | x in bindings[m].ids ensures x in BoundIds(bindings) { assert m in bindings; }
    forall x | x in bindings[m].sans ensures x in BoundSans(bindings) { assert m in bindings; }
  }

  lemma NoElements(xs: seq<string>)
    ensures Elements(xs) == {} <==> xs == []
  {
    if xs != [] {
      assert xs[0] in Elements(xs);
    }
  }

  lemma NothingMissing(xs: set<string>, ys: set<string>)
    ensures xs - ys == {} <==> xs <= ys
  {
    if xs - ys == {} {
      forall x | x in xs ensures x in ys { assert x !in xs - ys; }
    }
  }

  /** The loop of the coverage check: nothing bound outside the expected sets, and nothing expected left unbound. */
  method BoundExactly(bindings: map<string, Binding>, expectedIds: set<string>, expectedSans: set<string>) returns (r: bool)
    ensures r <==> BoundIds(bindings) == expectedIds && BoundSans(bindings) == expectedSans
  {
    var boundIds: set<string>, boundSans: set<string> := {}, {};
    var rest := bindings.Keys;
    var done: map<string, Binding> := map[];
    while rest != {}
      invariant done.Keys + rest == bindings.Keys && done.Keys !! rest
      invariant forall m :: m in done ==> done[m] == bindings[m]
      invariant boundIds == BoundIds(done) && boundSans == BoundSans(done)
      invariant boundIds <= expectedIds && boundSans <= expectedSans
      decreases rest
    {
      var m :| m in rest;
      BoundByOneMore(done, m, bindings[m]);
      BoundByOne(bindings, m);
      var bindingIds, bindingSans := Elements(bindings[m].ids), Elements(bindings[m].sans);
      if bindingIds - expectedIds != {} || bindingSans - expectedSans != {} {
        assert !(bindingIds <= expectedIds && bindingSans <= expectedSans);
        return false;
      }
      rest := rest - {m};
      done := done[m := bindings[m]];
      boundIds := boundIds + bindingIds;
      boundSans := boundSans + bindingSans;
    }
    assert done == bindings;
    r := expectedIds - boundIds == {} && expectedSans - boundSans == {};
    NothingMissing(expectedIds, boundIds);
    NothingMissing(expectedSans, boundSans);
  }

  method WorkloadBindingsCoverExpectedWorkloads(v: Vocabulary, policy: Entries, bindings: map<string, Binding>) returns (r: bool)
    ensures r <==> Covers(v, policy, bindings)
  {
    var ids := StrictPolicyStringValues(policy, v.expectedIds);
    var sans := StrictPolicyStringValues(policy, v.expectedSans);
    if ids.None? || sans.None? {
      return false;
    }
    NoElements(ids.value);
    NoElements(sans.value);
    if Elements(ids.value) == {} && Elements(sans.value) == {} {
      return false;
    }
    r := BoundExactly(bindings, Elements(ids.value), Elements(sans.value));
  }
}
