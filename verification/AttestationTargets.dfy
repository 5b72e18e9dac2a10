/** The targets directory: which host and model each attestation check stands for. */
module AttestationTargets {
  import opened Wrappers
  import opened Text
  import opened ResultRows

  type Key = (Slug, string)

  /** A declared check; blank text is None, `host` already falls back to the URL's host. */
  datatype Target = Target(
    id: Option<string>,
    host: Option<string>,
    model: Option<string>,
    namedRouter: bool,
    backendHost: Option<string>,
    backendRepo: Option<string>)

  /** One provider of the document; None where the document has something else. */
  datatype Block = Block(slug: Option<Slug>, checks: Option<seq<Target>>)

  /** `known` lists the models of hosts that are known without being declared. */
  datatype Known = Known(routerHost: string, known: map<string, seq<string>>)

  // ---------- Usable checks ----------

  function CountInBlock(ts: seq<Target>, id: string): nat {
    if ts == [] then 0 else CountInBlock(ts[..|ts| - 1], id) + (if Lowered(ts[|ts| - 1].id) == Some(id) then 1 else 0)
  }

  /** Has an id that no other check of its block has. */
  predicate IsUsable(block: seq<Target>, t: Target) {
    t.id.Some? && CountInBlock(block, Lower(t.id.value)) == 1
  }

  function Usable(block: seq<Target>, ts: seq<Target>): (r: seq<Target>)
    ensures forall i :: 0 <= i < |r| ==> r[i].id.Some?
  {
    if ts == [] then []
    else if IsUsable(block, ts[|ts| - 1]) then Usable(block, ts[..|ts| - 1]) + [ts[|ts| - 1]]
    else Usable(block, ts[..|ts| - 1])
  }

  predicate HasCheckId(t: Target, id: string) {
    t.id.Some? && Lower(t.id.value) == id
  }

  /** The check at `i` has the id, and no other check of the entry has. */
  predicate Alone(ts: seq<Target>, id: string, i: nat)
    requires i < |ts|
  {
    HasCheckId(ts[i], id) && forall j :: 0 <= j < |ts| && j != i ==> !HasCheckId(ts[j], id)
  }

  lemma {:induction false} CountedNever(ts: seq<Target>, id: string)
    ensures CountInBlock(ts, id) == 0 <==> forall i :: 0 <= i < |ts| ==> !HasCheckId(ts[i], id)
  {
    hide Lower;
    if ts != [] {
      CountedNever(ts[..|ts| - 1], id);
      assert forall i :: 0 <= i < |ts| - 1 ==> ts[..|ts| - 1][i] == ts[i];
    }
  }

  lemma {:induction false} CountedOnce(ts: seq<Target>, id: string, i: nat)
    requires i < |ts| && HasCheckId(ts[i], id)
    ensures CountInBlock(ts, id) == 1 <==> Alone(ts, id, i)
  {
    hide Lower;
    var front, last := ts[..|ts| - 1], ts[|ts| - 1];
    CountedNever(front, id);
    assert forall j :: 0 <= j < |front| ==> front[j] == ts[j];
    if i < |front| {
      CountedOnce(front, id, i);
    }
  }

  /** A check id that appears twice in an entry takes all its checks out; every other check with an id stays. */
  lemma UsableExactly(block: seq<Target>, i: nat)
    requires i < |block|
    ensures IsUsable(block, block[i]) <==>
      && block[i].id.Some?
      && forall j :: 0 <= j < |block| && j != i ==> !HasCheckId(block[j], Lower(block[i].id.value))
  {
    hide Lower;
    if block[i].id.Some? {
      CountedOnce(block, Lower(block[i].id.value), i);
    }
  }

  /** The usable checks in the order of the entry. */
  lemma {:induction false} UsableKeepsOrder(block: seq<Target>, ts: seq<Target>, us: seq<Target>)
    ensures Usable(block, ts + us) == Usable(block, ts) + Usable(block, us)
    ensures forall t :: t in Usable(block, ts) <==> t in ts && IsUsable(block, t)
  {
    hide IsUsable;
    if ts != [] {
      assert ts == ts[..|ts| - 1] + [ts[|ts| - 1]];
      UsableKeepsOrder(block, ts[..|ts| - 1], []);
    }
    if us == [] {
      assert ts + us == ts;
    } else {
      assert (ts + us)[..|ts + us| - 1] == ts + us[..|us| - 1];
      UsableKeepsOrder(block, ts, us[..|us| - 1]);
    }
  }

  // ---------- One check into the directory ----------

  datatype State = State(targets: Targets, counts: map<Key, nat>)

  predicate IsRouter(kn: Known, p: Slug, t: Target) {
    p == Tinfoil && (t.namedRouter || t.host == Some(kn.routerHost))
  }

  /** The model a check speaks for by name. */
  function NamedModel(kn: Known, p: Slug, t: Target): Option<string> {
    if IsRouter(kn, p, t) then None else Lowered(t.model)
  }

  function Put(m: Lookup, p: Slug, key: Option<string>, value: Option<string>): Lookup {
    if key.Some? && value.Some? then m[(p, key.value) := value.value] else m
  }

  function CountOf(counts: map<Key, nat>, k: Key): nat {
    if k in counts then counts[k] else 0
  }

  function Inferred(kn: Known, p: Slug, t: Target): seq<string> {
    if t.model.None? && p == Tinfoil && t.host.Some? && t.host.value in kn.known then kn.known[t.host.value] else []
  }

  /** The model a check stands for: the one it names, else the first one known for its host. */
  function CheckModel(kn: Known, p: Slug, t: Target): Option<string> {
    var named, inferred := NamedModel(kn, p, t), Inferred(kn, p, t);
    SortMembers(inferred);
    if named.Some? then named else if inferred != [] then Some(Sort(inferred)[0]) else None
  }

  /** The check names the model, and is none of Tinfoil's routers, which are known by name or by host. */
  predicate NamesIt(kn: Known, p: Slug, t: Target, model: string) {
    && t.model.Some? && Lower(t.model.value) == model
    && (p == Tinfoil ==> !t.namedRouter && t.host != Some(kn.routerHost))
  }

  /** The check names no model, and the model is one of those known for its Tinfoil host. */
  predicate HostsIt(kn: Known, p: Slug, t: Target, model: string) {
    t.model.None? && p == Tinfoil && t.host.Some? && t.host.value in kn.known && model in kn.known[t.host.value]
  }

  /** Which model a check stands for: the one it names, or the first in order of those its host is known for. */
  lemma CheckModelExactly(kn: Known, p: Slug, t: Target, model: string)
    ensures NamedModel(kn, p, t) == Some(model) <==> NamesIt(kn, p, t, model)
    ensures model in Inferred(kn, p, t) <==> HostsIt(kn, p, t, model)
    ensures CheckModel(kn, p, t) == Some(model) <==>
      || NamesIt(kn, p, t, model)
      || (HostsIt(kn, p, t, model) && forall other :: HostsIt(kn, p, t, other) ==> Leq(model, other))
  {
    hide Lower, Leq, Sort;
    var inferred := Inferred(kn, p, t);
    SortMembers(inferred);
    if inferred != [] {
      SortSorts(inferred);
      assert inferred[0] in inferred && Sort(inferred)[0] in Sort(inferred);
      LeqTotal(Sort(inferred)[0], Sort(inferred)[0]);
      assert HostsIt(kn, p, t, Sort(inferred)[0]);
      forall other | HostsIt(kn, p, t, other)
        ensures Leq(Sort(inferred)[0], other)
      {
        assert other in Sort(inferred);
      }
      if model in inferred && Leq(model, Sort(inferred)[0]) {
        LeqAntisymmetric(model, Sort(inferred)[0]);
      }
    }
  }

  function WithTarget(kn: Known, st: State, p: Slug, t: Target): State
    requires t.id.Some?
  {
    var id, named, inferred, d := Lowered(t.id), NamedModel(kn, p, t), Inferred(kn, p, t), st.targets;
    State(
      d.(checkHosts := Put(d.checkHosts, p, id, t.host),
        checkModels := Put(d.checkModels, p, id, CheckModel(kn, p, t)),
        targetModels := d.targetModels + (if named.Some? then {(p, named.value)} else {}) + (set m | m in inferred :: (p, m)),
        checkBackendHosts := Put(d.checkBackendHosts, p, id, t.backendHost),
        checkBackendRepos := Put(d.checkBackendRepos, p, id, t.backendRepo),
        modelHosts := Put(d.modelHosts, p, named, t.host),
        modelBackendHosts := Put(d.modelBackendHosts, p, named, t.backendHost),
        modelBackendRepos := Put(d.modelBackendRepos, p, named, t.backendRepo)),
      if named.Some? then st.counts[(p, named.value) := CountOf(st.counts, (p, named.value)) + 1] else st.counts)
  }

  function WithTargets(kn: Known, st: State, p: Slug, ts: seq<Target>): State
    requires forall i :: 0 <= i < |ts| ==> ts[i].id.Some?
  {
    if ts == [] then st else WithTarget(kn, WithTargets(kn, st, p, ts[..|ts| - 1]), p, ts[|ts| - 1])
  }

  function Repeated(counts: map<Key, nat>, p: Slug): set<Key> {
    set k | k in counts && k.0 == p && counts[k] > 1
  }

  /** Models that several checks of the provider name lose their model-level facts. */
  function Pruned(st: State, p: Slug): State {
    var gone, d := Repeated(st.counts, p), st.targets;
    st.(targets := d.(ambiguous := d.ambiguous + gone, modelHosts := d.modelHosts - gone,
      modelBackendHosts := d.modelBackendHosts - gone, modelBackendRepos := d.modelBackendRepos - gone))
  }

  const EMPTY := State(Targets(map[], map[], {}, map[], map[], map[], map[], map[], {}), map[])

  function WithBlock(kn: Known, st: State, b: Block): State {
    if b.slug.None? || b.checks.None? then st
    else Pruned(WithTargets(kn, st, b.slug.value, Usable(b.checks.value, b.checks.value)), b.slug.value)
  }

  function Loaded(kn: Known, blocks: seq<Block>): State {
    if blocks == [] then EMPTY else WithBlock(kn, Loaded(kn, blocks[..|blocks| - 1]), blocks[|blocks| - 1])
  }

  method LoadTargets(kn: Known, blocks: seq<Block>) returns (targets: Targets)
    ensures targets == Loaded(kn, blocks).targets
  {
    var st := EMPTY;
    for i := 0 to |blocks|
      invariant st == Loaded(kn, blocks[..i])
    {
      assert blocks[..i + 1][..i] == blocks[..i];
      var b := blocks[i];
      if b.slug.None? || b.checks.None? {
        continue;
      }
      st := LoadBlock(kn, st, b.slug.value, b.checks.value);
      var gone := Repeated(st.counts, b.slug.value);
      st := st.(targets := st.targets.(ambiguous := st.targets.ambiguous + gone, modelHosts := st.targets.modelHosts - gone,
        modelBackendHosts := st.targets.modelBackendHosts - gone, modelBackendRepos := st.targets.modelBackendRepos - gone));
    }
    assert blocks[..|blocks|] == blocks;
    targets := st.targets;
  }

  method CountIds(checks: seq<Target>) returns (counts: map<string, nat>)
    ensures forall id :: (if id in counts then counts[id] else 0) == CountInBlock(checks, id)
  {
    counts := map[];
    for i := 0 to |checks|
      invariant forall id :: (if id in counts then counts[id] else 0) == CountInBlock(checks[..i], id)
    {
      assert checks[..i + 1][..i] == checks[..i];
      if checks[i].id.Some? {
        var id := Lower(checks[i].id.value);
        counts := counts[id := (if id in counts then counts[id] else 0) + 1];
      }
    }
    assert checks[..|checks|] == checks;
  }

  method LoadBlock(kn: Known, before: State, p: Slug, checks: seq<Target>) returns (st: State)
    ensures st == WithTargets(kn, before, p, Usable(checks, checks))
  {
    hide WithTarget;
    var counts := CountIds(checks);
    st := before;
    for i := 0 to |checks|
      invariant st == WithTargets(kn, before, p, Usable(checks, checks[..i]))
    {
      AtLeastItself(checks, i);
      UsableStep(checks, i);
      if checks[i].id.Some? && counts[Lower(checks[i].id.value)] <= 1 {
        OneMoreTarget(kn, before, p, Usable(checks, checks[..i]), checks[i]);
        st := WithTarget(kn, st, p, checks[i]);
      }
    }
    assert checks[..|checks|] == checks;
  }

  lemma UsableStep(block: seq<Target>, i: nat)
    requires i < |block|
    ensures Usable(block, block[..i + 1]) ==
      if IsUsable(block, block[i]) then Usable(block, block[..i]) + [block[i]] else Usable(block, block[..i])
  {
    assert block[..i + 1][..i] == block[..i];
  }

  lemma OneMoreTarget(kn: Known, st: State, p: Slug, ts: seq<Target>, t: Target)
    requires t.id.Some? && forall i :: 0 <= i < |ts| ==> ts[i].id.Some?
    ensures WithTargets(kn, st, p, ts + [t]) == WithTarget(kn, WithTargets(kn, st, p, ts), p, t)
  {
    assert (ts + [t])[..|ts + [t]| - 1] == ts;
  }

  lemma {:induction false} AtLeastItself(ts: seq<Target>, i: nat)
    requires i < |ts|
    ensures ts[i].id.Some? ==> CountInBlock(ts, Lower(ts[i].id.value)) >= 1
  {
    if i < |ts| - 1 {
      AtLeastItself(ts[..|ts| - 1], i);
    }
  }

  // ---------- What the model-level facts mean ----------

  /** The usable checks of the document with their providers. */
  function Paired(p: Slug, ts: seq<Target>): (r: seq<(Slug, Target)>)
    ensures |r| == |ts| && forall i :: 0 <= i < |ts| ==> r[i] == (p, ts[i])
  {
    if ts == [] then [] else Paired(p, ts[..|ts| - 1]) + [(p, ts[|ts| - 1])]
  }

  function AllUsable(blocks: seq<Block>): seq<(Slug, Target)> {
    if blocks == [] then []
    else
      var before, b := AllUsable(blocks[..|blocks| - 1]), blocks[|blocks| - 1];
      if b.slug.None? || b.checks.None? then before
      else before + Paired(b.slug.value, Usable(b.checks.value, b.checks.value))
  }

  predicate NamesModel(kn: Known, x: (Slug, Target), k: Key) {
    x.0 == k.0 && NamedModel(kn, x.0, x.1) == Some(k.1)
  }

  function TimesNamed(kn: Known, xs: seq<(Slug, Target)>, k: Key): nat {
    if xs == [] then 0 else TimesNamed(kn, xs[..|xs| - 1], k) + (if NamesModel(kn, xs[|xs| - 1], k) then 1 else 0)
  }

  lemma {:induction false} NamedAtLeastOnce(kn: Known, xs: seq<(Slug, Target)>, k: Key, i: nat)
    requires i < |xs| && NamesModel(kn, xs[i], k)
    ensures TimesNamed(kn, xs, k) >= 1
  {
    if i < |xs| - 1 {
      NamedAtLeastOnce(kn, xs[..|xs| - 1], k, i);
    }
  }

  predicate NoFacts(d: Targets, k: Key) {
    k !in d.modelHosts && k !in d.modelBackendHosts && k !in d.modelBackendRepos
  }

  function At(m: Lookup, k: Key): Option<string> {
    if k in m then Some(m[k]) else None
  }

  predicate FactsOf(d: Targets, k: Key, t: Target) {
    At(d.modelHosts, k) == t.host && At(d.modelBackendHosts, k) == t.backendHost && At(d.modelBackendRepos, k) == t.backendRepo
  }

  /** While a block is read: a model named once has that check's facts, one never named has none. */
  predicate FactsSoFar(kn: Known, st: State, xs: seq<(Slug, Target)>, k: Key) {
    && CountOf(st.counts, k) == TimesNamed(kn, xs, k)
    && (TimesNamed(kn, xs, k) == 0 ==> NoFacts(st.targets, k))
    && (TimesNamed(kn, xs, k) <= 1 ==> k !in st.targets.ambiguous)
    && (TimesNamed(kn, xs, k) == 1 ==> forall i :: 0 <= i < |xs| && NamesModel(kn, xs[i], k) ==> FactsOf(st.targets, k, xs[i].1))
  }

  predicate Settled(kn: Known, st: State, xs: seq<(Slug, Target)>, k: Key) {
    FactsSoFar(kn, st, xs, k) && (TimesNamed(kn, xs, k) > 1 ==> NoFacts(st.targets, k) && k in st.targets.ambiguous)
  }

  lemma OneTarget(kn: Known, st: State, xs: seq<(Slug, Target)>, p: Slug, t: Target, k: Key)
    requires t.id.Some? && FactsSoFar(kn, st, xs, k)
    ensures FactsSoFar(kn, WithTarget(kn, st, p, t), xs + [(p, t)], k)
    ensures k.0 != p && Settled(kn, st, xs, k) ==> Settled(kn, WithTarget(kn, st, p, t), xs + [(p, t)], k)
  {
    var all, more := xs + [(p, t)], WithTarget(kn, st, p, t);
    assert all[..|all| - 1] == xs;
    forall i | 0 <= i < |all| && NamesModel(kn, all[i], k) && TimesNamed(kn, all, k) == 1
      ensures FactsOf(more.targets, k, all[i].1)
    {
      if i < |xs| {
        assert all[i] == xs[i];
        NamedAtLeastOnce(kn, xs, k, i);
      }
    }
  }

  lemma {:induction false} ManyTargets(kn: Known, st: State, xs: seq<(Slug, Target)>, p: Slug, ts: seq<Target>, k: Key)
    requires (forall i :: 0 <= i < |ts| ==> ts[i].id.Some?) && FactsSoFar(kn, st, xs, k)
    ensures FactsSoFar(kn, WithTargets(kn, st, p, ts), xs + Paired(p, ts), k)
    ensures k.0 != p && Settled(kn, st, xs, k) ==> Settled(kn, WithTargets(kn, st, p, ts), xs + Paired(p, ts), k)
  {
    if ts == [] {
      assert xs + Paired(p, ts) == xs;
    } else {
      var front, last := ts[..|ts| - 1], ts[|ts| - 1];
      ManyTargets(kn, st, xs, p, front, k);
      OneTarget(kn, WithTargets(kn, st, p, front), xs + Paired(p, front), p, last, k);
      assert xs + Paired(p, ts) == xs + Paired(p, front) + [(p, last)];
    }
  }

  lemma PruningSettles(kn: Known, st: State, xs: seq<(Slug, Target)>, p: Slug, k: Key)
    requires FactsSoFar(kn, st, xs, k) && (k.0 != p ==> Settled(kn, st, xs, k))
    ensures Settled(kn, Pruned(st, p), xs, k)
  {
    assert k in Repeated(st.counts, p) <==> k.0 == p && TimesNamed(kn, xs, k) > 1;
  }

  /** In the loaded directory a model has model-level facts exactly when one usable check in the whole document
      names it, and then they are that check's; it is ambiguous exactly when several do. */
  lemma {:induction false} ModelFactsAreUnambiguous(kn: Known, blocks: seq<Block>, k: Key)
    ensures Settled(kn, Loaded(kn, blocks), AllUsable(blocks), k)
  {
    if blocks != [] {
      var front, b := blocks[..|blocks| - 1], blocks[|blocks| - 1];
      ModelFactsAreUnambiguous(kn, front, k);
      if b.slug.Some? && b.checks.Some? {
        var ts := Usable(b.checks.value, b.checks.value);
        ManyTargets(kn, Loaded(kn, front), AllUsable(front), b.slug.value, ts, k);
        PruningSettles(kn, WithTargets(kn, Loaded(kn, front), b.slug.value, ts), AllUsable(blocks), b.slug.value, k);
      }
    }
  }

  /** Some usable check of the provider names the model or, naming none, has a host known for it. */
  predicate Speaks(kn: Known, xs: seq<(Slug, Target)>, k: Key) {
    exists i :: 0 <= i < |xs| && xs[i].0 == k.0 && (NamesIt(kn, k.0, xs[i].1, k.1) || HostsIt(kn, k.0, xs[i].1, k.1))
  }

  lemma SpeaksOnceMore(kn: Known, st: State, xs: seq<(Slug, Target)>, p: Slug, t: Target, k: Key)
    requires t.id.Some? && (k in st.targets.targetModels <==> Speaks(kn, xs, k))
    ensures k in WithTarget(kn, st, p, t).targets.targetModels <==> Speaks(kn, xs + [(p, t)], k)
  {
    hide CheckModel, NamesIt, HostsIt, NamedModel, Inferred;
    var all := xs + [(p, t)];
    assert all[|xs|] == (p, t) && forall i :: 0 <= i < |xs| ==> all[i] == xs[i];
    CheckModelExactly(kn, p, t, k.1);
  }

  lemma {:induction false} SpeaksSoFar(kn: Known, st: State, xs: seq<(Slug, Target)>, p: Slug, ts: seq<Target>, k: Key)
    requires (forall i :: 0 <= i < |ts| ==> ts[i].id.Some?) && (k in st.targets.targetModels <==> Speaks(kn, xs, k))
    ensures k in WithTargets(kn, st, p, ts).targets.targetModels <==> Speaks(kn, xs + Paired(p, ts), k)
  {
    hide WithTarget, Speaks;
    if ts == [] {
      assert xs + Paired(p, ts) == xs;
    } else {
      var front, last := ts[..|ts| - 1], ts[|ts| - 1];
      SpeaksSoFar(kn, st, xs, p, front, k);
      SpeaksOnceMore(kn, WithTargets(kn, st, p, front), xs + Paired(p, front), p, last, k);
      assert xs + Paired(p, ts) == xs + Paired(p, front) + [(p, last)];
    }
  }

  /** The models that count as targeted are exactly those that the document's usable checks stand for. */
  lemma {:induction false} TargetModelsExactly(kn: Known, blocks: seq<Block>, k: Key)
    ensures k in Loaded(kn, blocks).targets.targetModels <==> Speaks(kn, AllUsable(blocks), k)
  {
    hide WithTargets, Usable;
    if blocks != [] {
      var front, b := blocks[..|blocks| - 1], blocks[|blocks| - 1];
      TargetModelsExactly(kn, front, k);
      if b.slug.Some? && b.checks.Some? {
        SpeaksSoFar(kn, Loaded(kn, front), AllUsable(front), b.slug.value, Usable(b.checks.value, b.checks.value), k);
      }
    }
  }

  // ---------- Check ids across blocks ----------

  /** What a check id is looked up for. */
  datatype Fact = HostFact | ModelFact | BackendHostFact | BackendRepoFact

  function Declared(kn: Known, f: Fact, x: (Slug, Target)): Option<string> {
    match f
    case HostFact => x.1.host
    case ModelFact => CheckModel(kn, x.0, x.1)
    case BackendHostFact => x.1.backendHost
    case BackendRepoFact => x.1.backendRepo
  }

  function LookupFor(d: Targets, f: Fact): Lookup {
    match f
    case HostFact => d.checkHosts
    case ModelFact => d.checkModels
    case BackendHostFact => d.checkBackendHosts
    case BackendRepoFact => d.checkBackendRepos
  }

  predicate HasId(x: (Slug, Target), k: Key) {
    x.0 == k.0 && Lowered(x.1.id) == Some(k.1)
  }

  /** A check with this id that declares the fact. */
  predicate Declares(kn: Known, f: Fact, x: (Slug, Target), k: Key) {
    HasId(x, k) && Declared(kn, f, x).Some?
  }

  /** The fact as the last usable check with this id that has it declares it. */
  function LastDeclared(kn: Known, f: Fact, xs: seq<(Slug, Target)>, k: Key): Option<string> {
    if xs == [] then None
    else if Declares(kn, f, xs[|xs| - 1], k) then Declared(kn, f, xs[|xs| - 1])
    else LastDeclared(kn, f, xs[..|xs| - 1], k)
  }

  lemma OneCheckFact(kn: Known, st: State, f: Fact, xs: seq<(Slug, Target)>, p: Slug, t: Target, k: Key)
    requires t.id.Some? && At(LookupFor(st.targets, f), k) == LastDeclared(kn, f, xs, k)
    ensures At(LookupFor(WithTarget(kn, st, p, t).targets, f), k) == LastDeclared(kn, f, xs + [(p, t)], k)
  {
    hide CheckModel, NamedModel, Inferred;
    var all := xs + [(p, t)];
    assert all[..|all| - 1] == xs && all[|all| - 1] == (p, t);
  }

  lemma {:induction false} CheckFactsSoFar(kn: Known, st: State, f: Fact, xs: seq<(Slug, Target)>, p: Slug, ts: seq<Target>, k: Key)
    requires (forall i :: 0 <= i < |ts| ==> ts[i].id.Some?) && At(LookupFor(st.targets, f), k) == LastDeclared(kn, f, xs, k)
    ensures At(LookupFor(WithTargets(kn, st, p, ts).targets, f), k) == LastDeclared(kn, f, xs + Paired(p, ts), k)
  {
    hide LookupFor, WithTarget, LastDeclared;
    if ts == [] {
      assert xs + Paired(p, ts) == xs;
    } else {
      var front, last := ts[..|ts| - 1], ts[|ts| - 1];
      CheckFactsSoFar(kn, st, f, xs, p, front, k);
      OneCheckFact(kn, WithTargets(kn, st, p, front), f, xs + Paired(p, front), p, last, k);
      assert xs + Paired(p, ts) == xs + Paired(p, front) + [(p, last)];
    }
  }

  /** Repeated check ids are detected within one provider entry only. Across entries of one provider an id resolves,
      fact by fact, to the last usable check that declares the fact. */
  lemma {:induction false} LastDeclaredWins(kn: Known, blocks: seq<Block>, f: Fact, k: Key)
    ensures At(LookupFor(Loaded(kn, blocks).targets, f), k) == LastDeclared(kn, f, AllUsable(blocks), k)
  {
    hide LastDeclared, WithTargets, Usable;
    if blocks == [] {
      NothingDeclared(kn, f, k);
    } else {
      var front, b := blocks[..|blocks| - 1], blocks[|blocks| - 1];
      LastDeclaredWins(kn, front, f, k);
      if b.slug.Some? && b.checks.Some? {
        CheckFactsSoFar(kn, Loaded(kn, front), f, AllUsable(front), b.slug.value, Usable(b.checks.value, b.checks.value), k);
      }
    }
  }

  lemma NothingDeclared(kn: Known, f: Fact, k: Key)
    ensures LastDeclared(kn, f, [], k) == None && At(LookupFor(EMPTY.targets, f), k) == None
  {
  }

  predicate DeclareAlike(kn: Known, f: Fact, xs: seq<(Slug, Target)>, k: Key) {
    forall i, j :: 0 <= i < |xs| && 0 <= j < |xs| && Declares(kn, f, xs[i], k) && Declares(kn, f, xs[j], k) ==>
      Declared(kn, f, xs[i]) == Declared(kn, f, xs[j])
  }

  /** The id resolves, for every check that declares the fact, to what that check declares. */
  predicate ResolvesForAll(kn: Known, d: Targets, f: Fact, xs: seq<(Slug, Target)>, k: Key) {
    forall i :: 0 <= i < |xs| && Declares(kn, f, xs[i], k) ==> At(LookupFor(d, f), k) == Declared(kn, f, xs[i])
  }

  lemma {:induction false} LastDeclaredIsDeclared(kn: Known, f: Fact, xs: seq<(Slug, Target)>, k: Key)
    ensures LastDeclared(kn, f, xs, k).Some? <==> exists i :: 0 <= i < |xs| && Declares(kn, f, xs[i], k)
    ensures LastDeclared(kn, f, xs, k).Some? ==>
      exists i :: 0 <= i < |xs| && Declares(kn, f, xs[i], k) && Declared(kn, f, xs[i]) == LastDeclared(kn, f, xs, k)
  {
    hide CheckModel;
    if xs != [] {
      var front := xs[..|xs| - 1];
      LastDeclaredIsDeclared(kn, f, front, k);
      assert forall i :: 0 <= i < |front| ==> front[i] == xs[i];
      if LastDeclared(kn, f, front, k).Some? {
        var i :| 0 <= i < |front| && Declares(kn, f, front[i], k) && Declared(kn, f, front[i]) == LastDeclared(kn, f, front, k);
        assert Declares(kn, f, xs[i], k);
      }
    }
  }

  /** A check id resolves alike for all its checks if and only if those that declare a fact agree on it. */
  lemma ResolvesForAllIff(kn: Known, blocks: seq<Block>, f: Fact, k: Key)
    ensures ResolvesForAll(kn, Loaded(kn, blocks).targets, f, AllUsable(blocks), k) <==> DeclareAlike(kn, f, AllUsable(blocks), k)
  {
    hide LastDeclared, Declared, Declares, LookupFor, Loaded, AllUsable;
    LastDeclaredWins(kn, blocks, f, k);
    LastDeclaredIsDeclared(kn, f, AllUsable(blocks), k);
  }

  /** Two entries of one provider with the same check id: the id resolves to the host of the second and the model
      of the first, a pair that no check declares. */
  lemma EntriesMixFacts(kn: Known)
    ensures var first := Target(Some("a"), Some("h1"), Some("m1"), false, None, None);
      var second := Target(Some("a"), Some("h2"), None, false, None, None);
      var d := Loaded(kn, [Block(Some(Ppq), Some([first])), Block(Some(Ppq), Some([second]))]).targets;
      At(d.checkHosts, (Ppq, "a")) == Some("h2") && At(d.checkModels, (Ppq, "a")) == Some("m1")
  {
    var first := Target(Some("a"), Some("h1"), Some("m1"), false, None, None);
    var second := Target(Some("a"), Some("h2"), None, false, None, None);
    assert Lower("a") == "a" && Lower("m1") == "m1" by {
      assert "a"[1..] == "" && "m1"[1..] == "1" && "1"[1..] == "";
    }
    LaterOmitsTheModel(kn, first, second, "a", "h2", "m1");
  }

  /** The general family: the later check has a host and no model, the earlier one names a model. */
  lemma LaterOmitsTheModel(kn: Known, first: Target, second: Target, id: string, host: string, model: string)
    requires Lowered(first.id) == Some(id) == Lowered(second.id)
    requires Lowered(first.model) == Some(model) && second.model.None? && second.host == Some(host)
    ensures var d := Loaded(kn, [Block(Some(Ppq), Some([first])), Block(Some(Ppq), Some([second]))]).targets;
      At(d.checkHosts, (Ppq, id)) == Some(host) && At(d.checkModels, (Ppq, id)) == Some(model)
  {
    hide Loaded, Lower;
    var k: Key := (Ppq, id);
    var blocks := [Block(Some(Ppq), Some([first])), Block(Some(Ppq), Some([second]))];
    TwoEntries(first, second);
    var xs := AllUsable(blocks);
    assert xs[..1] == [(Ppq, first)];
    LastDeclaredWins(kn, blocks, HostFact, k);
    LastDeclaredWins(kn, blocks, ModelFact, k);
    assert CheckModel(kn, Ppq, second) == None && CheckModel(kn, Ppq, first) == Some(model);
    assert Declares(kn, HostFact, xs[1], k) && !Declares(kn, ModelFact, xs[1], k);
    assert Declares(kn, ModelFact, xs[..1][0], k);
  }

  lemma TwoEntries(first: Target, second: Target)
    requires first.id.Some? && second.id.Some?
    ensures AllUsable([Block(Some(Ppq), Some([first])), Block(Some(Ppq), Some([second]))]) == [(Ppq, first), (Ppq, second)]
  {
    hide Lower, Usable, Paired;
    var blocks := [Block(Some(Ppq), Some([first])), Block(Some(Ppq), Some([second]))];
    AloneIsUsable(Ppq, first);
    AloneIsUsable(Ppq, second);
    assert blocks[..1] == [blocks[0]] && blocks[..1][..0] == [];
    assert AllUsable(blocks[..1]) == [(Ppq, first)];
    assert AllUsable(blocks) == [(Ppq, first)] + [(Ppq, second)];
  }

  lemma AloneIsUsable(p: Slug, t: Target)
    requires t.id.Some?
    ensures Paired(p, Usable([t], [t])) == [(p, t)]
  {
    assert [t][..0] == [];
    assert CountInBlock([t], Lower(t.id.value)) == 1;
    assert Usable([t], [t]) == [t];
  }
}
