/** One row of an attestation results document: which host and model it is about, and what it is worth. */
module ResultRows {
  import opened Wrappers
  import opened Text

  /** A provider's lowercased name. */
  datatype Slug = Tinfoil | Privatemode | Ppq | Named(name: string)

  /** A row's status, compared case-insensitively. */
  datatype Standing = Verified | Failed | Reported(other: string)

  datatype Field = TlsMatches | SigstoreMatch | SigstoreBundle | Images
    | BackendTls | BackendSigstore | BackendBundle | BackendImages

  datatype Digest = Release | BackendRelease

  /** The row's own timestamp: absent, unreadable, or a time. */
  datatype Stamp = NoStamp | BadStamp | At(time: int)

  /** A row as parsed: text is stripped and blank text is None. `fields` tells for each flag that is present
      whether it is true, `digests` which digests are valid, `shapedFor` the models for which the selected-model
      proof is well formed, `namedRouter` whether id or label mention a router. */
  datatype Check = Check(
    provider: Option<Slug>,
    status: Option<Standing>,
    checkId: Option<string>,
    host: Option<string>,
    urlHost: Option<string>,
    model: Option<string>,
    error: Option<string>,
    namedRouter: bool,
    fields: map<Field, bool>,
    digests: set<Digest>,
    appE2ee: bool,
    shapedFor: set<string>,
    backendHost: Option<string>,
    backendRepo: Option<string>,
    stamp: Stamp)

  datatype Issue = Given(text: string) | ModelMismatch | HostMismatch | DuplicateCheck | TlsNotBound
    | InvalidDigest(d: Digest) | Missing(f: Field) | NotTrue(f: Field) | TierRequired | BadShape
    | AmbiguousModel | BackendHostMismatch | BackendRepoMismatch | NotTargeted | NotFresh
    | DuplicateHost | DuplicateModel

  type Lookup = map<(Slug, string), string>

  /** The targets directory; keys pair the provider with a lowercased check id or model. */
  datatype Targets = Targets(
    checkHosts: Lookup,
    checkModels: Lookup,
    targetModels: set<(Slug, string)>,
    checkBackendHosts: Lookup,
    checkBackendRepos: Lookup,
    modelBackendHosts: Lookup,
    modelBackendRepos: Lookup,
    modelHosts: Lookup,
    ambiguous: set<(Slug, string)>)

  /** The loader's parameters; times and ages are in one unit. */
  datatype Setting = Setting(
    targets: Option<Targets>,
    routerHost: string,
    maxAge: Option<nat>,
    now: int,
    documentTime: Option<int>)

  function Look(m: Lookup, p: Slug, key: Option<string>): Option<string> {
    if key.Some? && (p, key.value) in m then Some(m[(p, key.value)]) else None
  }

  function Lowered(s: Option<string>): Option<string> {
    if s.Some? then Some(Lower(s.value)) else None
  }

  function Or(a: Option<string>, b: Option<string>): Option<string> {
    if a.Some? then a else b
  }

  // ---------- What a row is about ----------

  /** The host and model a row counts for, and what the targets say about it. */
  datatype Subject = Subject(provider: Slug, host: string, model: Option<string>, modelMismatch: bool, hostMismatch: bool)

  function TargetHost(t: Targets, p: Slug, c: Check): Option<string> {
    Or(Look(t.checkHosts, p, Lowered(c.checkId)), Look(t.modelHosts, p, Lowered(c.model)))
  }

  function TargetModel(t: Targets, p: Slug, c: Check): Option<string> {
    Look(t.checkModels, p, Lowered(c.checkId))
  }

  predicate ModelMismatches(t: Targets, p: Slug, c: Check) {
    var target := TargetModel(t, p, c);
    c.model.Some? && target.Some? && Lower(c.model.value) != target.value
  }

  predicate HostMismatches(t: Targets, p: Slug, c: Check) {
    var own, target := Or(c.host, c.urlHost), TargetHost(t, p, c);
    && own.Some? && target.Some? && own != target
    && (TargetModel(t, p, c).Some? || Look(t.modelHosts, p, Lowered(c.model)).Some?)
  }

  /** None: the row is skipped. */
  function SubjectOf(s: Setting, c: Check): Option<Subject> {
    if c.provider.None? || c.status.None? then None
    else
      var p, own := c.provider.value, Or(c.host, c.urlHost);
      var host := if s.targets.Some? then Or(own, TargetHost(s.targets.value, p, c)) else own;
      var model := if s.targets.Some? then Or(c.model, TargetModel(s.targets.value, p, c)) else c.model;
      if host.None? then None
      else
        var router := p == Tinfoil && (host.value == s.routerHost || c.namedRouter);
        Some(Subject(p, host.value,
                     if router || model.None? then None else Some(Lower(Strip(model.value))),
                     s.targets.Some? && ModelMismatches(s.targets.value, p, c),
                     s.targets.Some? && HostMismatches(s.targets.value, p, c)))
  }

  /** What the directory has under the row's own name for a key. */
  predicate Says(m: Lookup, p: Slug, name: Option<string>, value: Option<string>) {
    if name.Some? && (p, Lower(name.value)) in m then value == Some(m[(p, Lower(name.value))]) else value == None
  }

  /** The target's model goes by the check id alone; its host by the check id and, where that has none, by the model
      the row names. */
  lemma TargetsExactly(t: Targets, p: Slug, c: Check)
    ensures Says(t.checkModels, p, c.checkId, TargetModel(t, p, c))
    ensures Says(t.checkHosts, p, c.checkId, TargetHost(t, p, c))
         || (Says(t.checkHosts, p, c.checkId, None) && Says(t.modelHosts, p, c.model, TargetHost(t, p, c)))
  {
    hide Lower;
  }

  /** Which rows are skipped, and what the others count for: the row's own host before the one of its URL before the
      target's, the row's own model before the target's, none for a router; and when that contradicts the target. */
  lemma SubjectExactly(s: Setting, c: Check)
    requires c.provider.Some? && c.status.Some?
    ensures var p, host := c.provider.value, if s.targets.Some? then TargetHost(s.targets.value, c.provider.value, c) else None;
      var named := if s.targets.Some? then TargetModel(s.targets.value, p, c) else None;
      && (SubjectOf(s, c).None? <==> c.host.None? && c.urlHost.None? && host.None?)
      && (SubjectOf(s, c).Some? ==> var about := SubjectOf(s, c).value;
            && about.provider == p
            && Some(about.host) == (if c.host.Some? then c.host else if c.urlHost.Some? then c.urlHost else host)
            && (about.model.None? <==> (p == Tinfoil && (c.namedRouter || about.host == s.routerHost)) || (c.model.None? && named.None?))
            && (about.model.Some? ==> about.model.value == Lower(Strip(if c.model.Some? then c.model.value else named.value)))
            && (about.modelMismatch <==> c.model.Some? && named.Some? && Lower(c.model.value) != named.value)
            && (about.hostMismatch <==>
                  && (c.host.Some? || c.urlHost.Some?) && host.Some? && host.value != about.host
                  && (named.Some? || (c.model.Some? && (p, Lower(c.model.value)) in s.targets.value.modelHosts))))
  {
    hide Strip, Lower;
  }

  /** A row without mismatches counts for the host and, routers aside, for the model of its target, whether it
      names them itself or leaves them to the target. */
  lemma UnmismatchedRowIsItsTarget(s: Setting, c: Check)
    requires SubjectOf(s, c).Some? && s.targets.Some? && TargetModel(s.targets.value, c.provider.value, c).Some?
    requires c.model.Some? ==> Strip(c.model.value) == c.model.value
    requires var m := TargetModel(s.targets.value, c.provider.value, c).value; Strip(m) == m == Lower(m)
    requires !SubjectOf(s, c).value.modelMismatch && !SubjectOf(s, c).value.hostMismatch
    ensures var about, t := SubjectOf(s, c).value, s.targets.value;
      && (about.model.Some? ==> about.model == TargetModel(t, about.provider, c))
      && (about.model.None? ==> about.provider == Tinfoil && (c.namedRouter || about.host == s.routerHost))
      && (TargetHost(t, about.provider, c).Some? ==> TargetHost(t, about.provider, c) == Some(about.host))
  {
    hide Strip, Lower, Look;
  }

  // ---------- What a row is worth ----------

  datatype Ruling = Ruling(standing: Standing, issue: Option<Issue>)

  function Fail(i: Issue): Ruling {
    Ruling(Failed, Some(i))
  }

  function FirstBad(fields: seq<Field>, values: map<Field, bool>): Option<Issue> {
    if fields == [] then None
    else if fields[0] !in values then Some(Missing(fields[0]))
    else if !values[fields[0]] then Some(NotTrue(fields[0]))
    else FirstBad(fields[1..], values)
  }

  function FieldsRuling(fields: seq<Field>, c: Check, r: Ruling): Ruling {
    if r.standing != Verified then r
    else match FirstBad(fields, c.fields)
    case None => r
    case Some(i) => Fail(i)
  }

  function DigestRuling(d: Digest, c: Check, r: Ruling): Ruling {
    if r.standing == Verified && d !in c.digests then Fail(InvalidDigest(d)) else r
  }

  const TINFOIL_FIELDS := [SigstoreMatch, SigstoreBundle, Images]

  const PPQ_FIELDS := [BackendTls, BackendSigstore, BackendBundle, BackendImages]

  function TinfoilRuling(c: Check, r: Ruling): Ruling {
    if r.standing != Verified then r
    else if TlsMatches !in c.fields || !c.fields[TlsMatches] then Fail(TlsNotBound)
    else FieldsRuling(TINFOIL_FIELDS, c, DigestRuling(Release, c, r))
  }

  function PrivatemodeRuling(c: Check, model: Option<string>, r: Ruling): Ruling {
    if r.standing != Verified then r
    else if !c.appE2ee then Fail(TierRequired)
    else if model.Some? && model.value !in c.shapedFor then Fail(BadShape)
    else r
  }

  function Expected(byCheck: Lookup, byModel: Lookup, p: Slug, c: Check, model: string): Option<string> {
    Or(Look(byCheck, p, Some(if c.checkId.Some? then Lower(c.checkId.value) else "")), Look(byModel, p, Some(model)))
  }

  function BackendRuling(t: Targets, p: Slug, c: Check, model: string, r: Ruling): Ruling {
    var known := if c.checkId.None? && (p, model) in t.ambiguous then Fail(AmbiguousModel) else r;
    var host := Expected(t.checkBackendHosts, t.modelBackendHosts, p, c, model);
    var hosted := if host.Some? && c.backendHost != host then Fail(BackendHostMismatch) else known;
    var repo := Expected(t.checkBackendRepos, t.modelBackendRepos, p, c, model);
    if hosted.standing == Verified && repo.Some? && c.backendRepo != repo then Fail(BackendRepoMismatch) else hosted
  }

  function PpqRuling(s: Setting, c: Check, model: Option<string>, r: Ruling): Ruling {
    if r.standing != Verified || model.None? then r
    else
      var targeted := if s.targets.Some? then BackendRuling(s.targets.value, Ppq, c, model.value, r) else r;
      FieldsRuling(PPQ_FIELDS, c, DigestRuling(BackendRelease, c, DigestRuling(Release, c, targeted)))
  }

  predicate Targeted(t: Targets, p: Slug, model: string) {
    (p, model) in t.targetModels || exists k :: k in t.checkModels && k.0 == p && t.checkModels[k] == model
  }

  function TargetedRuling(s: Setting, p: Slug, model: Option<string>, r: Ruling): Ruling {
    if r.standing == Verified && model.Some? && model.value != "" && s.targets.Some? && !Targeted(s.targets.value, p, model.value)
      then Fail(NotTargeted)
    else r
  }

  function ProviderRuling(s: Setting, p: Slug, c: Check, model: Option<string>, r: Ruling): Ruling {
    match p
    case Tinfoil => TinfoilRuling(c, r)
    case Privatemode => TargetedRuling(s, p, model, PrivatemodeRuling(c, model, r))
    case Ppq => TargetedRuling(s, p, model, PpqRuling(s, c, model, r))
    case Named(_) => r
  }

  /** The time a row is dated: its own, or the document's when it has none; an unreadable one dates nothing. */
  function TimeOf(s: Setting, c: Check): Option<int> {
    match c.stamp
    case NoStamp => s.documentTime
    case BadStamp => None
    case At(t) => Some(t)
  }

  predicate Fresh(s: Setting, c: Check) {
    s.maxAge.Some? ==> TimeOf(s, c).Some? && 0 <= s.now - TimeOf(s, c).value <= s.maxAge.value
  }

  function FreshRuling(s: Setting, c: Check, r: Ruling): Ruling {
    if r.standing == Verified && !Fresh(s, c) then Fail(NotFresh) else r
  }

  /** The ruling before rows are compared with each other; `duplicate` tells whether the check id repeats. */
  function RulingOf(s: Setting, c: Check, about: Subject, duplicate: bool): Ruling
    requires c.status.Some?
  {
    var own := Ruling(c.status.value, if c.error.Some? then Some(Given(c.error.value)) else None);
    var modelled := if about.modelMismatch then Fail(ModelMismatch) else own;
    var hosted := if about.hostMismatch then Fail(HostMismatch) else modelled;
    var unique := if duplicate then Fail(DuplicateCheck) else hosted;
    FreshRuling(s, c, ProviderRuling(s, about.provider, c, about.model, unique))
  }

  // ---------- When a row verifies ----------

  ghost predicate AllTrue(fields: seq<Field>, values: map<Field, bool>) {
    forall f :: f in fields ==> f in values && values[f]
  }

  lemma {:induction false} FirstBadIff(fields: seq<Field>, values: map<Field, bool>)
    ensures FirstBad(fields, values).None? <==> AllTrue(fields, values)
  {
    if fields != [] {
      FirstBadIff(fields[1..], values);
      assert fields == [fields[0]] + fields[1..];
    }
  }

  ghost predicate TinfoilProved(c: Check) {
    AllTrue([TlsMatches] + TINFOIL_FIELDS, c.fields) && Release in c.digests
  }

  predicate PrivatemodeProved(c: Check, model: Option<string>) {
    c.appE2ee && (model.Some? ==> model.value in c.shapedFor)
  }

  predicate BackendProved(t: Targets, c: Check, model: string) {
    && (c.checkId.None? ==> (Ppq, model) !in t.ambiguous)
    && (var host := Expected(t.checkBackendHosts, t.modelBackendHosts, Ppq, c, model); host.Some? ==> c.backendHost == host)
    && (var repo := Expected(t.checkBackendRepos, t.modelBackendRepos, Ppq, c, model); repo.Some? ==> c.backendRepo == repo)
  }

  ghost predicate PpqProved(s: Setting, c: Check, model: Option<string>) {
    model.Some? ==>
      && (s.targets.Some? ==> BackendProved(s.targets.value, c, model.value))
      && Release in c.digests && BackendRelease in c.digests && AllTrue(PPQ_FIELDS, c.fields)
  }

  predicate ModelTargeted(s: Setting, p: Slug, model: Option<string>) {
    model.Some? && model.value != "" && s.targets.Some? ==> Targeted(s.targets.value, p, model.value)
  }

  /** What each provider must have shown. */
  ghost predicate Proved(s: Setting, p: Slug, c: Check, model: Option<string>) {
    match p
    case Tinfoil => TinfoilProved(c)
    case Privatemode => PrivatemodeProved(c, model) && ModelTargeted(s, p, model)
    case Ppq => PpqProved(s, c, model) && ModelTargeted(s, p, model)
    case Named(_) => true
  }

  lemma TinfoilVerifiesIff(c: Check, r: Ruling)
    ensures TinfoilRuling(c, r).standing == Verified <==> r.standing == Verified && TinfoilProved(c)
  {
    FirstBadIff(TINFOIL_FIELDS, c.fields);
    assert AllTrue([TlsMatches] + TINFOIL_FIELDS, c.fields) <==> TlsMatches in c.fields && c.fields[TlsMatches] && AllTrue(TINFOIL_FIELDS, c.fields) by {
      assert forall f :: f in [TlsMatches] + TINFOIL_FIELDS <==> f == TlsMatches || f in TINFOIL_FIELDS;
    }
  }

  lemma PpqVerifiesIff(s: Setting, c: Check, model: Option<string>, r: Ruling)
    ensures PpqRuling(s, c, model, r).standing == Verified <==> r.standing == Verified && PpqProved(s, c, model)
  {
    FirstBadIff(PPQ_FIELDS, c.fields);
  }

  /** A row verifies if and only if it says so and every gate is met: target match, unique check id, the
      provider's own proof, and freshness. */
  lemma RowVerifiesIff(s: Setting, c: Check, about: Subject, duplicate: bool)
    requires c.status.Some?
    ensures RulingOf(s, c, about, duplicate).standing == Verified <==>
      && c.status.value == Verified
      && !about.modelMismatch && !about.hostMismatch && !duplicate
      && Proved(s, about.provider, c, about.model) && Fresh(s, c)
  {
    var own := Ruling(c.status.value, if c.error.Some? then Some(Given(c.error.value)) else None);
    var modelled := if about.modelMismatch then Fail(ModelMismatch) else own;
    var hosted := if about.hostMismatch then Fail(HostMismatch) else modelled;
    var unique := if duplicate then Fail(DuplicateCheck) else hosted;
    match about.provider {
      case Tinfoil => TinfoilVerifiesIff(c, unique);
      case Ppq => PpqVerifiesIff(s, c, about.model, unique);
      case _ =>
    }
  }

  /** What must hold besides for a row to verify: the time it is dated by is its own or, when it has none, the
      document's, and lies neither in the future nor further back than the age allowed. */
  lemma FreshExactly(s: Setting, c: Check)
    ensures Fresh(s, c) <==>
      || s.maxAge.None?
      || exists time :: (c.stamp == At(time) || (c.stamp == NoStamp && s.documentTime == Some(time))) && s.now - s.maxAge.value <= time <= s.now
  {
    if Fresh(s, c) && s.maxAge.Some? {
      var time := TimeOf(s, c).value;
      assert c.stamp == At(time) || (c.stamp == NoStamp && s.documentTime == Some(time));
    }
  }

  /** A model is targeted when a check names it or some check id of the provider stands for it. */
  lemma TargetedExactly(t: Targets, p: Slug, model: string)
    ensures Targeted(t, p, model) <==> (p, model) in t.targetModels || exists id :: (p, id) in t.checkModels && t.checkModels[(p, id)] == model
  {
    if k :| k in t.checkModels && k.0 == p && t.checkModels[k] == model {
      assert (p, k.1) in t.checkModels && t.checkModels[(p, k.1)] == model;
    }
  }

  /** The backend facts go by the check id and, where that has none, by the model. */
  lemma ExpectedExactly(byCheck: Lookup, byModel: Lookup, p: Slug, c: Check, model: string)
    ensures var id := if c.checkId.Some? then Lower(c.checkId.value) else "";
      Expected(byCheck, byModel, p, c, model) ==
        if (p, id) in byCheck then Some(byCheck[(p, id)]) else if (p, model) in byModel then Some(byModel[(p, model)]) else None
  {
    hide Lower;
  }

  // ---------- Why a row fails ----------

  datatype Gate = Gate(open: bool, issue: Issue)

  function FirstClosed(gates: seq<Gate>): Option<Issue> {
    if gates == [] then None else if gates[0].open then FirstClosed(gates[1..]) else Some(gates[0].issue)
  }

  lemma {:induction false} FirstClosedSplits(gates: seq<Gate>, more: seq<Gate>)
    ensures FirstClosed(gates + more) == if FirstClosed(gates).Some? then FirstClosed(gates) else FirstClosed(more)
  {
    if gates == [] {
      assert gates + more == more;
    } else {
      assert (gates + more)[1..] == gates[1..] + more;
      FirstClosedSplits(gates[1..], more);
    }
  }

  function FieldGates(fields: seq<Field>, values: map<Field, bool>): seq<Gate> {
    if fields == [] then []
    else [Gate(fields[0] in values, Missing(fields[0])), Gate(fields[0] in values && values[fields[0]], NotTrue(fields[0]))]
         + FieldGates(fields[1..], values)
  }

  lemma {:induction false} FieldsInOrder(fields: seq<Field>, values: map<Field, bool>)
    ensures FirstClosed(FieldGates(fields, values)) == FirstBad(fields, values)
  {
    if fields != [] {
      var first := [Gate(fields[0] in values, Missing(fields[0])), Gate(fields[0] in values && values[fields[0]], NotTrue(fields[0]))];
      FieldsInOrder(fields[1..], values);
      FirstClosedSplits(first, FieldGates(fields[1..], values));
      assert first[1..] == [first[1]] && first[1..][1..] == [];
    }
  }

  function BackendGates(t: Targets, c: Check, model: string): seq<Gate> {
    var host := Expected(t.checkBackendHosts, t.modelBackendHosts, Ppq, c, model);
    var repo := Expected(t.checkBackendRepos, t.modelBackendRepos, Ppq, c, model);
    [Gate(host.None? || c.backendHost == host, BackendHostMismatch),
     Gate(c.checkId.Some? || (Ppq, model) !in t.ambiguous, AmbiguousModel),
     Gate(repo.None? || c.backendRepo == repo, BackendRepoMismatch)]
  }

  function TargetGates(s: Setting, p: Slug, model: Option<string>): seq<Gate> {
    if model.Some? && model.value != "" && s.targets.Some? then [Gate(Targeted(s.targets.value, p, model.value), NotTargeted)] else []
  }

  /** What each provider is asked, in the order in which a failure is reported. */
  function GatesOf(s: Setting, p: Slug, c: Check, model: Option<string>): seq<Gate> {
    match p
    case Tinfoil =>
      [Gate(TlsMatches in c.fields && c.fields[TlsMatches], TlsNotBound), Gate(Release in c.digests, InvalidDigest(Release))]
      + FieldGates([SigstoreMatch, SigstoreBundle, Images], c.fields)
    case Privatemode =>
      [Gate(c.appE2ee, TierRequired), Gate(model.None? || model.value in c.shapedFor, BadShape)] + TargetGates(s, p, model)
    case Ppq =>
      if model.None? then []
      else (if s.targets.Some? then BackendGates(s.targets.value, c, model.value) else [])
           + [Gate(Release in c.digests, InvalidDigest(Release)), Gate(BackendRelease in c.digests, InvalidDigest(BackendRelease))]
           + FieldGates([BackendTls, BackendSigstore, BackendBundle, BackendImages], c.fields)
           + TargetGates(s, p, model)
    case Named(_) => []
  }

  predicate ClaimIssue(i: Issue) {
    i == DuplicateCheck || i == HostMismatch || i == ModelMismatch
  }

  lemma {:induction false} FieldIssues(fields: seq<Field>, values: map<Field, bool>)
    ensures FirstBad(fields, values).Some? ==> FirstBad(fields, values).value.Missing? || FirstBad(fields, values).value.NotTrue?
  {
    if fields != [] {
      FieldIssues(fields[1..], values);
    }
  }

  /** No gate fails a row for what it claims to be. */
  lemma GateIssues(s: Setting, p: Slug, c: Check, model: Option<string>)
    ensures FirstClosed(GatesOf(s, p, c, model) + [Gate(Fresh(s, c), NotFresh)]).Some? ==>
      !ClaimIssue(FirstClosed(GatesOf(s, p, c, model) + [Gate(Fresh(s, c), NotFresh)]).value)
  {
    hide GatesOf, Fresh;
    var r := Ruling(Verified, None);
    var last := Gate(Fresh(s, c), NotFresh);
    TwoGates(last, last);
    FirstClosedSplits(GatesOf(s, p, c, model), [last]);
    ProviderRulingByGates(s, p, c, model, r);
    RulingIssues(s, p, c, model, r);
  }

  lemma RulingIssues(s: Setting, p: Slug, c: Check, model: Option<string>, r: Ruling)
    requires r == Ruling(Verified, None)
    ensures ProviderRuling(s, p, c, model, r).issue.Some? ==> !ClaimIssue(ProviderRuling(s, p, c, model, r).issue.value)
  {
    FieldIssues(TINFOIL_FIELDS, c.fields);
    FieldIssues(PPQ_FIELDS, c.fields);
  }

  function RulingBy(gates: seq<Gate>, r: Ruling): Ruling {
    if FirstClosed(gates).Some? then Fail(FirstClosed(gates).value) else r
  }

  lemma RulingBySplits(gates: seq<Gate>, more: seq<Gate>, r: Ruling)
    ensures RulingBy(gates + more, r) == if FirstClosed(gates).Some? then RulingBy(gates, r) else RulingBy(more, r)
  {
    FirstClosedSplits(gates, more);
  }

  lemma TwoGates(g: Gate, h: Gate)
    ensures FirstClosed([g, h]) == if !g.open then Some(g.issue) else if !h.open then Some(h.issue) else None
    ensures FirstClosed([g]) == if !g.open then Some(g.issue) else None
  {
    assert [g, h][1..] == [h] && [h][1..] == [] && [g][1..] == [];
    assert FirstClosed([h]) == if h.open then FirstClosed([]) else Some(h.issue);
  }

  lemma ProviderRulingByGates(s: Setting, p: Slug, c: Check, model: Option<string>, r: Ruling)
    requires r.standing == Verified
    ensures ProviderRuling(s, p, c, model, r) == RulingBy(GatesOf(s, p, c, model), r)
  {
    match p {
      case Tinfoil =>
        var g, h := Gate(TlsMatches in c.fields && c.fields[TlsMatches], TlsNotBound), Gate(Release in c.digests, InvalidDigest(Release));
        TwoGates(g, h);
        FieldsInOrder(TINFOIL_FIELDS, c.fields);
        RulingBySplits([g, h], FieldGates(TINFOIL_FIELDS, c.fields), r);
      case Privatemode =>
        var g, h := Gate(c.appE2ee, TierRequired), Gate(model.None? || model.value in c.shapedFor, BadShape);
        TwoGates(g, h);
        TargetByGates(s, p, model, r);
        RulingBySplits([g, h], TargetGates(s, p, model), r);
      case Ppq =>
        if model.Some? {
          PpqByGates(s, c, model.value, r);
        }
      case Named(_) =>
    }
  }

  lemma TargetByGates(s: Setting, p: Slug, model: Option<string>, r: Ruling)
    requires r.standing == Verified
    ensures TargetedRuling(s, p, model, r) == RulingBy(TargetGates(s, p, model), r)
  {
    if model.Some? && model.value != "" && s.targets.Some? {
      var g := Gate(Targeted(s.targets.value, p, model.value), NotTargeted);
      TwoGates(g, g);
    }
  }

  lemma BackendByGates(t: Targets, c: Check, model: string, r: Ruling)
    requires r.standing == Verified
    ensures BackendRuling(t, Ppq, c, model, r) == RulingBy(BackendGates(t, c, model), r)
  {
    hide Expected;
    var gates := BackendGates(t, c, model);
    TwoGates(gates[0], gates[1]);
    TwoGates(gates[2], gates[2]);
    assert gates == [gates[0], gates[1]] + [gates[2]];
    RulingBySplits([gates[0], gates[1]], [gates[2]], r);
  }

  lemma PpqByGates(s: Setting, c: Check, model: string, r: Ruling)
    requires r.standing == Verified
    ensures TargetedRuling(s, Ppq, Some(model), PpqRuling(s, c, Some(model), r)) == RulingBy(GatesOf(s, Ppq, c, Some(model)), r)
  {
    hide BackendRuling, BackendGates, FieldGates, FirstBad, TargetGates, Targeted;
    var backend := if s.targets.Some? then BackendGates(s.targets.value, c, model) else [];
    var g, h := Gate(Release in c.digests, InvalidDigest(Release)), Gate(BackendRelease in c.digests, InvalidDigest(BackendRelease));
    var fields, target := FieldGates(PPQ_FIELDS, c.fields), TargetGates(s, Ppq, Some(model));
    if s.targets.Some? {
      BackendByGates(s.targets.value, c, model, r);
    }
    TwoGates(g, h);
    FieldsInOrder(PPQ_FIELDS, c.fields);
    TargetByGates(s, Ppq, Some(model), r);
    RulingBySplits(backend + [g, h] + fields, target, r);
    RulingBySplits(backend + [g, h], fields, r);
    RulingBySplits(backend, [g, h], r);
    FirstClosedSplits(backend + [g, h], fields);
    FirstClosedSplits(backend, [g, h]);
  }

  /** The whole ruling: a repeated check id is reported before a host mismatch, that before a model mismatch, and a row
      that does not say verified keeps its own status and error; else the first gate of its provider that is closed
      fails it, and freshness comes last. */
  lemma RulingIsFirstClosedGate(s: Setting, c: Check, about: Subject, duplicate: bool)
    requires c.status.Some?
    ensures var own := Ruling(c.status.value, if c.error.Some? then Some(Given(c.error.value)) else None);
      RulingOf(s, c, about, duplicate) ==
        if duplicate then Ruling(Failed, Some(DuplicateCheck))
        else if about.hostMismatch then Ruling(Failed, Some(HostMismatch))
        else if about.modelMismatch then Ruling(Failed, Some(ModelMismatch))
        else if c.status.value != Verified then own
        else RulingBy(GatesOf(s, about.provider, c, about.model) + [Gate(Fresh(s, c), NotFresh)], own)
  {
    hide ProviderRuling, GatesOf, Fresh;
    var own := Ruling(c.status.value, if c.error.Some? then Some(Given(c.error.value)) else None);
    if own.standing == Verified {
      var last := Gate(Fresh(s, c), NotFresh);
      ProviderRulingByGates(s, about.provider, c, about.model, own);
      TwoGates(last, last);
      RulingBySplits(GatesOf(s, about.provider, c, about.model), [last], own);
    }
    UnverifiedIsKept(s, about.provider, c, about.model, Fail(DuplicateCheck));
    UnverifiedIsKept(s, about.provider, c, about.model, Fail(HostMismatch));
    UnverifiedIsKept(s, about.provider, c, about.model, Fail(ModelMismatch));
    UnverifiedIsKept(s, about.provider, c, about.model, own);
  }

  lemma UnverifiedIsKept(s: Setting, p: Slug, c: Check, model: Option<string>, r: Ruling)
    ensures r.standing != Verified ==> ProviderRuling(s, p, c, model, r) == r
  {
  }
}
