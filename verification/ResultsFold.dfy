/** Folding result rows into host and model statuses, failing closed on duplicates. */
module ResultsFold {
  import opened Wrappers
  import opened Text
  import opened ResultRows

  // ---------- Rows that count ----------

  /** `marked` rows record their error for the host even when they are scoped to a model. */
  datatype Entry = Entry(about: Subject, ruling: Ruling, marked: bool)

  function IdOf(c: Check): Option<(Slug, string)> {
    if c.provider.None? || c.checkId.None? then None else Some((c.provider.value, Lower(c.checkId.value)))
  }

  function CountId(checks: seq<Check>, id: (Slug, string)): nat {
    if checks == [] then 0 else CountId(checks[..|checks| - 1], id) + (if IdOf(checks[|checks| - 1]) == Some(id) then 1 else 0)
  }

  /** Another row of the document has the same provider and check id. */
  predicate Repeats(all: seq<Check>, c: Check) {
    IdOf(c).Some? && CountId(all, IdOf(c).value) > 1
  }

  function EntryOf(s: Setting, all: seq<Check>, c: Check): Option<Entry> {
    match SubjectOf(s, c)
    case None => None
    case Some(about) =>
      var duplicate := Repeats(all, c);
      Some(Entry(about, RulingOf(s, c, about, duplicate), duplicate || about.modelMismatch || about.hostMismatch))
  }

  function Entries(s: Setting, all: seq<Check>, rows: seq<Check>): seq<Entry> {
    if rows == [] then []
    else
      var before := Entries(s, all, rows[..|rows| - 1]);
      match EntryOf(s, all, rows[|rows| - 1])
      case None => before
      case Some(e) => before + [e]
  }

  // ---------- One row into the directory ----------

  type Key = (Slug, string)

  datatype Statuses = Statuses(
    hosts: map<Key, Standing>,
    hostErrors: map<Key, Issue>,
    models: map<Key, Standing>,
    modelErrors: map<Key, Issue>)

  function HostKey(e: Entry): Key {
    (e.about.provider, e.about.host)
  }

  function ModelKey(e: Entry): Key
    requires e.about.model.Some?
  {
    (e.about.provider, e.about.model.value)
  }

  /** PPQ rows for a model share hosts. */
  predicate Scoped(e: Entry) {
    e.about.provider == Ppq && e.about.model.Some?
  }

  function HostRuling(d: Statuses, e: Entry): Ruling {
    if HostKey(e) in d.hosts && !Scoped(e) then Fail(DuplicateHost) else e.ruling
  }

  function WithHost(d: Statuses, e: Entry): Statuses {
    var r, k := HostRuling(d, e), HostKey(e);
    var kept := !(Scoped(e) && r.standing != Verified && k in d.hosts);
    var errors := if Scoped(e) && r.standing == Verified then d.hostErrors - {k} else d.hostErrors;
    d.(hosts := if kept then d.hosts[k := r.standing] else d.hosts,
      hostErrors := if r.issue.Some? && (!Scoped(e) || e.marked) then errors[k := r.issue.value] else errors)
  }

  function WithModel(d: Statuses, e: Entry, r: Ruling): Statuses
    requires e.about.model.Some?
  {
    var k := ModelKey(e);
    if k in d.models then
      d.(hosts := d.hosts[HostKey(e) := Failed], hostErrors := d.hostErrors[HostKey(e) := DuplicateModel],
        models := d.models[k := Failed], modelErrors := d.modelErrors[k := DuplicateModel])
    else
      d.(models := d.models[k := r.standing],
        modelErrors := if r.issue.Some? then d.modelErrors[k := r.issue.value] else d.modelErrors)
  }

  function Step(d: Statuses, e: Entry): Statuses {
    if e.about.model.Some? then WithModel(WithHost(d, e), e, HostRuling(d, e)) else WithHost(d, e)
  }

  function Folded(es: seq<Entry>): Statuses {
    if es == [] then Statuses(map[], map[], map[], map[]) else Step(Folded(es[..|es| - 1]), es[|es| - 1])
  }

  /** The directory that the loader builds up row by row. */
  class Directory {
    var counts: map<Key, nat>
    var hosts: map<Key, Standing>
    var hostErrors: map<Key, Issue>
    var models: map<Key, Standing>
    var modelErrors: map<Key, Issue>

    constructor ()
      ensures Contents() == Folded([]) && counts == map[]
    {
      counts, hosts, hostErrors, models, modelErrors := map[], map[], map[], map[], map[];
    }

    function Contents(): Statuses
      reads this
    {
      Statuses(hosts, hostErrors, models, modelErrors)
    }

    method CountCheckIds(checks: seq<Check>)
      requires counts == map[]
      modifies this`counts
      ensures forall id :: (if id in counts then counts[id] else 0) == CountId(checks, id)
    {
      for i := 0 to |checks|
        invariant forall id :: (if id in counts then counts[id] else 0) == CountId(checks[..i], id)
      {
        assert checks[..i + 1][..i] == checks[..i];
        var id := IdOf(checks[i]);
        if id.Some? {
          counts := counts[id.value := (if id.value in counts then counts[id.value] else 0) + 1];
        }
      }
      assert checks[..|checks|] == checks;
    }

    method AddRow(e: Entry)
      modifies this`hosts, this`hostErrors, this`models, this`modelErrors
      ensures Contents() == Step(old(Contents()), e)
    {
      var standing, issue, host := e.ruling.standing, e.ruling.issue, HostKey(e);
      var scoped := Scoped(e);
      if host in hosts && !scoped {
        standing, issue := Failed, Some(DuplicateHost);
      }
      if scoped {
        if standing == Verified {
          hosts := hosts[host := standing];
          hostErrors := hostErrors - {host};
        } else if host !in hosts {
          hosts := hosts[host := standing];
        }
      } else {
        hosts := hosts[host := standing];
      }
      if issue.Some? && (!scoped || e.marked) {
        hostErrors := hostErrors[host := issue.value];
      }
      if e.about.model.Some? {
        var key := ModelKey(e);
        if key in models {
          standing, issue := Failed, Some(DuplicateModel);
          hosts := hosts[host := standing];
          hostErrors := hostErrors[host := DuplicateModel];
        }
        models := models[key := standing];
        if issue.Some? {
          modelErrors := modelErrors[key := issue.value];
        }
      }
    }

    method LoadResults(s: Setting, checks: seq<Check>)
      requires Contents() == Folded([]) && counts == map[]
      modifies this
      ensures Contents() == Folded(Entries(s, checks, checks))
    {
      CountCheckIds(checks);
      for i := 0 to |checks|
        modifies this`hosts, this`hostErrors, this`models, this`modelErrors
        invariant Contents() == Folded(Entries(s, checks, checks[..i]))
      {
        assert checks[..i + 1][..i] == checks[..i];
        var about := SubjectOf(s, checks[i]);
        if about.None? {
          continue;
        }
        var id := IdOf(checks[i]);
        var duplicate := id.Some? && id.value in counts && counts[id.value] > 1;
        assert duplicate == Repeats(checks, checks[i]);
        var e := Entry(about.value, RulingOf(s, checks[i], about.value, duplicate),
                       duplicate || about.value.modelMismatch || about.value.hostMismatch);
        OneMoreEntry(Entries(s, checks, checks[..i]), e);
        AddRow(e);
      }
      assert checks[..|checks|] == checks;
    }
  }

  lemma OneMoreEntry(es: seq<Entry>, e: Entry)
    ensures Folded(es + [e]) == Step(Folded(es), e)
  {
    assert (es + [e])[..|es + [e]| - 1] == es;
  }

  // ---------- When a model ends up verified ----------

  predicate Concerns(e: Entry, k: Key) {
    e.about.model.Some? && ModelKey(e) == k
  }

  predicate OnHost(e: Entry, k: Key) {
    HostKey(e) == k
  }

  predicate NoneConcerns(es: seq<Entry>, k: Key) {
    forall i :: 0 <= i < |es| ==> !Concerns(es[i], k)
  }

  predicate NoneOnHost(es: seq<Entry>, k: Key) {
    forall i :: 0 <= i < |es| ==> !OnHost(es[i], k)
  }

  /** Row i is the only one that concerns the model. */
  predicate Sole(es: seq<Entry>, i: nat, k: Key)
    requires i < |es|
  {
    Concerns(es[i], k) && forall j :: 0 <= j < |es| && j != i ==> !Concerns(es[j], k)
  }

  /** No earlier row claimed this host, unless PPQ models share it. */
  predicate HostFree(es: seq<Entry>, i: nat)
    requires i < |es|
  {
    Scoped(es[i]) || NoneOnHost(es[..i], HostKey(es[i]))
  }

  predicate Clean(es: seq<Entry>, i: nat, k: Key)
    requires i < |es|
  {
    Sole(es, i, k) && es[i].ruling.standing == Verified && HostFree(es, i)
  }

  ghost predicate SomeClean(es: seq<Entry>, k: Key) {
    exists i :: 0 <= i < |es| && Clean(es, i, k)
  }

  lemma {:induction false} KeysSeen(es: seq<Entry>, k: Key)
    ensures k in Folded(es).hosts <==> !NoneOnHost(es, k)
    ensures k in Folded(es).models <==> !NoneConcerns(es, k)
  {
    if es != [] {
      var front, last := es[..|es| - 1], es[|es| - 1];
      KeysSeen(front, k);
      assert forall i :: 0 <= i < |front| ==> front[i] == es[i];
      assert NoneOnHost(es, k) <==> NoneOnHost(front, k) && !OnHost(last, k);
      assert NoneConcerns(es, k) <==> NoneConcerns(front, k) && !Concerns(last, k);
    }
  }

  lemma CleanLast(es: seq<Entry>, k: Key)
    requires es != []
    ensures var front, last := es[..|es| - 1], es[|es| - 1];
      SomeClean(es, k) <==>
        if Concerns(last, k) then NoneConcerns(front, k) && last.ruling.standing == Verified && HostFree(es, |es| - 1)
        else SomeClean(front, k)
  {
    var front, last := es[..|es| - 1], es[|es| - 1];
    assert forall i :: 0 <= i < |front| ==> front[i] == es[i];
    forall i | 0 <= i < |front|
      ensures Clean(es, i, k) <==> !Concerns(last, k) && Clean(front, i, k)
    {
      assert es[..i] == front[..i];
      assert Sole(es, i, k) <==> Sole(front, i, k) && !Concerns(es[|front|], k);
    }
    assert Sole(es, |front|, k) <==> Concerns(last, k) && NoneConcerns(front, k);
    var n := |front|;
    assert Clean(es, n, k) <==> Concerns(last, k) && NoneConcerns(front, k) && last.ruling.standing == Verified && HostFree(es, n);
    if SomeClean(es, k) {
      var i :| 0 <= i < |es| && Clean(es, i, k);
      assert i < n ==> Clean(front, i, k);
    }
    if !Concerns(last, k) && SomeClean(front, k) {
      var i :| 0 <= i < |front| && Clean(front, i, k);
      assert Clean(es, i, k);
    }
  }

  /** A model ends up verified if and only if exactly one row that counts concerns it, that row verifies, and no
      earlier row claimed its host. */
  lemma {:induction false} ModelVerifiedIff(es: seq<Entry>, k: Key)
    ensures k in Folded(es).models && Folded(es).models[k] == Verified <==> SomeClean(es, k)
  {
    if es != [] {
      var front, last := es[..|es| - 1], es[|es| - 1];
      ModelVerifiedIff(front, k);
      CleanLast(es, k);
      KeysSeen(front, k);
      KeysSeen(front, HostKey(last));
      assert es[..|es| - 1] == front;
    }
  }

  predicate Two(es: seq<Entry>, k: Key) {
    exists i, j :: 0 <= i < j < |es| && Concerns(es[i], k) && Concerns(es[j], k)
  }

  /** A second row for a model fails it for good, with the reason on record, whatever rows follow. */
  lemma {:induction false} RepeatedModelFails(es: seq<Entry>, k: Key)
    requires Two(es, k)
    ensures k in Folded(es).models && Folded(es).models[k] == Failed
    ensures k in Folded(es).modelErrors && Folded(es).modelErrors[k] == DuplicateModel
  {
    var front, last := es[..|es| - 1], es[|es| - 1];
    var i, j :| 0 <= i < j < |es| && Concerns(es[i], k) && Concerns(es[j], k);
    if Concerns(last, k) {
      assert front[i] == es[i];
      KeysSeen(front, k);
    } else {
      assert front[i] == es[i] && front[j] == es[j];
      RepeatedModelFails(front, k);
    }
  }

  // ---------- Hosts ----------

  predicate ModelFree(es: seq<Entry>, i: nat)
    requires i < |es|
  {
    es[i].about.model.Some? ==> NoneConcerns(es[..i], ModelKey(es[i]))
  }

  /** A row that leaves a verified host verified: it shares the host and claims a new model. */
  predicate Shares(es: seq<Entry>, i: nat)
    requires i < |es|
  {
    Scoped(es[i]) && ModelFree(es, i)
  }

  /** Row i verifies the host, and every later row on it only shares it. */
  predicate CleanHost(es: seq<Entry>, i: nat, k: Key)
    requires i < |es|
  {
    && OnHost(es[i], k) && es[i].ruling.standing == Verified && HostFree(es, i) && ModelFree(es, i)
    && forall j :: i < j < |es| && OnHost(es[j], k) ==> Shares(es, j)
  }

  ghost predicate SomeCleanHost(es: seq<Entry>, k: Key) {
    exists i :: 0 <= i < |es| && CleanHost(es, i, k)
  }

  lemma PrefixAlike(es: seq<Entry>, i: nat)
    requires i < |es| - 1
    ensures var front := es[..|es| - 1];
      && front[i] == es[i] && (ModelFree(front, i) <==> ModelFree(es, i))
      && (HostFree(front, i) <==> HostFree(es, i)) && (Shares(front, i) <==> Shares(es, i))
  {
    assert es[..|es| - 1][..i] == es[..i];
  }

  lemma CleanHostEarlier(es: seq<Entry>, i: nat, k: Key)
    requires i < |es| - 1
    ensures var n := |es| - 1;
      CleanHost(es, i, k) <==> CleanHost(es[..n], i, k) && (OnHost(es[n], k) ==> Shares(es, n))
  {
    hide ModelFree, HostFree, Shares;
    PrefixAlike(es, i);
    forall j | i < j < |es| - 1
      ensures es[..|es| - 1][j] == es[j] && (Shares(es[..|es| - 1], j) <==> Shares(es, j))
    {
      PrefixAlike(es, j);
    }
  }

  lemma CleanHostLast(es: seq<Entry>, k: Key)
    requires es != []
    ensures var n := |es| - 1;
      SomeCleanHost(es, k) <==>
        (OnHost(es[n], k) && es[n].ruling.standing == Verified && HostFree(es, n) && ModelFree(es, n))
        || (SomeCleanHost(es[..n], k) && (OnHost(es[n], k) ==> Shares(es, n)))
  {
    hide ModelFree, HostFree, Shares;
    var n := |es| - 1;
    forall i | 0 <= i < n
      ensures CleanHost(es, i, k) <==> CleanHost(es[..n], i, k) && (OnHost(es[n], k) ==> Shares(es, n))
    {
      CleanHostEarlier(es, i, k);
    }
    if OnHost(es[n], k) && es[n].ruling.standing == Verified && HostFree(es, n) && ModelFree(es, n) {
      assert CleanHost(es, n, k);
    }
    if SomeCleanHost(es[..n], k) && (OnHost(es[n], k) ==> Shares(es, n)) {
      var i :| 0 <= i < n && CleanHost(es[..n], i, k);
      assert CleanHost(es, i, k);
    }
    if SomeCleanHost(es, k) {
      var i :| 0 <= i < |es| && CleanHost(es, i, k);
      assert i < n ==> CleanHost(es[..n], i, k);
    }
  }

  /** A host is verified if and only if some row on it verifies, claims a new model, and shares the host or is the
      first on it, and every later row on the host shares it with a new model. */
  lemma {:induction false} HostVerifiedIff(es: seq<Entry>, k: Key)
    ensures k in Folded(es).hosts && Folded(es).hosts[k] == Verified <==> SomeCleanHost(es, k)
  {
    if es != [] {
      var front, last := es[..|es| - 1], es[|es| - 1];
      HostVerifiedIff(front, k);
      CleanHostLast(es, k);
      forall h {
        KeysSeen(front, h);
      }
      HostStep(Folded(front), es, k);
    }
  }

  lemma HostStep(d: Statuses, es: seq<Entry>, k: Key)
    requires es != []
    requires forall h :: h in d.hosts <==> !NoneOnHost(es[..|es| - 1], h)
    requires forall m :: m in d.models <==> !NoneConcerns(es[..|es| - 1], m)
    ensures var n, u := |es| - 1, Step(d, es[|es| - 1]);
      k in u.hosts && u.hosts[k] == Verified <==>
        (OnHost(es[n], k) && es[n].ruling.standing == Verified && HostFree(es, n) && ModelFree(es, n))
        || (k in d.hosts && d.hosts[k] == Verified && (OnHost(es[n], k) ==> Shares(es, n)))
  {
    hide NoneOnHost, NoneConcerns;
  }

  // ---------- The rows behind a status and an error ----------

  /** A model that one row concerns has that row's status and error, unless the host was claimed before. */
  lemma {:induction false} SoleRowDecides(es: seq<Entry>, i: nat, k: Key)
    requires i < |es| && Sole(es, i, k)
    ensures var d, r := Folded(es), if HostFree(es, i) then es[i].ruling else Ruling(Failed, Some(DuplicateHost));
      && k in d.models && d.models[k] == r.standing
      && (if k in d.modelErrors then r.issue == Some(d.modelErrors[k]) else r.issue == None)
  {
    hide HostFree, Step;
    var front, last := es[..|es| - 1], es[|es| - 1];
    assert forall j :: 0 <= j < |front| ==> front[j] == es[j];
    if i < |front| {
      PrefixAlike(es, i);
      SoleRowDecides(front, i, k);
      OtherModelStep(Folded(front), last, k);
    } else {
      KeysSeen(front, k);
      KeysSeen(front, HostKey(last));
      NoErrorUnseen(front, k);
      NewModelStep(Folded(front), es, k);
    }
  }

  lemma OtherModelStep(d: Statuses, e: Entry, k: Key)
    requires !Concerns(e, k)
    ensures var u := Step(d, e);
      && (k in u.models <==> k in d.models) && (k in u.models ==> u.models[k] == d.models[k])
      && (k in u.modelErrors <==> k in d.modelErrors) && (k in u.modelErrors ==> u.modelErrors[k] == d.modelErrors[k])
  {
  }

  lemma NewModelStep(d: Statuses, es: seq<Entry>, k: Key)
    requires es != [] && Concerns(es[|es| - 1], k) && k !in d.models && k !in d.modelErrors
    requires HostKey(es[|es| - 1]) in d.hosts <==> !NoneOnHost(es[..|es| - 1], HostKey(es[|es| - 1]))
    ensures var n, u := |es| - 1, Step(d, es[|es| - 1]);
      var r := if HostFree(es, n) then es[n].ruling else Ruling(Failed, Some(DuplicateHost));
      && k in u.models && u.models[k] == r.standing
      && (if k in u.modelErrors then r.issue == Some(u.modelErrors[k]) else r.issue == None)
  {
    hide NoneOnHost;
  }

  lemma {:induction false} NoErrorUnseen(es: seq<Entry>, k: Key)
    ensures NoneConcerns(es, k) ==> k !in Folded(es).modelErrors
  {
    if es != [] && NoneConcerns(es, k) {
      var front := es[..|es| - 1];
      assert forall j :: 0 <= j < |front| ==> front[j] == es[j];
      NoErrorUnseen(front, k);
    }
  }

  /** Row i puts the issue on record for its host: a repeated model first, then a repeated host, then its own issue,
      which for a row that is scoped to a model counts only when it is marked. */
  predicate Records(es: seq<Entry>, i: nat, h: Key, issue: Issue)
    requires i < |es|
  {
    && OnHost(es[i], h)
    && if !ModelFree(es, i) then issue == DuplicateModel
       else if !HostFree(es, i) then issue == DuplicateHost
       else es[i].ruling.issue == Some(issue) && (Scoped(es[i]) ==> es[i].marked)
  }

  /** Row i leaves the host's error alone: it repeats nothing, has nothing to record, and is no verified row of a
      model, which would clear it. */
  predicate LeavesError(es: seq<Entry>, i: nat, h: Key)
    requires i < |es|
  {
    OnHost(es[i], h) ==>
      && ModelFree(es, i) && HostFree(es, i)
      && (es[i].ruling.issue.None? || (Scoped(es[i]) && !es[i].marked))
      && !(Scoped(es[i]) && es[i].ruling.standing == Verified)
  }

  predicate LastRecord(es: seq<Entry>, i: nat, h: Key, issue: Issue)
    requires i < |es|
  {
    Records(es, i, h, issue) && forall j :: i < j < |es| ==> LeavesError(es, j, h)
  }

  ghost predicate OnRecord(es: seq<Entry>, h: Key, issue: Issue) {
    exists i :: 0 <= i < |es| && LastRecord(es, i, h, issue)
  }

  lemma OnRecordLast(es: seq<Entry>, h: Key, issue: Issue)
    requires es != []
    ensures var n := |es| - 1;
      OnRecord(es, h, issue) <==> Records(es, n, h, issue) || (OnRecord(es[..n], h, issue) && LeavesError(es, n, h))
  {
    hide ModelFree, HostFree, Scoped;
    var n := |es| - 1;
    var front := es[..n];
    forall i | 0 <= i < n
      ensures Records(front, i, h, issue) <==> Records(es, i, h, issue)
      ensures LeavesError(front, i, h) <==> LeavesError(es, i, h)
    {
      PrefixAlike(es, i);
    }
    hide Records, LeavesError;
    if i :| 0 <= i < |es| && LastRecord(es, i, h, issue) {
      assert i < n ==> LastRecord(front, i, h, issue);
    }
    if i :| 0 <= i < n && LastRecord(front, i, h, issue) {
      assert LeavesError(es, n, h) ==> LastRecord(es, i, h, issue);
    }
    if Records(es, n, h, issue) {
      assert LastRecord(es, n, h, issue);
    }
  }

  /** A host's error is what the last row recorded that did so, if nothing cleared it since. */
  lemma {:induction false} HostErrorExactly(es: seq<Entry>, h: Key, issue: Issue)
    ensures ErrorAt(Folded(es), h) == Some(issue) <==> OnRecord(es, h, issue)
  {
    hide OnRecord;
    if es == [] {
      NothingOnRecord(h, issue);
    } else {
      var front, last := es[..|es| - 1], es[|es| - 1];
      HostErrorExactly(front, h, issue);
      OnRecordLast(es, h, issue);
      KeysSeen(front, HostKey(last));
      if last.about.model.Some? {
        KeysSeen(front, ModelKey(last));
      }
      HostErrorStep(Folded(front), es, h, issue);
    }
  }

  lemma NothingOnRecord(h: Key, issue: Issue)
    ensures !OnRecord([], h, issue)
  {
  }

  lemma HostErrorStep(d: Statuses, es: seq<Entry>, h: Key, issue: Issue)
    requires es != []
    requires var front, last := es[..|es| - 1], es[|es| - 1];
      && (HostKey(last) in d.hosts <==> !NoneOnHost(front, HostKey(last)))
      && (last.about.model.Some? ==> (ModelKey(last) in d.models <==> !NoneConcerns(front, ModelKey(last))))
    ensures var n, u := |es| - 1, Step(d, es[|es| - 1]);
      ErrorAt(u, h) == Some(issue) <==> Records(es, n, h, issue) || (ErrorAt(d, h) == Some(issue) && LeavesError(es, n, h))
  {
    hide NoneOnHost, NoneConcerns, Step, Scoped, ModelFree, HostFree;
    var last := es[|es| - 1];
    LastIsFree(d, es);
    OwnHostStep(d, last);
    if !OnHost(last, h) {
      hide OwnRecord;
      OtherHostStep(d, last, h);
    }
  }

  /** What a row leaves on record for its own host. */
  function OwnRecord(d: Statuses, e: Entry): Option<Issue> {
    var taken, repeated := e.about.model.Some? && ModelKey(e) in d.models, !Scoped(e) && HostKey(e) in d.hosts;
    var own := e.ruling.issue.Some? && (Scoped(e) ==> e.marked);
    var cleared := Scoped(e) && e.ruling.standing == Verified;
    if taken then Some(DuplicateModel)
    else if repeated then Some(DuplicateHost)
    else if own then e.ruling.issue
    else if cleared then None else ErrorAt(d, HostKey(e))
  }

  function ErrorAt(d: Statuses, h: Key): Option<Issue> {
    if h in d.hostErrors then Some(d.hostErrors[h]) else None
  }

  lemma LastIsFree(d: Statuses, es: seq<Entry>)
    requires es != []
    requires var front, last := es[..|es| - 1], es[|es| - 1];
      && (HostKey(last) in d.hosts <==> !NoneOnHost(front, HostKey(last)))
      && (last.about.model.Some? ==> (ModelKey(last) in d.models <==> !NoneConcerns(front, ModelKey(last))))
    ensures var n, last := |es| - 1, es[|es| - 1];
      && (ModelFree(es, n) <==> !(last.about.model.Some? && ModelKey(last) in d.models))
      && (HostFree(es, n) <==> Scoped(last) || HostKey(last) !in d.hosts)
  {
    hide NoneOnHost, NoneConcerns;
  }

  lemma OtherHostStep(d: Statuses, e: Entry, h: Key)
    requires !OnHost(e, h)
    ensures ErrorAt(Step(d, e), h) == ErrorAt(d, h)
  {
  }

  lemma OwnHostStep(d: Statuses, e: Entry)
    ensures ErrorAt(Step(d, e), HostKey(e)) == OwnRecord(d, e)
  {
  }

  // ---------- Models and hosts that disagree ----------

  /** A row on the host after which it is not verified. */
  predicate Spoils(es: seq<Entry>, j: nat, h: Key)
    requires j < |es|
  {
    OnHost(es[j], h) && !Shares(es, j)
  }

  /** A row on the host after which it is verified, whatever it was. */
  predicate Recovers(es: seq<Entry>, n: nat, h: Key)
    requires n < |es|
  {
    OnHost(es[n], h) && Shares(es, n) && es[n].ruling.standing == Verified
  }

  /** Row j spoils the host and no later row recovers it. */
  predicate SpoiledFrom(es: seq<Entry>, j: nat, h: Key)
    requires j < |es|
  {
    Spoils(es, j, h) && forall n :: j < n < |es| ==> !Recovers(es, n, h)
  }

  /** The last of the rows below `n` that spoils the host, if one from `i` on does. */
  ghost function LastSpoiler(es: seq<Entry>, i: nat, n: nat, h: Key): (r: Option<nat>)
    requires i <= n <= |es|
    ensures r.None? ==> forall j :: i <= j < n ==> !Spoils(es, j, h)
    ensures r.Some? ==> i <= r.value < n && Spoils(es, r.value, h) && forall j :: r.value < j < n ==> !Spoils(es, j, h)
    decreases n
  {
    if n == i then None else if Spoils(es, n - 1, h) then Some(n - 1) else LastSpoiler(es, i, n - 1, h)
  }

  lemma SpoiledHasNoCleanRow(es: seq<Entry>, i: nat, j: nat, h: Key)
    requires i < j < |es| && OnHost(es[i], h) && SpoiledFrom(es, j, h)
    ensures !SomeCleanHost(es, h)
  {
    forall n | 0 <= n < |es|
      ensures !CleanHost(es, n, h)
    {
      if n >= j {
        assert es[..n][i] == es[i] && OnHost(es[..n][i], h);
        assert OnHost(es[n], h) && HostFree(es, n) ==> Scoped(es[n]);
        assert n > j ==> !Recovers(es, n, h);
      } else {
        assert OnHost(es[j], h) && !Shares(es, j);
      }
    }
  }

  lemma UnspoiledHasCleanRow(es: seq<Entry>, i: nat, h: Key)
    requires i < |es| && OnHost(es[i], h) && es[i].ruling.standing == Verified && HostFree(es, i) && ModelFree(es, i)
    requires forall j :: i < j < |es| ==> !SpoiledFrom(es, j, h)
    ensures SomeCleanHost(es, h)
  {
    match LastSpoiler(es, i + 1, |es|, h) {
      case None =>
        forall j | i < j < |es| && OnHost(es[j], h)
          ensures Shares(es, j)
        {
          assert !Spoils(es, j, h);
        }
        assert CleanHost(es, i, h);
      case Some(j) =>
        assert !SpoiledFrom(es, j, h);
        var n :| j < n < |es| && Recovers(es, n, h);
        forall m | n < m < |es| && OnHost(es[m], h)
          ensures Shares(es, m)
        {
          assert !Spoils(es, m, h);
        }
        assert CleanHost(es, n, h);
    }
  }

  /** Host and model can disagree: a verified model stays verified although its host has failed exactly when a later
      row spoils the host, by repeating it or by repeating a model on it, and no row after that recovers it. */
  lemma ModelOutlivesItsHostIff(es: seq<Entry>, i: nat, k: Key)
    requires i < |es| && Clean(es, i, k)
    ensures k in Folded(es).models && Folded(es).models[k] == Verified
    ensures HostKey(es[i]) in Folded(es).hosts
    ensures Folded(es).hosts[HostKey(es[i])] != Verified <==> exists j :: i < j < |es| && SpoiledFrom(es, j, HostKey(es[i]))
  {
    hide Folded;
    var h := HostKey(es[i]);
    assert SomeClean(es, k);
    ModelVerifiedIff(es, k);
    HostVerifiedIff(es, h);
    KeysSeen(es, h);
    assert OnHost(es[i], h);
    assert ModelFree(es, i) by {
      assert forall j :: 0 <= j < i ==> es[..i][j] == es[j];
    }
    if j :| i < j < |es| && SpoiledFrom(es, j, h) {
      SpoiledHasNoCleanRow(es, i, j, h);
    } else {
      UnspoiledHasCleanRow(es, i, h);
    }
  }

  // ---------- Entries and rows ----------

  predicate SameId(c: Check, e: Check) {
    && c.provider.Some? && c.provider == e.provider
    && c.checkId.Some? && e.checkId.Some? && Lower(c.checkId.value) == Lower(e.checkId.value)
  }

  lemma {:induction false} CountedNever(checks: seq<Check>, id: (Slug, string))
    ensures CountId(checks, id) == 0 <==> forall i :: 0 <= i < |checks| ==> IdOf(checks[i]) != Some(id)
  {
    hide IdOf;
    if checks != [] {
      CountedNever(checks[..|checks| - 1], id);
      assert forall i :: 0 <= i < |checks| - 1 ==> checks[..|checks| - 1][i] == checks[i];
    }
  }

  lemma {:induction false} CountedMore(checks: seq<Check>, id: (Slug, string), i: nat)
    requires i < |checks| && IdOf(checks[i]) == Some(id)
    ensures CountId(checks, id) > 1 <==> exists j :: 0 <= j < |checks| && j != i && IdOf(checks[j]) == Some(id)
  {
    hide IdOf;
    var front := checks[..|checks| - 1];
    CountedNever(front, id);
    assert forall j :: 0 <= j < |front| ==> front[j] == checks[j];
    if i < |front| {
      CountedMore(front, id, i);
    }
  }

  /** A row repeats a check id exactly when another row of its provider has the same id up to letter case. */
  lemma RepeatsExactly(all: seq<Check>, i: nat)
    requires i < |all|
    ensures Repeats(all, all[i]) <==> exists j :: 0 <= j < |all| && j != i && SameId(all[i], all[j])
  {
    hide Lower;
    assert forall j :: 0 <= j < |all| ==> (SameId(all[i], all[j]) <==> IdOf(all[i]).Some? && IdOf(all[j]) == IdOf(all[i]));
    if IdOf(all[i]).Some? {
      CountedMore(all, IdOf(all[i]).value, i);
    }
  }

  /** An entry is marked exactly when its row fails for what it claims to be: a repeated id or another target. */
  lemma MarkedExactly(s: Setting, all: seq<Check>, c: Check)
    requires EntryOf(s, all, c).Some?
    ensures EntryOf(s, all, c).value.marked <==> EntryOf(s, all, c).value.ruling.issue in {Some(DuplicateCheck), Some(HostMismatch), Some(ModelMismatch)}
  {
    hide SubjectOf, RulingOf, Repeats, GatesOf, Fresh;
    var about := SubjectOf(s, c).value;
    StatusOfSubject(s, c);
    RulingIsFirstClosedGate(s, c, about, Repeats(all, c));
    GateIssues(s, about.provider, c, about.model);
  }

  lemma StatusOfSubject(s: Setting, c: Check)
    requires SubjectOf(s, c).Some?
    ensures c.status.Some?
  {
    hide Lower, Strip;
  }

  /** The entries of a document in the order of its rows. */
  lemma {:induction false} EntriesInOrder(s: Setting, all: seq<Check>, rows: seq<Check>, more: seq<Check>)
    ensures Entries(s, all, rows + more) == Entries(s, all, rows) + Entries(s, all, more)
    ensures forall c :: Entries(s, all, [c]) == if EntryOf(s, all, c).Some? then [EntryOf(s, all, c).value] else []
  {
    hide EntryOf;
    forall c
      ensures Entries(s, all, [c]) == if EntryOf(s, all, c).Some? then [EntryOf(s, all, c).value] else []
    {
      assert [c][..0] == [];
    }
    if more == [] {
      assert rows + more == rows;
    } else {
      assert (rows + more)[..|rows + more| - 1] == rows + more[..|more| - 1];
      EntriesInOrder(s, all, rows, more[..|more| - 1]);
    }
  }

  predicate Counts(s: Setting, all: seq<Check>, c: Check, e: Entry) {
    EntryOf(s, all, c) == Some(e)
  }

  /** Every entry stands for a row with a host, and it verifies only as that row does. */
  lemma {:induction false} EntriesAreRows(s: Setting, all: seq<Check>, rows: seq<Check>, e: Entry)
    requires e in Entries(s, all, rows)
    ensures exists c :: c in rows && Counts(s, all, c, e)
  {
    var front, last := rows[..|rows| - 1], rows[|rows| - 1];
    assert rows == front + [last];
    if !Counts(s, all, last, e) {
      EntriesAreRows(s, all, front, e);
    }
  }

  /** Reading the folded statuses of a document: a verified model goes back to one row that claims to be
      verified, repeats no check id, matches its target, proves what its provider must and is fresh. */
  lemma VerifiedModelIsProved(s: Setting, checks: seq<Check>, k: Key)
    requires k in Folded(Entries(s, checks, checks)).models && Folded(Entries(s, checks, checks)).models[k] == Verified
    ensures exists c :: c in checks && ProvedRow(s, checks, c, k)
  {
    var es := Entries(s, checks, checks);
    ModelVerifiedIff(es, k);
    var i :| 0 <= i < |es| && Clean(es, i, k);
    EntriesAreRows(s, checks, checks, es[i]);
    var c :| c in checks && Counts(s, checks, c, es[i]);
    RowVerifiesIff(s, c, es[i].about, Repeats(checks, c));
    assert ProvedRow(s, checks, c, k);
  }

  ghost predicate ProvedRow(s: Setting, checks: seq<Check>, c: Check, k: Key) {
    var about := SubjectOf(s, c);
    && about.Some? && c.status == Some(Verified)
    && about.value.provider == k.0 && about.value.model == Some(k.1)
    && !about.value.modelMismatch && !about.value.hostMismatch && !Repeats(checks, c)
    && Proved(s, k.0, c, Some(k.1)) && Fresh(s, c)
  }

  // ---------- Documents in which host and model disagree ----------

  const BARE := Setting(None, "", None, 0, None)

  /** A row with everything a PPQ row needs to verify. */
  function ProvedCheck(p: Slug, host: string, model: Option<string>): Check {
    Check(Some(p), Some(Verified), None, Some(host), None, model, None, false,
          map[BackendTls := true, BackendSigstore := true, BackendBundle := true, BackendImages := true],
          {Release, BackendRelease}, true, {}, None, None, NoStamp)
  }

  function VerifiedEntry(p: Slug, host: string, model: Option<string>): Entry {
    Entry(Subject(p, host, model, false, false), Ruling(Verified, None), false)
  }

  predicate Normal(model: Option<string>) {
    model.Some? ==> Lower(Strip(model.value)) == model.value
  }

  lemma ProvedCheckVerifies(all: seq<Check>, p: Slug, host: string, model: Option<string>)
    requires (p.Named? || p == Ppq) && Normal(model)
    ensures EntryOf(BARE, all, ProvedCheck(p, host, model)) == Some(VerifiedEntry(p, host, model))
  {
    var c := ProvedCheck(p, host, model);
    var about := Subject(p, host, model, false, false);
    assert SubjectOf(BARE, c) == Some(about);
    FirstBadIff(PPQ_FIELDS, c.fields);
    assert RulingOf(BARE, c, about, false) == Ruling(Verified, None);
  }

  lemma EntriesSnoc(s: Setting, all: seq<Check>, rows: seq<Check>, c: Check)
    requires EntryOf(s, all, c).Some?
    ensures Entries(s, all, rows + [c]) == Entries(s, all, rows) + [EntryOf(s, all, c).value]
  {
    hide EntryOf;
    assert (rows + [c])[..|rows + [c]| - 1] == rows;
  }

  /** The statuses of the document of these rows. */
  function Document(checks: seq<Check>): Statuses {
    Folded(Entries(BARE, checks, checks))
  }

  /** Two verified rows for two models on one host: the host fails, and the first model stays verified. */
  lemma LaterRowFailsTheHostAlone(p: Slug, h: string, m: string, n: string)
    requires p.Named? && m != n && Normal(Some(m)) && Normal(Some(n))
    ensures var d := Document([ProvedCheck(p, h, Some(m)), ProvedCheck(p, h, Some(n))]);
      && (p, m) in d.models && d.models[(p, m)] == Verified
      && (p, h) in d.hosts && d.hosts[(p, h)] == Failed
  {
    hide ProvedCheck;
    var a, b := ProvedCheck(p, h, Some(m)), ProvedCheck(p, h, Some(n));
    var ea, eb := VerifiedEntry(p, h, Some(m)), VerifiedEntry(p, h, Some(n));
    TwoRows(p, h, Some(m), Some(n));
    OneMoreEntry([], ea);
    OneMoreEntry([ea], eb);
    assert [] + [ea] == [ea] && [ea] + [eb] == [ea, eb];
    assert Folded([ea]).models == map[(p, m) := Verified] && Folded([ea]).hosts == map[(p, h) := Verified];
  }

  lemma TwoRows(p: Slug, h: string, m: Option<string>, n: Option<string>)
    requires (p.Named? || p == Ppq) && Normal(m) && Normal(n)
    ensures var checks := [ProvedCheck(p, h, m), ProvedCheck(p, h, n)];
      Entries(BARE, checks, checks) == [VerifiedEntry(p, h, m), VerifiedEntry(p, h, n)]
  {
    hide ProvedCheck, EntryOf;
    var a, b := ProvedCheck(p, h, m), ProvedCheck(p, h, n);
    var all := [a, b];
    ProvedCheckVerifies(all, p, h, m);
    ProvedCheckVerifies(all, p, h, n);
    EntriesSnoc(BARE, all, [], a);
    EntriesSnoc(BARE, all, [a], b);
    assert [] + [a] == [a] && [a] + [b] == all;
  }

  /** A row of a PPQ host for a model and one for the host alone: the host has failed and the model is verified. */
  lemma PpqHostFails(h: string, m: string)
    requires Normal(Some(m))
    ensures var d := Document([ProvedCheck(Ppq, h, Some(m)), ProvedCheck(Ppq, h, None)]);
      && (Ppq, m) in d.models && d.models[(Ppq, m)] == Verified
      && (Ppq, h) in d.hosts && d.hosts[(Ppq, h)] == Failed
  {
    hide ProvedCheck;
    TwoRows(Ppq, h, Some(m), None);
    PpqTwo(h, m);
  }

  lemma PpqTwo(h: string, m: string)
    ensures var d := Folded([VerifiedEntry(Ppq, h, Some(m)), VerifiedEntry(Ppq, h, None)]);
      d.models == map[(Ppq, m) := Verified] && d.hosts == map[(Ppq, h) := Failed]
  {
    var ea, eb := VerifiedEntry(Ppq, h, Some(m)), VerifiedEntry(Ppq, h, None);
    OneMoreEntry([], ea);
    OneMoreEntry([ea], eb);
    assert [] + [ea] == [ea] && [ea] + [eb] == [ea, eb];
    assert Folded([ea]).models == map[(Ppq, m) := Verified] && Folded([ea]).hosts == map[(Ppq, h) := Verified];
  }

  /** A PPQ host does not stay failed: a verified row for a further model on it makes it verified again. */
  lemma PpqHostRecovers(h: string, m: string, n: string)
    requires m != n && Normal(Some(m)) && Normal(Some(n))
    ensures var d := Document([ProvedCheck(Ppq, h, Some(m)), ProvedCheck(Ppq, h, None), ProvedCheck(Ppq, h, Some(n))]);
      (Ppq, h) in d.hosts && d.hosts[(Ppq, h)] == Verified
  {
    hide ProvedCheck, EntryOf;
    var a, b, c := ProvedCheck(Ppq, h, Some(m)), ProvedCheck(Ppq, h, None), ProvedCheck(Ppq, h, Some(n));
    var ea, eb, ec := VerifiedEntry(Ppq, h, Some(m)), VerifiedEntry(Ppq, h, None), VerifiedEntry(Ppq, h, Some(n));
    var all := [a, b, c];
    ProvedCheckVerifies(all, Ppq, h, Some(m));
    ProvedCheckVerifies(all, Ppq, h, None);
    ProvedCheckVerifies(all, Ppq, h, Some(n));
    EntriesSnoc(BARE, all, [], a);
    EntriesSnoc(BARE, all, [a], b);
    EntriesSnoc(BARE, all, [a, b], c);
    assert [] + [a] == [a] && [a] + [b] == [a, b] && [a, b] + [c] == all;
    assert Entries(BARE, all, all) == [ea, eb] + [ec];
    PpqTwo(h, m);
    OneMoreEntry([ea, eb], ec);
  }
}
