/** Attestation rows kept in the database and the snapshot of them that routing reads back. */
module AttestationSnapshot {
  import opened Wrappers
  import opened Text
  import opened ProviderSelection
  import RoutingCandidates

  /** A status's model ids: missing, a list, another collection, or something else. Items that are not strings
      are blank. */
  datatype Ids = Missing | Listed(items: seq<string>) | Collected(items: seq<string>) | Invalid

  datatype Status = Status(
    enabled: bool,
    verified: bool,
    mode: Option<string>,
    modelIds: Ids,
    verifiedAt: Option<int>,
    expiresAt: Option<int>,
    policyDigest: Option<string>,
    evidenceDigest: Option<string>,
    verifier: Option<string>)

  datatype RowKey = RowKey(provider: int, modelId: string, mode: string)

  datatype Row = Row(
    verified: bool,
    verifiedAt: Option<int>,
    expiresAt: Option<int>,
    policyDigest: Option<string>,
    evidenceDigest: Option<string>,
    verifier: Option<string>)

  type Rows = map<RowKey, Row>

  /** A provider as the refresh sees it; asking for its status may fail. */
  datatype Attested = Attested(dbId: Option<int>, status: Option<Status>)

  // ---------- Selectors ----------

  function PublicStrings(items: seq<string>): (r: seq<string>)
    ensures forall x :: x in r <==> x != "" && exists i :: 0 <= i < |items| && Strip(items[i]) == x
  {
    if items == [] then []
    else
      var before, last := PublicStrings(items[..|items| - 1]), Strip(items[|items| - 1]);
      assert items == items[..|items| - 1] + [items[|items| - 1]];
      if last == "" then before else before + [last]
  }

  /** What is persisted: blanks dropped, spelling kept. */
  function PersistedIds(ids: Ids): seq<string> {
    match ids
    case Listed(items) => PublicStrings(items)
    case Collected(items) => PublicStrings(items)
    case _ => []
  }

  /** What routing matches against: lowercased; None for anything but a list of distinct non-blank strings. */
  function Selectors(ids: Ids): Option<seq<string>> {
    match ids
    case Missing => Some([])
    case Listed(items) =>
      if !NoBlank(items) || !CaseDistinct(StripAll(items)) then None else Some(LowerAll(StripAll(items)))
    case _ => None
  }

  predicate Given(ids: Ids, x: string) {
    (ids.Listed? || ids.Collected?) && x in ids.items
  }

  /** What is persisted of a status's ids: all that are not blank. */
  lemma PersistedExactly(ids: Ids, x: string)
    ensures x in PersistedIds(ids) <==> x != "" && exists y :: Given(ids, y) && Strip(y) == x
  {
    hide Strip;
    if ids.Listed? || ids.Collected? {
      if i :| 0 <= i < |ids.items| && Strip(ids.items[i]) == x {
        assert Given(ids, ids.items[i]);
      }
      if y :| Given(ids, y) && Strip(y) == x {
        var i :| 0 <= i < |ids.items| && ids.items[i] == y;
      }
    }
  }

  /** Routing reads the same ids but for letter case, except that it takes nothing from a list with a blank or
      repeated id, or from any other collection. */
  lemma SelectorsExactly(ids: Ids, x: string)
    ensures Selectors(ids).Some? <==> ids.Missing? || (ids.Listed? && NoBlank(ids.items) && CaseDistinct(StripAll(ids.items)))
    ensures Selectors(ids).Some? ==> (x in Selectors(ids).value <==> exists y :: Given(ids, y) && Lower(Strip(y)) == x)
  {
    hide Strip, Lower, NoBlank, CaseDistinct;
    if ids.Listed? && Selectors(ids).Some? {
      if x in Selectors(ids).value {
        var i :| 0 <= i < |ids.items| && Selectors(ids).value[i] == x;
        assert Given(ids, ids.items[i]);
      }
      if y :| Given(ids, y) && Lower(Strip(y)) == x {
        var i :| 0 <= i < |ids.items| && ids.items[i] == y;
        assert Selectors(ids).value[i] == x;
      }
    }
  }

  /** Every selector was persisted under some spelling of it. */
  lemma SelectorsArePersisted(ids: Ids, x: string)
    requires Selectors(ids).Some? && x in Selectors(ids).value
    ensures exists m :: m in PersistedIds(ids) && Lower(m) == x && Strip(m) == m
  {
    var i :| 0 <= i < |ids.items| && Selectors(ids).value[i] == x;
    var m := Strip(ids.items[i]);
    StripIsStripped(ids.items[i]);
    StripIsStripped(m);
    assert m in PersistedIds(ids) && Lower(m) == x;
  }

  // ---------- Persisting ----------

  function RowFor(s: Status): Row {
    Row(s.verified, s.verifiedAt, s.expiresAt, s.policyDigest, s.evidenceDigest, s.verifier)
  }

  function WithRows(rows: Rows, provider: int, mode: string, ids: seq<string>, row: Row): Rows {
    if ids == [] then rows
    else WithRows(rows, provider, mode, ids[..|ids| - 1], row)[RowKey(provider, ids[|ids| - 1], mode) := row]
  }

  function PersistOne(rows: Rows, a: Attested): Rows {
    if a.dbId.None? || a.status.None? || NonEmpty(a.status.value.mode).None? then rows
    else WithRows(rows, a.dbId.value, NonEmpty(a.status.value.mode).value,
                  PersistedIds(a.status.value.modelIds), RowFor(a.status.value))
  }

  function PersistAll(rows: Rows, providers: seq<Attested>): Rows {
    if providers == [] then rows else PersistOne(PersistAll(rows, providers[..|providers| - 1]), providers[|providers| - 1])
  }

  // ---------- Loading ----------

  type Snapshot = map<(string, string), Row>

  /** The rows of one provider, as read in the order `result`; keys are lowercased, later rows overwrite. */
  function Loaded(rows: Rows, result: seq<RowKey>, provider: int): Snapshot
    requires forall k :: k in result ==> k in rows
  {
    if result == [] then map[]
    else
      var before, k := Loaded(rows, result[..|result| - 1], provider), result[|result| - 1];
      assert k in result;
      if k.provider != provider || NonEmpty(Some(k.modelId)).None? || NonEmpty(Some(k.mode)).None? then before
      else before[FoldedKey(k) := rows[k]]
  }

  function FoldedKey(k: RowKey): (string, string) {
    (Lower(Strip(k.modelId)), Lower(Strip(k.mode)))
  }

  class AttestationTable {
    var rows: Rows

    constructor ()
      ensures rows == map[]
    {
      rows := map[];
    }

    method PersistProviderModelAttestations(providers: seq<Attested>)
      modifies this
      ensures rows == PersistAll(old(rows), providers)
    {
      for i := 0 to |providers|
        invariant rows == PersistAll(old(rows), providers[..i])
      {
        assert providers[..i + 1][..i] == providers[..i];
        var a := providers[i];
        if a.dbId.None? || a.status.None? || NonEmpty(a.status.value.mode).None? {
          continue;
        }
        PersistStatus(a.dbId.value, NonEmpty(a.status.value.mode).value, a.status.value);
      }
      assert providers[..|providers|] == providers;
    }

    method PersistStatus(provider: int, mode: string, s: Status)
      modifies this
      ensures rows == WithRows(old(rows), provider, mode, PersistedIds(s.modelIds), RowFor(s))
    {
      var ids := PersistedIds(s.modelIds);
      for i := 0 to |ids|
        invariant rows == WithRows(old(rows), provider, mode, ids[..i], RowFor(s))
      {
        assert ids[..i + 1][..i] == ids[..i];
        rows := rows[RowKey(provider, ids[i], mode) := RowFor(s)];
      }
      assert ids[..|ids|] == ids;
    }

    /** `result` is the order in which the database returns the rows of the asked-for providers. */
    method LoadProviderModelAttestations(result: seq<RowKey>, providers: set<int>) returns (r: map<int, Snapshot>)
      requires forall k :: k in result <==> k in rows && k.provider in providers
      ensures forall p :: p in providers ==> SnapshotOf(r, p) == Loaded(rows, result, p)
    {
      r := map[];
      for i := 0 to |result|
        invariant forall k :: k in result[..i] ==> k in rows
        invariant forall p :: SnapshotOf(r, p) == Loaded(rows, result[..i], p)
      {
        assert result[..i + 1] == result[..i] + [result[i]];
        var k := result[i];
        assert k in result;
        if NonEmpty(Some(k.modelId)).None? || NonEmpty(Some(k.mode)).None? {
          continue;
        }
        r := r[k.provider := SnapshotOf(r, k.provider)[FoldedKey(k) := rows[k]]];
      }
      assert result[..|result|] == result;
    }
  }

  /** A provider without loaded rows gets an empty snapshot. */
  function SnapshotOf(r: map<int, Snapshot>, p: int): Snapshot {
    if p in r then r[p] else map[]
  }

  // ---------- The route-time check ----------

  function Identifiers(m: Model, alias: Option<string>): set<string> {
    (set x | x in {LowerNonEmpty(alias), LowerNonEmpty(Some(m.id)), LowerNonEmpty(m.canonicalSlug), LowerNonEmpty(m.forwardedId)} && x.Some? :: x.value)
  }

  predicate RowStands(full: string -> bool, row: Row, s: Status, now: int) {
    && row.verified
    && row.verifiedAt.Some? && row.expiresAt.Some? && row.verifiedAt.value <= now < row.expiresAt.value
    && row.policyDigest == s.policyDigest
    && row.evidenceDigest.Some? && full(row.evidenceDigest.value)
    && NonEmpty(row.verifier).Some?
  }

  predicate Entry(full: string -> bool, key: (string, string), row: Row, s: Status, ids: set<string>, now: int) {
    && LowerNonEmpty(s.mode) == Some(key.1)
    && (key.0 in ids || RoutingCandidates.BaseId(key.0) in ids)
    && RowStands(full, row, s, now)
  }

  /** The database check, for a provider whose rows were loaded. `full` recognises complete digests. */
  predicate DbCovers(full: string -> bool, snapshot: Snapshot, s: Status, m: Model, alias: Option<string>, now: int) {
    && LowerNonEmpty(s.mode).Some?
    && s.policyDigest.Some? && full(s.policyDigest.value)
    && exists key :: key in snapshot && Entry(full, key, snapshot[key], s, Identifiers(m, alias), now)
  }

  /** The identifiers that the in-memory check compares with the selectors. */
  function RouteIdentifiers(s: Status, m: Model, alias: Option<string>): set<string> {
    var route, forwarded := LowerNonEmpty(alias), LowerNonEmpty(m.forwardedId);
    if route.None? then Identifiers(m, None)
    else if forwarded.Some? && LowerNonEmpty(s.mode) != Some("ppq-private-tee") && RoutingCandidates.BaseId(forwarded.value) == route.value
      then {route.value, forwarded.value}
    else {route.value}
  }

  lemma RouteIdentifiersAreIdentifiers(s: Status, m: Model, alias: Option<string>)
    ensures RouteIdentifiers(s, m, alias) <= Identifiers(m, alias)
  {
    assert LowerNonEmpty(alias).None? ==> Identifiers(m, None) == Identifiers(m, alias);
  }

  /** A name of the model, lowercased and without outer space. */
  predicate IsName(s: Option<string>, x: string) {
    s.Some? && Strip(s.value) != "" && Lower(Strip(s.value)) == x
  }

  predicate NamedAs(m: Model, alias: Option<string>, x: string) {
    IsName(alias, x) || IsName(Some(m.id), x) || IsName(m.canonicalSlug, x) || IsName(m.forwardedId, x)
  }

  /** The model or its alias, with or without a prefix before it. */
  predicate NamesModel(m: Model, alias: Option<string>, x: string) {
    NamedAs(m, alias, x) || NamedAs(m, alias, RoutingCandidates.BaseId(x))
  }

  /** A verified row of the status's policy, in force now, with complete evidence and a named verifier. */
  predicate FreshEvidence(full: string -> bool, s: Status, row: Row, now: int) {
    && row.verified && row.policyDigest == s.policyDigest
    && match row
       case Row(_, Some(since), Some(until), _, Some(evidence), Some(verifier)) =>
         since <= now && now < until && full(evidence) && Strip(verifier) != ""
       case _ => false
  }

  /** The status has a mode and a complete policy digest. */
  predicate Identified(full: string -> bool, s: Status) {
    && s.mode.Some? && Strip(s.mode.value) != ""
    && s.policyDigest.Some? && full(s.policyDigest.value)
  }

  lemma NamesExactly(m: Model, alias: Option<string>, x: string)
    ensures x in Identifiers(m, alias) <==> NamedAs(m, alias, x)
  {
    hide Strip, Lower;
    assert forall s :: LowerNonEmpty(s) == Some(x) <==> IsName(s, x);
  }

  lemma EntryExactly(full: string -> bool, key: (string, string), row: Row, s: Status, m: Model, alias: Option<string>, now: int)
    requires Identified(full, s)
    ensures Entry(full, key, row, s, Identifiers(m, alias), now)
      <==> key.1 == Lower(Strip(s.mode.value)) && NamesModel(m, alias, key.0) && FreshEvidence(full, s, row, now)
  {
    hide Identifiers, NamedAs, Strip, Lower;
    NamesExactly(m, alias, key.0);
    NamesExactly(m, alias, RoutingCandidates.BaseId(key.0));
  }

  /** The database check passes if and only if the status is identified and some loaded row under its mode that names
      the model, or its alias, is fresh evidence. An expired row, or one of another policy or mode, never passes. */
  lemma DbCoversExactly(full: string -> bool, snapshot: Snapshot, s: Status, m: Model, alias: Option<string>, now: int)
    ensures DbCovers(full, snapshot, s, m, alias, now) <==>
      && Identified(full, s)
      && exists key :: key in snapshot && key.1 == Lower(Strip(s.mode.value)) && NamesModel(m, alias, key.0)
                       && FreshEvidence(full, s, snapshot[key], now)
  {
    hide Entry, Identifiers, NamesModel, FreshEvidence, Strip, Lower;
    if Identified(full, s) {
      forall key | key in snapshot
        ensures Entry(full, key, snapshot[key], s, Identifiers(m, alias), now)
          <==> key.1 == Lower(Strip(s.mode.value)) && NamesModel(m, alias, key.0) && FreshEvidence(full, s, snapshot[key], now)
      {
        EntryExactly(full, key, snapshot[key], s, m, alias, now);
      }
    }
  }

  /** The in-memory check compares the alias with the selectors, and the forwarded id when it is the alias behind a
      prefix, but not for PPQ; without an alias all names of the model. */
  lemma RouteIdentifiersExactly(s: Status, m: Model, alias: Option<string>, x: string)
    ensures x in RouteIdentifiers(s, m, alias) <==>
      if alias.None? || Strip(alias.value) == "" then NamedAs(m, None, x)
      else IsName(alias, x)
           || (IsName(m.forwardedId, x) && IsName(alias, RoutingCandidates.BaseId(x)) && !IsName(s.mode, "ppq-private-tee"))
  {
    hide Strip, Lower;
    NamesExactly(m, None, x);
  }

  /** Verified now, with a complete policy and evidence digest and a named verifier. */
  predicate Current(full: string -> bool, s: Status, now: int) {
    && s.enabled && s.verified
    && s.verifiedAt.Some? && s.expiresAt.Some? && s.verifiedAt.value <= now < s.expiresAt.value
    && LowerNonEmpty(s.mode).Some?
    && s.policyDigest.Some? && full(s.policyDigest.value)
    && s.evidenceDigest.Some? && full(s.evidenceDigest.value)
    && NonEmpty(s.verifier).Some?
  }

  // ---------- Persist, then load ----------

  lemma {:induction false} WithRowsHas(rows: Rows, provider: int, mode: string, ids: seq<string>, row: Row, k: RowKey)
    ensures var r := WithRows(rows, provider, mode, ids, row);
      var mine := k.provider == provider && k.mode == mode && k.modelId in ids;
      && (k in r <==> mine || k in rows)
      && (k in r ==> r[k] == if mine then row else rows[k])
  {
    if ids != [] {
      WithRowsHas(rows, provider, mode, ids[..|ids| - 1], row, k);
      assert ids == ids[..|ids| - 1] + [ids[|ids| - 1]];
    }
  }

  /** A provider that shares its id with no other has its rows in the table afterwards. */
  lemma {:induction false} OwnRowsStay(rows: Rows, providers: seq<Attested>, i: nat, m: string)
    requires i < |providers| && providers[i].dbId.Some? && providers[i].status.Some?
    requires forall j :: 0 <= j < |providers| && j != i ==> providers[j].dbId != providers[i].dbId
    requires NonEmpty(providers[i].status.value.mode).Some? && m in PersistedIds(providers[i].status.value.modelIds)
    ensures var k := RowKey(providers[i].dbId.value, m, NonEmpty(providers[i].status.value.mode).value);
      k in PersistAll(rows, providers) && PersistAll(rows, providers)[k] == RowFor(providers[i].status.value)
  {
    hide PersistedIds, RowFor, NonEmpty, WithRows;
    var front, last := providers[..|providers| - 1], providers[|providers| - 1];
    var k := RowKey(providers[i].dbId.value, m, NonEmpty(providers[i].status.value.mode).value);
    var before := PersistAll(rows, front);
    if i < |front| {
      OwnRowsStay(rows, front, i, m);
    }
    if last.dbId.Some? && last.status.Some? && NonEmpty(last.status.value.mode).Some? {
      WithRowsHas(before, last.dbId.value, NonEmpty(last.status.value.mode).value,
                  PersistedIds(last.status.value.modelIds), RowFor(last.status.value), k);
    }
  }

  predicate Readable(k: RowKey, provider: int) {
    k.provider == provider && NonEmpty(Some(k.modelId)).Some? && NonEmpty(Some(k.mode)).Some?
  }

  /** No other row of this provider has the same key up to letter case and outer space. */
  ghost predicate NoVariant(rows: Rows, k: RowKey) {
    forall l :: l in rows && Readable(l, k.provider) && FoldedKey(l) == FoldedKey(k) ==> l == k
  }

  lemma {:induction false} LoadedRow(rows: Rows, result: seq<RowKey>, k: RowKey)
    requires (forall l :: l in result ==> l in rows) && k in result && Readable(k, k.provider) && NoVariant(rows, k)
    ensures var s := Loaded(rows, result, k.provider); FoldedKey(k) in s && s[FoldedKey(k)] == rows[k]
  {
    var front, last := result[..|result| - 1], result[|result| - 1];
    assert result == front + [last] && last in result;
    if last != k {
      LoadedRow(rows, front, k);
      assert Readable(last, k.provider) ==> FoldedKey(last) != FoldedKey(k);
    }
  }

  /** The row at `j` is the last one read under its lowercased key. */
  predicate ReadLast(result: seq<RowKey>, j: nat, provider: int)
    requires j < |result|
  {
    Readable(result[j], provider)
    && forall l :: j < l < |result| && Readable(result[l], provider) ==> FoldedKey(result[l]) != FoldedKey(result[j])
  }

  /** A snapshot holds the row read last under each lowercased key, and nothing else. */
  lemma {:induction false} LoadedExactly(rows: Rows, result: seq<RowKey>, provider: int, key: (string, string), row: Row)
    requires forall k :: k in result ==> k in rows
    ensures var s := Loaded(rows, result, provider);
      key in s && s[key] == row <==>
        exists j :: 0 <= j < |result| && ReadLast(result, j, provider) && FoldedKey(result[j]) == key && rows[result[j]] == row
  {
    hide FoldedKey, NonEmpty, Readable;
    if result != [] {
      var front, last := result[..|result| - 1], result[|result| - 1];
      assert result == front + [last] && last in result;
      LoadedExactly(rows, front, provider, key, row);
      LastRead(rows, result, provider);
      forall j | 0 <= j < |front|
        ensures ReadLast(result, j, provider) <==>
          ReadLast(front, j, provider) && (Readable(last, provider) ==> FoldedKey(last) != FoldedKey(front[j]))
      {
        ReadEarlier(result, j, provider);
      }
      assert forall j :: 0 <= j < |front| ==> front[j] == result[j];
    }
  }

  lemma ReadEarlier(result: seq<RowKey>, j: nat, provider: int)
    requires j < |result| - 1
    ensures var front, last := result[..|result| - 1], result[|result| - 1];
      ReadLast(result, j, provider) <==>
        ReadLast(front, j, provider) && (Readable(last, provider) ==> FoldedKey(last) != FoldedKey(front[j]))
  {
    hide FoldedKey, Readable;
    var front := result[..|result| - 1];
    assert forall l :: 0 <= l < |front| ==> front[l] == result[l];
  }

  lemma LastRead(rows: Rows, result: seq<RowKey>, provider: int)
    requires (forall k :: k in result ==> k in rows) && result != []
    ensures var n := |result| - 1; result[n] in result && forall k :: k in result[..n] ==> k in rows
    ensures var n := |result| - 1;
      Loaded(rows, result, provider) ==
        if Readable(result[n], provider) then Loaded(rows, result[..n], provider)[FoldedKey(result[n]) := rows[result[n]]]
        else Loaded(rows, result[..n], provider)
    ensures ReadLast(result, |result| - 1, provider) <==> Readable(result[|result| - 1], provider)
  {
    hide FoldedKey;
  }

  /** The row under a key after a refresh: the status's own, where it wrote one, else the one stored before. */
  function RowAfter(rows: Rows, a: Attested, k: RowKey): Option<Row>
    requires a.status.Some?
  {
    var s := a.status.value;
    if OwnKey(a, k) then Some(Row(s.verified, s.verifiedAt, s.expiresAt, s.policyDigest, s.evidenceDigest, s.verifier))
    else if k in rows then Some(rows[k]) else None
  }

  lemma RowAfterRefresh(rows: Rows, providers: seq<Attested>, i: nat, k: RowKey)
    requires i < |providers| && providers[i].dbId == Some(k.provider) && providers[i].status.Some?
    requires forall j :: 0 <= j < |providers| && j != i ==> providers[j].dbId != providers[i].dbId
    requires k in PersistAll(rows, providers)
    ensures RowAfter(rows, providers[i], k) == Some(PersistAll(rows, providers)[k])
  {
    hide PersistedIds, NonEmpty, PersistAll;
    if OwnKey(providers[i], k) {
      OwnRowsStay(rows, providers, i, k.modelId);
    } else {
      UnwrittenRowsStay(rows, providers, k);
    }
  }

  /** The row read last under its key is, after the refresh, fresh evidence for the model. */
  predicate Proves(full: string -> bool, rows: Rows, a: Attested, result: seq<RowKey>, j: nat, m: Model, alias: Option<string>, now: int)
    requires j < |result| && a.dbId.Some? && a.status.Some?
  {
    var s, k := a.status.value, result[j];
    && s.mode.Some? && ReadLast(result, j, a.dbId.value)
    && Lower(Strip(k.mode)) == Lower(Strip(s.mode.value)) && NamesModel(m, alias, Lower(Strip(k.modelId)))
    && RowAfter(rows, a, k).Some? && FreshEvidence(full, s, RowAfter(rows, a, k).value, now)
  }

  /** After a refresh a model passes the database check if and only if the status is identified and some row of the
      provider, read last under its key and either just written or stored before, is fresh evidence for it. */
  lemma PassesAfterRefreshIff(full: string -> bool, rows: Rows, providers: seq<Attested>, i: nat, result: seq<RowKey>,
                              m: Model, alias: Option<string>, now: int)
    requires i < |providers| && providers[i].dbId.Some? && providers[i].status.Some?
    requires forall j :: 0 <= j < |providers| && j != i ==> providers[j].dbId != providers[i].dbId
    requires forall k :: k in result ==> k in PersistAll(rows, providers)
    ensures DbCovers(full, Loaded(PersistAll(rows, providers), result, providers[i].dbId.value), providers[i].status.value, m, alias, now)
      <==> Identified(full, providers[i].status.value)
           && exists j :: 0 <= j < |result| && Proves(full, rows, providers[i], result, j, m, alias, now)
  {
    hide PersistAll, NamesModel, FreshEvidence, RowAfter, Strip, Lower, DbCovers, Loaded, ReadLast;
    var s, all, id := providers[i].status.value, PersistAll(rows, providers), providers[i].dbId.value;
    var snapshot := Loaded(all, result, id);
    DbCoversExactly(full, snapshot, s, m, alias, now);
    if DbCovers(full, snapshot, s, m, alias, now) {
      var key :| key in snapshot && key.1 == Lower(Strip(s.mode.value)) && NamesModel(m, alias, key.0) && FreshEvidence(full, s, snapshot[key], now);
      LoadedExactly(all, result, id, key, snapshot[key]);
      var j :| 0 <= j < |result| && ReadLast(result, j, id) && FoldedKey(result[j]) == key && all[result[j]] == snapshot[key];
      ReadLastIsOwn(result, j, id);
      RowAfterRefresh(rows, providers, i, result[j]);
      assert Proves(full, rows, providers[i], result, j, m, alias, now);
    }
    if j :| 0 <= j < |result| && Proves(full, rows, providers[i], result, j, m, alias, now) {
      ReadLastIsOwn(result, j, id);
      RowAfterRefresh(rows, providers, i, result[j]);
      LoadedExactly(all, result, id, FoldedKey(result[j]), all[result[j]]);
      assert FoldedKey(result[j]) in snapshot;
    }
  }

  lemma ReadLastIsOwn(result: seq<RowKey>, j: nat, provider: int)
    requires j < |result| && ReadLast(result, j, provider)
    ensures result[j].provider == provider && result[j] in result
  {
  }

  /** Right after persisting and loading, a model that an exact selector of a current status covers also passes
      the database check, whatever else the table holds and in whatever order it is read, as long as no
      stored row differs from the status's own rows only in letter case or outer space. */
  lemma PersistThenLoadAgrees(full: string -> bool, rows: Rows, providers: seq<Attested>, i: nat, result: seq<RowKey>,
                              m: Model, alias: Option<string>, now: int)
    requires i < |providers| && providers[i].dbId.Some? && providers[i].status.Some?
    requires forall j :: 0 <= j < |providers| && j != i ==> providers[j].dbId != providers[i].dbId
    requires Current(full, providers[i].status.value, now)
    requires var s := providers[i].status.value;
      Selectors(s.modelIds).Some? && exists x :: x in RouteIdentifiers(s, m, alias) && x in Selectors(s.modelIds).value
    requires forall k :: k in result ==> k in PersistAll(rows, providers)
    requires forall k :: k in PersistAll(rows, providers) && k.provider == providers[i].dbId.value ==> k in result
    requires forall k :: k in PersistAll(rows, providers) && OwnKey(providers[i], k) ==> NoVariant(PersistAll(rows, providers), k)
    ensures DbCovers(full, Loaded(PersistAll(rows, providers), result, providers[i].dbId.value), providers[i].status.value, m, alias, now)
  {
    var s, all := providers[i].status.value, PersistAll(rows, providers);
    var x :| x in RouteIdentifiers(s, m, alias) && x in Selectors(s.modelIds).value;
    RouteIdentifiersAreIdentifiers(s, m, alias);
    SelectorsArePersisted(s.modelIds, x);
    var own :| own in PersistedIds(s.modelIds) && Lower(own) == x && Strip(own) == own;
    OwnRowsStay(rows, providers, i, own);
    var k := RowKey(providers[i].dbId.value, own, NonEmpty(s.mode).value);
    KeyFolds(s, own, k);
    LoadedRow(all, result, k);
    assert Entry(full, FoldedKey(k), all[k], s, Identifiers(m, alias), now);
  }

  predicate OwnKey(a: Attested, k: RowKey)
    requires a.status.Some?
  {
    && Some(k.provider) == a.dbId && Some(k.mode) == NonEmpty(a.status.value.mode)
    && k.modelId in PersistedIds(a.status.value.modelIds)
  }

  lemma KeyFolds(s: Status, own: string, k: RowKey)
    requires own in PersistedIds(s.modelIds) && Strip(own) == own && NonEmpty(s.mode).Some?
    requires k.modelId == own && Some(k.mode) == NonEmpty(s.mode)
    ensures Readable(k, k.provider) && FoldedKey(k) == (Lower(own), LowerNonEmpty(s.mode).value)
  {
    NormalFormsAreStable(s.mode.value);
  }

  /** A row that no status of this round writes is the one stored before. */
  lemma {:induction false} UnwrittenRowsStay(rows: Rows, providers: seq<Attested>, k: RowKey)
    requires k in PersistAll(rows, providers)
    requires forall i :: 0 <= i < |providers| && providers[i].status.Some? ==> !OwnKey(providers[i], k)
    ensures k in rows && PersistAll(rows, providers)[k] == rows[k]
  {
    if providers != [] {
      var front, last := providers[..|providers| - 1], providers[|providers| - 1];
      assert last == providers[|front|];
      var before := PersistAll(rows, front);
      if last.dbId.Some? && last.status.Some? && NonEmpty(last.status.value.mode).Some? {
        WithRowsHas(before, last.dbId.value, NonEmpty(last.status.value.mode).value,
                    PersistedIds(last.status.value.modelIds), RowFor(last.status.value), k);
      }
      assert forall i :: 0 <= i < |front| ==> front[i] == providers[i];
      UnwrittenRowsStay(rows, front, k);
    }
  }

  lemma {:induction false} LoadedFrom(rows: Rows, result: seq<RowKey>, provider: int, key: (string, string))
    requires (forall k :: k in result ==> k in rows) && key in Loaded(rows, result, provider)
    ensures exists k :: k in result && LoadsAs(rows, provider, k, key, Loaded(rows, result, provider)[key])
  {
    var front, last := result[..|result| - 1], result[|result| - 1];
    assert result == front + [last] && last in result;
    if !LoadsAs(rows, provider, last, key, Loaded(rows, result, provider)[key]) {
      LoadedFrom(rows, front, provider, key);
    }
  }

  predicate LoadsAs(rows: Rows, provider: int, k: RowKey, key: (string, string), row: Row) {
    k in rows && k.provider == provider && FoldedKey(k) == key && rows[k] == row
  }

  /** A row stored before the refresh that is fresh evidence for the model under this status. */
  predicate StoredBefore(full: string -> bool, rows: Rows, id: int, s: Status, m: Model, alias: Option<string>, now: int, k: RowKey) {
    && k in rows && k.provider == id && IsName(s.mode, Lower(Strip(k.mode)))
    && NamesModel(m, alias, Lower(Strip(k.modelId))) && FreshEvidence(full, s, rows[k], now)
  }

  /** A provider whose status names no model, for instance because it covers by prefix only, passes the database check
      only through a row of an earlier status that still stands; without one it fails for every model. */
  lemma UnlistedModelsFailClosed(full: string -> bool, rows: Rows, providers: seq<Attested>, id: int, result: seq<RowKey>,
                                 s: Status, m: Model, alias: Option<string>, now: int)
    requires forall j :: 0 <= j < |providers| && providers[j].dbId == Some(id) && providers[j].status.Some? ==>
      PersistedIds(providers[j].status.value.modelIds) == []
    requires forall k :: k in result ==> k in PersistAll(rows, providers)
    ensures DbCovers(full, Loaded(PersistAll(rows, providers), result, id), s, m, alias, now) ==>
      exists k :: StoredBefore(full, rows, id, s, m, alias, now, k)
  {
    hide Loaded, NamesModel, FreshEvidence, Strip, Lower, DbCovers, PersistAll;
    var all := PersistAll(rows, providers);
    var snapshot := Loaded(all, result, id);
    DbCoversExactly(full, snapshot, s, m, alias, now);
    if DbCovers(full, snapshot, s, m, alias, now) {
      var key :| key in snapshot && key.1 == Lower(Strip(s.mode.value)) && NamesModel(m, alias, key.0) && FreshEvidence(full, s, snapshot[key], now);
      LoadedFrom(all, result, id, key);
      var k :| k in result && LoadsAs(all, id, k, key, snapshot[key]);
      UnwrittenRowsStay(rows, providers, k);
      assert StoredBefore(full, rows, id, s, m, alias, now, k);
    }
  }

  // ---------- Rows that differ only in letter case ----------

  /** The rows of the provider in some order, each once. */
  ghost predicate Enumerates(rows: Rows, provider: int, result: seq<RowKey>) {
    && (forall k :: k in result <==> k in rows && k.provider == provider)
    && (forall i, j :: 0 <= i < j < |result| ==> result[i] != result[j])
  }

  predicate GoodEntry(good: Row -> bool, s: Snapshot, key: (string, string)) {
    key in s && good(s[key])
  }

  predicate Variant(rows: Rows, provider: int, key: (string, string), k: RowKey) {
    k in rows && Readable(k, provider) && FoldedKey(k) == key
  }

  ghost predicate GoodInEveryOrder(good: Row -> bool, rows: Rows, provider: int, key: (string, string)) {
    forall result :: Enumerates(rows, provider, result) ==> GoodAfter(good, rows, provider, key, result)
  }

  ghost predicate GoodAfter(good: Row -> bool, rows: Rows, provider: int, key: (string, string), result: seq<RowKey>)
    requires Enumerates(rows, provider, result)
  {
    GoodEntry(good, Loaded(rows, result, provider), key)
  }

  lemma {:induction false} LastVariantWins(rows: Rows, result: seq<RowKey>, provider: int, key: (string, string))
    requires forall l :: l in result ==> l in rows
    ensures key in Loaded(rows, result, provider) <==> exists k :: k in result && Variant(rows, provider, key, k)
    ensures key in Loaded(rows, result, provider) ==> exists k :: k in result && Variant(rows, provider, key, k) && Loaded(rows, result, provider)[key] == rows[k]
  {
    if result != [] {
      var front, last := result[..|result| - 1], result[|result| - 1];
      assert result == front + [last] && last in result;
      LastVariantWins(rows, front, provider, key);
    }
  }

  ghost function Enumeration(s: set<RowKey>): (r: seq<RowKey>)
    ensures forall k :: k in r <==> k in s
    ensures forall i, j :: 0 <= i < j < |r| ==> r[i] != r[j]
  {
    if s == {} then []
    else
      var k :| k in s;
      [k] + Enumeration(s - {k})
  }

  ghost predicate AllVariantsGood(good: Row -> bool, rows: Rows, provider: int, key: (string, string)) {
    && (exists k :: Variant(rows, provider, key, k))
    && (forall k :: Variant(rows, provider, key, k) ==> good(rows[k]))
  }

  lemma OneMoreLoaded(rows: Rows, front: seq<RowKey>, k: RowKey, provider: int)
    requires (forall l :: l in front ==> l in rows) && k in rows && Readable(k, provider)
    ensures forall l :: l in front + [k] ==> l in rows
    ensures Loaded(rows, front + [k], provider) == Loaded(rows, front, provider)[FoldedKey(k) := rows[k]]
  {
    hide NonEmpty, FoldedKey;
    assert (front + [k])[..|front + [k]| - 1] == front;
  }

  lemma VariantCanBeLast(rows: Rows, provider: int, k: RowKey) returns (result: seq<RowKey>)
    requires k in rows && Readable(k, provider)
    ensures Enumerates(rows, provider, result)
    ensures FoldedKey(k) in Loaded(rows, result, provider) && Loaded(rows, result, provider)[FoldedKey(k)] == rows[k]
  {
    hide NonEmpty, FoldedKey, Loaded;
    var others := Enumeration((set l | l in rows && l.provider == provider) - {k});
    result := others + [k];
    OneMoreLoaded(rows, others, k, provider);
  }

  lemma OrderCanDecide(good: Row -> bool, rows: Rows, provider: int, key: (string, string))
    requires GoodInEveryOrder(good, rows, provider, key)
    ensures AllVariantsGood(good, rows, provider, key)
  {
    var some := Enumeration(set l | l in rows && l.provider == provider);
    assert Enumerates(rows, provider, some);
    assert GoodAfter(good, rows, provider, key, some);
    LastVariantWins(rows, some, provider, key);
    forall k | Variant(rows, provider, key, k)
      ensures good(rows[k])
    {
      var last := VariantCanBeLast(rows, provider, k);
      assert GoodAfter(good, rows, provider, key, last);
    }
  }

  lemma OrderCannotDecide(good: Row -> bool, rows: Rows, provider: int, key: (string, string))
    requires AllVariantsGood(good, rows, provider, key)
    ensures GoodInEveryOrder(good, rows, provider, key)
  {
    var k :| Variant(rows, provider, key, k);
    forall result | Enumerates(rows, provider, result)
      ensures GoodAfter(good, rows, provider, key, result)
    {
      assert k in result;
      LastVariantWins(rows, result, provider, key);
    }
  }

  /** A folded key stands however the rows are read if and only if it has a row and all its case variants
      stand; a single bad variant is enough for the read order to decide. */
  lemma EveryOrderAgreesIff(good: Row -> bool, rows: Rows, provider: int, key: (string, string))
    ensures GoodInEveryOrder(good, rows, provider, key) <==> AllVariantsGood(good, rows, provider, key)
  {
    if GoodInEveryOrder(good, rows, provider, key) {
      OrderCanDecide(good, rows, provider, key);
    }
    if AllVariantsGood(good, rows, provider, key) {
      OrderCannotDecide(good, rows, provider, key);
    }
  }

  function RowAt(s: Snapshot, key: (string, string)): Option<Row> {
    if key in s then Some(s[key]) else None
  }

  /** Every order of reading loads the same row for the key, or none. */
  ghost predicate LoadsAlike(rows: Rows, provider: int, key: (string, string)) {
    forall r, q :: Enumerates(rows, provider, r) && Enumerates(rows, provider, q) ==> SameAfter(rows, provider, key, r, q)
  }

  ghost predicate SameAfter(rows: Rows, provider: int, key: (string, string), r: seq<RowKey>, q: seq<RowKey>)
    requires Enumerates(rows, provider, r) && Enumerates(rows, provider, q)
  {
    RowAt(Loaded(rows, r, provider), key) == RowAt(Loaded(rows, q, provider), key)
  }

  ghost predicate VariantsAlike(rows: Rows, provider: int, key: (string, string)) {
    forall k, l :: Variant(rows, provider, key, k) && Variant(rows, provider, key, l) ==> rows[k] == rows[l]
  }

  /** What a lowercased key loads does not depend on the read order if and only if all its case variants hold the
      same row. */
  lemma LoadsAlikeIff(rows: Rows, provider: int, key: (string, string))
    ensures LoadsAlike(rows, provider, key) <==> VariantsAlike(rows, provider, key)
  {
    if LoadsAlike(rows, provider, key) {
      forall k, l | Variant(rows, provider, key, k) && Variant(rows, provider, key, l)
        ensures rows[k] == rows[l]
      {
        var r := VariantCanBeLast(rows, provider, k);
        var q := VariantCanBeLast(rows, provider, l);
        assert SameAfter(rows, provider, key, r, q);
      }
    }
    if VariantsAlike(rows, provider, key) {
      forall r, q | Enumerates(rows, provider, r) && Enumerates(rows, provider, q)
        ensures SameAfter(rows, provider, key, r, q)
      {
        LastVariantWins(rows, r, provider, key);
        LastVariantWins(rows, q, provider, key);
        assert forall k :: Variant(rows, provider, key, k) ==> k in r && k in q;
      }
    }
  }

  lemma Letter(c: char)
    requires !IsSpace(c)
    ensures Strip([c]) == [c] && Lower([c]) == [LowerChar(c)]
  {
    StripIsStripped([c]);
    assert [c][1..] == "";
  }

  /** A verified row for "M" and an unverified one for "m": the one read last is loaded. */
  lemma ReadOrderDecides(verified: Row, unverified: Row)
    ensures var upper, lower := RowKey(1, "M", "x"), RowKey(1, "m", "x");
      var rows := map[upper := verified, lower := unverified];
      && RowAt(Loaded(rows, [lower, upper], 1), ("m", "x")) == Some(verified)
      && RowAt(Loaded(rows, [upper, lower], 1), ("m", "x")) == Some(unverified)
  {
    var upper, lower := RowKey(1, "M", "x"), RowKey(1, "m", "x");
    var rows := map[upper := verified, lower := unverified];
    Letter('M');
    Letter('m');
    Letter('x');
    assert LowerChar('M') == 'm' && LowerChar('m') == 'm' && LowerChar('x') == 'x';
    assert FoldedKey(upper) == ("m", "x") && FoldedKey(lower) == ("m", "x");
    assert [lower, upper][..1] == [lower] && [upper, lower][..1] == [upper];
  }
}
