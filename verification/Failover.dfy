/** Routing one authenticated request: filter the providers of the model, reserve once, try them in order, and
    end the reservation once. */
module Failover {
  import opened Wrappers
  import Text
  import opened ApiKeyRows
  import opened KeyTable

  /** How a contacted provider answers. A 200 response settles the reservation inside the forwarder. An upstream
      error leaves the reservation alone, except when it stands for a 200 answer that could not be priced: then
      the settlement has already released it. */
  datatype Outcome =
    | Response(status: int, cost: CostOutcome, seenBalance: int)
    | UpstreamError(released: bool)
    | UnexpectedError

  /** A provider as the filters see it for this model and path, how it would answer, and what other requests do to
      the table while it is contacted. */
  datatype Upstream = Upstream(
    supportsEndpoint: bool,    // the path's required endpoint
    needsKnownEndpoint: bool,  // refuses paths without a recognised endpoint
    attested: bool,            // currently verified for the model and alias, with public metadata
    outcome: Outcome,
    meanwhile: seq<(KeyHash, Statement)>)

  datatype Refusal = UnknownModel | NoProvider | UnsupportedEndpoint | NotAttested | TeeUnavailable | Payment(error: PayError)

  datatype Reply = Refused(reason: Refusal) | Answered(at: nat) | Failed(at: nat) | Raised(at: nat)

  predicate SupportsEndpoint(u: Upstream) {
    u.supportsEndpoint
  }

  predicate AcceptsAnyPath(u: Upstream) {
    !u.needsKnownEndpoint
  }

  predicate Attested(u: Upstream) {
    u.attested
  }

  function Filter(us: seq<Upstream>, keep: Upstream -> bool): seq<Upstream> {
    if us == [] then []
    else (if keep(us[0]) then [us[0]] else []) + Filter(us[1..], keep)
  }

  lemma {:induction false} FilterMembers(us: seq<Upstream>, keep: Upstream -> bool)
    ensures forall u :: u in Filter(us, keep) <==> u in us && keep(u)
  {
    if us != [] {
      FilterMembers(us[1..], keep);
      assert us == [us[0]] + us[1..];
    }
  }

  /** The providers a request may be sent to, in ranking order, or the refusal. */
  function Eligible(us: seq<Upstream>, endpointKnown: bool, confidential: bool): Result<seq<Upstream>, Refusal> {
    if us == [] then Failure(if confidential then NotAttested else NoProvider)
    else
      var byPath :=
        if endpointKnown then Filter(us, SupportsEndpoint)
        else if confidential then []
        else Filter(us, AcceptsAnyPath);
      if byPath == [] then Failure(UnsupportedEndpoint)
      else
        var allowed := if confidential then Filter(byPath, Attested) else byPath;
        if allowed == [] then Failure(NotAttested) else Success(allowed)
  }

  /** Filtering goes through a list piece by piece, so the ranking order stays. */
  lemma {:induction false} FilterKeepsOrder(us: seq<Upstream>, vs: seq<Upstream>, keep: Upstream -> bool)
    ensures Filter(us + vs, keep) == Filter(us, keep) + Filter(vs, keep)
    ensures forall u :: Filter([u], keep) == if keep(u) then [u] else []
  {
    forall u
      ensures Filter([u], keep) == if keep(u) then [u] else []
    {
      assert [u][1..] == [];
    }
    if us == [] {
      assert us + vs == vs;
    } else {
      assert (us + vs)[1..] == us[1..] + vs;
      FilterKeepsOrder(us[1..], vs, keep);
    }
  }

  /** Can serve the path: supports its endpoint, or, on an unrecognised path, asks for none. */
  predicate OnPath(u: Upstream, endpointKnown: bool, confidential: bool) {
    if endpointKnown then u.supportsEndpoint else !confidential && !u.needsKnownEndpoint
  }

  /** Nobody unattested is ever eligible in confidential mode, no eligible provider is left out, and each refusal
      has its reason. */
  lemma EligibleExactly(us: seq<Upstream>, endpointKnown: bool, confidential: bool)
    ensures var e := Eligible(us, endpointKnown, confidential);
      && (e.Success? ==> forall u :: u in e.value <==> u in us && OnPath(u, endpointKnown, confidential) && (confidential ==> u.attested))
      && (e.Success? <==> exists u :: u in us && OnPath(u, endpointKnown, confidential) && (confidential ==> u.attested))
      && (e == Failure(NoProvider) <==> us == [] && !confidential)
      && (e == Failure(UnsupportedEndpoint) <==> us != [] && forall u :: u in us ==> !OnPath(u, endpointKnown, confidential))
      && (e.Failure? ==> e.error in {NoProvider, UnsupportedEndpoint, NotAttested})
  {
    FilterMembers(us, SupportsEndpoint);
    FilterMembers(us, AcceptsAnyPath);
    FilterMembers(Filter(us, SupportsEndpoint), Attested);
    var byPath := if endpointKnown then Filter(us, SupportsEndpoint) else if confidential then [] else Filter(us, AcceptsAnyPath);
    assert forall u :: u in byPath <==> u in us && OnPath(u, endpointKnown, confidential);
    if byPath != [] {
      assert byPath[0] in us && OnPath(byPath[0], endpointKnown, confidential);
      var allowed := if confidential then Filter(byPath, Attested) else byPath;
      if allowed != [] {
        assert allowed[0] in allowed;
      }
    }
    if us != [] {
      assert us[0] in us;
    }
  }

  /** May the loop go on to the next provider? */
  predicate Retries(o: Outcome) {
    match o
    case Response(status, _, _) => status in {502, 429, 400, 401, 403, 404}
    case UpstreamError(_) => true
    case UnexpectedError => false
  }

  predicate Settled(o: Outcome) {
    o.Response? && o.status == 200
  }

  /** The loop goes on after an upstream error and after the answers that another provider may not give; an answer
      that settled the reservation, an unexpected error and any other status end it. */
  lemma RetriesExactly(o: Outcome)
    ensures Settled(o) || o.UnexpectedError? ==> !Retries(o)
    ensures o.UpstreamError? ==> Retries(o)
    ensures o.Response? ==>
      (Retries(o) <==> o.status == 400 || o.status == 401 || o.status == 403 || o.status == 404 || o.status == 429 || o.status == 502)
  {
  }

  /** The provider whose outcome decides: everyone before it was retried, and it is not, or it is the last. */
  predicate Decides(us: seq<Upstream>, k: int) {
    && 0 <= k < |us|
    && (forall j :: 0 <= j < k ==> Retries(us[j].outcome))
    && (k == |us| - 1 || !Retries(us[k].outcome))
  }

  predicate Releases(o: Outcome) {
    o == UpstreamError(true)
  }

  lemma {:induction false} UpdatesKeepParents(rows: Rows, updates: seq<(KeyHash, Statement)>)
    ensures var after := AllUpdated(rows, updates);
      after.Keys == rows.Keys && forall k :: k in rows ==> after[k].parent == rows[k].parent
  {
    if updates != [] {
      UpdatesKeepParents(Updated(rows, updates[0].0, updates[0].1), updates[1..]);
    }
  }

  /** What contacting a provider does before the loop reacts, with what other requests do meanwhile. */
  function Contacted(rows: Rows, key: KeyHash, u: Upstream, cost: int): (after: Rows)
    requires key in rows
    ensures key in after
  {
    UpdatesKeepParents(rows, u.meanwhile);
    var now := AllUpdated(rows, u.meanwhile);
    if Settled(u.outcome) then SettledRows(now, key, Adjust(u.outcome.cost), cost, u.outcome.seenBalance)
    else if Releases(u.outcome) then SettledRows(now, key, Adjust(CostError), cost, 0)
    else now
  }

  function AllContacted(rows: Rows, key: KeyHash, us: seq<Upstream>, cost: int): (after: Rows)
    requires key in rows
    ensures key in after
  {
    if us == [] then rows
    else Contacted(AllContacted(rows, key, us[..|us| - 1], cost), key, us[|us| - 1], cost)
  }

  /** The table in the end: the contacts, and a revert unless the last one settled. */
  function Ended(rows: Rows, key: KeyHash, contacted: seq<Upstream>, cost: int): Rows
    requires key in rows && contacted != []
  {
    var after := AllContacted(rows, key, contacted, cost);
    if Settled(contacted[|contacted| - 1].outcome) then after else SettledRows(after, key, RevertRequest, cost, 0)
  }

  function ReleaseCount(us: seq<Upstream>): nat {
    if us == [] then 0
    else ReleaseCount(us[..|us| - 1]) + if Releases(us[|us| - 1].outcome) then 1 else 0
  }

  /** No answer among the contacts, and no other request in between. */
  predicate FailedAlone(us: seq<Upstream>) {
    forall j :: 0 <= j < |us| ==> !Settled(us[j].outcome) && us[j].meanwhile == []
  }

  /** A reserved balance after `n` guarded releases of the cost. */
  function Drained(reserved: int, cost: int, n: nat): int {
    if n == 0 then reserved
    else
      var r := Drained(reserved, cost, n - 1);
      if r >= cost then r - cost else r
  }

  lemma {:induction false} DrainedOnceMore(reserved: int, cost: int, n: nat)
    requires reserved >= 0 && cost >= 0
    ensures Drained(reserved + cost, cost, n + 1) == Drained(reserved, cost, n)
  {
    if n == 0 {
      assert Drained(reserved + cost, cost, 0) == reserved + cost;
    } else {
      DrainedOnceMore(reserved, cost, n - 1);
    }
  }

  lemma {:induction false} DrainedIff(reserved: int, cost: int, n: nat)
    requires reserved >= 0 && cost >= 0
    ensures Drained(reserved, cost, n) == reserved <==> n == 0 || reserved < cost || cost == 0
    ensures Drained(reserved, cost, n) <= reserved
  {
    if n > 0 {
      DrainedIff(reserved, cost, n - 1);
    }
  }

  /** What the request's own two rows look like after contacts that released but never settled. */
  predicate DrainedRow(before: Row, after: Row, cost: int, n: nat) {
    after == before.(reserved := Drained(before.reserved, cost, n))
  }

  /** One release, on the request's two rows and on the others. */
  lemma ReleaseDrains(rows: Rows, key: KeyHash, cost: int)
    requires key in rows
    ensures var after, b := SettledRows(rows, key, Adjust(CostError), cost, 0), BillingOf(rows, key);
      && after.Keys == rows.Keys && BillingOf(after, key) == b
      && (forall k :: k in rows && k != key && k != b ==> after[k] == rows[k])
      && (forall k :: k == key || k == b ==>
            after[k] == rows[k].(reserved := if rows[k].reserved >= cost then rows[k].reserved - cost else rows[k].reserved))
  {
  }

  lemma {:induction false} ContactsDrain(rows: Rows, key: KeyHash, us: seq<Upstream>, cost: int)
    requires key in rows && FailedAlone(us)
    ensures var after, b := AllContacted(rows, key, us, cost), BillingOf(rows, key);
      && after.Keys == rows.Keys && BillingOf(after, key) == b
      && (forall k :: k in rows && k != key && k != b ==> after[k] == rows[k])
      && (forall k :: k == key || k == b ==> DrainedRow(rows[k], after[k], cost, ReleaseCount(us)))
  {
    if us != [] {
      ContactsDrain(rows, key, us[..|us| - 1], cost);
      ReleaseDrains(AllContacted(rows, key, us[..|us| - 1], cost), key, cost);
    }
  }

  /** A revert takes back a reservation completely, on the key and on its parent, counters included. */
  lemma RevertUndoesReserve(rows: Rows, key: KeyHash, cost: int)
    requires key in rows && cost >= 0
    requires rows[key].reserved >= 0 && rows[BillingOf(rows, key)].reserved >= 0
    requires rows[BillingOf(rows, key)].TotalBalance() >= cost
    ensures SettledRows(ReservedRows(rows, key, cost), key, RevertRequest, cost, 0) == rows
  {
    var b := BillingOf(rows, key);
    var reserved := ReservedRows(rows, key, cost);
    assert BillingOf(reserved, key) == b;
    assert reserved[b].reserved == rows[b].reserved + cost;
    var reverted := SettledRows(reserved, key, RevertRequest, cost, 0);
    assert reverted.Keys == rows.Keys;
    forall k | k in rows
      ensures reverted[k] == rows[k]
    {
    }
  }

  /** A revert that no reservation precedes is a no-op exactly when no other request holds that much. */
  lemma UnpairedRevert(rows: Rows, key: KeyHash, cost: int)
    requires key in rows && cost > 0
    ensures SettledRows(rows, key, RevertRequest, cost, 0) == rows
        <==> rows[key].reserved < cost && rows[BillingOf(rows, key)].reserved < cost
  {
    var b := BillingOf(rows, key);
    var after := SettledRows(rows, key, RevertRequest, cost, 0);
    SettledWithoutCharge(rows, key, RevertRequest, cost, 0);
    if rows[b].reserved >= cost {
      assert after[b].reserved != rows[b].reserved;
    }
    if rows[key].reserved >= cost {
      assert after[key].reserved != rows[key].reserved;
    }
  }

  /** One provider is contacted; an answer settles the reservation, one that cannot be priced releases it. */
  method Contact(table: Table, key: KeyHash, u: Upstream, cost: int) returns (ends: nat)
    requires key in table.rows
    modifies table
    ensures key in table.rows && table.rows == Contacted(old(table.rows), key, u, cost)
    ensures ends == if Settled(u.outcome) || Releases(u.outcome) then 1 else 0
  {
    hide SettledRows, AllUpdated, OnlyBillingPays, ChargedInFull, ChargedUpToBalance;
    UpdatesKeepParents(table.rows, u.meanwhile);
    table.Interleave(u.meanwhile);
    ends := 0;
    if Settled(u.outcome) {
      var _, _ := table.AdjustPaymentForTokens(key, u.outcome.cost, cost, u.outcome.seenBalance);
      ends := 1;
    } else if Releases(u.outcome) {
      var _, _ := table.AdjustPaymentForTokens(key, CostError, cost, 0);
      ends := 1;
    }
  }

  /** The failover loop over a non-empty list. The statement after it is never reached. */
  method TryInOrder(table: Table, key: KeyHash, us: seq<Upstream>, cost: int)
    returns (reply: Reply, contacted: seq<Upstream>, ended: nat)
    requires key in table.rows && us != []
    modifies table
    ensures !reply.Refused?
    ensures Decides(us, reply.at) && contacted == us[..reply.at + 1]
    ensures reply.Answered? <==> Settled(us[reply.at].outcome)
    ensures reply.Raised? <==> us[reply.at].outcome.UnexpectedError?
    ensures ended == 1 + ReleaseCount(contacted)
    ensures contacted != [] && table.rows == Ended(old(table.rows), key, contacted, cost)
  {
    hide Contacted, SettledRows, BillingOf;
    contacted, ended := [], 0;
    for i := 0 to |us|
      invariant contacted == us[..i]
      invariant forall j :: 0 <= j < i ==> Retries(us[j].outcome)
      invariant i == |us| ==> i == 0
      invariant key in table.rows && table.rows == AllContacted(old(table.rows), key, contacted, cost)
      invariant ended == ReleaseCount(contacted)
    {
      contacted := contacted + [us[i]];
      assert contacted[..i] == us[..i];
      var ends := Contact(table, key, us[i], cost);
      ended := ended + ends;
      var o := us[i].outcome;
      if Settled(o) {
        return Answered(i), contacted, ended;
      }
      var last := i == |us| - 1;
      if last || !Retries(o) {
        var _ := table.RevertPayForRequest(key, cost);
        ended := ended + 1;
        return if o.UnexpectedError? then Raised(i) else Failed(i), contacted, ended;
      }
    }
    assert false;
  }

  /** What the request says before any provider is chosen: whether it carries a non-empty JSON object or form, and
      the model it names there, if any. */
  datatype Body = Empty | Filled(model: Option<string>)

  /** A request that names no model asks for this one. */
  const UNNAMED := "unknown"

  function ModelName(body: Body): string {
    if body.Filled? && body.model.Some? then body.model.value else UNNAMED
  }

  /** The name without a version suffix of eight digits. */
  function WithoutVersion(s: string): string {
    if |s| >= 9 && s[|s| - 9] == '-' && forall i :: |s| - 8 <= i < |s| ==> Text.IsDigit(s[i]) then s[..|s| - 9] else s
  }

  type Routes = map<string, seq<Upstream>>

  /** The model is looked up by its name, with or without version suffix; its providers by the full name alone. */
  predicate KnownModel(routes: Routes, name: string) {
    name != "" && (Text.Lower(name) in routes || WithoutVersion(Text.Lower(name)) in routes)
  }

  function ProvidersOf(routes: Routes, name: string): seq<Upstream> {
    if Text.Lower(name) in routes then routes[Text.Lower(name)] else []
  }

  /** A request asks for the model its body names, or for "unknown"; the model is known when an alias is that name in
      lower case, with or without the version. */
  lemma KnownModelExactly(routes: Routes, body: Body)
    ensures body == Empty || body == Filled(None) ==> ModelName(body) == "unknown"
    ensures forall name :: body == Filled(Some(name)) ==> ModelName(body) == name
    ensures KnownModel(routes, ModelName(body)) <==>
      ModelName(body) != "" && exists alias :: alias in routes && NamedBy(alias, Text.Lower(ModelName(body)))
  {
    hide Text.Lower, WithoutVersion;
    var name := Text.Lower(ModelName(body));
    VersionLess(name);
    if WithoutVersion(name) in routes {
      assert NamedBy(WithoutVersion(name), name);
    }
    if name in routes {
      assert NamedBy(name, name);
    }
  }

  predicate NamedBy(alias: string, name: string) {
    alias == name || (|name| == |alias| + 9 && name[..|alias|] == alias && IsVersion(name[|alias|..]))
  }

  predicate IsVersion(v: string) {
    |v| == 9 && v[0] == '-' && forall i :: 1 <= i < 9 ==> Text.IsDecimal(v[i])
  }

  lemma VersionLess(name: string)
    ensures forall alias :: NamedBy(alias, name) <==> alias == name || alias == WithoutVersion(name)
  {
    hide Text.IsDigit, Text.IsDecimal;
    forall c
      ensures Text.IsDigit(c) <==> Text.IsDecimal(c)
    {
      Text.DigitsExactly(c);
    }
    if |name| >= 9 {
      var v := name[|name| - 9..];
      assert forall i :: 1 <= i < 9 ==> v[i] == name[|name| - 9 + i];
      assert IsVersion(v) <==> name[|name| - 9] == '-' && forall i :: |name| - 8 <= i < |name| ==> Text.IsDigit(name[i]) by {
        if IsVersion(v) {
          assert forall i :: |name| - 8 <= i < |name| ==> name[i] == v[i - (|name| - 9)];
        }
      }
    }
  }

  /** The request handler. `routes` are the providers of each published alias; `seenKey` and `seenBilling` are the
      rows read at the start, `resetDue` and `expired` what the clock says about the limit and the validity date,
      `discounted` is the discounted maximum cost of the model. `reserved` and `ended` count reservations and their
      ends. */
  method Serve(table: Table, key: KeyHash, seenKey: Row, seenBilling: Row, routes: Routes, body: Body, endpointKnown: bool,
               confidential: bool, teeReady: bool, discounted: int, minRequest: int, resetDue: bool, expired: bool)
    returns (reply: Reply, contacted: seq<Upstream>, reserved: nat, ended: nat)
    requires key in table.rows
    modifies table
    // Who is refused: the checks in their order, each with its reason.
    ensures var known, eligible := KnownModel(routes, ModelName(body)), Eligible(ProvidersOf(routes, ModelName(body)), endpointKnown, confidential);
      && (reply == Refused(UnknownModel) <==> !known)
      && (known && eligible.Failure? ==> reply == Refused(eligible.error))
      && (reply == Refused(TeeUnavailable) <==> known && eligible.Success? && !teeReady)
      && (known && eligible.Success? && teeReady && body.Filled? ==>
            (!reply.Refused? <==> Affords(seenKey, seenBilling, resetDue, expired, Max(discounted, minRequest))
                                  && Max(discounted, minRequest) <= old(table.rows)[BillingOf(old(table.rows), key)].TotalBalance())
            && (reply.Refused? ==> reply.reason.Payment?))
      && (known && eligible.Success? && teeReady && body.Empty? ==> !reply.Refused?)
    // Only eligible providers are contacted, in order, and the deciding one is the last of them.
    ensures reply.Refused? ==> contacted == [] && reserved == ended == 0
    ensures reply.Refused? && !(reply.reason.Payment? && reply.reason.error.LostRace?) ==> table.rows == old(table.rows)
    ensures !reply.Refused? ==>
      && Eligible(ProvidersOf(routes, ModelName(body)), endpointKnown, confidential).Success?
      && var eligible := Eligible(ProvidersOf(routes, ModelName(body)), endpointKnown, confidential).value;
      && Decides(eligible, reply.at) && contacted == eligible[..reply.at + 1]
      && (reply.Answered? <==> Settled(eligible[reply.at].outcome))
      && (reply.Raised? <==> eligible[reply.at].outcome.UnexpectedError?)
    // One reservation per request with a body; one end per request exactly when no contacted provider released it.
    ensures !reply.Refused? ==> reserved == (if body.Filled? then 1 else 0) && ended == 1 + ReleaseCount(contacted)
    ensures !reply.Refused? ==>
      var cost := Max(discounted, minRequest);
      && contacted != []
      && (body.Filled? ==> old(table.rows)[BillingOf(old(table.rows), key)].TotalBalance() >= cost)
      && table.rows == Ended(if body.Filled? then ReservedRows(AfterReset(old(table.rows), key, seenKey, resetDue), key, cost) else old(table.rows),
                             key, contacted, cost)
    // Nothing is reserved for a request without a body, and it is served at all only when an alias "unknown" is routed.
    ensures !reply.Refused? && body.Empty? ==> UNNAMED in routes
  {
    hide Eligible, Ended, ReservedRows, Decides;
    contacted, reserved, ended := [], 0, 0;
    var name := ModelName(body);
    UnnamedIsLower();
    if !KnownModel(routes, name) {
      return Refused(UnknownModel), [], 0, 0;
    }
    var eligible := Eligible(ProvidersOf(routes, name), endpointKnown, confidential);
    if eligible.Failure? {
      EligibleExactly(ProvidersOf(routes, name), endpointKnown, confidential);
      return Refused(eligible.error), [], 0, 0;
    }
    NobodyIsEligible(endpointKnown, confidential);
    if !teeReady {
      return Refused(TeeUnavailable), [], 0, 0;
    }
    var cost := Max(discounted, minRequest);
    if body.Filled? {
      var paid := table.PayForRequest(key, seenKey, seenBilling, resetDue, expired, cost, minRequest);
      if paid.Failure? {
        return Refused(Payment(paid.error)), [], 0, 0;
      }
      reserved := 1;
    }
    SomebodyIsEligible(ProvidersOf(routes, name), endpointKnown, confidential);
    reply, contacted, ended := TryInOrder(table, key, eligible.value, cost);
  }

  lemma UnnamedIsLower()
    ensures Text.Lower(UNNAMED) == UNNAMED
  {
    assert UNNAMED[1..] == "nknown" && "nknown"[1..] == "known" && "known"[1..] == "nown" && "nown"[1..] == "own";
    assert "own"[1..] == "wn" && "wn"[1..] == "n" && "n"[1..] == "";
  }

  lemma NobodyIsEligible(endpointKnown: bool, confidential: bool)
    ensures Eligible([], endpointKnown, confidential).Failure?
  {
  }

  lemma SomebodyIsEligible(us: seq<Upstream>, endpointKnown: bool, confidential: bool)
    ensures Eligible(us, endpointKnown, confidential).Success? ==> Eligible(us, endpointKnown, confidential).value != []
  {
  }

  /** A limit reset that is due clears the spent total before the reservation. */
  function AfterReset(rows: Rows, key: KeyHash, seenKey: Row, resetDue: bool): (after: Rows)
    requires key in rows
    ensures key in after
  {
    if resetDue && seenKey.limit.Some? then Updated(rows, key, ForgetSpent) else rows
  }

  /** The request's two rows when it ends without an answer: one guarded release more than the contacts made. */
  lemma EndedRow(rows: Rows, key: KeyHash, contacted: seq<Upstream>, cost: int, k: KeyHash)
    requires key in rows && contacted != [] && cost >= 0 && FailedAlone(contacted)
    requires k == key || k == BillingOf(rows, key)
    requires rows[BillingOf(rows, key)].TotalBalance() >= cost && rows[k].reserved >= 0
    ensures var after, n := Ended(ReservedRows(rows, key, cost), key, contacted, cost), ReleaseCount(contacted);
      && k in after
      && after[k].reserved == Drained(rows[k].reserved, cost, n)
      && after[k].requests == rows[k].requests + (if Drained(rows[k].reserved + cost, cost, n) >= cost then 0 else 1)
  {
    hide ReservedRows, SettledRows, AllContacted, BillingOf, Drained;
    var start := ReservedRows(rows, key, cost);
    ReservedRow(rows, key, cost, k);
    ContactsDrain(start, key, contacted, cost);
    RevertedRow(AllContacted(start, key, contacted, cost), key, cost, k);
    DrainedOnceMore(rows[k].reserved, cost, ReleaseCount(contacted));
    OneMoreDrain(rows[k].reserved + cost, cost, ReleaseCount(contacted));
  }

  lemma OneMoreDrain(reserved: int, cost: int, n: nat)
    ensures var r := Drained(reserved, cost, n); Drained(reserved, cost, n + 1) == if r >= cost then r - cost else r
  {
  }

  lemma ReservedRow(rows: Rows, key: KeyHash, cost: int, k: KeyHash)
    requires key in rows && (k == key || k == BillingOf(rows, key)) && rows[BillingOf(rows, key)].TotalBalance() >= cost
    ensures var start := ReservedRows(rows, key, cost);
      && key in start && BillingOf(start, key) == BillingOf(rows, key) && k in start
      && start[k] == rows[k].(reserved := rows[k].reserved + cost, requests := rows[k].requests + 1)
  {
  }

  lemma RevertedRow(rows: Rows, key: KeyHash, cost: int, k: KeyHash)
    requires key in rows && (k == key || k == BillingOf(rows, key))
    ensures var after := SettledRows(rows, key, RevertRequest, cost, 0);
      k in after && after[k] == Execute(Revert(cost), rows[k])
  {
  }

  /** A request that ends without an answer gives back exactly its own reservation, on its key and on its billing
      key, if and only if no contacted provider released it before, or nobody else has that much reserved there;
      otherwise it takes the reservation of another request. */
  lemma ReservationGivenBackIff(rows: Rows, key: KeyHash, contacted: seq<Upstream>, cost: int, k: KeyHash)
    requires key in rows && contacted != [] && cost >= 0 && FailedAlone(contacted)
    requires k == key || k == BillingOf(rows, key)
    requires rows[BillingOf(rows, key)].TotalBalance() >= cost && rows[k].reserved >= 0
    ensures var after := Ended(ReservedRows(rows, key, cost), key, contacted, cost);
      && k in after
      && (after[k].reserved == rows[k].reserved <==> ReleaseCount(contacted) == 0 || rows[k].reserved < cost || cost == 0)
      && after[k].reserved <= rows[k].reserved
  {
    EndedRow(rows, key, contacted, cost, k);
    DrainedIff(rows[k].reserved, cost, ReleaseCount(contacted));
  }

  /** A request with a body that ends without an answer leaves every row exactly as it was, if and only if no
      contacted provider released the reservation before it failed. */
  lemma FailedRequestLeavesNoTraceIff(rows: Rows, key: KeyHash, contacted: seq<Upstream>, cost: int)
    requires key in rows && contacted != [] && cost >= 0 && FailedAlone(contacted)
    requires rows[key].reserved >= 0 && rows[BillingOf(rows, key)].reserved >= 0
    requires rows[BillingOf(rows, key)].TotalBalance() >= cost
    ensures Ended(ReservedRows(rows, key, cost), key, contacted, cost) == rows <==> ReleaseCount(contacted) == 0 || cost == 0
  {
    if ReleaseCount(contacted) == 0 || cost == 0 {
      UnreleasedIsUndone(rows, key, contacted, cost);
    } else {
      ReleasedLeavesTrace(rows, key, contacted, cost);
    }
  }

  lemma UnreleasedIsUndone(rows: Rows, key: KeyHash, contacted: seq<Upstream>, cost: int)
    requires key in rows && contacted != [] && cost >= 0 && FailedAlone(contacted)
    requires rows[key].reserved >= 0 && rows[BillingOf(rows, key)].reserved >= 0
    requires rows[BillingOf(rows, key)].TotalBalance() >= cost
    requires ReleaseCount(contacted) == 0 || cost == 0
    ensures Ended(ReservedRows(rows, key, cost), key, contacted, cost) == rows
  {
    hide ReservedRows, SettledRows, AllContacted, BillingOf, Drained;
    var start, b, n := ReservedRows(rows, key, cost), BillingOf(rows, key), ReleaseCount(contacted);
    ReservedRow(rows, key, cost, key);
    ReservedRow(rows, key, cost, b);
    ContactsDrain(start, key, contacted, cost);
    DrainedIff(start[key].reserved, cost, n);
    DrainedIff(start[b].reserved, cost, n);
    assert AllContacted(start, key, contacted, cost) == start;
    RevertUndoesReserve(rows, key, cost);
  }

  lemma ReleasedLeavesTrace(rows: Rows, key: KeyHash, contacted: seq<Upstream>, cost: int)
    requires key in rows && contacted != [] && cost > 0 && FailedAlone(contacted) && ReleaseCount(contacted) > 0
    requires rows[BillingOf(rows, key)].reserved >= 0 && rows[BillingOf(rows, key)].TotalBalance() >= cost
    ensures Ended(ReservedRows(rows, key, cost), key, contacted, cost) != rows
  {
    hide ReservedRows, SettledRows, Ended, BillingOf, Drained;
    var b, n := BillingOf(rows, key), ReleaseCount(contacted);
    EndedRow(rows, key, contacted, cost, b);
    DrainedIff(rows[b].reserved, cost, n);
    DrainedOnceMore(rows[b].reserved, cost, n - 1);
    DrainedIff(rows[b].reserved, cost, n - 1);
  }

  /** A child's request whose first provider answers a 200 that cannot be priced and whose second fails, beside
      another request of the same size: both rows lose the other request's reservation. */
  lemma ReleaseThenRevertTakesAnothers()
    ensures var rows := map["p" := Row(100, 50, 0, 1, None, None, Some(Sat)), "c" := Row(0, 50, 0, 1, Some("p"), None, None)];
      var contacted := [Upstream(true, false, true, UpstreamError(true), []), Upstream(true, false, true, UpstreamError(false), [])];
      var after := Ended(ReservedRows(rows, "c", 50), "c", contacted, 50);
      "p" in after && "c" in after && after["p"].reserved == 0 && after["c"].reserved == 0
  {
    var rows := map["p" := Row(100, 50, 0, 1, None, None, Some(Sat)), "c" := Row(0, 50, 0, 1, Some("p"), None, None)];
    var contacted := [Upstream(true, false, true, UpstreamError(true), []), Upstream(true, false, true, UpstreamError(false), [])];
    assert contacted[..1] == [contacted[0]] && contacted[..1][..0] == [];
    assert ReleaseCount(contacted[..1]) == 1 && ReleaseCount(contacted) == 1;
    EndedRow(rows, "c", contacted, 50, "p");
    EndedRow(rows, "c", contacted, 50, "c");
    assert Drained(50, 50, 0) == 50 && Drained(50, 50, 1) == 0;
  }

  // ---------- Requests without a body ----------

  /** A request without a body that ends without an answer leaves the table as it was, if and only if neither its key
      nor its billing key has that much reserved by others. */
  lemma BodylessFailureIsHarmlessIff(rows: Rows, key: KeyHash, contacted: seq<Upstream>, cost: int)
    requires key in rows && contacted != [] && cost > 0 && FailedAlone(contacted)
    ensures Ended(rows, key, contacted, cost) == rows <==> rows[key].reserved < cost && rows[BillingOf(rows, key)].reserved < cost
  {
    hide SettledRows, AllContacted, BillingOf, Drained;
    var b, n := BillingOf(rows, key), ReleaseCount(contacted);
    var after := AllContacted(rows, key, contacted, cost);
    ContactsDrain(rows, key, contacted, cost);
    RevertedRow(after, key, cost, key);
    RevertedRow(after, key, cost, b);
    DrainsToo(rows[key].reserved, cost, n);
    DrainsToo(rows[b].reserved, cost, n);
    if rows[key].reserved < cost && rows[b].reserved < cost {
      assert after == rows;
      UnpairedRevert(rows, key, cost);
    }
  }

  /** Guarded releases of a positive amount: nothing happens below it, and the balance is lower above it. */
  lemma {:induction false} DrainsToo(reserved: int, cost: int, n: nat)
    requires cost > 0
    ensures reserved < cost ==> Drained(reserved, cost, n) == reserved
    ensures n > 0 && reserved >= cost ==> Drained(reserved, cost, n) < reserved
  {
    if n > 0 {
      DrainsToo(reserved, cost, n - 1);
    }
  }

  /** The settlements whose statements clamp instead of being guarded. */
  predicate Clamps(c: CostOutcome, cost: int) {
    c.MaxCost? || (c.Usage? && c.total <= cost)
  }

  /** The contacts end with an answer, the first one, and no other request comes in between. */
  predicate AnsweredAlone(us: seq<Upstream>) {
    && us != [] && FailedAlone(us[..|us| - 1])
    && Settled(us[|us| - 1].outcome) && us[|us| - 1].meanwhile == []
  }

  /** The request's two rows after an answer that settles. */
  lemma SettledReservation(rows: Rows, key: KeyHash, c: CostOutcome, cost: int, seenBalance: int, k: KeyHash)
    requires key in rows && (k == key || k == BillingOf(rows, key))
    ensures var after := SettledRows(rows, key, Adjust(c), cost, seenBalance);
      && k in after
      && after[k].reserved ==
           if rows[k].reserved >= cost then rows[k].reserved - cost
           else if Clamps(c, cost) then 0 else rows[k].reserved
  {
  }

  /** An answer to a request without a body spares the reservations of others, on its key and on its billing key, if and
      only if there are none, or, where the settlement is guarded, none that large. */
  lemma BodylessAnswerSparesOthersIff(rows: Rows, key: KeyHash, contacted: seq<Upstream>, cost: int, k: KeyHash)
    requires key in rows && cost > 0 && AnsweredAlone(contacted)
    requires (k == key || k == BillingOf(rows, key)) && rows[k].reserved >= 0
    ensures var after, c := Ended(rows, key, contacted, cost), contacted[|contacted| - 1].outcome.cost;
      && k in after
      && (after[k].reserved == rows[k].reserved <==> if Clamps(c, cost) then rows[k].reserved == 0 else rows[k].reserved < cost)
  {
    hide SettledRows, BillingOf, Drained;
    var front, last := contacted[..|contacted| - 1], contacted[|contacted| - 1];
    var before := AllContacted(rows, key, front, cost);
    ContactsDrain(rows, key, front, cost);
    DrainsToo(rows[k].reserved, cost, ReleaseCount(front));
    assert AllUpdated(before, last.meanwhile) == before;
    SettledReservation(before, key, last.outcome.cost, cost, last.outcome.seenBalance, k);
    StaysNonNegative(rows[k].reserved, cost, ReleaseCount(front));
  }

  lemma {:induction false} StaysNonNegative(reserved: int, cost: int, n: nat)
    requires reserved >= 0 && cost > 0
    ensures 0 <= Drained(reserved, cost, n) <= reserved
  {
    if n > 0 {
      StaysNonNegative(reserved, cost, n - 1);
    }
  }

  /** How a request without a body is routed when an alias "unknown" is. */
  lemma BodylessRoute(u: Upstream)
    requires u.supportsEndpoint
    ensures var routes := map[UNNAMED := [u]];
      && KnownModel(routes, ModelName(Empty))
      && Eligible(ProvidersOf(routes, ModelName(Empty)), true, false) == Success([u])
  {
    UnnamedIsLower();
    assert ProvidersOf(map[UNNAMED := [u]], ModelName(Empty)) == [u];
    assert [u][1..] == [];
    assert Filter([u], SupportsEndpoint) == [u] + Filter([], SupportsEndpoint) == [u];
  }

  /** A request without a body whose only provider fails, beside another reservation of that size. */
  lemma BodylessRequestTakesAnothers()
    ensures var rows := map["p" := Row(100, 50, 0, 1, None, None, Some(Sat))];
      var u := Upstream(true, false, true, UpstreamError(false), []);
      var after := Ended(rows, "p", [u], 50);
      && Eligible(ProvidersOf(map[UNNAMED := [u]], ModelName(Empty)), true, false) == Success([u])
      && "p" in after && after["p"] == Row(100, 0, 0, 0, None, None, Some(Sat))
  {
    hide Eligible, UNNAMED;
    var rows := map["p" := Row(100, 50, 0, 1, None, None, Some(Sat))];
    var u := Upstream(true, false, true, UpstreamError(false), []);
    BodylessRoute(u);
    assert [u][..0] == [];
    assert AllContacted(rows, "p", [u], 50) == rows;
    assert BillingOf(rows, "p") == "p";
    assert Execute(Revert(50), rows["p"]) == Row(100, 0, 0, 0, None, None, Some(Sat));
  }

  /** A request without a body that is answered charges what it never reserved and clamps a smaller reservation of
      another request to nothing: a balance of 30 with 20 reserved ends at minus 20. */
  lemma BodylessAnswerTakesAnothers()
    ensures var rows := map["p" := Row(30, 20, 0, 1, None, None, Some(Sat))];
      var u := Upstream(true, false, true, Response(200, MaxCost(50), 30), []);
      var after := Ended(rows, "p", [u], 50);
      && Eligible(ProvidersOf(map[UNNAMED := [u]], ModelName(Empty)), true, false) == Success([u])
      && "p" in after && after["p"] == Row(-20, 0, 50, 1, None, None, Some(Sat))
  {
    hide Eligible, UNNAMED;
    var rows := map["p" := Row(30, 20, 0, 1, None, None, Some(Sat))];
    var u := Upstream(true, false, true, Response(200, MaxCost(50), 30), []);
    BodylessRoute(u);
    assert [u][..0] == [];
    assert AllContacted(rows, "p", [u], 50) == Contacted(rows, "p", u, 50);
    assert BillingOf(rows, "p") == "p";
    assert Execute(Finalize(50, 50), rows["p"]) == Row(-20, 0, 50, 1, None, None, Some(Sat));
  }
}
