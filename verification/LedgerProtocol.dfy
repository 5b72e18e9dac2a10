/** The prepaid-balance ledger as a state machine. Every UPDATE statement is one step, so the billing
    row and the child row of one request are updated at different times, and the steps of any number of
    requests, refunds, top-ups, child-key sales, limit resets and restarts interleave freely. */
module LedgerProtocol {
  import opened Wrappers
  import opened ApiKeyRows
  import opened KeyTable

  /** How far a request has come. Phases with `Child` in the name wait for the child-row statement. */
  datatype Phase =
    | Admitted
    | ReservedChildPending
    | RefusedChildPending
    | Held
    | SettledChildPending(childStatement: Statement)
    | RefusedLeaving  // the child keeps the amount although the request was refused
    | Closed

  datatype Request = Request(key: KeyHash, billing: KeyHash, cost: nat, phase: Phase)

  datatype RefundPhase = Reading | Debited | MintFailing | Ended

  datatype Refund = Refund(key: KeyHash, seen: Row, phase: RefundPhase)

  /** What the database does not remember about a key, in msats. */
  datatype Tally = Tally(
    deposited: int,  // all credits
    forgotten: int,  // spent totals erased by limit resets
    debited: int,    // taken by refunds
    refunded: int,   // paid out
    dust: int,       // debited but below one sat
    payouts: nat,    // refunds paid out
    restored: int,   // given back after failed mints
    stranded: int,   // debited by refunds that a restart cut off
    excess: int)     // charged beyond the reservation

  const NO_TALLY := Tally(0, 0, 0, 0, 0, 0, 0, 0, 0)

  datatype State = State(rows: Rows, requests: seq<Request>, refunds: seq<Refund>, tallies: map<KeyHash, Tally>)

  const INITIAL := State(map[], [], [], map[])

  datatype Step =
    | CreateKey(key: KeyHash, limit: Option<int>, unit: Unit)
    | TopUp(key: KeyHash, amount: int)
    | SellChildren(key: KeyHash, children: set<KeyHash>, price: nat, limit: Option<int>)
    | Admit(key: KeyHash, cost: nat)
    | ReserveBilling(id: nat)
    | ReserveOnChild(id: nat)
    | Settle(id: nat, settlement: Settlement, seenBalance: int)
    | SettleOnChild(id: nat)
    | ReadForRefund(key: KeyHash)
    | DebitRefund(refund: nat)
    | MintRefund(refund: nat, ok: bool)
    | RestoreRefund(refund: nat)
    | ResetLimit(key: KeyHash)
    | Restart

  // ---------- What a request holds, and sums over requests and refunds ----------

  /** The amount of row `k`'s reserved balance that request `r` accounts for. */
  function Holds(r: Request, k: KeyHash): nat {
    if k == r.billing then
      (if r.phase.ReservedChildPending? || r.phase.Held? then r.cost else 0)
    else if k == r.key then
      (if r.phase.Held? || r.phase.SettledChildPending? || r.phase.RefusedLeaving? then r.cost else 0)
    else 0
  }

  function Reserved(rs: seq<Request>, k: KeyHash): nat {
    if rs == [] then 0 else Reserved(rs[..|rs| - 1], k) + Holds(rs[|rs| - 1], k)
  }

  /** What refund `f` has taken from key `k` and neither paid out nor restored. */
  function Takes(f: Refund, k: KeyHash): int {
    if f.key == k && (f.phase.Debited? || f.phase.MintFailing?) then f.seen.balance else 0
  }

  function InFlight(fs: seq<Refund>, k: KeyHash): int {
    if fs == [] then 0 else InFlight(fs[..|fs| - 1], k) + Takes(fs[|fs| - 1], k)
  }

  lemma {:induction false} ReservedUpdate(rs: seq<Request>, i: nat, r: Request, k: KeyHash)
    requires i < |rs|
    ensures Reserved(rs[i := r], k) == Reserved(rs, k) - Holds(rs[i], k) + Holds(r, k)
  {
    var last := |rs| - 1;
    if i == last {
      assert rs[i := r][..last] == rs[..last];
    } else {
      assert rs[i := r][..last] == rs[..last][i := r];
      ReservedUpdate(rs[..last], i, r, k);
    }
  }

  lemma {:induction false} ReservedCovers(rs: seq<Request>, i: nat, k: KeyHash)
    requires i < |rs|
    ensures Holds(rs[i], k) <= Reserved(rs, k)
  {
    if i < |rs| - 1 {
      ReservedCovers(rs[..|rs| - 1], i, k);
    }
  }

  lemma {:induction false} InFlightUpdate(fs: seq<Refund>, i: nat, f: Refund, k: KeyHash)
    requires i < |fs|
    ensures InFlight(fs[i := f], k) == InFlight(fs, k) - Takes(fs[i], k) + Takes(f, k)
  {
    var last := |fs| - 1;
    if i == last {
      assert fs[i := f][..last] == fs[..last];
    } else {
      assert fs[i := f][..last] == fs[..last][i := f];
      InFlightUpdate(fs[..last], i, f, k);
    }
  }

  // ---------- Steps ----------

  predicate IsRoot(rows: Rows, k: KeyHash) {
    k in rows && rows[k].parent.None?
  }

  predicate Enabled(s: State, step: Step) {
    match step
    case CreateKey(key, _, _) => key !in s.rows
    case TopUp(key, amount) => key in s.rows && amount > 0
    case SellChildren(key, children, price, _) =>
      && IsRoot(s.rows, key)
      && (forall c :: c in children ==> c !in s.rows)
      && s.rows[key].TotalBalance() >= price * |children|
    case Admit(key, cost) =>
      && key in s.rows
      && (s.rows[key].limit.Some? ==> s.rows[key].spent + s.rows[key].reserved + cost <= s.rows[key].limit.value)
    case ReserveBilling(id) => id < |s.requests| && s.requests[id].phase.Admitted?
    case ReserveOnChild(id) =>
      id < |s.requests| && (s.requests[id].phase.ReservedChildPending? || s.requests[id].phase.RefusedChildPending?)
    case Settle(id, _, _) => id < |s.requests| && s.requests[id].phase.Held?
    case SettleOnChild(id) => id < |s.requests| && s.requests[id].phase.SettledChildPending?
    case ReadForRefund(key) =>
      && IsRoot(s.rows, key)
      && s.rows[key].reserved <= 0
      && PayoutFor(s.rows[key], s.rows[key].TotalBalance()).amount > 0
    case DebitRefund(f) => f < |s.refunds| && s.refunds[f].phase.Reading?
    case MintRefund(f, _) => f < |s.refunds| && s.refunds[f].phase.Debited?
    case RestoreRefund(f) => f < |s.refunds| && s.refunds[f].phase.MintFailing?
    case ResetLimit(key) => key in s.rows
    case Restart => true
  }

  /** A row statement together with the phase its request moves to. */
  function OnRequest(s: State, id: nat, key: KeyHash, stmt: Statement, phase: Phase): State
    requires id < |s.requests|
  {
    s.(rows := Updated(s.rows, key, stmt), requests := s.requests[id := s.requests[id].(phase := phase)])
  }

  function Charged(before: Row, after: Row): int {
    before.balance - after.balance
  }

  function Tallied(s: State, key: KeyHash, t: Tally): State {
    s.(tallies := s.tallies[key := t])
  }

  function AfterReserve(r: Request, accepted: bool): Phase {
    if r.key == r.billing then (if accepted then Held else Closed)
    else if accepted then ReservedChildPending else RefusedChildPending
  }

  function AfterSettle(r: Request, settlement: Settlement, seenBalance: int): Phase {
    if r.key == r.billing then Closed
    else SettledChildPending(ChildStatement(settlement, r.cost, seenBalance))
  }

  /** Well-formedness that makes the record accesses of a step defined. */
  predicate Linked(s: State) {
    && s.tallies.Keys == s.rows.Keys
    && (forall i :: 0 <= i < |s.requests| ==> s.requests[i].key in s.rows && s.requests[i].billing in s.rows)
    && (forall i :: 0 <= i < |s.refunds| ==> s.refunds[i].key in s.rows)
  }

  function AfterSale(s: State, key: KeyHash, children: set<KeyHash>, price: nat, limit: Option<int>): State
    requires key in s.rows
  {
    s.(rows := s.rows[key := SpawnWrite(s.rows[key], s.rows[key], price * |children|)]
               + (map c | c in children :: Row(0, 0, 0, 0, Some(key), limit, None)),
       tallies := s.tallies + (map c | c in children :: NO_TALLY))
  }

  function AfterBillingSettlement(s: State, id: nat, settlement: Settlement, seenBalance: int): State
    requires Linked(s) && id < |s.requests|
  {
    var r := s.requests[id];
    var stmt := BillingStatement(settlement, r.cost);
    var t := s.tallies[r.billing];
    var beyond := Charged(s.rows[r.billing], Execute(stmt, s.rows[r.billing])) - r.cost;
    Tallied(OnRequest(s, id, r.billing, stmt, AfterSettle(r, settlement, seenBalance)), r.billing,
            t.(excess := t.excess + Max(0, beyond)))
  }

  function AfterDebit(s: State, i: nat): State
    requires Linked(s) && i < |s.refunds|
  {
    var f := s.refunds[i];
    var debit := Debit(f.seen.balance, f.seen.reserved);
    if Matches(debit, s.rows[f.key]) then
      Tallied(s.(rows := Updated(s.rows, f.key, debit), refunds := s.refunds[i := f.(phase := Debited)]), f.key,
              s.tallies[f.key].(debited := s.tallies[f.key].debited + f.seen.balance))
    else
      s.(refunds := s.refunds[i := f.(phase := Ended)])
  }

  function AfterMint(s: State, i: nat, ok: bool): State
    requires Linked(s) && i < |s.refunds|
  {
    var f := s.refunds[i];
    var paid := PayoutMsats(PayoutFor(f.seen, f.seen.TotalBalance()));
    if ok then
      Tallied(s.(refunds := s.refunds[i := f.(phase := Ended)]), f.key,
              s.tallies[f.key].(refunded := s.tallies[f.key].refunded + paid,
                                payouts := s.tallies[f.key].payouts + 1,
                                dust := s.tallies[f.key].dust + f.seen.balance - paid))
    else
      s.(refunds := s.refunds[i := f.(phase := MintFailing)])
  }

  function AfterRestore(s: State, i: nat): State
    requires Linked(s) && i < |s.refunds|
  {
    var f := s.refunds[i];
    Tallied(s.(rows := Updated(s.rows, f.key, Restore(f.seen.balance, f.seen.reserved)),
               refunds := s.refunds[i := f.(phase := Ended)]), f.key,
            s.tallies[f.key].(restored := s.tallies[f.key].restored + f.seen.balance))
  }

  /** Reservations are forgotten with the requests that held them; refunds are cut off where they are. */
  function AfterRestart(s: State): State {
    State(map k | k in s.rows :: Execute(DropReserved, s.rows[k]), [], [],
          map k | k in s.tallies ::
            s.tallies[k].(stranded := s.tallies[k].stranded + InFlight(s.refunds, k)))
  }

  function Next(s: State, step: Step): State
    requires Linked(s) && Enabled(s, step)
  {
    match step
    case CreateKey(key, limit, unit) =>
      s.(rows := s.rows[key := Row(0, 0, 0, 0, None, limit, Some(unit))], tallies := s.tallies[key := NO_TALLY])
    case TopUp(key, amount) =>
      Tallied(s.(rows := Updated(s.rows, key, Credit(amount))), key,
              s.tallies[key].(deposited := s.tallies[key].deposited + amount))
    case SellChildren(key, children, price, limit) => AfterSale(s, key, children, price, limit)
    case Admit(key, cost) =>
      s.(requests := s.requests + [Request(key, BillingOf(s.rows, key), cost, Admitted)])
    case ReserveBilling(id) =>
      var r := s.requests[id];
      OnRequest(s, id, r.billing, Reserve(r.cost), AfterReserve(r, Matches(Reserve(r.cost), s.rows[r.billing])))
    case ReserveOnChild(id) =>
      var r := s.requests[id];
      OnRequest(s, id, r.key, ReserveChild(r.cost), if r.phase.ReservedChildPending? then Held else RefusedLeaving)
    case Settle(id, settlement, seenBalance) => AfterBillingSettlement(s, id, settlement, seenBalance)
    case SettleOnChild(id) =>
      OnRequest(s, id, s.requests[id].key, s.requests[id].phase.childStatement, Closed)
    case ReadForRefund(key) => s.(refunds := s.refunds + [Refund(key, s.rows[key], Reading)])
    case DebitRefund(i) => AfterDebit(s, i)
    case MintRefund(i, ok) => AfterMint(s, i, ok)
    case RestoreRefund(i) => AfterRestore(s, i)
    case ResetLimit(key) =>
      Tallied(s.(rows := Updated(s.rows, key, ForgetSpent)), key,
              s.tallies[key].(forgotten := s.tallies[key].forgotten + s.rows[key].spent))
    case Restart => AfterRestart(s)
  }

  // ---------- The invariant ----------

  predicate ParentOk(rows: Rows, k: KeyHash)
    requires k in rows
  {
    match rows[k].parent
    case Some(p) => IsRoot(rows, p)
    case None => rows[k].currency.Some?
  }

  ghost predicate FamilyOk(rows: Rows) {
    forall k {:trigger ParentOk(rows, k)} :: k in rows ==> ParentOk(rows, k)
  }

  predicate RefundOk(rows: Rows, f: Refund) {
    && IsRoot(rows, f.key)
    && f.seen.reserved == 0
    && f.seen.currency.Some?
    && PayoutFor(f.seen, f.seen.balance).amount > 0
  }

  predicate ReleasesOnChild(stmt: Statement, cost: nat) {
    (stmt.Revert? || stmt.Release? || stmt.FinalizeChild? || stmt.OverrunChild?) && stmt.cost == cost
  }

  predicate RequestOk(rows: Rows, r: Request) {
    && r.key in rows && r.billing == BillingOf(rows, r.key)
    && (r.key == r.billing ==> r.phase.Admitted? || r.phase.Held? || r.phase.Closed?)
    && (r.phase.SettledChildPending? ==> ReleasesOnChild(r.phase.childStatement, r.cost))
  }

  /** deposits = balance + everything spent + everything refunds hold, paid, rounded off or lost. */
  predicate Conserved(row: Row, t: Tally, inFlight: int) {
    if row.parent.Some? then
      t.deposited == row.balance
    else
      t.deposited == row.balance + row.spent + t.forgotten + t.refunded + t.dust + t.stranded + inFlight
  }

  /** Everything refunds ever debited is still in flight, paid, dust, given back, or cut off. */
  predicate DebitsAccounted(t: Tally, inFlight: int) {
    && t.debited == inFlight + t.refunded + t.dust + t.restored + t.stranded
    && t.refunded >= 0 && 0 <= t.dust <= 999 * t.payouts && t.restored >= 0 && t.stranded >= 0 && inFlight >= 0
  }

  /** Reservations are exactly the outstanding ones, and only overruns eat into other reservations. */
  predicate Solvent(row: Row, t: Tally, held: nat) {
    && row.reserved == held
    && t.excess >= 0
    && (row.parent.None? ==> row.TotalBalance() >= -t.excess)
  }

  predicate KeyOk(s: State, k: KeyHash)
    requires k in s.rows && k in s.tallies
  {
    && Solvent(s.rows[k], s.tallies[k], Reserved(s.requests, k))
    && Conserved(s.rows[k], s.tallies[k], InFlight(s.refunds, k))
    && DebitsAccounted(s.tallies[k], InFlight(s.refunds, k))
  }

  ghost predicate Inv(s: State) {
    && Linked(s)
    && FamilyOk(s.rows)
    && (forall i :: 0 <= i < |s.requests| ==> RequestOk(s.rows, s.requests[i]))
    && (forall i :: 0 <= i < |s.refunds| ==> RefundOk(s.rows, s.refunds[i]))
    && (forall k {:trigger KeyOk(s, k)} :: k in s.rows ==> KeyOk(s, k))
  }

  // ---------- Preservation ----------

  /** Keys keep their parent and currency; new keys may appear. */
  ghost predicate SameFamily(rows: Rows, later: Rows) {
    && rows.Keys <= later.Keys
    && forall k :: k in rows ==> later[k].parent == rows[k].parent && later[k].currency == rows[k].currency
  }

  lemma RequestStaysOk(rows: Rows, later: Rows, r: Request)
    requires FamilyOk(rows) && SameFamily(rows, later) && RequestOk(rows, r)
    ensures RequestOk(later, r)
  {
    assert ParentOk(rows, r.key);
  }

  /** All the requests and refunds a step does not touch stay well-formed. */
  lemma FamilyStep(s: State, u: State)
    requires Inv(s) && SameFamily(s.rows, u.rows) && FamilyOk(u.rows) && u.tallies.Keys == u.rows.Keys
    requires forall i :: 0 <= i < |u.requests| ==> (i < |s.requests| && u.requests[i] == s.requests[i]) || RequestOk(u.rows, u.requests[i])
    requires forall i :: 0 <= i < |u.refunds| ==> (i < |s.refunds| && u.refunds[i] == s.refunds[i]) || RefundOk(u.rows, u.refunds[i])
    requires forall k {:trigger KeyOk(u, k)} :: k in u.rows ==> KeyOk(u, k)
    ensures Inv(u)
  {
    forall i | 0 <= i < |u.requests|
      ensures RequestOk(u.rows, u.requests[i])
    {
      if i < |s.requests| && u.requests[i] == s.requests[i] {
        RequestStaysOk(s.rows, u.rows, s.requests[i]);
      }
    }
    forall i | 0 <= i < |u.refunds|
      ensures RefundOk(u.rows, u.refunds[i])
    {
      if i < |s.refunds| && u.refunds[i] == s.refunds[i] {
        assert RefundOk(s.rows, s.refunds[i]);
      }
    }
  }

  /** The effect of a statement on its own row: it moves the reserved balance from `held` to `holds`,
      moves msats only between balance and spent, and is as solvent as the excess in `t` allows. */
  predicate RowStep(row: Row, after: Row, released: int, excess: int) {
    && after.parent == row.parent && after.currency == row.currency
    && after.reserved == row.reserved - released
    && (row.parent.None? ==> after.TotalBalance() >= -excess && after.balance + after.spent == row.balance + row.spent)
    && (row.parent.Some? ==> after.balance == row.balance)
  }

  /** Row `key` and request `id` change, nothing else does. */
  ghost predicate Touches(s: State, u: State, id: nat, key: KeyHash, after: Row, phase: Phase, excess: int)
    requires id < |s.requests| && key in s.rows && key in s.tallies
  {
    && excess >= 0
    && u.rows == s.rows[key := after]
    && u.requests == s.requests[id := s.requests[id].(phase := phase)]
    && u.refunds == s.refunds
    && u.tallies == s.tallies[key := s.tallies[key].(excess := excess)]
    && (forall k :: k != key ==> Holds(s.requests[id].(phase := phase), k) == Holds(s.requests[id], k))
    && RowStep(s.rows[key], after,
               Holds(s.requests[id], key) - Holds(s.requests[id].(phase := phase), key), excess)
  }

  lemma RequestStepOnKey(s: State, u: State, id: nat, key: KeyHash, after: Row, phase: Phase, excess: int, k: KeyHash)
    requires id < |s.requests| && key in s.rows && k in s.rows && s.tallies.Keys == s.rows.Keys
    requires Touches(s, u, id, key, after, phase, excess) && KeyOk(s, k)
    ensures KeyOk(u, k)
  {
    ReservedUpdate(s.requests, id, s.requests[id].(phase := phase), k);
  }

  lemma RequestStep(s: State, u: State, id: nat, key: KeyHash, after: Row, phase: Phase, excess: int)
    requires Inv(s) && id < |s.requests| && key in s.rows
    requires Touches(s, u, id, key, after, phase, excess)
    requires RequestOk(s.rows, s.requests[id].(phase := phase))
    ensures Inv(u)
  {
    hide KeyOk, RefundOk;
    forall k | k in u.rows
      ensures KeyOk(u, k)
    {
      RequestStepOnKey(s, u, id, key, after, phase, excess, k);
    }
    forall k | k in u.rows
      ensures ParentOk(u.rows, k)
    {
      assert ParentOk(s.rows, k);
    }
    RequestStaysOk(s.rows, u.rows, s.requests[id].(phase := phase));
    FamilyStep(s, u);
  }

  lemma ReserveBillingKeepsInv(s: State, id: nat)
    requires Inv(s) && Enabled(s, ReserveBilling(id))
    ensures Inv(Next(s, ReserveBilling(id)))
  {
    var r := s.requests[id];
    var stmt := Reserve(r.cost);
    var row := s.rows[r.billing];
    assert KeyOk(s, r.billing);
    assert s.tallies == s.tallies[r.billing := s.tallies[r.billing]];
    RequestStep(s, Next(s, ReserveBilling(id)), id, r.billing, Execute(stmt, row), AfterReserve(r, Matches(stmt, row)),
                s.tallies[r.billing].excess);
  }

  lemma ReserveOnChildKeepsInv(s: State, id: nat)
    requires Inv(s) && Enabled(s, ReserveOnChild(id))
    ensures Inv(Next(s, ReserveOnChild(id)))
  {
    var r := s.requests[id];
    assert RequestOk(s.rows, r);
    assert KeyOk(s, r.key);
    assert s.tallies == s.tallies[r.key := s.tallies[r.key]];
    RequestStep(s, Next(s, ReserveOnChild(id)), id, r.key, Execute(ReserveChild(r.cost), s.rows[r.key]),
                if r.phase.ReservedChildPending? then Held else RefusedLeaving, s.tallies[r.key].excess);
  }

  /** A settlement of a reservation that is there: the guard passes, the clamp does not bite. */
  lemma SettlementOnBillingRow(row: Row, settlement: Settlement, cost: nat, excess: int)
    requires row.reserved >= cost && row.TotalBalance() >= -excess
    ensures var after := Execute(BillingStatement(settlement, cost), row);
            RowStep(row, after, cost, excess + Max(0, Charged(row, after) - cost)) || row.parent.Some?
  {
  }

  lemma SettleTouchesBilling(s: State, id: nat, settlement: Settlement, seenBalance: int)
    requires Inv(s) && Enabled(s, Settle(id, settlement, seenBalance))
    ensures var r := s.requests[id];
      var after := Execute(BillingStatement(settlement, r.cost), s.rows[r.billing]);
      Touches(s, Next(s, Settle(id, settlement, seenBalance)), id, r.billing, after,
              AfterSettle(r, settlement, seenBalance),
              s.tallies[r.billing].excess + Max(0, Charged(s.rows[r.billing], after) - r.cost))
  {
    var r := s.requests[id];
    BillingIsRoot(s, id);
    assert KeyOk(s, r.billing);
    ReservedCovers(s.requests, id, r.billing);
    SettlementOnBillingRow(s.rows[r.billing], settlement, r.cost, s.tallies[r.billing].excess);
  }

  lemma SettleKeepsInv(s: State, id: nat, settlement: Settlement, seenBalance: int)
    requires Inv(s) && Enabled(s, Settle(id, settlement, seenBalance))
    ensures Inv(Next(s, Settle(id, settlement, seenBalance)))
  {
    var r := s.requests[id];
    var after := Execute(BillingStatement(settlement, r.cost), s.rows[r.billing]);
    SettleTouchesBilling(s, id, settlement, seenBalance);
    assert KeyOk(s, r.billing);
    assert RequestOk(s.rows, r);
    RequestStep(s, Next(s, Settle(id, settlement, seenBalance)), id, r.billing, after,
                AfterSettle(r, settlement, seenBalance),
                s.tallies[r.billing].excess + Max(0, Charged(s.rows[r.billing], after) - r.cost));
  }

  lemma BillingIsRoot(s: State, id: nat)
    requires Inv(s) && id < |s.requests|
    ensures IsRoot(s.rows, s.requests[id].billing)
    ensures s.requests[id].key != s.requests[id].billing ==> s.rows[s.requests[id].key].parent == Some(s.requests[id].billing)
  {
    assert RequestOk(s.rows, s.requests[id]);
    assert ParentOk(s.rows, s.requests[id].key);
  }

  lemma SettleOnChildKeepsInv(s: State, id: nat)
    requires Inv(s) && Enabled(s, SettleOnChild(id))
    ensures Inv(Next(s, SettleOnChild(id)))
  {
    var r := s.requests[id];
    assert RequestOk(s.rows, r);
    assert KeyOk(s, r.key);
    BillingIsRoot(s, id);
    ReservedCovers(s.requests, id, r.key);
    assert s.tallies == s.tallies[r.key := s.tallies[r.key]];
    RequestStep(s, Next(s, SettleOnChild(id)), id, r.key, Execute(r.phase.childStatement, s.rows[r.key]), Closed,
                s.tallies[r.key].excess);
  }

  /** Steps that change one row and its tally, and at most one refund of that key. */
  lemma KeyStep(s: State, u: State, key: KeyHash, after: Row, t: Tally)
    requires Inv(s) && key in s.rows
    requires u.rows == s.rows[key := after] && u.tallies == s.tallies[key := t] && u.requests == s.requests
    requires after.parent == s.rows[key].parent && after.currency == s.rows[key].currency
    requires forall i :: 0 <= i < |u.refunds| ==> (i < |s.refunds| && u.refunds[i] == s.refunds[i]) || RefundOk(s.rows, u.refunds[i])
    requires forall k :: k != key ==> InFlight(u.refunds, k) == InFlight(s.refunds, k)
    requires KeyOk(u, key)
    ensures Inv(u)
  {
    forall k | k in u.rows
      ensures KeyOk(u, k)
      ensures ParentOk(u.rows, k)
    {
      assert KeyOk(s, k);
      assert ParentOk(s.rows, k);
      assert k != key ==> KeyOk(u, k);
    }
    FamilyStep(s, u);
  }

  /** New rows appear with nothing on them; at most the money of the old rows changes. */
  lemma GrowStep(s: State, u: State, added: set<KeyHash>)
    requires Inv(s) && added !! s.rows.Keys && u.rows.Keys == u.tallies.Keys == s.rows.Keys + added
    requires u.requests == s.requests && u.refunds == s.refunds && SameFamily(s.rows, u.rows)
    requires forall k {:trigger KeyOk(u, k)} :: k in s.rows ==> KeyOk(u, k)
    requires forall k :: k in added ==>
      u.tallies[k] == NO_TALLY && u.rows[k].balance == u.rows[k].reserved == u.rows[k].spent == 0 && ParentOk(u.rows, k)
    ensures Inv(u)
  {
    hide KeyOk, ParentOk, RequestOk, RefundOk;
    forall k | k in u.rows
      ensures KeyOk(u, k)
    {
      if k in added {
        NewKeyOk(s, u, k);
      } else {
        assert k in s.rows;
      }
    }
    forall k | k in u.rows
      ensures ParentOk(u.rows, k)
    {
      if k !in added {
        ParentStaysOk(s.rows, u.rows, k);
      }
    }
    FamilyStep(s, u);
  }

  lemma ParentStaysOk(rows: Rows, later: Rows, k: KeyHash)
    requires k in rows && FamilyOk(rows) && SameFamily(rows, later)
    ensures ParentOk(later, k)
  {
    assert ParentOk(rows, k);
  }

  lemma NewKeyOk(s: State, u: State, k: KeyHash)
    requires Inv(s) && k !in s.rows && k in u.rows && k in u.tallies
    requires u.requests == s.requests && u.refunds == s.refunds
    requires u.tallies[k] == NO_TALLY && u.rows[k].balance == u.rows[k].reserved == u.rows[k].spent == 0
    ensures KeyOk(u, k)
  {
    NothingHeld(s, k);
  }

  lemma CreateKeyKeepsInv(s: State, step: Step)
    requires Inv(s) && Enabled(s, step) && step.CreateKey?
    ensures Inv(Next(s, step))
  {
    var u := Next(s, step);
    forall k | k in s.rows
      ensures KeyOk(u, k)
    {
      assert KeyOk(s, k);
    }
    GrowStep(s, u, {step.key});
  }

  /** A key that does not exist yet has no reservation and no refund. */
  lemma NothingHeld(s: State, k: KeyHash)
    requires Inv(s) && k !in s.rows
    ensures Reserved(s.requests, k) == 0 && InFlight(s.refunds, k) == 0
  {
    NoRequestOf(s.requests, k);
    NoRefundOf(s.refunds, k);
  }

  lemma {:induction false} NoRequestOf(rs: seq<Request>, k: KeyHash)
    requires forall i :: 0 <= i < |rs| ==> rs[i].key != k && rs[i].billing != k
    ensures Reserved(rs, k) == 0
  {
    if rs != [] {
      NoRequestOf(rs[..|rs| - 1], k);
    }
  }

  lemma {:induction false} NoRefundOf(fs: seq<Refund>, k: KeyHash)
    requires forall i :: 0 <= i < |fs| ==> fs[i].key != k
    ensures InFlight(fs, k) == 0
  {
    if fs != [] {
      NoRefundOf(fs[..|fs| - 1], k);
    }
  }

  lemma SoldRowOk(row: Row, total: nat, t: Tally, held: nat, inFlight: int)
    requires row.parent.None? && row.TotalBalance() >= total
    ensures Solvent(row, t, held) ==> Solvent(SpawnWrite(row, row, total), t, held)
    ensures Conserved(row, t, inFlight) ==> Conserved(SpawnWrite(row, row, total), t, inFlight)
  {
  }

  lemma SaleOnKey(s: State, step: Step, k: KeyHash)
    requires Inv(s) && Enabled(s, step) && step.SellChildren? && k in s.rows
    ensures k in Next(s, step).rows && k in Next(s, step).tallies && KeyOk(Next(s, step), k)
  {
    var total := step.price * |step.children|;
    var row := s.rows[step.key];
    assert KeyOk(s, k);
    assert Next(s, step).rows[step.key] == SpawnWrite(row, row, total);
    if k == step.key {
      SoldRowOk(row, total, s.tallies[k], Reserved(s.requests, k), InFlight(s.refunds, k));
    }
  }

  lemma SaleAddsEmptyRows(s: State, step: Step)
    requires Inv(s) && Enabled(s, step) && step.SellChildren?
    ensures var u := Next(s, step);
      && u.requests == s.requests && u.refunds == s.refunds && SameFamily(s.rows, u.rows)
      && u.rows.Keys == u.tallies.Keys == s.rows.Keys + step.children
      && forall c :: c in step.children ==>
           u.tallies[c] == NO_TALLY && u.rows[c].balance == u.rows[c].reserved == u.rows[c].spent == 0 && ParentOk(u.rows, c)
  {
    hide KeyOk, RequestOk, RefundOk;
    var u := Next(s, step);
    forall c | c in step.children
      ensures ParentOk(u.rows, c)
    {
      assert IsRoot(u.rows, step.key);
    }
  }

  lemma SellChildrenKeepsInv(s: State, step: Step)
    requires Inv(s) && Enabled(s, step) && step.SellChildren?
    ensures Inv(Next(s, step))
  {
    hide Next, KeyOk, ParentOk, RequestOk, RefundOk;
    var u := Next(s, step);
    SaleAddsEmptyRows(s, step);
    forall k | k in s.rows
      ensures KeyOk(u, k)
    {
      SaleOnKey(s, step, k);
    }
    GrowStep(s, u, step.children);
  }

  lemma AdmitKeepsInv(s: State, step: Step)
    requires Inv(s) && Enabled(s, step) && step.Admit?
    ensures Inv(Next(s, step))
  {
    var u := Next(s, step);
    var r := Request(step.key, BillingOf(s.rows, step.key), step.cost, Admitted);
    forall k | k in u.rows
      ensures KeyOk(u, k)
    {
      assert KeyOk(s, k);
      assert u.requests[..|u.requests| - 1] == s.requests;
    }
    FamilyStep(s, u);
  }

  lemma ReadForRefundKeepsInv(s: State, step: Step)
    requires Inv(s) && Enabled(s, step) && step.ReadForRefund?
    ensures Inv(Next(s, step))
  {
    var u := Next(s, step);
    forall k | k in u.rows
      ensures KeyOk(u, k)
    {
      assert KeyOk(s, k);
      assert u.refunds[..|u.refunds| - 1] == s.refunds;
    }
    assert KeyOk(s, step.key);
    assert ParentOk(s.rows, step.key);
    FamilyStep(s, u);
  }

  /** The refund `i` moves to `phase`; only its own key sees a difference. */
  lemma RefundStep(s: State, u: State, i: nat, phase: RefundPhase, after: Row, t: Tally)
    requires Inv(s) && i < |s.refunds|
    requires var f := s.refunds[i];
      u == State(s.rows[f.key := after], s.requests, s.refunds[i := f.(phase := phase)], s.tallies[f.key := t])
    requires after.parent == s.rows[s.refunds[i].key].parent && after.currency == s.rows[s.refunds[i].key].currency
    requires var f := s.refunds[i];
      var inFlight := InFlight(s.refunds, f.key) - Takes(f, f.key) + Takes(f.(phase := phase), f.key);
      && Solvent(after, t, Reserved(s.requests, f.key))
      && Conserved(after, t, inFlight) && DebitsAccounted(t, inFlight)
    ensures Inv(u)
  {
    var f := s.refunds[i];
    assert RefundOk(s.rows, f);
    forall k
      ensures InFlight(u.refunds, k) == InFlight(s.refunds, k) - Takes(f, k) + Takes(f.(phase := phase), k)
    {
      InFlightUpdate(s.refunds, i, f.(phase := phase), k);
    }
    KeyStep(s, u, f.key, after, t);
  }

  lemma DebitKeepsInv(s: State, i: nat)
    requires Inv(s) && Enabled(s, DebitRefund(i))
    ensures Inv(Next(s, DebitRefund(i)))
  {
    var f := s.refunds[i];
    var row, t := s.rows[f.key], s.tallies[f.key];
    var debit := Debit(f.seen.balance, f.seen.reserved);
    assert KeyOk(s, f.key);
    assert RefundOk(s.rows, f);
    if Matches(debit, row) {
      RefundStep(s, Next(s, DebitRefund(i)), i, Debited, Execute(debit, row), t.(debited := t.debited + f.seen.balance));
    } else {
      assert s.rows == s.rows[f.key := row] && s.tallies == s.tallies[f.key := t];
      RefundStep(s, Next(s, DebitRefund(i)), i, Ended, row, t);
    }
  }

  lemma MintKeepsInv(s: State, i: nat, ok: bool)
    requires Inv(s) && Enabled(s, MintRefund(i, ok))
    ensures Inv(Next(s, MintRefund(i, ok)))
  {
    var f := s.refunds[i];
    var row, t := s.rows[f.key], s.tallies[f.key];
    var paid := PayoutMsats(PayoutFor(f.seen, f.seen.balance));
    assert KeyOk(s, f.key);
    assert RefundOk(s.rows, f);
    RefundPaysWhatWasDebited(f.seen, f.seen.balance);
    InFlightCovers(s, i);
    assert s.rows == s.rows[f.key := row];
    if ok {
      RefundStep(s, Next(s, MintRefund(i, ok)), i, Ended, row,
                 t.(refunded := t.refunded + paid, payouts := t.payouts + 1, dust := t.dust + f.seen.balance - paid));
    } else {
      assert s.tallies == s.tallies[f.key := t];
      RefundStep(s, Next(s, MintRefund(i, ok)), i, MintFailing, row, t);
    }
  }

  lemma RestoreKeepsInv(s: State, i: nat)
    requires Inv(s) && Enabled(s, RestoreRefund(i))
    ensures Inv(Next(s, RestoreRefund(i)))
  {
    var f := s.refunds[i];
    var t := s.tallies[f.key];
    assert KeyOk(s, f.key);
    assert RefundOk(s.rows, f);
    InFlightCovers(s, i);
    RefundStep(s, Next(s, RestoreRefund(i)), i, Ended, Execute(Restore(f.seen.balance, f.seen.reserved), s.rows[f.key]),
               t.(restored := t.restored + f.seen.balance));
  }

  lemma InFlightCovers(s: State, i: nat)
    requires Inv(s) && i < |s.refunds|
    ensures Takes(s.refunds[i], s.refunds[i].key) <= InFlight(s.refunds, s.refunds[i].key)
  {
    forall j | 0 <= j < |s.refunds|
      ensures s.refunds[j].seen.balance >= 0
    {
      assert RefundOk(s.rows, s.refunds[j]);
    }
    InFlightCoversOne(s.refunds, i, s.refunds[i].key);
  }

  lemma {:induction false} InFlightCoversOne(fs: seq<Refund>, i: nat, k: KeyHash)
    requires i < |fs| && forall j :: 0 <= j < |fs| ==> fs[j].seen.balance >= 0
    ensures 0 <= Takes(fs[i], k) <= InFlight(fs, k)
  {
    var last := |fs| - 1;
    if i < last {
      InFlightCoversOne(fs[..last], i, k);
    } else if last > 0 {
      InFlightCoversOne(fs[..last], 0, k);
    }
  }

  lemma TopUpAndResetKeepInv(s: State, step: Step)
    requires Inv(s) && Enabled(s, step) && (step.TopUp? || step.ResetLimit?)
    ensures Inv(Next(s, step))
  {
    var u := Next(s, step);
    assert KeyOk(s, step.key);
    KeyStep(s, u, step.key, u.rows[step.key], u.tallies[step.key]);
  }

  lemma RestartKeepsInv(s: State)
    requires Inv(s)
    ensures Inv(Next(s, Restart))
  {
    var u := Next(s, Restart);
    forall k | k in u.rows
      ensures KeyOk(u, k)
      ensures ParentOk(u.rows, k)
    {
      assert KeyOk(s, k);
      assert ParentOk(s.rows, k);
    }
    FamilyStep(s, u);
  }

  lemma StepKeepsInv(s: State, step: Step)
    requires Inv(s) && Enabled(s, step)
    ensures Inv(Next(s, step))
  {
    match step
    case CreateKey(_, _, _) => CreateKeyKeepsInv(s, step);
    case TopUp(_, _) => TopUpAndResetKeepInv(s, step);
    case SellChildren(_, _, _, _) => SellChildrenKeepsInv(s, step);
    case Admit(_, _) => AdmitKeepsInv(s, step);
    case ReserveBilling(id) => ReserveBillingKeepsInv(s, id);
    case ReserveOnChild(id) => ReserveOnChildKeepsInv(s, id);
    case Settle(id, settlement, seenBalance) => SettleKeepsInv(s, id, settlement, seenBalance);
    case SettleOnChild(id) => SettleOnChildKeepsInv(s, id);
    case ReadForRefund(_) => ReadForRefundKeepsInv(s, step);
    case DebitRefund(i) => DebitKeepsInv(s, i);
    case MintRefund(i, ok) => MintKeepsInv(s, i, ok);
    case RestoreRefund(i) => RestoreKeepsInv(s, i);
    case ResetLimit(_) => TopUpAndResetKeepInv(s, step);
    case Restart => RestartKeepsInv(s);
  }
}
