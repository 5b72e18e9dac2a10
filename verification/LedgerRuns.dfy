/** What holds after every interleaved run of the ledger, and runs that show where it stops holding. */
module LedgerRuns {
  import opened Wrappers
  import opened ApiKeyRows
  import opened KeyTable
  import opened LedgerProtocol

  ghost predicate IsRun(s: State, steps: seq<Step>)
    decreases |steps|
  {
    steps == [] || (Linked(s) && Enabled(s, steps[0]) && IsRun(Next(s, steps[0]), steps[1..]))
  }

  ghost function After(s: State, steps: seq<Step>): State
    requires IsRun(s, steps)
    decreases |steps|
  {
    if steps == [] then s else After(Next(s, steps[0]), steps[1..])
  }

  lemma {:induction false} RunKeepsInv(s: State, steps: seq<Step>)
    requires Inv(s) && IsRun(s, steps)
    ensures Inv(After(s, steps))
    decreases |steps|
  {
    if steps != [] {
      StepKeepsInv(s, steps[0]);
      RunKeepsInv(Next(s, steps[0]), steps[1..]);
    }
  }

  /** Reserved balances are exactly the outstanding reservations, and what is left of a balance after them
      is never below minus the total charged beyond reservations. */
  lemma ReservationsAreExact(steps: seq<Step>, k: KeyHash)
    requires IsRun(INITIAL, steps) && k in After(INITIAL, steps).rows
    ensures var s := After(INITIAL, steps);
      && k in s.tallies
      && s.rows[k].reserved == Reserved(s.requests, k)
      && (s.rows[k].parent.None? ==> s.rows[k].balance - s.rows[k].reserved >= -s.tallies[k].excess)
  {
    RunKeepsInv(INITIAL, steps);
    assert KeyOk(After(INITIAL, steps), k);
  }

  /** Deposits = balance + spent (reset or not) + refunds in flight + refunded + dust + cut off by a restart,
      with every debit of a refund accounted for and less than a sat of dust per payout. */
  lemma MoneyIsConserved(steps: seq<Step>, k: KeyHash)
    requires IsRun(INITIAL, steps) && IsRoot(After(INITIAL, steps).rows, k)
    ensures var s := After(INITIAL, steps);
      && k in s.tallies
      && var row, t, inFlight := s.rows[k], s.tallies[k], InFlight(s.refunds, k);
      && t.deposited == row.balance + row.spent + t.forgotten + inFlight + t.refunded + t.dust + t.stranded
      && t.debited == inFlight + t.refunded + t.dust + t.restored + t.stranded
      && 0 <= t.refunded <= t.debited - t.restored
      && 0 <= t.dust <= 999 * t.payouts
  {
    RunKeepsInv(INITIAL, steps);
    assert KeyOk(After(INITIAL, steps), k);
  }

  /** Money credited to a child key stays on it: it is never charged and never refunded. */
  lemma ChildCreditsAreStuck(steps: seq<Step>, k: KeyHash)
    requires IsRun(INITIAL, steps) && k in After(INITIAL, steps).rows && After(INITIAL, steps).rows[k].parent.Some?
    ensures var s := After(INITIAL, steps);
      k in s.tallies && s.rows[k].balance == s.tallies[k].deposited
  {
    RunKeepsInv(INITIAL, steps);
    assert KeyOk(After(INITIAL, steps), k);
  }

  // ---------- Runs without an overrun ----------

  /** The charge of a settlement stays within its reservation. */
  predicate WithinReservation(s: State, step: Step) {
    match step
    case Settle(id, Adjust(outcome), _) =>
      id < |s.requests| && !outcome.CostError? ==> outcome.total <= s.requests[id].cost
    case _ => true
  }

  ghost predicate NoOverrun(s: State, steps: seq<Step>)
    requires IsRun(s, steps)
    decreases |steps|
  {
    steps == [] || (WithinReservation(s, steps[0]) && NoOverrun(Next(s, steps[0]), steps[1..]))
  }

  ghost predicate NoExcess(s: State) {
    forall k :: k in s.tallies ==> s.tallies[k].excess == 0
  }

  lemma SettleAddsNoExcess(s: State, step: Step)
    requires Inv(s) && Enabled(s, step) && step.Settle? && WithinReservation(s, step) && NoExcess(s)
    ensures NoExcess(Next(s, step))
  {
    var r := s.requests[step.id];
    BillingIsRoot(s, step.id);
    assert KeyOk(s, r.billing);
    ReservedCovers(s.requests, step.id, r.billing);
    assert Charged(s.rows[r.billing], Execute(BillingStatement(step.settlement, r.cost), s.rows[r.billing])) <= r.cost;
  }

  lemma StepAddsNoExcess(s: State, step: Step)
    requires Inv(s) && Enabled(s, step) && WithinReservation(s, step) && NoExcess(s)
    ensures NoExcess(Next(s, step))
  {
    if step.Settle? {
      SettleAddsNoExcess(s, step);
    }
  }

  lemma {:induction false} RunAddsNoExcess(s: State, steps: seq<Step>)
    requires Inv(s) && IsRun(s, steps) && NoOverrun(s, steps) && NoExcess(s)
    ensures NoExcess(After(s, steps))
    decreases |steps|
  {
    if steps != [] {
      StepKeepsInv(s, steps[0]);
      StepAddsNoExcess(s, steps[0]);
      RunAddsNoExcess(Next(s, steps[0]), steps[1..]);
    }
  }

  /** Without an overrun no billing key ever holds more reservations than balance. */
  lemma NoOverrunMeansSolvent(steps: seq<Step>, k: KeyHash)
    requires IsRun(INITIAL, steps) && NoOverrun(INITIAL, steps) && IsRoot(After(INITIAL, steps).rows, k)
    ensures 0 <= After(INITIAL, steps).rows[k].reserved <= After(INITIAL, steps).rows[k].balance
  {
    RunKeepsInv(INITIAL, steps);
    RunAddsNoExcess(INITIAL, steps);
    assert KeyOk(After(INITIAL, steps), k);
  }

  // ---------- When every billing key stays solvent ----------

  predicate SolventRow(row: Row) {
    row.parent.None? ==> 0 <= row.reserved <= row.balance
  }

  ghost predicate RootsSolvent(s: State) {
    forall k {:trigger s.rows[k]} :: k in s.rows ==> SolventRow(s.rows[k])
  }

  /** What a settlement takes beyond its own reservation is not reserved by anyone else. */
  predicate TakesOnlyFreeBalance(s: State, step: Step) {
    match step
    case Settle(id, settlement, _) =>
      id < |s.requests| && s.requests[id].billing in s.rows ==>
        var r := s.requests[id];
        var row := s.rows[r.billing];
        Charged(row, Execute(BillingStatement(settlement, r.cost), row)) - r.cost <= row.TotalBalance()
    case _ => true
  }

  ghost predicate AllTakeOnlyFreeBalance(s: State, steps: seq<Step>)
    requires IsRun(s, steps)
    decreases |steps|
  {
    steps == [] || (TakesOnlyFreeBalance(s, steps[0]) && AllTakeOnlyFreeBalance(Next(s, steps[0]), steps[1..]))
  }

  ghost predicate AlwaysSolvent(s: State, steps: seq<Step>)
    requires IsRun(s, steps)
    decreases |steps|
  {
    RootsSolvent(s) && (steps == [] || AlwaysSolvent(Next(s, steps[0]), steps[1..]))
  }

  lemma SettleKeepsSolventIff(s: State, step: Step)
    requires Inv(s) && Enabled(s, step) && step.Settle? && RootsSolvent(s)
    ensures RootsSolvent(Next(s, step)) <==> TakesOnlyFreeBalance(s, step)
  {
    var r := s.requests[step.id];
    var row := s.rows[r.billing];
    var after := Execute(BillingStatement(step.settlement, r.cost), row);
    BillingIsRoot(s, step.id);
    assert KeyOk(s, r.billing);
    ReservedCovers(s.requests, step.id, r.billing);
    SettlementReleasesAll(step.settlement, row, r.cost);
    assert Next(s, step).rows == s.rows[r.billing := after];
    assert SolventRow(after) <==> TakesOnlyFreeBalance(s, step);
    if SolventRow(after) {
      forall k | k in s.rows
        ensures SolventRow(Next(s, step).rows[k])
      {
        assert SolventRow(s.rows[k]);
      }
    } else {
      assert !SolventRow(Next(s, step).rows[r.billing]);
    }
  }

  lemma RefundStepKeepsSolvent(s: State, step: Step)
    requires Inv(s) && Enabled(s, step) && RootsSolvent(s)
    requires step.DebitRefund? || step.MintRefund? || step.RestoreRefund?
    ensures RootsSolvent(Next(s, step))
  {
    assert RefundOk(s.rows, s.refunds[step.refund]);
  }

  lemma ChildStepKeepsSolvent(s: State, step: Step)
    requires Inv(s) && Enabled(s, step) && RootsSolvent(s)
    requires step.ReserveOnChild? || step.SettleOnChild?
    ensures RootsSolvent(Next(s, step))
  {
    assert RequestOk(s.rows, s.requests[step.id]);
    BillingIsRoot(s, step.id);
  }

  lemma KeyStepKeepsSolvent(s: State, step: Step)
    requires Inv(s) && Enabled(s, step) && RootsSolvent(s)
    requires !step.Settle? && !step.ReserveOnChild? && !step.SettleOnChild?
    requires !step.DebitRefund? && !step.MintRefund? && !step.RestoreRefund?
    ensures RootsSolvent(Next(s, step))
  {
    hide KeyOk, RequestOk, RefundOk, ParentOk, Reserved, InFlight, LimitOk;
  }

  lemma StepKeepsSolventIff(s: State, step: Step)
    requires Inv(s) && Enabled(s, step) && RootsSolvent(s)
    ensures RootsSolvent(Next(s, step)) <==> TakesOnlyFreeBalance(s, step)
  {
    hide Next, RootsSolvent;
    match step
    case Settle(_, _, _) => SettleKeepsSolventIff(s, step);
    case DebitRefund(_) => RefundStepKeepsSolvent(s, step);
    case MintRefund(_, _) => RefundStepKeepsSolvent(s, step);
    case RestoreRefund(_) => RefundStepKeepsSolvent(s, step);
    case ReserveOnChild(_) => ChildStepKeepsSolvent(s, step);
    case SettleOnChild(_) => ChildStepKeepsSolvent(s, step);
    case _ => KeyStepKeepsSolvent(s, step);
  }

  lemma {:induction false} AlwaysSolventIffFree(s: State, steps: seq<Step>)
    requires Inv(s) && RootsSolvent(s) && IsRun(s, steps)
    ensures AlwaysSolvent(s, steps) <==> AllTakeOnlyFreeBalance(s, steps)
    decreases |steps|
  {
    if steps != [] {
      StepKeepsInv(s, steps[0]);
      StepKeepsSolventIff(s, steps[0]);
      if RootsSolvent(Next(s, steps[0])) {
        AlwaysSolventIffFree(Next(s, steps[0]), steps[1..]);
      } else {
        assert !AlwaysSolvent(Next(s, steps[0]), steps[1..]);
      }
    }
  }

  /** Every billing key holds 0 <= reserved <= balance throughout a run if and only if no settlement takes more
      beyond its own reservation than the balance that is free at that moment. */
  lemma SolventThroughoutIff(steps: seq<Step>)
    requires IsRun(INITIAL, steps)
    ensures AlwaysSolvent(INITIAL, steps) <==> AllTakeOnlyFreeBalance(INITIAL, steps)
  {
    AlwaysSolventIffFree(INITIAL, steps);
  }

  // ---------- Guards and clamps are never needed for a reservation settled once ----------

  predicate ReleasesAll(stmt: Statement, row: Row, cost: int) {
    Matches(stmt, row) && Execute(stmt, row).reserved == row.reserved - cost
  }

  lemma SettlementReleasesAll(settlement: Settlement, row: Row, cost: nat)
    requires row.reserved >= cost
    ensures ReleasesAll(BillingStatement(settlement, cost), row, cost)
  {
  }

  /** Whenever a run is about to settle a held reservation, the billing row still covers it, so the guarded
      statements match and the clamped ones subtract the whole cost; the child row is covered until its own turn. */
  lemma SettlementsFindTheirReservation(steps: seq<Step>, id: nat)
    requires IsRun(INITIAL, steps) && id < |After(INITIAL, steps).requests|
    ensures var s := After(INITIAL, steps);
      var r := s.requests[id];
      && r.billing in s.rows && r.key in s.rows
      && (r.phase.Held? ==> forall x :: ReleasesAll(BillingStatement(x, r.cost), s.rows[r.billing], r.cost))
      && (r.phase.SettledChildPending? ==> ReleasesAll(r.phase.childStatement, s.rows[r.key], r.cost))
  {
    RunKeepsInv(INITIAL, steps);
    ReservationsAreCovered(After(INITIAL, steps), id);
    var r := After(INITIAL, steps).requests[id];
    if r.phase.Held? {
      forall x ensures ReleasesAll(BillingStatement(x, r.cost), After(INITIAL, steps).rows[r.billing], r.cost) {
        SettlementReleasesAll(x, After(INITIAL, steps).rows[r.billing], r.cost);
      }
    }
  }

  lemma ReservationsAreCovered(s: State, id: nat)
    requires Inv(s) && id < |s.requests|
    ensures var r := s.requests[id];
      && r.billing in s.rows && r.key in s.rows
      && (r.phase.Held? ==> s.rows[r.billing].reserved >= r.cost)
      && (r.phase.SettledChildPending? ==>
            s.rows[r.key].reserved >= r.cost && ReleasesOnChild(r.phase.childStatement, r.cost))
  {
    var r := s.requests[id];
    assert RequestOk(s.rows, r);
    BillingIsRoot(s, id);
    assert KeyOk(s, r.billing);
    assert KeyOk(s, r.key);
    ReservedCovers(s.requests, id, r.billing);
    ReservedCovers(s.requests, id, r.key);
  }

  // ---------- Child keys: what a lost race leaves behind ----------

  /** Accepted and not yet released on the child row. */
  function Outstanding(rs: seq<Request>, k: KeyHash): nat {
    if rs == [] then 0 else
    var r := rs[|rs| - 1];
    Outstanding(rs[..|rs| - 1], k) +
      if r.key == k && (r.phase.Held? || r.phase.SettledChildPending?) then r.cost else 0
  }

  /** Refused on the billing row but added to the child row all the same. */
  function Leaked(rs: seq<Request>, k: KeyHash): nat {
    if rs == [] then 0 else
    var r := rs[|rs| - 1];
    Leaked(rs[..|rs| - 1], k) + if r.key == k && r.phase.RefusedLeaving? then r.cost else 0
  }

  lemma {:induction false} ChildReservedSplits(rs: seq<Request>, k: KeyHash)
    requires forall i :: 0 <= i < |rs| ==> rs[i].billing != k
    ensures Reserved(rs, k) == Outstanding(rs, k) + Leaked(rs, k)
  {
    if rs != [] {
      ChildReservedSplits(rs[..|rs| - 1], k);
    }
  }

  /** A child's reserved balance is what it has outstanding plus every cost refused by a lost race: it is
      exact exactly when no such request ever reached the child row. */
  lemma ChildReservedIsOutstandingPlusLeaks(steps: seq<Step>, k: KeyHash)
    requires IsRun(INITIAL, steps) && k in After(INITIAL, steps).rows && After(INITIAL, steps).rows[k].parent.Some?
    ensures var s := After(INITIAL, steps);
      && s.rows[k].reserved == Outstanding(s.requests, k) + Leaked(s.requests, k)
      && (s.rows[k].reserved == Outstanding(s.requests, k) <==> Leaked(s.requests, k) == 0)
  {
    RunKeepsInv(INITIAL, steps);
    var s := After(INITIAL, steps);
    assert KeyOk(s, k);
    forall i | 0 <= i < |s.requests|
      ensures s.requests[i].billing != k
    {
      BillingIsRoot(s, i);
    }
    ChildReservedSplits(s.requests, k);
  }

  // ---------- Child keys: the spending limit ----------

  /** The limit a child key can use; a negative limit allows nothing. */
  predicate LimitOk(row: Row) {
    row.parent.Some? && row.limit.Some? ==> row.spent + row.reserved <= Max(row.limit.value, 0)
  }

  ghost predicate LimitsOk(s: State) {
    forall k :: k in s.rows ==> LimitOk(s.rows[k])
  }

  /** The limit check that was made at admission still holds when the child row is updated. */
  predicate FreshCheck(s: State, step: Step) {
    match step
    case ReserveOnChild(id) =>
      id < |s.requests| && s.requests[id].key in s.rows ==>
        var r := s.requests[id];
        var row := s.rows[r.key];
        row.limit.Some? ==> row.spent + row.reserved + r.cost <= Max(row.limit.value, 0)
    case _ => true
  }

  ghost predicate AllFresh(s: State, steps: seq<Step>)
    requires IsRun(s, steps)
    decreases |steps|
  {
    steps == [] || (FreshCheck(s, steps[0]) && AllFresh(Next(s, steps[0]), steps[1..]))
  }

  ghost predicate LimitsAlwaysOk(s: State, steps: seq<Step>)
    requires IsRun(s, steps)
    decreases |steps|
  {
    LimitsOk(s) && (steps == [] || LimitsAlwaysOk(Next(s, steps[0]), steps[1..]))
  }

  /** Child rows have a non-negative spent total, and a pending child statement charges at most its cost. */
  ghost predicate ChildChargesOk(s: State) {
    && (forall k :: k in s.rows && s.rows[k].parent.Some? ==> s.rows[k].spent >= 0)
    && (forall i :: 0 <= i < |s.requests| && s.requests[i].phase.SettledChildPending? ==>
          ChargeWithin(s.requests[i].phase.childStatement, s.requests[i].cost))
  }

  predicate ChargeWithin(stmt: Statement, cost: nat) {
    !stmt.OverrunChild? && (stmt.FinalizeChild? ==> 0 <= stmt.total <= cost)
  }

  /** Child rows that a step adds are empty; on the others it raises nothing. */
  ghost predicate ChildRowsCalm(s: State, u: State) {
    forall k {:trigger CalmRow(s.rows, k, u.rows[k])} :: k in u.rows && u.rows[k].parent.Some? ==> CalmRow(s.rows, k, u.rows[k])
  }

  predicate CalmRow(rows: Rows, k: KeyHash, later: Row) {
    if k in rows then
      && later.parent == rows[k].parent && later.limit == rows[k].limit
      && later.spent >= 0
      && later.spent + later.reserved <= rows[k].spent + rows[k].reserved
    else later.spent == later.reserved == 0
  }

  lemma CalmKeepsLimits(s: State, u: State)
    requires ChildRowsCalm(s, u) && LimitsOk(s)
    ensures LimitsOk(u)
  {
    forall k | k in u.rows
      ensures LimitOk(u.rows[k])
    {
      if u.rows[k].parent.Some? {
        assert CalmRow(s.rows, k, u.rows[k]);
        assert k in s.rows ==> LimitOk(s.rows[k]);
      }
    }
  }

  /** A calm step leaves the requests' pending statements alone, or closes and opens none with a larger charge. */
  lemma CalmKeepsCharges(s: State, u: State)
    requires ChildRowsCalm(s, u) && ChildChargesOk(s)
    requires u.rows.Keys >= s.rows.Keys
    requires forall i :: 0 <= i < |u.requests| && u.requests[i].phase.SettledChildPending? ==>
               (i < |s.requests| && u.requests[i] == s.requests[i])
               || ChargeWithin(u.requests[i].phase.childStatement, u.requests[i].cost)
    ensures ChildChargesOk(u)
  {
    forall k | k in u.rows && u.rows[k].parent.Some?
      ensures u.rows[k].spent >= 0
    {
      assert CalmRow(s.rows, k, u.rows[k]);
    }
  }

  lemma RefundStepIsCalm(s: State, step: Step)
    requires Inv(s) && Enabled(s, step) && ChildChargesOk(s)
    requires step.DebitRefund? || step.MintRefund? || step.RestoreRefund?
    ensures ChildRowsCalm(s, Next(s, step)) && ChildChargesOk(Next(s, step))
  {
    assert RefundOk(s.rows, s.refunds[step.refund]);
    CalmKeepsCharges(s, Next(s, step));
  }

  lemma KeyStepIsCalm(s: State, step: Step)
    requires Inv(s) && Enabled(s, step) && ChildChargesOk(s)
    requires step.TopUp? || step.ResetLimit? || step.CreateKey? || step.Admit? || step.ReadForRefund?
    ensures ChildRowsCalm(s, Next(s, step)) && ChildChargesOk(Next(s, step))
  {
    CalmKeepsCharges(s, Next(s, step));
  }

  lemma SaleIsCalm(s: State, step: Step)
    requires Inv(s) && Enabled(s, step) && ChildChargesOk(s) && step.SellChildren?
    ensures ChildRowsCalm(s, Next(s, step)) && ChildChargesOk(Next(s, step))
  {
    var u := Next(s, step);
    assert u.rows[step.key].parent.None?;
    CalmKeepsCharges(s, u);
  }

  lemma RestartIsCalm(s: State)
    requires Inv(s) && ChildChargesOk(s)
    ensures ChildRowsCalm(s, Next(s, Restart)) && ChildChargesOk(Next(s, Restart))
  {
    var u := Next(s, Restart);
    forall k | k in u.rows && u.rows[k].parent.Some?
      ensures CalmRow(s.rows, k, u.rows[k])
    {
      assert KeyOk(s, k);
    }
    CalmKeepsCharges(s, u);
  }

  lemma BillingStepIsCalm(s: State, step: Step)
    requires Inv(s) && Enabled(s, step) && ChildChargesOk(s) && WithinReservation(s, step)
    requires step.ReserveBilling? || step.Settle?
    ensures ChildRowsCalm(s, Next(s, step)) && ChildChargesOk(Next(s, step))
  {
    var u := Next(s, step);
    BillingIsRoot(s, step.id);
    CalmKeepsCharges(s, u);
  }

  lemma ChildReserveKeepsLimits(s: State, id: nat)
    requires Inv(s) && Enabled(s, ReserveOnChild(id)) && ChildChargesOk(s)
    ensures ChildChargesOk(Next(s, ReserveOnChild(id)))
    ensures LimitsOk(s) ==> (LimitsOk(Next(s, ReserveOnChild(id))) <==> FreshCheck(s, ReserveOnChild(id)))
  {
    var r := s.requests[id];
    var u := Next(s, ReserveOnChild(id));
    assert RequestOk(s.rows, r);
    BillingIsRoot(s, id);
    var row := s.rows[r.key];
    assert u.rows == s.rows[r.key := row.(reserved := row.reserved + r.cost, requests := row.requests + 1)];
    assert LimitOk(u.rows[r.key]) <==> FreshCheck(s, ReserveOnChild(id));
  }

  lemma ChildSettleIsCalm(s: State, id: nat)
    requires Inv(s) && Enabled(s, SettleOnChild(id)) && ChildChargesOk(s)
    ensures ChildRowsCalm(s, Next(s, SettleOnChild(id))) && ChildChargesOk(Next(s, SettleOnChild(id)))
  {
    var r := s.requests[id];
    var u := Next(s, SettleOnChild(id));
    assert RequestOk(s.rows, r);
    assert KeyOk(s, r.key);
    ReservedCovers(s.requests, id, r.key);
    BillingIsRoot(s, id);
    assert ChargeWithin(r.phase.childStatement, r.cost);
    assert CalmRow(s.rows, r.key, u.rows[r.key]);
    CalmKeepsCharges(s, u);
  }

  lemma StepKeepsLimits(s: State, step: Step)
    requires Inv(s) && Enabled(s, step) && WithinReservation(s, step) && ChildChargesOk(s)
    ensures ChildChargesOk(Next(s, step))
    ensures LimitsOk(s) ==> (LimitsOk(Next(s, step)) <==> FreshCheck(s, step))
  {
    if step.ReserveOnChild? {
      ChildReserveKeepsLimits(s, step.id);
    } else {
      if step.SettleOnChild? {
        ChildSettleIsCalm(s, step.id);
      } else if step.ReserveBilling? || step.Settle? {
        BillingStepIsCalm(s, step);
      } else if step.DebitRefund? || step.MintRefund? || step.RestoreRefund? {
        RefundStepIsCalm(s, step);
      } else if step.SellChildren? {
        SaleIsCalm(s, step);
      } else if step.Restart? {
        RestartIsCalm(s);
      } else {
        KeyStepIsCalm(s, step);
      }
      if LimitsOk(s) {
        CalmKeepsLimits(s, Next(s, step));
      }
    }
  }

  lemma {:induction false} LimitsHoldIffFresh(s: State, steps: seq<Step>)
    requires Inv(s) && ChildChargesOk(s) && LimitsOk(s) && IsRun(s, steps) && NoOverrun(s, steps)
    ensures LimitsAlwaysOk(s, steps) <==> AllFresh(s, steps)
    decreases |steps|
  {
    if steps != [] {
      StepKeepsInv(s, steps[0]);
      StepKeepsLimits(s, steps[0]);
      if LimitsOk(Next(s, steps[0])) {
        LimitsHoldIffFresh(Next(s, steps[0]), steps[1..]);
      } else {
        assert !LimitsAlwaysOk(Next(s, steps[0]), steps[1..]);
      }
    }
  }

  /** In every run without an overrun, spent + reserved stays within every child's limit at every moment,
      if and only if every reservation reaches the child row while the limit check made for it still holds. */
  lemma ChildLimitHoldsIff(steps: seq<Step>)
    requires IsRun(INITIAL, steps) && NoOverrun(INITIAL, steps)
    ensures LimitsAlwaysOk(INITIAL, steps) <==> AllFresh(INITIAL, steps)
  {
    LimitsHoldIffFresh(INITIAL, steps);
  }

  /** When nothing runs between the check and the two statements of a request, the check is fresh. */
  lemma UninterruptedRequestIsFresh(s: State, key: KeyHash, cost: nat)
    requires Inv(s) && Enabled(s, Admit(key, cost)) && s.rows[key].parent.Some?
    ensures var admitted := Next(s, Admit(key, cost));
      && Linked(admitted) && Enabled(admitted, ReserveBilling(|s.requests|))
      && var billed := Next(admitted, ReserveBilling(|s.requests|));
      && Linked(billed) && Enabled(billed, ReserveOnChild(|s.requests|))
      && FreshCheck(billed, ReserveOnChild(|s.requests|))
  {
    var admitted := Next(s, Admit(key, cost));
    StepKeepsInv(s, Admit(key, cost));
    BillingIsRoot(admitted, |s.requests|);
    StepKeepsInv(admitted, ReserveBilling(|s.requests|));
  }

  // ---------- Runs in which every child request is admitted and reserved in one go ----------

  predicate OfChild(s: State, key: KeyHash) {
    key in s.rows && s.rows[key].parent.Some?
  }

  /** An admission of a child is followed at once by its two statements, as far as the run goes; `left` of
      them are still to come. */
  ghost predicate Uninterrupted(s: State, steps: seq<Step>, left: nat)
    requires IsRun(s, steps)
    decreases |steps|
  {
    steps == [] ||
    var next, rest := Next(s, steps[0]), steps[1..];
    if left == 0 then Uninterrupted(next, rest, if steps[0].Admit? && OfChild(s, steps[0].key) then 2 else 0)
    else if left == 1 then steps[0].ReserveOnChild? && steps[0].id == |s.requests| - 1 && Uninterrupted(next, rest, 0)
    else steps[0].ReserveBilling? && steps[0].id == |s.requests| - 1 && Uninterrupted(next, rest, 1)
  }

  predicate Settling(r: Request) {
    r.key == r.billing || !(r.phase.Admitted? || r.phase.ReservedChildPending? || r.phase.RefusedChildPending?)
  }

  /** No child request is between its check and its last statement. */
  ghost predicate NonePending(s: State) {
    forall i :: 0 <= i < |s.requests| ==> Settling(s.requests[i])
  }

  lemma StepOpensNothing(s: State, step: Step)
    requires Inv(s) && Enabled(s, step) && NonePending(s) && !(step.Admit? && OfChild(s, step.key))
    ensures NonePending(Next(s, step)) && FreshCheck(s, step)
  {
    var u := Next(s, step);
    if step.ReserveBilling? || step.ReserveOnChild? || step.SettleOnChild? || step.Settle? {
      assert Settling(s.requests[step.id]) && RequestOk(s.rows, s.requests[step.id]);
    }
    forall i | 0 <= i < |u.requests|
      ensures Settling(u.requests[i])
    {
      if i < |s.requests| {
        assert Settling(s.requests[i]);
      }
    }
  }

  /** The last request is a child's, its check still holds, and `left` of its statements are to come. */
  ghost predicate AtWork(s: State, left: nat) {
    var last := |s.requests| - 1;
    && last >= 0
    && (forall i :: 0 <= i < last ==> Settling(s.requests[i]))
    && var r := s.requests[last];
    && r.key != r.billing
    && (if left == 2 then r.phase.Admitted? else left == 1 && (r.phase.ReservedChildPending? || r.phase.RefusedChildPending?))
    && FreshCheck(s, ReserveOnChild(last))
  }

  ghost predicate Between(s: State, left: nat) {
    if left == 0 then NonePending(s) else AtWork(s, left)
  }

  lemma AdmissionStartsWork(s: State, step: Step)
    requires Inv(s) && Enabled(s, step) && NonePending(s) && step.Admit? && OfChild(s, step.key)
    ensures AtWork(Next(s, step), 2)
  {
    var u := Next(s, step);
    assert ParentOk(s.rows, step.key);
    forall i | 0 <= i < |s.requests|
      ensures Settling(u.requests[i])
    {
      assert Settling(s.requests[i]);
    }
  }

  lemma BillingStaysAtWork(s: State, step: Step)
    requires Inv(s) && Enabled(s, step) && AtWork(s, 2) && step.ReserveBilling? && step.id == |s.requests| - 1
    ensures AtWork(Next(s, step), 1)
  {
    var u := Next(s, step);
    BillingIsRoot(s, step.id);
    forall i | 0 <= i < |s.requests| - 1
      ensures Settling(u.requests[i])
    {
      assert Settling(s.requests[i]);
    }
  }

  lemma ChildStatementEndsWork(s: State, step: Step)
    requires Inv(s) && Enabled(s, step) && AtWork(s, 1) && step.ReserveOnChild? && step.id == |s.requests| - 1
    ensures NonePending(Next(s, step)) && FreshCheck(s, step)
  {
    var u := Next(s, step);
    forall i | 0 <= i < |s.requests| - 1
      ensures Settling(u.requests[i])
    {
      assert Settling(s.requests[i]);
    }
  }

  lemma {:induction false} UninterruptedRunIsFresh(s: State, steps: seq<Step>, left: nat)
    requires Inv(s) && left <= 2 && Between(s, left) && IsRun(s, steps) && Uninterrupted(s, steps, left)
    ensures AllFresh(s, steps)
    decreases |steps|
  {
    if steps != [] {
      var step := steps[0];
      StepKeepsInv(s, step);
      if left == 2 {
        BillingStaysAtWork(s, step);
        UninterruptedRunIsFresh(Next(s, step), steps[1..], 1);
      } else if left == 1 {
        ChildStatementEndsWork(s, step);
        UninterruptedRunIsFresh(Next(s, step), steps[1..], 0);
      } else if step.Admit? && OfChild(s, step.key) {
        AdmissionStartsWork(s, step);
        UninterruptedRunIsFresh(Next(s, step), steps[1..], 2);
      } else {
        StepOpensNothing(s, step);
        UninterruptedRunIsFresh(Next(s, step), steps[1..], 0);
      }
    }
  }

  /** If the limit check and the two statements of every child request are not interrupted, all limits hold
      throughout every run without an overrun. */
  lemma UninterruptedLimitsHold(steps: seq<Step>)
    requires IsRun(INITIAL, steps) && NoOverrun(INITIAL, steps) && Uninterrupted(INITIAL, steps, 0)
    ensures LimitsAlwaysOk(INITIAL, steps)
  {
    UninterruptedRunIsFresh(INITIAL, steps, 0);
    ChildLimitHoldsIff(steps);
  }
}
