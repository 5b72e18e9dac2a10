/** The api_keys table and the request handlers that update it.
    A handler holds a row it read earlier (`seen…`); the table may have moved on since.
    Only the UPDATE statements see the current row. */
module KeyTable {
  import opened Wrappers
  import opened ApiKeyRows

  type Rows = map<KeyHash, Row>

  /** get_billing_key: the parent when there is one, else the key itself. */
  function BillingOf(rows: Rows, key: KeyHash): (billing: KeyHash)
    requires key in rows
    ensures billing in rows
  {
    match rows[key].parent
    case Some(p) => if p in rows then p else key
    case None => key
  }

  /** UPDATE api_keys … WHERE hashed_key = key. */
  function Updated(rows: Rows, key: KeyHash, s: Statement): Rows {
    if key in rows then rows[key := Execute(s, rows[key])] else rows
  }

  function AllUpdated(rows: Rows, updates: seq<(KeyHash, Statement)>): Rows {
    if updates == [] then rows
    else AllUpdated(Updated(rows, updates[0].0, updates[0].1), updates[1..])
  }

  /** The statements that hit one row. */
  function StatementsOn(key: KeyHash, updates: seq<(KeyHash, Statement)>): seq<Statement> {
    if updates == [] then []
    else (if updates[0].0 == key then [updates[0].1] else []) + StatementsOn(key, updates[1..])
  }

  /** The whole table after a debit, interleaved statements and the restore. */
  lemma FailedRefundRows(before: Rows, key: KeyHash, during: seq<(KeyHash, Statement)>)
    requires key in before
    ensures var row := before[key];
      var after := Updated(AllUpdated(before[key := row.(balance := 0, reserved := 0)], during), key, Restore(row.balance, row.reserved));
      && after.Keys == before.Keys
      && (forall k :: k in before && k != key ==> after[k] == ExecuteAll(StatementsOn(k, during), before[k]))
      && after[key] == RefundThatFailed(row, StatementsOn(key, during))
      && (row.reserved == 0 && SameDecisions(StatementsOn(key, during), row, row.balance) ==> after == AllUpdated(before, during))
  {
    hide AllUpdated, StatementsOn, ExecuteAll, SameDecisions;
    var row := before[key];
    var debited := before[key := row.(balance := 0, reserved := 0)];
    UpdatesKeepKeys(debited, during);
    UpdatesKeepKeys(before, during);
    forall k | k in before
      ensures AllUpdated(debited, during)[k] == ExecuteAll(StatementsOn(k, during), debited[k])
      ensures AllUpdated(before, during)[k] == ExecuteAll(StatementsOn(k, during), before[k])
    {
      UpdatesSplitByRow(debited, during, k);
      UpdatesSplitByRow(before, during, k);
    }
    if row.reserved == 0 && SameDecisions(StatementsOn(key, during), row, row.balance) {
      FailedRefundLeavesNoTrace(row, StatementsOn(key, during));
    }
  }

  lemma {:induction false} UpdatesSplitByRow(rows: Rows, updates: seq<(KeyHash, Statement)>, key: KeyHash)
    requires key in rows
    ensures key in AllUpdated(rows, updates)
    ensures AllUpdated(rows, updates)[key] == ExecuteAll(StatementsOn(key, updates), rows[key])
  {
    if updates != [] {
      var next := Updated(rows, updates[0].0, updates[0].1);
      UpdatesSplitByRow(next, updates[1..], key);
      if updates[0].0 == key {
        assert StatementsOn(key, updates)[1..] == StatementsOn(key, updates[1..]);
      } else {
        assert StatementsOn(key, updates) == StatementsOn(key, updates[1..]);
      }
    }
  }

  lemma {:induction false} UpdatesSnoc(rows: Rows, updates: seq<(KeyHash, Statement)>, last: (KeyHash, Statement))
    ensures AllUpdated(rows, updates + [last]) == Updated(AllUpdated(rows, updates), last.0, last.1)
  {
    if updates == [] {
      assert updates + [last] == [last];
    } else {
      assert (updates + [last])[1..] == updates[1..] + [last];
      UpdatesSnoc(Updated(rows, updates[0].0, updates[0].1), updates[1..], last);
    }
  }

  datatype PayError = InsufficientBalance | KeyExpired | LimitExceeded | LostRace

  /** calculate_cost: a flat maximum, a cost from usage, or an error. */
  datatype CostOutcome = MaxCost(total: nat) | Usage(total: nat) | CostError

  /** How a reservation ends: settled with a cost, or reverted by the failover loop. */
  datatype Settlement = Adjust(outcome: CostOutcome) | RevertRequest

  /** The statement that settles the billing row. */
  function BillingStatement(s: Settlement, cost: int): Statement {
    match s
    case RevertRequest => Revert(cost)
    case Adjust(CostError) => Release(cost)
    case Adjust(MaxCost(total)) => Finalize(cost, total)
    case Adjust(Usage(total)) => if total > cost then Overrun(cost, total) else Finalize(cost, total)
  }

  function ChildStatement(s: Settlement, cost: int, seenBalance: int): Statement {
    match s
    case RevertRequest => Revert(cost)
    case Adjust(CostError) => Release(cost)
    case Adjust(MaxCost(total)) => FinalizeChild(cost, total)
    case Adjust(Usage(total)) =>
      if total > cost then OverrunChild(cost, Min(seenBalance, total)) else FinalizeChild(cost, total)
  }

  /** A reservation: the guarded billing statement, then the child's own. */
  function ReservedRows(rows: Rows, key: KeyHash, cost: int): Rows
    requires key in rows
  {
    var billing := BillingOf(rows, key);
    var after := Updated(rows, billing, Reserve(cost));
    if billing == key then after else Updated(after, key, ReserveChild(cost))
  }

  function SettledRows(rows: Rows, key: KeyHash, s: Settlement, cost: int, seenBalance: int): Rows
    requires key in rows
  {
    var billing := BillingOf(rows, key);
    var after := Updated(rows, billing, BillingStatement(s, cost));
    if billing == key then after else Updated(after, key, ChildStatement(s, cost, seenBalance))
  }

  datatype RefundError = ChildKey | OngoingRequests | NothingToRefund | Conflict | MintFailed

  datatype Payout = Payout(amount: int, unit: Unit)

  datatype SpawnError = BadCount | NestedChild | CannotAfford

  /** ceil(total * 2.1 / 100), with the rate as 21/1000. */
  function FeeOn(total: nat): nat {
    (21 * total + 999) / 1000
  }

  function PayoutMsats(p: Payout): int {
    if p.unit == Sat then p.amount * 1000 else p.amount
  }

  /** What a refund sends for a balance: whole sats for a sat key, msats otherwise,
      in the key's unit, which defaults to sat. */
  function PayoutFor(row: Row, balance: int): Payout {
    Payout(if row.currency == Some(Sat) then balance / 1000 else balance,
           if row.currency.Some? then row.currency.value else Sat)
  }

  /** There is something to send: a whole sat for a sat key, an msat otherwise. */
  predicate Refundable(row: Row) {
    row.TotalBalance() >= if row.currency == Some(Sat) then 1000 else 1
  }

  /** Something is sent exactly for a refundable balance. The payout then covers the debited balance up to less
      than one sat of dust, exactly when the key records a currency; without one, msats are sent as sats. */
  lemma RefundPaysWhatWasDebited(row: Row, balance: int)
    ensures PayoutFor(row, row.TotalBalance()).amount > 0 <==> Refundable(row)
    ensures PayoutFor(row, balance).amount > 0 ==>
      (0 <= balance - PayoutMsats(PayoutFor(row, balance)) < 1000 <==> row.currency.Some?)
    ensures row.currency.None? ==> PayoutMsats(PayoutFor(row, balance)) == 1000 * balance
    ensures row.currency == Some(Msat) ==> PayoutMsats(PayoutFor(row, balance)) == balance
  {
  }

  /** The checks of a request on the rows it read: its cost is affordable, its key is valid and within its limit. */
  predicate Affords(seenKey: Row, seenBilling: Row, resetDue: bool, expired: bool, cost: int) {
    && cost <= seenBilling.balance - seenBilling.reserved && !expired
    && (seenKey.limit.Some? ==> (if resetDue then 0 else seenKey.spent) + seenKey.reserved + cost <= seenKey.limit.value)
  }

  class Table {
    var rows: Rows

    method Exec(key: KeyHash, s: Statement) returns (rowcount: nat)
      modifies this
      ensures rows == Updated(old(rows), key, s)
      ensures rowcount == if key in old(rows) && Matches(s, old(rows)[key]) then 1 else 0
    {
      rowcount := if key in rows && Matches(s, rows[key]) then 1 else 0;
      rows := Updated(rows, key, s);
    }

    /** Reserve the cost of a request. `resetDue` says whether the calendar asks for a limit reset,
        `expired` whether the validity date has passed. The two statements run before the outcome of the
        first one is looked at; a refusal by a check leaves the table as it was. */
    method PayForRequest(key: KeyHash, seenKey: Row, seenBilling: Row,
                         resetDue: bool, expired: bool, requested: int, minRequest: int)
      returns (r: Result<int, PayError>)
      requires key in rows
      modifies this
      // The checks in their order on the rows read, then the guard on the current billing row.
      ensures var cost, available := if requested < minRequest then minRequest else requested, old(rows)[BillingOf(old(rows), key)].TotalBalance();
        var affords := cost <= seenBilling.TotalBalance();
        var spent := if resetDue then 0 else seenKey.spent;
        var within := seenKey.limit.Some? ==> spent + seenKey.reserved + cost <= seenKey.limit.value;
        && (r == Failure(InsufficientBalance) <==> !affords)
        && (r == Failure(KeyExpired) <==> affords && expired)
        && (r == Failure(LimitExceeded) <==> affords && !expired && !within)
        && (r == Failure(LostRace) <==> affords && !expired && within && available < cost)
        && (r == Success(cost) <==> Affords(seenKey, seenBilling, resetDue, expired, cost) && cost <= available)
      ensures r.Failure? && !r.error.LostRace? ==> rows == old(rows)
      ensures r.Success? || r.error.LostRace? ==>
        rows == ReservedRows(if resetDue && seenKey.limit.Some? then Updated(old(rows), key, ForgetSpent) else old(rows),
                             key, Max(requested, minRequest))
      ensures r.Success? || r.error.LostRace? ==>
        Recorded(if resetDue && seenKey.limit.Some? then Updated(old(rows), key, ForgetSpent) else old(rows), rows,
                 key, Max(requested, minRequest))
    {
      var cost := Max(requested, minRequest);
      var billing := BillingOf(rows, key);
      if seenBilling.TotalBalance() < cost {
        return Failure(InsufficientBalance);
      }
      if expired {
        return Failure(KeyExpired);
      }
      var uncommitted := rows;
      if seenKey.limit.Some? {
        var seenSpent := seenKey.spent;
        if resetDue {
          seenSpent := 0;
          var _ := Exec(key, ForgetSpent);
        }
        if seenSpent + seenKey.reserved + cost > seenKey.limit.value {
          rows := uncommitted;  // the session closes without a commit
          return Failure(LimitExceeded);
        }
      }
      ReservationRecorded(rows, key, cost);
      var rowcount := Exec(billing, Reserve(cost));
      if billing != key {
        var _ := Exec(key, ReserveChild(cost));
      }
      if rowcount == 0 {
        return Failure(LostRace);
      }
      return Success(cost);
    }

    /** Release a reservation without a charge, on the billing key and on the child.
        Each row is guarded by its own reserved balance. */
    method RevertPayForRequest(key: KeyHash, cost: int) returns (reverted: bool)
      requires key in rows
      modifies this
      ensures rows.Keys == old(rows).Keys
      ensures reverted <==> old(rows)[BillingOf(old(rows), key)].reserved >= cost
      ensures forall k :: k in rows ==>
        rows[k] == if (k == key || k == BillingOf(old(rows), key)) && old(rows)[k].reserved >= cost
                   then old(rows)[k].(reserved := old(rows)[k].reserved - cost, requests := old(rows)[k].requests - 1)
                   else old(rows)[k]
      ensures rows == SettledRows(old(rows), key, RevertRequest, cost, 0)
    {
      var billing := BillingOf(rows, key);
      var rowcount := Exec(billing, Revert(cost));
      if billing != key {
        var _ := Exec(key, Revert(cost));
      }
      reverted := rowcount != 0;
    }

    method ReleaseReservationOnly(key: KeyHash, billing: KeyHash, cost: int)
      requires key in rows && billing in rows
      modifies this
      ensures rows.Keys == old(rows).Keys
      ensures forall k :: k in rows ==>
        rows[k] == if (k == key || k == billing) && old(rows)[k].reserved >= cost
                   then old(rows)[k].(reserved := old(rows)[k].reserved - cost)
                   else old(rows)[k]
      ensures rows == if billing == key then Updated(old(rows), billing, Release(cost))
                      else Updated(Updated(old(rows), billing, Release(cost)), key, Release(cost))
    {
      var _ := Exec(billing, Release(cost));
      if billing != key {
        var _ := Exec(key, Release(cost));
      }
    }

    /** Settle a reservation of `deducted`. `seenBalance` is the billing balance the session
        remembers when it builds the child's overrun statement. `fee` is what goes to the platform:
        nothing when the overrun guard fired or the cost could not be computed. */
    method AdjustPaymentForTokens(key: KeyHash, cost: CostOutcome, deducted: int, seenBalance: int)
      returns (ok: bool, fee: nat)
      requires key in rows
      modifies this
      ensures ok <==> !cost.CostError?
      ensures rows == SettledRows(old(rows), key, Adjust(cost), deducted, seenBalance)
      ensures OnlyBillingPays(old(rows), rows, key)
      ensures ok ==> if cost.Usage? && cost.total > deducted then ChargedUpToBalance(old(rows), rows, key, cost.total, deducted, seenBalance) else ChargedInFull(old(rows), rows, key, cost.total, deducted)
      ensures fee == if cost.CostError? || cost.total == 0
                        || (cost.Usage? && cost.total > deducted && old(rows)[BillingOf(old(rows), key)].reserved < deducted)
                     then 0 else FeeOn(cost.total)
    {
      SettlementConserves(rows, key, Adjust(cost), deducted, seenBalance);
      if !cost.CostError? {
        SettledWithCharge(rows, key, cost, deducted, seenBalance);
      }
      var billing := BillingOf(rows, key);
      fee := 0;
      if cost.CostError? {
        ReleaseReservationOnly(key, billing, deducted);
        return false, 0;
      }
      var total := cost.total;
      var rowcount;
      if cost.Usage? && total > deducted {
        rowcount := Exec(billing, Overrun(deducted, total));
        if billing != key {
          var _ := Exec(key, OverrunChild(deducted, Min(seenBalance, total)));
        }
      } else {
        rowcount := Exec(billing, Finalize(deducted, total));
        if billing != key {
          var _ := Exec(key, FinalizeChild(deducted, total));
        }
      }
      if rowcount != 0 && total > 0 {
        fee := FeeOn(total);
      }
      return true, fee;
    }

    /** Statements of other requests, run while this one waits. */
    method Interleave(updates: seq<(KeyHash, Statement)>)
      modifies this
      ensures rows == AllUpdated(old(rows), updates)
    {
      for i := 0 to |updates|
        invariant rows == AllUpdated(old(rows), updates[..i])
      {
        UpdatesSnoc(old(rows), updates[..i], updates[i]);
        assert updates[..i + 1] == updates[..i] + [updates[i]];
        var _ := Exec(updates[i].0, updates[i].1);
      }
      assert updates[..|updates|] == updates;
    }

    /** Debit first, mint outside the lock, restore on failure. `seen` is the row read at the start,
        `during` what other requests do to the table while the mint is called. */
    method RefundWallet(key: KeyHash, seen: Row, during: seq<(KeyHash, Statement)>, mintSucceeds: bool)
      returns (r: Result<Payout, RefundError>)
      requires key in rows
      modifies this
      // The answer is a payout exactly when the balance was taken from the current row and the mint sent it.
      ensures var taken := old(rows)[key].balance == seen.balance && old(rows)[key].reserved == seen.reserved;
        && (r == Failure(ChildKey) <==> seen.parent.Some?)
        && (r == Failure(OngoingRequests) <==> seen.parent.None? && seen.reserved > 0)
        && (r == Failure(NothingToRefund) <==> seen.parent.None? && seen.reserved <= 0 && !Refundable(seen))
        && (r == Failure(Conflict) <==> seen.parent.None? && seen.reserved <= 0 && Refundable(seen) && !taken)
        && (r == Failure(MintFailed) <==> seen.parent.None? && seen.reserved <= 0 && Refundable(seen) && taken && !mintSucceeds)
        && (r.Success? <==> seen.parent.None? && seen.reserved <= 0 && Refundable(seen) && taken && mintSucceeds)
      ensures r.Success? ==>
        && r.value == PayoutFor(seen, seen.TotalBalance())
        && rows == AllUpdated(old(rows)[key := old(rows)[key].(balance := 0, reserved := 0)], during)
      ensures r == Failure(MintFailed) ==>
        && seen.reserved <= 0
        && rows.Keys == old(rows).Keys
        && (forall k :: k in old(rows) && k != key ==> rows[k] == ExecuteAll(StatementsOn(k, during), old(rows)[k]))
        && rows[key] == RefundThatFailed(old(rows)[key], StatementsOn(key, during))
      ensures r.Failure? && !r.error.MintFailed? ==> rows == old(rows)
      // With no reservation outstanding and no decision taken on the missing balance, a failure is invisible.
      ensures r == Failure(MintFailed) && old(rows)[key].reserved == 0
        && SameDecisions(StatementsOn(key, during), old(rows)[key], old(rows)[key].balance)
        ==> rows == AllUpdated(old(rows), during)
    {
      if seen.parent.Some? {
        return Failure(ChildKey);
      }
      if seen.reserved > 0 {
        return Failure(OngoingRequests);
      }
      var payout := PayoutFor(seen, seen.TotalBalance());
      RefundPaysWhatWasDebited(seen, seen.TotalBalance());
      if payout.amount <= 0 {
        return Failure(NothingToRefund);
      }
      var rowcount := Exec(key, Debit(seen.balance, seen.reserved));
      if rowcount == 0 {
        return Failure(Conflict);
      }
      Interleave(during);
      if mintSucceeds {
        return Success(payout);
      }
      FailedRefundRows(old(rows), key, during);
      var _ := Exec(key, Restore(seen.balance, seen.reserved));
      return Failure(MintFailed);
    }

    /** Sell child keys: the ORM writes back the balance it read, minus the price.
        `hashes` are the random names of the new keys. */
    method CreateChildKeys(key: KeyHash, seen: Row, hashes: seq<KeyHash>, price: nat, limit: Option<int>)
      returns (r: Result<int, SpawnError>)
      requires key in rows
      requires forall i :: 0 <= i < |hashes| ==> hashes[i] !in rows
      modifies this
      ensures r.Failure? ==> rows == old(rows)
      ensures r == Failure(BadCount) <==> !(1 <= |hashes| <= 50)
      ensures r == Failure(NestedChild) <==> 1 <= |hashes| <= 50 && seen.parent.Some?
      ensures r == Failure(CannotAfford) <==> 1 <= |hashes| <= 50 && seen.parent.None? && seen.TotalBalance() < price * |hashes|
      ensures r == Success(price * |hashes|) <==> 1 <= |hashes| <= 50 && seen.parent.None? && price * |hashes| <= seen.TotalBalance()
      ensures r.Success? ==>
        && rows.Keys == old(rows).Keys + (set h | h in hashes)
        && (forall h :: h in hashes ==> rows[h] == Row(0, 0, 0, 0, Some(key), limit, None))
        && (forall k :: k in old(rows) && k != key ==> rows[k] == old(rows)[k])
        && rows[key] == SpawnWrite(old(rows)[key], seen, r.value)
    {
      if |hashes| < 1 || |hashes| > 50 {
        return Failure(BadCount);
      }
      if seen.parent.Some? {
        return Failure(NestedChild);
      }
      var total := price * |hashes|;
      if seen.TotalBalance() < total {
        return Failure(CannotAfford);
      }
      rows := rows[key := SpawnWrite(rows[key], seen, total)];
      for i := 0 to |hashes|
        invariant rows.Keys == old(rows).Keys + (set h | h in hashes[..i])
        invariant forall h :: h in hashes[..i] ==> rows[h] == Row(0, 0, 0, 0, Some(key), limit, None)
        invariant forall k :: k in old(rows) && k != key ==> rows[k] == old(rows)[k]
        invariant rows[key] == SpawnWrite(old(rows)[key], seen, total)
      {
        rows := rows[hashes[i] := Row(0, 0, 0, 0, Some(key), limit, None)];
        assert hashes[..i + 1] == hashes[..i] + [hashes[i]];
      }
      assert hashes[..|hashes|] == hashes;
      return Success(total);
    }
  }

  // ---------- What a reservation and a settlement do to the two rows ----------

  /** A reservation the billing key can afford is recorded on both rows and leaves it solvent; one it cannot
      afford changes no billing key, yet a child row takes it all the same. Balances never move. */
  ghost predicate Recorded(before: Rows, after: Rows, key: KeyHash, cost: int)
    requires key in before
  {
    var b := BillingOf(before, key);
    var accepted := before[b].TotalBalance() >= cost;
    && after.Keys == before.Keys
    && (forall k :: k in before ==>
          var taken := if (k == b && accepted) || (k == key && k != b) then cost else 0;
          after[k] == before[k].(reserved := before[k].reserved + taken, requests := after[k].requests))
    && (accepted ==> after[b].TotalBalance() >= 0)
  }

  lemma ReservationRecorded(rows: Rows, key: KeyHash, cost: int)
    requires key in rows
    ensures Recorded(rows, ReservedRows(rows, key, cost), key, cost)
  {
  }

  /** Only the request's own key and its billing key change, only the billing key pays, and a charge moves
      msats from balance to spent. */
  ghost predicate OnlyBillingPays(before: Rows, after: Rows, key: KeyHash)
    requires key in before
  {
    var b := BillingOf(before, key);
    && after.Keys == before.Keys
    && (forall k :: k in before && k != key && k != b ==> after[k] == before[k])
    && after[b].balance + after[b].spent == before[b].balance + before[b].spent
    && (key != b ==> after[key].balance == before[key].balance)
  }

  /** The cost is charged in full; each row's own reservation is released, clamped at zero. */
  ghost predicate ChargedInFull(before: Rows, after: Rows, key: KeyHash, total: nat, cost: int)
    requires key in before && after.Keys == before.Keys
  {
    var b := BillingOf(before, key);
    && after[b].balance == before[b].balance - total
    && forall k :: k == key || k == b ==>
         after[k].spent == before[k].spent + total
         && after[k].reserved == (if before[k].reserved >= cost then before[k].reserved - cost else 0)
  }

  /** An overrun charges everything up to the cost but never more than the balance, and only against a
      reservation that is still there. The child's statement is guarded by the child's own reservation. */
  ghost predicate ChargedUpToBalance(before: Rows, after: Rows, key: KeyHash, total: nat, cost: int, seenBalance: int)
    requires key in before && after.Keys == before.Keys
  {
    var b := BillingOf(before, key);
    && (if before[b].reserved < cost then after[b] == before[b]
        else after[b].reserved == before[b].reserved - cost
             && after[b].balance == (if total <= before[b].balance then before[b].balance - total else 0))
    && (key != b ==>
          if before[key].reserved < cost then after[key] == before[key]
          else after[key].reserved == before[key].reserved - cost
               && after[key].spent == before[key].spent + (if total <= seenBalance then total else seenBalance))
  }

  lemma SettlementConserves(rows: Rows, key: KeyHash, s: Settlement, cost: int, seenBalance: int)
    requires key in rows
    ensures OnlyBillingPays(rows, SettledRows(rows, key, s, cost, seenBalance), key)
  {
  }

  lemma SettledWithCharge(rows: Rows, key: KeyHash, outcome: CostOutcome, cost: int, seenBalance: int)
    requires key in rows && !outcome.CostError?
    ensures var after := SettledRows(rows, key, Adjust(outcome), cost, seenBalance);
      && after.Keys == rows.Keys
      && (if outcome.Usage? && outcome.total > cost then ChargedUpToBalance(rows, after, key, outcome.total, cost, seenBalance)
          else ChargedInFull(rows, after, key, outcome.total, cost))
  {
    hide ChargedUpToBalance, ChargedInFull, SettledRows;
    if outcome.Usage? && outcome.total > cost {
      SettledUpToBalance(rows, key, outcome.total, cost, seenBalance);
    } else {
      SettledInFull(rows, key, outcome, cost, seenBalance);
    }
  }

  lemma SettledUpToBalance(rows: Rows, key: KeyHash, total: nat, cost: int, seenBalance: int)
    requires key in rows && total > cost
    ensures var after := SettledRows(rows, key, Adjust(Usage(total)), cost, seenBalance);
      after.Keys == rows.Keys && ChargedUpToBalance(rows, after, key, total, cost, seenBalance)
  {
  }

  lemma SettledInFull(rows: Rows, key: KeyHash, outcome: CostOutcome, cost: int, seenBalance: int)
    requires key in rows && !outcome.CostError? && !(outcome.Usage? && outcome.total > cost)
    ensures var after := SettledRows(rows, key, Adjust(outcome), cost, seenBalance);
      after.Keys == rows.Keys && ChargedInFull(rows, after, key, outcome.total, cost)
  {
  }

  /** A reverted or unpriced request costs nothing, and running it again changes nothing once the reservations
      it guards on are gone. */
  lemma SettledWithoutCharge(rows: Rows, key: KeyHash, s: Settlement, cost: int, seenBalance: int)
    requires key in rows && (s.RevertRequest? || s == Adjust(CostError))
    ensures var after := SettledRows(rows, key, s, cost, seenBalance);
      forall k :: k in rows ==>
        && after[k].balance == rows[k].balance && after[k].spent == rows[k].spent
        && after[k].reserved == (if (k == key || k == BillingOf(rows, key)) && rows[k].reserved >= cost
                                 then rows[k].reserved - cost else rows[k].reserved)
    ensures (rows[key].reserved < cost && rows[BillingOf(rows, key)].reserved < cost) ==>
      SettledRows(rows, key, s, cost, seenBalance) == rows
  {
    var b := BillingOf(rows, key);
    assert rows[b := rows[b]] == rows;
    assert rows[key := rows[key]] == rows;
  }

  lemma {:induction false} UpdatesKeepKeys(rows: Rows, updates: seq<(KeyHash, Statement)>)
    ensures AllUpdated(rows, updates).Keys == rows.Keys
  {
    if updates != [] {
      UpdatesKeepKeys(Updated(rows, updates[0].0, updates[0].1), updates[1..]);
    }
  }

  /** The UPDATE of a child-key sale: literal values computed from the row read earlier;
      no statement is issued when nothing was deducted. */
  function SpawnWrite(current: Row, seen: Row, total: nat): Row {
    if total == 0 then current else current.(balance := seen.balance - total, spent := seen.spent + total)
  }

  /** The sale conserves msats, keeps every credit and keeps the key solvent exactly when the row it
      overwrites still has the balance and spent total that were read. */
  lemma SpawnKeepsMoneyIff(current: Row, seen: Row, total: nat)
    requires total > 0 && seen.TotalBalance() >= total
    ensures (SpawnWrite(current, seen, total).balance == current.balance - total
             && SpawnWrite(current, seen, total).spent == current.spent + total)
        <==> (current.balance == seen.balance && current.spent == seen.spent)
    ensures SpawnWrite(current, seen, total).TotalBalance() >= 0
        <==> current.reserved - seen.reserved <= seen.TotalBalance() - total
  {
  }

  /** A top-up of 500 between the read and the write disappears. */
  lemma SpawnLosesConcurrentCredit()
    ensures var seen := Row(1000, 0, 0, 0, None, None, Some(Sat));
            var current := Execute(Credit(500), seen);
            SpawnWrite(current, seen, 100).balance + SpawnWrite(current, seen, 100).spent
              == current.balance + current.spent - 500
  {
  }
}
