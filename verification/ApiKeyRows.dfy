/** One row of the api_keys table, and the SQL UPDATE statements that touch it.
    A statement is atomic: its WHERE clause and its SET expressions read the same row. */
module ApiKeyRows {
  import opened Wrappers

  type KeyHash = string

  datatype Unit = Sat | Msat

  /** The columns that money flows through; amounts are in msats.
      `reserved` is coalesce(reserved_balance, 0). */
  datatype Row = Row(
    balance: int,
    reserved: int,
    spent: int,
    requests: int,
    parent: Option<KeyHash>,
    limit: Option<int>,
    currency: Option<Unit>)
  {
    function TotalBalance(): int {
      balance - reserved
    }
  }

  datatype Statement =
    | Reserve(cost: int)
    | ReserveChild(cost: int)
    | Revert(cost: int)
    | Release(cost: int)
    | Finalize(cost: int, total: int)
    | FinalizeChild(cost: int, total: int)
    | Overrun(cost: int, total: int)
    | OverrunChild(cost: int, charge: int)
    | Credit(amount: int)
    | Debit(seenBalance: int, seenReserved: int)
    | Restore(balance: int, reserved: int)
    | ForgetSpent
    | DropReserved

  function Min(x: int, y: int): int {
    if x <= y then x else y
  }

  function Max(x: int, y: int): int {
    if x <= y then y else x
  }

  /** The WHERE clause: does the statement match the row (rowcount 1) or not (rowcount 0)? */
  predicate Matches(s: Statement, row: Row) {
    match s
    case Reserve(cost) => row.balance - row.reserved >= cost
    case Revert(cost) => row.reserved >= cost
    case Release(cost) => row.reserved >= cost
    case Overrun(cost, _) => row.reserved >= cost
    case OverrunChild(cost, _) => row.reserved >= cost
    case Debit(seenBalance, seenReserved) => row.balance == seenBalance && row.reserved == seenReserved
    case _ => true
  }

  /** CASE WHEN reserved >= cost THEN reserved - cost ELSE 0. */
  function Clamped(reserved: int, cost: int): int {
    if reserved >= cost then reserved - cost else 0
  }

  /** What an overrun settlement takes: the whole cost, or all that is left. */
  function Chargeable(row: Row, total: int): int {
    if row.balance >= total then total else row.balance
  }

  function Execute(s: Statement, row: Row): Row {
    if !Matches(s, row) then row else
    match s
    case Reserve(cost) => row.(reserved := row.reserved + cost, requests := row.requests + 1)
    case ReserveChild(cost) => row.(reserved := row.reserved + cost, requests := row.requests + 1)
    case Revert(cost) => row.(reserved := row.reserved - cost, requests := row.requests - 1)
    case Release(cost) => row.(reserved := row.reserved - cost)
    case Finalize(cost, total) =>
      row.(reserved := Clamped(row.reserved, cost), balance := row.balance - total, spent := row.spent + total)
    case FinalizeChild(cost, total) =>
      row.(reserved := Clamped(row.reserved, cost), spent := row.spent + total)
    case Overrun(cost, total) =>
      row.(reserved := row.reserved - cost,
           balance := row.balance - Chargeable(row, total),
           spent := row.spent + Chargeable(row, total))
    case OverrunChild(cost, charge) => row.(reserved := row.reserved - cost, spent := row.spent + charge)
    case Credit(amount) => row.(balance := row.balance + amount)
    case Debit(_, _) => row.(balance := 0, reserved := 0)
    case Restore(balance, reserved) =>
      row.(balance := row.balance + balance, reserved := row.reserved + reserved)
    case ForgetSpent => row.(spent := 0)
    case DropReserved => row.(reserved := 0)
  }

  function ExecuteAll(stmts: seq<Statement>, row: Row): Row {
    if stmts == [] then row else ExecuteAll(stmts[1..], Execute(stmts[0], row))
  }

  // ---------- Reservations never go below zero, whatever is settled twice ----------

  /** Amounts a caller can pass: costs are at least the minimum request cost, and what a
      refund restores as reserved is what it read, which was refused when positive. */
  predicate NonNegativeAmounts(s: Statement) {
    match s
    case Reserve(cost) => cost >= 0
    case ReserveChild(cost) => cost >= 0
    case Restore(_, reserved) => reserved >= 0
    case _ => true
  }

  /** Any order and any number of reserve, revert, release, settle, refund and reset statements,
      duplicates and amounts that were never reserved included. */
  lemma {:induction false} ReservedNeverNegative(stmts: seq<Statement>, row: Row)
    requires row.reserved >= 0
    requires forall s :: s in stmts ==> NonNegativeAmounts(s)
    ensures ExecuteAll(stmts, row).reserved >= 0
  {
    if stmts != [] {
      assert NonNegativeAmounts(stmts[0]);
      ReservedNeverNegative(stmts[1..], Execute(stmts[0], row));
    }
  }

  // ---------- Settling one reservation twice ----------

  predicate Settles(s: Statement) {
    s.Revert? || s.Release? || s.Finalize? || s.Overrun?
  }

  function SettledCost(s: Statement): int
    requires Settles(s)
  {
    s.cost
  }

  /** A settlement that arrives when the reservation is already gone (reserved below its cost)
      is a no-op exactly when its statement carries the guard, or has nothing left to clamp or charge:
      max-cost, exact and refund finalization charge the total a second time. */
  lemma SecondSettlementIsNoOp(s: Statement, row: Row)
    requires Settles(s) && 0 <= row.reserved < SettledCost(s)
    ensures Execute(s, row) == row <==> (!s.Finalize? || (s.total == 0 && row.reserved == 0))
    ensures s.Finalize? ==> Execute(s, row).reserved == 0 && Execute(s, row).balance == row.balance - s.total
  {
    if s.Finalize? && Execute(s, row) == row {
      assert row.balance - s.total == row.balance;
    }
  }

  // ---------- A failed refund leaves no trace ----------

  /** The statement acts the same whether or not `amount` is missing from the balance. */
  predicate SameDecision(s: Statement, row: Row, amount: int) {
    var poorer := row.(balance := row.balance - amount);
    && Matches(s, row) == Matches(s, poorer)
    && (s.Overrun? && Matches(s, row) ==> Chargeable(row, s.total) == Chargeable(poorer, s.total))
    && (s.Debit? ==> !Matches(s, row))
  }

  predicate SameDecisions(stmts: seq<Statement>, row: Row, amount: int) {
    stmts == [] ||
    (SameDecision(stmts[0], row, amount) && SameDecisions(stmts[1..], Execute(stmts[0], row), amount))
  }

  /** The row after debit, the other steps, and restore. */
  function RefundThatFailed(row: Row, stmts: seq<Statement>): Row {
    Execute(Restore(row.balance, row.reserved),
            ExecuteAll(stmts, Execute(Debit(row.balance, row.reserved), row)))
  }

  lemma {:induction false} MissingBalanceCommutes(stmts: seq<Statement>, row: Row, amount: int)
    requires SameDecisions(stmts, row, amount)
    ensures ExecuteAll(stmts, row.(balance := row.balance - amount))
         == ExecuteAll(stmts, row).(balance := ExecuteAll(stmts, row).balance - amount)
  {
    if stmts != [] {
      var poorer := row.(balance := row.balance - amount);
      var next := Execute(stmts[0], row);
      assert Execute(stmts[0], poorer) == next.(balance := next.balance - amount);
      MissingBalanceCommutes(stmts[1..], next, amount);
    }
  }

  /** Debit, any interleaved statements, failed mint, restore: every column ends exactly as if only
      the interleaved statements had run, provided none of them was decided by the missing balance. */
  lemma FailedRefundLeavesNoTrace(row: Row, stmts: seq<Statement>)
    requires row.reserved == 0
    requires SameDecisions(stmts, row, row.balance)
    ensures RefundThatFailed(row, stmts) == ExecuteAll(stmts, row)
  {
    MissingBalanceCommutes(stmts, row, row.balance);
  }

  /** For one interleaved statement the condition is exact: a refused reservation, a capped
      overrun or a second debit are the only ways to tell that the refund was ever tried. */
  lemma FailedRefundIsVisibleIff(row: Row, s: Statement)
    requires row.reserved == 0 && row.balance != 0
    requires s.Debit? ==> s.seenBalance > 0  // an empty key is refused before its debit
    ensures RefundThatFailed(row, [s]) == ExecuteAll([s], row) <==> SameDecision(s, row, row.balance)
  {
    var poorer := row.(balance := 0);
    assert Execute(Debit(row.balance, row.reserved), row) == poorer;
    assert ExecuteAll([s], row) == Execute(s, row);
    assert ExecuteAll([s], poorer) == Execute(s, poorer);
  }

  /** The other statements leave the row, apart from the missing amount, where it would have been. */
  predicate OnlyAmountMissing(stmts: seq<Statement>, row: Row, amount: int) {
    ExecuteAll(stmts, row.(balance := row.balance - amount))
      == ExecuteAll(stmts, row).(balance := ExecuteAll(stmts, row).balance - amount)
  }

  lemma OneDecisionIsExact(s: Statement, row: Row, amount: int)
    requires amount != 0 && (s.Debit? ==> s.seenBalance > 0)
    ensures var poorer, next := row.(balance := row.balance - amount), Execute(s, row);
      Execute(s, poorer) == next.(balance := next.balance - amount) <==> SameDecision(s, row, amount)
  {
  }

  lemma {:induction false} MissingThroughoutIff(stmts: seq<Statement>, row: Row, amount: int)
    requires amount != 0 && forall s :: s in stmts && s.Debit? ==> s.seenBalance > 0
    ensures (forall n :: 0 <= n <= |stmts| ==> OnlyAmountMissing(stmts[..n], row, amount)) <==> SameDecisions(stmts, row, amount)
  {
    assert OnlyAmountMissing(stmts[..0], row, amount);
    if stmts != [] {
      var next, rest := Execute(stmts[0], row), stmts[1..];
      assert stmts[0] in stmts;
      OneDecisionIsExact(stmts[0], row, amount);
      MissingThroughoutIff(rest, next, amount);
      MissingAfterOne(stmts, 1, row, amount);
      assert OnlyAmountMissing(rest[..0], next, amount);
      if SameDecision(stmts[0], row, amount) {
        forall n | 1 <= n <= |stmts|
          ensures OnlyAmountMissing(stmts[..n], row, amount) <==> OnlyAmountMissing(rest[..n - 1], next, amount)
        {
          MissingAfterOne(stmts, n, row, amount);
        }
        if forall n :: 0 <= n <= |stmts| ==> OnlyAmountMissing(stmts[..n], row, amount) {
          forall m | 0 <= m <= |rest|
            ensures OnlyAmountMissing(rest[..m], next, amount)
          {
            assert OnlyAmountMissing(stmts[..m + 1], row, amount) && rest[..(m + 1) - 1] == rest[..m];
          }
        }
      }
    }
  }

  lemma MissingAfterOne(stmts: seq<Statement>, n: nat, row: Row, amount: int)
    requires 1 <= n <= |stmts|
    ensures SameDecision(stmts[0], row, amount) && amount != 0 ==>
      (OnlyAmountMissing(stmts[..n], row, amount) <==> OnlyAmountMissing(stmts[1..][..n - 1], Execute(stmts[0], row), amount))
    ensures n == 1 && OnlyAmountMissing(stmts[..n], row, amount) ==>
      var poorer, next := row.(balance := row.balance - amount), Execute(stmts[0], row);
      Execute(stmts[0], poorer) == next.(balance := next.balance - amount)
  {
    assert stmts[..n][0] == stmts[0] && stmts[..n][1..] == stmts[1..][..n - 1];
    if n == 1 {
      var one, poorer := stmts[..1], row.(balance := row.balance - amount);
      assert one[0] == stmts[0] && one[1..] == [];
      assert ExecuteAll(one, row) == Execute(stmts[0], row) && ExecuteAll(one, poorer) == Execute(stmts[0], poorer);
    }
    if SameDecision(stmts[0], row, amount) {
      var next := Execute(stmts[0], row);
      assert Execute(stmts[0], row.(balance := row.balance - amount)) == next.(balance := next.balance - amount);
    }
  }

  /** At whatever moment a failed refund is restored it leaves no trace, if and only if none of the interleaved
      statements is decided by the missing balance. */
  lemma FailedRefundNeverShowsIff(row: Row, stmts: seq<Statement>)
    requires row.reserved == 0 && row.balance != 0
    requires forall s :: s in stmts && s.Debit? ==> s.seenBalance > 0  // an empty key is refused before its debit
    ensures (forall n :: 0 <= n <= |stmts| ==> RefundThatFailed(row, stmts[..n]) == ExecuteAll(stmts[..n], row))
        <==> SameDecisions(stmts, row, row.balance)
  {
    hide SameDecisions, ExecuteAll;
    MissingThroughoutIff(stmts, row, row.balance);
    forall n | 0 <= n <= |stmts|
      ensures RefundThatFailed(row, stmts[..n]) == ExecuteAll(stmts[..n], row) <==> OnlyAmountMissing(stmts[..n], row, row.balance)
    {
      assert Execute(Debit(row.balance, row.reserved), row) == row.(balance := row.balance - row.balance);
    }
  }

  /** A reservation of 50 on a balance of 100, made while the refund that fails holds the balance, is refused. */
  lemma FailedRefundCanShow()
    ensures var row := Row(100, 0, 0, 0, None, None, Some(Sat));
      && ExecuteAll([Reserve(50)], row).reserved == 50
      && RefundThatFailed(row, [Reserve(50)]) == row
  {
    var row := Row(100, 0, 0, 0, None, None, Some(Sat));
    assert [Reserve(50)][1..] == [];
    assert ExecuteAll([Reserve(50)], row) == Execute(Reserve(50), row);
    assert ExecuteAll([Reserve(50)], row.(balance := 0)) == row.(balance := 0);
  }

  /** After the last statement alone a difference can have vanished again: a reservation that only the missing
      balance refuses, and its revert. */
  lemma DifferenceCanVanish()
    ensures var row := Row(100, 0, 0, 0, None, None, Some(Sat));
      var stmts := [Reserve(50), Revert(50)];
      RefundThatFailed(row, stmts) == ExecuteAll(stmts, row) && !SameDecisions(stmts, row, row.balance)
  {
    var row := Row(100, 0, 0, 0, None, None, Some(Sat));
    var empty := row.(balance := 0);
    assert [Reserve(50), Revert(50)][1..] == [Revert(50)];
    assert ExecuteAll([Revert(50)], empty) == empty;
    assert !SameDecision(Reserve(50), row, 100);
  }
}
