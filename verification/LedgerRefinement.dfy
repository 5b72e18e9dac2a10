/** The handlers of the key table, taken without interruption, are runs of the ledger: what they do to the table is
    what the ledger's steps do one after the other. */
module LedgerRefinement {
  import opened Wrappers
  import opened ApiKeyRows
  import opened KeyTable
  import opened LedgerProtocol
  import opened LedgerRuns

  lemma OneStep(s: State, step: Step)
    requires Linked(s) && Enabled(s, step)
    ensures IsRun(s, [step]) && After(s, [step]) == Next(s, step)
  {
    assert [step][1..] == [];
    assert IsRun(Next(s, step), []);
  }

  lemma {:induction false} RunsJoin(s: State, steps: seq<Step>, more: seq<Step>)
    requires IsRun(s, steps) && IsRun(After(s, steps), more)
    ensures IsRun(s, steps + more) && After(s, steps + more) == After(After(s, steps), more)
    decreases |steps|
  {
    hide Next, Enabled, Linked;
    if steps == [] {
      assert steps + more == more;
    } else {
      assert (steps + more)[1..] == steps[1..] + more;
      RunsJoin(Next(s, steps[0]), steps[1..], more);
    }
  }

  lemma OneMoreStep(s: State, steps: seq<Step>, step: Step)
    requires IsRun(s, steps) && Linked(After(s, steps)) && Enabled(After(s, steps), step)
    ensures IsRun(s, steps + [step]) && After(s, steps + [step]) == Next(After(s, steps), step)
  {
    OneStep(After(s, steps), step);
    RunsJoin(s, steps, [step]);
  }

  /** The statements of a reservation. */
  function Reservation(s: State, key: KeyHash, cost: nat): seq<Step>
    requires key in s.rows
  {
    [Admit(key, cost), ReserveBilling(|s.requests|)]
    + (if BillingOf(s.rows, key) == key then [] else [ReserveOnChild(|s.requests|)])
  }

  /** A request whose checks pass on the current rows may be admitted. */
  lemma AffordableIsAdmitted(s: State, key: KeyHash, cost: nat)
    requires key in s.rows && Affords(s.rows[key], s.rows[BillingOf(s.rows, key)], false, false, cost)
    ensures Enabled(s, Admit(key, cost))
  {
  }

  /** An admitted reservation does to the table what the handler's two statements do; its request then holds the
      cost if and only if the billing row affords it. */
  lemma ReservationIsARun(s: State, key: KeyHash, cost: nat)
    requires Linked(s) && Enabled(s, Admit(key, cost))
    ensures IsRun(s, Reservation(s, key, cost))
    ensures var u, id := After(s, Reservation(s, key, cost)), |s.requests|;
      && u.rows == ReservedRows(s.rows, key, cost)
      && |u.requests| == id + 1
      && u.requests[id].(phase := Held) == Request(key, BillingOf(s.rows, key), cost, Held)
      && (u.requests[id].phase == Held <==> s.rows[BillingOf(s.rows, key)].TotalBalance() >= cost)
  {
    var id := |s.requests|;
    var admitted := Next(s, Admit(key, cost));
    OneStep(s, Admit(key, cost));
    OneMoreStep(s, [Admit(key, cost)], ReserveBilling(id));
    assert [Admit(key, cost)] + [ReserveBilling(id)] == [Admit(key, cost), ReserveBilling(id)];
    if BillingOf(s.rows, key) == key {
      assert Reservation(s, key, cost) == [Admit(key, cost), ReserveBilling(id)];
    } else {
      OneMoreStep(s, [Admit(key, cost), ReserveBilling(id)], ReserveOnChild(id));
    }
  }

  /** The statements of a settlement. */
  function Settling(s: State, id: nat, settlement: Settlement, seenBalance: int): seq<Step>
    requires id < |s.requests|
  {
    [Settle(id, settlement, seenBalance)] + (if s.requests[id].billing == s.requests[id].key then [] else [SettleOnChild(id)])
  }

  /** Settling a held reservation does to the table what the handlers' statements do, and closes the request. */
  lemma SettlementIsARun(s: State, id: nat, settlement: Settlement, seenBalance: int)
    requires Linked(s) && Enabled(s, Settle(id, settlement, seenBalance))
    requires s.requests[id].billing == BillingOf(s.rows, s.requests[id].key)
    ensures IsRun(s, Settling(s, id, settlement, seenBalance))
    ensures var u, r := After(s, Settling(s, id, settlement, seenBalance)), s.requests[id];
      && u.rows == SettledRows(s.rows, r.key, settlement, r.cost, seenBalance)
      && u.requests == s.requests[id := r.(phase := Closed)]
  {
    hide BillingStatement, ChildStatement, Execute;
    var r, settle := s.requests[id], Settle(id, settlement, seenBalance);
    var billed := Next(s, settle);
    OneStep(s, settle);
    if r.billing == r.key {
      assert Settling(s, id, settlement, seenBalance) == [settle];
    } else {
      assert billed.requests[id] == r.(phase := SettledChildPending(ChildStatement(settlement, r.cost, seenBalance)));
      OneMoreStep(s, [settle], SettleOnChild(id));
      assert billed.requests[id := r.(phase := Closed)] == s.requests[id := r.(phase := Closed)];
    }
  }

  /** A refund on the current row: read, debit, and the mint's answer, with the restore when it fails. */
  function Refunding(s: State, key: KeyHash, ok: bool): seq<Step> {
    var f := |s.refunds|;
    [ReadForRefund(key), DebitRefund(f), MintRefund(f, ok)] + (if ok then [] else [RestoreRefund(f)])
  }

  /** A refund may start exactly when the handler's checks pass on the row; it empties the row and is paid out, or
      puts back what it took. */
  lemma RefundIsARun(s: State, key: KeyHash, ok: bool)
    requires Linked(s) && key in s.rows
    ensures Enabled(s, ReadForRefund(key)) <==> s.rows[key].parent.None? && s.rows[key].reserved <= 0 && Refundable(s.rows[key])
    ensures Enabled(s, ReadForRefund(key)) ==>
      && IsRun(s, Refunding(s, key, ok))
      && var u := After(s, Refunding(s, key, ok));
      && u.rows == s.rows[key := if ok then s.rows[key].(balance := 0, reserved := 0) else RefundThatFailed(s.rows[key], [])]
      && key in u.tallies
      && u.tallies[key].refunded == s.tallies[key].refunded
           + (if ok then PayoutMsats(PayoutFor(s.rows[key], s.rows[key].TotalBalance())) else 0)
  {
    hide PayoutFor, PayoutMsats, Refundable, IsRun, After, Linked, Emptied, Debiting;
    RefundPaysWhatWasDebited(s.rows[key], s.rows[key].TotalBalance());
    if Enabled(s, ReadForRefund(key)) {
      DebitedRefund(s, key);
      MintedRefund(s, key, ok);
      RefundEnds(s, key, ok);
    }
  }

  function Debiting(s: State, key: KeyHash): seq<Step> {
    [ReadForRefund(key), DebitRefund(|s.refunds|)]
  }

  /** The row is empty and the refund holds what it had. */
  predicate Emptied(s: State, key: KeyHash, u: State, phase: RefundPhase) {
    && key in s.rows && Linked(u) && u.rows == s.rows[key := s.rows[key].(balance := 0, reserved := 0)]
    && |u.refunds| == |s.refunds| + 1 && u.refunds[|s.refunds|] == Refund(key, s.rows[key], phase)
  }

  lemma DebitedRefund(s: State, key: KeyHash)
    requires Linked(s) && Enabled(s, ReadForRefund(key))
    ensures IsRun(s, Debiting(s, key)) && Emptied(s, key, After(s, Debiting(s, key)), Debited)
    ensures After(s, Debiting(s, key)).tallies[key].refunded == s.tallies[key].refunded
  {
    hide PayoutFor;
    OneStep(s, ReadForRefund(key));
    OneMoreStep(s, [ReadForRefund(key)], DebitRefund(|s.refunds|));
    assert [ReadForRefund(key)] + [DebitRefund(|s.refunds|)] == Debiting(s, key);
  }

  lemma MintedRefund(s: State, key: KeyHash, ok: bool)
    requires Linked(s) && Enabled(s, ReadForRefund(key))
    requires IsRun(s, Debiting(s, key)) && Emptied(s, key, After(s, Debiting(s, key)), Debited)
    ensures var steps := Debiting(s, key) + [MintRefund(|s.refunds|, ok)];
      && IsRun(s, steps) && Emptied(s, key, After(s, steps), if ok then Ended else MintFailing)
      && After(s, steps).tallies[key].refunded == After(s, Debiting(s, key)).tallies[key].refunded
           + (if ok then PayoutMsats(PayoutFor(s.rows[key], s.rows[key].TotalBalance())) else 0)
  {
    hide PayoutFor, PayoutMsats, Debiting;
    OneMoreStep(s, Debiting(s, key), MintRefund(|s.refunds|, ok));
  }

  lemma RefundEnds(s: State, key: KeyHash, ok: bool)
    requires var steps := Debiting(s, key) + [MintRefund(|s.refunds|, ok)];
      IsRun(s, steps) && Emptied(s, key, After(s, steps), if ok then Ended else MintFailing)
    ensures IsRun(s, Refunding(s, key, ok))
    ensures var u, minted := After(s, Refunding(s, key, ok)), After(s, Debiting(s, key) + [MintRefund(|s.refunds|, ok)]);
      && u.rows == s.rows[key := if ok then s.rows[key].(balance := 0, reserved := 0) else RefundThatFailed(s.rows[key], [])]
      && key in u.tallies && u.tallies[key].refunded == minted.tallies[key].refunded
  {
    hide IsRun, After;
    var steps := Debiting(s, key) + [MintRefund(|s.refunds|, ok)];
    if ok {
      assert Refunding(s, key, ok) == steps;
    } else {
      assert Refunding(s, key, ok) == steps + [RestoreRefund(|s.refunds|)];
      OneMoreStep(s, steps, RestoreRefund(|s.refunds|));
    }
  }

  function RowIn(rows: Rows, k: KeyHash): Option<Row> {
    if k in rows then Some(rows[k]) else None
  }

  /** What a sale leaves under a key when nothing comes between its read and its write. */
  function SoldRow(rows: Rows, key: KeyHash, children: set<KeyHash>, total: nat, limit: Option<int>, k: KeyHash): Option<Row>
    requires key in rows
  {
    if k in children then Some(Row(0, 0, 0, 0, Some(key), limit, None))
    else if k == key then Some(SpawnWrite(rows[key], rows[key], total))
    else RowIn(rows, k)
  }

  /** A sale may happen exactly when the endpoint's checks pass on the current row. */
  lemma SaleMayHappenIff(s: State, key: KeyHash, children: set<KeyHash>, price: nat, limit: Option<int>)
    requires key in s.rows && forall c :: c in children ==> c !in s.rows
    ensures Enabled(s, SellChildren(key, children, price, limit)) <==>
      s.rows[key].parent.None? && price * |children| <= s.rows[key].balance - s.rows[key].reserved
  {
  }

  /** A sale does to every row what the endpoint does. */
  lemma SaleIsAStep(s: State, key: KeyHash, children: set<KeyHash>, price: nat, limit: Option<int>, k: KeyHash)
    requires Linked(s) && Enabled(s, SellChildren(key, children, price, limit))
    ensures RowIn(Next(s, SellChildren(key, children, price, limit)).rows, k) == SoldRow(s.rows, key, children, price * |children|, limit, k)
  {
    hide SpawnWrite;
    SaleSells(s.rows, key, children, SpawnWrite(s.rows[key], s.rows[key], price * |children|), Row(0, 0, 0, 0, Some(key), limit, None), k);
  }

  lemma SaleSells(rows: Rows, key: KeyHash, children: set<KeyHash>, paid: Row, child: Row, k: KeyHash)
    requires key in rows && key !in children
    ensures RowIn(rows[key := paid] + (map c | c in children :: child), k) ==
      if k in children then Some(child) else if k == key then Some(paid) else RowIn(rows, k)
  {
  }
}
