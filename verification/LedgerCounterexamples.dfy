/** Concrete interleavings in which a natural wish about the ledger fails; the exact conditions are in LedgerRuns. */
module LedgerCounterexamples {
  import opened Wrappers
  import opened ApiKeyRows
  import opened KeyTable
  import opened LedgerProtocol
  import opened LedgerRuns

  const PARENT: KeyHash := "p"
  const CHILD: KeyHash := "c"

  /** Some run leads here; without an overrun when `calm`. */
  ghost predicate Reachable(s: State, calm: bool) {
    exists steps :: Leads(steps, s, calm)
  }

  ghost predicate Leads(steps: seq<Step>, s: State, calm: bool) {
    IsRun(INITIAL, steps) && After(INITIAL, steps) == s && (calm ==> NoOverrun(INITIAL, steps))
  }

  lemma {:induction false} RunSnoc(s: State, steps: seq<Step>, step: Step)
    requires IsRun(s, steps) && Linked(After(s, steps)) && Enabled(After(s, steps), step)
    ensures IsRun(s, steps + [step]) && After(s, steps + [step]) == Next(After(s, steps), step)
    ensures NoOverrun(s, steps + [step]) <==> NoOverrun(s, steps) && WithinReservation(After(s, steps), step)
    decreases |steps|
  {
    if steps == [] {
      assert steps + [step] == [step];
    } else {
      assert (steps + [step])[1..] == steps[1..] + [step];
      RunSnoc(Next(s, steps[0]), steps[1..], step);
    }
  }

  lemma Go(s: State, step: Step, u: State, calm: bool)
    requires Reachable(s, calm) && Linked(s) && Enabled(s, step) && Next(s, step) == u
    requires calm ==> WithinReservation(s, step)
    ensures Reachable(u, calm)
  {
    var steps :| Leads(steps, s, calm);
    RunSnoc(INITIAL, steps, step);
    assert Leads(steps + [step], u, calm);
  }

  function Parent(balance: int, reserved: int, spent: int, requests: int): Row {
    Row(balance, reserved, spent, requests, None, None, Some(Sat))
  }

  function Child(reserved: int, requests: int, limit: Option<int>): Row {
    Row(0, reserved, 0, requests, Some(PARENT), limit, None)
  }

  /** A key with one child key and some requests. */
  function Family(parent: Row, child: Row, requests: seq<Request>, deposit: int, excess: int): State {
    State(map[PARENT := parent, CHILD := child], requests, [],
          map[PARENT := NO_TALLY.(deposited := deposit, excess := excess), CHILD := NO_TALLY])
  }

  lemma ParentIsReachable(deposit: int)
    requires deposit > 0
    ensures Reachable(State(map[PARENT := Parent(deposit, 0, 0, 0)], [], [], map[PARENT := NO_TALLY.(deposited := deposit)]), true)
  {
    assert Leads([], INITIAL, true);
    var s1 := State(map[PARENT := Parent(0, 0, 0, 0)], [], [], map[PARENT := NO_TALLY]);
    Go(INITIAL, CreateKey(PARENT, None, Sat), s1, true);
    var s2 := State(map[PARENT := Parent(deposit, 0, 0, 0)], [], [], map[PARENT := NO_TALLY.(deposited := deposit)]);
    Go(s1, TopUp(PARENT, deposit), s2, true);
  }

  lemma FamilyIsReachable(deposit: int, limit: Option<int>, calm: bool)
    requires deposit > 0
    ensures Reachable(Family(Parent(deposit, 0, 0, 0), Child(0, 0, limit), [], deposit, 0), calm)
  {
    ParentIsReachable(deposit);
    var s2 := State(map[PARENT := Parent(deposit, 0, 0, 0)], [], [], map[PARENT := NO_TALLY.(deposited := deposit)]);
    var s3 := Family(Parent(deposit, 0, 0, 0), Child(0, 0, limit), [], deposit, 0);
    var sale := SellChildren(PARENT, {CHILD}, 0, limit);
    assert Next(s2, sale).rows == s3.rows by {
      assert SpawnWrite(s2.rows[PARENT], s2.rows[PARENT], 0) == s2.rows[PARENT];
    }
    assert Next(s2, sale).tallies == s3.tallies;
    Go(s2, sale, s3, true);
    var steps :| Leads(steps, s3, true);
    assert Leads(steps, s3, calm);
  }

  // Requests of the two keys, by phase.
  function ByChild(cost: nat, phase: Phase): Request {
    Request(CHILD, PARENT, cost, phase)
  }

  function ByParent(cost: nat, phase: Phase): Request {
    Request(PARENT, PARENT, cost, phase)
  }

  /** One step of the ledger on a family: only the changed parts are named. */
  lemma AdmitChild(parent: Row, child: Row, rs: seq<Request>, deposit: int, excess: int, cost: nat, calm: bool)
    requires child.parent == Some(PARENT)
    requires child.limit.Some? ==> child.spent + child.reserved + cost <= child.limit.value
    requires forall i :: 0 <= i < |rs| ==> rs[i].key in {PARENT, CHILD} && rs[i].billing == PARENT
    requires Reachable(Family(parent, child, rs, deposit, excess), calm)
    ensures Reachable(Family(parent, child, rs + [ByChild(cost, Admitted)], deposit, excess), calm)
  {
    Go(Family(parent, child, rs, deposit, excess), Admit(CHILD, cost),
       Family(parent, child, rs + [ByChild(cost, Admitted)], deposit, excess), calm);
  }

  lemma AdmitParent(parent: Row, child: Row, rs: seq<Request>, deposit: int, excess: int, cost: nat, calm: bool)
    requires parent.parent == None && parent.limit == None
    requires forall i :: 0 <= i < |rs| ==> rs[i].key in {PARENT, CHILD} && rs[i].billing == PARENT
    requires Reachable(Family(parent, child, rs, deposit, excess), calm)
    ensures Reachable(Family(parent, child, rs + [ByParent(cost, Admitted)], deposit, excess), calm)
  {
    Go(Family(parent, child, rs, deposit, excess), Admit(PARENT, cost),
       Family(parent, child, rs + [ByParent(cost, Admitted)], deposit, excess), calm);
  }

  lemma Reserve1(parent: Row, child: Row, rs: seq<Request>, deposit: int, excess: int, id: nat, calm: bool)
    requires id < |rs| && rs[id].phase.Admitted?
    requires forall i :: 0 <= i < |rs| ==> rs[i].key in {PARENT, CHILD} && rs[i].billing == PARENT
    requires Reachable(Family(parent, child, rs, deposit, excess), calm)
    ensures var stmt := Reserve(rs[id].cost);
      Reachable(Family(Execute(stmt, parent), child, rs[id := rs[id].(phase := AfterReserve(rs[id], Matches(stmt, parent)))],
                       deposit, excess), calm)
  {
    var stmt := Reserve(rs[id].cost);
    var s := Family(parent, child, rs, deposit, excess);
    var u := Family(Execute(stmt, parent), child, rs[id := rs[id].(phase := AfterReserve(rs[id], Matches(stmt, parent)))],
                    deposit, excess);
    assert Next(s, ReserveBilling(id)).rows == u.rows;
    Go(s, ReserveBilling(id), u, calm);
  }

  lemma Reserve2(parent: Row, child: Row, rs: seq<Request>, deposit: int, excess: int, id: nat, calm: bool)
    requires id < |rs| && rs[id].key == CHILD && (rs[id].phase.ReservedChildPending? || rs[id].phase.RefusedChildPending?)
    requires forall i :: 0 <= i < |rs| ==> rs[i].key in {PARENT, CHILD} && rs[i].billing == PARENT
    requires Reachable(Family(parent, child, rs, deposit, excess), calm)
    ensures var phase := if rs[id].phase.ReservedChildPending? then Held else RefusedLeaving;
      Reachable(Family(parent, Execute(ReserveChild(rs[id].cost), child), rs[id := rs[id].(phase := phase)],
                       deposit, excess), calm)
  {
    var phase := if rs[id].phase.ReservedChildPending? then Held else RefusedLeaving;
    var s := Family(parent, child, rs, deposit, excess);
    var u := Family(parent, Execute(ReserveChild(rs[id].cost), child), rs[id := rs[id].(phase := phase)], deposit, excess);
    assert Next(s, ReserveOnChild(id)).rows == u.rows;
    Go(s, ReserveOnChild(id), u, calm);
  }

  lemma Settle1(parent: Row, child: Row, rs: seq<Request>, deposit: int, excess: int, id: nat, x: Settlement,
                after: Row, more: int)
    requires id < |rs| && rs[id].phase.Held?
    requires forall i :: 0 <= i < |rs| ==> rs[i].key in {PARENT, CHILD} && rs[i].billing == PARENT
    requires Reachable(Family(parent, child, rs, deposit, excess), false)
    requires after == Execute(BillingStatement(x, rs[id].cost), parent)
    requires more == excess + Max(0, Charged(parent, after) - rs[id].cost)
    ensures Reachable(Family(after, child, rs[id := rs[id].(phase := AfterSettle(rs[id], x, 0))], deposit, more), false)
  {
    hide Reachable;
    var s := Family(parent, child, rs, deposit, excess);
    var u := Family(after, child, rs[id := rs[id].(phase := AfterSettle(rs[id], x, 0))], deposit, more);
    var next := AfterBillingSettlement(s, id, x, 0);
    assert next.rows == u.rows;
    assert next.tallies == u.tallies;
    Go(s, Settle(id, x, 0), u, false);
  }

  lemma Settle2(parent: Row, child: Row, rs: seq<Request>, deposit: int, excess: int, id: nat)
    requires id < |rs| && rs[id].phase.SettledChildPending? && rs[id].key == CHILD
    requires forall i :: 0 <= i < |rs| ==> rs[i].key in {PARENT, CHILD} && rs[i].billing == PARENT
    requires Reachable(Family(parent, child, rs, deposit, excess), false)
    ensures Reachable(Family(parent, Execute(rs[id].phase.childStatement, child), rs[id := rs[id].(phase := Closed)],
                             deposit, excess), false)
  {
    var s := Family(parent, child, rs, deposit, excess);
    var u := Family(parent, Execute(rs[id].phase.childStatement, child), rs[id := rs[id].(phase := Closed)], deposit, excess);
    assert Next(s, SettleOnChild(id)).rows == u.rows;
    Go(s, SettleOnChild(id), u, false);
  }

  // ---------- Two requests of a child race past its limit of 100 ----------

  const HALF_RACE := Family(Parent(1000, 60, 0, 1), Child(60, 1, Some(100)), [ByChild(60, Held), ByChild(60, Admitted)], 1000, 0)

  lemma BothPassTheCheck()
    ensures Reachable(HALF_RACE, true)
  {
    var p, c := Parent(1000, 0, 0, 0), Child(0, 0, Some(100));
    var a, b, h := ByChild(60, Admitted), ByChild(60, ReservedChildPending), ByChild(60, Held);
    FamilyIsReachable(1000, Some(100), true);
    AdmitChild(p, c, [], 1000, 0, 60, true);
    assert [] + [a] == [a];
    AdmitChild(p, c, [a], 1000, 0, 60, true);
    assert [a] + [a] == [a, a];
    Reserve1(p, c, [a, a], 1000, 0, 0, true);
    assert [a, a][0 := b] == [b, a];
    Reserve2(Parent(1000, 60, 0, 1), c, [b, a], 1000, 0, 0, true);
    assert [b, a][0 := h] == [h, a];
  }

  /** Both pass the check for 60 before either is recorded: the child ends with 120 reserved, without any overrun. */
  lemma LimitCheckRaces()
    ensures exists s :: Reachable(s, true) && !LimitsOk(s)
  {
    BothPassTheCheck();
    var a, b, h := ByChild(60, Admitted), ByChild(60, ReservedChildPending), ByChild(60, Held);
    Reserve1(Parent(1000, 60, 0, 1), Child(60, 1, Some(100)), [h, a], 1000, 0, 1, true);
    assert [h, a][1 := b] == [h, b];
    Reserve2(Parent(1000, 120, 0, 2), Child(60, 1, Some(100)), [h, b], 1000, 0, 1, true);
    assert [h, b][1 := h] == [h, h];
    var s := Family(Parent(1000, 120, 0, 2), Child(120, 2, Some(100)), [h, h], 1000, 0);
    assert Reachable(s, true) && !LimitOk(s.rows[CHILD]);
  }

  // ---------- Two requests of a child race for the parent's balance of 100 ----------

  const AFTER_LOST_RACE :=
    Family(Parent(100, 80, 0, 1), Child(80, 1, None), [ByChild(80, ReservedChildPending), ByChild(80, RefusedLeaving)], 100, 0)

  lemma SecondLosesTheRace()
    ensures Reachable(AFTER_LOST_RACE, false)
  {
    var p, c := Parent(100, 0, 0, 0), Child(0, 0, None);
    var a, b, f := ByChild(80, Admitted), ByChild(80, ReservedChildPending), ByChild(80, RefusedChildPending);
    FamilyIsReachable(100, None, false);
    AdmitChild(p, c, [], 100, 0, 80, false);
    assert [] + [a] == [a];
    AdmitChild(p, c, [a], 100, 0, 80, false);
    assert [a] + [a] == [a, a];
    Reserve1(p, c, [a, a], 100, 0, 0, false);
    assert [a, a][0 := b] == [b, a];
    Reserve1(Parent(100, 80, 0, 1), c, [b, a], 100, 0, 1, false);
    assert [b, a][1 := f] == [b, f];
    Reserve2(Parent(100, 80, 0, 1), c, [b, f], 100, 0, 1, false);
    assert [b, f][1 := ByChild(80, RefusedLeaving)] == [b, ByChild(80, RefusedLeaving)];
  }

  const REVERTED :=
    Family(Parent(100, 0, 0, 0), Child(160, 2, None),
           [ByChild(80, SettledChildPending(Revert(80))), ByChild(80, RefusedLeaving)], 100, 0)

  lemma WinnerReverts()
    ensures Reachable(REVERTED, false)
  {
    SecondLosesTheRace();
    var b, h, l := ByChild(80, ReservedChildPending), ByChild(80, Held), ByChild(80, RefusedLeaving);
    var q := ByChild(80, SettledChildPending(Revert(80)));
    assert [b, l][0 := h] == [h, l];
    Reserve2(Parent(100, 80, 0, 1), Child(80, 1, None), [b, l], 100, 0, 0, false);
    assert [h, l][0 := q] == [q, l];
    Settle1(Parent(100, 80, 0, 1), Child(160, 2, None), [h, l], 100, 0, 0, RevertRequest, Parent(100, 0, 0, 0), 0);
  }

  /** The loser leaves its cost on the child for good: both requests are over, nothing is outstanding,
      and 80 stay reserved. */
  lemma LostRaceLeaksOnChild()
    ensures exists s :: Reachable(s, false) && CHILD in s.rows
                        && Outstanding(s.requests, CHILD) == 0 && s.rows[CHILD].reserved == 80
  {
    WinnerReverts();
    var q, d, l := ByChild(80, SettledChildPending(Revert(80))), ByChild(80, Closed), ByChild(80, RefusedLeaving);
    assert [q, l][0 := d] == [d, l];
    Settle2(Parent(100, 0, 0, 0), Child(160, 2, None), [q, l], 100, 0, 0);
    var s := Family(Parent(100, 0, 0, 0), Child(80, 1, None), [d, l], 100, 0);
    assert [d, l][..1] == [d] && [d][..0] == [];
    assert Outstanding([d], CHILD) == 0;
    assert Reachable(s, false);
  }

  // ---------- An overrun beside another reservation ----------

  const BOTH_HELD := Family(Parent(100, 100, 0, 2), Child(0, 0, None), [ByParent(50, Held), ByParent(50, Held)], 100, 0)

  lemma TwoHoldTheBalance()
    ensures Reachable(BOTH_HELD, false)
  {
    var p, c := Parent(100, 0, 0, 0), Child(0, 0, None);
    var a, h := ByParent(50, Admitted), ByParent(50, Held);
    FamilyIsReachable(100, None, false);
    AdmitParent(p, c, [], 100, 0, 50, false);
    assert [] + [a] == [a];
    AdmitParent(p, c, [a], 100, 0, 50, false);
    assert [a] + [a] == [a, a];
    Reserve1(p, c, [a, a], 100, 0, 0, false);
    assert [a, a][0 := h] == [h, a];
    Reserve1(Parent(100, 50, 0, 1), c, [h, a], 100, 0, 1, false);
    assert [h, a][1 := h] == [h, h];
  }

  const ONE_OVERRAN := Family(Parent(0, 50, 100, 2), Child(0, 0, None), [ByParent(50, Closed), ByParent(50, Held)], 100, 50)

  lemma FirstTakesTheWholeBalance()
    ensures Reachable(ONE_OVERRAN, false)
  {
    TwoHoldTheBalance();
    var c, h, d := Child(0, 0, None), ByParent(50, Held), ByParent(50, Closed);
    assert [h, h][0 := d] == [d, h];
    Settle1(Parent(100, 100, 0, 2), c, [h, h], 100, 0, 0, Adjust(Usage(100)), Parent(0, 50, 100, 2), 50);
  }

  /** One overrun takes the whole balance although another request still has 50 reserved;
      settling that one within its reservation makes the balance negative. */
  lemma BalanceGoesNegativeAfterOverrun()
    ensures exists s :: Reachable(s, false) && PARENT in s.rows && s.rows[PARENT].balance == -50
  {
    FirstTakesTheWholeBalance();
    var c, h, d := Child(0, 0, None), ByParent(50, Held), ByParent(50, Closed);
    assert [d, h][1 := d] == [d, d];
    Settle1(Parent(0, 50, 100, 2), c, [d, h], 100, 50, 1, Adjust(MaxCost(50)), Parent(-50, 0, 150, 2), 50);
    assert Reachable(Family(Parent(-50, 0, 150, 2), c, [d, d], 100, 50), false);
  }
}
