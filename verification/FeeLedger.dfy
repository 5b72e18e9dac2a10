/** The platform fee: 2.1% of every charge, rounded up to a msat, accumulated in one row and paid out in whole
    sats by a single background task that reads, sends and then subtracts what it sent. */
module FeeLedger {
  import opened Wrappers
  import opened KeyTable

  const DEFAULT_PAYOUT_SATS := 200

  /** The routstr_fees row with id 1. */
  datatype FeeRow = FeeRow(accumulated: int, paid: int)

  /** The payout task: idle, holding an amount it has read, or holding an amount it has sent. */
  datatype Payout = Idle | Sending(sats: int) | Sent(sats: int)

  datatype State = State(
    row: Option<FeeRow>,
    inserting: seq<nat>,  // accruals that found no row and are about to insert one
    payout: Payout,
    charged: nat,         // sum of all charges
    accruals: nat,        // their number
    dropped: nat,         // fees whose insert lost to another insert
    sentMsats: nat)

  const NO_FEES := State(None, [], Idle, 0, 0, 0, 0)

  datatype Step =
    | Accrue(total: nat)
    | Insert(i: nat)
    | ReadFee
    | Send(ok: bool)
    | Subtract(ok: bool)

  predicate Enabled(s: State, step: Step) {
    match step
    case Accrue(total) => total > 0
    case Insert(i) => i < |s.inserting|
    case ReadFee => s.payout.Idle?
    case Send(_) => s.payout.Sending?
    case Subtract(_) => s.payout.Sent?
  }

  /** UPDATE … SET accumulated = accumulated + fee; the caller inserts a row when none matched. */
  function Accrued(row: Option<FeeRow>, fee: int): Option<FeeRow> {
    match row
    case Some(r) => Some(r.(accumulated := r.accumulated + fee))
    case None => None
  }

  /** UPDATE … SET accumulated = accumulated - paid, total_paid = total_paid + paid. */
  function Subtracted(row: Option<FeeRow>, msats: int): Option<FeeRow> {
    match row
    case Some(r) => Some(FeeRow(r.accumulated - msats, r.paid + msats))
    case None => None
  }

  function Next(s: State, step: Step): State
    requires Enabled(s, step)
  {
    match step
    case Accrue(total) =>
      s.(row := Accrued(s.row, FeeOn(total)),
         inserting := if s.row.Some? then s.inserting else s.inserting + [FeeOn(total)],
         charged := s.charged + total,
         accruals := s.accruals + 1)
    case Insert(i) =>
      // The primary key admits one row; the loser's error is logged and its fee forgotten.
      s.(row := if s.row.None? then Some(FeeRow(s.inserting[i], 0)) else s.row,
         inserting := s.inserting[..i] + s.inserting[i + 1..],
         dropped := if s.row.None? then s.dropped else s.dropped + s.inserting[i])
    case ReadFee =>
      var row := if s.row.Some? then s.row.value else FeeRow(0, 0);
      s.(row := Some(row),
         payout := if row.accumulated / 1000 >= DEFAULT_PAYOUT_SATS then Sending(row.accumulated / 1000) else Idle)
    case Send(ok) =>
      if ok then s.(payout := Sent(s.payout.sats), sentMsats := s.sentMsats + MsatsOf(s.payout)) else s.(payout := Idle)
    case Subtract(ok) =>
      if ok then s.(row := Subtracted(s.row, s.payout.sats * 1000), payout := Idle) else s.(payout := Idle)
  }

  function MsatsOf(p: Payout): nat {
    if p.Idle? || p.sats < 0 then 0 else p.sats * 1000
  }

  function Sum(xs: seq<nat>): nat {
    if xs == [] then 0 else Sum(xs[..|xs| - 1]) + xs[|xs| - 1]
  }

  lemma {:induction false} SumWithout(xs: seq<nat>, i: nat)
    requires i < |xs|
    ensures Sum(xs[..i] + xs[i + 1..]) == Sum(xs) - xs[i]
  {
    var last := |xs| - 1;
    if i == last {
      assert xs[..i] + xs[i + 1..] == xs[..last];
    } else {
      var rest := xs[..i] + xs[i + 1..];
      assert rest[..|rest| - 1] == xs[..last][..i] + xs[..last][i + 1..];
      SumWithout(xs[..last], i);
    }
  }

  /** All fees rounded up so far, wherever they are now. */
  function Booked(s: State): int {
    (if s.row.Some? then s.row.value.accumulated + s.row.value.paid else 0) + Sum(s.inserting) + s.dropped
  }

  predicate Inv(s: State) {
    // fee total within [21/1000 of the charges, one msat more per accrual)
    && 21 * s.charged <= 1000 * Booked(s) <= 21 * s.charged + 999 * s.accruals
    && (s.row.Some? ==> s.row.value.accumulated >= MsatsOf(s.payout) && s.row.value.paid >= 0)
    && (!s.payout.Idle? ==> s.row.Some? && s.payout.sats >= DEFAULT_PAYOUT_SATS)
    && (s.row.Some? ==> s.row.value.paid + (if s.payout.Sent? then MsatsOf(s.payout) else 0) <= s.sentMsats)
  }

  lemma StepKeepsInv(s: State, step: Step)
    requires Inv(s) && Enabled(s, step)
    ensures Inv(Next(s, step))
    ensures s.row.Some? ==> Next(s, step).row.Some?
    // An accrual is booked in full whatever the payout task is doing; nothing else changes the total.
    ensures Booked(Next(s, step)) == Booked(s) + if step.Accrue? then FeeOn(step.total) else 0
    ensures Next(s, step).dropped == s.dropped + if step.Insert? && s.row.Some? then s.inserting[step.i] else 0
  {
    match step
    case Accrue(total) =>
      if s.row.None? {
        assert (s.inserting + [FeeOn(total)])[..|s.inserting|] == s.inserting;
      }
    case Insert(i) => SumWithout(s.inserting, i);
    case _ =>
  }

  ghost predicate IsRun(s: State, steps: seq<Step>)
    decreases |steps|
  {
    steps == [] || (Enabled(s, steps[0]) && IsRun(Next(s, steps[0]), steps[1..]))
  }

  ghost function After(s: State, steps: seq<Step>): State
    requires IsRun(s, steps)
    decreases |steps|
  {
    if steps == [] then s else After(Next(s, steps[0]), steps[1..])
  }

  function FeesOf(steps: seq<Step>): nat {
    if steps == [] then 0 else (if steps[0].Accrue? then FeeOn(steps[0].total) else 0) + FeesOf(steps[1..])
  }

  lemma {:induction false} RunKeepsInv(s: State, steps: seq<Step>)
    requires Inv(s) && IsRun(s, steps)
    ensures Inv(After(s, steps))
    ensures Booked(After(s, steps)) == Booked(s) + FeesOf(steps)
    ensures s.row.Some? && s.inserting == [] ==>
      After(s, steps).row.Some? && After(s, steps).inserting == [] && After(s, steps).dropped == s.dropped
    decreases |steps|
  {
    if steps != [] {
      StepKeepsInv(s, steps[0]);
      RunKeepsInv(Next(s, steps[0]), steps[1..]);
    }
  }

  /** Any interleaving of accruals and payouts from an empty table: every rounded-up fee is accumulated, paid, still
      being inserted, or lost to the race for the first insert; the total is the exact 2.1% up to less than one
      msat per accrual; the accumulated amount is never negative; no more is recorded as paid than was sent. */
  lemma FeesAreAccountedFor(steps: seq<Step>)
    requires IsRun(NO_FEES, steps)
    ensures var s := After(NO_FEES, steps);
      && Booked(s) == FeesOf(steps)
      && 21 * s.charged <= 1000 * FeesOf(steps)
      && (s.accruals > 0 ==> 1000 * FeesOf(steps) < 21 * s.charged + 1000 * s.accruals)
      && (s.row.Some? ==> s.row.value.accumulated >= 0 && s.row.value.paid <= s.sentMsats)
  {
    RunKeepsInv(NO_FEES, steps);
  }

  /** Once the row exists and no insert is under way, accumulated + paid grows by exactly the fees:
      none accrued between the payout's read and its subtraction is lost. */
  lemma NoFeeIsLostOnceTheRowExists(before: seq<Step>, steps: seq<Step>)
    requires IsRun(NO_FEES, before) && After(NO_FEES, before).row.Some? && After(NO_FEES, before).inserting == []
    requires IsRun(After(NO_FEES, before), steps)
    ensures var s, u := After(NO_FEES, before), After(After(NO_FEES, before), steps);
      u.row.Some? &&
      u.row.value.accumulated + u.row.value.paid == s.row.value.accumulated + s.row.value.paid + FeesOf(steps)
  {
    RunKeepsInv(NO_FEES, before);
    RunKeepsInv(After(NO_FEES, before), steps);
  }

  // ---------- When a fee is lost ----------

  /** An insert that finds the row already there. */
  predicate InsertsTooLate(s: State, step: Step) {
    step.Insert? && s.row.Some?
  }

  ghost predicate NoInsertTooLate(s: State, steps: seq<Step>)
    requires IsRun(s, steps)
    decreases |steps|
  {
    steps == [] || (!InsertsTooLate(s, steps[0]) && NoInsertTooLate(Next(s, steps[0]), steps[1..]))
  }

  predicate AllPositive(xs: seq<nat>) {
    forall i :: 0 <= i < |xs| ==> xs[i] > 0
  }

  lemma {:induction false} RunDropsIff(s: State, steps: seq<Step>)
    requires Inv(s) && IsRun(s, steps) && AllPositive(s.inserting)
    ensures AllPositive(After(s, steps).inserting)
    ensures After(s, steps).dropped >= s.dropped
    ensures After(s, steps).dropped == s.dropped <==> NoInsertTooLate(s, steps)
    decreases |steps|
  {
    hide Next, Enabled, Inv;
    if steps != [] {
      StepKeepsInv(s, steps[0]);
      StepDropsIff(s, steps[0]);
      RunDropsIff(Next(s, steps[0]), steps[1..]);
    }
  }

  lemma StepDropsIff(s: State, step: Step)
    requires Enabled(s, step) && AllPositive(s.inserting)
    ensures var u := Next(s, step);
      AllPositive(u.inserting) && u.dropped >= s.dropped && (u.dropped == s.dropped <==> !InsertsTooLate(s, step))
  {
  }

  /** In every run a fee is lost if and only if some insert finds the row already there. */
  lemma FeesAreDroppedIff(steps: seq<Step>)
    requires IsRun(NO_FEES, steps)
    ensures After(NO_FEES, steps).dropped == 0 <==> NoInsertTooLate(NO_FEES, steps)
  {
    RunDropsIff(NO_FEES, steps);
  }

  /** Accumulated and paid. */
  function Recorded(row: Option<FeeRow>): int {
    if row.Some? then row.value.accumulated + row.value.paid else 0
  }

  lemma SumIsZeroIff(xs: seq<nat>)
    requires AllPositive(xs)
    ensures Sum(xs) == 0 <==> xs == []
  {
    if xs != [] {
      assert xs[|xs| - 1] > 0;
    }
  }

  /** In every run the row records all fees if and only if no insert came too late and none is under way. */
  lemma AllFeesAreRecordedIff(steps: seq<Step>)
    requires IsRun(NO_FEES, steps)
    ensures Recorded(After(NO_FEES, steps).row) == FeesOf(steps)
        <==> NoInsertTooLate(NO_FEES, steps) && After(NO_FEES, steps).inserting == []
  {
    RunKeepsInv(NO_FEES, steps);
    RunDropsIff(NO_FEES, steps);
    SumIsZeroIff(After(NO_FEES, steps).inserting);
  }

  /** Two first charges at once: one fee is dropped. */
  lemma FirstInsertRaceDropsAFee()
    ensures exists steps :: IsRun(NO_FEES, steps) && After(NO_FEES, steps).dropped == FeeOn(1000)
  {
    var s1 := Next(NO_FEES, Accrue(1000));
    var s2 := Next(s1, Accrue(1000));
    assert s2.inserting == [21, 21];
    var s3 := Next(s2, Insert(0));
    assert s3.inserting == [21] && s3.row == Some(FeeRow(21, 0));
    var s4 := Next(s3, Insert(0));
    var steps := [Accrue(1000), Accrue(1000), Insert(0), Insert(0)];
    assert steps[1..] == [Accrue(1000), Insert(0), Insert(0)];
    assert steps[1..][1..] == [Insert(0), Insert(0)];
    assert steps[1..][1..][1..] == [Insert(0)];
    assert steps[1..][1..][1..][1..] == [];
    assert IsRun(s4, []) && After(s4, []) == s4;
    assert IsRun(s3, [Insert(0)]) && After(s3, [Insert(0)]) == s4;
    assert IsRun(s2, [Insert(0), Insert(0)]) && After(s2, [Insert(0), Insert(0)]) == s4;
    assert IsRun(s1, steps[1..]) && After(s1, steps[1..]) == s4;
    assert IsRun(NO_FEES, steps) && After(NO_FEES, steps) == s4;
  }

  // ---------- What was sent and what is recorded as paid ----------

  /** Sent, but neither recorded as paid nor about to be. */
  function Unrecorded(s: State): int {
    s.sentMsats - (if s.row.Some? then s.row.value.paid else 0) - (if s.payout.Sent? then MsatsOf(s.payout) else 0)
  }

  lemma {:induction false} RunRecordsIff(s: State, steps: seq<Step>)
    requires Inv(s) && IsRun(s, steps)
    ensures Unrecorded(After(s, steps)) >= Unrecorded(s)
    ensures Unrecorded(After(s, steps)) == Unrecorded(s) <==> Subtract(false) !in steps
    decreases |steps|
  {
    if steps != [] {
      var step := steps[0];
      assert steps == [step] + steps[1..];
      StepKeepsInv(s, step);
      StepRecordsIff(s, step);
      RunRecordsIff(Next(s, step), steps[1..]);
    }
  }

  lemma StepRecordsIff(s: State, step: Step)
    requires Inv(s) && Enabled(s, step)
    ensures Unrecorded(Next(s, step)) >= Unrecorded(s)
    ensures Unrecorded(Next(s, step)) == Unrecorded(s) <==> step != Subtract(false)
  {
  }

  /** In every run all that was sent is recorded as paid, or about to be, if and only if no subtraction failed after
      its payment; a fee whose subtraction failed is sent again. */
  lemma SentIsRecordedIff(steps: seq<Step>)
    requires IsRun(NO_FEES, steps)
    ensures Unrecorded(After(NO_FEES, steps)) == 0 <==> Subtract(false) !in steps
  {
    RunRecordsIff(NO_FEES, steps);
  }

  lemma OneStep(s: State, step: Step)
    requires Enabled(s, step)
    ensures IsRun(s, [step]) && After(s, [step]) == Next(s, step)
  {
    assert [step][1..] == [];
    assert IsRun(Next(s, step), []);
  }

  lemma {:induction false} RunsJoin(s: State, steps: seq<Step>, more: seq<Step>)
    requires IsRun(s, steps) && IsRun(After(s, steps), more)
    ensures IsRun(s, steps + more) && After(s, steps + more) == After(After(s, steps), more)
    decreases |steps|
  {
    hide Next, Enabled;
    if steps == [] {
      assert steps + more == more;
    } else {
      assert (steps + more)[1..] == steps[1..] + more;
      RunsJoin(Next(s, steps[0]), steps[1..], more);
    }
  }

  /** The run goes on by one step. */
  lemma Then(steps: seq<Step>, s: State, step: Step) returns (more: seq<Step>, u: State)
    requires IsRun(NO_FEES, steps) && After(NO_FEES, steps) == s && Enabled(s, step)
    ensures IsRun(NO_FEES, more) && After(NO_FEES, more) == u == Next(s, step)
  {
    OneStep(s, step);
    RunsJoin(NO_FEES, steps, [step]);
    more, u := steps + [step], Next(s, step);
  }

  /** A fee of 210 sats is sent twice, because its subtraction failed the first time. */
  lemma FailedSubtractionPaysTwice() returns (steps: seq<Step>, s: State)
    ensures IsRun(NO_FEES, steps) && After(NO_FEES, steps) == s
    ensures FeeOn(s.charged) == 210000 && s.sentMsats == 420000 && s.row == Some(FeeRow(0, 210000))
  {
    hide IsRun, After;
    steps, s := StartWith(10000000);
    steps, s := Then(steps, s, Insert(0));
    steps, s := Then(steps, s, ReadFee);
    steps, s := Then(steps, s, Send(true));
    steps, s := Then(steps, s, Subtract(false));
    steps, s := Then(steps, s, ReadFee);
    steps, s := Then(steps, s, Send(true));
    steps, s := Then(steps, s, Subtract(true));
  }

  lemma StartWith(total: nat) returns (steps: seq<Step>, s: State)
    requires total > 0
    ensures IsRun(NO_FEES, steps) && After(NO_FEES, steps) == s == Next(NO_FEES, Accrue(total))
  {
    OneStep(NO_FEES, Accrue(total));
    steps, s := [Accrue(total)], Next(NO_FEES, Accrue(total));
  }

  // ---------- The handlers are runs ----------

  function Accruals(totals: seq<nat>): seq<Step> {
    if totals == [] then [] else Accruals(totals[..|totals| - 1]) + [Accrue(totals[|totals| - 1])]
  }

  /** Charges add their fees to the row whatever the payout task holds. */
  lemma {:induction false} AccrualsAdd(s: State, totals: seq<nat>)
    requires s.row.Some? && AllPositive(totals)
    ensures IsRun(s, Accruals(totals))
    ensures var u := After(s, Accruals(totals));
      && u.row == Some(FeeRow(s.row.value.accumulated + FeesOn(totals), s.row.value.paid))
      && u.payout == s.payout && u.sentMsats == s.sentMsats
  {
    if totals != [] {
      var front, last := totals[..|totals| - 1], totals[|totals| - 1];
      AccrualsAdd(s, front);
      OneStep(After(s, Accruals(front)), Accrue(last));
      RunsJoin(s, Accruals(front), [Accrue(last)]);
    }
  }

  /** The steps of one round of the payout task, with the charges settled meanwhile. */
  function Round(s: State, during: seq<nat>, sent: bool): seq<Step> {
    var due := s.row.Some? && s.row.value.accumulated >= 200000;
    [ReadFee] + Accruals(during) + (if due then [Send(sent)] else []) + (if due && sent then [Subtract(true)] else [])
  }

  /** A round of the payout task does to the row what the handler does: it pays all whole sats from 200 up if they can
      be sent, and keeps every fee accrued meanwhile. */
  lemma RoundIsARun(s: State, during: seq<nat>, sent: bool)
    requires s.payout.Idle? && AllPositive(during)
    ensures IsRun(s, Round(s, during, sent))
    ensures var u, before := After(s, Round(s, during, sent)), if s.row.Some? then s.row.value else FeeRow(0, 0);
      var sats := if sent && before.accumulated >= 200000 then before.accumulated / 1000 else 0;
      && u.payout == Idle && u.sentMsats == s.sentMsats + sats * 1000
      && u.row == Some(FeeRow(before.accumulated + FeesOn(during) - sats * 1000, before.paid + sats * 1000))
  {
    hide IsRun, After, FeesOn, Accruals;
    OneStep(s, ReadFee);
    var read := Next(s, ReadFee);
    AccrualsAdd(read, during);
    RunsJoin(s, [ReadFee], Accruals(during));
    var steps, u := [ReadFee] + Accruals(during), After(read, Accruals(during));
    if s.row.Some? && s.row.value.accumulated >= 200000 {
      OneStep(u, Send(sent));
      RunsJoin(s, steps, [Send(sent)]);
      if sent {
        OneStep(Next(u, Send(sent)), Subtract(true));
        RunsJoin(s, steps + [Send(sent)], [Subtract(true)]);
      } else {
        assert Round(s, during, sent) == steps + [Send(sent)];
      }
    } else {
      assert Round(s, during, sent) == steps;
    }
  }

  /** The table behind the two update functions of the database module. */
  class FeeTable {
    var row: Option<FeeRow>

    /** `meanwhile` is the fee another first charge inserts between this UPDATE and this INSERT, if any. */
    method Accumulate(fee: nat, meanwhile: Option<nat>) returns (stored: bool)
      modifies this
      ensures old(row).Some? ==> stored && row == Accrued(old(row), fee)
      ensures old(row).None? ==> row == Some(FeeRow(if meanwhile.Some? then meanwhile.value else fee, 0))
      ensures stored <==> old(row).Some? || meanwhile.None?
    {
      var rowcount := if row.Some? then 1 else 0;
      row := Accrued(row, fee);
      if rowcount == 0 {
        if meanwhile.Some? {
          row := Some(FeeRow(meanwhile.value, 0));
          return false;
        }
        row := Some(FeeRow(fee, 0));
      }
      return true;
    }

    /** One round of the payout task; `during` are the charges settled while the payment is sent. */
    method PayoutRound(during: seq<nat>, sent: bool) returns (sats: int)
      requires row.Some? ==> row.value.accumulated >= 0
      modifies this
      ensures row.Some?
      ensures var before := if old(row).Some? then old(row).value else FeeRow(0, 0);
        && (sats > 0 ==> sent && sats >= DEFAULT_PAYOUT_SATS && sats * 1000 <= before.accumulated < sats * 1000 + 1000)
        && (sats == 0 ==> !sent || before.accumulated < DEFAULT_PAYOUT_SATS * 1000)
        && sats >= 0
        && row.value.paid == before.paid + sats * 1000
        && row.value.accumulated == before.accumulated + FeesOn(during) - sats * 1000
        && row.value.accumulated >= 0
    {
      if row.None? {
        row := Some(FeeRow(0, 0));
      }
      ghost var before := row.value;
      var due := row.value.accumulated / 1000;
      for i := 0 to |during|
        invariant row == Some(FeeRow(before.accumulated + FeesOn(during[..i]), before.paid))
      {
        var _ := Accumulate(FeeOn(during[i]), None);
        assert during[..i + 1][..i] == during[..i];
      }
      assert during[..|during|] == during;
      sats := 0;
      if due >= DEFAULT_PAYOUT_SATS && sent {
        sats := due;
        row := Subtracted(row, sats * 1000);
      }
    }
  }

  function FeesOn(totals: seq<nat>): nat {
    if totals == [] then 0 else FeesOn(totals[..|totals| - 1]) + FeeOn(totals[|totals| - 1])
  }
}
