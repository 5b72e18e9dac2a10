/** Crediting Lightning invoices: the watcher, status polls and recover calls work on the same rows. */
module Invoices {
  import opened Wrappers

  type Id = string

  datatype Status = Pending | Paid | Expired

  /** A call that looks at one invoice. `Marked`: the quote is paid and the session's copy says so; `Holding`: the
      mint has issued the tokens; `Unconfirmed`: the quote is not paid, or could not be read. */
  datatype Phase = Looking | Marked | Holding | Unconfirmed

  datatype Call = Call(invoice: Id, phase: Phase, watcher: bool)

  /** `settled` are the invoices the mint regards as paid, `minted` the quotes it has honoured, `credits` counts how often a balance was credited, `dirty`
      are the invoices that the watcher's session has marked paid without crediting them. */
  datatype State = State(
    rows: map<Id, Status>,
    settled: set<Id>,
    minted: set<Id>,
    credits: multiset<Id>,
    calls: map<nat, Call>,
    dirty: set<Id>)

  datatype Step =
    | Create(invoice: Id)
    | Pay(invoice: Id)
    | Look(call: nat, invoice: Id, watcher: bool)
    | QuotePaid(call: nat)
    | QuoteUnpaid(call: nat)
    | QuoteFails(call: nat)
    | Mint(call: nat)
    | MintFails(call: nat, issued: bool)
    | CreditFails(call: nat)
    | Credit(call: nat)
    | Expire(call: nat)
    | Leave(call: nat)
    | BatchEnds

  predicate At(s: State, c: nat, p: Phase) {
    c in s.calls && s.calls[c].phase == p
  }

  function To(s: State, c: nat, p: Phase): State
    requires c in s.calls
  {
    s.(calls := s.calls[c := s.calls[c].(phase := p)])
  }

  function Done(s: State, c: nat): State {
    s.(calls := s.calls - {c})
  }

  /** An exception after the copy was marked: an own session is rolled back, the watcher's keeps the mark. */
  function Abandoned(s: State, c: nat): State
    requires c in s.calls
  {
    Done(s, c).(dirty := if s.calls[c].watcher then s.dirty + {s.calls[c].invoice} else s.dirty)
  }

  function PaidRows(rows: map<Id, Status>, ids: set<Id>): map<Id, Status> {
    map i | i in rows :: if i in ids then Paid else rows[i]
  }

  /** What a committing session writes. */
  function Flushed(s: State, c: nat): set<Id>
    requires c in s.calls
  {
    {s.calls[c].invoice} + (if s.calls[c].watcher then s.dirty else {})
  }

  function Credited(s: State, c: nat): State
    requires c in s.calls
  {
    Done(s, c).(rows := PaidRows(s.rows, Flushed(s, c)), credits := s.credits + multiset{s.calls[c].invoice},
      dirty := if s.calls[c].watcher then {} else s.dirty)
  }

  /** The mint reports a quote as paid when it is, or not at all, and honours it once; everything else may interleave or
      fail freely. */
  predicate Enabled(s: State, step: Step) {
    match step
    case Create(i) => i !in s.rows
    case Pay(i) => i in s.rows && i !in s.settled
    case Look(c, i, _) => c !in s.calls && i in s.rows && s.rows[i] == Pending
    case QuotePaid(c) => At(s, c, Looking) && s.calls[c].invoice in s.settled
    case QuoteUnpaid(c) => At(s, c, Looking) && s.calls[c].invoice !in s.settled
    case QuoteFails(c) => At(s, c, Looking)
    case Mint(c) => At(s, c, Marked) && s.calls[c].invoice !in s.minted
    case MintFails(c, issued) => At(s, c, Marked) && (issued ==> s.calls[c].invoice !in s.minted)
    case CreditFails(c) => At(s, c, Holding)
    case Credit(c) => At(s, c, Holding)
    case Expire(c) => At(s, c, Unconfirmed) && !s.calls[c].watcher
    case Leave(c) => At(s, c, Unconfirmed)
    case BatchEnds => true
  }

  function Next(s: State, step: Step): State
    requires Enabled(s, step)
  {
    match step
    case Create(i) => s.(rows := s.rows[i := Pending])
    case Pay(i) => s.(settled := s.settled + {i})
    case Look(c, i, w) => s.(calls := s.calls[c := Call(i, Looking, w)])
    case QuotePaid(c) => To(s, c, Marked)
    case QuoteUnpaid(c) => To(s, c, Unconfirmed)
    case QuoteFails(c) => To(s, c, Unconfirmed)
    case Mint(c) => To(s, c, Holding).(minted := s.minted + {s.calls[c].invoice})
    case MintFails(c, issued) => Abandoned(s, c).(minted := if issued then s.minted + {s.calls[c].invoice} else s.minted)
    case CreditFails(c) => Abandoned(s, c)
    case Credit(c) => Credited(s, c)
    case Expire(c) => Done(s, c).(rows := s.rows[s.calls[c].invoice := Expired])
    case Leave(c) => Done(s, c)
    case BatchEnds => s.(dirty := {})
  }

  /** What is taken for granted of the mint: it says of a quote that it is paid only when it is, and that it is not only
      when it is not; it honours a quote once, whether or not its answer arrives, and nothing else counts as honoured. */
  lemma MintIsTruthful(s: State, step: Step, i: Id)
    requires Enabled(s, step)
    ensures step.QuotePaid? ==> s.calls[step.call].invoice in s.settled
    ensures step.QuoteUnpaid? ==> s.calls[step.call].invoice !in s.settled
    ensures i in Next(s, step).settled <==> i in s.settled || step == Pay(i)
    ensures step == Pay(i) ==> i in s.rows && i !in s.settled
    ensures i in Next(s, step).minted <==> i in s.minted || Honours(s, step, i)
    ensures Honours(s, step, i) ==> i !in s.minted
  {
  }

  /** The step makes the mint issue the tokens of the invoice. */
  predicate Honours(s: State, step: Step, i: Id)
    requires Enabled(s, step)
  {
    (step.Mint? || (step.MintFails? && step.issued)) && s.calls[step.call].invoice == i
  }

  /** A new call takes a number of its own, and a step changes no call but its own. */
  lemma CallsAreSeparate(s: State, step: Step, d: nat)
    requires Enabled(s, step) && d in s.calls
    ensures step.Look? ==> step.call != d
    ensures step.Create? || step.Pay? || step.BatchEnds? || step.call != d ==>
      d in Next(s, step).calls && Next(s, step).calls[d] == s.calls[d]
  {
  }

  const START := State(map[], {}, {}, multiset{}, map[], {})

  ghost predicate Reaches(s: State, steps: seq<Step>, t: State)
    decreases |steps|
  {
    if steps == [] then s == t
    else Enabled(s, steps[0]) && Reaches(Next(s, steps[0]), steps[1..], t)
  }

  // ---------- Credited at most once ----------

  predicate CallOk(s: State, c: nat)
    requires c in s.calls
  {
    && s.calls[c].invoice in s.rows
    && (s.calls[c].phase == Marked || s.calls[c].phase == Holding ==> s.calls[c].invoice in s.settled)
    && (s.calls[c].phase == Holding ==> s.calls[c].invoice in s.minted && s.credits[s.calls[c].invoice] == 0)
  }

  predicate Alone(s: State, c: nat, d: nat)
    requires c in s.calls && d in s.calls
  {
    c != d && s.calls[c].phase == Holding && s.calls[d].phase == Holding ==> s.calls[c].invoice != s.calls[d].invoice
  }

  ghost predicate Inv(s: State) {
    && (forall i :: s.credits[i] <= 1 && (i in s.credits ==> i in s.minted && i in s.rows))
    && (forall c :: c in s.calls ==> CallOk(s, c))
    && (forall c, d :: c in s.calls && d in s.calls ==> Alone(s, c, d))
    && (forall i :: i in s.dirty ==> i in s.rows && i in s.settled)
    && (forall i :: i in s.minted ==> i in s.settled)
  }

  /** The call `c`, if any, may change, and holds no tokens afterwards. */
  ghost predicate OnlyCall(s: State, u: State, c: Option<nat>) {
    forall d :: d in u.calls ==>
      if Some(d) == c then u.calls[d].phase != Holding && CallOk(u, d) else d in s.calls && u.calls[d] == s.calls[d]
  }

  lemma QuietStepKeepsInv(s: State, u: State, c: Option<nat>)
    requires Inv(s) && OnlyCall(s, u, c)
    requires u.credits == s.credits && s.minted <= u.minted <= u.settled && s.settled <= u.settled && s.rows.Keys <= u.rows.Keys
    requires forall i :: i in u.dirty ==> i in u.rows && i in u.settled
    ensures Inv(u)
  {
    forall d | d in u.calls
      ensures CallOk(u, d)
    {
      assert Some(d) != c ==> CallOk(s, d);
    }
    forall d, e | d in u.calls && e in u.calls
      ensures Alone(u, d, e)
    {
      assert Some(d) != c && Some(e) != c ==> Alone(s, d, e);
    }
  }

  lemma MintKeepsInv(s: State, step: Step)
    requires Inv(s) && Enabled(s, step) && step.Mint?
    ensures Inv(Next(s, step))
  {
    var u, c := Next(s, step), step.call;
    assert CallOk(s, c);
    forall d | d in u.calls
      ensures CallOk(u, d) && Alone(u, c, d) && Alone(u, d, c)
    {
      assert CallOk(s, d);
    }
    forall d, e | d in u.calls && e in u.calls
      ensures Alone(u, d, e)
    {
      assert Alone(s, d, e) && Alone(u, c, e) && Alone(u, d, c);
    }
  }

  lemma CreditKeepsInv(s: State, step: Step)
    requires Inv(s) && Enabled(s, step) && step.Credit?
    ensures Inv(Next(s, step))
  {
    var u, c := Next(s, step), step.call;
    assert CallOk(s, c);
    forall d | d in u.calls
      ensures CallOk(u, d)
    {
      assert CallOk(s, d) && Alone(s, c, d);
    }
    forall d, e | d in u.calls && e in u.calls
      ensures Alone(u, d, e)
    {
      assert Alone(s, d, e);
    }
  }

  lemma StepKeepsInv(s: State, step: Step)
    requires Inv(s) && Enabled(s, step)
    ensures Inv(Next(s, step))
  {
    match step
    case Mint(_) => MintKeepsInv(s, step);
    case Credit(_) => CreditKeepsInv(s, step);
    case Create(_) => QuietStepKeepsInv(s, Next(s, step), None);
    case Pay(_) => QuietStepKeepsInv(s, Next(s, step), None);
    case BatchEnds => QuietStepKeepsInv(s, Next(s, step), None);
    case _ => CallStepKeepsInv(s, step);
  }

  lemma CallStepKeepsInv(s: State, step: Step)
    requires Inv(s) && Enabled(s, step)
    requires !step.Mint? && !step.Credit? && !step.Create? && !step.Pay? && !step.BatchEnds?
    ensures Inv(Next(s, step))
  {
    assert step.call in s.calls ==> CallOk(s, step.call);
    QuietStepKeepsInv(s, Next(s, step), Some(step.call));
  }

  lemma {:induction false} RunKeepsInv(s: State, steps: seq<Step>, t: State)
    requires Inv(s) && Reaches(s, steps, t)
    ensures Inv(t)
    decreases |steps|
  {
    if steps != [] {
      StepKeepsInv(s, steps[0]);
      RunKeepsInv(Next(s, steps[0]), steps[1..], t);
    }
  }

  /** Whatever interleaves and whatever fails, no invoice is credited twice, and only an issued one is credited. */
  lemma CreditedAtMostOnce(steps: seq<Step>, t: State, i: Id)
    requires Reaches(START, steps, t)
    ensures t.credits[i] <= 1
    ensures i in t.credits ==> i in t.minted
  {
    RunKeepsInv(START, steps, t);
  }

  // ---------- Paid without credit ----------

  function Unbacked(s: State): set<Id> {
    set i | i in s.rows && s.rows[i] == Paid && i !in s.credits
  }

  /** The watcher's session commits marks it never credited. */
  predicate FlushesMarks(s: State, step: Step) {
    step.Credit? && step.call in s.calls && s.calls[step.call].watcher
    && exists i :: i in s.dirty && i !in s.credits && i != s.calls[step.call].invoice
  }

  /** A step makes an invoice paid without credit if and only if it is the commit of a watcher session that has
      marked it before. */
  lemma UnbackedGrowsOnlyByWatcher(s: State, step: Step, i: Id)
    requires Inv(s) && Enabled(s, step)
    ensures i in Unbacked(Next(s, step)) && i !in Unbacked(s) <==>
      && step.Credit? && s.calls[step.call].watcher && i in s.dirty
      && i != s.calls[step.call].invoice && i !in s.credits && i in s.rows && s.rows[i] != Paid
  {
    var t := Next(s, step);
    if step.Credit? {
      assert i in t.credits <==> i in s.credits || i == s.calls[step.call].invoice;
    }
  }

  ghost predicate NeverFlushes(s: State, steps: seq<Step>)
    decreases |steps|
  {
    steps == [] || (Enabled(s, steps[0]) && !FlushesMarks(s, steps[0]) && NeverFlushes(Next(s, steps[0]), steps[1..]))
  }

  lemma StepKeepsBackedIff(s: State, step: Step)
    requires Inv(s) && Unbacked(s) == {} && Enabled(s, step)
    ensures Unbacked(Next(s, step)) == {} <==> !FlushesMarks(s, step)
  {
    forall i
      ensures i in Unbacked(Next(s, step)) <==>
        step.Credit? && s.calls[step.call].watcher && i in s.dirty
        && i != s.calls[step.call].invoice && i !in s.credits && i in s.rows && s.rows[i] != Paid
    {
      UnbackedGrowsOnlyByWatcher(s, step, i);
    }
    if FlushesMarks(s, step) {
      var i :| i in s.dirty && i !in s.credits && i != s.calls[step.call].invoice;
      assert i !in Unbacked(s);
      assert i in Unbacked(Next(s, step));
    }
  }

  /** At every moment of the run all paid invoices are credited. */
  ghost predicate AlwaysBacked(s: State, steps: seq<Step>)
    decreases |steps|
  {
    Unbacked(s) == {} && (steps == [] || (Enabled(s, steps[0]) && AlwaysBacked(Next(s, steps[0]), steps[1..])))
  }

  lemma {:induction false} BackedThroughoutIff(s: State, steps: seq<Step>, t: State)
    requires Inv(s) && Unbacked(s) == {} && Reaches(s, steps, t)
    ensures AlwaysBacked(s, steps) <==> NeverFlushes(s, steps)
    ensures AlwaysBacked(s, steps) ==> Unbacked(t) == {}
    decreases |steps|
  {
    if steps != [] {
      StepKeepsInv(s, steps[0]);
      StepKeepsBackedIff(s, steps[0]);
      if Unbacked(Next(s, steps[0])) == {} {
        BackedThroughoutIff(Next(s, steps[0]), steps[1..], t);
      }
    }
  }

  ghost predicate OwnSessionsOnly(steps: seq<Step>) {
    forall i :: 0 <= i < |steps| && steps[i].Look? ==> !steps[i].watcher
  }

  ghost predicate NoWatcher(s: State) {
    forall c :: c in s.calls ==> !s.calls[c].watcher
  }

  lemma {:induction false} OwnSessionsNeverFlush(s: State, steps: seq<Step>, t: State)
    requires NoWatcher(s) && OwnSessionsOnly(steps) && Reaches(s, steps, t)
    ensures NeverFlushes(s, steps)
    decreases |steps|
  {
    if steps != [] {
      assert NoWatcher(Next(s, steps[0]));
      OwnSessionsNeverFlush(Next(s, steps[0]), steps[1..], t);
    }
  }

  /** In every run paid invoices are credited throughout if and only if no watcher batch commits marks of invoices
      that failed before in it. */
  lemma PaidMeansCreditedIff(steps: seq<Step>, t: State)
    requires Reaches(START, steps, t)
    ensures AlwaysBacked(START, steps) <==> NeverFlushes(START, steps)
  {
    BackedThroughoutIff(START, steps, t);
  }

  /** Status polls and recover calls alone never leave an invoice paid without its credit. */
  lemma PaidMeansCredited(steps: seq<Step>, t: State, i: Id)
    requires Reaches(START, steps, t)
    requires OwnSessionsOnly(steps) || NeverFlushes(START, steps)
    requires i in t.rows && t.rows[i] == Paid
    ensures t.credits[i] == 1 && i in t.minted
  {
    if OwnSessionsOnly(steps) {
      OwnSessionsNeverFlush(START, steps, t);
    }
    BackedThroughoutIff(START, steps, t);
    RunKeepsInv(START, steps, t);
    assert i !in Unbacked(t);
  }

  // ---------- What goes wrong ----------

  lemma {:induction false} OneMoreStep(s: State, steps: seq<Step>, t: State, step: Step)
    requires Reaches(s, steps, t) && Enabled(t, step)
    ensures Reaches(s, steps + [step], Next(t, step))
    decreases |steps|
  {
    if steps == [] {
      assert [step][1..] == [];
    } else {
      assert (steps + [step])[1..] == steps[1..] + [step];
      OneMoreStep(Next(s, steps[0]), steps[1..], t, step);
    }
  }

  ghost predicate Forgotten(s: State, i: Id) {
    && i in s.rows && s.rows[i] != Pending && i !in s.credits
    && forall c :: c in s.calls ==> s.calls[c].invoice != i
  }

  /** An invoice that left the pending state without its credit is never credited again. */
  lemma {:induction false} ForgottenForGood(s: State, steps: seq<Step>, t: State, i: Id)
    requires Forgotten(s, i) && Reaches(s, steps, t)
    ensures Forgotten(t, i)
    decreases |steps|
  {
    if steps != [] {
      var next := Next(s, steps[0]);
      assert Forgotten(next, i) by {
        if steps[0].Credit? {
          assert s.calls[steps[0].call].invoice != i;
        }
      }
      ForgottenForGood(next, steps[1..], t, i);
    }
  }

  /** One more step of a run from the start. */
  lemma Then(steps: seq<Step>, s: State, step: Step) returns (more: seq<Step>, t: State)
    requires Reaches(START, steps, s) && Enabled(s, step)
    ensures Reaches(START, more, t) && t == Next(s, step)
    ensures OwnSessionsOnly(steps) && (step.Look? ==> !step.watcher) ==> OwnSessionsOnly(more)
  {
    OneMoreStep(START, steps, s, step);
    more, t := steps + [step], Next(s, step);
  }

  lemma First(a: Id) returns (more: seq<Step>, t: State)
    ensures Reaches(START, more, t) && t == Next(START, Create(a)) && OwnSessionsOnly(more)
  {
    more, t := Then([], START, Create(a));
  }

  lemma TwoPaidForInOneBatch(a: Id, b: Id) returns (steps: seq<Step>, t: State)
    requires a != b
    ensures Reaches(START, steps, t)
    ensures t == State(map[a := Pending, b := Pending], {a, b}, {}, multiset{}, map[0 := Call(a, Looking, true), 1 := Call(b, Looking, true)], {})
  {
    hide Reaches;
    steps, t := First(a);
    steps, t := Then(steps, t, Create(b));
    steps, t := Then(steps, t, Pay(a));
    steps, t := Then(steps, t, Pay(b));
    steps, t := Then(steps, t, Look(0, a, true));
    steps, t := Then(steps, t, Look(1, b, true));
  }

  /** Two paid invoices in one watcher batch, the mint call of the first failing: the commit of the second marks
      the first paid, and it stays uncredited whatever follows. */
  lemma WatcherLosesAnInvoice(a: Id, b: Id) returns (steps: seq<Step>, t: State)
    requires a != b
    ensures Reaches(START, steps, t) && Forgotten(t, a) && t.rows[a] == Paid && a !in t.minted && b in t.credits
  {
    hide Reaches;
    steps, t := TwoPaidForInOneBatch(a, b);
    steps, t := Then(steps, t, QuotePaid(0));
    steps, t := Then(steps, t, MintFails(0, false));
    steps, t := Then(steps, t, QuotePaid(1));
    assert t == State(map[a := Pending, b := Pending], {a, b}, {}, multiset{}, map[1 := Call(b, Marked, true)], {a});
    steps, t := Then(steps, t, Mint(1));
    steps, t := Then(steps, t, Credit(1));
  }

  /** Two polls look at an invoice. The first asks for the quote before it is paid, or cannot read it. */
  lemma TwoPolls(a: Id, readable: bool) returns (steps: seq<Step>, t: State)
    ensures Reaches(START, steps, t) && OwnSessionsOnly(steps)
    ensures t == State(map[a := Pending], {a}, {}, multiset{}, map[0 := Call(a, Unconfirmed, false), 1 := Call(a, Looking, false)], {})
  {
    hide Reaches;
    steps, t := First(a);
    steps, t := Then(steps, t, Look(0, a, false));
    steps, t := Then(steps, t, Look(1, a, false));
    steps, t := Then(steps, t, if readable then QuoteUnpaid(0) else QuoteFails(0));
    steps, t := Then(steps, t, Pay(a));
  }

  /** A poll that saw the quote unpaid, or could not read it, overwrites a paid invoice with expired after another
      call credited it. */
  lemma PaidCanTurnExpired(a: Id, readable: bool) returns (steps: seq<Step>, t: State)
    ensures Reaches(START, steps, t) && OwnSessionsOnly(steps) && a in t.credits && a in t.rows && t.rows[a] == Expired
  {
    hide Reaches;
    steps, t := TwoPolls(a, readable);
    steps, t := Then(steps, t, QuotePaid(1));
    steps, t := Then(steps, t, Mint(1));
    steps, t := Then(steps, t, Credit(1));
    assert t == State(map[a := Paid], {a}, {a}, multiset{a}, map[0 := Call(a, Unconfirmed, false)], {});
    steps, t := Then(steps, t, Expire(0));
  }

  /** Only a poll that did not see the quote paid, because it was not or could not be read, takes a paid invoice out
      of that state. */
  lemma PaidLeavesIff(s: State, step: Step, i: Id)
    requires Inv(s) && Enabled(s, step) && i in s.rows && s.rows[i] == Paid
    ensures i in Next(s, step).rows
    ensures Next(s, step).rows[i] != Paid <==> step.Expire? && s.calls[step.call].invoice == i
    ensures Next(s, step).rows[i] != Paid ==> Next(s, step).rows[i] == Expired && !s.calls[step.call].watcher
  {
    if step.Expire? {
      assert CallOk(s, step.call);
    }
  }

  /** An invoice that is paid at some point of the run is paid at every later point. */
  ghost predicate PaidIsFinal(s: State, steps: seq<Step>)
    decreases |steps|
  {
    steps == [] ||
    (Enabled(s, steps[0])
     && (forall i :: i in s.rows && s.rows[i] == Paid ==> i in Next(s, steps[0]).rows && Next(s, steps[0]).rows[i] == Paid)
     && PaidIsFinal(Next(s, steps[0]), steps[1..]))
  }

  /** The poll about to write expired would find the row paid if it looked again. */
  predicate ExpiresPaid(s: State, step: Step) {
    step.Expire? && step.call in s.calls && s.calls[step.call].invoice in s.rows && s.rows[s.calls[step.call].invoice] == Paid
  }

  ghost predicate NoneExpiresPaid(s: State, steps: seq<Step>)
    decreases |steps|
  {
    steps == [] || (Enabled(s, steps[0]) && !ExpiresPaid(s, steps[0]) && NoneExpiresPaid(Next(s, steps[0]), steps[1..]))
  }

  lemma {:induction false} PaidStaysIff(s: State, steps: seq<Step>, t: State)
    requires Inv(s) && Reaches(s, steps, t)
    ensures PaidIsFinal(s, steps) <==> NoneExpiresPaid(s, steps)
    decreases |steps|
  {
    if steps != [] {
      var step := steps[0];
      StepKeepsInv(s, step);
      PaidStaysIff(Next(s, step), steps[1..], t);
      forall i | i in s.rows && s.rows[i] == Paid
        ensures i in Next(s, step).rows
        ensures Next(s, step).rows[i] != Paid <==> step.Expire? && s.calls[step.call].invoice == i
      {
        PaidLeavesIff(s, step, i);
      }
      if ExpiresPaid(s, step) {
        var i := s.calls[step.call].invoice;
        assert i in s.rows && s.rows[i] == Paid && Next(s, step).rows[i] != Paid;
      }
    }
  }

  /** In every run paid invoices stay paid throughout if and only if no poll that did not see the quote paid writes
      expired over a row that has become paid since. */
  lemma PaidIsFinalIff(steps: seq<Step>, t: State)
    requires Reaches(START, steps, t)
    ensures PaidIsFinal(START, steps) <==> NoneExpiresPaid(START, steps)
  {
    PaidStaysIff(START, steps, t);
  }

  // ---------- Payments that are lost ----------

  /** Paid for at the mint, no longer looked at, and not credited. */
  predicate Lost(s: State, i: Id) {
    i in s.settled && i in s.rows && s.rows[i] != Pending && i !in s.credits
  }

  ghost predicate NothingLost(s: State) {
    forall i :: !Lost(s, i)
  }

  /** A poll expires an invoice that is paid for and not credited, an invoice that is closed already is paid for, or
      the watcher commits a mark it never credited. */
  predicate LosesPayment(s: State, step: Step) {
    match step
    case Expire(c) => c in s.calls && s.calls[c].invoice in s.settled && s.calls[c].invoice !in s.credits
    case Pay(i) => i in s.rows && s.rows[i] != Pending && i !in s.credits
    case Credit(_) => FlushesMarks(s, step)
    case _ => false
  }

  lemma StepLosesIff(s: State, step: Step)
    requires Inv(s) && Enabled(s, step) && NothingLost(s)
    ensures NothingLost(Next(s, step)) <==> !LosesPayment(s, step)
  {
    var u := Next(s, step);
    match step {
      case Expire(c) =>
        assert CallOk(s, c);
        assert LosesPayment(s, step) <==> Lost(u, s.calls[c].invoice);
        assert forall i :: i != s.calls[c].invoice ==> (Lost(u, i) <==> Lost(s, i));
      case Pay(i) =>
        assert LosesPayment(s, step) <==> Lost(u, i);
        assert forall j :: j != i ==> (Lost(u, j) <==> Lost(s, j));
      case Credit(c) => CreditLosesIff(s, step);
      case _ => assert forall i :: Lost(u, i) ==> Lost(s, i);
    }
  }

  lemma CreditLosesIff(s: State, step: Step)
    requires Inv(s) && Enabled(s, step) && NothingLost(s) && step.Credit?
    ensures NothingLost(Next(s, step)) <==> !FlushesMarks(s, step)
  {
    var u, own := Next(s, step), s.calls[step.call].invoice;
    assert forall i :: i in u.credits <==> i in s.credits || i == own;
    forall i
      ensures Lost(u, i) <==> s.calls[step.call].watcher && i in s.dirty && i !in s.credits && i != own
    {
      assert !Lost(s, i);
    }
    if FlushesMarks(s, step) {
      var i :| i in s.dirty && i !in s.credits && i != own;
      assert Lost(u, i);
    }
  }

  ghost predicate NeverLoses(s: State, steps: seq<Step>)
    decreases |steps|
  {
    NothingLost(s) && (steps == [] || (Enabled(s, steps[0]) && NeverLoses(Next(s, steps[0]), steps[1..])))
  }

  ghost predicate NoneLosesPayment(s: State, steps: seq<Step>)
    decreases |steps|
  {
    steps == [] || (Enabled(s, steps[0]) && !LosesPayment(s, steps[0]) && NoneLosesPayment(Next(s, steps[0]), steps[1..]))
  }

  lemma {:induction false} LosesNothingIff(s: State, steps: seq<Step>, t: State)
    requires Inv(s) && NothingLost(s) && Reaches(s, steps, t)
    ensures NeverLoses(s, steps) <==> NoneLosesPayment(s, steps)
    decreases |steps|
  {
    if steps != [] {
      StepKeepsInv(s, steps[0]);
      StepLosesIff(s, steps[0]);
      if NothingLost(Next(s, steps[0])) {
        LosesNothingIff(Next(s, steps[0]), steps[1..], t);
      }
    }
  }

  /** In every run an invoice that is paid for is pending or credited at every moment, if and only if no poll expires
      one that is paid for and uncredited, none is paid for after it was closed, and no watcher batch commits marks
      of invoices that failed before in it. */
  lemma PaymentsAreNotLostIff(steps: seq<Step>, t: State)
    requires Reaches(START, steps, t)
    ensures NeverLoses(START, steps) <==> NoneLosesPayment(START, steps)
  {
    LosesNothingIff(START, steps, t);
  }

  /** An invoice is paid for, the poll after its expiry cannot read the quote, and the invoice is expired for good. */
  lemma UnreadableQuoteLosesAPayment(a: Id) returns (steps: seq<Step>, t: State)
    ensures Reaches(START, steps, t) && OwnSessionsOnly(steps) && Lost(t, a) && Forgotten(t, a) && t.rows[a] == Expired
  {
    hide Reaches;
    steps, t := First(a);
    steps, t := Then(steps, t, Pay(a));
    steps, t := Then(steps, t, Look(0, a, false));
    steps, t := Then(steps, t, QuoteFails(0));
    assert t == State(map[a := Pending], {a}, {}, multiset{}, map[0 := Call(a, Unconfirmed, false)], {});
    steps, t := Then(steps, t, Expire(0));
  }

  // ---------- The watcher's loop ----------

  /** How the check of one invoice goes: quote unpaid or unreadable, an exception after the copy was marked paid,
      or credited. */
  datatype Outcome = Untouched | BreaksAfterMark | Succeeds

  /** The steps of a call that looks at one invoice. */
  function Visit(c: nat, i: Id, watcher: bool, o: Outcome): seq<Step> {
    [Look(c, i, watcher)]
    + match o
      case Untouched => [QuoteFails(c), Leave(c)]
      case BreaksAfterMark => [QuotePaid(c), MintFails(c, false)]
      case Succeeds => [QuotePaid(c), Mint(c), Credit(c)]
  }

  /** What it leaves behind: a failure after the mark leaves a trace only in the watcher's session; a credit pays the
      invoice, and from the watcher whatever its session had marked. */
  function Visited(s: State, i: Id, watcher: bool, o: Outcome): State {
    match o
    case Untouched => s
    case BreaksAfterMark => if watcher then s.(dirty := s.dirty + {i}) else s
    case Succeeds =>
      s.(rows := map k | k in s.rows :: if k == i || (watcher && k in s.dirty) then Paid else s.rows[k],
         minted := s.minted + {i}, credits := s.credits + multiset{i}, dirty := if watcher then {} else s.dirty)
  }

  /** A call that is not interrupted has one of these three effects, in every state in which it can run. */
  lemma VisitIsARun(s: State, c: nat, i: Id, watcher: bool, o: Outcome)
    requires c !in s.calls && i in s.rows && s.rows[i] == Pending
    requires o != Untouched ==> i in s.settled
    requires o == Succeeds ==> i !in s.minted
    ensures Reaches(s, Visit(c, i, watcher, o), Visited(s, i, watcher, o))
  {
    hide Reaches;
    var s1 := Next(s, Look(c, i, watcher));
    var steps := Visit(c, i, watcher, o);
    match o {
      case Untouched =>
        var s2 := Next(s1, QuoteFails(c));
        assert s2.calls - {c} == s.calls;
        LastStep(s2, Leave(c));
        EarlierStep(s1, QuoteFails(c), [Leave(c)], s);
      case BreaksAfterMark =>
        var s2 := Next(s1, QuotePaid(c));
        assert s2.calls - {c} == s.calls;
        LastStep(s2, MintFails(c, false));
        EarlierStep(s1, QuotePaid(c), [MintFails(c, false)], Visited(s, i, watcher, o));
      case Succeeds => PaidVisit(s, c, i, watcher);
    }
    EarlierStep(s, Look(c, i, watcher), steps[1..], Visited(s, i, watcher, o));
  }

  lemma PaidVisit(s: State, c: nat, i: Id, watcher: bool)
    requires c !in s.calls && i in s.rows && s.rows[i] == Pending && i in s.settled && i !in s.minted
    ensures Reaches(Next(s, Look(c, i, watcher)), [QuotePaid(c), Mint(c), Credit(c)], Visited(s, i, watcher, Succeeds))
  {
    hide Reaches, Visited, Credited;
    var s1 := Next(s, Look(c, i, watcher));
    var s2 := Next(s1, QuotePaid(c));
    var s3 := Next(s2, Mint(c));
    var t := Visited(s, i, watcher, Succeeds);
    assert s3 == s.(calls := s.calls[c := Call(i, Holding, watcher)], minted := s.minted + {i});
    PaidEnd(s, c, i, watcher);
    LastStep(s3, Credit(c));
    EarlierStep(s2, Mint(c), [Credit(c)], t);
    assert [Mint(c)] + [Credit(c)] == [Mint(c), Credit(c)];
    EarlierStep(s1, QuotePaid(c), [Mint(c), Credit(c)], t);
    assert [QuotePaid(c)] + [Mint(c), Credit(c)] == [QuotePaid(c), Mint(c), Credit(c)];
  }

  lemma PaidEnd(s: State, c: nat, i: Id, watcher: bool)
    requires c !in s.calls && i in s.rows
    ensures Credited(s.(calls := s.calls[c := Call(i, Holding, watcher)], minted := s.minted + {i}), c) == Visited(s, i, watcher, Succeeds)
  {
    var u := Credited(s.(calls := s.calls[c := Call(i, Holding, watcher)], minted := s.minted + {i}), c);
    assert u.calls == s.calls && u.rows == Visited(s, i, watcher, Succeeds).rows;
  }

  lemma LastStep(s: State, step: Step)
    requires Enabled(s, step)
    ensures Reaches(s, [step], Next(s, step))
  {
    assert [step][1..] == [];
  }

  lemma EarlierStep(s: State, step: Step, steps: seq<Step>, t: State)
    requires Enabled(s, step) && Reaches(Next(s, step), steps, t)
    ensures Reaches(s, [step] + steps, t)
  {
    assert ([step] + steps)[1..] == steps;
  }

  class Watcher {
    var rows: map<Id, Status>
    var credits: multiset<Id>

    constructor (rows: map<Id, Status>, credits: multiset<Id>)
      ensures this.rows == rows && this.credits == credits
    {
      this.rows, this.credits := rows, credits;
    }

    /** One batch in one session: who is credited, and who ends up paid. */
    method WatchBatch(batch: seq<Id>, outcomes: seq<Outcome>)
      requires |outcomes| == |batch| && forall i :: i in batch ==> i in rows
      requires forall j, k :: 0 <= j < k < |batch| ==> batch[j] != batch[k]
      modifies this
      ensures rows.Keys == old(rows).Keys
      ensures forall i :: credits[i] == old(credits)[i] + (if PicksAt(batch, outcomes, |batch|, i, Succeeds) then 1 else 0)
      ensures forall i :: i in rows ==> rows[i] == if MarkedPaid(batch, outcomes, |batch|, i) then Paid else old(rows)[i]
    {
      var dirty: set<Id> := {};
      for n := 0 to |batch|
        invariant rows.Keys == old(rows).Keys
        invariant forall i :: Tallied(batch, outcomes, n, i, old(credits)[i], credits[i], i in dirty, RowOf(old(rows), i), RowOf(rows, i))
      {
        ghost var c, d, r := credits, dirty, rows;
        match outcomes[n] {
          case Untouched =>
          case BreaksAfterMark => dirty := dirty + {batch[n]};
          case Succeeds =>
            credits := credits + multiset{batch[n]};
            rows := PaidRows(rows, dirty + {batch[n]});
            dirty := {};
        }
        forall i
          ensures Tallied(batch, outcomes, n + 1, i, old(credits)[i], credits[i], i in dirty, RowOf(old(rows), i), RowOf(rows, i))
        {
          BatchStep(batch, outcomes, n, i, old(credits)[i], c[i], i in d, RowOf(old(rows), i), RowOf(r, i));
        }
      }
      forall i
        ensures credits[i] == old(credits)[i] + (if PicksAt(batch, outcomes, |batch|, i, Succeeds) then 1 else 0)
        ensures i in rows ==> rows[i] == if MarkedPaid(batch, outcomes, |batch|, i) then Paid else old(rows)[i]
      {
        assert Tallied(batch, outcomes, |batch|, i, old(credits)[i], credits[i], i in dirty, RowOf(old(rows), i), RowOf(rows, i));
      }
    }
  }

  function RowOf(rows: map<Id, Status>, i: Id): Option<Status> {
    if i in rows then Some(rows[i]) else None
  }

  /** One invoice after the first `n`: its credits, whether it is marked but uncommitted, and its row. */
  predicate Tallied(batch: seq<Id>, outcomes: seq<Outcome>, n: nat, i: Id, before: nat, credits: nat, marked: bool,
                    first: Option<Status>, row: Option<Status>)
    requires n <= |batch| == |outcomes|
  {
    && credits == before + (if PicksAt(batch, outcomes, n, i, Succeeds) then 1 else 0)
    && (marked <==> PicksAt(batch, outcomes, n, i, BreaksAfterMark) && !MarkedPaid(batch, outcomes, n, i))
    && row == if MarkedPaid(batch, outcomes, n, i) && first.Some? then Some(Paid) else first
  }

  lemma BatchStep(batch: seq<Id>, outcomes: seq<Outcome>, n: nat, i: Id, before: nat, credits: nat, marked: bool,
                  first: Option<Status>, row: Option<Status>)
    requires n < |batch| == |outcomes| && forall j, k :: 0 <= j < k < |batch| ==> batch[j] != batch[k]
    requires Tallied(batch, outcomes, n, i, before, credits, marked, first, row)
    ensures var mine, won := i == batch[n], outcomes[n] == Succeeds;
      Tallied(batch, outcomes, n + 1, i, before, if mine && won then credits + 1 else credits,
              !won && (marked || (mine && outcomes[n] == BreaksAfterMark)),
              first, if won && (mine || marked) && row.Some? then Some(Paid) else row)
  {
    PicksOneMore(batch, outcomes, n, i, Succeeds);
    PicksOneMore(batch, outcomes, n, i, BreaksAfterMark);
    NewInBatch(batch, outcomes, n, Succeeds);
    NewInBatch(batch, outcomes, n, BreaksAfterMark);
    PickedOrMarked(batch, outcomes, n, i);
    MarkedByCommit(batch, outcomes, n, i);
    assert Picks(batch, outcomes, n, i, Succeeds) <==> i == batch[n] && outcomes[n] == Succeeds;
    assert Picks(batch, outcomes, n, i, BreaksAfterMark) <==> i == batch[n] && outcomes[n] == BreaksAfterMark;
  }

  /** Among the first `n` of the batch the invoice has this outcome. */
  predicate PicksAt(batch: seq<Id>, outcomes: seq<Outcome>, n: nat, i: Id, o: Outcome)
    requires n <= |batch| == |outcomes|
  {
    exists k :: 0 <= k < n && Picks(batch, outcomes, k, i, o)
  }

  predicate Picks(batch: seq<Id>, outcomes: seq<Outcome>, k: nat, i: Id, o: Outcome)
    requires k < |batch| == |outcomes|
  {
    batch[k] == i && outcomes[k] == o
  }

  /** The invoice succeeds, or breaks after being marked and a later invoice of the first `n` succeeds. */
  predicate MarkedPaid(batch: seq<Id>, outcomes: seq<Outcome>, n: nat, i: Id)
    requires n <= |batch| == |outcomes|
  {
    exists k :: 0 <= k < n && MarkedAt(batch, outcomes, k, n, i)
  }

  predicate MarkedAt(batch: seq<Id>, outcomes: seq<Outcome>, k: nat, n: nat, i: Id)
    requires k < n <= |batch| == |outcomes|
  {
    batch[k] == i && outcomes[k] != Untouched && exists m :: k <= m < n && outcomes[m] == Succeeds
  }

  lemma MarkedGrows(batch: seq<Id>, outcomes: seq<Outcome>, k: nat, n: nat, i: Id)
    requires k < n < |batch| == |outcomes|
    ensures MarkedAt(batch, outcomes, k, n + 1, i) <==>
      MarkedAt(batch, outcomes, k, n, i) || (batch[k] == i && outcomes[k] != Untouched && outcomes[n] == Succeeds)
  {
    if batch[k] == i && outcomes[k] != Untouched && outcomes[n] == Succeeds {
      assert k <= n < n + 1 && outcomes[n] == Succeeds;
    }
  }

  lemma PickedOrMarked(batch: seq<Id>, outcomes: seq<Outcome>, n: nat, i: Id)
    requires n <= |batch| == |outcomes|
    ensures PicksAt(batch, outcomes, n, i, Succeeds) ==> MarkedPaid(batch, outcomes, n, i)
    ensures MarkedPaid(batch, outcomes, n, i) ==>
      PicksAt(batch, outcomes, n, i, Succeeds) || PicksAt(batch, outcomes, n, i, BreaksAfterMark)
  {
    if PicksAt(batch, outcomes, n, i, Succeeds) {
      var k :| 0 <= k < n && Picks(batch, outcomes, k, i, Succeeds);
      assert MarkedAt(batch, outcomes, k, n, i);
    }
    if MarkedPaid(batch, outcomes, n, i) {
      var k :| 0 <= k < n && MarkedAt(batch, outcomes, k, n, i);
      assert Picks(batch, outcomes, k, i, outcomes[k]);
    }
  }

  lemma MarkedByCommit(batch: seq<Id>, outcomes: seq<Outcome>, n: nat, i: Id)
    requires n < |batch| == |outcomes|
    ensures MarkedPaid(batch, outcomes, n + 1, i) <==>
      MarkedPaid(batch, outcomes, n, i) || (outcomes[n] == Succeeds && (i == batch[n] || PicksAt(batch, outcomes, n, i, BreaksAfterMark)))
  {
    forall k | 0 <= k < n
      ensures MarkedAt(batch, outcomes, k, n + 1, i) <==>
        MarkedAt(batch, outcomes, k, n, i) || (batch[k] == i && outcomes[k] != Untouched && outcomes[n] == Succeeds)
    {
      MarkedGrows(batch, outcomes, k, n, i);
    }
    assert MarkedAt(batch, outcomes, n, n + 1, i) <==> i == batch[n] && outcomes[n] == Succeeds;
    if MarkedPaid(batch, outcomes, n + 1, i) {
      var k :| 0 <= k < n + 1 && MarkedAt(batch, outcomes, k, n + 1, i);
      if k < n && !MarkedAt(batch, outcomes, k, n, i) {
        assert Picks(batch, outcomes, k, i, outcomes[k]);
        PickedOrMarked(batch, outcomes, n, i);
      }
    }
    if MarkedPaid(batch, outcomes, n, i) {
      var k :| 0 <= k < n && MarkedAt(batch, outcomes, k, n, i);
      assert MarkedAt(batch, outcomes, k, n + 1, i);
    }
    if outcomes[n] == Succeeds && PicksAt(batch, outcomes, n, i, BreaksAfterMark) {
      var k :| 0 <= k < n && Picks(batch, outcomes, k, i, BreaksAfterMark);
      assert MarkedAt(batch, outcomes, k, n + 1, i);
    }
  }

  lemma NewInBatch(batch: seq<Id>, outcomes: seq<Outcome>, n: nat, o: Outcome)
    requires n < |batch| == |outcomes| && forall j, k :: 0 <= j < k < |batch| ==> batch[j] != batch[k]
    ensures !PicksAt(batch, outcomes, n, batch[n], o)
  {
  }

  lemma PicksOneMore(batch: seq<Id>, outcomes: seq<Outcome>, n: nat, i: Id, o: Outcome)
    requires n < |batch| == |outcomes|
    ensures PicksAt(batch, outcomes, n + 1, i, o) <==> PicksAt(batch, outcomes, n, i, o) || Picks(batch, outcomes, n, i, o)
  {
  }
}
