/** Swapping a token of another mint to the primary mint, and crediting what arrived. */
module Swap {
  import opened Wrappers

  datatype Unit = Sat | Msat | Unknown

  datatype Error = SeveralKeysets | InvalidUnit | SplitFailed | FeesExceedAmount | QuoteFailed | Insufficient | MeltFailed
    | Unrecoverable | MintFailed | NothingRedeemed

  /** A mint's quote for melting, in the token's unit. */
  datatype MeltQuote = MeltQuote(amount: nat, feeReserve: nat)

  /** Minting on the primary mint: done; outputs already signed, with the wallet balance before and after the
      recovery scan (None: the scan failed); or failed otherwise. */
  datatype MintOutcome = Minted | AlreadySigned(before: int, after: Option<int>) | Failed

  /** What the mints answer; None is an exception. Estimate and quote are asked separately and may differ. */
  datatype World = World(
    splits: bool,
    estimate: Option<MeltQuote>,
    quote: Option<MeltQuote>,
    inputFees: nat,
    melts: bool,
    mint: MintOutcome)

  /** `trusted`: its mint is one the node accepts tokens of; `foreign`: its mint is not the primary one. */
  datatype Token = Token(amount: int, unit: Unit, keysets: nat, trusted: bool, foreign: bool)

  /** Tokens now held, in the given unit. */
  datatype Received = Received(amount: int, unit: Unit)

  function Factor(u: Unit): nat {
    if u == Sat then 1000 else 1
  }

  /** The token's value in msats. */
  function Value(t: Token): int {
    t.amount * Factor(t.unit)
  }

  /** The estimated cost of the swap in msats: melt fee reserve and input fees (NUT-02). */
  function EstimatedFees(t: Token, w: World): nat
    requires w.estimate.Some?
  {
    (w.estimate.value.feeReserve + w.inputFees) * Factor(t.unit)
  }

  /** Whole primary units left of the token once the estimated fees are taken off. */
  predicate Affordable(t: Token, w: World, primary: Unit) {
    w.estimate.Some? && Value(t) - EstimatedFees(t, w) >= Factor(primary)
  }

  /** `whole` is how often `factor` fits into `left`. */
  predicate IsWhole(left: int, factor: nat, whole: int) {
    whole * factor <= left < (whole + 1) * factor
  }

  /** The amount to mint for a token worth `amountMsat`; a token of the primary mint is not charged for. */
  method CalculateSwapAmount(amountMsat: int, t: Token, w: World, primary: Unit) returns (r: Result<int, Error>)
    ensures !t.foreign ==> r.Success? && IsWhole(amountMsat, Factor(primary), r.value)
    ensures t.foreign ==> (r.Success? <==> w.estimate.Some? && amountMsat - EstimatedFees(t, w) >= Factor(primary))
    ensures t.foreign && r.Success? ==> r.value > 0 && IsWhole(amountMsat - EstimatedFees(t, w), Factor(primary), r.value)
    ensures t.foreign && r.Failure? ==> r.error == if w.estimate.Some? then FeesExceedAmount else QuoteFailed
  {
    if !t.foreign {
      return Success(if primary == Sat then amountMsat / 1000 else amountMsat);
    }
    if w.estimate.None? {
      return Failure(QuoteFailed);
    }
    var fees := w.estimate.value.feeReserve + w.inputFees;
    var feeMsat := if t.unit == Sat then fees * 1000 else fees;
    var left := amountMsat - feeMsat;
    var minted := if primary == Sat then left / 1000 else left;
    if minted <= 0 {
      return Failure(FeesExceedAmount);
    }
    return Success(minted);
  }

  /** The wallet ends up holding the amount: it was minted, or the recovery scan gained at least as much. */
  predicate Holds(w: World, amount: int) {
    w.mint.Minted? || (w.mint.AlreadySigned? && w.mint.after.Some? && w.mint.after.value - w.mint.before >= amount)
  }

  /** The token pays the quoted melt, in its own unit. */
  predicate Covered(t: Token, w: World) {
    w.quote.Some? && w.quote.value.amount + w.quote.value.feeReserve + w.inputFees <= t.amount
  }

  /** The amount to mint for the token: the whole primary units left of it. */
  function WholeLeft(t: Token, w: World, primary: Unit): int
    requires w.estimate.Some?
  {
    (Value(t) - EstimatedFees(t, w)) / Factor(primary)
  }

  /** The swap goes through: something is left, the token pays the quoted melt, and the wallet gets the amount. */
  predicate Swappable(t: Token, w: World, primary: Unit) {
    Affordable(t, w, primary) && Covered(t, w) && w.melts && Holds(w, WholeLeft(t, w, primary))
  }

  /** Why a swap fails: before the melt, at the melt, or, worst, after it. */
  function WhyNot(t: Token, w: World, primary: Unit): Error {
    if w.estimate.None? then QuoteFailed
    else if !Affordable(t, w, primary) then FeesExceedAmount
    else if w.quote.None? then QuoteFailed
    else if !Covered(t, w) then Insufficient
    else if !w.melts then MeltFailed
    else if w.mint.Failed? then MintFailed
    else Unrecoverable
  }

  method SwapToPrimaryMint(t: Token, w: World, primary: Unit) returns (r: Result<Received, Error>)
    ensures t.unit == Unknown ==> r == Failure(InvalidUnit)
    ensures t.unit != Unknown && !t.foreign ==> r == if w.splits then Success(Received(t.amount, t.unit)) else Failure(SplitFailed)
    ensures t.unit != Unknown && t.foreign ==> (r.Success? <==> Swappable(t, w, primary))
    ensures t.unit != Unknown && t.foreign && r.Success? ==>
      && r.value.unit == primary && r.value.amount > 0 && r.value.amount == WholeLeft(t, w, primary)
      && 0 <= Value(t) - EstimatedFees(t, w) - r.value.amount * Factor(primary) < Factor(primary)
    ensures t.unit != Unknown && t.foreign && r.Failure? ==> r.error == WhyNot(t, w, primary)
  {
    if t.unit == Unknown {
      return Failure(InvalidUnit);
    }
    var amountMsat := if t.unit == Sat then t.amount * 1000 else t.amount;
    if !t.foreign {
      return if w.splits then Success(Received(t.amount, t.unit)) else Failure(SplitFailed);
    }
    var calculated := CalculateSwapAmount(amountMsat, t, w, primary);
    if calculated.Failure? {
      return Failure(calculated.error);
    }
    var minted := calculated.value;
    WholeUnits(Value(t) - EstimatedFees(t, w), Factor(primary), minted);
    if w.quote.None? {
      return Failure(QuoteFailed);
    }
    if w.quote.value.amount + w.quote.value.feeReserve + w.inputFees > t.amount {
      return Failure(Insufficient);
    }
    if !w.melts {
      return Failure(MeltFailed);
    }
    match w.mint {
      case Minted =>
      case AlreadySigned(before, after) =>
        if after.None? || after.value - before < minted {
          return Failure(Unrecoverable);
        }
      case Failed => return Failure(MintFailed);
    }
    return Success(Received(minted, primary));
  }

  lemma WholeUnits(left: int, factor: nat, whole: int)
    requires factor == 1 || factor == 1000
    requires IsWhole(left, factor, whole)
    ensures left / factor == whole
  {
  }

  /** The token is not swapped: what counts is its face value, msats unless its unit is sat. */
  predicate Direct(t: Token) {
    t.trusted || !t.foreign
  }

  /** The node accepts the token: one keyset, and redeemed at its own mint, or of a known unit and swapped. */
  predicate Accepted(t: Token, w: World, primary: Unit) {
    && t.keysets <= 1
    && (if t.trusted then w.splits
        else t.unit != Unknown && if t.foreign then Swappable(t, w, primary) else w.splits)
  }

  /** A token of a trusted mint is redeemed there, whatever its unit; any other is swapped. */
  method ReceiveToken(t: Token, w: World, primary: Unit) returns (r: Result<Received, Error>)
    ensures r.Success? <==> Accepted(t, w, primary)
    ensures r == Failure(SeveralKeysets) <==> t.keysets > 1
    ensures r == Failure(InvalidUnit) <==> t.keysets <= 1 && !t.trusted && t.unit == Unknown
    ensures r == Failure(SplitFailed) <==> t.keysets <= 1 && Direct(t) && !w.splits && (t.trusted || t.unit != Unknown)
    ensures t.keysets <= 1 && t.unit != Unknown && !Direct(t) && r.Failure? ==> r.error == WhyNot(t, w, primary)
    ensures r.Success? && Direct(t) ==> r.value == Received(t.amount, t.unit)
    ensures r.Success? && !Direct(t) ==>
      && r.value.unit == primary && r.value.amount > 0 && r.value.amount == WholeLeft(t, w, primary)
      && 0 <= Value(t) - EstimatedFees(t, w) - r.value.amount * Factor(primary) < Factor(primary)
  {
    if t.keysets > 1 {
      return Failure(SeveralKeysets);
    }
    if t.trusted {
      return if w.splits then Success(Received(t.amount, t.unit)) else Failure(SplitFailed);
    }
    r := SwapToPrimaryMint(t, w, primary);
  }

  /** Redeeming a token into a balance; nothing is credited unless the node received it. */
  method CreditBalance(balance: int, t: Token, w: World, primary: Unit) returns (r: Result<int, Error>, credited: int)
    ensures r.Success? <==> Accepted(t, w, primary) && (Direct(t) ==> Value(t) > 0)
    ensures r == Failure(NothingRedeemed) <==> Accepted(t, w, primary) && Direct(t) && Value(t) <= 0
    ensures r.Failure? ==> credited == 0
    ensures r.Success? ==> credited > 0 && r.value == balance + credited
    ensures r.Success? && Direct(t) ==> credited == Value(t)
    ensures r.Success? && !Direct(t) ==>
      && credited + EstimatedFees(t, w) <= Value(t) < credited + EstimatedFees(t, w) + Factor(primary)
      && w.melts && Holds(w, credited / Factor(primary)) && credited % Factor(primary) == 0
  {
    hide Affordable, Covered, WholeLeft;
    var received := ReceiveToken(t, w, primary);
    if received.Failure? {
      return Failure(received.error), 0;
    }
    var amount := if received.value.unit == Sat then received.value.amount * 1000 else received.value.amount;
    if amount <= 0 {
      return Failure(NothingRedeemed), 0;
    }
    if !Direct(t) {
      WholeUnits(amount, Factor(primary), received.value.amount);
    }
    return Success(balance + amount), amount;
  }
}
