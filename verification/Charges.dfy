/** The pure money arithmetic of the contract: what a run costs in NEAR, what is held for its input,
    what a priced operation costs in stablecoin and how that is divided. */
module Charges {
  import opened Options

  // ---- NEAR ----

  const STORAGE_PRICE_PER_BYTE: nat := 10_000_000_000_000_000_000
  const INPUT_DATA_FREE_BYTES: nat := 32 * 1024
  const U64_MAX: nat := 0xFFFF_FFFF_FFFF_FFFF

  datatype Fees = Fees(base: nat, perMillionInstructions: nat, perMs: nat, perCompileMs: nat)

  datatype Limits = Limits(maxInstructions: Option<nat>, maxMemoryMb: Option<nat>, maxSeconds: Option<nat>)

  datatype Metrics = Metrics(instructions: nat, timeMs: nat, compileMs: Option<nat>)

  const DEFAULT_LIMITS := Limits(Some(1_000_000_000), Some(128), Some(60))

  function SaturatingSub(a: nat, b: nat): (r: nat)
    ensures r <= a && (b <= a ==> r + b == a) && (a <= b ==> r == 0)
  {
    if a >= b then a - b else 0
  }

  function Min(a: nat, b: nat): (r: nat)
    ensures r <= a && r <= b && (r == a || r == b)
  {
    if a <= b then a else b
  }

  /** The deposit held for an input while its request is pending. */
  function InputStorageDeposit(len: nat): nat {
    SaturatingSub(len, INPUT_DATA_FREE_BYTES) * STORAGE_PRICE_PER_BYTE
  }

  /** `calculate_cost`: what the reported metrics cost. */
  function Cost(f: Fees, m: Metrics): nat {
    f.base + m.instructions / 1_000_000 * f.perMillionInstructions + m.timeMs * f.perMs
      + m.compileMs.GetOr(0) * f.perCompileMs
  }

  /** `estimate_cost`: the most a run within the limits costs, compilation aside. */
  function Estimate(f: Fees, l: Limits): nat {
    f.base + l.maxInstructions.GetOr(1_000_000_000) / 1_000_000 * f.perMillionInstructions
      + l.maxSeconds.GetOr(60) * 1000 * f.perMs
  }

  /** The 64-bit product inside `estimate_cost` does not overflow. */
  predicate EstimateIsDefined(l: Limits) {
    l.maxSeconds.GetOr(60) * 1000 <= U64_MAX
  }

  predicate FeesAtMost(f: Fees, g: Fees) {
    && f.base <= g.base && f.perMillionInstructions <= g.perMillionInstructions
    && f.perMs <= g.perMs && f.perCompileMs <= g.perCompileMs
  }

  lemma MulMonotone(a: nat, b: nat, p: nat, q: nat)
    requires a <= b && p <= q
    ensures a * p <= b * q
  {
    assert a * p <= b * p;
    assert b * p <= b * q;
  }

  lemma EstimateIsMonotone(f: Fees, g: Fees, l: Limits)
    requires FeesAtMost(f, g)
    ensures Estimate(f, l) <= Estimate(g, l)
    ensures f.base <= Estimate(f, l)
  {
    var i, t := l.maxInstructions.GetOr(1_000_000_000) / 1_000_000, l.maxSeconds.GetOr(60) * 1000;
    MulMonotone(i, i, f.perMillionInstructions, g.perMillionInstructions);
    MulMonotone(t, t, f.perMs, g.perMs);
  }

  /** A run that stayed within its limits and compiled nothing costs no more than the estimate its
      caller paid. */
  lemma EstimateCoversRun(f: Fees, l: Limits, m: Metrics)
    requires m.instructions <= l.maxInstructions.GetOr(1_000_000_000)
    requires m.timeMs <= l.maxSeconds.GetOr(60) * 1000 && m.compileMs.GetOr(0) == 0
    ensures Cost(f, m) <= Estimate(f, l)
  {
    var i := l.maxInstructions.GetOr(1_000_000_000) / 1_000_000;
    MulMonotone(m.instructions / 1_000_000, i, f.perMillionInstructions, f.perMillionInstructions);
    MulMonotone(m.timeMs, l.maxSeconds.GetOr(60) * 1000, f.perMs, f.perMs);
  }

  // ---- stablecoin ----

  type Account = string

  datatype OperationPrice = OperationPrice(operation: string, price: nat, shareBp: nat)

  datatype Pricing = Pricing(author: Account, operations: seq<OperationPrice>)

  /** The first row that names the operation. */
  function FindRow(ops: seq<OperationPrice>, name: string): (r: Option<OperationPrice>)
    ensures r.Some? ==> r.value in ops && r.value.operation == name
    ensures r.None? ==> forall o :: o in ops ==> o.operation != name
  {
    if ops == [] then None
    else if ops[0].operation == name then Some(ops[0])
    else FindRow(ops[1..], name)
  }

  /** `settle_attached`: what goes back to the caller and what is left for the developers. */
  function SettleAttached(attached: nat, price: nat, guestRefund: nat): (r: (nat, nat))
    ensures r.0 + r.1 == attached
    ensures r.1 == SaturatingSub(Min(price, attached), guestRefund)
  {
    var overpaid := SaturatingSub(attached, price);
    var chargeable := attached - overpaid;
    var guest := Min(guestRefund, chargeable);
    (overpaid + guest, chargeable - guest)
  }

  /** `split_payment`: the author's share, floored, and the rest. */
  function SplitPayment(paid: nat, shareBp: nat): (r: (nat, nat))
    ensures r.0 + r.1 == paid
    ensures 10_000 * r.0 <= paid * Min(shareBp, 10_000) < 10_000 * (r.0 + 1)
  {
    var bp := Min(shareBp, 10_000);
    assert paid * bp <= paid * 10_000 by { MulMonotone(paid, paid, bp, 10_000); }
    var author := paid * bp / 10_000;
    (author, paid - author)
  }
}
