/** NEAR taken in with calls and paid out by transfers, as history. */
module Purses {
  import opened Sums

  datatype Purse = Purse(paidIn: nat, paid: map<string, nat>)

  /** Take `attached` in and pay `refund` out to `recipient`. */
  function Move(p: Purse, attached: nat, recipient: string, refund: nat): Purse {
    Purse(p.paidIn + attached, if refund == 0 then p.paid else p.paid[recipient := Get(p.paid, recipient) + refund])
  }

  lemma MovePays(p: Purse, attached: nat, recipient: string, refund: nat)
    ensures Sum(Move(p, attached, recipient, refund).paid) == Sum(p.paid) + refund
  {
    SumUpdate(p.paid, recipient, Get(p.paid, recipient) + refund);
  }

  /** `attached` came in, `recipient` was paid `amount`, and nobody else was paid anything. */
  ghost predicate Pays(p: Purse, q: Purse, attached: nat, recipient: string, amount: nat) {
    && q.paidIn == p.paidIn + attached
    && forall a :: Get(q.paid, a) == Get(p.paid, a) + (if a == recipient then amount else 0)
  }

  lemma MovePaysOne(p: Purse, attached: nat, recipient: string, refund: nat)
    ensures Pays(p, Move(p, attached, recipient, refund), attached, recipient, refund)
  {
  }
}
