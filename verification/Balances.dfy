/** A running total per commodity; a commodity whose total is zero is absent. */
module Balances {
  import opened Prelude

  type Balances = m: map<Code, Decimal> | forall c :: c in m ==> m[c] != 0.0 witness map[]

  datatype Amount = Amount(value: Decimal, commodity: Code)

  /** The total held in `c`; zero when absent. */
  function Get(b: Balances, c: Code): Decimal {
    if c in b then b[c] else 0.0
  }

  /** Adds `amount` into its commodity's total, dropping the entry at zero. */
  function AddAmount(b: Balances, amount: Amount): (r: Balances)
    ensures forall c :: Get(r, c) == Get(b, c) + if c == amount.commodity then amount.value else 0.0
  {
    var total := Get(b, amount.commodity) + amount.value;
    if total == 0.0 then b - {amount.commodity} else b[amount.commodity := total]
  }

  /** Every entry of `b` added into `a`. */
  function Plus(a: Balances, b: Balances): (r: Balances)
    ensures forall c :: Get(r, c) == Get(a, c) + Get(b, c)
  {
    map c | c in a.Keys + b.Keys && Get(a, c) + Get(b, c) != 0.0 :: Get(a, c) + Get(b, c)
  }

  /** Totals that agree in every commodity are the same. */
  lemma SameTotalsAreEqual(a: Balances, b: Balances)
    requires forall c :: Get(a, c) == Get(b, c)
    ensures a == b
  {
    forall c ensures c in a <==> c in b {
      assert Get(a, c) == Get(b, c);
    }
    assert a.Keys == b.Keys;
    forall c | c in a ensures a[c] == b[c] {
      assert Get(a, c) == Get(b, c);
    }
  }
}
