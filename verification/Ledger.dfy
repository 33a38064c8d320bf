/**
 * The resolved-leg stream: transactions in ascending id order, each with its in-scope legs.
 * What the stream yields is taken as given; how residuals arise is not modelled.
 */
module Ledger {
  import opened Prelude
  import opened Seqs
  import opened Sums

  type TxId = nat

  datatype Source = Concrete | Residual | Ambiguous

  /** A name with its dense index, one index per name within a stream. */
  datatype Interned = Interned(index: nat, name: nat)

  datatype Leg = Leg(account: Interned, commodity: Option<Interned>, value: Decimal, source: Source)

  /** `touches` names every account with a posting, including one whose residual resolved to no leg. */
  datatype Transaction = Transaction(id: TxId, date: Date, touches: set<AccountId>, legs: seq<Leg>)

  predicate AscendingIds(stream: seq<Transaction>) {
    forall i, j :: 0 <= i < j < |stream| ==> stream[i].id < stream[j].id
  }

  /** Every leg's account is among those its transaction touches. */
  predicate LegsTouch(ledger: seq<Transaction>) {
    forall i, k :: 0 <= i < |ledger| && 0 <= k < |ledger[i].legs| ==> ledger[i].legs[k].account.name in ledger[i].touches
  }

  function OnAccounts(ids: set<AccountId>): Leg -> bool {
    (l: Leg) => l.account.name in ids
  }

  function Touching(ids: set<AccountId>): Transaction -> bool {
    (t: Transaction) => t.touches * ids != {}
  }

  function DatedIn(from: Date, to: Date): Transaction -> bool {
    (t: Transaction) => from <= t.date < to
  }

  function DatedBefore(until: Date): Transaction -> bool {
    (t: Transaction) => t.date < until
  }

  function Restrict(t: Transaction, ids: set<AccountId>): Transaction {
    t.(legs := Filter(t.legs, OnAccounts(ids)))
  }

  /** The stream over the listed accounts: transactions touching them, their legs on them. */
  function InScope(ledger: seq<Transaction>, ids: set<AccountId>): seq<Transaction> {
    if ledger == [] then []
    else
      var rest, last := InScope(ledger[..|ledger| - 1], ids), ledger[|ledger| - 1];
      if Touching(ids)(last) then rest + [Restrict(last, ids)] else rest
  }

  /** Every leg of a stream, in stream order. */
  function Legs(stream: seq<Transaction>): seq<Leg> {
    if stream == [] then [] else Legs(stream[..|stream| - 1]) + stream[|stream| - 1].legs
  }

  predicate In(l: Leg, c: Code) {
    l.commodity.Some? && l.commodity.value.name == c
  }

  /** A leg's value, counted only in commodity `c`. */
  function ValueIn(c: Code): Leg -> real {
    (l: Leg) => if In(l, c) then l.value else 0.0
  }

  function InCode(c: Code): Leg -> bool {
    (l: Leg) => In(l, c)
  }

  /** The values of the legs in commodity `c`. */
  function ValuesIn(legs: seq<Leg>, c: Code): seq<Decimal> {
    if legs == [] then []
    else
      var rest, last := ValuesIn(legs[..|legs| - 1], c), legs[|legs| - 1];
      if In(last, c) then rest + [last.value] else rest
  }

  function Itself(): real -> real {
    (x: real) => x
  }

  lemma {:induction false} ValuesSum(legs: seq<Leg>, c: Code)
    ensures Sum(ValuesIn(legs, c), Itself()) == Sum(legs, ValueIn(c))
  {
    if legs == [] {
    } else {
      ValuesSum(legs[..|legs| - 1], c);
      if In(legs[|legs| - 1], c) {
        SumAppend(ValuesIn(legs[..|legs| - 1], c), legs[|legs| - 1].value, Itself());
      }
    }
  }

  /** What the stream holds in commodity `c`. */
  function BalanceIn(stream: seq<Transaction>, c: Code): Decimal {
    Sum(Legs(stream), ValueIn(c))
  }

  /** Restricting the stream to a scope keeps exactly the legs on it. */
  lemma {:induction false} ScopeKeepsItsLegs(ledger: seq<Transaction>, ids: set<AccountId>)
    requires LegsTouch(ledger)
    ensures Legs(InScope(ledger, ids)) == Filter(Legs(ledger), OnAccounts(ids))
  {
    if ledger == [] {
    } else {
      var init, last := ledger[..|ledger| - 1], ledger[|ledger| - 1];
      ScopeKeepsItsLegs(init, ids);
      FilterConcat(Legs(init), last.legs, OnAccounts(ids));
      if Touching(ids)(last) {
        LegsAppend(InScope(init, ids), Restrict(last, ids));
      } else {
        forall k | 0 <= k < |last.legs| ensures !OnAccounts(ids)(last.legs[k]) {
          assert ledger[|ledger| - 1].legs[k].account.name in last.touches;
          var name := last.legs[k].account.name;
          assert (name in last.touches * ids) == (name in ids);
        }
        FilterNothing(last.legs, OnAccounts(ids));
      }
    }
  }

  lemma LegsAppend(stream: seq<Transaction>, t: Transaction)
    ensures Legs(stream + [t]) == Legs(stream) + t.legs
  {
    assert (stream + [t])[..|stream|] == stream;
  }

  lemma {:induction false} ScopeMembers(ledger: seq<Transaction>, ids: set<AccountId>, k: nat)
    requires k < |InScope(ledger, ids)|
    ensures exists i :: 0 <= i < |ledger| && InScope(ledger, ids)[k].id == ledger[i].id
  {
    var init, last := ledger[..|ledger| - 1], ledger[|ledger| - 1];
    if k < |InScope(init, ids)| {
      ScopeMembers(init, ids, k);
      var i :| 0 <= i < |init| && InScope(init, ids)[k].id == init[i].id;
      assert ledger[i] == init[i];
    }
  }

  lemma {:induction false} ScopeAscends(ledger: seq<Transaction>, ids: set<AccountId>)
    requires AscendingIds(ledger)
    ensures AscendingIds(InScope(ledger, ids))
  {
    if ledger == [] {
    } else {
      var init, last := ledger[..|ledger| - 1], ledger[|ledger| - 1];
      ScopeAscends(init, ids);
      forall k | 0 <= k < |InScope(init, ids)| ensures InScope(init, ids)[k].id < last.id {
        ScopeMembers(init, ids, k);
        var i :| 0 <= i < |init| && InScope(init, ids)[k].id == init[i].id;
        assert ledger[i] == init[i];
      }
    }
  }

  /** The running balance of one account in one commodity, leg by leg over its own stream. */
  method BalanceFor(ledger: seq<Transaction>, account: AccountId, c: Code) returns (total: Decimal)
    ensures total == BalanceIn(InScope(ledger, {account}), c)
  {
    var stream := InScope(ledger, {account});
    total := 0.0;
    for i := 0 to |stream|
      invariant total == BalanceIn(stream[..i], c)
    {
      var values := ValuesIn(stream[i].legs, c);
      ghost var before := total;
      for k := 0 to |values|
        invariant total == before + Sum(values[..k], Itself())
      {
        total := total + values[k];
        assert values[..k + 1] == values[..k] + [values[k]];
        SumAppend(values[..k], values[k], Itself());
      }
      assert values[..|values|] == values;
      ValuesSum(stream[i].legs, c);
      assert stream[..i + 1] == stream[..i] + [stream[i]];
      LegsAppend(stream[..i], stream[i]);
      SumConcat(Legs(stream[..i]), stream[i].legs, ValueIn(c));
    }
    assert stream[..|stream|] == stream;
  }
}
