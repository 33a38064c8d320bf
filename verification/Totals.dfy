/** Every account's own totals and default commodity, from one pass over the ledger. */
module Totals {
  import opened Prelude
  import opened Sums
  import opened Seqs
  import opened Balances
  import opened Ledger

  /** One account as the totals query reads it; commodities are keyed by their stored position. */
  datatype AccountRow = AccountRow(parent: Option<AccountId>, active: bool, commodities: map<nat, Code>)

  /** One account's own totals: balances, concrete-leg counts, and the first residual commodity. */
  datatype OwnTotals = OwnTotals(balances: Balances, counts: seq<(Code, nat)>, firstResidual: Option<Code>)

  datatype AccountTotals = AccountTotals(accounts: map<AccountId, AccountRow>, own: map<AccountId, OwnTotals>)
  {
    /** Configured at position zero, else most used, else the first residual commodity. */
    function DefaultCommodity(id: AccountId): Option<Code>
      requires id in accounts
    {
      if 0 in accounts[id].commodities then Some(accounts[id].commodities[0])
      else if id !in own then None
      else if own[id].counts == [] then own[id].firstResidual
      else Some(MostUsed(own[id].counts))
    }

    /** Each active account's balance in its default commodity. */
    function Defaults(): map<AccountId, Amount> {
      map id | id in accounts && accounts[id].active && DefaultCommodity(id).Some? ::
        var code := DefaultCommodity(id).value;
        Amount(if id in own then Get(own[id].balances, code) else 0.0, code)
    }
  }

  /** The code of the last largest entry: by count, then by lower code. */
  function MostUsed(counts: seq<(Code, nat)>): (code: Code)
    requires counts != []
    ensures exists i :: 0 <= i < |counts| && counts[i].0 == code
                        && forall j :: 0 <= j < |counts| ==>
                             counts[j].1 < counts[i].1 || (counts[j].1 == counts[i].1 && code <= counts[j].0)
  {
    var best := MostUsedIndex(counts, |counts|);
    counts[best].0
  }

  function MostUsedIndex(counts: seq<(Code, nat)>, n: nat): (i: nat)
    requires 0 < n <= |counts|
    ensures i < n
    ensures forall j :: 0 <= j < n ==>
              counts[j].1 < counts[i].1 || (counts[j].1 == counts[i].1 && counts[i].0 <= counts[j].0)
  {
    if n == 1 then 0
    else
      var best, next := MostUsedIndex(counts, n - 1), n - 1;
      if counts[next].1 > counts[best].1 || (counts[next].1 == counts[best].1 && counts[next].0 <= counts[best].0)
      then next else best
  }

  // ----- What the totals of one account's legs are -----

  function ConcreteIn(c: Code): Leg -> bool {
    (l: Leg) => l.source.Concrete? && In(l, c)
  }

  /** How many concrete legs are in commodity `c`. */
  function Uses(legs: seq<Leg>, c: Code): nat {
    |Filter(legs, ConcreteIn(c))|
  }

  function FirstResidual(legs: seq<Leg>): Option<Code> {
    if legs == [] then None
    else
      var earlier, last := FirstResidual(legs[..|legs| - 1]), legs[|legs| - 1];
      if earlier.Some? then earlier
      else if last.source.Residual? && last.commodity.Some? then Some(last.commodity.value.name)
      else None
  }

  lemma FirstResidualAppend(legs: seq<Leg>, leg: Leg)
    ensures FirstResidual(legs + [leg]) ==
            if FirstResidual(legs).Some? then FirstResidual(legs)
            else if leg.source.Residual? && leg.commodity.Some? then Some(leg.commodity.value.name)
            else None
  {
    assert (legs + [leg])[..|legs|] == legs;
  }

  /** `code` has the most concrete legs, ties going to the lowest code. */
  ghost predicate IsMostUsed(legs: seq<Leg>, code: Code) {
    && Uses(legs, code) > 0
    && forall d :: Uses(legs, d) < Uses(legs, code) || (Uses(legs, d) == Uses(legs, code) && code <= d)
  }

  ghost predicate CountsUses(counts: seq<(Code, nat)>, legs: seq<Leg>) {
    && (forall i :: 0 <= i < |counts| ==> counts[i].1 == Uses(legs, counts[i].0) > 0)
    && (forall c :: Uses(legs, c) > 0 ==> Counted(counts, c))
  }

  ghost predicate Counted(counts: seq<(Code, nat)>, c: Code) {
    exists i :: 0 <= i < |counts| && counts[i].0 == c
  }

  ghost predicate IsOwn(own: OwnTotals, legs: seq<Leg>) {
    && (forall c :: Get(own.balances, c) == Sum(legs, ValueIn(c)))
    && CountsUses(own.counts, legs)
    && own.firstResidual == FirstResidual(legs)
  }

  lemma MostUsedIsMostUsed(counts: seq<(Code, nat)>, legs: seq<Leg>)
    requires counts != [] && CountsUses(counts, legs)
    ensures IsMostUsed(legs, MostUsed(counts))
  {
    var code := MostUsed(counts);
    var i :| 0 <= i < |counts| && counts[i].0 == code
             && forall j :: 0 <= j < |counts| ==>
                  counts[j].1 < counts[i].1 || (counts[j].1 == counts[i].1 && code <= counts[j].0);
    forall d ensures Uses(legs, d) < Uses(legs, code) || (Uses(legs, d) == Uses(legs, code) && code <= d) {
      if Uses(legs, d) > 0 {
        var j :| 0 <= j < |counts| && counts[j].0 == d;
      }
    }
  }

  lemma MostUsedIsUnique(legs: seq<Leg>, c: Code, d: Code)
    requires IsMostUsed(legs, c) && IsMostUsed(legs, d)
    ensures c == d
  {
    assert Uses(legs, d) <= Uses(legs, c) && Uses(legs, c) <= Uses(legs, d);
  }

  // ----- One account's running sums -----

  /** Each index stands for one name, among accounts and among commodities. */
  ghost predicate InternedOnce(legs: seq<Leg>) {
    forall i, j :: 0 <= i < |legs| && 0 <= j < |legs| ==> SameNames(legs[i], legs[j])
  }

  predicate SameNames(l: Leg, m: Leg) {
    && (l.account.index == m.account.index <==> l.account.name == m.account.name)
    && (l.commodity.Some? && m.commodity.Some? ==>
          (l.commodity.value.index == m.commodity.value.index <==> l.commodity.value.name == m.commodity.value.name))
  }

  type Entries = seq<(Interned, Decimal, nat)>

  ghost predicate Seen(legs: seq<Leg>, c: Interned) {
    exists k :: 0 <= k < |legs| && legs[k].commodity == Some(c)
  }

  ghost predicate Listed(sums: Entries, c: Interned) {
    exists i :: 0 <= i < |sums| && sums[i].0 == c
  }

  /** One entry per commodity seen, holding its running sum and its concrete-leg count. */
  ghost predicate Tallies(sums: Entries, legs: seq<Leg>) {
    && (forall i, j :: 0 <= i < j < |sums| ==> sums[i].0.name != sums[j].0.name)
    && (forall i :: 0 <= i < |sums| ==> EntryTallies(sums[i], legs))
    && (forall k :: 0 <= k < |legs| && legs[k].commodity.Some? ==> Listed(sums, legs[k].commodity.value))
  }

  ghost predicate EntryTallies(entry: (Interned, Decimal, nat), legs: seq<Leg>) {
    && Seen(legs, entry.0)
    && entry.1 == Sum(legs, ValueIn(entry.0.name))
    && entry.2 == Uses(legs, entry.0.name)
  }

  lemma EntryStep(entry: (Interned, Decimal, nat), legs: seq<Leg>, leg: Leg)
    requires entry.1 == Sum(legs, ValueIn(entry.0.name)) && entry.2 == Uses(legs, entry.0.name)
    requires Seen(legs, entry.0) || leg.commodity == Some(entry.0)
    ensures EntryTallies((entry.0, entry.1 + ValueIn(entry.0.name)(leg),
                          entry.2 + if ConcreteIn(entry.0.name)(leg) then 1 else 0), legs + [leg])
  {
    SumAppend(legs, leg, ValueIn(entry.0.name));
    FilterAppend(legs, leg, ConcreteIn(entry.0.name));
    if Seen(legs, entry.0) {
      var k :| 0 <= k < |legs| && legs[k].commodity == Some(entry.0);
      assert (legs + [leg])[k].commodity == Some(entry.0);
    } else {
      assert (legs + [leg])[|legs|].commodity == Some(entry.0);
    }
  }

  /** A listed commodity has the leg's index exactly when it has the leg's name. */
  lemma ListedNamesMatch(sums: Entries, legs: seq<Leg>, leg: Leg, i: nat)
    requires Tallies(sums, legs) && InternedOnce(legs + [leg])
    requires leg.commodity.Some? && i < |sums|
    ensures sums[i].0.index == leg.commodity.value.index <==> sums[i].0.name == leg.commodity.value.name
  {
    assert EntryTallies(sums[i], legs);
    var k :| 0 <= k < |legs| && legs[k].commodity == Some(sums[i].0);
    assert SameNames((legs + [leg])[k], (legs + [leg])[|legs|]);
  }

  /** Where the leg's commodity is listed, or one past the end, as the slot search finds it. */
  ghost predicate FoundAt(sums: Entries, leg: Leg, index: nat)
    requires leg.commodity.Some?
  {
    && index <= |sums|
    && (forall i :: 0 <= i < index ==> sums[i].0.index != leg.commodity.value.index)
    && (index < |sums| ==> sums[index].0.index == leg.commodity.value.index)
  }

  function Bumped(sums: Entries, leg: Leg, index: nat): Entries
    requires leg.commodity.Some? && index <= |sums|
  {
    var room := if index == |sums| then sums + [(leg.commodity.value, 0.0, 0)] else sums;
    room[index := (room[index].0, room[index].1 + leg.value, room[index].2 + if leg.source.Concrete? then 1 else 0)]
  }

  lemma TalliesStep(sums: Entries, legs: seq<Leg>, leg: Leg, index: nat)
    requires Tallies(sums, legs) && InternedOnce(legs + [leg])
    requires leg.commodity.Some? && FoundAt(sums, leg, index)
    ensures Tallies(Bumped(sums, leg, index), legs + [leg])
  {
    var c, after := leg.commodity.value, Bumped(sums, leg, index);
    forall i | 0 <= i < |sums| ensures sums[i].0.index == c.index <==> sums[i].0.name == c.name {
      ListedNamesMatch(sums, legs, leg, i);
    }
    assert forall i :: 0 <= i < |after| ==> after[i].0 == if i < |sums| then sums[i].0 else c;
    BumpedEntriesTally(sums, legs, leg, index);
    BumpedListsAll(sums, legs, leg, index);
  }

  lemma BumpedEntriesTally(sums: Entries, legs: seq<Leg>, leg: Leg, index: nat)
    requires Tallies(sums, legs)
    requires leg.commodity.Some? && FoundAt(sums, leg, index)
    requires forall i :: 0 <= i < |sums| ==> (sums[i].0.index == leg.commodity.value.index <==> In(leg, sums[i].0.name))
    ensures forall i :: 0 <= i < |Bumped(sums, leg, index)| ==> EntryTallies(Bumped(sums, leg, index)[i], legs + [leg])
  {
    hide EntryTallies;
    var c, after := leg.commodity.value, Bumped(sums, leg, index);
    forall i | 0 <= i < |after| ensures EntryTallies(after[i], legs + [leg]) {
      if i < |sums| {
        EntryTalliesStep(sums[i], legs, leg);
        assert In(leg, sums[i].0.name) <==> i == index;
      } else {
        UnlistedIsUnused(sums, legs, c.name);
        EntryStep((c, 0.0, 0), legs, leg);
      }
    }
  }

  lemma EntryTalliesStep(entry: (Interned, Decimal, nat), legs: seq<Leg>, leg: Leg)
    requires EntryTallies(entry, legs)
    ensures EntryTallies((entry.0, entry.1 + ValueIn(entry.0.name)(leg),
                          entry.2 + if ConcreteIn(entry.0.name)(leg) then 1 else 0), legs + [leg])
  {
    EntryStep(entry, legs, leg);
  }

  lemma BumpedListsAll(sums: Entries, legs: seq<Leg>, leg: Leg, index: nat)
    requires Tallies(sums, legs) && InternedOnce(legs + [leg])
    requires leg.commodity.Some? && FoundAt(sums, leg, index)
    ensures forall k :: 0 <= k < |legs + [leg]| && (legs + [leg])[k].commodity.Some? ==>
              Listed(Bumped(sums, leg, index), (legs + [leg])[k].commodity.value)
  {
    var c, after := leg.commodity.value, Bumped(sums, leg, index);
    assert forall i :: 0 <= i < |sums| ==> after[i].0 == sums[i].0;
    forall k | 0 <= k < |legs + [leg]| && (legs + [leg])[k].commodity.Some?
      ensures Listed(after, (legs + [leg])[k].commodity.value)
    {
      if k < |legs| {
        assert Listed(sums, legs[k].commodity.value);
        var i :| 0 <= i < |sums| && sums[i].0 == legs[k].commodity.value;
        assert after[i].0 == sums[i].0;
      } else {
        if index < |sums| {
          ListedNamesMatch(sums, legs, leg, index);
        }
        assert after[index].0 == c;
      }
    }
  }

  lemma UnlistedIsUnused(sums: Entries, legs: seq<Leg>, c: Code)
    requires Tallies(sums, legs)
    requires forall i :: 0 <= i < |sums| ==> sums[i].0.name != c
    ensures Sum(legs, ValueIn(c)) == 0.0 && Uses(legs, c) == 0
  {
    forall k | 0 <= k < |legs| ensures !In(legs[k], c) {
      if legs[k].commodity.Some? {
        var i :| 0 <= i < |sums| && sums[i].0 == legs[k].commodity.value;
      }
    }
    SumOfZeros(legs, ValueIn(c));
    FilterNothing(legs, ConcreteIn(c));
  }

  class TotalsSlot {
    const account: Interned
    /** Per commodity, in first-seen order: running sum and concrete-leg count. */
    var sums: Entries
    var firstResidual: Option<Interned>
    /** The legs folded so far. */
    ghost var legs: seq<Leg>

    ghost predicate Valid()
      reads this
    {
      && Tallies(sums, legs)
      && FirstResidual(legs) == (if firstResidual.Some? then Some(firstResidual.value.name) else None)
    }

    constructor (account: Interned)
      ensures Valid() && this.account == account && legs == []
    {
      this.account := account;
      sums, firstResidual, legs := [], None, [];
    }

    /** Folds one leg into the slot. */
    method Add(leg: Leg)
      requires Valid()
      requires leg.commodity.Some? && InternedOnce(legs + [leg])
      modifies this
      ensures Valid()
      ensures legs == old(legs) + [leg]
    {
      hide Tallies, InternedOnce, FirstResidual;
      var commodity := leg.commodity.value;
      var index := 0;
      while index < |sums| && sums[index].0.index != commodity.index
        invariant 0 <= index <= |sums|
        invariant forall i :: 0 <= i < index ==> sums[i].0.index != commodity.index
      {
        index := index + 1;
      }
      TalliesStep(sums, legs, leg, index);
      ghost var bumped := Bumped(sums, leg, index);
      FirstResidualAppend(legs, leg);
      if index == |sums| {
        sums := sums + [(commodity, 0.0, 0)];
      }
      var entry := sums[index];
      sums := sums[index := (entry.0, entry.1 + leg.value, if leg.source.Concrete? then entry.2 + 1 else entry.2)];
      assert sums == bumped;
      if leg.source.Residual? && firstResidual.None? {
        firstResidual := Some(commodity);
      }
      legs := legs + [leg];
    }

    /** The account's totals once every leg is folded. */
    method Finish() returns (own: OwnTotals)
      requires Valid()
      ensures IsOwn(own, legs)
    {
      hide FirstResidual;
      var balances: Balances := map[];
      var counts: seq<(Code, nat)> := [];
      for i := 0 to |sums|
        invariant forall c :: Get(balances, c) == HeldAmong(sums[..i], c)
        invariant counts == CountsAmong(sums[..i])
      {
        var (code, sum, count) := sums[i];
        assert sums[..i + 1] == sums[..i] + [sums[i]];
        assert sums[..i + 1][..i] == sums[..i];
        balances := AddAmount(balances, Amount(sum, code.name));
        if count > 0 {
          counts := counts + [(code.name, count)];
        }
      }
      assert sums[..|sums|] == sums;
      own := OwnTotals(balances, counts, if firstResidual.Some? then Some(firstResidual.value.name) else None);
      forall c ensures Get(balances, c) == Sum(legs, ValueIn(c)) {
        HeldIsTheSum(sums, legs, c);
      }
      CountsAmongCount(sums, legs);
    }
  }

  function HeldAmong(sums: Entries, c: Code): Decimal {
    if sums == [] then 0.0
    else HeldAmong(sums[..|sums| - 1], c) + if sums[|sums| - 1].0.name == c then sums[|sums| - 1].1 else 0.0
  }

  function CountsAmong(sums: Entries): seq<(Code, nat)> {
    if sums == [] then []
    else
      var last := sums[|sums| - 1];
      CountsAmong(sums[..|sums| - 1]) + if last.2 > 0 then [(last.0.name, last.2)] else []
  }

  lemma {:induction false} HeldAmongDistinct(sums: Entries, c: Code)
    requires forall i, j :: 0 <= i < j < |sums| ==> sums[i].0.name != sums[j].0.name
    ensures forall i :: 0 <= i < |sums| && sums[i].0.name == c ==> HeldAmong(sums, c) == sums[i].1
    ensures (forall i :: 0 <= i < |sums| ==> sums[i].0.name != c) ==> HeldAmong(sums, c) == 0.0
  {
    if sums == [] {
    } else {
      HeldAmongDistinct(sums[..|sums| - 1], c);
    }
  }

  lemma HeldIsTheSum(sums: Entries, legs: seq<Leg>, c: Code)
    requires Tallies(sums, legs)
    ensures HeldAmong(sums, c) == Sum(legs, ValueIn(c))
  {
    HeldAmongDistinct(sums, c);
    if i :| 0 <= i < |sums| && sums[i].0.name == c {
      assert EntryTallies(sums[i], legs);
    } else {
      UnlistedIsUnused(sums, legs, c);
    }
  }

  ghost predicate CountOf(sums: Entries, count: (Code, nat)) {
    exists i :: 0 <= i < |sums| && count == (sums[i].0.name, sums[i].2) && sums[i].2 > 0
  }

  lemma {:induction false} CountsAmongEntries(sums: Entries)
    ensures forall k :: 0 <= k < |CountsAmong(sums)| ==> CountOf(sums, CountsAmong(sums)[k])
    ensures forall i :: 0 <= i < |sums| && sums[i].2 > 0 ==> Counted(CountsAmong(sums), sums[i].0.name)
  {
    if sums == [] {
    } else {
      var init := sums[..|sums| - 1];
      var fewer, counts := CountsAmong(init), CountsAmong(sums);
      CountsAmongEntries(init);
      forall k | 0 <= k < |counts|
        ensures CountOf(sums, counts[k])
      {
        if k < |fewer| {
          assert CountOf(init, fewer[k]);
          var i :| 0 <= i < |init| && fewer[k] == (init[i].0.name, init[i].2) && init[i].2 > 0;
          assert sums[i] == init[i];
        } else {
          assert counts[k] == (sums[|init|].0.name, sums[|init|].2);
        }
      }
      forall i | 0 <= i < |sums| && sums[i].2 > 0 ensures Counted(counts, sums[i].0.name) {
        if i < |init| {
          assert init[i] == sums[i];
          var k :| 0 <= k < |fewer| && fewer[k].0 == sums[i].0.name;
          assert counts[k] == fewer[k];
        } else {
          assert counts[|fewer|].0 == sums[i].0.name;
        }
      }
    }
  }

  lemma CountsAmongCount(sums: Entries, legs: seq<Leg>)
    requires Tallies(sums, legs)
    ensures CountsUses(CountsAmong(sums), legs)
  {
    var counts := CountsAmong(sums);
    CountsAmongEntries(sums);
    forall k | 0 <= k < |counts| ensures counts[k].1 == Uses(legs, counts[k].0) > 0 {
      assert CountOf(sums, counts[k]);
      var i :| 0 <= i < |sums| && counts[k] == (sums[i].0.name, sums[i].2) && sums[i].2 > 0;
      assert EntryTallies(sums[i], legs);
    }
    forall c | Uses(legs, c) > 0 ensures Counted(counts, c) {
      if i :| 0 <= i < |sums| && sums[i].0.name == c {
        assert EntryTallies(sums[i], legs);
      } else {
        UnlistedIsUnused(sums, legs, c);
      }
    }
  }
}
