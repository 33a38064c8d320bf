/** The one-pass fold of the whole ledger into per-account totals, against the per-account forms. */
module TotalsPass {
  import opened Prelude
  import opened Seqs
  import opened Balances
  import opened Ledger
  import opened Totals

  function AtIndex(n: nat): Leg -> bool {
    (l: Leg) => l.commodity.Some? && l.account.index == n
  }

  /** The legs of one account that carry a commodity. */
  function OwnedBy(account: AccountId): Leg -> bool {
    (l: Leg) => l.commodity.Some? && l.account.name == account
  }

  function OwnAt(seen: seq<Leg>, n: nat): seq<Leg> {
    Filter(seen, AtIndex(n))
  }

  lemma OwnAtAppend(seen: seq<Leg>, leg: Leg)
    requires leg.commodity.Some?
    ensures OwnAt(seen + [leg], leg.account.index) == OwnAt(seen, leg.account.index) + [leg]
    ensures forall n: nat :: n != leg.account.index ==> OwnAt(seen + [leg], n) == OwnAt(seen, n)
  {
    forall n: nat {
      FilterAppend(seen, leg, AtIndex(n));
    }
  }

  /** The slot at `n`, if any, holds exactly the legs seen at account index `n`. */
  ghost predicate SlotTracks(slot: TotalsSlot?, seen: seq<Leg>, n: nat)
    reads slot
  {
    var own := OwnAt(seen, n);
    if slot == null then own == []
    else slot.account.index == n && slot.Valid() && slot.legs == own && own != [] && slot.account == own[0].account
  }

  /** Every slot tracks its index, and no leg lies beyond the slots. */
  ghost predicate SlotsTrack(slots: seq<TotalsSlot?>, seen: seq<Leg>)
    reads slots
  {
    && (forall n :: 0 <= n < |slots| ==> SlotTracks(slots[n], seen, n))
    && (forall n :: n >= |slots| ==> OwnAt(seen, n) == [])
  }

  lemma {:induction false} LegsOfPrefix(ledger: seq<Transaction>, i: nat, k: nat)
    requires i < |ledger| && k < |ledger[i].legs|
    ensures Legs(ledger[..i]) + ledger[i].legs[..k + 1] <= Legs(ledger)
    decreases |ledger|
  {
    var init := |ledger| - 1;
    if i == init {
      var legs := ledger[i].legs;
      assert legs == legs[..k + 1] + legs[k + 1..];
      assert Legs(ledger) == Legs(ledger[..i]) + legs[..k + 1] + legs[k + 1..];
    } else {
      LegsOfPrefix(ledger[..init], i, k);
      assert ledger[..init][..i] == ledger[..i];
      assert Legs(ledger[..init]) <= Legs(ledger);
    }
  }

  lemma FilterOfSubsequenceInterned(seen: seq<Leg>, p: Leg -> bool)
    requires InternedOnce(seen)
    ensures InternedOnce(Filter(seen, p))
  {
    FilterMembers(seen, p);
    var own := Filter(seen, p);
    forall i, j | 0 <= i < |own| && 0 <= j < |own| ensures SameNames(own[i], own[j]) {
      assert own[i] in seen && own[j] in seen;
      var a :| 0 <= a < |seen| && seen[a] == own[i];
      var b :| 0 <= b < |seen| && seen[b] == own[j];
      assert SameNames(seen[a], seen[b]);
    }
  }

  /** Folds one leg into its account's slot, growing the slots when its index is new. */
  method FoldLeg(slots: seq<TotalsSlot?>, leg: Leg, ghost seen: seq<Leg>) returns (after: seq<TotalsSlot?>)
    requires SlotsTrack(slots, seen)
    requires leg.commodity.Some? && InternedOnce(seen + [leg])
    modifies slots
    ensures SlotsTrack(after, seen + [leg])
    ensures forall n :: 0 <= n < |after| && after[n] != null ==> fresh(after[n]) || after[n] in slots
  {
    hide Tallies, OwnAt, FirstResidual, InternedOnce;
    var index := leg.account.index;
    after := slots;
    if |after| <= index {
      after := after + seq(index + 1 - |after|, _ => null);
    }
    OwnAtAppend(seen, leg);
    InternedAt(seen + [leg], index);
    assert SlotTracks(after[index], seen, index);
    var slot := after[index];
    if slot == null {
      slot := new TotalsSlot(leg.account);
      after := after[index := slot];
    }
    assert forall n :: 0 <= n < |slots| && n != index ==> slots[n] == after[n] && SlotTracks(slots[n], seen, n);
    slot.Add(leg);
    forall n | 0 <= n < |after| && n != index ensures SlotTracks(after[n], seen + [leg], n) {
      if n < |slots| && after[n] != null {
        assert after[n] != slot;
      }
    }
    assert SlotTracks(after[index], seen + [leg], index);
  }

  lemma InternedAt(seen: seq<Leg>, n: nat)
    requires InternedOnce(seen)
    ensures InternedOnce(OwnAt(seen, n))
  {
    FilterOfSubsequenceInterned(seen, AtIndex(n));
  }

  lemma SkippedLeg(slots: seq<TotalsSlot?>, seen: seq<Leg>, leg: Leg)
    requires SlotsTrack(slots, seen) && leg.commodity.None?
    ensures SlotsTrack(slots, seen + [leg])
  {
    forall n: nat ensures OwnAt(seen + [leg], n) == OwnAt(seen, n) {
      FilterAppend(seen, leg, AtIndex(n));
    }
    hide OwnAt;
    forall n | 0 <= n < |slots| ensures SlotTracks(slots[n], seen + [leg], n) {
      assert SlotTracks(slots[n], seen, n);
    }
  }

  lemma InternedPrefix(all: seq<Leg>, seen: seq<Leg>)
    requires InternedOnce(all) && seen <= all
    ensures InternedOnce(seen)
  {
    forall i, j | 0 <= i < |seen| && 0 <= j < |seen| ensures SameNames(seen[i], seen[j]) {
      assert SameNames(all[i], all[j]);
    }
  }

  /** A slot's legs are its account's legs. */
  lemma IndexIsAccount(all: seq<Leg>, n: nat)
    requires InternedOnce(all) && OwnAt(all, n) != []
    ensures OwnAt(all, n)[0].account.index == n
    ensures OwnAt(all, n) == Filter(all, OwnedBy(OwnAt(all, n)[0].account.name))
  {
    FilterMembers(all, AtIndex(n));
    var first := OwnAt(all, n)[0];
    assert first in OwnAt(all, n);
    var k :| 0 <= k < |all| && all[k] == first;
    forall i | 0 <= i < |all| ensures AtIndex(n)(all[i]) == OwnedBy(first.account.name)(all[i]) {
      assert SameNames(all[i], all[k]);
    }
    FilterPointwise(all, AtIndex(n), OwnedBy(first.account.name));
  }

  /** Reads every leg of the ledger once, in stream order, into one slot per account. */
  method FoldLedger(ledger: seq<Transaction>) returns (slots: seq<TotalsSlot?>)
    requires InternedOnce(Legs(ledger))
    ensures SlotsTrack(slots, Legs(ledger))
    ensures forall n :: 0 <= n < |slots| && slots[n] != null ==> fresh(slots[n])
  {
    hide OwnAt, InternedOnce, SlotTracks, Legs;
    slots := [];
    NothingSeen();
    for i := 0 to |ledger|
      invariant SlotsTrack(slots, Legs(ledger[..i]))
      invariant forall n :: 0 <= n < |slots| && slots[n] != null ==> fresh(slots[n])
    {
      var legs := ledger[i].legs;
      ghost var before := Legs(ledger[..i]);
      assert before + legs[..0] == before;
      for k := 0 to |legs|
        invariant SlotsTrack(slots, before + legs[..k])
        invariant forall n :: 0 <= n < |slots| && slots[n] != null ==> fresh(slots[n])
      {
        ghost var seen := before + legs[..k];
        assert before + legs[..k + 1] == seen + [legs[k]];
        LegsOfPrefix(ledger, i, k);
        InternedPrefix(Legs(ledger), seen + [legs[k]]);
        if legs[k].commodity.Some? {
          slots := FoldLeg(slots, legs[k], seen);
        } else {
          SkippedLeg(slots, seen, legs[k]);
        }
      }
      assert legs[..|legs|] == legs && ledger[..i + 1] == ledger[..i] + [ledger[i]];
      LegsAppend(ledger[..i], ledger[i]);
    }
    assert ledger[..|ledger|] == ledger;
  }

  lemma NothingSeen()
    ensures SlotsTrack([], []) && Legs([]) == []
  {
  }

  /** Every account's own totals, in one pass. */
  method ComputeTotals(accounts: map<AccountId, AccountRow>, ledger: seq<Transaction>) returns (totals: AccountTotals)
    requires InternedOnce(Legs(ledger))
    ensures totals.accounts == accounts
    ensures OwnsMatch(totals.own, Legs(ledger))
  {
    var slots := FoldLedger(ledger);
    var own := FinishAll(slots, Legs(ledger));
    totals := AccountTotals(accounts, own);
  }

  method FinishAll(slots: seq<TotalsSlot?>, ghost all: seq<Leg>) returns (own: map<AccountId, OwnTotals>)
    requires InternedOnce(all) && SlotsTrack(slots, all)
    ensures OwnsMatch(own, all)
  {
    hide OwnAt, InternedOnce, IsOwn, Tallies, FirstResidual, OwnedBy;
    own := map[];
    for n := 0 to |slots|
      invariant forall m :: 0 <= m < n && slots[m] != null ==> slots[m].account.name in own
      invariant forall a :: a in own ==> Filter(all, OwnedBy(a)) != [] && IsOwn(own[a], Filter(all, OwnedBy(a)))
    {
      assert SlotTracks(slots[n], all, n);
      var slot := slots[n];
      if slot != null {
        IndexIsAccount(all, n);
        var finished := slot.Finish();
        own := own[slot.account.name := finished];
      }
    }
    forall a | Filter(all, OwnedBy(a)) != [] ensures a in own {
      var n := AccountHasIndex(all, a);
      assert n < |slots|;
      assert SlotTracks(slots[n], all, n);
    }
  }

  lemma AccountHasIndex(all: seq<Leg>, a: AccountId) returns (n: nat)
    requires InternedOnce(all) && Filter(all, OwnedBy(a)) != []
    ensures OwnAt(all, n) != [] && OwnAt(all, n)[0].account.name == a
  {
    FilterMembers(all, OwnedBy(a));
    var first := Filter(all, OwnedBy(a))[0];
    assert first in Filter(all, OwnedBy(a));
    n := first.account.index;
    FilterMembers(all, AtIndex(n));
    assert first in OwnAt(all, n);
    IndexIsAccount(all, n);
    assert first in Filter(all, OwnedBy(OwnAt(all, n)[0].account.name));
    FilterMembers(all, OwnedBy(OwnAt(all, n)[0].account.name));
  }

  /** Exactly the accounts with a leg in some commodity have totals, and they are the totals of their legs. */
  ghost predicate OwnsMatch(own: map<AccountId, OwnTotals>, all: seq<Leg>) {
    && (forall a :: a in own <==> Filter(all, OwnedBy(a)) != [])
    && (forall a :: a in own ==> IsOwn(own[a], Filter(all, OwnedBy(a))))
  }

  // ----- Against the per-account forms -----

  /** An account's legs, as its own stream yields them, with the ambiguous ones left out. */
  lemma OwnStreamLegs(ledger: seq<Transaction>, a: AccountId, p: Leg -> bool, both: Leg -> bool)
    requires LegsTouch(ledger)
    requires forall l :: both(l) <==> OwnedBy(a)(l) && p(l)
    requires forall l :: p(l) ==> l.commodity.Some?
    ensures Filter(Legs(InScope(ledger, {a})), p) == Filter(Filter(Legs(ledger), OwnedBy(a)), p)
  {
    var all := Legs(ledger);
    ScopeKeepsItsLegs(ledger, {a});
    FilterTwice(all, OnAccounts({a}), p, both);
    FilterTwice(all, OwnedBy(a), p, both);
  }

  /** The one-pass balance of any account in any commodity is the balance its own stream gives. */
  lemma OnePassBalance(own: map<AccountId, OwnTotals>, ledger: seq<Transaction>, a: AccountId, c: Code)
    requires LegsTouch(ledger) && OwnsMatch(own, Legs(ledger))
    ensures (if a in own then Get(own[a].balances, c) else 0.0) == BalanceIn(InScope(ledger, {a}), c)
  {
    var mine, stream := Filter(Legs(ledger), OwnedBy(a)), Legs(InScope(ledger, {a}));
    OwnStreamLegs(ledger, a, InCode(c), (l: Leg) => OwnedBy(a)(l) && In(l, c));
    SumFiltered(mine, InCode(c), ValueIn(c), ValueIn(c));
    SumFiltered(stream, InCode(c), ValueIn(c), ValueIn(c));
    assert a !in own ==> mine == [];
  }

  /** The concrete-leg counts and the first residual are those of the account's own stream. */
  lemma OnePassUses(ledger: seq<Transaction>, a: AccountId, c: Code)
    requires LegsTouch(ledger)
    ensures Uses(Filter(Legs(ledger), OwnedBy(a)), c) == Uses(Legs(InScope(ledger, {a})), c)
  {
    OwnStreamLegs(ledger, a, ConcreteIn(c), (l: Leg) => OwnedBy(a)(l) && ConcreteIn(c)(l));
  }

  function IsResidual(): Leg -> bool {
    (l: Leg) => l.source.Residual? && l.commodity.Some?
  }

  function FirstCode(legs: seq<Leg>): Option<Code> {
    if legs == [] || legs[0].commodity.None? then None else Some(legs[0].commodity.value.name)
  }

  lemma {:induction false} FirstResidualFiltered(legs: seq<Leg>)
    ensures FirstResidual(legs) ==
            FirstCode(Filter(legs, IsResidual()))
  {
    FilterMembers(legs, IsResidual());
    if legs == [] {
    } else {
      var init, last := legs[..|legs| - 1], legs[|legs| - 1];
      assert legs == init + [last];
      FirstResidualFiltered(init);
      FilterAppend(init, last, IsResidual());
      FilterMembers(init, IsResidual());
      var earlier := Filter(init, IsResidual());
      if earlier != [] {
        assert earlier[0] in earlier && Filter(legs, IsResidual())[0] == earlier[0];
      }
    }
  }

  lemma OnePassFirstResidual(ledger: seq<Transaction>, a: AccountId)
    requires LegsTouch(ledger)
    ensures FirstResidual(Filter(Legs(ledger), OwnedBy(a))) == FirstResidual(Legs(InScope(ledger, {a})))
  {
    OwnStreamLegs(ledger, a, IsResidual(), (l: Leg) => OwnedBy(a)(l) && IsResidual()(l));
    FirstResidualFiltered(Filter(Legs(ledger), OwnedBy(a)));
    FirstResidualFiltered(Legs(InScope(ledger, {a})));
  }

  // ----- Default commodities -----

  /** The most used concrete commodity among `legs[..n]`'s codes, as the grouped and ordered query picks it. */
  function TopGroup(legs: seq<Leg>, n: nat): (top: Option<Code>)
    requires n <= |legs|
    ensures top.None? <==> forall k :: 0 <= k < n ==> !legs[k].source.Concrete? || legs[k].commodity.None?
    ensures top.Some? ==>
              && (exists k :: 0 <= k < n && ConcreteIn(top.value)(legs[k]))
              && forall k, d :: 0 <= k < n && ConcreteIn(d)(legs[k]) ==>
                   Uses(legs, d) < Uses(legs, top.value) || (Uses(legs, d) == Uses(legs, top.value) && top.value <= d)
  {
    if n == 0 then None
    else
      var best, next := TopGroup(legs, n - 1), legs[n - 1];
      if !next.source.Concrete? || next.commodity.None? then best
      else
        var code := next.commodity.value.name;
        if best.None? || Uses(legs, code) > Uses(legs, best.value)
           || (Uses(legs, code) == Uses(legs, best.value) && code < best.value)
        then Some(code) else best
  }

  lemma TopGroupIsMostUsed(legs: seq<Leg>)
    ensures TopGroup(legs, |legs|).None? <==> forall c :: Uses(legs, c) == 0
    ensures TopGroup(legs, |legs|).Some? ==> IsMostUsed(legs, TopGroup(legs, |legs|).value)
  {
    var top := TopGroup(legs, |legs|);
    forall c ensures Uses(legs, c) > 0 <==> exists k :: 0 <= k < |legs| && ConcreteIn(c)(legs[k]) {
      UsedIffSomeLeg(legs, c);
    }
    if top.Some? {
      assert Uses(legs, top.value) > 0;
      forall d ensures Uses(legs, d) < Uses(legs, top.value) || (Uses(legs, d) == Uses(legs, top.value) && top.value <= d) {
        if Uses(legs, d) > 0 {
          var k :| 0 <= k < |legs| && ConcreteIn(d)(legs[k]);
        }
      }
    }
  }

  lemma UsedIffSomeLeg(legs: seq<Leg>, c: Code)
    ensures Uses(legs, c) > 0 <==> exists k :: 0 <= k < |legs| && ConcreteIn(c)(legs[k])
  {
    FilterMembers(legs, ConcreteIn(c));
    if Uses(legs, c) > 0 {
      assert Filter(legs, ConcreteIn(c))[0] in legs;
    }
    if k :| 0 <= k < |legs| && ConcreteIn(c)(legs[k]) {
      assert legs[k] in Filter(legs, ConcreteIn(c));
    }
  }

  /** The lowest stored position, if any. */
  function LowestPosition(commodities: map<nat, Code>): (position: nat)
    requires commodities != map[]
    ensures position in commodities && forall p :: p in commodities ==> position <= p
  {
    LowestIsUnique(commodities);
    var position: nat :| position in commodities && forall p :: p in commodities ==> position <= p;
    position
  }

  lemma LowestIsUnique(commodities: map<nat, Code>)
    requires commodities != map[]
    ensures exists position: nat :: position in commodities && forall p :: p in commodities ==> position <= p
  {
    var some :| some in commodities;
    LowestBelow(commodities, some);
  }

  lemma {:induction false} LowestBelow(commodities: map<nat, Code>, some: nat)
    requires some in commodities
    ensures exists position: nat :: position in commodities && forall p :: p in commodities ==> position <= p
    decreases some
  {
    if lower :| lower in commodities && lower < some {
      LowestBelow(commodities, lower);
    }
  }

  /** The default commodity by the single-account form's own rules. */
  ghost predicate IsDefaultFor(choice: Option<Code>, commodities: map<nat, Code>, stream: seq<Leg>) {
    if commodities != map[] then choice == Some(commodities[LowestPosition(commodities)])
    else if exists c :: Uses(stream, c) > 0 then choice.Some? && IsMostUsed(stream, choice.value)
    else choice == FirstResidual(stream)
  }

  /** The first configured commodity, else the most used, else the first residual one met. */
  method DefaultCommodityFor(commodities: map<nat, Code>, ledger: seq<Transaction>, account: AccountId)
    returns (choice: Option<Code>)
    ensures IsDefaultFor(choice, commodities, Legs(InScope(ledger, {account})))
  {
    var stream := InScope(ledger, {account});
    if commodities != map[] {
      return Some(commodities[LowestPosition(commodities)]);
    }
    var top := TopGroup(Legs(stream), |Legs(stream)|);
    TopGroupIsMostUsed(Legs(stream));
    if top.Some? {
      return top;
    }
    for i := 0 to |stream|
      invariant FirstResidual(Legs(stream[..i])) == None
    {
      var found := FirstResidual(stream[i].legs);
      assert stream[..i + 1] == stream[..i] + [stream[i]];
      LegsAppend(stream[..i], stream[i]);
      FirstResidualConcat(Legs(stream[..i]), stream[i].legs);
      if found.Some? {
        assert stream == stream[..i + 1] + stream[i + 1..];
        LegsConcat(stream[..i + 1], stream[i + 1..]);
        FirstResidualConcat(Legs(stream[..i + 1]), Legs(stream[i + 1..]));
        return found;
      }
    }
    assert stream[..|stream|] == stream;
    choice := None;
  }

  lemma {:induction false} FirstResidualConcat(a: seq<Leg>, b: seq<Leg>)
    ensures FirstResidual(a + b) == if FirstResidual(a).Some? then FirstResidual(a) else FirstResidual(b)
  {
    if b == [] {
      assert a + b == a;
    } else {
      assert (a + b)[..|a + b| - 1] == a + b[..|b| - 1];
      FirstResidualConcat(a, b[..|b| - 1]);
    }
  }

  lemma {:induction false} LegsConcat(a: seq<Transaction>, b: seq<Transaction>)
    ensures Legs(a + b) == Legs(a) + Legs(b)
  {
    if b == [] {
      assert a + b == a;
    } else {
      hide *;
      var init, last := b[..|b| - 1], b[|b| - 1];
      assert b == init + [last] && a + b == (a + init) + [last];
      LegsConcat(a, init);
      LegsAppend(a + init, last);
      LegsAppend(init, last);
      LegsAssociate(Legs(a), Legs(init), last.legs);
    }
  }

  lemma LegsAssociate(a: seq<Leg>, b: seq<Leg>, c: seq<Leg>)
    ensures (a + b) + c == a + (b + c)
  {
  }

  /** Commodity positions as they are written: numbered from zero. */
  predicate NumberedFromZero(commodities: map<nat, Code>) {
    commodities != map[] ==> 0 in commodities
  }

  lemma DefaultChoiceIsUnique(one: Option<Code>, two: Option<Code>, commodities: map<nat, Code>, stream: seq<Leg>)
    requires IsDefaultFor(one, commodities, stream) && IsDefaultFor(two, commodities, stream)
    ensures one == two
  {
    if commodities == map[] && exists c :: Uses(stream, c) > 0 {
      MostUsedIsUnique(stream, one.value, two.value);
    }
  }

  /** The one-pass default commodity obeys the single-account rules. */
  lemma OnePassDefault(totals: AccountTotals, ledger: seq<Transaction>, a: AccountId)
    requires LegsTouch(ledger) && OwnsMatch(totals.own, Legs(ledger))
    requires a in totals.accounts && NumberedFromZero(totals.accounts[a].commodities)
    ensures IsDefaultFor(totals.DefaultCommodity(a), totals.accounts[a].commodities, Legs(InScope(ledger, {a})))
  {
    var mine, stream := Filter(Legs(ledger), OwnedBy(a)), Legs(InScope(ledger, {a}));
    forall c ensures Uses(mine, c) == Uses(stream, c) {
      OnePassUses(ledger, a, c);
    }
    OnePassFirstResidual(ledger, a);
    OwnGivesDefault(totals, a, mine, stream);
  }

  lemma OwnGivesDefault(totals: AccountTotals, a: AccountId, mine: seq<Leg>, stream: seq<Leg>)
    requires a in totals.accounts && NumberedFromZero(totals.accounts[a].commodities)
    requires if a in totals.own then IsOwn(totals.own[a], mine) else mine == []
    requires FirstResidual(mine) == FirstResidual(stream) && forall c :: Uses(mine, c) == Uses(stream, c)
    ensures IsDefaultFor(totals.DefaultCommodity(a), totals.accounts[a].commodities, stream)
  {
    if a in totals.own {
      hide FirstResidual, Uses;
      var counts := totals.own[a].counts;
      if counts != [] {
        MostUsedIsMostUsed(counts, mine);
        assert counts[0].1 == Uses(mine, counts[0].0) > 0;
      }
    } else {
      NoLegsNoUses();
    }
  }

  lemma NoLegsNoUses()
    ensures FirstResidual([]) == None && forall c :: Uses([], c) == 0
  {
  }

  /**
   * The default balances are, for every active account, the single-account balance in the
   * single-account default commodity; an account with no such commodity is left out.
   */
  lemma DefaultsAgreeWithPerAccountForms(totals: AccountTotals, ledger: seq<Transaction>, a: AccountId,
                                         choice: Option<Code>)
    requires LegsTouch(ledger) && OwnsMatch(totals.own, Legs(ledger))
    requires a in totals.accounts && NumberedFromZero(totals.accounts[a].commodities)
    requires IsDefaultFor(choice, totals.accounts[a].commodities, Legs(InScope(ledger, {a})))
    ensures a in totals.Defaults() <==> totals.accounts[a].active && choice.Some?
    ensures a in totals.Defaults() ==>
              totals.Defaults()[a] == Amount(BalanceIn(InScope(ledger, {a}), choice.value), choice.value)
  {
    OnePassDefault(totals, ledger, a);
    DefaultChoiceIsUnique(choice, totals.DefaultCommodity(a), totals.accounts[a].commodities, Legs(InScope(ledger, {a})));
    if choice.Some? {
      OnePassBalance(totals.own, ledger, a, choice.value);
    }
  }
}
