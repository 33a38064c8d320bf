/** Subtree totals by pushing each active account's own totals up its parent chain. */
module Rollup {
  import opened Prelude
  import opened Sums
  import opened Balances
  import opened Parents
  import opened Totals

  function LinksOf(accounts: map<AccountId, AccountRow>): Links {
    map id | id in accounts :: accounts[id].parent
  }

  predicate IsActive(accounts: map<AccountId, AccountRow>, id: AccountId) {
    id in accounts && accounts[id].active
  }

  /** The active accounts with totals of their own whose parent chain reaches `a`, through archived ones too. */
  ghost function Contributors(t: AccountTotals, a: AccountId): set<AccountId> {
    set x | x in t.own && IsActive(t.accounts, x) && Reaches(LinksOf(t.accounts), x, a)
  }

  /** What account `x` itself holds in commodity `c`. */
  function OwnIn(own: map<AccountId, OwnTotals>, c: Code): AccountId -> real {
    (x: AccountId) => if x in own then Get(own[x].balances, c) else 0.0
  }

  /** The contributors of `a` among `done`. */
  ghost function Pushed(t: AccountTotals, a: AccountId, done: set<AccountId>): set<AccountId> {
    Contributors(t, a) * done
  }

  /** `rolled` holds, for the accounts in `done`, what each has pushed to itself and to every active ancestor. */
  ghost predicate PushedUp(t: AccountTotals, rolled: map<AccountId, Balances>, done: set<AccountId>) {
    && (forall a :: a in rolled <==> IsActive(t.accounts, a) && Pushed(t, a, done) != {})
    && (forall a, c :: a in rolled ==> Get(rolled[a], c) == SetSum(Pushed(t, a, done), OwnIn(t.own, c)))
  }

  /** The accounts from which pushing can start: active ones with totals of their own. */
  function Starts(t: AccountTotals): set<AccountId> {
    set x | x in t.own && IsActive(t.accounts, x)
  }

  /** Adds `balances` to `x` and to every active account on its parent chain, each once. */
  method PushOne(t: AccountTotals, rolled: map<AccountId, Balances>, x: AccountId, balances: Balances)
    returns (after: map<AccountId, Balances>)
    ensures forall a :: a in after <==> a in rolled || (IsActive(t.accounts, a) && Reaches(LinksOf(t.accounts), x, a))
    ensures forall a :: a in after ==>
              if IsActive(t.accounts, a) && Reaches(LinksOf(t.accounts), x, a)
              then after[a] == Plus(if a in rolled then rolled[a] else map[], balances)
              else a in rolled && after[a] == rolled[a]
  {
    hide Plus, Get, Reaches, LinksOf;
    ghost var links := LinksOf(t.accounts);
    LinksParent(t.accounts);
    after := rolled;
    var cursor := Some(x);
    var seen: set<AccountId> := {};
    ReachesSelf(links, x);
    while cursor.Some? && cursor.value !in seen
      invariant forall y :: y in seen ==> Reaches(links, x, y)
      invariant cursor.Some? ==> Reaches(links, x, cursor.value)
      invariant x in seen || cursor == Some(x)
      invariant forall y :: y in seen && Parent(links, y).Some? ==>
                Parent(links, y).value in seen || cursor == Parent(links, y)
      invariant forall a :: a in after <==> a in rolled || (IsActive(t.accounts, a) && a in seen)
      invariant forall a :: a in after ==>
                  if IsActive(t.accounts, a) && a in seen
                  then after[a] == Plus(if a in rolled then rolled[a] else map[], balances)
                  else a in rolled && after[a] == rolled[a]
      decreases t.accounts.Keys - seen, if cursor.Some? then 1 else 0
    {
      var id := cursor.value;
      seen := seen + {id};
      if IsActive(t.accounts, id) {
        after := after[id := Plus(if id in after then after[id] else map[], balances)];
      }
      if Parent(links, id).Some? {
        ReachesParent(links, x, id);
      }
      cursor := if id in t.accounts then t.accounts[id].parent else None;
    }
    ClosedReach(links, seen, x);
  }

  lemma LinksParent(accounts: map<AccountId, AccountRow>)
    ensures forall id :: Parent(LinksOf(accounts), id) == if id in accounts then accounts[id].parent else None
  {
  }

  lemma ClosedReach(links: Links, seen: set<AccountId>, x: AccountId)
    requires x in seen
    requires forall y :: y in seen && Parent(links, y).Some? ==> Parent(links, y).value in seen
    ensures forall a :: Reaches(links, x, a) ==> a in seen
  {
    forall a | Reaches(links, x, a) ensures a in seen {
      var n: nat :| Up(links, x, n) == Some(a);
      ClosedHoldsReach(links, seen, x, n);
    }
  }

  /** Pushes every start of `t` upward once; `rolled` ends as `PushedUp` says, whichever start goes first. */
  method Rollups(t: AccountTotals) returns (rolled: map<AccountId, Balances>)
    ensures PushedUp(t, rolled, Starts(t))
  {
    rolled := map[];
    var todo := Starts(t);
    ghost var done: set<AccountId> := {};
    NothingPushed(t);
    while todo != {}
      invariant done + todo == Starts(t) && done !! todo
      invariant PushedUp(t, rolled, done)
    {
      var x := LeastOf(todo);
      ghost var before := rolled;
      rolled := PushOne(t, rolled, x, t.own[x].balances);
      PushedOneMore(t, before, rolled, x, done);
      todo, done := todo - {x}, done + {x};
    }
  }

  lemma NothingPushed(t: AccountTotals)
    ensures PushedUp(t, map[], {})
  {
    assert forall a :: Pushed(t, a, {}) == {};
  }

  lemma PushedOneMore(t: AccountTotals, before: map<AccountId, Balances>, after: map<AccountId, Balances>,
                      x: AccountId, done: set<AccountId>)
    requires PushedUp(t, before, done) && x in Starts(t) && x !in done
    requires forall a :: a in after <==> a in before || (IsActive(t.accounts, a) && Reaches(LinksOf(t.accounts), x, a))
    requires forall a :: a in after ==>
               if IsActive(t.accounts, a) && Reaches(LinksOf(t.accounts), x, a)
               then after[a] == Plus(if a in before then before[a] else map[], t.own[x].balances)
               else a in before && after[a] == before[a]
    ensures PushedUp(t, after, done + {x})
  {
    forall a ensures Pushed(t, a, done + {x}) == Pushed(t, a, done) + if Reaches(LinksOf(t.accounts), x, a) then {x} else {} {
      PushedStep(t, x, done, a);
    }
    hide Pushed, OwnIn, Starts, SetSum;
    forall a, c | a in after ensures Get(after[a], c) == SetSum(Pushed(t, a, done + {x}), OwnIn(t.own, c)) {
      PushedValue(t, if a in before then Some(before[a]) else None, after[a], x, done, a, c);
    }
  }

  lemma PushedStep(t: AccountTotals, x: AccountId, done: set<AccountId>, a: AccountId)
    requires x in Starts(t) && x !in done
    ensures Pushed(t, a, done + {x}) == Pushed(t, a, done) + if Reaches(LinksOf(t.accounts), x, a) then {x} else {}
    ensures x !in Pushed(t, a, done)
  {
  }

  lemma PushedValue(t: AccountTotals, was: Option<Balances>, now: Balances, x: AccountId, done: set<AccountId>,
                    a: AccountId, c: Code)
    requires x in Starts(t) && x !in done
    requires was.None? ==> Pushed(t, a, done) == {}
    requires was.Some? ==> Get(was.value, c) == SetSum(Pushed(t, a, done), OwnIn(t.own, c))
    requires if Reaches(LinksOf(t.accounts), x, a)
             then now == Plus(if was.Some? then was.value else map[], t.own[x].balances)
             else was == Some(now)
    ensures Get(now, c) == SetSum(Pushed(t, a, done + {x}), OwnIn(t.own, c))
  {
    PushedStep(t, x, done, a);
    var f := OwnIn(t.own, c);
    assert f(x) == Get(t.own[x].balances, c);
    hide Pushed, OwnIn, LinksOf, Starts, Contributors, Reaches;
    if Reaches(LinksOf(t.accounts), x, a) {
      SetSumAdd(Pushed(t, a, done), x, f);
    } else {
      assert Pushed(t, a, done + {x}) == Pushed(t, a, done);
    }
  }

  /** The smallest id left, so accounts are visited in id order. */
  method LeastOf(ids: set<AccountId>) returns (least: AccountId)
    requires ids != {}
    ensures least in ids && forall x :: x in ids ==> least <= x
  {
    least :| least in ids;
    var rest := ids - {least};
    while rest != {}
      invariant least in ids && rest <= ids
      invariant forall x :: x in ids && x !in rest ==> least <= x
      decreases rest
    {
      var x :| x in rest;
      if x < least {
        least := x;
      }
      rest := rest - {x};
    }
  }

  /**
   * What the roll-up means: the active accounts with a contributor at or below them, each
   * holding in every commodity the sum of what its contributors themselves hold.
   */
  lemma RollupMeaning(t: AccountTotals, rolled: map<AccountId, Balances>, a: AccountId, c: Code)
    requires PushedUp(t, rolled, Starts(t))
    ensures a in rolled <==> IsActive(t.accounts, a) && Contributors(t, a) != {}
    ensures a in rolled ==> Get(rolled[a], c) == SetSum(Contributors(t, a), OwnIn(t.own, c))
  {
    assert Pushed(t, a, Starts(t)) == Contributors(t, a);
  }

  /** The accounts directly under `a`. */
  function ChildrenOf(accounts: map<AccountId, AccountRow>, a: AccountId): set<AccountId> {
    set x | x in accounts && accounts[x].parent == Some(a)
  }

  /** The roll-up of an account in commodity `c`, whether or not the account is active. */
  ghost function SubtotalIn(t: AccountTotals, c: Code): AccountId -> real {
    (a: AccountId) => SetSum(Contributors(t, a), OwnIn(t.own, c))
  }

  /** Without cycles, contributors split into the account itself and its children's contributors. */
  lemma ContributorsSplit(t: AccountTotals, a: AccountId)
    requires forall x :: !StrictlyReaches(LinksOf(t.accounts), x, x)
    ensures Contributors(t, a) == (if a in Starts(t) then {a} else {})
                                  + Below(t, ChildrenOf(t.accounts, a))
    ensures forall k :: k in ChildrenOf(t.accounts, a) ==> a !in Contributors(t, k)
    ensures forall k, m :: k in ChildrenOf(t.accounts, a) && m in ChildrenOf(t.accounts, a) && k != m ==>
              Contributors(t, k) !! Contributors(t, m)
  {
    var links := LinksOf(t.accounts);
    forall x | x in Contributors(t, a) && x != a
      ensures exists k :: k in ChildrenOf(t.accounts, a) && x in Contributors(t, k)
    {
      var k := LastStep(links, x, a);
      assert k in ChildrenOf(t.accounts, a);
    }
    forall k, x | k in ChildrenOf(t.accounts, a) && x in Contributors(t, k) ensures x in Contributors(t, a) && x != a {
      ReachesParent(links, x, k);
      ChildStrictlyReaches(links, k, a);
      if x == a {
        ReachesIsTransitive(links, a, k, a);
      }
    }
    forall a ensures a in Starts(t) ==> a in Contributors(t, a) {
      ReachesSelf(links, a);
    }
    forall k, m, x | k in ChildrenOf(t.accounts, a) && m in ChildrenOf(t.accounts, a) && k != m
                     && x in Contributors(t, k) && x in Contributors(t, m)
      ensures false
    {
      OneChildPerDescendant(links, x, k, m, a);
    }
  }

  /** The contributors of the children in `kids`, gathered. */
  ghost function Below(t: AccountTotals, kids: set<AccountId>): set<AccountId> {
    set x, k | k in kids && x in Contributors(t, k) :: x
  }

  lemma {:induction false} SumOverChildren(t: AccountTotals, kids: set<AccountId>, c: Code)
    requires forall k, m :: k in kids && m in kids && k != m ==> Contributors(t, k) !! Contributors(t, m)
    ensures SetSum(Below(t, kids), OwnIn(t.own, c)) == SetSum(kids, SubtotalIn(t, c))
    decreases kids
  {
    if kids == {} {
      assert Below(t, kids) == {};
    } else {
      var k :| k in kids;
      var rest := kids - {k};
      SumOverChildren(t, rest, c);
      assert Below(t, kids) == Below(t, rest) + Contributors(t, k);
      assert Below(t, rest) !! Contributors(t, k);
      SetSumUnion(Below(t, rest), Contributors(t, k), OwnIn(t.own, c));
      SetSumRemove(kids, k, SubtotalIn(t, c));
    }
  }

  /**
   * Without cycles the roll-up obeys the tree recurrence: an account's own totals, when it is
   * active, plus the subtotals of its children, an archived child passing its subtotal through.
   */
  lemma SubtotalRecurrence(t: AccountTotals, a: AccountId, c: Code)
    requires forall x :: !StrictlyReaches(LinksOf(t.accounts), x, x)
    ensures SubtotalIn(t, c)(a) ==
            (if a in Starts(t) then OwnIn(t.own, c)(a) else 0.0) + SetSum(ChildrenOf(t.accounts, a), SubtotalIn(t, c))
  {
    var kids, f := ChildrenOf(t.accounts, a), OwnIn(t.own, c);
    ContributorsSplit(t, a);
    SumOverChildren(t, kids, c);
    if a in Starts(t) {
      assert a !in Below(t, kids);
      assert Contributors(t, a) == Below(t, kids) + {a};
      SetSumAdd(Below(t, kids), a, f);
    } else {
      assert Contributors(t, a) == Below(t, kids);
    }
  }

  lemma ChildStrictlyReaches(links: Links, k: AccountId, a: AccountId)
    requires Parent(links, k) == Some(a)
    ensures StrictlyReaches(links, k, a)
  {
    assert Up(links, k, 0) == Some(k);
    assert Up(links, k, 1) == Some(a);
  }

  /** The last account before `a` on the way up from `x`. */
  lemma LastStep(links: Links, x: AccountId, a: AccountId) returns (k: AccountId)
    requires Reaches(links, x, a) && x != a
    ensures Reaches(links, x, k) && Parent(links, k) == Some(a)
  {
    var n: nat :| Up(links, x, n) == Some(a);
    k := Up(links, x, n - 1).value;
  }

  lemma OneChildPerDescendant(links: Links, x: AccountId, k: AccountId, m: AccountId, a: AccountId)
    requires Reaches(links, x, k) && Reaches(links, x, m) && k != m
    requires Parent(links, k) == Some(a) && Parent(links, m) == Some(a)
    ensures StrictlyReaches(links, a, a)
  {
    var i: nat, j: nat :| Up(links, x, i) == Some(k) && Up(links, x, j) == Some(m);
    if i < j {
      TwoChildrenClose(links, x, i, j, k, m, a);
    } else {
      TwoChildrenClose(links, x, j, i, m, k, a);
    }
  }

  /** Two distinct children of `a` on one chain put a cycle through `a`. */
  lemma TwoChildrenClose(links: Links, x: AccountId, i: nat, j: nat, k: AccountId, m: AccountId, a: AccountId)
    requires Up(links, x, i) == Some(k) && Up(links, x, j) == Some(m) && i <= j && k != m
    requires Parent(links, k) == Some(a) && Parent(links, m) == Some(a)
    ensures StrictlyReaches(links, a, a)
  {
    UpSplit(links, x, i, j - i);
    assert Up(links, k, j - i) == Some(m);
    ReachesThroughParent(links, k, m);
    assert Reaches(links, a, m);
    ChildStrictlyReaches(links, m, a);
    ReachesThroughParent(links, m, a);
    ReachesSelf(links, a);
    ReachesIsTransitive(links, a, m, a);
  }
}
