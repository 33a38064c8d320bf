/** Walking upward through parent links, which may be broken or close a cycle. */
module Parents {
  import opened Prelude

  /** Each known account's parent, if it names one. */
  type Links = map<AccountId, Option<AccountId>>

  function Parent(links: Links, x: AccountId): Option<AccountId> {
    if x in links then links[x] else None
  }

  /** The account `n` parent links above `x`. */
  function Up(links: Links, x: AccountId, n: nat): Option<AccountId> {
    if n == 0 then Some(x)
    else
      match Up(links, x, n - 1)
      case None => None
      case Some(y) => Parent(links, y)
  }

  /** `a` is `x` or lies on the parent chain of `x`. */
  ghost predicate Reaches(links: Links, x: AccountId, a: AccountId) {
    exists n: nat :: Up(links, x, n) == Some(a)
  }

  /** `a` lies strictly above `x`. */
  ghost predicate StrictlyReaches(links: Links, x: AccountId, a: AccountId) {
    exists n: nat :: n > 0 && Up(links, x, n) == Some(a)
  }

  lemma {:induction false} UpSplit(links: Links, x: AccountId, m: nat, n: nat)
    requires Up(links, x, m).Some?
    ensures Up(links, x, m + n) == Up(links, Up(links, x, m).value, n)
  {
    if n == 0 {
    } else {
      UpSplit(links, x, m, n - 1);
    }
  }

  lemma ReachesSelf(links: Links, x: AccountId)
    ensures Reaches(links, x, x)
  {
    assert Up(links, x, 0) == Some(x);
  }

  lemma ReachesParent(links: Links, x: AccountId, y: AccountId)
    requires Reaches(links, x, y) && Parent(links, y).Some?
    ensures Reaches(links, x, Parent(links, y).value)
  {
    var n: nat :| Up(links, x, n) == Some(y);
    assert Up(links, x, n + 1) == Parent(links, y);
  }

  /** A set closed under known parents holds everything its members reach. */
  lemma {:induction false} ClosedHoldsReach(links: Links, s: set<AccountId>, x: AccountId, n: nat)
    requires x in s
    requires forall y :: y in s && Parent(links, y).Some? ==> Parent(links, y).value in s
    ensures Up(links, x, n).Some? ==> Up(links, x, n).value in s
  {
    if n == 0 {
    } else {
      ClosedHoldsReach(links, s, x, n - 1);
    }
  }

  /** Reaching something other than oneself goes through one's parent. */
  lemma ReachesThroughParent(links: Links, x: AccountId, a: AccountId)
    ensures StrictlyReaches(links, x, a) <==> Parent(links, x).Some? && Reaches(links, Parent(links, x).value, a)
    ensures Reaches(links, x, a) <==> x == a || StrictlyReaches(links, x, a)
  {
    assert Up(links, x, 0) == Some(x);
    assert Up(links, x, 1) == Parent(links, x);
    if StrictlyReaches(links, x, a) {
      var n: nat :| n > 0 && Up(links, x, n) == Some(a);
      if Parent(links, x).Some? {
        UpSplit(links, x, 1, n - 1);
      } else {
        UpStaysNone(links, x, 1, n);
      }
    }
    if Parent(links, x).Some? && Reaches(links, Parent(links, x).value, a) {
      var n: nat :| Up(links, Parent(links, x).value, n) == Some(a);
      UpSplit(links, x, 1, n);
      assert Up(links, x, n + 1) == Some(a);
    }
    if Reaches(links, x, a) && x != a {
      var n: nat :| Up(links, x, n) == Some(a);
      assert n > 0;
    }
  }

  lemma {:induction false} UpStaysNone(links: Links, x: AccountId, m: nat, n: nat)
    requires Up(links, x, m).None? && m <= n
    ensures Up(links, x, n).None?
  {
    if m < n {
      UpStaysNone(links, x, m, n - 1);
    }
  }

  lemma ReachesIsTransitive(links: Links, x: AccountId, y: AccountId, z: AccountId)
    requires Reaches(links, x, y) && Reaches(links, y, z)
    ensures Reaches(links, x, z)
    ensures StrictlyReaches(links, x, y) || StrictlyReaches(links, y, z) ==> StrictlyReaches(links, x, z)
  {
    var m: nat, n: nat :| Up(links, x, m) == Some(y) && Up(links, y, n) == Some(z);
    UpSplit(links, x, m, n);
    assert Up(links, x, m + n) == Some(z);
    if StrictlyReaches(links, x, y) {
      var k: nat :| k > 0 && Up(links, x, k) == Some(y);
      UpSplit(links, x, k, n);
      assert Up(links, x, k + n) == Some(z);
    }
    if StrictlyReaches(links, y, z) {
      var k: nat :| k > 0 && Up(links, y, k) == Some(z);
      UpSplit(links, x, m, k);
      assert Up(links, x, m + k) == Some(z);
    }
  }
}
