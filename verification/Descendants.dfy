/** The descendant query: children of children, row by row, with no duplicate elimination. */
module Descendants {
  import opened Prelude
  import opened Seqs
  import opened Parents
  import opened AccountModel

  lemma Apart(a: seq<AccountId>, b: seq<AccountId>, x: AccountId)
    requires NoRepeats(a + b) && x in b
    ensures x !in a
  {
    var j :| 0 <= j < |b| && b[j] == x;
    assert (a + b)[|a| + j] == x;
    forall i | 0 <= i < |a| ensures a[i] != x {
      assert (a + b)[i] == a[i];
    }
  }

  lemma NoRepeatsConcat(a: seq<AccountId>, b: seq<AccountId>)
    requires NoRepeats(a) && NoRepeats(b) && forall x :: x in a ==> x !in b
    ensures NoRepeats(a + b)
  {
    var c := a + b;
    forall i, j | 0 <= i < j < |c| ensures c[i] != c[j] {
      if i < |a| <= j {
        assert c[i] in a && c[j] in b;
      }
    }
  }

  method ListOf(ids: set<AccountId>) returns (list: seq<AccountId>)
    ensures NoRepeats(list) && forall x :: x in list <==> x in ids
  {
    list := [];
    var rest := ids;
    while rest != {}
      invariant rest <= ids && NoRepeats(list)
      invariant forall x :: x in list <==> x in ids - rest
      decreases rest
    {
      var x :| x in rest;
      NoRepeatsConcat(list, [x]);
      list, rest := list + [x], rest - {x};
    }
  }

  function Children(accounts: Accounts, p: AccountId): set<AccountId> {
    set x | x in accounts && accounts[x].parent == Some(p)
  }

  /** `a` itself, or already listed: the rows whose children have been queued. */
  predicate Expanded(a: AccountId, listed: seq<AccountId>, x: AccountId) {
    x == a || x in listed
  }

  /** Between rows: the listed and queued rows are distinct descendants, and exactly the children of expanded rows. */
  ghost predicate Progress(accounts: Accounts, a: AccountId, listed: seq<AccountId>, queue: seq<AccountId>) {
    && NoRepeats(listed + queue)
    && (forall x :: x in listed + queue ==> Below(accounts, x, a))
    && (forall x :: x in listed + queue ==> accounts[x].parent.Some? && Expanded(a, listed, accounts[x].parent.value))
    && (forall x, p :: x in Children(accounts, p) && Expanded(a, listed, p) ==> x in listed + queue)
  }

  lemma ProgressStarts(accounts: Accounts, a: AccountId, children: seq<AccountId>)
    requires NoRepeats(children) && forall x :: x in children <==> x in Children(accounts, a)
    ensures Progress(accounts, a, [], children)
  {
    assert [] + children == children;
    forall x | x in children ensures Below(accounts, x, a) {
      ReachesSelf(LinksOf(accounts), a);
      ReachesThroughParent(LinksOf(accounts), x, a);
    }
  }

  lemma ProgressStep(accounts: Accounts, a: AccountId, listed: seq<AccountId>, queue: seq<AccountId>,
                     children: seq<AccountId>)
    requires Acyclic(accounts) && Progress(accounts, a, listed, queue) && queue != []
    requires NoRepeats(children) && forall x :: x in children <==> x in Children(accounts, queue[0])
    ensures Progress(accounts, a, listed + [queue[0]], queue[1..] + children)
    ensures queue[0] !in listed && queue[0] in accounts
  {
    var p := queue[0];
    var all := listed + queue;
    assert all[|listed|] == p && p in all;
    Apart(listed, queue, p);
    forall x | x in children ensures x !in all && Below(accounts, x, a) {
      ReachesThroughParent(LinksOf(accounts), x, a);
      ReachesThroughParent(LinksOf(accounts), p, a);
      assert p != a;
      assert x in all ==> Expanded(a, listed, p);
    }
    NoRepeatsConcat(all, children);
    assert (listed + [p]) + (queue[1..] + children) == all + children;
    NewlyExpanded(accounts, a, listed, queue, children);
  }

  lemma NewlyExpanded(accounts: Accounts, a: AccountId, listed: seq<AccountId>, queue: seq<AccountId>,
                      children: seq<AccountId>)
    requires Progress(accounts, a, listed, queue) && queue != []
    requires forall x :: x in children <==> x in Children(accounts, queue[0])
    ensures var all, now := listed + queue + children, listed + [queue[0]];
            && (forall x :: x in all ==>
                x in accounts && accounts[x].parent.Some? && Expanded(a, now, accounts[x].parent.value))
            && (forall x, p :: x in Children(accounts, p) && Expanded(a, now, p) ==> x in all)
  {
  }

  lemma ChildIsListed(accounts: Accounts, a: AccountId, listed: seq<AccountId>, x: AccountId, p: AccountId)
    requires Progress(accounts, a, listed, []) && x in Children(accounts, p) && Expanded(a, listed, p)
    ensures x in listed
  {
    hide NoRepeats, Below;
    assert listed + [] == listed;
  }

  /** When nothing is queued, every descendant is listed. */
  lemma {:induction false} AllListed(accounts: Accounts, a: AccountId, listed: seq<AccountId>, x: AccountId, n: nat)
    requires ParentsKnown(accounts) && Progress(accounts, a, listed, []) && x in accounts && n > 0 &&
             Up(LinksOf(accounts), x, n) == Some(a)
    ensures x in listed
    decreases n
  {
    hide Progress, Acyclic;
    var links := LinksOf(accounts);
    if Parent(links, x).None? {
      UpStaysNone(links, x, 1, n);
    } else {
      var p := Parent(links, x).value;
      UpSplit(links, x, 1, n - 1);
      assert x in Children(accounts, p);
      if n > 1 {
        AllListed(accounts, a, listed, p, n - 1);
      }
      ChildIsListed(accounts, a, listed, x, p);
    }
  }

  /** Every account below `a`, each once; it terminates because the forest has no cycle. */
  method DescendantsOf(accounts: Accounts, a: AccountId) returns (listed: seq<AccountId>)
    requires ParentsKnown(accounts) && Acyclic(accounts)
    ensures IsDescendants(accounts, a, listed)
  {
    hide Acyclic, Progress, ParentsKnown, IsDescendants, Children;
    var queue := ListOf(Children(accounts, a));
    listed := [];
    ProgressStarts(accounts, a, queue);
    ghost var left := accounts.Keys;
    while queue != []
      invariant Progress(accounts, a, listed, queue)
      invariant left <= accounts.Keys && forall x :: x in accounts && x !in listed ==> x in left
      invariant forall x :: x in listed ==> x !in left
      decreases left
    {
      var children := ListOf(Children(accounts, queue[0]));
      ProgressStep(accounts, a, listed, queue, children);
      left := left - {queue[0]};
      listed, queue := listed + [queue[0]], queue[1..] + children;
    }
    Finished(accounts, a, listed);
  }

  lemma Finished(accounts: Accounts, a: AccountId, listed: seq<AccountId>)
    requires ParentsKnown(accounts) && Progress(accounts, a, listed, [])
    ensures IsDescendants(accounts, a, listed)
  {
    assert listed + [] == listed;
    forall x | Below(accounts, x, a) ensures x in listed {
      var n: nat :| n > 0 && Up(LinksOf(accounts), x, n) == Some(a);
      AllListed(accounts, a, listed, x, n);
    }
  }
}
