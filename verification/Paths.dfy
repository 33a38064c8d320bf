/** Account paths: walking segment names from a root, and what growth of the table does to a walk. */
module Paths {
  import opened Prelude
  import opened AccountModel

  type Path = seq<string>

  predicate Named(accounts: Accounts, x: AccountId, name: string, parent: Option<AccountId>) {
    x in accounts && accounts[x].name == name && accounts[x].parent == parent
  }

  /** The account with that name under that parent, if there is one. */
  ghost function ChildNamed(accounts: Accounts, name: string, parent: Option<AccountId>): (child: Option<AccountId>)
    ensures child.Some? ==> Named(accounts, child.value, name, parent)
    ensures child.None? ==> forall x :: !Named(accounts, x, name, parent)
  {
    if exists x :: Named(accounts, x, name, parent) then
      var x :| Named(accounts, x, name, parent);
      Some(x)
    else None
  }

  lemma OneChildNamed(accounts: Accounts, x: AccountId, name: string, parent: Option<AccountId>)
    requires NamesDistinct(accounts) && Named(accounts, x, name, parent)
    ensures ChildNamed(accounts, name, parent) == Some(x)
  {
  }

  /** The account a path names: its segments walked from a root. */
  ghost function At(accounts: Accounts, path: Path): (x: Option<AccountId>)
    requires path != []
    ensures x.Some? ==> x.value in accounts && accounts[x.value].name == path[|path| - 1]
  {
    var last := |path| - 1;
    if last == 0 then ChildNamed(accounts, path[0], None)
    else
      match At(accounts, path[..last])
      case None => None
      case Some(p) => ChildNamed(accounts, path[last], Some(p))
  }

  /** Where the account after `path` hangs: nowhere for the first segment. */
  ghost function ParentAt(accounts: Accounts, path: Path): Option<AccountId> {
    if path == [] then None else At(accounts, path)
  }

  lemma AtStep(accounts: Accounts, path: Path, name: string)
    requires path == [] || At(accounts, path).Some?
    ensures At(accounts, path + [name]) == ChildNamed(accounts, name, ParentAt(accounts, path))
  {
    assert (path + [name])[..|path|] == path;
  }

  /** A path that names an account has prefixes that do. */
  lemma {:induction false} AtPrefix(accounts: Accounts, path: Path, n: nat)
    requires 0 < n <= |path| && At(accounts, path).Some?
    ensures At(accounts, path[..n]).Some?
  {
    if n < |path| {
      AtPrefix(accounts, path[..|path| - 1], n);
      assert path[..|path| - 1][..n] == path[..n];
    } else {
      assert path[..n] == path;
    }
  }

  /** An account has one path. */
  lemma {:induction false} OnePath(accounts: Accounts, one: Path, two: Path)
    requires one != [] && two != [] && At(accounts, one).Some? && At(accounts, one) == At(accounts, two)
    ensures one == two
  {
    var m, n := |one| - 1, |two| - 1;
    assert accounts[At(accounts, one).value].parent == ParentAt(accounts, one[..m]);
    assert accounts[At(accounts, two).value].parent == ParentAt(accounts, two[..n]);
    if m > 0 && n > 0 {
      OnePath(accounts, one[..m], two[..n]);
    }
    assert one == one[..m] + [one[m]] && two == two[..n] + [two[n]];
  }

  /** Every account of `before` is unchanged in `after`. */
  predicate Extends(before: Accounts, after: Accounts) {
    forall x :: x in before ==> x in after && after[x] == before[x]
  }

  lemma ExtendsThrough(a: Accounts, b: Accounts, c: Accounts)
    requires Extends(a, b) && Extends(b, c)
    ensures Extends(a, c)
  {
  }

  /** A path keeps naming the account it names. */
  lemma {:induction false} AtGrows(before: Accounts, after: Accounts, path: Path)
    requires Extends(before, after) && NamesDistinct(after) && path != [] && At(before, path).Some?
    ensures At(after, path) == At(before, path)
  {
    var last := |path| - 1;
    if last == 0 {
    } else {
      AtGrows(before, after, path[..last]);
    }
    OneChildNamed(after, At(before, path).value, path[last], before[At(before, path).value].parent);
  }

  /** A path that names an old account named it before. */
  lemma {:induction false} AtWas(before: Accounts, after: Accounts, path: Path)
    requires Extends(before, after) && NamesDistinct(before) && ParentsKnown(before)
    requires path != [] && At(after, path).Some? && At(after, path).value in before
    ensures At(before, path) == At(after, path)
  {
    var last, x := |path| - 1, At(after, path).value;
    if last == 0 {
    } else {
      AtWas(before, after, path[..last]);
    }
    OneChildNamed(before, x, path[last], before[x].parent);
  }
}
