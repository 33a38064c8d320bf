/** What a path to materialise asks for, when a table accepts it, and the row each new segment gets. */
module PathRules {
  import opened Prelude
  import opened AccountModel
  import opened Paths
  import Depreciation

  /** A path to materialise; what is absent or empty is not asked for. */
  datatype PathSpec = PathSpec(segments: Path, accountType: Option<AccountType>, kind: Option<Depreciation.Kind>,
                               description: Option<string>, acquired: Option<Date>, cost: Option<Decimal>,
                               policy: Option<Depreciation.Policy>, commodities: seq<nat>, tags: seq<TagId>, openedOn: Option<Date>)

  /** The five root names that imply a type. */
  predicate NamesType(root: string, t: AccountType) {
    || (root == "Assets" && t == Asset)
    || (root == "Liabilities" && t == Liability)
    || (root == "Equity" && t == Equity)
    || (root == "Income" && t == Income)
    || (root == "Expenses" && t == Expense)
  }

  /**
   * `t` is the type the path takes: its root's, which a request must match; else the requested; else the root name's.
   */
  ghost predicate Takes(accounts: Accounts, spec: PathSpec, t: AccountType)
    requires spec.segments != []
  {
    var root := At(accounts, spec.segments[..1]);
    if root.Some? then t == accounts[root.value].accountType && (spec.accountType.Some? ==> spec.accountType.value == t)
    else if spec.accountType.Some? then t == spec.accountType.value
    else NamesType(spec.segments[0], t)
  }

  /** An existing leaf has everything that was asked for; commodities compare in order, tags as sets. */
  ghost predicate Agrees(a: Account, spec: PathSpec) {
    && (spec.kind.Some? ==> a.details.kind == spec.kind.value)
    && (spec.description.Some? ==> a.details.description == spec.description)
    && (spec.acquired.Some? ==> a.details.acquired == spec.acquired)
    && (spec.cost.Some? ==> a.details.cost == spec.cost)
    && (spec.policy.Some? ==> a.details.policy == spec.policy)
    && (spec.openedOn.Some? ==> a.openedOn == spec.openedOn)
    && (spec.commodities != [] ==> a.details.commodities == spec.commodities)
    && (spec.tags != [] ==> forall x: TagId :: x in a.details.tags <==> x in spec.tags)
  }

  /** A new leaf is a deposit account unless another kind was asked for. */
  function KindFor(spec: PathSpec): Depreciation.Kind {
    match spec.kind
    case Some(kind) => kind
    case None => Depreciation.DepositAccount
  }

  /** Asset fields were asked for on a leaf that is no manual asset. */
  predicate AsksMisplaced(spec: PathSpec) {
    spec.kind != Some(Depreciation.ManualAsset) && (spec.acquired.Some? || spec.cost.Some? || spec.policy.Some?)
  }

  /** No commodity and no tag was asked for twice. */
  predicate AsksOnce(spec: PathSpec) {
    && (forall i, j :: 0 <= i < j < |spec.commodities| ==> spec.commodities[i] != spec.commodities[j])
    && (forall i, j :: 0 <= i < j < |spec.tags| ==> spec.tags[i] != spec.tags[j])
  }

  predicate IsLeaf(spec: PathSpec, i: nat) {
    i + 1 == |spec.segments|
  }

  /** The account segment `i` would hang under exists already, archived or closed. */
  ghost predicate Shut(accounts: Accounts, spec: PathSpec, i: nat)
    requires i < |spec.segments|
  {
    && i > 0 && At(accounts, spec.segments[..i]).Some?
    && var parent := accounts[At(accounts, spec.segments[..i]).value];
       parent.archived || parent.closedOn.Some?
  }

  /** Segment `i` can be reused, or else created. */
  ghost predicate SegmentAccepted(accounts: Accounts, spec: PathSpec, i: nat)
    requires i < |spec.segments|
  {
    var here := At(accounts, spec.segments[..i + 1]);
    if here.Some? then IsLeaf(spec, i) ==> Agrees(accounts[here.value], spec)
    else !Shut(accounts, spec, i) && (IsLeaf(spec, i) ==> !AsksMisplaced(spec) && AsksOnce(spec))
  }

  /** Why it cannot be. */
  ghost function SegmentError(accounts: Accounts, spec: PathSpec, i: nat): Error
    requires i < |spec.segments|
  {
    if At(accounts, spec.segments[..i + 1]).Some? then InvalidInput
    else if Shut(accounts, spec, i) || (IsLeaf(spec, i) && AsksMisplaced(spec)) then BadData
    else Database
  }

  ghost predicate AcceptedBefore(accounts: Accounts, spec: PathSpec, n: nat)
    requires n <= |spec.segments|
  {
    forall i :: 0 <= i < n ==> SegmentAccepted(accounts, spec, i)
  }

  /** The whole path can be materialised. */
  ghost predicate Accepted(accounts: Accounts, spec: PathSpec) {
    && spec.segments != []
    && (exists t :: Takes(accounts, spec, t))
    && AcceptedBefore(accounts, spec, |spec.segments|)
  }

  /** Why it cannot: no segments, no type, or the first segment that is not accepted. */
  ghost predicate Refused(accounts: Accounts, spec: PathSpec, e: Error) {
    if spec.segments == [] then e == BadData
    else if !exists t :: Takes(accounts, spec, t) then e == InvalidInput
    else exists i :: RefusedAt(accounts, spec, i, e)
  }

  ghost predicate RefusedAt(accounts: Accounts, spec: PathSpec, i: nat, e: Error) {
    && i < |spec.segments| && AcceptedBefore(accounts, spec, i)
    && !SegmentAccepted(accounts, spec, i) && e == SegmentError(accounts, spec, i)
  }

  /** The row of a new segment: open and active; a leaf carries what was asked for, an ancestor is a bare group. */
  predicate RowFor(a: Account, spec: PathSpec, i: nat, t: AccountType, parent: Option<AccountId>)
    requires i < |spec.segments|
  {
    && a.name == spec.segments[i] && a.accountType == t && a.parent == parent
    && a.closedOn.None? && !a.archived
    && if IsLeaf(spec, i) then
         && a.openedOn == spec.openedOn
         && a.details == Details(KindFor(spec), spec.description, spec.acquired, spec.cost, spec.policy, spec.commodities, spec.tags)
       else
         && a.openedOn.None?
         && a.details == Details(Depreciation.Group, None, None, None, None, [], [])
  }

  /** Every segment below `n` that `before` lacks has in `after` the row the path asks for. */
  ghost predicate RowsMade(before: Accounts, after: Accounts, spec: PathSpec, t: AccountType, n: nat)
    requires n <= |spec.segments|
  {
    forall j :: 0 <= j < n && !Stands(before, spec, j) ==> RowMade(after, spec, t, j)
  }

  ghost predicate RowMade(after: Accounts, spec: PathSpec, t: AccountType, j: nat)
    requires j < |spec.segments|
  {
    var here := At(after, spec.segments[..j + 1]);
    here.Some? && RowFor(after[here.value], spec, j, t, ParentAt(after, spec.segments[..j]))
  }

  /** Every segment of the path that was missing now has the row asked for, all of the one type the path takes. */
  ghost predicate AsAsked(before: Accounts, after: Accounts, spec: PathSpec) {
    spec.segments != [] && exists t :: Takes(before, spec, t) && RowsMade(before, after, spec, t, |spec.segments|)
  }

  /** No segment from `n` on that `before` lacks is there yet. */
  ghost predicate NotYetFrom(before: Accounts, now: Accounts, spec: PathSpec, n: nat) {
    forall j :: n <= j < |spec.segments| && !Stands(before, spec, j) ==> !Stands(now, spec, j)
  }

  /** Segment `j` names an account. */
  ghost predicate Stands(accounts: Accounts, spec: PathSpec, j: nat)
    requires j < |spec.segments|
  {
    At(accounts, spec.segments[..j + 1]).Some?
  }

  /** Walking on, a segment is accepted as it was at the start: the accounts made since are open and active. */
  lemma SameVerdict(before: Accounts, now: Accounts, spec: PathSpec, t: AccountType, i: nat)
    requires i < |spec.segments| && Extends(before, now) && NamesDistinct(now)
    requires NotYetFrom(before, now, spec, i) && RowsMade(before, now, spec, t, i)
    ensures SegmentAccepted(now, spec, i) <==> SegmentAccepted(before, spec, i)
    ensures SegmentError(now, spec, i) == SegmentError(before, spec, i)
  {
    assert !Stands(before, spec, i) ==> !Stands(now, spec, i);
    if Stands(before, spec, i) {
      AtGrows(before, now, spec.segments[..i + 1]);
    }
    if i > 0 {
      assert Stands(before, spec, i - 1) <==> At(before, spec.segments[..i]).Some?;
      if At(before, spec.segments[..i]).Some? {
        AtGrows(before, now, spec.segments[..i]);
      } else {
        assert RowMade(now, spec, t, i - 1);
      }
    }
  }

  lemma RowStays(now: Accounts, next: Accounts, spec: PathSpec, t: AccountType, j: nat)
    requires j < |spec.segments| && Extends(now, next) && NamesDistinct(next) && RowMade(now, spec, t, j)
    requires j > 0 ==> At(now, spec.segments[..j]).Some?
    ensures RowMade(next, spec, t, j)
  {
    AtGrows(now, next, spec.segments[..j + 1]);
    if j > 0 {
      AtGrows(now, next, spec.segments[..j]);
    }
  }

  lemma EarlierRowStays(before: Accounts, now: Accounts, next: Accounts, spec: PathSpec, t: AccountType, i: nat, j: nat)
    requires j < i < |spec.segments| && Extends(now, next) && NamesDistinct(next)
    requires RowsMade(before, now, spec, t, i) && !Stands(before, spec, j)
    requires At(now, spec.segments[..i]).Some?
    ensures RowMade(next, spec, t, j)
  {
    assert RowMade(now, spec, t, j);
    hide RowMade, RowsMade, Extends, NamesDistinct, At, Stands;
    if j > 0 {
      AtPrefix(now, spec.segments[..i], j);
      assert spec.segments[..i][..j] == spec.segments[..j];
    }
    RowStays(now, next, spec, t, j);
  }

  lemma ThisRowMade(before: Accounts, now: Accounts, next: Accounts, spec: PathSpec, t: AccountType, i: nat)
    requires i < |spec.segments| && NotYetFrom(before, now, spec, i)
    requires At(now, spec.segments[..i + 1]).None? ==> RowMade(next, spec, t, i)
    ensures !Stands(before, spec, i) ==> RowMade(next, spec, t, i)
  {
    hide RowMade;
    assert !Stands(before, spec, i) ==> !Stands(now, spec, i);
  }

  /** One segment on: what was made stays, and this segment's row is what was asked for. */
  lemma RowsMadeOn(before: Accounts, now: Accounts, next: Accounts, spec: PathSpec, t: AccountType, i: nat)
    requires i < |spec.segments| && Extends(now, next) && NamesDistinct(next)
    requires RowsMade(before, now, spec, t, i) && NotYetFrom(before, now, spec, i)
    requires i > 0 ==> At(now, spec.segments[..i]).Some?
    requires At(now, spec.segments[..i + 1]).None? ==> RowMade(next, spec, t, i)
    ensures RowsMade(before, next, spec, t, i + 1)
  {
    hide *;
    ThisRowMade(before, now, next, spec, t, i);
    forall j | 0 <= j < i && !Stands(before, spec, j) ensures RowMade(next, spec, t, j) {
      EarlierRowStays(before, now, next, spec, t, i, j);
    }
    RowsMadeIf(before, next, spec, t, i + 1);
  }

  lemma RowsMadeIf(before: Accounts, after: Accounts, spec: PathSpec, t: AccountType, n: nat)
    requires n <= |spec.segments| && forall j :: 0 <= j < n && !Stands(before, spec, j) ==> RowMade(after, spec, t, j)
    ensures RowsMade(before, after, spec, t, n)
  {
  }

  /** One segment on: what was made now lies at that segment, so the later ones are still missing. */
  lemma NotYetOn(before: Accounts, now: Accounts, next: Accounts, spec: PathSpec, i: nat, id: AccountId)
    requires i < |spec.segments| && NotYetFrom(before, now, spec, i)
    requires Extends(now, next) && NamesDistinct(now) && ParentsKnown(now)
    requires next == now || (next.Keys == now.Keys + {id} && At(next, spec.segments[..i + 1]) == Some(id))
    ensures NotYetFrom(before, next, spec, i + 1)
  {
    forall j | i + 1 <= j < |spec.segments| && !Stands(before, spec, j) ensures !Stands(next, spec, j) {
      assert !Stands(now, spec, j);
      if next != now {
        AtOtherPath(now, next, id, spec.segments[..i + 1], spec.segments[..j + 1]);
      }
    }
  }

  // ----- Types and names along a path -----

  /** Every account of a path has the type of its root. */
  lemma {:induction false} TypeAlong(accounts: Accounts, path: Path)
    requires Forest(accounts) && path != [] && At(accounts, path).Some?
    ensures At(accounts, path[..1]).Some?
    ensures accounts[At(accounts, path).value].accountType == accounts[At(accounts, path[..1]).value].accountType
  {
    var last := |path| - 1;
    if last == 0 {
      assert path[..1] == path;
    } else {
      AtPrefix(accounts, path, last);
      TypeAlong(accounts, path[..last]);
      assert path[..last][..1] == path[..1];
      assert ChildOf(accounts, At(accounts, path).value, At(accounts, path[..last]).value);
    }
  }

  /** Adding an account at one path names nothing at another. */
  lemma AtOtherPath(before: Accounts, after: Accounts, id: AccountId, made: Path, path: Path)
    requires Extends(before, after) && NamesDistinct(before) && ParentsKnown(before)
    requires forall x :: x in after ==> x in before || x == id
    requires made != [] && At(after, made) == Some(id) && path != [] && path != made
    requires At(before, path).None?
    ensures At(after, path).None?
  {
    if At(after, path).Some? {
      if At(after, path).value in before {
        AtWas(before, after, path);
      } else {
        OnePath(after, path, made);
      }
    }
  }
}
