/** The account table as a value: a forest whose lifecycle calls keep closed and archived subtrees whole. */
module AccountModel {
  import opened Prelude
  import opened Seqs
  import opened Parents
  import Depreciation

  datatype AccountType = Asset | Liability | Equity | Income | Expense

  datatype Cascade = Reject | Into

  /** What an account holds besides its place in the tree and its lifecycle. */
  datatype Details = Details(kind: Depreciation.Kind, description: Option<string>, acquired: Option<Date>, cost: Option<Decimal>,
                             policy: Option<Depreciation.Policy>, commodities: seq<nat>, tags: seq<TagId>)

  datatype Account = Account(name: string, accountType: AccountType, parent: Option<AccountId>, openedOn: Option<Date>,
                             closedOn: Option<Date>, archived: bool, details: Details)

  type Accounts = map<AccountId, Account>

  datatype Event =
    | AccountCreated(id: AccountId, name: string, accountType: AccountType, openedOn: Option<Date>)
    | AccountArchived(id: AccountId)
    | AccountClosed(id: AccountId, closedOn: Date)
    | AccountReopened(id: AccountId)
    | AccountOpenedOnChanged(id: AccountId, from: Option<Date>, until: Option<Date>)

  /** A call's answer, the table after it, and the events it logged. */
  datatype Outcome = Outcome(result: Result<()>, accounts: Accounts, log: seq<Event>)

  function Rejected(accounts: Accounts, error: Error): Outcome {
    Outcome(Err(error), accounts, [])
  }

  // ----- The tree -----

  function LinksOf(accounts: Accounts): Links {
    map id | id in accounts :: accounts[id].parent
  }

  /** `x` lies strictly below `a`. */
  ghost predicate Below(accounts: Accounts, x: AccountId, a: AccountId) {
    x in accounts && StrictlyReaches(LinksOf(accounts), x, a)
  }

  /** Exactly the accounts below `a`, each once. */
  ghost predicate IsDescendants(accounts: Accounts, a: AccountId, descendants: seq<AccountId>) {
    && (forall x :: x in descendants <==> Below(accounts, x, a))
    && NoRepeats(descendants)
  }

  function IsOpen(accounts: Accounts): AccountId -> bool {
    (x: AccountId) => x in accounts && accounts[x].closedOn.None?
  }

  function IsActive(accounts: Accounts): AccountId -> bool {
    (x: AccountId) => x in accounts && !accounts[x].archived
  }

  /** Those of `ids` satisfying `p`, in order. */
  function Keep(ids: seq<AccountId>, p: AccountId -> bool): (kept: seq<AccountId>)
    ensures forall x :: x in kept <==> x in ids && p(x)
  {
    FilterMembers(ids, p);
    Filter(ids, p)
  }

  // ----- Guards -----

  predicate ClosesBeforeOpen(on: Date, openedOn: Option<Date>) {
    openedOn.Some? && on < openedOn.value
  }

  predicate OpensAfterClose(opening: Date, closedOn: Option<Date>) {
    closedOn.Some? && opening > closedOn.value
  }

  /** Some of `ids` opened after `on`. */
  predicate AnyOpensAfter(accounts: Accounts, ids: seq<AccountId>, on: Date)
    requires forall x :: x in ids ==> x in accounts
  {
    exists x :: x in ids && ClosesBeforeOpen(on, accounts[x].openedOn)
  }

  predicate SiblingTaken(accounts: Accounts, name: string, parent: Option<AccountId>) {
    exists x :: x in accounts && accounts[x].name == name && accounts[x].parent == parent
  }

  // ----- The calls -----

  /** Why a new account is refused, if it is. */
  function CreateError(accounts: Accounts, a: Account): Option<Error> {
    if a.details.kind != Depreciation.ManualAsset && (a.details.acquired.Some? || a.details.cost.Some? || a.details.policy.Some?)
    then Some(BadData)
    else if a.parent.Some? && a.parent.value !in accounts then Some(NotFound)
    else if a.parent.Some? && (accounts[a.parent.value].accountType != a.accountType || accounts[a.parent.value].archived
                               || accounts[a.parent.value].closedOn.Some?)
    then Some(BadData)
    else if SiblingTaken(accounts, a.name, a.parent) || !NoRepeats(a.details.commodities) || !NoRepeats(a.details.tags)
    then Some(Database)
    else None
  }

  /** `a` starts open and active under a minted id. */
  function CreateStep(accounts: Accounts, id: AccountId, a: Account): Outcome {
    match CreateError(accounts, a)
    case Some(e) => Rejected(accounts, e)
    case None => Outcome(Ok(()), accounts[id := a], [AccountCreated(id, a.name, a.accountType, a.openedOn)])
  }

  /** An account under its id. */
  datatype Record = Record(id: AccountId, account: Account)

  /** Ids the table does not have, each once, for open and active accounts. */
  predicate NewRows(accounts: Accounts, rows: seq<Record>) {
    && (forall i :: 0 <= i < |rows| ==> NewRow(accounts, rows[i]))
    && (forall i, j :: 0 <= i < j < |rows| ==> rows[i].id != rows[j].id)
  }

  predicate NewRow(accounts: Accounts, row: Record) {
    row.id !in accounts && row.account.closedOn.None? && !row.account.archived
  }

  /** Creates every row in turn, or nothing when one of them is refused. */
  function CreateEach(accounts: Accounts, rows: seq<Record>): Outcome {
    if rows == [] then Outcome(Ok(()), accounts, [])
    else
      var before, last := CreateEach(accounts, rows[..|rows| - 1]), rows[|rows| - 1];
      if before.result.Err? then before
      else
        var outcome := CreateStep(before.accounts, last.id, last.account);
        if outcome.result.Err? then Rejected(accounts, outcome.result.error)
        else Outcome(Ok(()), outcome.accounts, before.log + outcome.log)
  }

  function Archived(accounts: Accounts, ids: seq<AccountId>): Accounts {
    map x | x in accounts :: if x in ids then accounts[x].(archived := true) else accounts[x]
  }

  function ArchivedEvents(ids: seq<AccountId>): seq<Event> {
    seq(|ids|, i requires 0 <= i < |ids| => AccountArchived(ids[i]))
  }

  /** Blocking descendants come first; an archived target stops a plain call, not a cascade. */
  function ArchiveStep(accounts: Accounts, id: AccountId, cascade: Cascade, descendants: seq<AccountId>): Outcome {
    var active := Keep(descendants, IsActive(accounts));
    if active != [] && cascade.Reject? then Rejected(accounts, BadData)
    else if id !in accounts then Rejected(accounts, NotFound)
    else if accounts[id].archived && cascade.Reject? then Rejected(accounts, AlreadyArchived)
    else
      var touched := (if accounts[id].archived then [] else [id]) + if cascade.Into? then active else [];
      Outcome(Ok(()), Archived(accounts, touched), ArchivedEvents(touched))
  }

  function Closed(accounts: Accounts, ids: seq<AccountId>, on: Date): Accounts {
    map x | x in accounts :: if x in ids then accounts[x].(closedOn := Some(on)) else accounts[x]
  }

  function ClosedEvents(ids: seq<AccountId>, on: Date): seq<Event> {
    seq(|ids|, i requires 0 <= i < |ids| => AccountClosed(ids[i], on))
  }

  function CloseStep(accounts: Accounts, id: AccountId, on: Date, cascade: Cascade,
                     descendants: seq<AccountId>): Outcome {
    var open := Keep(descendants, IsOpen(accounts));
    if open != [] && cascade.Reject? then Rejected(accounts, BadData)
    else if id in accounts && ClosesBeforeOpen(on, accounts[id].openedOn) then Rejected(accounts, BadData)
    else if cascade.Into? && AnyOpensAfter(accounts, open, on) then Rejected(accounts, BadData)
    else if id !in accounts then Rejected(accounts, NotFound)
    else if accounts[id].closedOn.Some? && cascade.Reject? then Rejected(accounts, AlreadyClosed)
    else
      var touched := (if accounts[id].closedOn.Some? then [] else [id]) + if cascade.Into? then open else [];
      Outcome(Ok(()), Closed(accounts, touched, on), ClosedEvents(touched, on))
  }

  function ReopenStep(accounts: Accounts, id: AccountId): Outcome {
    if id !in accounts then Rejected(accounts, NotFound)
    else if accounts[id].closedOn.None? then Rejected(accounts, NotClosed)
    else
      var parent := accounts[id].parent;
      if parent.Some? && parent.value in accounts && accounts[parent.value].closedOn.Some? then Rejected(accounts, BadData)
      else Outcome(Ok(()), accounts[id := accounts[id].(closedOn := None)], [AccountReopened(id)])
  }

  function SetOpenedOnStep(accounts: Accounts, id: AccountId, openedOn: Option<Date>): Outcome {
    if id !in accounts then Rejected(accounts, NotFound)
    else if openedOn.Some? && OpensAfterClose(openedOn.value, accounts[id].closedOn) then Rejected(accounts, BadData)
    else if accounts[id].openedOn == openedOn then Outcome(Ok(()), accounts, [])
    else
      Outcome(Ok(()), accounts[id := accounts[id].(openedOn := openedOn)], [AccountOpenedOnChanged(id, accounts[id].openedOn, openedOn)])
  }

  // ----- What every call keeps -----

  predicate ParentsKnown(accounts: Accounts) {
    forall x :: x in accounts && accounts[x].parent.Some? ==> accounts[x].parent.value in accounts
  }

  ghost predicate Acyclic(accounts: Accounts) {
    forall x :: x in accounts ==> !Below(accounts, x, x)
  }

  /** A child of `p`. */
  predicate ChildOf(accounts: Accounts, x: AccountId, p: AccountId) {
    x in accounts && p in accounts && accounts[x].parent == Some(p)
  }

  /** Children share their parent's type; under a closed parent they are closed, under an archived one archived. */
  ghost predicate ChildrenFollow(accounts: Accounts) {
    forall x, p :: ChildOf(accounts, x, p) ==> Follows(accounts[x], accounts[p])
  }

  predicate Follows(child: Account, parent: Account) {
    && child.accountType == parent.accountType
    && (parent.closedOn.Some? ==> child.closedOn.Some?)
    && (parent.archived ==> child.archived)
  }

  predicate DatesOrdered(accounts: Accounts) {
    forall x :: x in accounts && accounts[x].openedOn.Some? && accounts[x].closedOn.Some? ==>
                  accounts[x].openedOn.value <= accounts[x].closedOn.value
  }

  predicate NamesDistinct(accounts: Accounts) {
    forall x, y :: x in accounts && y in accounts && accounts[x].name == accounts[y].name && accounts[x].parent == accounts[y].parent ==> x == y
  }

  ghost predicate Forest(accounts: Accounts) {
    ParentsKnown(accounts) && Acyclic(accounts) && ChildrenFollow(accounts) && DatesOrdered(accounts) &&
      NamesDistinct(accounts)
  }

  // ----- What following one's parent means for whole subtrees -----

  lemma {:induction false} FollowsUp(accounts: Accounts, x: AccountId, n: nat)
    requires ParentsKnown(accounts) && ChildrenFollow(accounts) && x in accounts
    ensures var up := Up(LinksOf(accounts), x, n);
            up.Some? ==> up.value in accounts && Follows(accounts[x], accounts[up.value])
  {
    if n == 0 {
    } else {
      FollowsUp(accounts, x, n - 1);
      var below := Up(LinksOf(accounts), x, n - 1);
      if below.Some? && Parent(LinksOf(accounts), below.value).Some? {
        assert ChildOf(accounts, below.value, Parent(LinksOf(accounts), below.value).value);
      }
    }
  }

  /** No closed account has an open descendant, no archived one an active descendant, and every type is the root's. */
  lemma SubtreesFollow(accounts: Accounts, x: AccountId, a: AccountId)
    requires Forest(accounts) && Below(accounts, x, a)
    ensures a in accounts && accounts[x].accountType == accounts[a].accountType
    ensures accounts[a].closedOn.Some? ==> accounts[x].closedOn.Some?
    ensures accounts[a].archived ==> accounts[x].archived
  {
    var n: nat :| n > 0 && Up(LinksOf(accounts), x, n) == Some(a);
    FollowsUp(accounts, x, n);
  }

  lemma ChildIsBelow(accounts: Accounts, x: AccountId, p: AccountId, a: AccountId)
    requires ChildOf(accounts, x, p)
    ensures Below(accounts, x, a) <==> p == a || Below(accounts, p, a)
  {
    var links := LinksOf(accounts);
    assert Parent(links, x) == Some(p);
    ReachesThroughParent(links, x, a);
    ReachesThroughParent(links, p, a);
  }

  // ----- Creating -----

  lemma {:induction false} UpIgnoresNew(accounts: Accounts, id: AccountId, a: Account, x: AccountId, n: nat)
    requires ParentsKnown(accounts) && id !in accounts && x in accounts
    ensures Up(LinksOf(accounts[id := a]), x, n) == Up(LinksOf(accounts), x, n)
    ensures Up(LinksOf(accounts), x, n).Some? ==> Up(LinksOf(accounts), x, n).value in accounts
  {
    if n == 0 {
    } else {
      UpIgnoresNew(accounts, id, a, x, n - 1);
    }
  }

  lemma CreateKeepsAcyclic(accounts: Accounts, id: AccountId, a: Account)
    requires ParentsKnown(accounts) && Acyclic(accounts) && id !in accounts
    requires a.parent.Some? ==> a.parent.value in accounts
    ensures Acyclic(accounts[id := a])
  {
    var more := accounts[id := a];
    forall x | x in more ensures !Below(more, x, x) {
      if Below(more, x, x) {
        var n: nat :| n > 0 && Up(LinksOf(more), x, n) == Some(x);
        if x in accounts && x != id {
          UpIgnoresNew(accounts, id, a, x, n);
          assert Below(accounts, x, x);
        } else {
          ReachesThroughParent(LinksOf(more), x, x);
          var m: nat :| Up(LinksOf(more), a.parent.value, m) == Some(x);
          UpIgnoresNew(accounts, id, a, a.parent.value, m);
        }
        assert false;
      }
    }
  }

  lemma CreateKeepsForest(accounts: Accounts, id: AccountId, a: Account)
    requires Forest(accounts) && id !in accounts && a.closedOn.None? && !a.archived
    ensures Forest(CreateStep(accounts, id, a).accounts)
  {
    if CreateError(accounts, a).None? {
      CreateKeepsAcyclic(accounts, id, a);
      hide Acyclic;
      var more := accounts[id := a];
      forall x, p | ChildOf(more, x, p) ensures Follows(more[x], more[p]) {
        assert p != id ==> p in accounts;
        if x != id {
          assert ChildOf(accounts, x, p);
        }
      }
    }
  }

  /** A batch of rows adds exactly its ids when it succeeds, and changes nothing when it does not. */
  lemma {:induction false} CreateEachAdds(accounts: Accounts, rows: seq<Record>)
    ensures var outcome := CreateEach(accounts, rows);
            && (outcome.result.Err? ==> outcome.accounts == accounts && outcome.log == [])
            && (outcome.result.Ok? ==> |outcome.log| == |rows|)
            && (outcome.result.Ok? ==> forall x :: x in outcome.accounts <==>
                x in accounts || exists i :: 0 <= i < |rows| && rows[i].id == x)
  {
    if rows == [] {
      assert CreateEach(accounts, rows) == Outcome(Ok(()), accounts, []);
    } else {
      var init, last := rows[..|rows| - 1], rows[|rows| - 1];
      hide CreateError;
      CreateEachAdds(accounts, init);
      var outcome := CreateEach(accounts, rows);
      if outcome.result.Ok? {
        assert outcome.accounts.Keys == CreateEach(accounts, init).accounts.Keys + {last.id};
        hide CreateEach, CreateStep;
        assert forall i :: 0 <= i < |init| ==> init[i] == rows[i];
      }
    }
  }

  /** The last of new rows is new to the table the others leave. */
  lemma LastRowIsNew(accounts: Accounts, rows: seq<Record>)
    requires rows != [] && NewRows(accounts, rows)
    ensures NewRows(accounts, rows[..|rows| - 1])
    ensures NewRow(CreateEach(accounts, rows[..|rows| - 1]).accounts, rows[|rows| - 1])
  {
    CreateEachAdds(accounts, rows[..|rows| - 1]);
    hide CreateEach;
    assert NewRow(accounts, rows[|rows| - 1]);
  }

  /** Only manual assets hold an acquisition date, a cost or a depreciation policy. */
  predicate OnlyAssetsDepreciate(accounts: Accounts) {
    forall x :: x in accounts && (accounts[x].details.acquired.Some? || accounts[x].details.cost.Some? || accounts[x].details.policy.Some?) ==>
                  accounts[x].details.kind == Depreciation.ManualAsset
  }

  lemma {:induction false} CreateEachKeepsAssets(accounts: Accounts, rows: seq<Record>)
    requires OnlyAssetsDepreciate(accounts)
    ensures OnlyAssetsDepreciate(CreateEach(accounts, rows).accounts)
  {
    if rows == [] {
    } else {
      CreateEachKeepsAssets(accounts, rows[..|rows| - 1]);
    }
  }

  lemma {:induction false} CreateEachKeepsForest(accounts: Accounts, rows: seq<Record>)
    requires Forest(accounts) && NewRows(accounts, rows)
    ensures Forest(CreateEach(accounts, rows).accounts)
  {
    if rows == [] {
    } else {
      var init, last := rows[..|rows| - 1], rows[|rows| - 1];
      LastRowIsNew(accounts, rows);
      hide Forest, CreateStep, NewRows;
      CreateEachKeepsForest(accounts, init);
      CreateKeepsForest(CreateEach(accounts, init).accounts, last.id, last.account);
    }
  }

  // ----- Lifecycle calls: the tree itself does not change -----

  /** Same accounts, names, types and parents. */
  ghost predicate SameTree(before: Accounts, after: Accounts) {
    && before.Keys == after.Keys
    && forall x :: x in before ==> SamePlace(before[x], after[x])
  }

  predicate SamePlace(a: Account, b: Account) {
    a.name == b.name && a.accountType == b.accountType && a.parent == b.parent
  }

  lemma SameTreeSameLinks(before: Accounts, after: Accounts)
    requires SameTree(before, after)
    ensures LinksOf(before) == LinksOf(after)
  {
    forall x | x in before ensures LinksOf(before)[x] == LinksOf(after)[x] {
      assert SamePlace(before[x], after[x]);
    }
  }

  lemma SameTreeKeepsShape(before: Accounts, after: Accounts)
    requires SameTree(before, after) && ParentsKnown(before) && Acyclic(before) && NamesDistinct(before)
    ensures ParentsKnown(after) && Acyclic(after) && NamesDistinct(after)
  {
    SameTreeSameLinks(before, after);
    assert forall x :: x in after ==> SamePlace(before[x], after[x]);
    forall x | x in after ensures !Below(after, x, x) {
      assert !Below(before, x, x);
    }
  }

  /** A new state on the same tree is a forest again when children still follow and dates are in order. */
  lemma SameTreeForest(before: Accounts, after: Accounts)
    requires Forest(before) && SameTree(before, after) && ChildrenFollow(after) && DatesOrdered(after)
    ensures Forest(after)
  {
    hide ChildrenFollow, DatesOrdered, SameTree, ParentsKnown, Acyclic, NamesDistinct;
    SameTreeKeepsShape(before, after);
  }

  lemma SameTreeChild(before: Accounts, after: Accounts, x: AccountId, p: AccountId)
    requires SameTree(before, after) && ChildOf(after, x, p)
    ensures ChildOf(before, x, p)
  {
    assert SamePlace(before[x], after[x]);
  }

  /** `ids` holds, with any member, each of its children that `p` still tests true of. */
  ghost predicate Downward(accounts: Accounts, ids: seq<AccountId>, p: AccountId -> bool) {
    && (forall x :: x in ids ==> x in accounts && p(x))
    && (forall x, y :: ChildOf(accounts, x, y) && y in ids && p(x) ==> x in ids)
  }

  /** The target, if it is still to change, and all its descendants still to change. */
  lemma TouchedIsDownward(accounts: Accounts, id: AccountId, descendants: seq<AccountId>, p: AccountId -> bool,
                          touched: seq<AccountId>)
    requires id in accounts && IsDescendants(accounts, id, descendants)
    requires touched == (if p(id) then [id] else []) + Keep(descendants, p)
    ensures Downward(accounts, touched, p)
  {
    forall x | x in touched ensures x in accounts && p(x) {
    }
    forall x, y | ChildOf(accounts, x, y) && y in touched && p(x) ensures x in touched {
      ChildIsBelow(accounts, x, y, id);
      assert x in descendants;
    }
  }

  lemma ClosingKeepsForest(accounts: Accounts, ids: seq<AccountId>, on: Date)
    requires Forest(accounts) && Downward(accounts, ids, IsOpen(accounts))
    requires forall x :: x in ids ==> !ClosesBeforeOpen(on, accounts[x].openedOn)
    ensures Forest(Closed(accounts, ids, on))
  {
    hide Acyclic, NamesDistinct, ParentsKnown;
    var after := Closed(accounts, ids, on);
    assert SameTree(accounts, after);
    forall x, p | ChildOf(after, x, p) ensures Follows(after[x], after[p]) {
      SameTreeChild(accounts, after, x, p);
      assert p in ids && IsOpen(accounts)(x) ==> x in ids;
      assert Follows(accounts[x], accounts[p]);
    }
    SameTreeForest(accounts, after);
  }

  lemma ArchivingKeepsForest(accounts: Accounts, ids: seq<AccountId>)
    requires Forest(accounts) && Downward(accounts, ids, IsActive(accounts))
    ensures Forest(Archived(accounts, ids))
  {
    hide Acyclic, NamesDistinct, ParentsKnown;
    var after := Archived(accounts, ids);
    assert SameTree(accounts, after);
    forall x, p | ChildOf(after, x, p) ensures Follows(after[x], after[p]) {
      SameTreeChild(accounts, after, x, p);
      assert p in ids && IsActive(accounts)(x) ==> x in ids;
      assert Follows(accounts[x], accounts[p]);
    }
    SameTreeForest(accounts, after);
  }

  /**
   * Changing one account in place keeps the forest when it still follows its parent and its children still follow it.
   */
  lemma UpdatingKeepsForest(accounts: Accounts, id: AccountId, a: Account)
    requires Forest(accounts) && id in accounts && SamePlace(accounts[id], a)
    requires a.openedOn.Some? && a.closedOn.Some? ==> a.openedOn.value <= a.closedOn.value
    requires a.archived == accounts[id].archived
    requires a.closedOn.None? || accounts[id].closedOn.Some?
    requires a.closedOn.None? && a.parent.Some? && a.parent.value in accounts ==>
             a.parent.value != id && accounts[a.parent.value].closedOn.None?
    ensures Forest(accounts[id := a])
  {
    hide Acyclic, NamesDistinct, ParentsKnown;
    var after := accounts[id := a];
    assert SameTree(accounts, after);
    forall x, p | ChildOf(after, x, p) ensures Follows(after[x], after[p]) {
      SameTreeChild(accounts, after, x, p);
      assert Follows(accounts[x], accounts[p]);
    }
    SameTreeForest(accounts, after);
  }

  lemma NoOwnParent(accounts: Accounts, id: AccountId)
    requires Acyclic(accounts) && id in accounts
    ensures accounts[id].parent != Some(id)
  {
    if accounts[id].parent == Some(id) {
      OwnParentIsBelow(accounts, id);
    }
  }

  lemma OwnParentIsBelow(accounts: Accounts, id: AccountId)
    requires id in accounts && accounts[id].parent == Some(id)
    ensures Below(accounts, id, id)
  {
    assert Up(LinksOf(accounts), id, 0) == Some(id);
    assert Up(LinksOf(accounts), id, 1) == Some(id);
  }

  lemma CloseKeepsForest(accounts: Accounts, id: AccountId, on: Date, cascade: Cascade, descendants: seq<AccountId>)
    requires Forest(accounts) && IsDescendants(accounts, id, descendants)
    ensures Forest(CloseStep(accounts, id, on, cascade, descendants).accounts)
  {
    hide Forest, IsDescendants, Closed, ClosedEvents;
    var outcome := CloseStep(accounts, id, on, cascade, descendants);
    if outcome.result.Ok? {
      var open := Keep(descendants, IsOpen(accounts));
      var touched := (if IsOpen(accounts)(id) then [id] else []) + open;
      assert outcome.accounts == Closed(accounts, touched, on);
      TouchedIsDownward(accounts, id, descendants, IsOpen(accounts), touched);
      hide Downward;
      ClosingKeepsForest(accounts, touched, on);
    }
  }

  lemma ArchiveKeepsForest(accounts: Accounts, id: AccountId, cascade: Cascade, descendants: seq<AccountId>)
    requires Forest(accounts) && IsDescendants(accounts, id, descendants)
    ensures Forest(ArchiveStep(accounts, id, cascade, descendants).accounts)
  {
    hide Forest, IsDescendants, Archived, ArchivedEvents;
    var outcome := ArchiveStep(accounts, id, cascade, descendants);
    if outcome.result.Ok? {
      var active := Keep(descendants, IsActive(accounts));
      var touched := (if IsActive(accounts)(id) then [id] else []) + active;
      assert outcome.accounts == Archived(accounts, touched);
      TouchedIsDownward(accounts, id, descendants, IsActive(accounts), touched);
      hide Downward;
      ArchivingKeepsForest(accounts, touched);
    }
  }

  lemma ReopenKeepsForest(accounts: Accounts, id: AccountId)
    requires Forest(accounts)
    ensures Forest(ReopenStep(accounts, id).accounts)
  {
    if ReopenStep(accounts, id).result.Ok? {
      NoOwnParent(accounts, id);
      hide Forest;
      UpdatingKeepsForest(accounts, id, accounts[id].(closedOn := None));
    }
  }

  lemma SetOpenedOnKeepsForest(accounts: Accounts, id: AccountId, openedOn: Option<Date>)
    requires Forest(accounts)
    ensures Forest(SetOpenedOnStep(accounts, id, openedOn).accounts)
  {
    if SetOpenedOnStep(accounts, id, openedOn).log != [] {
      NoOwnParent(accounts, id);
      OpenUnderOpen(accounts, id);
      hide Forest, ChildrenFollow, ParentsKnown, Acyclic, NamesDistinct, DatesOrdered;
      UpdatingKeepsForest(accounts, id, accounts[id].(openedOn := openedOn));
    }
  }

  lemma OpenUnderOpen(accounts: Accounts, id: AccountId)
    requires Forest(accounts) && id in accounts
    ensures accounts[id].closedOn.None? && accounts[id].parent.Some? ==>
              accounts[id].parent.value in accounts && accounts[accounts[id].parent.value].closedOn.None?
  {
    if accounts[id].parent.Some? {
      assert ChildOf(accounts, id, accounts[id].parent.value);
    }
  }
}
