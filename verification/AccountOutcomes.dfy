/** Exactly when each lifecycle call succeeds, what it changes, and what undoes it. */
module AccountOutcomes {
  import opened Prelude
  import opened Seqs
  import opened AccountModel

  /** `id` itself, or below it. */
  ghost predicate InSubtree(accounts: Accounts, x: AccountId, id: AccountId) {
    x == id || Below(accounts, x, id)
  }

  ghost predicate ActiveBelow(accounts: Accounts, id: AccountId) {
    exists x :: Below(accounts, x, id) && !accounts[x].archived
  }

  ghost predicate OpenBelow(accounts: Accounts, id: AccountId) {
    exists x :: Below(accounts, x, id) && accounts[x].closedOn.None?
  }

  /** An open account below `id` opened after `on`. */
  ghost predicate OpensLaterBelow(accounts: Accounts, id: AccountId, on: Date) {
    exists x :: Below(accounts, x, id) && accounts[x].closedOn.None? && OpensLater(accounts[x], on)
  }

  /** The account has an opening date, and it falls after `on`. */
  predicate OpensLater(a: Account, on: Date) {
    a.openedOn.Some? && a.openedOn.value > on
  }

  lemma BelowSomething(accounts: Accounts, x: AccountId, id: AccountId)
    requires Forest(accounts) && Below(accounts, x, id)
    ensures id in accounts
  {
    SubtreesFollow(accounts, x, id);
  }

  lemma KeptActive(accounts: Accounts, id: AccountId, ds: seq<AccountId>)
    requires IsDescendants(accounts, id, ds)
    ensures Keep(ds, IsActive(accounts)) == [] <==> !ActiveBelow(accounts, id)
  {
    var kept := Keep(ds, IsActive(accounts));
    if kept != [] {
      assert kept[0] in kept;
      assert Below(accounts, kept[0], id) && !accounts[kept[0]].archived;
    }
  }

  lemma KeptOpen(accounts: Accounts, id: AccountId, ds: seq<AccountId>, on: Date)
    requires IsDescendants(accounts, id, ds)
    ensures Keep(ds, IsOpen(accounts)) == [] <==> !OpenBelow(accounts, id)
    ensures AnyOpensAfter(accounts, Keep(ds, IsOpen(accounts)), on) <==> OpensLaterBelow(accounts, id, on)
  {
    var kept := Keep(ds, IsOpen(accounts));
    if kept != [] {
      assert kept[0] in kept;
      assert Below(accounts, kept[0], id) && accounts[kept[0]].closedOn.None?;
    }
  }

  lemma NothingBelowUnknown(accounts: Accounts, id: AccountId)
    requires Forest(accounts) && id !in accounts
    ensures forall x :: !Below(accounts, x, id)
  {
    forall x ensures !Below(accounts, x, id) {
      if Below(accounts, x, id) {
        BelowSomething(accounts, x, id);
      }
    }
  }

  // ----- Creating -----

  /** Acquisition or depreciation fields on an account that is no manual asset. */
  predicate MisplacedFields(d: Details) {
    d.kind != Depreciation.ManualAsset && (d.acquired.Some? || d.cost.Some? || d.policy.Some?)
  }

  /** The parent, where there is one, is open and active, and of the new account's own type. */
  predicate ParentTakes(parent: Account, a: Account) {
    parent.accountType == a.accountType && !parent.archived && parent.closedOn.None?
  }

  /** The row cannot be stored: its name is taken beside it, or a commodity or a tag is named twice. */
  predicate RowClashes(accounts: Accounts, a: Account) {
    || (exists x :: x in accounts && accounts[x].parent == a.parent && accounts[x].name == a.name)
    || (exists i, j :: 0 <= i < j < |a.details.commodities| && a.details.commodities[i] == a.details.commodities[j])
    || (exists i, j :: 0 <= i < j < |a.details.tags| && a.details.tags[i] == a.details.tags[j])
  }

  /**
   * Creating succeeds exactly when asset fields are on a manual asset, the parent is known and takes the account, and
   * the row does not clash; it then adds that row alone, with its event. Otherwise nothing changes.
   */
  lemma CreateOutcome(accounts: Accounts, id: AccountId, a: Account)
    ensures var outcome := CreateStep(accounts, id, a);
            var unknown := a.parent.Some? && a.parent.value !in accounts;
            var refuses := a.parent.Some? && a.parent.value in accounts && !ParentTakes(accounts[a.parent.value], a);
            && (outcome.result == Err(BadData) <==> MisplacedFields(a.details) || refuses)
            && (outcome.result == Err(NotFound) <==> !MisplacedFields(a.details) && unknown)
            && (outcome.result == Err(Database) <==>
                !MisplacedFields(a.details) && !unknown && !refuses && RowClashes(accounts, a))
            && (outcome.result.Ok? <==> !MisplacedFields(a.details) && !unknown && !refuses && !RowClashes(accounts, a))
            && (outcome.result.Ok? ==>
                && outcome.accounts == accounts[id := a]
                && outcome.log == [AccountCreated(id, a.name, a.accountType, a.openedOn)])
            && (outcome.result.Err? ==> outcome.accounts == accounts && outcome.log == [])
  {
    assert NoRepeats(a.details.commodities) <==>
           !exists i, j :: 0 <= i < j < |a.details.commodities| && a.details.commodities[i] == a.details.commodities[j];
    assert NoRepeats(a.details.tags) <==>
           !exists i, j :: 0 <= i < j < |a.details.tags| && a.details.tags[i] == a.details.tags[j];
  }

  // ----- Archiving, closing, reopening, opening dates -----

  /**
   * Archiving succeeds exactly on a known account that cascades, or is active with nothing active below; it then
   * archives the account and its whole subtree and touches nothing else.
   */
  lemma ArchiveOutcome(accounts: Accounts, id: AccountId, cascade: Cascade, ds: seq<AccountId>)
    requires Forest(accounts) && IsDescendants(accounts, id, ds)
    ensures var outcome := ArchiveStep(accounts, id, cascade, ds);
            && (outcome.result == Err(NotFound) <==> id !in accounts)
            && (outcome.result == Err(BadData) <==> cascade.Reject? && ActiveBelow(accounts, id))
            && (outcome.result == Err(AlreadyArchived) <==>
                id in accounts && accounts[id].archived && cascade.Reject? && !ActiveBelow(accounts, id))
            && (outcome.result.Ok? <==> id in accounts && (cascade.Into? ||
                                                           (!accounts[id].archived && !ActiveBelow(accounts, id))))
    ensures ArchiveStep(accounts, id, cascade, ds).result.Ok? ==>
              ArchiveStep(accounts, id, cascade, ds).accounts ==
              map x | x in accounts :: if InSubtree(accounts, x, id) then accounts[x].(archived := true) else accounts[x]
  {
    KeptActive(accounts, id, ds);
    if id !in accounts {
      NothingBelowUnknown(accounts, id);
    }
    hide Forest, Acyclic, Below;
    if ArchiveStep(accounts, id, cascade, ds).result.Ok? {
      ArchiveTouches(accounts, id, cascade, ds);
    }
  }

  lemma ArchiveTouches(accounts: Accounts, id: AccountId, cascade: Cascade, ds: seq<AccountId>)
    requires IsDescendants(accounts, id, ds) && ArchiveStep(accounts, id, cascade, ds).result.Ok?
    ensures ArchiveStep(accounts, id, cascade, ds).accounts ==
            map x | x in accounts :: if InSubtree(accounts, x, id) then accounts[x].(archived := true) else accounts[x]
  {
    hide Below, ArchivedEvents;
    var active := Keep(ds, IsActive(accounts));
    var after := ArchiveStep(accounts, id, cascade, ds).accounts;
    forall x | x in accounts ensures after[x] == if InSubtree(accounts, x, id) then accounts[x].(archived := true) else accounts[x] {
      assert x in ds <==> Below(accounts, x, id);
      assert x in active <==> x in ds && !accounts[x].archived;
    }
  }

  /**
   * Closing succeeds exactly on a known account that opened by the date and either cascades into descendants that all
   * did too, or is open with nothing open below; it then stamps the date on every open account of the subtree.
   */
  lemma CloseOutcome(accounts: Accounts, id: AccountId, on: Date, cascade: Cascade, ds: seq<AccountId>)
    requires Forest(accounts) && IsDescendants(accounts, id, ds)
    ensures var outcome := CloseStep(accounts, id, on, cascade, ds);
            && (outcome.result == Err(NotFound) <==> id !in accounts)
            && (outcome.result == Err(BadData) <==>
                id in accounts && (OpensLater(accounts[id], on) ||
                                   (cascade.Reject? && OpenBelow(accounts, id))
                                   || (cascade.Into? && OpensLaterBelow(accounts, id, on))))
            && (outcome.result == Err(AlreadyClosed) <==>
                id in accounts && accounts[id].closedOn.Some? && cascade.Reject? && !OpenBelow(accounts, id)
                && !OpensLater(accounts[id], on))
            && (outcome.result.Ok? <==>
                id in accounts && !OpensLater(accounts[id], on)
                && (if cascade.Into? then !OpensLaterBelow(accounts, id, on)
                    else accounts[id].closedOn.None? && !OpenBelow(accounts, id)))
    ensures CloseStep(accounts, id, on, cascade, ds).result.Ok? ==>
              CloseStep(accounts, id, on, cascade, ds).accounts ==
              map x | x in accounts ::
              if InSubtree(accounts, x, id) && accounts[x].closedOn.None? then accounts[x].(closedOn := Some(on)) else accounts[x]
  {
    KeptOpen(accounts, id, ds, on);
    if id !in accounts {
      NothingBelowUnknown(accounts, id);
    }
    hide Forest, Acyclic, Below, AnyOpensAfter;
    if CloseStep(accounts, id, on, cascade, ds).result.Ok? {
      CloseTouches(accounts, id, on, cascade, ds);
    }
  }

  lemma CloseTouches(accounts: Accounts, id: AccountId, on: Date, cascade: Cascade, ds: seq<AccountId>)
    requires IsDescendants(accounts, id, ds) && CloseStep(accounts, id, on, cascade, ds).result.Ok?
    ensures CloseStep(accounts, id, on, cascade, ds).accounts ==
            map x | x in accounts ::
              if InSubtree(accounts, x, id) && accounts[x].closedOn.None? then accounts[x].(closedOn := Some(on)) else accounts[x]
  {
    hide Below, ClosedEvents, AnyOpensAfter;
    var open := Keep(ds, IsOpen(accounts));
    var after := CloseStep(accounts, id, on, cascade, ds).accounts;
    forall x | x in accounts
      ensures after[x] == if InSubtree(accounts, x, id) && accounts[x].closedOn.None? then accounts[x].(closedOn := Some(on)) else accounts[x]
    {
      assert x in ds <==> Below(accounts, x, id);
      assert x in open <==> x in ds && accounts[x].closedOn.None?;
    }
  }

  // ----- What undoes what -----

  /** Reopening undoes a close that touched one account. */
  lemma ReopenUndoesClose(accounts: Accounts, id: AccountId, on: Date, ds: seq<AccountId>)
    requires Forest(accounts) && IsDescendants(accounts, id, ds)
    requires CloseStep(accounts, id, on, Reject, ds).result.Ok?
    ensures ReopenStep(CloseStep(accounts, id, on, Reject, ds).accounts, id).result.Ok?
    ensures ReopenStep(CloseStep(accounts, id, on, Reject, ds).accounts, id).accounts == accounts
  {
    assert Acyclic(accounts);
    hide Forest, ParentsKnown, Acyclic, ChildrenFollow, DatesOrdered, NamesDistinct, IsDescendants;
    OpenUnderOpen(accounts, id);
    NoOwnParent(accounts, id);
    ClosedAlone(accounts, id, on, ds);
    ReopensOne(accounts, id, on);
  }

  lemma ClosedAlone(accounts: Accounts, id: AccountId, on: Date, ds: seq<AccountId>)
    requires CloseStep(accounts, id, on, Reject, ds).result.Ok?
    ensures id in accounts && accounts[id].closedOn.None?
    ensures CloseStep(accounts, id, on, Reject, ds).accounts == accounts[id := accounts[id].(closedOn := Some(on))]
  {
    assert CloseStep(accounts, id, on, Reject, ds).accounts == Closed(accounts, [id], on);
  }

  lemma ReopensOne(accounts: Accounts, id: AccountId, on: Date)
    requires id in accounts && accounts[id].closedOn.None? && accounts[id].parent != Some(id)
    requires accounts[id].parent.Some? ==>
             accounts[id].parent.value in accounts && accounts[accounts[id].parent.value].closedOn.None?
    ensures var closed := accounts[id := accounts[id].(closedOn := Some(on))];
            ReopenStep(closed, id).result.Ok? && ReopenStep(closed, id).accounts == accounts
  {
    var closed := accounts[id := accounts[id].(closedOn := Some(on))];
    assert closed[id].(closedOn := None) == accounts[id];
  }

  /** A changed opening date can be set back: the previous date is always accepted, and restores the table. */
  lemma OpenedOnIsReversible(accounts: Accounts, id: AccountId, openedOn: Option<Date>)
    requires Forest(accounts) && SetOpenedOnStep(accounts, id, openedOn).log != []
    ensures SetOpenedOnStep(accounts, id, openedOn).log == [AccountOpenedOnChanged(id, accounts[id].openedOn, openedOn)]
    ensures SetOpenedOnStep(SetOpenedOnStep(accounts, id, openedOn).accounts, id, accounts[id].openedOn).result.Ok?
    ensures SetOpenedOnStep(SetOpenedOnStep(accounts, id, openedOn).accounts, id, accounts[id].openedOn).accounts ==
            accounts
  {
    assert DatesOrdered(accounts);
    hide Forest, ParentsKnown, Acyclic, ChildrenFollow, NamesDistinct;
    var changed := SetOpenedOnStep(accounts, id, openedOn).accounts;
    assert changed == accounts[id := accounts[id].(openedOn := openedOn)];
    assert changed[id].(openedOn := accounts[id].openedOn) == accounts[id];
  }

  /** An opening date is refused exactly when it falls after the closing date or the account is unknown. */
  lemma SetOpenedOnOutcome(accounts: Accounts, id: AccountId, openedOn: Option<Date>)
    ensures var outcome := SetOpenedOnStep(accounts, id, openedOn);
            && (outcome.result.Ok? <==>
                id in accounts && !(openedOn.Some? && accounts[id].closedOn.Some? &&
                                    openedOn.value > accounts[id].closedOn.value))
            && (outcome.result.Ok? ==>
                outcome.accounts.Keys == accounts.Keys && outcome.accounts[id] == accounts[id].(openedOn := openedOn)
                && forall x :: x in accounts && x != id ==> outcome.accounts[x] == accounts[x])
            && (outcome.log == [] <==> outcome.accounts == accounts)
  {
    if id in accounts && accounts[id].openedOn != openedOn {
      assert accounts[id := accounts[id].(openedOn := openedOn)][id] != accounts[id];
    }
  }

  /** Reopening succeeds exactly on a closed account whose parent, if any, is open. */
  lemma ReopenOutcome(accounts: Accounts, id: AccountId)
    requires Forest(accounts)
    ensures var outcome := ReopenStep(accounts, id);
            && (outcome.result.Ok? <==>
                id in accounts && accounts[id].closedOn.Some?
                && (accounts[id].parent.Some? ==>
                    accounts[id].parent.value in accounts && accounts[accounts[id].parent.value].closedOn.None?))
            && (outcome.result.Ok? ==>
                outcome.accounts.Keys == accounts.Keys && outcome.accounts[id] == accounts[id].(closedOn := None)
                && forall x :: x in accounts && x != id ==> outcome.accounts[x] == accounts[x])
  {
  }
}
