/** The account service: a table and an event log that change together, or not at all. */
module AccountService {
  import opened Prelude
  import opened Ids
  import opened AccountModel
  import opened AccountLog
  import opened Paths
  import opened PathRules
  import opened Descendants
  import opened CreatePaths
  import opened CreateBatch
  import opened AccountHistory

  /** The outcome of an archive call, in the order some listing of the descendants gives. */
  ghost predicate Archives(before: Accounts, id: AccountId, cascade: Cascade, outcome: Outcome) {
    exists ds :: IsDescendants(before, id, ds) && outcome == ArchiveStep(before, id, cascade, ds)
  }

  ghost predicate Closes(before: Accounts, id: AccountId, on: Date, cascade: Cascade, outcome: Outcome) {
    exists ds :: IsDescendants(before, id, ds) && outcome == CloseStep(before, id, on, cascade, ds)
  }

  /** Archives each of `ids` in turn, with its event. */
  method ArchiveEach(accounts: Accounts, ids: seq<AccountId>) returns (after: Accounts, log: seq<Event>)
    requires forall x :: x in ids ==> x in accounts
    ensures after == Archived(accounts, ids) && log == ArchivedEvents(ids)
  {
    after, log := accounts, [];
    for i := 0 to |ids|
      invariant after == Archived(accounts, ids[..i]) && log == ArchivedEvents(ids[..i])
    {
      assert ids[..i + 1] == ids[..i] + [ids[i]];
      log := log + [AccountArchived(ids[i])];
      if !after[ids[i]].archived {
        after := after[ids[i] := after[ids[i]].(archived := true)];
      }
    }
    assert ids[..|ids|] == ids;
  }

  /** Closes each of `ids` in turn, with its event. */
  method CloseEach(accounts: Accounts, ids: seq<AccountId>, on: Date) returns (after: Accounts, log: seq<Event>)
    requires forall x :: x in ids ==> x in accounts && accounts[x].closedOn.None?
    ensures after == Closed(accounts, ids, on) && log == ClosedEvents(ids, on)
  {
    after, log := accounts, [];
    for i := 0 to |ids|
      invariant after == Closed(accounts, ids[..i], on) && log == ClosedEvents(ids[..i], on)
    {
      assert ids[..i + 1] == ids[..i] + [ids[i]];
      log := log + [AccountClosed(ids[i], on)];
      if after[ids[i]].closedOn.None? {
        after := after[ids[i] := after[ids[i]].(closedOn := Some(on))];
      }
    }
    assert ids[..|ids|] == ids;
  }

  /** Whether any of `ids` opened after `on`. */
  method AnyClosesBeforeOpen(accounts: Accounts, ids: seq<AccountId>, on: Date) returns (any: bool)
    requires forall x :: x in ids ==> x in accounts
    ensures any == AnyOpensAfter(accounts, ids, on)
  {
    any := false;
    for i := 0 to |ids|
      invariant !any && forall k :: 0 <= k < i ==> !ClosesBeforeOpen(on, accounts[ids[k]].openedOn)
    {
      if ClosesBeforeOpen(on, accounts[ids[i]].openedOn) {
        return true;
      }
    }
  }

  /** The archive transaction on a table: the new table and its events, or the error and nothing. */
  method ArchiveInTx(accounts: Accounts, id: AccountId, cascade: Cascade) returns (outcome: Outcome)
    requires Forest(accounts)
    ensures Archives(accounts, id, cascade, outcome)
  {
    var descendants := DescendantsOf(accounts, id);
    var active := Keep(descendants, IsActive(accounts));
    hide Forest, IsDescendants, Archived, ArchivedEvents;
    if active != [] && cascade.Reject? {
      outcome := Rejected(accounts, BadData);
    } else if id !in accounts {
      outcome := Rejected(accounts, NotFound);
    } else if accounts[id].archived && cascade.Reject? {
      outcome := Rejected(accounts, AlreadyArchived);
    } else {
      var after, log := ArchiveEach(accounts, (if accounts[id].archived then [] else [id]) + if cascade.Into? then active else []);
      outcome := Outcome(Ok(()), after, log);
    }
    assert outcome == ArchiveStep(accounts, id, cascade, descendants);
  }

  method CloseInTx(accounts: Accounts, id: AccountId, on: Date, cascade: Cascade) returns (outcome: Outcome)
    requires Forest(accounts)
    ensures Closes(accounts, id, on, cascade, outcome)
  {
    var descendants := DescendantsOf(accounts, id);
    var open := Keep(descendants, IsOpen(accounts));
    hide Forest, IsDescendants, Closed, ClosedEvents, AnyOpensAfter;
    var early := AnyClosesBeforeOpen(accounts, open, on);
    if open != [] && cascade.Reject? {
      outcome := Rejected(accounts, BadData);
    } else if id in accounts && ClosesBeforeOpen(on, accounts[id].openedOn) {
      outcome := Rejected(accounts, BadData);
    } else if cascade.Into? && early {
      outcome := Rejected(accounts, BadData);
    } else if id !in accounts {
      outcome := Rejected(accounts, NotFound);
    } else if accounts[id].closedOn.Some? && cascade.Reject? {
      outcome := Rejected(accounts, AlreadyClosed);
    } else {
      var after, log := CloseEach(accounts, (if accounts[id].closedOn.Some? then [] else [id]) + if cascade.Into? then open else [], on);
      outcome := Outcome(Ok(()), after, log);
    }
    assert outcome == CloseStep(accounts, id, on, cascade, descendants);
  }

  method ReopenInTx(accounts: Accounts, id: AccountId) returns (outcome: Outcome)
    ensures outcome == ReopenStep(accounts, id)
  {
    if id !in accounts {
      return Rejected(accounts, NotFound);
    }
    if accounts[id].closedOn.None? {
      return Rejected(accounts, NotClosed);
    }
    var parent := accounts[id].parent;
    if parent.Some? && parent.value in accounts && accounts[parent.value].closedOn.Some? {
      return Rejected(accounts, BadData);
    }
    outcome := Outcome(Ok(()), accounts[id := accounts[id].(closedOn := None)], [AccountReopened(id)]);
  }

  method SetOpenedOnInTx(accounts: Accounts, id: AccountId, openedOn: Option<Date>) returns (outcome: Outcome)
    ensures outcome == SetOpenedOnStep(accounts, id, openedOn)
  {
    if id !in accounts {
      return Rejected(accounts, NotFound);
    }
    var from, closedOn := accounts[id].openedOn, accounts[id].closedOn;
    if openedOn.Some? && OpensAfterClose(openedOn.value, closedOn) {
      return Rejected(accounts, BadData);
    }
    if from == openedOn {
      return Outcome(Ok(()), accounts, []);
    }
    outcome := Outcome(Ok(()), accounts[id := accounts[id].(openedOn := openedOn)], [AccountOpenedOnChanged(id, from, openedOn)]);
  }

  lemma CallKeepsSound(store: Store, call: Call)
    requires Sound(store) && Callable(store.accounts, call)
    ensures Sound(Store(Step(store.accounts, call).accounts, store.log + Step(store.accounts, call).log))
  {
    var after := Run(store, [call]);
    assert [call][..0] == [];
    assert Run(store, []) == store && Runnable(store, []) && Runnable(store, [call]);
    RunsStaySound(store, [call]);
  }

  lemma PathsKeepSound(store: Store, specs: seq<PathSpec>, made: Created, after: Accounts, log: seq<Event>)
    requires Sound(store) && Materialised(store.accounts, specs, made, after, log)
    ensures Sound(Store(after, store.log + log))
  {
    var rows := MintedRows(after, made.minted);
    assert CreateEach(store.accounts, rows) == Outcome(Ok(()), after, log);
    hide Sound, Materialised, CreateEach, NewRows;
    CallKeepsSound(store, Call.CreatePaths(rows));
  }

  class AccountService {
    var accounts: Accounts
    var events: seq<Event>

    /** The table is a forest, and the log replays to it entry by true entry. */
    ghost predicate Valid()
      reads this
    {
      Sound(Store(accounts, events))
    }

    constructor ()
      ensures Valid() && accounts == map[] && events == []
    {
      accounts, events := map[], [];
    }

    /** A new open, active account under a minted id. */
    method Create(name: string, accountType: AccountType, parent: Option<AccountId>, openedOn: Option<Date>,
                  details: Details)
      returns (r: Result<AccountId>)
      requires Valid()
      modifies this
      ensures Valid() && old(events) <= events
      ensures var row := Account(name, accountType, parent, openedOn, None, false, details);
              match r
              case Ok(id) =>
                && id !in old(accounts)
                && Outcome(Ok(()), accounts, events[|old(events)|..]) == CreateStep(old(accounts), id, row)
              case Err(e) => CreateError(old(accounts), row) == Some(e) && accounts == old(accounts) && events == old(events)
    {
      var row := Account(name, accountType, parent, openedOn, None, false, details);
      if CreateError(accounts, row).Some? {
        return Err(CreateError(accounts, row).value);
      }
      var id := Mint(accounts.Keys);
      CallKeepsSound(Store(accounts, events), Call.Create(id, row));
      hide CreateError, Sound;
      events := events + [AccountCreated(id, name, accountType, openedOn)];
      accounts := accounts[id := row];
      r := Ok(id);
    }

    method Archive(id: AccountId, cascade: Cascade) returns (r: Result<()>)
      requires Valid()
      modifies this
      ensures Valid() && old(events) <= events
      ensures Archives(old(accounts), id, cascade, Outcome(r, accounts, events[|old(events)|..]))
    {
      var outcome := ArchiveInTx(accounts, id, cascade);
      ghost var ds :| IsDescendants(accounts, id, ds) && outcome == ArchiveStep(accounts, id, cascade, ds);
      CallKeepsSound(Store(accounts, events), Call.Archive(id, cascade, ds));
      hide *;
      accounts, events := outcome.accounts, events + outcome.log;
      r := outcome.result;
    }

    method Close(id: AccountId, on: Date, cascade: Cascade) returns (r: Result<()>)
      requires Valid()
      modifies this
      ensures Valid() && old(events) <= events
      ensures Closes(old(accounts), id, on, cascade, Outcome(r, accounts, events[|old(events)|..]))
    {
      var outcome := CloseInTx(accounts, id, on, cascade);
      ghost var ds :| IsDescendants(accounts, id, ds) && outcome == CloseStep(accounts, id, on, cascade, ds);
      CallKeepsSound(Store(accounts, events), Call.Close(id, on, cascade, ds));
      hide *;
      accounts, events := outcome.accounts, events + outcome.log;
      r := outcome.result;
    }

    method Reopen(id: AccountId) returns (r: Result<()>)
      requires Valid()
      modifies this
      ensures Valid() && old(events) <= events
      ensures Outcome(r, accounts, events[|old(events)|..]) == ReopenStep(old(accounts), id)
    {
      CallKeepsSound(Store(accounts, events), Call.Reopen(id));
      hide *;
      var outcome := ReopenInTx(accounts, id);
      accounts, events := outcome.accounts, events + outcome.log;
      r := outcome.result;
    }

    method SetOpenedOn(id: AccountId, openedOn: Option<Date>) returns (r: Result<()>)
      requires Valid()
      modifies this
      ensures Valid() && old(events) <= events
      ensures Outcome(r, accounts, events[|old(events)|..]) == SetOpenedOnStep(old(accounts), id, openedOn)
    {
      CallKeepsSound(Store(accounts, events), Call.SetOpenedOn(id, openedOn));
      hide *;
      var outcome := SetOpenedOnInTx(accounts, id, openedOn);
      accounts, events := outcome.accounts, events + outcome.log;
      r := outcome.result;
    }

    /** Materialises a batch of paths: all of it, or nothing. */
    method CreatePaths(specs: seq<PathSpec>) returns (r: Result<Created>)
      requires Valid()
      modifies this
      ensures Valid() && old(events) <= events
      ensures r.Ok? ==> Materialised(old(accounts), specs, r.value, accounts, events[|old(events)|..])
      ensures r.Err? ==> accounts == old(accounts) && events == old(events)
      ensures r.Err? ==> exists k, made, mid, log :: StopsAt(old(accounts), specs, r.error, k, made, mid, log)
      ensures AllReusable(old(accounts), specs) ==>
                r.Ok? && accounts == old(accounts) && events == old(events) && r.value.created == [] &&
                  r.value.minted == []
    {
      hide Forest, TrueLog, Replay, LivesOf, Materialised, AllReusable, StopsAt;
      var after, log;
      r, after, log := CreateAll(accounts, specs);
      if r.Ok? {
        PathsKeepSound(Store(accounts, events), specs, r.value, after, log);
        assert (events + log)[|events|..] == log;
        accounts, events := after, events + log;
      }
    }

    /** An identical batch straight after a successful one succeeds, finds the same leaves and makes nothing. */
    method CreatePathsTwice(specs: seq<PathSpec>) returns (first: Result<Created>, second: Result<Created>)
      requires Valid()
      modifies this
      ensures Valid() && old(events) <= events
      ensures first.Ok? ==>
              second.Ok? && second.value.created == [] && second.value.minted == [] && second.value.ids == first.value.ids
      ensures first.Ok? ==> Materialised(old(accounts), specs, first.value, accounts, events[|old(events)|..])
    {
      first := CreatePaths(specs);
      ghost var between := accounts;
      second := CreatePaths(specs);
      if first.Ok? {
        SameIds(between, specs, first.value.ids, second.value.ids);
      }
    }
  }

  /** The table decides the leaf of each requested path. */
  lemma SameIds(accounts: Accounts, specs: seq<PathSpec>, one: map<Path, AccountId>, two: map<Path, AccountId>)
    requires IdsAreLeaves(accounts, specs, one) && IdsAreLeaves(accounts, specs, two)
    ensures one == two
  {
    forall path ensures path in one <==> path in two {
      if path in one || path in two {
        assert Requested(specs, path);
      }
    }
    assert one.Keys == two.Keys;
  }
}
