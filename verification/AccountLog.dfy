/** The account event log: what replaying it says, and that every call logs exactly what it changed. */
module AccountLog {
  import opened Prelude
  import opened Seqs
  import opened AccountModel

  // ----- What a log says -----

  /** What events tell of an account's life. */
  datatype Life = Life(openedOn: Option<Date>, closedOn: Option<Date>, archived: bool)

  type Lives = map<AccountId, Life>

  function LivesOf(accounts: Accounts): Lives {
    map x | x in accounts :: Life(accounts[x].openedOn, accounts[x].closedOn, accounts[x].archived)
  }

  function Apply(lives: Lives, e: Event): Lives {
    match e
    case AccountCreated(id, _, _, openedOn) => lives[id := Life(openedOn, None, false)]
    case AccountArchived(id) => if id in lives then lives[id := lives[id].(archived := true)] else lives
    case AccountClosed(id, on) => if id in lives then lives[id := lives[id].(closedOn := Some(on))] else lives
    case AccountReopened(id) => if id in lives then lives[id := lives[id].(closedOn := None)] else lives
    case AccountOpenedOnChanged(id, _, until) => if id in lives then lives[id := lives[id].(openedOn := until)] else lives
  }

  function Replay(lives: Lives, log: seq<Event>): Lives {
    if log == [] then lives else Apply(Replay(lives, log[..|log| - 1]), log[|log| - 1])
  }

  /**
   * The entry reports a change, and reports it truly: in particular a corrected opening date names the previous one.
   */
  predicate TrueEntry(lives: Lives, e: Event) {
    match e
    case AccountCreated(id, _, _, _) => id !in lives
    case AccountArchived(id) => id in lives && !lives[id].archived
    case AccountClosed(id, _) => id in lives && lives[id].closedOn.None?
    case AccountReopened(id) => id in lives && lives[id].closedOn.Some?
    case AccountOpenedOnChanged(id, from, until) => id in lives && lives[id].openedOn == from && from != until
  }

  predicate TrueLog(lives: Lives, log: seq<Event>) {
    log == [] || (TrueLog(lives, log[..|log| - 1]) && TrueEntry(Replay(lives, log[..|log| - 1]), log[|log| - 1]))
  }

  /** Every entry of a true log changes what the log says. */
  lemma TrueEntriesChange(lives: Lives, e: Event)
    requires TrueEntry(lives, e)
    ensures Apply(lives, e) != lives
  {
    match e
    case AccountCreated(id, _, _, _) => assert id in Apply(lives, e);
    case AccountArchived(id) => assert Apply(lives, e)[id] != lives[id];
    case AccountClosed(id, _) => assert Apply(lives, e)[id] != lives[id];
    case AccountReopened(id) => assert Apply(lives, e)[id] != lives[id];
    case AccountOpenedOnChanged(id, _, _) => assert Apply(lives, e)[id] != lives[id];
  }

  lemma {:induction false} ReplayConcat(lives: Lives, a: seq<Event>, b: seq<Event>)
    ensures Replay(lives, a + b) == Replay(Replay(lives, a), b)
    ensures TrueLog(lives, a) && TrueLog(Replay(lives, a), b) ==> TrueLog(lives, a + b)
  {
    if b == [] {
      assert a + b == a;
    } else {
      var last := |b| - 1;
      assert (a + b)[..|a + b| - 1] == a + b[..last];
      ReplayConcat(lives, a, b[..last]);
    }
  }

  lemma OneEntry(lives: Lives, e: Event)
    ensures Replay(lives, [e]) == Apply(lives, e)
    ensures TrueLog(lives, [e]) <==> TrueEntry(lives, e)
  {
    assert [e][..0] == [];
  }

  lemma LogAppend(lives: Lives, log: seq<Event>, e: Event)
    ensures Replay(lives, log + [e]) == Apply(Replay(lives, log), e)
    ensures TrueLog(lives, log + [e]) <==> TrueLog(lives, log) && TrueEntry(Replay(lives, log), e)
  {
    assert (log + [e])[..|log|] == log;
  }

  // ----- A cascade's entries -----

  lemma CloseOneMore(accounts: Accounts, ids: seq<AccountId>, id: AccountId, on: Date)
    requires id !in ids && IsOpen(accounts)(id)
    ensures TrueEntry(LivesOf(Closed(accounts, ids, on)), AccountClosed(id, on))
    ensures Apply(LivesOf(Closed(accounts, ids, on)), AccountClosed(id, on)) ==
            LivesOf(Closed(accounts, ids + [id], on))
  {
    var one, more := Closed(accounts, ids, on), Closed(accounts, ids + [id], on);
    assert one[id] == accounts[id] && more[id] == accounts[id].(closedOn := Some(on));
    assert forall x :: x in accounts && x != id ==> more[x] == one[x];
  }

  lemma ArchiveOneMore(accounts: Accounts, ids: seq<AccountId>, id: AccountId)
    requires id !in ids && IsActive(accounts)(id)
    ensures TrueEntry(LivesOf(Archived(accounts, ids)), AccountArchived(id))
    ensures Apply(LivesOf(Archived(accounts, ids)), AccountArchived(id)) == LivesOf(Archived(accounts, ids + [id]))
  {
    var one, more := Archived(accounts, ids), Archived(accounts, ids + [id]);
    assert one[id] == accounts[id] && more[id] == accounts[id].(archived := true);
    assert forall x :: x in accounts && x != id ==> more[x] == one[x];
  }

  lemma {:induction false} ClosedEventsTell(accounts: Accounts, ids: seq<AccountId>, on: Date)
    requires NoRepeats(ids) && forall x :: x in ids ==> IsOpen(accounts)(x)
    ensures Replay(LivesOf(accounts), ClosedEvents(ids, on)) == LivesOf(Closed(accounts, ids, on))
    ensures TrueLog(LivesOf(accounts), ClosedEvents(ids, on))
  {
    if ids == [] {
      assert Closed(accounts, ids, on) == accounts;
    } else {
      var init, last := ids[..|ids| - 1], ids[|ids| - 1];
      assert ClosedEvents(ids, on) == ClosedEvents(init, on) + [AccountClosed(last, on)];
      ClosedEventsTell(accounts, init, on);
      hide Replay, TrueLog, ClosedEvents;
      LogAppend(LivesOf(accounts), ClosedEvents(init, on), AccountClosed(last, on));
      assert last !in init && ids == init + [last];
      CloseOneMore(accounts, init, last, on);
    }
  }

  lemma {:induction false} ArchivedEventsTell(accounts: Accounts, ids: seq<AccountId>)
    requires NoRepeats(ids) && forall x :: x in ids ==> IsActive(accounts)(x)
    ensures Replay(LivesOf(accounts), ArchivedEvents(ids)) == LivesOf(Archived(accounts, ids))
    ensures TrueLog(LivesOf(accounts), ArchivedEvents(ids))
  {
    if ids == [] {
      assert Archived(accounts, ids) == accounts;
    } else {
      var init, last := ids[..|ids| - 1], ids[|ids| - 1];
      assert ArchivedEvents(ids) == ArchivedEvents(init) + [AccountArchived(last)];
      ArchivedEventsTell(accounts, init);
      hide Replay, TrueLog, ArchivedEvents;
      LogAppend(LivesOf(accounts), ArchivedEvents(init), AccountArchived(last));
      assert last !in init && ids == init + [last];
      ArchiveOneMore(accounts, init, last);
    }
  }

  lemma {:induction false} KeepNoRepeats(ids: seq<AccountId>, p: AccountId -> bool)
    requires NoRepeats(ids)
    ensures NoRepeats(Keep(ids, p))
  {
    if ids == [] {
      assert Keep(ids, p) == [];
    } else {
      FilterMembers(ids[..|ids| - 1], p);
      KeepNoRepeats(ids[..|ids| - 1], p);
    }
  }

  /** The target and its kept descendants, each once. */
  lemma TouchedOnce(accounts: Accounts, id: AccountId, descendants: seq<AccountId>, p: AccountId -> bool,
                    touched: seq<AccountId>)
    requires Acyclic(accounts) && id in accounts && IsDescendants(accounts, id, descendants)
    requires touched == (if p(id) then [id] else []) + Keep(descendants, p)
    ensures NoRepeats(touched)
  {
    KeepNoRepeats(descendants, p);
    assert id !in descendants;
  }

  // ----- Every call tells the truth -----

  /** The log's new entries are true of the table before, and replay to the table after. */
  ghost predicate Tells(before: Accounts, outcome: Outcome) {
    && TrueLog(LivesOf(before), outcome.log)
    && Replay(LivesOf(before), outcome.log) == LivesOf(outcome.accounts)
    && (outcome.result.Err? ==> outcome.accounts == before && outcome.log == [])
    && (outcome.log == [] ==> outcome.accounts == before)
  }

  lemma CreateTells(accounts: Accounts, id: AccountId, a: Account)
    requires id !in accounts && a.closedOn.None? && !a.archived
    ensures Tells(accounts, CreateStep(accounts, id, a))
  {
    if CreateError(accounts, a).None? {
      OneEntry(LivesOf(accounts), AccountCreated(id, a.name, a.accountType, a.openedOn));
    }
  }

  /** A batch of rows logs exactly its creations, one true entry each. */
  lemma {:induction false} CreateEachTells(accounts: Accounts, rows: seq<Record>)
    requires NewRows(accounts, rows)
    ensures Tells(accounts, CreateEach(accounts, rows))
  {
    hide CreateStep, NewRows, Replay, TrueLog, LivesOf;
    if rows == [] {
      NothingTold(accounts);
    } else {
      var init, last := rows[..|rows| - 1], rows[|rows| - 1];
      LastRowIsNew(accounts, rows);
      CreateEachAdds(accounts, rows);
      CreateEachTells(accounts, init);
      var before := CreateEach(accounts, init);
      CreateTells(before.accounts, last.id, last.account);
      ReplayConcat(LivesOf(accounts), before.log, CreateStep(before.accounts, last.id, last.account).log);
      NothingTold(accounts);
    }
  }

  lemma CloseTells(accounts: Accounts, id: AccountId, on: Date, cascade: Cascade, descendants: seq<AccountId>)
    requires Acyclic(accounts) && IsDescendants(accounts, id, descendants)
    ensures Tells(accounts, CloseStep(accounts, id, on, cascade, descendants))
  {
    hide Acyclic, IsDescendants, Replay, TrueLog, Closed, ClosedEvents, LivesOf;
    var outcome := CloseStep(accounts, id, on, cascade, descendants);
    if outcome.result.Ok? {
      var touched := (if IsOpen(accounts)(id) then [id] else []) + Keep(descendants, IsOpen(accounts));
      assert outcome.log == ClosedEvents(touched, on) && outcome.accounts == Closed(accounts, touched, on);
      TouchedOnce(accounts, id, descendants, IsOpen(accounts), touched);
      ClosedEventsTell(accounts, touched, on);
      NothingClosed(accounts, touched, on);
    } else {
      NothingTold(accounts);
    }
  }

  lemma NothingTold(accounts: Accounts)
    ensures Replay(LivesOf(accounts), []) == LivesOf(accounts) && TrueLog(LivesOf(accounts), [])
  {
  }

  lemma NothingClosed(accounts: Accounts, ids: seq<AccountId>, on: Date)
    ensures ClosedEvents(ids, on) == [] ==> Closed(accounts, ids, on) == accounts
  {
  }

  lemma NothingArchived(accounts: Accounts, ids: seq<AccountId>)
    ensures ArchivedEvents(ids) == [] ==> Archived(accounts, ids) == accounts
  {
  }

  lemma ArchiveTells(accounts: Accounts, id: AccountId, cascade: Cascade, descendants: seq<AccountId>)
    requires Acyclic(accounts) && IsDescendants(accounts, id, descendants)
    ensures Tells(accounts, ArchiveStep(accounts, id, cascade, descendants))
  {
    hide Acyclic, IsDescendants, Replay, TrueLog, Archived, ArchivedEvents, LivesOf;
    var outcome := ArchiveStep(accounts, id, cascade, descendants);
    if outcome.result.Ok? {
      var touched := (if IsActive(accounts)(id) then [id] else []) + Keep(descendants, IsActive(accounts));
      assert outcome.log == ArchivedEvents(touched) && outcome.accounts == Archived(accounts, touched);
      TouchedOnce(accounts, id, descendants, IsActive(accounts), touched);
      ArchivedEventsTell(accounts, touched);
      NothingArchived(accounts, touched);
    } else {
      NothingTold(accounts);
    }
  }

  lemma ReopenTells(accounts: Accounts, id: AccountId)
    ensures Tells(accounts, ReopenStep(accounts, id))
  {
    if ReopenStep(accounts, id).result.Ok? {
      OneEntry(LivesOf(accounts), AccountReopened(id));
    }
  }

  lemma SetOpenedOnTells(accounts: Accounts, id: AccountId, openedOn: Option<Date>)
    ensures Tells(accounts, SetOpenedOnStep(accounts, id, openedOn))
  {
    if SetOpenedOnStep(accounts, id, openedOn).log != [] {
      OneEntry(LivesOf(accounts), AccountOpenedOnChanged(id, accounts[id].openedOn, openedOn));
    }
  }
}
