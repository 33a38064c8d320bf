/** Runs of account calls: the forest they keep, and the event log that tells the same story. */
module AccountHistory {
  import opened Prelude
  import opened AccountModel
  import opened AccountLog

  /**
   * A call; a creation carries the id the service mints, a cascade the descendants its query lists, and a batch
   * of paths the rows it inserts, ancestors included. A failed batch leaves everything alone.
   */
  datatype Call =
    | Create(id: AccountId, account: Account)
    | Archive(id: AccountId, cascade: Cascade, descendants: seq<AccountId>)
    | Close(id: AccountId, on: Date, cascade: Cascade, descendants: seq<AccountId>)
    | Reopen(id: AccountId)
    | SetOpenedOn(id: AccountId, openedOn: Option<Date>)
    | CreatePaths(rows: seq<Record>)

  ghost predicate Callable(accounts: Accounts, call: Call) {
    match call
    case Create(id, a) => id !in accounts && a.closedOn.None? && !a.archived
    case Archive(id, _, descendants) => IsDescendants(accounts, id, descendants)
    case Close(id, _, _, descendants) => IsDescendants(accounts, id, descendants)
    case Reopen(_) => true
    case SetOpenedOn(_, _) => true
    case CreatePaths(rows) => NewRows(accounts, rows)
  }

  function Step(accounts: Accounts, call: Call): Outcome {
    match call
    case Create(id, a) => CreateStep(accounts, id, a)
    case Archive(id, cascade, descendants) => ArchiveStep(accounts, id, cascade, descendants)
    case Close(id, on, cascade, descendants) => CloseStep(accounts, id, on, cascade, descendants)
    case Reopen(id) => ReopenStep(accounts, id)
    case SetOpenedOn(id, openedOn) => SetOpenedOnStep(accounts, id, openedOn)
    case CreatePaths(rows) => CreateEach(accounts, rows)
  }

  /** No call moves an asset's fields onto another kind of account. */
  lemma StepKeepsAssets(accounts: Accounts, call: Call)
    requires OnlyAssetsDepreciate(accounts)
    ensures OnlyAssetsDepreciate(Step(accounts, call).accounts)
  {
    if call.CreatePaths? {
      CreateEachKeepsAssets(accounts, call.rows);
    }
  }

  lemma StepKeeps(accounts: Accounts, call: Call)
    requires Forest(accounts) && Callable(accounts, call)
    ensures Forest(Step(accounts, call).accounts) && Tells(accounts, Step(accounts, call))
  {
    hide Tells, ParentsKnown, Acyclic, ChildrenFollow, DatesOrdered, NamesDistinct, IsDescendants;
    hide CreateStep, CreateEach, NewRows, ArchiveStep, CloseStep, ReopenStep, SetOpenedOnStep;
    match call
    case Create(id, a) => CreateKeepsForest(accounts, id, a); CreateTells(accounts, id, a);
    case Archive(id, cascade, ds) => ArchiveKeepsForest(accounts, id, cascade, ds); ArchiveTells(accounts, id, cascade, ds);
    case Close(id, on, cascade, ds) => CloseKeepsForest(accounts, id, on, cascade, ds); CloseTells(accounts, id, on, cascade, ds);
    case Reopen(id) => ReopenKeepsForest(accounts, id); ReopenTells(accounts, id);
    case SetOpenedOn(id, on) => SetOpenedOnKeepsForest(accounts, id, on); SetOpenedOnTells(accounts, id, on);
    case CreatePaths(rows) => CreateEachKeepsForest(accounts, rows); CreateEachTells(accounts, rows);
  }

  /** The table and the log. */
  datatype Store = Store(accounts: Accounts, log: seq<Event>)

  function Run(store: Store, calls: seq<Call>): Store {
    if calls == [] then store
    else
      var before := Run(store, calls[..|calls| - 1]);
      var outcome := Step(before.accounts, calls[|calls| - 1]);
      Store(outcome.accounts, before.log + outcome.log)
  }

  ghost predicate Runnable(store: Store, calls: seq<Call>) {
    calls == []
    || (Runnable(store, calls[..|calls| - 1]) &&
        Callable(Run(store, calls[..|calls| - 1]).accounts, calls[|calls| - 1]))
  }

  /**
   * The table is a forest with asset fields on assets only, and the log from the beginning tells exactly how it came
   * about.
   */
  ghost predicate Sound(store: Store) {
    && Forest(store.accounts) && OnlyAssetsDepreciate(store.accounts)
    && TrueLog(map[], store.log)
    && Replay(map[], store.log) == LivesOf(store.accounts)
  }

  /** Any run of calls keeps the forest, and a log whose replay is the table and whose every entry is a true change. */
  lemma {:induction false} RunsStaySound(store: Store, calls: seq<Call>)
    requires Sound(store) && Runnable(store, calls)
    ensures Sound(Run(store, calls))
  {
    hide Forest, OnlyAssetsDepreciate, Callable, Step, Replay, TrueLog, LivesOf;
    if calls == [] {
    } else {
      var init, call := calls[..|calls| - 1], calls[|calls| - 1];
      RunsStaySound(store, init);
      var before := Run(store, init);
      StepKeeps(before.accounts, call);
      StepKeepsAssets(before.accounts, call);
      ReplayConcat(map[], before.log, Step(before.accounts, call).log);
    }
  }

  /** The single creations a batch amounts to. */
  function CreatesOf(rows: seq<Record>): (calls: seq<Call>)
    ensures |calls| == |rows| && forall i :: 0 <= i < |rows| ==> calls[i] == Create(rows[i].id, rows[i].account)
  {
    seq(|rows|, i requires 0 <= i < |rows| => Create(rows[i].id, rows[i].account))
  }

  /** A batch that succeeds is a run of single creations: same table, same log. */
  lemma {:induction false} BatchIsARunOfCreates(store: Store, rows: seq<Record>)
    requires CreateEach(store.accounts, rows).result.Ok?
    ensures Run(store, CreatesOf(rows)) ==
            Store(CreateEach(store.accounts, rows).accounts, store.log + CreateEach(store.accounts, rows).log)
  {
    hide CreateStep;
    if rows == [] {
      assert store.log + [] == store.log;
    } else {
      var init := rows[..|rows| - 1];
      BatchIsARunOfCreates(store, init);
      assert CreatesOf(rows)[..|rows| - 1] == CreatesOf(init);
    }
  }

  lemma EmptyIsSound()
    ensures Sound(Store(map[], []))
  {
  }
}
