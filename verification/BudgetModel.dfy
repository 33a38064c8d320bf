/** The budget and revision tables as values, and what each service call does to them. */
module BudgetModel {
  import opened Prelude
  import opened Balances
  import opened Calendar
  import opened Timeline
  import opened RolloverFold

  datatype BudgetRow = BudgetRow(account: AccountId, archived: bool)

  /** A revision's row keeps its budget; the key is the revision's id. */
  datatype Tables = Tables(budgets: map<BudgetId, BudgetRow>, revisions: map<RevisionId, Revision>)

  datatype Event =
    | BudgetCreated(budget: BudgetId, account: AccountId, revision: Revision)
    | BudgetArchived(budget: BudgetId)
    | RevisionSet(revision: Revision)
    | RevisionRemoved(budget: BudgetId, id: RevisionId)

  /** What evaluating a target expression gives, if there is one. */
  datatype TargetExpr = NoExpr | Fails | Evaluates(value: Decimal)

  /** A call's answer, the tables after it, and the event it logged. */
  datatype Outcome = Outcome(result: Result<()>, tables: Tables, log: seq<Event>)

  function Rejected(t: Tables, error: Error): Outcome {
    Outcome(Err(error), t, [])
  }

  /** An expression's value replaces the target's; the commodity must be supplied. */
  function ResolveTarget(target: Option<Amount>, expr: TargetExpr): Result<Option<Amount>> {
    match expr
    case NoExpr => Ok(target)
    case Fails => Err(InvalidInput)
    case Evaluates(value) => if target.None? then Err(InvalidInput) else Ok(Some(Amount(value, target.value.commodity)))
  }

  predicate Active(t: Tables, budget: BudgetId) {
    budget in t.budgets && !t.budgets[budget].archived
  }

  /** The ids of one budget's revisions. */
  function RowsOf(t: Tables, budget: BudgetId): set<RevisionId> {
    set id | id in t.revisions && t.revisions[id].budget == budget
  }

  /** Another of the budget's revisions already has this date. */
  predicate DateTaken(t: Tables, budget: BudgetId, date: Date, id: RevisionId) {
    exists other :: other in t.revisions && other != id && t.revisions[other].budget == budget &&
      t.revisions[other].effectiveFrom == date
  }

  /** `revision` carries the new budget's id and its own. */
  function CreateStep(t: Tables, account: AccountId, revision: Revision, expr: TargetExpr): Outcome {
    match ResolveTarget(revision.target, expr)
    case Err(e) => Rejected(t, e)
    case Ok(target) =>
      var stored := revision.(target := target);
      if !WellCapped(stored) then Rejected(t, InvalidInput)
      else
        Outcome(Ok(()), Tables(t.budgets[stored.budget := BudgetRow(account, false)], t.revisions[stored.id := stored]),
                [BudgetCreated(stored.budget, account, stored)])
  }

  function ArchiveStep(t: Tables, budget: BudgetId): Outcome {
    if !Active(t, budget) then Rejected(t, NotFound)
    else Outcome(Ok(()), t.(budgets := t.budgets[budget := t.budgets[budget].(archived := true)]), [BudgetArchived(budget)])
  }

  /** An upsert by id: an existing row keeps the budget it belongs to. */
  function Upserted(t: Tables, stored: Revision): Revision {
    if stored.id in t.revisions then stored.(budget := t.revisions[stored.id].budget) else stored
  }

  function ReviseStep(t: Tables, budget: BudgetId, requested: Revision, expr: TargetExpr): Outcome {
    if !Active(t, budget) then Rejected(t, NotFound)
    else
      match ResolveTarget(requested.target, expr)
      case Err(e) => Rejected(t, e)
      case Ok(target) =>
        var stored := requested.(target := target);
        if stored.budget != budget || !WellCapped(stored) || DateTaken(t, budget, stored.effectiveFrom, stored.id)
        then Rejected(t, InvalidInput)
        else
          var row := Upserted(t, stored);
          if DateTaken(t, row.budget, row.effectiveFrom, row.id) then Rejected(t, Database)
          else Outcome(Ok(()), t.(revisions := t.revisions[row.id := row]), [RevisionSet(stored)])
  }

  function RemoveStep(t: Tables, budget: BudgetId, id: RevisionId): Outcome {
    if id !in RowsOf(t, budget) then Rejected(t, NotFound)
    else if |RowsOf(t, budget)| <= 1 then Rejected(t, InvalidInput)
    else Outcome(Ok(()), t.(revisions := t.revisions - {id}), [RevisionRemoved(budget, id)])
  }

  // ----- What every call keeps -----

  predicate WellKeyed(t: Tables) {
    forall id :: id in t.revisions ==> t.revisions[id].id == id && t.revisions[id].budget in t.budgets
  }

  predicate DistinctDates(t: Tables) {
    forall id, other :: id in t.revisions && other in t.revisions && id != other && t.revisions[id].budget == t.revisions[other].budget ==>
                          t.revisions[id].effectiveFrom != t.revisions[other].effectiveFrom
  }

  ghost predicate WellFormedRow(revision: Revision) {
    WellCapped(revision) && revision.period.Valid()
  }

  ghost predicate WellFormedRows(t: Tables) {
    forall id :: id in t.revisions ==> WellFormedRow(t.revisions[id])
  }

  predicate HasRow(t: Tables, budget: BudgetId) {
    exists id :: id in t.revisions && t.revisions[id].budget == budget
  }

  /** Every budget keeps a revision, no two of a budget's share a date, and every capping one has a target. */
  ghost predicate Sound(t: Tables) {
    WellKeyed(t) && DistinctDates(t) && WellFormedRows(t) && AllHaveRows(t)
  }

  predicate AllHaveRows(t: Tables) {
    forall budget :: budget in t.budgets ==> HasRow(t, budget)
  }

  /** A call with the ids the service would mint. */
  datatype Call =
    | Create(account: AccountId, revision: Revision, expr: TargetExpr)
    | Archive(budget: BudgetId)
    | Revise(budget: BudgetId, requested: Revision, expr: TargetExpr)
    | Remove(budget: BudgetId, id: RevisionId)

  /** Minted ids are new, and every period moves forward. */
  ghost predicate Callable(t: Tables, call: Call) {
    match call
    case Create(_, revision, _) => revision.period.Valid() && revision.budget !in t.budgets && revision.id !in t.revisions
    case Archive(_) => true
    case Revise(_, requested, _) => requested.period.Valid()
    case Remove(_, _) => true
  }

  function Step(t: Tables, call: Call): Outcome {
    match call
    case Create(account, revision, expr) => CreateStep(t, account, revision, expr)
    case Archive(budget) => ArchiveStep(t, budget)
    case Revise(budget, requested, expr) => ReviseStep(t, budget, requested, expr)
    case Remove(budget, id) => RemoveStep(t, budget, id)
  }

  lemma CreateKeepsSound(t: Tables, account: AccountId, revision: Revision, expr: TargetExpr)
    requires Sound(t) && Callable(t, Create(account, revision, expr))
    ensures Sound(CreateStep(t, account, revision, expr).tables)
  {
    var after := CreateStep(t, account, revision, expr).tables;
    forall budget | budget in after.budgets && CreateStep(t, account, revision, expr).result.Ok? ensures HasRow(after, budget) {
      if budget in t.budgets {
        var id :| id in t.revisions && t.revisions[id].budget == budget;
        assert after.revisions[id].budget == budget;
      } else {
        assert after.revisions[revision.id].budget == budget;
      }
    }
  }

  lemma ArchiveKeepsSound(t: Tables, budget: BudgetId)
    requires Sound(t)
    ensures Sound(ArchiveStep(t, budget).tables)
  {
    var after := ArchiveStep(t, budget).tables;
    forall b | b in after.budgets ensures HasRow(after, b) {
      assert HasRow(t, b);
    }
  }

  lemma ReviseKeepsSound(t: Tables, budget: BudgetId, requested: Revision, expr: TargetExpr)
    requires Sound(t) && requested.period.Valid()
    ensures Sound(ReviseStep(t, budget, requested, expr).tables)
  {
    if ReviseStep(t, budget, requested, expr).result.Ok? {
      var row := Upserted(t, requested.(target := ResolveTarget(requested.target, expr).value));
      ReplacingKeepsSound(t, row);
    }
  }

  /** Writing a row whose date is free among its budget's others keeps the tables sound. */
  lemma ReplacingKeepsSound(t: Tables, row: Revision)
    requires Sound(t) && row.budget in t.budgets && WellFormedRow(row)
    requires row.id in t.revisions ==> t.revisions[row.id].budget == row.budget
    requires !DateTaken(t, row.budget, row.effectiveFrom, row.id)
    ensures Sound(t.(revisions := t.revisions[row.id := row]))
  {
    ReplacingKeepsDates(t, row);
    ReplacingKeepsRows(t, row);
    ReplacingKeepsKeys(t, row);
    hide WellFormedRow, DistinctDates, DateTaken, AllHaveRows, WellKeyed, WellFormedRows;
  }

  lemma ReplacingKeepsKeys(t: Tables, row: Revision)
    requires WellKeyed(t) && WellFormedRows(t) && WellFormedRow(row) && row.budget in t.budgets
    ensures WellKeyed(t.(revisions := t.revisions[row.id := row])) &&
            WellFormedRows(t.(revisions := t.revisions[row.id := row]))
  {
    hide WellFormedRow;
  }

  lemma ReplacingKeepsRows(t: Tables, row: Revision)
    requires AllHaveRows(t)
    requires row.id in t.revisions ==> t.revisions[row.id].budget == row.budget
    ensures AllHaveRows(t.(revisions := t.revisions[row.id := row]))
  {
    var after := t.(revisions := t.revisions[row.id := row]);
    forall b | b in t.budgets ensures HasRow(after, b) {
      var id :| id in t.revisions && t.revisions[id].budget == b;
      assert after.revisions[id].budget == b;
    }
  }

  lemma ReplacingKeepsDates(t: Tables, row: Revision)
    requires DistinctDates(t) && !DateTaken(t, row.budget, row.effectiveFrom, row.id)
    ensures DistinctDates(t.(revisions := t.revisions[row.id := row]))
  {
    var after := t.(revisions := t.revisions[row.id := row]);
    forall id, other | id in after.revisions && other in after.revisions && id != other &&
           after.revisions[id].budget == after.revisions[other].budget
      ensures after.revisions[id].effectiveFrom != after.revisions[other].effectiveFrom
    {
      if id == row.id {
        assert after.revisions[other] == t.revisions[other];
      } else if other == row.id {
        assert after.revisions[id] == t.revisions[id];
      } else {
        assert after.revisions[id] == t.revisions[id] && after.revisions[other] == t.revisions[other];
      }
    }
  }

  lemma RemoveKeepsSound(t: Tables, budget: BudgetId, id: RevisionId)
    requires Sound(t)
    ensures Sound(RemoveStep(t, budget, id).tables)
  {
    var after := RemoveStep(t, budget, id).tables;
    if RemoveStep(t, budget, id).result.Ok? {
      forall b | b in after.budgets ensures HasRow(after, b) {
        if b == budget {
          var other := AnotherOf(RowsOf(t, budget), id);
          assert after.revisions[other].budget == b;
        } else {
          var other :| other in t.revisions && t.revisions[other].budget == b;
          assert after.revisions[other].budget == b;
        }
      }
    }
  }

  lemma AnotherOf(rows: set<RevisionId>, id: RevisionId) returns (other: RevisionId)
    requires id in rows && |rows| > 1
    ensures other in rows && other != id
  {
    assert |rows - {id}| == |rows| - 1;
    other :| other in rows - {id};
  }

  lemma StepKeepsSound(t: Tables, call: Call)
    requires Sound(t) && Callable(t, call)
    ensures Sound(Step(t, call).tables)
    ensures Step(t, call).result.Err? ==> Step(t, call).tables == t && Step(t, call).log == []
  {
    match call
    case Create(account, revision, expr) => CreateKeepsSound(t, account, revision, expr);
    case Archive(budget) => ArchiveKeepsSound(t, budget);
    case Revise(budget, requested, expr) => ReviseKeepsSound(t, budget, requested, expr);
    case Remove(budget, id) => RemoveKeepsSound(t, budget, id);
  }

  /** The tables after a run of calls. */
  function Run(t: Tables, calls: seq<Call>): Tables {
    if calls == [] then t else Step(Run(t, calls[..|calls| - 1]), calls[|calls| - 1]).tables
  }

  /** Every call of the run is made with new minted ids. */
  ghost predicate Runnable(t: Tables, calls: seq<Call>) {
    calls == [] || (Runnable(t, calls[..|calls| - 1]) && Callable(Run(t, calls[..|calls| - 1]), calls[|calls| - 1]))
  }

  /** Through any run of calls every budget keeps a revision, distinct dates and a target wherever it caps. */
  lemma {:induction false} RunsStaySound(t: Tables, calls: seq<Call>)
    requires Sound(t) && Runnable(t, calls)
    ensures Sound(Run(t, calls))
  {
    if calls == [] {
    } else {
      RunsStaySound(t, calls[..|calls| - 1]);
      StepKeepsSound(Run(t, calls[..|calls| - 1]), calls[|calls| - 1]);
    }
  }

  // ----- What the status engine is handed -----

  predicate Lists(revs: seq<Revision>, id: RevisionId) {
    exists i :: 0 <= i < |revs| && revs[i].id == id
  }

  /** The budget's revisions, ascending by date. */
  ghost predicate IsListing(t: Tables, budget: BudgetId, revs: seq<Revision>) {
    && (forall i :: 0 <= i < |revs| ==> revs[i].id in RowsOf(t, budget) && t.revisions[revs[i].id] == revs[i])
    && (forall id :: id in RowsOf(t, budget) ==> Lists(revs, id))
    && (forall i, j :: 0 <= i < j < |revs| ==> revs[i].id != revs[j].id)
    && (forall i, j :: 0 <= i < j < |revs| ==> revs[i].effectiveFrom <= revs[j].effectiveFrom)
  }

  /** What the engine reads after any run: never empty, strictly date-ordered, a target wherever a policy caps. */
  lemma ListingsAreValid(t: Tables, budget: BudgetId, revs: seq<Revision>)
    requires Sound(t) && budget in t.budgets && IsListing(t, budget, revs)
    ensures revs != [] && ValidRevisions(revs)
    ensures forall i :: 0 <= i < |revs| ==> WellCapped(revs[i])
  {
    var id :| id in t.revisions && t.revisions[id].budget == budget;
    assert id in RowsOf(t, budget) && Lists(revs, id);
    forall i, j | 0 <= i < j < |revs| ensures revs[i].effectiveFrom < revs[j].effectiveFrom {
      assert t.revisions[revs[i].id].effectiveFrom != t.revisions[revs[j].id].effectiveFrom;
    }
  }

  // ----- Exactly when each call succeeds, and what it stores -----

  /** An expression that evaluates needs a target to take the commodity from. */
  predicate Resolvable(target: Option<Amount>, expr: TargetExpr) {
    expr == NoExpr || (expr.Evaluates? && target.Some?)
  }

  /** `stored` is `asked` with the expression's value in its target's place, when there is one. */
  ghost predicate StoredAs(asked: Revision, expr: TargetExpr, stored: Revision) {
    && stored == asked.(target := stored.target)
    && match expr
       case NoExpr => stored.target == asked.target
       case Evaluates(value) =>
         && asked.target.Some? && stored.target.Some?
         && stored.target.value.value == value && stored.target.value.commodity == asked.target.value.commodity
       case Fails => false
  }

  /** The revision caps at a target it does not have. */
  predicate CapsAtNothing(asked: Revision) {
    asked.rollover == CapAtTarget && asked.target.None?
  }

  /**
   * A budget is created exactly when its target resolves and, capping, exists; it starts active with that one
   * revision.
   */
  lemma CreateOutcome(t: Tables, account: AccountId, asked: Revision, expr: TargetExpr)
    ensures var outcome := CreateStep(t, account, asked, expr);
            && (outcome.result.Ok? <==> Resolvable(asked.target, expr) && !CapsAtNothing(asked))
            && (outcome.result.Err? ==> outcome == Outcome(Err(InvalidInput), t, []))
            && (outcome.result.Ok? ==>
                exists stored :: StoredAs(asked, expr, stored) &&
                  outcome == Outcome(Ok(()), Tables(t.budgets[asked.budget := BudgetRow(account, false)],
                                                    t.revisions[asked.id := stored]),
                                     [BudgetCreated(asked.budget, account, stored)]))
  {
    var stored := Wanted(asked, expr);
    assert CreateStep(t, account, asked, expr).result.Ok? ==> StoredAs(asked, expr, stored);
  }

  /** Archiving succeeds exactly on an active budget, and marks it alone. */
  lemma ArchiveOutcome(t: Tables, budget: BudgetId)
    ensures var outcome := ArchiveStep(t, budget);
            if budget in t.budgets && !t.budgets[budget].archived then
              outcome == Outcome(Ok(()), Tables(t.budgets[budget := BudgetRow(t.budgets[budget].account, true)], t.revisions),
                                 [BudgetArchived(budget)])
            else outcome == Outcome(Err(NotFound), t, [])
  {
  }

  /** Some other revision of the budget has the date. */
  predicate TakenBy(t: Tables, budget: BudgetId, date: Date, id: RevisionId, other: RevisionId) {
    other in t.revisions && other != id && t.revisions[other].budget == budget && t.revisions[other].effectiveFrom == date
  }

  /** The budget whose row an upsert by `id` writes. */
  function OwnerOf(t: Tables, budget: BudgetId, id: RevisionId): BudgetId {
    if id in t.revisions then t.revisions[id].budget else budget
  }

  /**
   * A revision is refused for an inactive budget; then for a target that does not resolve, another budget's
   * revision, a cap at nothing, or a date another of the budget's revisions has; then for a date taken in the
   * budget whose row it would overwrite. Otherwise that one row becomes what was asked for.
   */
  lemma ReviseOutcome(t: Tables, budget: BudgetId, asked: Revision, expr: TargetExpr)
    ensures var outcome := ReviseStep(t, budget, asked, expr);
            var owner := OwnerOf(t, budget, asked.id);
            var inactive := budget !in t.budgets || t.budgets[budget].archived;
            var invalid := !Resolvable(asked.target, expr) || asked.budget != budget || CapsAtNothing(asked)
                           || exists other :: TakenBy(t, budget, asked.effectiveFrom, asked.id, other);
            var clashes := exists other :: TakenBy(t, owner, asked.effectiveFrom, asked.id, other);
            if inactive then outcome == Outcome(Err(NotFound), t, [])
            else if invalid then outcome == Outcome(Err(InvalidInput), t, [])
            else if clashes then outcome == Outcome(Err(Database), t, [])
            else exists stored :: StoredAs(asked, expr, stored) &&
                   outcome == Outcome(Ok(()), Tables(t.budgets, t.revisions[asked.id := stored.(budget := owner)]),
                                      [RevisionSet(stored)])
  {
    var stored := Wanted(asked, expr);
    var owner := OwnerOf(t, budget, asked.id);
    assert Resolvable(asked.target, expr) ==> StoredAs(asked, expr, stored);
    assert asked.budget == budget ==> Upserted(t, stored) == stored.(budget := owner);
    TakenIs(t, budget, asked.effectiveFrom, asked.id);
    TakenIs(t, owner, asked.effectiveFrom, asked.id);
    hide DateTaken, TakenBy;
  }

  lemma TakenIs(t: Tables, budget: BudgetId, date: Date, id: RevisionId)
    ensures DateTaken(t, budget, date, id) <==> exists other :: TakenBy(t, budget, date, id, other)
  {
    forall other ensures TakenBy(t, budget, date, id, other) <==>
                         other in t.revisions && other != id && t.revisions[other].budget == budget && t.revisions[other].effectiveFrom == date
    {
    }
  }

  // ----- Revising with another budget's revision id -----

  /** The id is new, or already one of this budget's. */
  predicate OwnOrNew(t: Tables, budget: BudgetId, id: RevisionId) {
    id in t.revisions ==> t.revisions[id].budget == budget
  }

  /** The revision asked for, as it should be stored. */
  function Wanted(requested: Revision, expr: TargetExpr): Revision {
    match ResolveTarget(requested.target, expr)
    case Ok(target) => requested.(target := target)
    case Err(_) => requested
  }

  predicate Stores(t: Tables, revision: Revision) {
    && revision.id in t.revisions
    && t.revisions[revision.id].budget == revision.budget
  }

  /** A successful call stores the revision in the budget asked for exactly when its id is new or the budget's own. */
  lemma ReviseStoresIffOwnOrNew(t: Tables, budget: BudgetId, requested: Revision, expr: TargetExpr)
    requires Sound(t) && ReviseStep(t, budget, requested, expr).result.Ok?
    ensures Stores(ReviseStep(t, budget, requested, expr).tables, Wanted(requested, expr)) <==>
            OwnOrNew(t, budget, requested.id)
    ensures OwnOrNew(t, budget, requested.id) ==>
              ReviseStep(t, budget, requested, expr).tables ==
                t.(revisions := t.revisions[requested.id := Wanted(requested, expr)])
    ensures !OwnOrNew(t, budget, requested.id) ==>
              && RowsOf(ReviseStep(t, budget, requested, expr).tables, budget) == RowsOf(t, budget)
              && (forall id :: id in RowsOf(t, budget) ==>
                  ReviseStep(t, budget, requested, expr).tables.revisions[id] == t.revisions[id])
  {
    if OwnOrNew(t, budget, requested.id) && requested.id in t.revisions {
      var stored := Wanted(requested, expr);
      assert stored.(budget := t.revisions[stored.id].budget) == stored;
    }
  }

  /**
   * The table's uniqueness check can refuse only a borrowed id: for any other, a taken date has been refused already.
   */
  lemma OwnOrNewNeverClashes(t: Tables, budget: BudgetId, requested: Revision, expr: TargetExpr)
    requires OwnOrNew(t, budget, requested.id)
    ensures ReviseStep(t, budget, requested, expr).result != Err(Database)
  {
    if requested.budget == budget {
      var stored := Wanted(requested, expr);
      assert requested.id in t.revisions ==> stored.(budget := t.revisions[stored.id].budget) == stored;
    }
  }

  /** A revision is removed exactly when it is the budget's and not its only one; nothing else changes. */
  lemma RemoveOutcome(t: Tables, budget: BudgetId, id: RevisionId)
    ensures var outcome := RemoveStep(t, budget, id);
            && (outcome.result.Ok? <==> id in RowsOf(t, budget) && exists other :: other in RowsOf(t, budget) && other != id)
            && (outcome.result == Err(NotFound) <==> id !in RowsOf(t, budget))
            && (outcome.result.Err? ==> outcome.result.error in {NotFound, InvalidInput} && outcome.tables == t && outcome.log == [])
            && (outcome.result.Ok? ==> outcome.log == [RevisionRemoved(budget, id)] && outcome.tables.budgets == t.budgets
                                       && outcome.tables.revisions.Keys == t.revisions.Keys - {id}
                                       && forall other :: other in t.revisions && other != id ==>
                                            other in outcome.tables.revisions &&
                                              outcome.tables.revisions[other] == t.revisions[other])
  {
    var rows := RowsOf(t, budget);
    if id in rows {
      if |rows| > 1 {
        var other := AnotherOf(rows, id);
      } else {
        OnlyOne(rows, id);
      }
    }
  }

  lemma OnlyOne(rows: set<RevisionId>, id: RevisionId)
    requires id in rows && |rows| <= 1
    ensures forall other :: other in rows ==> other == id
  {
    assert |rows - {id}| == |rows| - 1;
    assert rows - {id} == {};
  }

  function Daily(): Period {
    Custom((d: Date) => d + 1)
  }

  function EmptyDay(id: RevisionId, budget: BudgetId, date: Date): Revision {
    Revision(id, budget, date, None, Daily(), ResetToZero, None)
  }

  function TwoBudgets(): Tables {
    Tables(map[1 := BudgetRow(0, false), 2 := BudgetRow(0, false)], map[10 := EmptyDay(10, 1, 0), 20 := EmptyDay(20, 2, 0)])
  }

  lemma TwoBudgetsAreSound()
    ensures Sound(TwoBudgets())
  {
    var t := TwoBudgets();
    assert forall date :: date < Daily().step(date);
    assert t.revisions[10].budget == 1 && t.revisions[20].budget == 2;
    assert HasRow(t, 1) && HasRow(t, 2);
  }

  /**
   * A call on budget 1 with budget 2's revision id succeeds, moves budget 2's revision, and leaves budget 1 as it was.
   */
  lemma ReviseCanRewriteAnotherBudget()
    ensures var t, requested := TwoBudgets(), EmptyDay(20, 1, 5);
            var after := ReviseStep(t, 1, requested, NoExpr);
            && Sound(t) && after.result.Ok? && requested.id in RowsOf(t, 2)
            && after.tables.revisions[20].budget == 2 && after.tables.revisions[20].effectiveFrom == 5
            && t.revisions[20].effectiveFrom == 0
            && RowsOf(after.tables, 1) == RowsOf(t, 1)
  {
    TwoBudgetsAreSound();
    hide Sound, Daily;
  }

  // ----- The event log -----

  /** The tables an event says they become. */
  function Apply(t: Tables, e: Event): Tables {
    match e
    case BudgetCreated(budget, account, revision) =>
      Tables(t.budgets[budget := BudgetRow(account, false)], t.revisions[revision.id := revision])
    case BudgetArchived(budget) =>
      if budget in t.budgets then t.(budgets := t.budgets[budget := t.budgets[budget].(archived := true)]) else t
    case RevisionSet(revision) => t.(revisions := t.revisions[revision.id := revision])
    case RevisionRemoved(_, id) => t.(revisions := t.revisions - {id})
  }

  function Replay(t: Tables, log: seq<Event>): Tables {
    if log == [] then t else Apply(Replay(t, log[..|log| - 1]), log[|log| - 1])
  }

  /** The log of a run of calls. */
  function LogOf(t: Tables, calls: seq<Call>): seq<Event> {
    if calls == [] then []
    else LogOf(t, calls[..|calls| - 1]) + Step(Run(t, calls[..|calls| - 1]), calls[|calls| - 1]).log
  }

  /** Not a revision under another budget's id. */
  predicate Faithful(t: Tables, call: Call) {
    call.Revise? ==> OwnOrNew(t, call.budget, call.requested.id)
  }

  /** Every call of the run that succeeds is faithful to the tables it finds. */
  predicate SuccessesFaithful(t: Tables, calls: seq<Call>) {
    || calls == []
    || (var before, call := Run(t, calls[..|calls| - 1]), calls[|calls| - 1];
        SuccessesFaithful(t, calls[..|calls| - 1]) && (Step(before, call).result.Ok? ==> Faithful(before, call)))
  }

  /** After every prefix of the run, replaying its log gives its tables. */
  ghost predicate ReplaysThroughout(t: Tables, calls: seq<Call>) {
    forall n :: 0 <= n <= |calls| ==> ReplaysTo(t, calls[..n])
  }

  ghost predicate ReplaysTo(t: Tables, calls: seq<Call>) {
    Replay(t, LogOf(t, calls)) == Run(t, calls)
  }

  lemma ReplayAppend(t: Tables, log: seq<Event>, e: Event)
    ensures Replay(t, log + [e]) == Apply(Replay(t, log), e)
  {
    assert (log + [e])[..|log|] == log;
  }

  /**
   * A call that fails logs and changes nothing; one that succeeds is what its event says exactly when it is faithful.
   */
  lemma StepIsItsEvent(t: Tables, call: Call)
    ensures Step(t, call).result.Err? ==> Step(t, call).log == [] && Step(t, call).tables == t
    ensures Step(t, call).result.Ok? ==>
              |Step(t, call).log| == 1
              && (Step(t, call).tables == Apply(t, Step(t, call).log[0]) <==> Faithful(t, call))
  {
    if call.Revise? && call.requested.id in t.revisions && Step(t, call).result.Ok? {
      var stored := Wanted(call.requested, call.expr);
      var kept := stored.(budget := t.revisions[stored.id].budget);
      assert Step(t, call).tables.revisions[stored.id] == kept;
      assert Apply(t, Step(t, call).log[0]).revisions[stored.id] == stored;
      assert Faithful(t, call) <==> kept.budget == stored.budget;
      assert Faithful(t, call) ==> kept == stored;
    }
  }

  /** What one more call does to a replay that matched so far. */
  lemma ReplayStep(t: Tables, before: seq<Call>, call: Call)
    requires ReplaysTo(t, before)
    ensures ReplaysTo(t, before + [call]) <==> (Step(Run(t, before), call).result.Ok? ==>
                                                Faithful(Run(t, before), call))
  {
    assert (before + [call])[..|before|] == before;
    var now := Run(t, before);
    StepIsItsEvent(now, call);
    hide Step, Faithful, Apply, Replay;
    var log := Step(now, call).log;
    if log == [] {
      assert LogOf(t, before) + log == LogOf(t, before);
    } else {
      assert log == [log[0]];
      ReplayAppend(t, LogOf(t, before), log[0]);
    }
  }

  lemma ThroughoutOneMore(t: Tables, before: seq<Call>, call: Call)
    ensures ReplaysThroughout(t, before + [call]) <==> ReplaysThroughout(t, before) && ReplaysTo(t, before + [call])
    ensures ReplaysThroughout(t, before) ==> ReplaysTo(t, before)
  {
    hide ReplaysTo;
    var calls := before + [call];
    assert calls[..|calls|] == calls && before[..|before|] == before;
    assert forall n :: 0 <= n <= |before| ==> calls[..n] == before[..n];
  }

  lemma FaithfulOneMore(t: Tables, before: seq<Call>, call: Call)
    ensures SuccessesFaithful(t, before + [call]) <==>
            SuccessesFaithful(t, before) && (Step(Run(t, before), call).result.Ok? ==> Faithful(Run(t, before), call))
  {
    hide Step, Faithful, Run;
    assert (before + [call])[..|before|] == before;
  }

  /**
   * Replaying the log rebuilds the tables after every prefix of a run exactly when no call that succeeds borrows
   * another budget's revision id.
   */
  lemma {:induction false} ReplayRebuilds(t: Tables, calls: seq<Call>)
    ensures ReplaysThroughout(t, calls) <==> SuccessesFaithful(t, calls)
  {
    if calls == [] {
      assert calls[..0] == [];
    } else {
      hide *;
      var init, call := calls[..|calls| - 1], calls[|calls| - 1];
      assert calls == init + [call];
      ReplayRebuilds(t, init);
      ThroughoutOneMore(t, init, call);
      FaithfulOneMore(t, init, call);
      if ReplaysThroughout(t, init) {
        ReplayStep(t, init, call);
      }
    }
  }

  lemma OneCallRun(t: Tables, call: Call)
    ensures Run(t, [call]) == Step(t, call).tables && LogOf(t, [call]) == Step(t, call).log
    ensures forall e :: Replay(t, [e]) == Apply(t, e)
  {
    hide Step, Apply;
    assert [call][..0] == [];
    assert Run(t, []) == t && LogOf(t, []) == [];
    forall e ensures Replay(t, [e]) == Apply(t, e) {
      ReplayAppend(t, [], e);
      assert [] + [e] == [e];
    }
  }

  /** One borrowed id, and the log places budget 2's revision in budget 1. */
  lemma ReplayMisplacesABorrowedRevision()
    ensures var t, calls := TwoBudgets(), [Revise(1, EmptyDay(20, 1, 5), NoExpr)];
            && Run(t, calls).revisions[20].budget == 2
            && Replay(t, LogOf(t, calls)).revisions[20].budget == 1
            && !ReplaysThroughout(t, calls)
  {
    var t, call := TwoBudgets(), Revise(1, EmptyDay(20, 1, 5), NoExpr);
    ReviseCanRewriteAnotherBudget();
    OneCallRun(t, call);
    var outcome := Step(t, call);
    assert outcome.log == [RevisionSet(EmptyDay(20, 1, 5))];
    hide Step, Run, LogOf, Replay;
    ThroughoutOneMore(t, [], call);
    assert [] + [call] == [call];
  }
}
