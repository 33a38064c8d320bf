/** The budget service: the tables it updates in place, and the events it logs with them. */
module BudgetService {
  import opened Prelude
  import opened Ids
  import opened Balances
  import opened Calendar
  import opened Timeline
  import opened BudgetModel

  /** The id's revision has the earliest date of `ids`. */
  predicate IsEarliest(revisions: map<RevisionId, Revision>, ids: set<RevisionId>, id: RevisionId)
    requires ids <= revisions.Keys
  {
    id in ids && forall other :: other in ids ==> revisions[id].effectiveFrom <= revisions[other].effectiveFrom
  }

  lemma {:induction false} SomeEarliest(revisions: map<RevisionId, Revision>, ids: set<RevisionId>)
    requires ids <= revisions.Keys && ids != {}
    ensures exists id :: IsEarliest(revisions, ids, id)
    decreases ids
  {
    var id :| id in ids;
    var others := ids - {id};
    assert forall other :: other in ids ==> other == id || other in others;
    if others == {} {
      assert IsEarliest(revisions, ids, id);
    } else {
      SomeEarliest(revisions, others);
      var first :| IsEarliest(revisions, others, first);
      assert IsEarliest(revisions, ids, if revisions[id].effectiveFrom <= revisions[first].effectiveFrom then id else first);
    }
  }

  /** The listing so far: `listed` in date order, everything of `rest` no earlier. */
  ghost predicate ListedSoFar(t: Tables, budget: BudgetId, listed: seq<Revision>, rest: set<RevisionId>) {
    && rest <= RowsOf(t, budget)
    && (forall i :: 0 <= i < |listed| ==>
        listed[i].id in RowsOf(t, budget) - rest && t.revisions[listed[i].id] == listed[i])
    && (forall id :: id in RowsOf(t, budget) - rest ==> Lists(listed, id))
    && (forall i, j :: 0 <= i < j < |listed| ==> listed[i].id != listed[j].id)
    && (forall i, j :: 0 <= i < j < |listed| ==> listed[i].effectiveFrom <= listed[j].effectiveFrom)
    && (forall i, id :: 0 <= i < |listed| && id in rest ==> listed[i].effectiveFrom <= t.revisions[id].effectiveFrom)
  }

  lemma ListNext(t: Tables, budget: BudgetId, listed: seq<Revision>, rest: set<RevisionId>, id: RevisionId)
    requires WellKeyed(t) && ListedSoFar(t, budget, listed, rest) && IsEarliest(t.revisions, rest, id)
    ensures ListedSoFar(t, budget, listed + [t.revisions[id]], rest - {id})
  {
    var more, left := listed + [t.revisions[id]], rest - {id};
    assert more[|listed|].id == id;
    forall other | other in RowsOf(t, budget) - left ensures Lists(more, other) {
      if other != id {
        assert Lists(listed, other);
        var i :| 0 <= i < |listed| && listed[i].id == other;
        assert more[i].id == other;
      }
    }
  }

  class BudgetService {
    var budgets: map<BudgetId, BudgetRow>
    var revisions: map<RevisionId, Revision>
    var events: seq<Event>

    function State(): Tables
      reads this
    {
      Tables(budgets, revisions)
    }

    ghost predicate Valid()
      reads this
    {
      Sound(State())
    }

    constructor ()
      ensures Valid() && State() == Tables(map[], map[]) && events == []
    {
      budgets, revisions, events := map[], map[], [];
    }

    /** One budget's revisions, ascending by date. */
    method Revisions(budget: BudgetId) returns (revs: seq<Revision>)
      requires Valid()
      ensures IsListing(State(), budget, revs)
    {
      revs := [];
      var rest := RowsOf(State(), budget);
      while rest != {}
        invariant ListedSoFar(State(), budget, revs, rest)
        decreases rest
      {
        SomeEarliest(revisions, rest);
        var id :| id in rest && IsEarliest(revisions, rest, id);
        ListNext(State(), budget, revs, rest, id);
        revs, rest := revs + [revisions[id]], rest - {id};
      }
      assert RowsOf(State(), budget) - {} == RowsOf(State(), budget);
    }

    /** Whether another revision of the budget has the date, found by scanning its listing. */
    method Conflicts(budget: BudgetId, date: Date, id: RevisionId) returns (taken: bool)
      requires Valid()
      ensures taken == DateTaken(State(), budget, date, id)
    {
      var existing := Revisions(budget);
      taken := false;
      for i := 0 to |existing|
        invariant !taken && forall k :: 0 <= k < i ==> existing[k].effectiveFrom != date || existing[k].id == id
      {
        if existing[i].effectiveFrom == date && existing[i].id != id {
          assert existing[i].id in RowsOf(State(), budget);
          return true;
        }
      }
      NoneTaken(State(), budget, existing, date, id);
    }

    /** The new budget's only revision, or why there is none; the tables and the log change together or not at all. */
    method Create(account: AccountId, effectiveFrom: Date, tagFilter: Option<TagId>, target: Option<Amount>,
                  expr: TargetExpr,
                  period: Period, rollover: Rollover)
      returns (r: Result<Revision>)
      requires Valid() && period.Valid()
      modifies this
      ensures Valid() && old(events) <= events
      ensures r.Ok? ==>
                && r.value.budget !in old(budgets) && r.value.id !in old(revisions)
                && var asked := Revision(r.value.id, r.value.budget, effectiveFrom, target, period, rollover, tagFilter);
                   Outcome(Ok(()), State(), events[|old(events)|..]) == CreateStep(old(State()), account, asked, expr)
                   && r.value == State().revisions[r.value.id]
      ensures r.Err? ==>
                && State() == old(State()) && events == old(events)
                && forall id, budget :: var asked := Revision(id, budget, effectiveFrom, target, period, rollover, tagFilter);
                     CreateStep(old(State()), account, asked, expr).result == Err(r.error)
    {
      var resolved := ResolveTarget(target, expr);
      if resolved.Err? {
        return Err(resolved.error);
      }
      if rollover.CapAtTarget? && resolved.value.None? {
        return Err(InvalidInput);
      }
      var budget := Mint(budgets.Keys);
      var id := Mint(revisions.Keys);
      var stored := Revision(id, budget, effectiveFrom, resolved.value, period, rollover, tagFilter);
      CreateKeepsSound(State(), account, stored.(target := target), expr);
      events := events + [BudgetCreated(budget, account, stored)];
      budgets := budgets[budget := BudgetRow(account, false)];
      revisions := revisions[id := stored];
      r := Ok(stored);
    }

    method Archive(budget: BudgetId) returns (r: Result<()>)
      requires Valid()
      modifies this
      ensures Valid() && old(events) <= events
      ensures Outcome(r, State(), events[|old(events)|..]) == ArchiveStep(old(State()), budget)
    {
      ArchiveKeepsSound(State(), budget);
      hide WellKeyed, DistinctDates, WellFormedRows, AllHaveRows;
      if budget !in budgets || budgets[budget].archived {
        return Err(NotFound);
      }
      events := events + [BudgetArchived(budget)];
      budgets := budgets[budget := budgets[budget].(archived := true)];
      r := Ok(());
    }

    method Revise(budget: BudgetId, requested: Revision, expr: TargetExpr) returns (r: Result<()>)
      requires Valid() && requested.period.Valid()
      modifies this
      ensures Valid() && old(events) <= events
      ensures Outcome(r, State(), events[|old(events)|..]) == ReviseStep(old(State()), budget, requested, expr)
    {
      ReviseKeepsSound(State(), budget, requested, expr);
      hide WellKeyed, DistinctDates, WellFormedRows, AllHaveRows;
      if budget !in budgets || budgets[budget].archived {
        return Err(NotFound);
      }
      var resolved := ResolveTarget(requested.target, expr);
      if resolved.Err? {
        return Err(resolved.error);
      }
      var revision := requested.(target := resolved.value);
      if revision.budget != budget {
        return Err(InvalidInput);
      }
      if revision.rollover.CapAtTarget? && revision.target.None? {
        return Err(InvalidInput);
      }
      var taken := Conflicts(budget, revision.effectiveFrom, revision.id);
      if taken {
        return Err(InvalidInput);
      }
      var row := Upserted(State(), revision);
      var clashes := Conflicts(row.budget, row.effectiveFrom, row.id);
      if clashes {
        return Err(Database);
      }
      events := events + [RevisionSet(revision)];
      revisions := revisions[row.id := row];
      r := Ok(());
    }

    method RemoveRevision(budget: BudgetId, id: RevisionId) returns (r: Result<()>)
      requires Valid()
      modifies this
      ensures Valid() && old(events) <= events
      ensures Outcome(r, State(), events[|old(events)|..]) == RemoveStep(old(State()), budget, id)
    {
      RemoveKeepsSound(State(), budget, id);
      hide WellKeyed, DistinctDates, WellFormedRows, AllHaveRows;
      var existing := RowsOf(State(), budget);
      if id !in existing {
        return Err(NotFound);
      }
      if |existing| <= 1 {
        return Err(InvalidInput);
      }
      events := events + [RevisionRemoved(budget, id)];
      revisions := revisions - {id};
      r := Ok(());
    }
  }

  lemma NoneTaken(t: Tables, budget: BudgetId, revs: seq<Revision>, date: Date, id: RevisionId)
    requires IsListing(t, budget, revs) && forall k :: 0 <= k < |revs| ==>
             revs[k].effectiveFrom != date || revs[k].id == id
    ensures !DateTaken(t, budget, date, id)
  {
    forall other | other in RowsOf(t, budget) ensures t.revisions[other].effectiveFrom != date || other == id {
      assert Lists(revs, other);
      var i :| 0 <= i < |revs| && revs[i].id == other;
    }
  }
}
