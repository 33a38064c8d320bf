/** Periods over a calendar of day numbers: a fixed grid, or a custom duration with no anchor. */
module Calendar {
  import opened Prelude

  /**
   * A grid period snaps every date to a boundary; a custom period starts wherever it is asked.
   * Both step forward from a start by `advance`.
   */
  datatype Period =
    | Grid(start: Date -> Date, step: Date -> Date)
    | Custom(step: Date -> Date)
  {
    function Advance(date: Date): Date {
      step(date)
    }

    function StartOnOrBefore(date: Date): Date {
      match this
      case Grid(start, _) => start(date)
      case Custom(_) => date
    }

    /** The half-open range of the period containing `date`. */
    function RangeContaining(date: Date): (Date, Date) {
      var s := StartOnOrBefore(date);
      (s, Advance(s))
    }

    /** Steps move forward, and a grid's ranges partition the calendar. */
    ghost predicate Valid() {
      && (forall date :: date < step(date))
      && (Grid? ==> forall date :: SnapsInside(date))
    }

    ghost predicate SnapsInside(date: Date)
      requires Grid?
    {
      && start(date) <= date < step(start(date))
      && forall other :: start(date) <= other < step(start(date)) ==> start(other) == start(date)
    }
  }

  /** A grid boundary is where the range before it ends. */
  lemma GridRangesMeet(p: Period, date: Date)
    requires p.Grid? && p.Valid()
    ensures p.RangeContaining(p.StartOnOrBefore(date) - 1).1 == p.StartOnOrBefore(date)
  {
    var boundary := p.start(date);
    assert p.SnapsInside(date) && p.SnapsInside(boundary - 1);
    var before, again := p.start(boundary - 1), p.start(boundary);
    assert again == boundary;
    assert boundary < p.step(before) ==> again == before;
  }
}
