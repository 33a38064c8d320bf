/** Running balances of an account scope: collect every leg, sort chronologically, fold once. */
module ScopeLedger {
  import opened Prelude
  import opened Sums
  import opened Seqs
  import opened Balances
  import opened Ledger

  /** One leg before ordering. */
  datatype Entry = Entry(date: Date, tx: TxId, commodity: Code, value: Decimal)

  datatype RunningLedger = RunningLedger(after: map<TxId, Balances>, deltas: map<TxId, Balances>, commodities: map<TxId, set<Code>>)
  {
    function BalanceAfter(tx: TxId, c: Code): Decimal {
      if tx in after then Get(after[tx], c) else 0.0
    }

    function Delta(tx: TxId, c: Code): Decimal {
      if tx in deltas then Get(deltas[tx], c) else 0.0
    }

    /** The single commodity the transaction moved, or none when it moved none or several. */
    ghost function FocalCommodity(tx: TxId): Option<Code> {
      if tx in commodities && exists c :: commodities[tx] == {c} then
        var c :| commodities[tx] == {c};
        Some(c)
      else None
    }
  }

  /** Chronological order: date ascending, then id descending. */
  predicate NotAfter(date: Date, tx: TxId, date': Date, tx': TxId) {
    date < date' || (date == date' && tx >= tx')
  }

  predicate Ordered(a: Entry, b: Entry) {
    NotAfter(a.date, a.tx, b.date, b.tx)
  }

  predicate Sorted(s: seq<Entry>) {
    forall i, j :: 0 <= i < j < |s| ==> Ordered(s[i], s[j])
  }

  function EntriesOf(t: Transaction, legs: seq<Leg>): seq<Entry> {
    if legs == [] then []
    else
      var rest, last := EntriesOf(t, legs[..|legs| - 1]), legs[|legs| - 1];
      if last.commodity.None? then rest
      else rest + [Entry(t.date, t.id, last.commodity.value.name, last.value)]
  }

  function Entries(stream: seq<Transaction>): seq<Entry> {
    if stream == [] then []
    else
      var last := stream[|stream| - 1];
      Entries(stream[..|stream| - 1]) + EntriesOf(last, last.legs)
  }

  function Insert(e: Entry, s: seq<Entry>): seq<Entry> {
    if s == [] || Ordered(s[|s| - 1], e) then s + [e] else Insert(e, s[..|s| - 1]) + [s[|s| - 1]]
  }

  /** A stable sort into chronological order. */
  function Sort(s: seq<Entry>): seq<Entry> {
    if s == [] then [] else Insert(s[|s| - 1], Sort(s[..|s| - 1]))
  }

  lemma {:induction false} InsertPermutes(e: Entry, s: seq<Entry>)
    ensures multiset(Insert(e, s)) == multiset(s) + multiset{e}
  {
    if s != [] && !Ordered(s[|s| - 1], e) {
      InsertPermutes(e, s[..|s| - 1]);
      assert s == s[..|s| - 1] + [s[|s| - 1]];
    }
  }

  lemma {:induction false} InsertSorts(e: Entry, s: seq<Entry>)
    requires Sorted(s)
    ensures Sorted(Insert(e, s))
  {
    if s == [] {
    } else {
      var init, last := s[..|s| - 1], s[|s| - 1];
      if Ordered(last, e) {
        AppendSorted(s, e);
      } else {
        InsertSorts(e, init);
        InsertPermutes(e, init);
        forall i | 0 <= i < |Insert(e, init)| ensures Ordered(Insert(e, init)[i], last) {
          assert Insert(e, init)[i] in multiset(Insert(e, init));
          assert Insert(e, init)[i] in init || Insert(e, init)[i] == e;
        }
      }
    }
  }

  lemma AppendSorted(s: seq<Entry>, e: Entry)
    requires Sorted(s) && s != [] && Ordered(s[|s| - 1], e)
    ensures Sorted(s + [e])
  {
    forall i | 0 <= i < |s| ensures Ordered(s[i], e) {
      assert i < |s| - 1 ==> Ordered(s[i], s[|s| - 1]);
    }
  }

  lemma {:induction false} SortSorts(s: seq<Entry>)
    ensures Sorted(Sort(s))
    ensures multiset(Sort(s)) == multiset(s)
  {
    if s == [] {
    } else {
      var init, last := s[..|s| - 1], s[|s| - 1];
      SortSorts(init);
      InsertSorts(last, Sort(init));
      InsertPermutes(last, Sort(init));
      assert s == init + [last];
    }
  }

  /** An entry's value, counted only in commodity `c`. */
  function InCommodity(c: Code): Entry -> real {
    (e: Entry) => if e.commodity == c then e.value else 0.0
  }

  /** An entry's value, counted only in commodity `c` and only up to `mark`. */
  function UpTo(mark: Entry, c: Code): Entry -> real {
    (e: Entry) => if e.commodity == c && Ordered(e, mark) then e.value else 0.0
  }

  function Within(tx: TxId, c: Code): Entry -> real {
    (e: Entry) => if e.commodity == c && e.tx == tx then e.value else 0.0
  }

  /** One transaction has one date. */
  ghost predicate DatesAgree(s: seq<Entry>) {
    forall i, j :: 0 <= i < |s| && 0 <= j < |s| && s[i].tx == s[j].tx ==> s[i].date == s[j].date
  }

  ghost predicate HasTx(s: seq<Entry>, tx: TxId) {
    exists k :: 0 <= k < |s| && s[k].tx == tx
  }

  function Touched(s: seq<Entry>, tx: TxId): set<Code> {
    set k | 0 <= k < |s| && s[k].tx == tx :: s[k].commodity
  }

  ghost predicate KeysAre<T>(m: map<TxId, T>, s: seq<Entry>) {
    forall tx :: tx in m <==> HasTx(s, tx)
  }

  ghost predicate AfterRight(after: map<TxId, Balances>, s: seq<Entry>) {
    KeysAre(after, s) && forall k, c :: 0 <= k < |s| ==> Get(after[s[k].tx], c) == Sum(s, UpTo(s[k], c))
  }

  ghost predicate DeltasRight(deltas: map<TxId, Balances>, s: seq<Entry>) {
    KeysAre(deltas, s) && forall tx, c :: tx in deltas ==> Get(deltas[tx], c) == Sum(s, Within(tx, c))
  }

  ghost predicate CommoditiesRight(commodities: map<TxId, set<Code>>, s: seq<Entry>) {
    KeysAre(commodities, s) && forall tx :: tx in commodities ==> commodities[tx] == Touched(s, tx)
  }

  /** What the maps hold once the entries of `s` are folded. */
  ghost predicate Folded(l: RunningLedger, s: seq<Entry>) {
    AfterRight(l.after, s) && DeltasRight(l.deltas, s) && CommoditiesRight(l.commodities, s)
  }

  lemma KeysStep<T>(m: map<TxId, T>, s: seq<Entry>, e: Entry, value: T)
    requires KeysAre(m, s)
    ensures KeysAre(m[e.tx := value], s + [e])
  {
    forall tx ensures HasTx(s + [e], tx) <==> HasTx(s, tx) || tx == e.tx {
      assert (s + [e])[|s|] == e;
      if HasTx(s, tx) {
        var k :| 0 <= k < |s| && s[k].tx == tx;
        assert (s + [e])[k].tx == tx;
      }
    }
  }

  /** The running balance overwrites a transaction's entry on each of its legs; the last leg's stays. */
  lemma AfterStep(s: seq<Entry>, e: Entry, k: nat, c: Code, running: Decimal, was: Decimal)
    requires Sorted(s + [e]) && DatesAgree(s + [e]) && k <= |s|
    requires running == Sum(s, InCommodity(c))
    requires k < |s| && s[k].tx != e.tx ==> was == Sum(s, UpTo(s[k], c))
    ensures (if (s + [e])[k].tx == e.tx then running + InCommodity(c)(e) else was) == Sum(s + [e], UpTo((s + [e])[k], c))
  {
    var more := s + [e];
    if more[k].tx == e.tx {
      assert more[|s|] == e && more[k].date == e.date;
      forall i | 0 <= i < |more| ensures InCommodity(c)(more[i]) == UpTo(more[k], c)(more[i]) {
        assert i < |s| ==> Ordered(more[i], more[|s|]);
      }
      SumPointwise(more, InCommodity(c), UpTo(more[k], c));
      SumAppend(s, e, InCommodity(c));
    } else {
      assert Ordered(more[k], more[|s|]);
      SumAppend(s, e, UpTo(s[k], c));
    }
  }

  lemma AfterRightStep(after: map<TxId, Balances>, s: seq<Entry>, e: Entry, running: Balances)
    requires AfterRight(after, s) && Sorted(s + [e]) && DatesAgree(s + [e])
    requires forall c :: Get(running, c) == Sum(s, InCommodity(c))
    ensures AfterRight(after[e.tx := AddAmount(running, Amount(e.value, e.commodity))], s + [e])
  {
    var next := after[e.tx := AddAmount(running, Amount(e.value, e.commodity))];
    KeysStep(after, s, e, next[e.tx]);
    hide Sorted, DatesAgree, Ordered, KeysAre, UpTo;
    forall k, c | 0 <= k < |s + [e]| ensures Get(next[(s + [e])[k].tx], c) == Sum(s + [e], UpTo((s + [e])[k], c)) {
      var tx := (s + [e])[k].tx;
      AfterStep(s, e, k, c, Get(running, c), if tx in after then Get(after[tx], c) else 0.0);
    }
  }

  lemma DeltasRightStep(deltas: map<TxId, Balances>, s: seq<Entry>, e: Entry)
    requires DeltasRight(deltas, s)
    ensures DeltasRight(deltas[e.tx := AddAmount(if e.tx in deltas then deltas[e.tx] else map[], Amount(e.value, e.commodity))], s + [e])
  {
    var next := deltas[e.tx := AddAmount(if e.tx in deltas then deltas[e.tx] else map[], Amount(e.value, e.commodity))];
    KeysStep(deltas, s, e, next[e.tx]);
    forall tx, c | tx in next ensures Get(next[tx], c) == Sum(s + [e], Within(tx, c)) {
      SumAppend(s, e, Within(tx, c));
      if tx !in deltas {
        NothingWithin(s, tx, c);
      }
    }
  }

  lemma NothingWithin(s: seq<Entry>, tx: TxId, c: Code)
    requires !HasTx(s, tx)
    ensures Sum(s, Within(tx, c)) == 0.0 && Touched(s, tx) == {}
  {
    SumOfZeros(s, Within(tx, c));
  }

  lemma CommoditiesRightStep(commodities: map<TxId, set<Code>>, s: seq<Entry>, e: Entry)
    requires CommoditiesRight(commodities, s)
    ensures CommoditiesRight(commodities[e.tx := (if e.tx in commodities then commodities[e.tx] else {}) + {e.commodity}], s + [e])
  {
    var next := commodities[e.tx := (if e.tx in commodities then commodities[e.tx] else {}) + {e.commodity}];
    KeysStep(commodities, s, e, next[e.tx]);
    forall tx | tx in next ensures next[tx] == Touched(s + [e], tx) {
      TouchedStep(s, e, tx);
      if tx !in commodities {
        NothingWithin(s, tx, 0);
      }
    }
  }

  lemma TouchedStep(s: seq<Entry>, e: Entry, tx: TxId)
    ensures Touched(s + [e], tx) == Touched(s, tx) + if e.tx == tx then {e.commodity} else {}
  {
    var more := s + [e];
    assert more[|s|] == e;
    forall k | 0 <= k < |s| ensures more[k] == s[k] {
    }
    forall c | c in Touched(s, tx) ensures c in Touched(more, tx) {
      var k :| 0 <= k < |s| && s[k].tx == tx && s[k].commodity == c;
      assert more[k].commodity == c;
    }
  }

  lemma NothingFolded()
    ensures Folded(RunningLedger(map[], map[], map[]), [])
    ensures forall c :: Sum([], InCommodity(c)) == 0.0
  {
  }

  method CollectEntries(stream: seq<Transaction>) returns (entries: seq<Entry>)
    ensures entries == Entries(stream)
  {
    entries := [];
    for i := 0 to |stream|
      invariant entries == Entries(stream[..i])
    {
      var t := stream[i];
      for k := 0 to |t.legs|
        invariant entries == Entries(stream[..i]) + EntriesOf(t, t.legs[..k])
      {
        assert t.legs[..k + 1][..k] == t.legs[..k];
        if t.legs[k].commodity.Some? {
          entries := entries + [Entry(t.date, t.id, t.legs[k].commodity.value.name, t.legs[k].value)];
        }
      }
      assert t.legs[..|t.legs|] == t.legs;
      assert stream[..i + 1][..i] == stream[..i];
    }
    assert stream[..|stream|] == stream;
  }

  /** Collects the scope's entries from the stream, sorts them by date and id, and folds them into `l`. */
  method ScopeLedger(ledger: seq<Transaction>, ids: set<AccountId>) returns (l: RunningLedger)
    requires AscendingIds(ledger)
    ensures Folded(l, Sort(Entries(InScope(ledger, ids))))
  {
    var stream := InScope(ledger, ids);
    var entries := CollectEntries(stream);
    var sorted := Sort(entries);
    SortSorts(entries);
    ScopeAscends(ledger, ids);
    EntriesAgree(stream);
    PermutedAgree(entries, sorted);
    l := FoldSorted(sorted);
  }

  /** Folds the sorted entries once; each leg overwrites its transaction's running balance. */
  method FoldSorted(sorted: seq<Entry>) returns (l: RunningLedger)
    requires Sorted(sorted) && DatesAgree(sorted)
    ensures Folded(l, sorted)
  {
    var after: map<TxId, Balances>, deltas: map<TxId, Balances>, commodities: map<TxId, set<Code>> := map[], map[], map[];
    var running: Balances := map[];
    NothingFolded();
    hide AfterRight, DeltasRight, CommoditiesRight, Sorted, DatesAgree, Sum;
    for i := 0 to |sorted|
      invariant forall c :: Get(running, c) == Sum(sorted[..i], InCommodity(c))
      invariant AfterRight(after, sorted[..i])
      invariant DeltasRight(deltas, sorted[..i])
      invariant CommoditiesRight(commodities, sorted[..i])
    {
      var e := sorted[i];
      var amount := Amount(e.value, e.commodity);
      assert sorted[..i + 1] == sorted[..i] + [e];
      PrefixAgrees(sorted, i + 1);
      AfterRightStep(after, sorted[..i], e, running);
      DeltasRightStep(deltas, sorted[..i], e);
      CommoditiesRightStep(commodities, sorted[..i], e);
      RunningStep(running, sorted[..i], e);
      running := AddAmount(running, amount);
      deltas := deltas[e.tx := AddAmount(if e.tx in deltas then deltas[e.tx] else map[], amount)];
      commodities := commodities[e.tx := (if e.tx in commodities then commodities[e.tx] else {}) + {e.commodity}];
      after := after[e.tx := running];
    }
    assert sorted[..|sorted|] == sorted;
    l := RunningLedger(after, deltas, commodities);
  }

  lemma RunningStep(running: Balances, s: seq<Entry>, e: Entry)
    requires forall c :: Get(running, c) == Sum(s, InCommodity(c))
    ensures forall c :: Get(AddAmount(running, Amount(e.value, e.commodity)), c) == Sum(s + [e], InCommodity(c))
  {
    forall c ensures Get(AddAmount(running, Amount(e.value, e.commodity)), c) == Sum(s + [e], InCommodity(c)) {
      SumAppend(s, e, InCommodity(c));
    }
  }

  lemma PrefixAgrees(s: seq<Entry>, n: nat)
    requires n <= |s| && Sorted(s) && DatesAgree(s)
    ensures Sorted(s[..n]) && DatesAgree(s[..n])
  {
  }

  lemma PermutedAgree(a: seq<Entry>, b: seq<Entry>)
    requires multiset(a) == multiset(b) && DatesAgree(a)
    ensures DatesAgree(b)
  {
    forall i, j | 0 <= i < |b| && 0 <= j < |b| && b[i].tx == b[j].tx ensures b[i].date == b[j].date {
      assert b[i] in multiset(b) && b[j] in multiset(b);
      var m :| 0 <= m < |a| && a[m] == b[i];
      var n :| 0 <= n < |a| && a[n] == b[j];
    }
  }

  lemma {:induction false} EntriesOfMembers(t: Transaction, legs: seq<Leg>)
    ensures forall k :: 0 <= k < |EntriesOf(t, legs)| ==>
            EntriesOf(t, legs)[k].tx == t.id && EntriesOf(t, legs)[k].date == t.date
  {
    if legs == [] {
    } else {
      EntriesOfMembers(t, legs[..|legs| - 1]);
    }
  }

  lemma {:induction false} EntriesMembers(stream: seq<Transaction>, k: nat)
    requires k < |Entries(stream)|
    ensures exists i :: 0 <= i < |stream| && stream[i].id == Entries(stream)[k].tx && stream[i].date == Entries(stream)[k].date
  {
    var init, last := stream[..|stream| - 1], stream[|stream| - 1];
    if k < |Entries(init)| {
      EntriesMembers(init, k);
      var i :| 0 <= i < |init| && init[i].id == Entries(init)[k].tx && init[i].date == Entries(init)[k].date;
      assert stream[i] == init[i];
    } else {
      EntriesOfMembers(last, last.legs);
      assert stream[|init|] == last;
    }
  }

  lemma EntriesAgree(stream: seq<Transaction>)
    requires AscendingIds(stream)
    ensures DatesAgree(Entries(stream))
  {
    var s := Entries(stream);
    forall i, j | 0 <= i < |s| && 0 <= j < |s| && s[i].tx == s[j].tx ensures s[i].date == s[j].date {
      EntriesMembers(stream, i);
      EntriesMembers(stream, j);
      var m :| 0 <= m < |stream| && stream[m].id == s[i].tx && stream[m].date == s[i].date;
      var n :| 0 <= n < |stream| && stream[n].id == s[j].tx && stream[n].date == s[j].date;
      assert m == n;
    }
  }

  // ----- What the running balances mean, transaction by transaction -----

  function Moved(t: Transaction, c: Code): real {
    Sum(t.legs, ValueIn(c))
  }

  function MovedIn(c: Code): Transaction -> real {
    (t: Transaction) => Moved(t, c)
  }

  predicate Precedes(u: Transaction, t: Transaction) {
    NotAfter(u.date, u.id, t.date, t.id)
  }

  /** What a transaction moved in commodity `c`, counted only up to `t` in chronological order. */
  function MovedUpTo(t: Transaction, c: Code): Transaction -> real {
    (u: Transaction) => if Precedes(u, t) then Moved(u, c) else 0.0
  }

  /** The transaction has a leg in some commodity, so the ledger holds an entry for it. */
  predicate HasEntry(t: Transaction) {
    exists k :: 0 <= k < |t.legs| && t.legs[k].commodity.Some?
  }

  lemma {:induction false} EntriesOfSum(t: Transaction, legs: seq<Leg>, f: Entry -> real, c: Code, counted: bool)
    requires forall e: Entry :: e.tx == t.id && e.date == t.date ==> f(e) == if counted && e.commodity == c then e.value else 0.0
    ensures Sum(EntriesOf(t, legs), f) == if counted then Sum(legs, ValueIn(c)) else 0.0
  {
    if legs == [] {
    } else {
      var init, last := legs[..|legs| - 1], legs[|legs| - 1];
      EntriesOfSum(t, init, f, c, counted);
      if last.commodity.Some? {
        SumAppend(EntriesOf(t, init), Entry(t.date, t.id, last.commodity.value.name, last.value), f);
      }
    }
  }

  lemma {:induction false} EntriesSum(stream: seq<Transaction>, f: Entry -> real, h: Transaction -> real)
    requires forall k :: 0 <= k < |stream| ==> h(stream[k]) == Sum(EntriesOf(stream[k], stream[k].legs), f)
    ensures Sum(Entries(stream), f) == Sum(stream, h)
  {
    if stream == [] {
    } else {
      var init, last := stream[..|stream| - 1], stream[|stream| - 1];
      EntriesSum(init, f, h);
      SumConcat(Entries(init), EntriesOf(last, last.legs), f);
    }
  }

  lemma EntriesUpTo(stream: seq<Transaction>, t: Transaction, mark: Entry, c: Code)
    requires mark.tx == t.id && mark.date == t.date
    ensures Sum(Entries(stream), UpTo(mark, c)) == Sum(stream, MovedUpTo(t, c))
  {
    forall k | 0 <= k < |stream| ensures MovedUpTo(t, c)(stream[k]) == Sum(EntriesOf(stream[k], stream[k].legs), UpTo(mark, c)) {
      EntriesOfSum(stream[k], stream[k].legs, UpTo(mark, c), c, Precedes(stream[k], t));
    }
    EntriesSum(stream, UpTo(mark, c), MovedUpTo(t, c));
  }

  /** A transaction's moves, with every other transaction's counted as zero. */
  function MovedBy(id: TxId, c: Code): Transaction -> real {
    (u: Transaction) => if u.id == id then Moved(u, c) else 0.0
  }

  lemma EntriesWithin(stream: seq<Transaction>, id: TxId, c: Code)
    ensures Sum(Entries(stream), Within(id, c)) == Sum(stream, MovedBy(id, c))
  {
    forall k | 0 <= k < |stream| ensures MovedBy(id, c)(stream[k]) == Sum(EntriesOf(stream[k], stream[k].legs), Within(id, c)) {
      EntriesOfSum(stream[k], stream[k].legs, Within(id, c), c, stream[k].id == id);
    }
    EntriesSum(stream, Within(id, c), MovedBy(id, c));
  }

  lemma {:induction false} OnlyOne(stream: seq<Transaction>, k: nat, c: Code)
    requires AscendingIds(stream) && k < |stream|
    ensures Sum(stream, MovedBy(stream[k].id, c)) == Moved(stream[k], c)
  {
    var init, last := stream[..|stream| - 1], |stream| - 1;
    if k == last {
      SumOfZeros(init, MovedBy(stream[k].id, c));
    } else {
      OnlyOne(init, k, c);
    }
  }

  lemma {:induction false} LegsSum(stream: seq<Transaction>, c: Code)
    ensures BalanceIn(stream, c) == Sum(stream, MovedIn(c))
  {
    if stream == [] {
    } else {
      LegsSum(stream[..|stream| - 1], c);
      SumConcat(Legs(stream[..|stream| - 1]), stream[|stream| - 1].legs, ValueIn(c));
    }
  }

  lemma {:induction false} EntriesOfHas(t: Transaction, legs: seq<Leg>)
    ensures (exists k :: 0 <= k < |legs| && legs[k].commodity.Some?) <==> EntriesOf(t, legs) != []
  {
    if legs == [] {
    } else {
      EntriesOfHas(t, legs[..|legs| - 1]);
    }
  }

  lemma {:induction false} EntriesHave(stream: seq<Transaction>, k: nat)
    requires AscendingIds(stream) && k < |stream|
    ensures HasTx(Entries(stream), stream[k].id) <==> HasEntry(stream[k])
  {
    var init, last := stream[..|stream| - 1], |stream| - 1;
    var fewer, own := Entries(init), EntriesOf(stream[last], stream[last].legs);
    EntriesOfHas(stream[last], stream[last].legs);
    EntriesOfMembers(stream[last], stream[last].legs);
    forall id ensures HasTx(Entries(stream), id) <==> HasTx(fewer, id) || HasTx(own, id) {
      TxConcat(fewer, own, id);
    }
    if k < last {
      EntriesHave(init, k);
    } else if HasTx(fewer, stream[k].id) {
      var m :| 0 <= m < |fewer| && fewer[m].tx == stream[k].id;
      EntriesMembers(init, m);
    } else if own != [] {
      assert own[0].tx == stream[k].id;
    }
  }

  lemma TxConcat(a: seq<Entry>, b: seq<Entry>, id: TxId)
    ensures HasTx(a + b, id) <==> HasTx(a, id) || HasTx(b, id)
  {
    if k :| 0 <= k < |a| && a[k].tx == id {
      assert (a + b)[k].tx == id;
    }
    if k :| 0 <= k < |b| && b[k].tx == id {
      assert (a + b)[|a| + k].tx == id;
    }
  }

  lemma PermutedTx(a: seq<Entry>, b: seq<Entry>, id: TxId)
    requires multiset(a) == multiset(b)
    ensures HasTx(a, id) ==> exists k :: 0 <= k < |b| && b[k].tx == id && b[k] in a
  {
    if k :| 0 <= k < |a| && a[k].tx == id {
      assert a[k] in multiset(b);
      var m :| 0 <= m < |b| && b[m] == a[k];
    }
  }

  /**
   * The running balance after a transaction is, in every commodity, what the scope moved in the
   * transactions at or before it; its delta is what it moved itself. A transaction without a leg
   * in some commodity has no entry.
   */
  lemma RunningBalance(l: RunningLedger, stream: seq<Transaction>, k: nat, c: Code)
    requires AscendingIds(stream) && k < |stream|
    requires Folded(l, Sort(Entries(stream)))
    ensures stream[k].id in l.after <==> HasEntry(stream[k])
    ensures HasEntry(stream[k]) ==> l.BalanceAfter(stream[k].id, c) == Sum(stream, MovedUpTo(stream[k], c))
    ensures l.Delta(stream[k].id, c) == Moved(stream[k], c)
  {
    var entries, t := Entries(stream), stream[k];
    var sorted := Sort(entries);
    SortSorts(entries);
    EntriesHave(stream, k);
    PermutedTx(entries, sorted, t.id);
    PermutedTx(sorted, entries, t.id);
    hide Sort, Entries, Sum, Ordered;
    if HasEntry(t) {
      var m :| 0 <= m < |sorted| && sorted[m].tx == t.id && sorted[m] in entries;
      MarkDate(stream, k, sorted[m]);
      SumPermuted(entries, sorted, UpTo(sorted[m], c));
      EntriesUpTo(stream, t, sorted[m], c);
      SumPermuted(entries, sorted, Within(t.id, c));
      EntriesWithin(stream, t.id, c);
      OnlyOne(stream, k, c);
    } else {
      NoEntryNoMove(t, c);
    }
  }

  lemma MarkDate(stream: seq<Transaction>, k: nat, e: Entry)
    requires AscendingIds(stream) && k < |stream| && e in Entries(stream) && e.tx == stream[k].id
    ensures e.date == stream[k].date
  {
    var n :| 0 <= n < |Entries(stream)| && Entries(stream)[n] == e;
    EntriesMembers(stream, n);
    var i :| 0 <= i < |stream| && stream[i].id == e.tx && stream[i].date == e.date;
    assert i == k;
  }

  lemma NoEntryNoMove(t: Transaction, c: Code)
    requires !HasEntry(t)
    ensures Moved(t, c) == 0.0
  {
    SumOfZeros(t.legs, ValueIn(c));
  }

  ghost predicate Owns(stream: seq<Transaction>, i: nat, e: Entry) {
    i < |stream| && stream[i].id == e.tx && HasEntry(stream[i])
  }

  lemma {:induction false} EntryHasOwner(stream: seq<Transaction>, k: nat)
    requires k < |Entries(stream)|
    ensures exists i: nat :: Owns(stream, i, Entries(stream)[k])
  {
    var init, last := stream[..|stream| - 1], stream[|stream| - 1];
    if k < |Entries(init)| {
      EntryHasOwner(init, k);
      var i: nat :| Owns(init, i, Entries(init)[k]);
      assert Owns(stream, i, Entries(stream)[k]);
    } else {
      EntriesOfMembers(last, last.legs);
      EntriesOfHas(last, last.legs);
      assert Owns(stream, |init|, Entries(stream)[k]);
    }
  }

  lemma SortedHasOwner(stream: seq<Transaction>, id: TxId)
    ensures HasTx(Sort(Entries(stream)), id) ==> exists k :: 0 <= k < |stream| && stream[k].id == id && HasEntry(stream[k])
  {
    var entries, sorted := Entries(stream), Sort(Entries(stream));
    SortSorts(entries);
    if HasTx(sorted, id) {
      PermutedTx(sorted, entries, id);
      var m :| 0 <= m < |entries| && entries[m].tx == id;
      EntryHasOwner(stream, m);
      var i: nat :| Owns(stream, i, entries[m]);
      assert stream[i].id == id && HasEntry(stream[i]);
    }
  }

  /** A transaction the scope has no entry for has no balance, no delta and no focal commodity. */
  lemma UnknownIsZero(l: RunningLedger, stream: seq<Transaction>, id: TxId, c: Code)
    requires Folded(l, Sort(Entries(stream)))
    requires forall k :: 0 <= k < |stream| ==> stream[k].id != id || !HasEntry(stream[k])
    ensures l.BalanceAfter(id, c) == 0.0 && l.Delta(id, c) == 0.0 && l.FocalCommodity(id).None?
  {
    hide Sort, Entries;
    SortedHasOwner(stream, id);
  }

  /** `p` is the last transaction with an entry strictly before `t`. */
  ghost predicate IsPredecessor(stream: seq<Transaction>, p: Transaction, t: Transaction) {
    && Precedes(p, t) && p.id != t.id
    && forall u :: u in stream && HasEntry(u) && Precedes(u, t) && u.id != t.id ==> Precedes(u, p)
  }

  lemma MovedUpToPredecessor(stream: seq<Transaction>, p: Transaction, k: nat, c: Code)
    requires AscendingIds(stream) && k < |stream| && IsPredecessor(stream, p, stream[k])
    ensures Sum(stream, MovedUpTo(stream[k], c)) == Sum(stream, MovedUpTo(p, c)) + Moved(stream[k], c)
  {
    var t := stream[k];
    forall i | 0 <= i < |stream| ensures MovedUpTo(t, c)(stream[i]) == MovedUpTo(p, c)(stream[i]) + MovedBy(t.id, c)(stream[i]) {
      var u := stream[i];
      assert u.id == t.id ==> i == k;
      assert u in stream;
      if !HasEntry(u) {
        NoEntryNoMove(u, c);
      }
    }
    SumAdds(stream, MovedUpTo(p, c), MovedBy(t.id, c), MovedUpTo(t, c));
    OnlyOne(stream, k, c);
  }

  /** Dated on `date`, with an id no lower than `id`: ids descend within a day. */
  function SameDayFrom(date: Date, id: TxId): Transaction -> bool {
    (u: Transaction) => u.date == date && u.id >= id
  }

  /** The order written out: all the scope moved on earlier days, and on the same day in the ids from this one up. */
  lemma RunningBalanceByDate(l: RunningLedger, stream: seq<Transaction>, k: nat, c: Code)
    requires AscendingIds(stream) && k < |stream| && HasEntry(stream[k])
    requires Folded(l, Sort(Entries(stream)))
    ensures l.BalanceAfter(stream[k].id, c) ==
            BalanceIn(Filter(stream, DatedBefore(stream[k].date)), c)
            + BalanceIn(Filter(stream, SameDayFrom(stream[k].date, stream[k].id)), c)
  {
    var t := stream[k];
    var earlier, sameDay := DatedBefore(t.date), SameDayFrom(t.date, t.id);
    RunningBalance(l, stream, k, c);
    hide Folded, Sort, Entries, Moved, HasEntry;
    LegsSum(Filter(stream, earlier), c);
    LegsSum(Filter(stream, sameDay), c);
    var before, same := (u: Transaction) => if earlier(u) then Moved(u, c) else 0.0,
                        (u: Transaction) => if sameDay(u) then Moved(u, c) else 0.0;
    SumFiltered(stream, earlier, MovedIn(c), before);
    SumFiltered(stream, sameDay, MovedIn(c), same);
    SumAdds(stream, before, same, MovedUpTo(t, c));
  }

  /** Each running balance is its predecessor's plus the transaction's own delta. */
  lemma RunningBalanceStep(l: RunningLedger, stream: seq<Transaction>, j: nat, k: nat, c: Code)
    requires AscendingIds(stream) && j < |stream| && k < |stream|
    requires Folded(l, Sort(Entries(stream)))
    requires HasEntry(stream[j]) && HasEntry(stream[k]) && IsPredecessor(stream, stream[j], stream[k])
    ensures l.BalanceAfter(stream[k].id, c) == l.BalanceAfter(stream[j].id, c) + l.Delta(stream[k].id, c)
  {
    RunningBalance(l, stream, j, c);
    RunningBalance(l, stream, k, c);
    MovedUpToPredecessor(stream, stream[j], k, c);
  }

  /** The first running balance is its own delta, and the last is the scope's whole balance. */
  lemma RunningBalanceEnds(l: RunningLedger, stream: seq<Transaction>, k: nat, c: Code)
    requires AscendingIds(stream) && k < |stream| && HasEntry(stream[k])
    requires Folded(l, Sort(Entries(stream)))
    ensures (forall u :: u in stream && HasEntry(u) && u.id != stream[k].id ==> !Precedes(u, stream[k])) ==>
              l.BalanceAfter(stream[k].id, c) == l.Delta(stream[k].id, c)
    ensures (forall u :: u in stream && HasEntry(u) ==> Precedes(u, stream[k])) ==>
              l.BalanceAfter(stream[k].id, c) == BalanceIn(stream, c)
  {
    var t := stream[k];
    RunningBalance(l, stream, k, c);
    hide Folded, Sort, Entries, Moved, HasEntry;
    if forall u :: u in stream && HasEntry(u) && u.id != t.id ==> !Precedes(u, t) {
      forall i | 0 <= i < |stream| ensures MovedUpTo(t, c)(stream[i]) == MovedBy(t.id, c)(stream[i]) {
        assert stream[i] in stream && (stream[i].id == t.id ==> i == k);
        if !HasEntry(stream[i]) {
          NoEntryNoMove(stream[i], c);
        }
      }
      SumPointwise(stream, MovedUpTo(t, c), MovedBy(t.id, c));
      OnlyOne(stream, k, c);
    }
    if forall u :: u in stream && HasEntry(u) ==> Precedes(u, t) {
      forall i | 0 <= i < |stream| ensures MovedUpTo(t, c)(stream[i]) == MovedIn(c)(stream[i]) {
        assert stream[i] in stream;
        if !HasEntry(stream[i]) {
          NoEntryNoMove(stream[i], c);
        }
      }
      SumPointwise(stream, MovedUpTo(t, c), MovedIn(c));
      LegsSum(stream, c);
    }
  }

  // ----- The commodities a transaction moved -----

  ghost predicate Enters(s: seq<Entry>, tx: TxId, c: Code) {
    exists e :: e in s && e.tx == tx && e.commodity == c
  }

  predicate MovesIn(legs: seq<Leg>, c: Code) {
    exists j :: 0 <= j < |legs| && In(legs[j], c)
  }

  lemma {:induction false} EntriesOfEnter(t: Transaction, legs: seq<Leg>, c: Code)
    ensures Enters(EntriesOf(t, legs), t.id, c) <==> MovesIn(legs, c)
  {
    if legs == [] {
    } else {
      var init, last := legs[..|legs| - 1], legs[|legs| - 1];
      EntriesOfEnter(t, init, c);
      assert MovesIn(legs, c) <==> MovesIn(init, c) || In(last, c);
      if last.commodity.Some? {
        EnterConcat(EntriesOf(t, init), [Entry(t.date, t.id, last.commodity.value.name, last.value)], t.id, c);
      }
    }
  }

  lemma EnterConcat(a: seq<Entry>, b: seq<Entry>, tx: TxId, c: Code)
    ensures Enters(a + b, tx, c) <==> Enters(a, tx, c) || Enters(b, tx, c)
  {
    assert forall e :: e in a + b <==> e in a || e in b;
  }

  lemma NoEnterWithout(s: seq<Entry>, tx: TxId, c: Code)
    requires !HasTx(s, tx)
    ensures !Enters(s, tx, c)
  {
  }

  lemma {:induction false} EntriesEnter(stream: seq<Transaction>, k: nat, c: Code)
    requires AscendingIds(stream) && k < |stream|
    ensures Enters(Entries(stream), stream[k].id, c) <==> MovesIn(stream[k].legs, c)
  {
    var init, last := stream[..|stream| - 1], |stream| - 1;
    var fewer, own := Entries(init), EntriesOf(stream[last], stream[last].legs);
    EnterConcat(fewer, own, stream[k].id, c);
    EntriesOfEnter(stream[last], stream[last].legs, c);
    EntriesOfMembers(stream[last], stream[last].legs);
    if k == last {
      forall m | 0 <= m < |fewer| ensures fewer[m].tx != stream[last].id {
        EntriesMembers(init, m);
      }
      NoEnterWithout(fewer, stream[last].id, c);
    } else {
      EntriesEnter(init, k, c);
      NoEnterWithout(own, stream[k].id, c);
    }
  }

  /** The focal commodity is the one commodity the transaction's legs are in, when there is just one. */
  lemma FocalIsTheOnlyCommodity(l: RunningLedger, stream: seq<Transaction>, k: nat, c: Code)
    requires AscendingIds(stream) && k < |stream| && Folded(l, Sort(Entries(stream)))
    ensures l.FocalCommodity(stream[k].id) == Some(c) <==> forall d :: MovesIn(stream[k].legs, d) <==> d == c
  {
    hide *;
    var sorted, id := Sort(Entries(stream)), stream[k].id;
    SortSorts(Entries(stream));
    forall d ensures d in Touched(sorted, id) <==> MovesIn(stream[k].legs, d) {
      EntriesEnter(stream, k, d);
      TouchedIffEnters(sorted, Entries(stream), id, d);
    }
    FoldedCommodities(l, sorted);
    FocalFromTouched(l, sorted, id, c);
  }

  lemma FoldedCommodities(l: RunningLedger, s: seq<Entry>)
    requires Folded(l, s)
    ensures CommoditiesRight(l.commodities, s)
  {
  }

  lemma FocalFromTouched(l: RunningLedger, s: seq<Entry>, tx: TxId, c: Code)
    requires CommoditiesRight(l.commodities, s)
    ensures l.FocalCommodity(tx) == Some(c) <==> forall d :: d in Touched(s, tx) <==> d == c
  {
    var touched := Touched(s, tx);
    if tx !in l.commodities {
      assert touched == {};
    }
    assert touched == {c} <==> forall d :: d in touched <==> d == c;
  }

  lemma TouchedIffEnters(sorted: seq<Entry>, entries: seq<Entry>, tx: TxId, c: Code)
    requires multiset(sorted) == multiset(entries)
    ensures c in Touched(sorted, tx) <==> Enters(entries, tx, c)
  {
    assert forall e :: e in sorted <==> e in multiset(sorted);
    assert forall e :: e in entries <==> e in multiset(entries);
    if Enters(entries, tx, c) {
      var e :| e in entries && e.tx == tx && e.commodity == c;
      var m :| 0 <= m < |sorted| && sorted[m] == e;
    }
  }

  function BalanceOf(ledger: seq<Transaction>, c: Code): AccountId -> real {
    (a: AccountId) => BalanceIn(InScope(ledger, {a}), c)
  }

  /** A leg's value in commodity `c`, counted only on the listed accounts. */
  function ValueOn(ids: set<AccountId>, c: Code): Leg -> real {
    (l: Leg) => if l.account.name in ids then ValueIn(c)(l) else 0.0
  }

  /** A scope's balance is the sum of the single-account balances of its accounts. */
  lemma {:induction false} ScopeBalanceIsSum(ledger: seq<Transaction>, ids: set<AccountId>, c: Code)
    requires LegsTouch(ledger)
    ensures BalanceIn(InScope(ledger, ids), c) == SetSum(ids, BalanceOf(ledger, c))
    decreases ids
  {
    var all := Legs(ledger);
    ScopeKeepsItsLegs(ledger, ids);
    SumFiltered(all, OnAccounts(ids), ValueIn(c), ValueOn(ids, c));
    if ids == {} {
      SumOfZeros(all, ValueOn(ids, c));
    } else {
      var a :| a in ids;
      var rest := ids - {a};
      ScopeBalanceIsSum(ledger, rest, c);
      ScopeKeepsItsLegs(ledger, rest);
      ScopeKeepsItsLegs(ledger, {a});
      SumFiltered(all, OnAccounts(rest), ValueIn(c), ValueOn(rest, c));
      SumFiltered(all, OnAccounts({a}), ValueIn(c), ValueOn({a}, c));
      SumAdds(all, ValueOn(rest, c), ValueOn({a}, c), ValueOn(ids, c));
      SetSumRemove(ids, a, BalanceOf(ledger, c));
    }
  }
}
