/** Scopes of budgets, the envelope forest over them, and who owns a posting for display. */
module Partition {
  import opened Prelude
  import opened Postings

  /** Account ids from the type root down; tag ids from the tag root down, or no filter. */
  datatype Scope = Scope(accountChain: seq<AccountId>, tagChain: Option<seq<TagId>>)
  {
    /** Every posting `other` can match, this scope can match too. */
    predicate Contains(other: Scope) {
      && accountChain <= other.accountChain
      && match (tagChain, other.tagChain)
         case (None, _) => true
         case (Some(mine), Some(theirs)) => mine <= theirs
         case (Some(_), None) => false
    }

    function TagDepth(): nat {
      match tagChain
      case None => 0
      case Some(tags) => |tags|
    }
  }

  /** `b` is a strictly narrower budget inside `a`. */
  predicate MoreSpecific(b: Scope, a: Scope) {
    a != b && a.Contains(b)
  }

  // ----- What containment means -----

  /** Where a posting sits: its account's chain and the chains of its tags. */
  datatype Placement = Placement(accountChain: seq<AccountId>, tagChains: set<seq<TagId>>)

  ghost predicate Matches(s: Scope, p: Placement) {
    && s.accountChain <= p.accountChain
    && (s.tagChain.Some? ==> exists t :: t in p.tagChains && s.tagChain.value <= t)
  }

  /** Containment of scopes is exactly inclusion of the sets of postings they match. */
  lemma ContainsIsMatchInclusion(a: Scope, b: Scope)
    ensures a.Contains(b) <==> forall p :: Matches(b, p) ==> Matches(a, p)
  {
    if forall p :: Matches(b, p) ==> Matches(a, p) {
      var own := Placement(b.accountChain, if b.tagChain.Some? then {b.tagChain.value} else {});
      assert Matches(b, own);
      assert Matches(a, own);
    }
  }

  lemma ContainsIsPartialOrder(a: Scope, b: Scope, c: Scope)
    ensures a.Contains(a)
    ensures a.Contains(b) && b.Contains(a) ==> a == b
    ensures a.Contains(b) && b.Contains(c) ==> a.Contains(c)
  {
    if a.Contains(b) && b.Contains(a) {
      assert a.accountChain == b.accountChain;
      if a.tagChain.Some? {
        assert a.tagChain.value == b.tagChain.value;
      }
    }
  }

  lemma MoreSpecificIsStrictOrder(a: Scope, b: Scope, c: Scope)
    ensures !MoreSpecific(a, a)
    ensures MoreSpecific(a, b) && MoreSpecific(b, c) ==> MoreSpecific(a, c)
  {
    ContainsIsPartialOrder(b, c, b);
  }

  // ----- Envelope parents -----

  /** The order a parent is picked by: deeper account, then deeper tag, then lower index. */
  predicate Precedes(p: Scope, i: nat, q: Scope, j: nat) {
    if |p.accountChain| != |q.accountChain| then |p.accountChain| > |q.accountChain|
    else if p.TagDepth() != q.TagDepth() then p.TagDepth() > q.TagDepth()
    else i < j
  }

  /** The first-ranked strict container of `s` among the first `n` scopes. */
  function InnermostContainer(scopes: seq<Scope>, s: Scope, n: nat): (parent: Option<nat>)
    requires n <= |scopes|
    ensures parent.None? <==> forall i :: 0 <= i < n ==> !MoreSpecific(s, scopes[i])
    ensures parent.Some? ==>
              && parent.value < n
              && MoreSpecific(s, scopes[parent.value])
              && forall j :: 0 <= j < n && MoreSpecific(s, scopes[j]) && j != parent.value ==>
                   Precedes(scopes[parent.value], parent.value, scopes[j], j)
  {
    if n == 0 then None
    else
      var best := InnermostContainer(scopes, s, n - 1);
      if !MoreSpecific(s, scopes[n - 1]) then best
      else if best.None? || Precedes(scopes[n - 1], n - 1, scopes[best.value], best.value) then Some(n - 1)
      else best
  }

  /** Every scope's parent link: its first-ranked container in the list, or none at a root. */
  function EnvelopeParents(scopes: seq<Scope>): (parents: seq<Option<nat>>)
    ensures |parents| == |scopes|
    ensures forall k :: 0 <= k < |scopes| ==> (parents[k].Some? ==> parents[k].value < |scopes|)
  {
    seq(|scopes|, k requires 0 <= k < |scopes| => InnermostContainer(scopes, scopes[k], |scopes|))
  }

  /** A scope is a root of the forest exactly when nothing listed strictly contains it. */
  lemma RootIffUncontained(scopes: seq<Scope>, k: nat)
    requires k < |scopes|
    ensures EnvelopeParents(scopes)[k].None? <==> forall i :: 0 <= i < |scopes| ==> !MoreSpecific(scopes[k], scopes[i])
  {
    var parent := InnermostContainer(scopes, scopes[k], |scopes|);
    assert EnvelopeParents(scopes)[k] == parent;
  }

  /** The envelope `steps` parent links above scope `k`. */
  function Climb(scopes: seq<Scope>, k: nat, steps: nat): (above: Option<nat>)
    requires k < |scopes|
    ensures above.Some? ==> above.value < |scopes|
  {
    if steps == 0 then Some(k)
    else
      match Climb(scopes, k, steps - 1)
      case None => None
      case Some(j) => EnvelopeParents(scopes)[j]
  }

  /** Climbing strictly widens the scope, so parent links never close a cycle. */
  lemma {:induction false} ClimbingStrictlyWidens(scopes: seq<Scope>, k: nat, steps: nat)
    requires k < |scopes| && steps > 0
    requires Climb(scopes, k, steps).Some?
    ensures MoreSpecific(scopes[k], scopes[Climb(scopes, k, steps).value])
    ensures Climb(scopes, k, steps) != Some(k)
  {
    var j := Climb(scopes, k, steps - 1).value;
    var i := Climb(scopes, k, steps).value;
    assert InnermostContainer(scopes, scopes[j], |scopes|) == Some(i);
    if steps > 1 {
      ClimbingStrictlyWidens(scopes, k, steps - 1);
      MoreSpecificIsStrictOrder(scopes[k], scopes[j], scopes[i]);
    }
  }

  lemma ContainedAtSameDepthIsEqual(p: Scope, r: Scope)
    ensures p.Contains(r) && |p.accountChain| == |r.accountChain| && p.tagChain.Some? &&
            p.TagDepth() >= r.TagDepth() ==>
              p == r
  {
    if p.Contains(r) && |p.accountChain| == |r.accountChain| && p.tagChain.Some? && p.TagDepth() >= r.TagDepth() {
      assert p.tagChain.value == r.tagChain.value;
    }
  }

  /** Some listed scope lies strictly between `s` and `p`. */
  ghost predicate SomethingBetween(scopes: seq<Scope>, s: Scope, p: Scope) {
    exists q :: 0 <= q < |scopes| && MoreSpecific(s, scopes[q]) && MoreSpecific(scopes[q], p)
  }

  /** Scope `i` strictly contains `s`, and no other listed one that does sits on a deeper account. */
  ghost predicate DeepestContainer(scopes: seq<Scope>, s: Scope, i: nat) {
    && i < |scopes| && MoreSpecific(s, scopes[i])
    && forall j :: 0 <= j < |scopes| && MoreSpecific(s, scopes[j]) ==>
       |scopes[j].accountChain| <= |scopes[i].accountChain|
  }

  /**
   * On the deepest containing account no container filters on a tag, the first has no filter, some other an empty
   * chain.
   */
  ghost predicate EmptyChainLosesTheTie(scopes: seq<Scope>, s: Scope) {
    && (forall i: nat :: DeepestContainer(scopes, s, i) ==> scopes[i].TagDepth() == 0)
    && (exists i: nat :: DeepestContainer(scopes, s, i) && scopes[i].tagChain.None? &&
          forall j: nat :: j < i ==> !DeepestContainer(scopes, s, j))
    && (exists q: nat :: DeepestContainer(scopes, s, q) && scopes[q].tagChain == Some([]))
  }

  /** Two deepest containers of one scope sit on the same account. */
  lemma DeepestShareAccount(scopes: seq<Scope>, s: Scope, i: nat, j: nat)
    requires DeepestContainer(scopes, s, i) && DeepestContainer(scopes, s, j)
    ensures scopes[i].accountChain == scopes[j].accountChain
  {
    assert |scopes[j].accountChain| == |scopes[i].accountChain|;
    assert scopes[j].accountChain == s.accountChain[..|scopes[j].accountChain|];
    assert scopes[i].accountChain == s.accountChain[..|scopes[i].accountChain|];
  }

  /** The chosen parent is a deepest container, and comes before every other one. */
  lemma ParentIsDeepest(scopes: seq<Scope>, s: Scope, i: nat)
    requires InnermostContainer(scopes, s, |scopes|) == Some(i)
    ensures DeepestContainer(scopes, s, i)
    ensures forall j: nat :: DeepestContainer(scopes, s, j) && j != i ==> Precedes(scopes[i], i, scopes[j], j)
  {
    hide InnermostContainer;
  }

  /** Whatever lies between filters on an empty chain, where the parent has no filter. */
  lemma BetweenLosesTheTie(scopes: seq<Scope>, s: Scope, i: nat, q: nat)
    requires DeepestContainer(scopes, s, i)
    requires forall j: nat :: DeepestContainer(scopes, s, j) && j != i ==> Precedes(scopes[i], i, scopes[j], j)
    requires q < |scopes| && MoreSpecific(s, scopes[q]) && MoreSpecific(scopes[q], scopes[i])
    ensures EmptyChainLosesTheTie(scopes, s)
  {
    var p := scopes[i];
    assert |p.accountChain| == |scopes[q].accountChain| && DeepestContainer(scopes, s, q);
    ContainedAtSameDepthIsEqual(p, scopes[q]);
    assert p.tagChain.None? && scopes[q].tagChain == Some([]);
    hide DeepestContainer, MoreSpecific;
    forall j: nat | DeepestContainer(scopes, s, j) ensures scopes[j].TagDepth() == 0 && i <= j {
      assert j == i || Precedes(p, i, scopes[j], j);
      DeepestShareAccount(scopes, s, i, j);
    }
  }

  /** The unfiltered container that comes first is the parent, and the empty chain lies between. */
  lemma LoserLiesBetween(scopes: seq<Scope>, s: Scope, i: nat)
    requires DeepestContainer(scopes, s, i)
    requires forall j: nat :: DeepestContainer(scopes, s, j) && j != i ==> Precedes(scopes[i], i, scopes[j], j)
    requires EmptyChainLosesTheTie(scopes, s)
    ensures SomethingBetween(scopes, s, scopes[i])
  {
    var q: nat :| DeepestContainer(scopes, s, q) && scopes[q].tagChain == Some([]);
    var first: nat :| DeepestContainer(scopes, s, first) && scopes[first].tagChain.None?
                      && forall j: nat :: j < first ==> !DeepestContainer(scopes, s, j);
    DeepestShareAccount(scopes, s, i, first);
    DeepestShareAccount(scopes, s, i, q);
    assert first == i by {
      hide DeepestContainer;
      assert scopes[first].TagDepth() == 0 && scopes[i].TagDepth() == 0;
    }
    assert MoreSpecific(scopes[q], scopes[i]);
  }

  /** The chosen parent is innermost, except exactly when an empty tag chain loses the tie to an unfiltered scope. */
  lemma ParentIsInnermost(scopes: seq<Scope>, k: nat)
    requires k < |scopes|
    requires EnvelopeParents(scopes)[k].Some?
    ensures !SomethingBetween(scopes, scopes[k], scopes[EnvelopeParents(scopes)[k].value]) <==>
            !EmptyChainLosesTheTie(scopes, scopes[k])
  {
    var s, i := scopes[k], EnvelopeParents(scopes)[k].value;
    assert InnermostContainer(scopes, s, |scopes|) == Some(i);
    ParentIsDeepest(scopes, s, i);
    hide DeepestContainer, MoreSpecific, InnermostContainer, Precedes, EmptyChainLosesTheTie, EnvelopeParents;
    if SomethingBetween(scopes, s, scopes[i]) {
      var q :| 0 <= q < |scopes| && MoreSpecific(s, scopes[q]) && MoreSpecific(scopes[q], scopes[i]);
      BetweenLosesTheTie(scopes, s, i, q);
    }
    if EmptyChainLosesTheTie(scopes, s) {
      LoserLiesBetween(scopes, s, i);
    }
  }

  /** Tag chains end in the filter tag, so a present chain is never empty and every parent is innermost. */
  lemma ParentIsInnermostForRealTags(scopes: seq<Scope>, k: nat)
    requires k < |scopes|
    requires EnvelopeParents(scopes)[k].Some?
    requires forall i :: 0 <= i < |scopes| ==> scopes[i].tagChain != Some([])
    ensures !SomethingBetween(scopes, scopes[k], scopes[EnvelopeParents(scopes)[k].value])
  {
    ParentIsInnermost(scopes, k);
  }

  /** A list on which the choice is not innermost: unfiltered, empty chain, one tag, all on one account. */
  lemma EmptyTagChainMisleadsTheChoice()
    ensures var scopes := [Scope([0], None), Scope([0], Some([])), Scope([0], Some([7]))];
            && EnvelopeParents(scopes)[2] == Some(0)
            && SomethingBetween(scopes, scopes[2], scopes[0])
  {
    var scopes := [Scope([0], None), Scope([0], Some([])), Scope([0], Some([7]))];
    assert MoreSpecific(scopes[2], scopes[1]) && MoreSpecific(scopes[1], scopes[0]);
    var parent := InnermostContainer(scopes, scopes[2], 3);
    assert MoreSpecific(scopes[2], scopes[0]);
  }

  // ----- Owners -----

  datatype Owner = Budget(index: nat) | Shared(indices: seq<nat>)
  {
    function Indices(): seq<nat> {
      match this
      case Budget(i) => [i]
      case Shared(many) => many
    }
  }

  predicate Beats(scopes: seq<Scope>, j: nat, i: nat) {
    j < |scopes| && i < |scopes| && MoreSpecific(scopes[j], scopes[i])
  }

  /** No listed match is more specific than `i`. */
  predicate IsMinimal(scopes: seq<Scope>, matched: seq<nat>, i: nat) {
    !exists j :: j in matched && Beats(scopes, j, i)
  }

  /** The minimal entries of `todo`, in list order, duplicates kept. */
  function MinimalMatches(scopes: seq<Scope>, matched: seq<nat>, todo: seq<nat>): (minimal: seq<nat>)
    ensures forall i :: i in minimal <==> i in todo && IsMinimal(scopes, matched, i)
  {
    if todo == [] then []
    else (if IsMinimal(scopes, matched, todo[0]) then [todo[0]] else []) + MinimalMatches(scopes, matched, todo[1..])
  }

  predicate Ascending(s: seq<nat>) {
    forall i, j :: 0 <= i < j < |s| ==> s[i] < s[j]
  }

  function InsertDistinct(x: nat, s: seq<nat>): (r: seq<nat>)
    requires Ascending(s)
    ensures Ascending(r)
    ensures forall y :: y in r <==> y == x || y in s
  {
    if s == [] then [x]
    else if x < s[0] then [x] + s
    else if x == s[0] then s
    else
      var rest := InsertDistinct(x, s[1..]);
      assert forall k :: 0 <= k < |rest| ==> s[0] < rest[k] by {
        forall k | 0 <= k < |rest| ensures s[0] < rest[k] {
          assert rest[k] in rest;
          assert rest[k] == x || rest[k] in s[1..];
        }
      }
      [s[0]] + rest
  }

  /** Sorted ascending with duplicates removed. */
  function SortDedup(s: seq<nat>): (r: seq<nat>)
    ensures Ascending(r)
    ensures forall y :: y in r <==> y in s
  {
    if s == [] then [] else InsertDistinct(s[0], SortDedup(s[1..]))
  }

  /** The owner of one posting, from the budgets that matched it. */
  function OwnerOf(scopes: seq<Scope>, matched: seq<nat>): Option<Owner> {
    var minimal := SortDedup(MinimalMatches(scopes, matched, matched));
    if |minimal| == 0 then None
    else if |minimal| == 1 then Some(Budget(minimal[0]))
    else Some(Shared(minimal))
  }

  function Owners(scopes: seq<Scope>, matches: map<PostingKey, seq<nat>>): map<PostingKey, Owner> {
    map key | key in matches && OwnerOf(scopes, matches[key]).Some? :: OwnerOf(scopes, matches[key]).value
  }

  ghost function Beaters(scopes: seq<Scope>, matched: seq<nat>, i: nat): set<nat> {
    set j | j in matched && Beats(scopes, j, i)
  }

  /** Below every match lies a minimal one: itself, or one strictly more specific. */
  lemma MinimalBelow(scopes: seq<Scope>, matched: seq<nat>, i: nat) returns (m: nat)
    requires i in matched
    ensures m in matched && IsMinimal(scopes, matched, m)
    ensures m == i || Beats(scopes, m, i)
    decreases Beaters(scopes, matched, i)
  {
    m := i;
    if !IsMinimal(scopes, matched, i) {
      var j :| j in matched && Beats(scopes, j, i);
      forall x | x in matched && Beats(scopes, x, j) ensures Beats(scopes, x, i) {
        MoreSpecificIsStrictOrder(scopes[x], scopes[j], scopes[i]);
      }
      MoreSpecificIsStrictOrder(scopes[j], scopes[j], scopes[j]);
      assert j in Beaters(scopes, matched, i) && j !in Beaters(scopes, matched, j);
      m := MinimalBelow(scopes, matched, j);
      if m != j {
        MoreSpecificIsStrictOrder(scopes[m], scopes[j], scopes[i]);
      }
    }
  }

  /**
   * A matched posting has an owner exactly when some budget matched it; the owners are
   * the minimal matches, pairwise incomparable, and every match owns or strictly contains an owner.
   */
  lemma OwnersAreTheMinimalMatches(scopes: seq<Scope>, matches: map<PostingKey, seq<nat>>, key: PostingKey)
    requires key in matches
    ensures key in Owners(scopes, matches) <==> matches[key] != []
    ensures key in Owners(scopes, matches) ==>
              var owners := Owners(scopes, matches)[key].Indices();
              && Ascending(owners)
              && (forall i :: i in owners <==> i in matches[key] && IsMinimal(scopes, matches[key], i))
              && (forall i, j :: i in owners && j in owners ==> !Beats(scopes, i, j))
              && (forall i :: i in matches[key] ==> i in owners || exists m :: m in owners && Beats(scopes, m, i))
  {
    var matched := matches[key];
    var minimal := SortDedup(MinimalMatches(scopes, matched, matched));
    if matched != [] {
      var m := MinimalBelow(scopes, matched, matched[0]);
      assert m in minimal;
    }
    forall i | i in matched ensures i in minimal || exists m :: m in minimal && Beats(scopes, m, i) {
      var m := MinimalBelow(scopes, matched, i);
      assert m in minimal;
    }
  }

  /** An ascending list is determined by its elements. */
  lemma {:induction false} AscendingIsUnique(s: seq<nat>, t: seq<nat>)
    requires Ascending(s) && Ascending(t)
    requires forall y :: y in s <==> y in t
    ensures s == t
  {
    assert s != [] ==> s[0] in t;
    assert t != [] ==> t[0] in s;
    if s == [] {
    } else {
      assert s[0] == t[0];
      forall y ensures y in s[1..] <==> y in t[1..] {
        assert y in s[1..] <==> y in s && y != s[0];
        assert y in t[1..] <==> y in t && y != t[0];
      }
      AscendingIsUnique(s[1..], t[1..]);
      assert s == [s[0]] + s[1..] && t == [t[0]] + t[1..];
    }
  }

  /** The owner depends on which budgets matched, not on list order or repeats. */
  lemma OwnerIgnoresOrderAndRepeats(scopes: seq<Scope>, one: seq<nat>, two: seq<nat>)
    requires forall i :: i in one <==> i in two
    ensures OwnerOf(scopes, one) == OwnerOf(scopes, two)
  {
    forall i ensures IsMinimal(scopes, one, i) == IsMinimal(scopes, two, i) {
    }
    AscendingIsUnique(SortDedup(MinimalMatches(scopes, one, one)), SortDedup(MinimalMatches(scopes, two, two)));
  }
}
