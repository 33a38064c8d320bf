/** Minting identifiers. */
module Ids {
  import opened Prelude

  lemma {:induction false} SomeUnused(ids: set<nat>) returns (unused: nat)
    ensures forall id :: id in ids ==> id < unused
    decreases ids
  {
    if ids == {} {
      unused := 0;
    } else {
      var id :| id in ids;
      var others := ids - {id};
      var below := SomeUnused(others);
      assert forall other :: other in ids ==> other == id || other in others;
      unused := Max(below, id + 1);
    }
  }

  /** An id nothing uses yet. */
  method Mint(ids: set<nat>) returns (id: nat)
    ensures id !in ids
  {
    ghost var unused := SomeUnused(ids);
    assert unused !in ids;
    id :| id !in ids;
  }
}
