/** Postings as a budget matches them: concrete amounts under its account, in transaction order. */
module Postings {
  import opened Prelude
  import opened Seqs
  import opened Balances

  /** One concrete amount a posting contributes; an elided leg has one key per commodity. */
  datatype PostingKey = PostingKey(posting: nat, commodity: Code)

  /** `tags` holds every tag in whose subtree the posting or its transaction is tagged. */
  datatype Posting = Posting(key: PostingKey, account: AccountId, date: Date, amount: Amount, tags: set<TagId>)

  /** Dated in `[from, until)`, inside the tag filter's subtree, and among the query's keys when there are any. */
  function Admitted(from: Date, until: Date, tag: Option<TagId>, keys: Option<set<PostingKey>>): Posting -> bool {
    (p: Posting) =>
      && from <= p.date < until
      && (tag.Some? ==> tag.value in p.tags)
      && (keys.Some? ==> p.key in keys.value)
  }

  /** Every matched posting in `[from, until)`. */
  function FetchPostings(ledger: seq<Posting>, from: Date, until: Date, tag: Option<TagId>,
                         keys: Option<set<PostingKey>>): seq<Posting> {
    Filter(ledger, Admitted(from, until, tag, keys))
  }
}
