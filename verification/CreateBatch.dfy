/** A whole batch of paths: exact, minimal, all or nothing, and a no-op the second time. */
module CreateBatch {
  import opened Prelude
  import opened Seqs
  import opened AccountModel
  import opened AccountLog
  import opened Paths
  import opened PathRules
  import opened CreatePaths
  import opened Descendants

  /** What a successful batch reports: each path's leaf, the paths that were created, and the accounts inserted. */
  datatype Created = Created(ids: map<Path, AccountId>, created: seq<Path>, minted: seq<AccountId>)

  ghost predicate AllReusable(accounts: Accounts, specs: seq<PathSpec>) {
    forall k :: 0 <= k < |specs| ==> Reusable(accounts, specs[k])
  }

  /** `ids` maps exactly the requested paths, each to the account its segments name. */
  ghost predicate IdsAreLeaves(accounts: Accounts, specs: seq<PathSpec>, ids: map<Path, AccountId>) {
    && (forall path :: path in ids ==> Requested(specs, path) && path != [] && At(accounts, path) == Some(ids[path]))
    && (forall k :: 0 <= k < |specs| ==> specs[k].segments in ids)
  }

  ghost predicate Requested(specs: seq<PathSpec>, path: Path) {
    exists k :: 0 <= k < |specs| && specs[k].segments == path
  }

  /** A prefix of a requested path that named nothing before. */
  ghost predicate Missing(before: Accounts, specs: seq<PathSpec>, path: Path) {
    path != [] && At(before, path).None? && PrefixOfSome(specs, path)
  }

  ghost predicate PrefixOfSome(specs: seq<PathSpec>, path: Path) {
    exists k :: 0 <= k < |specs| && path <= specs[k].segments
  }

  /** The table after holds the old accounts unchanged and exactly the minted ones besides. */
  ghost predicate Adds(before: Accounts, after: Accounts, minted: seq<AccountId>) {
    && Extends(before, after) && NoRepeats(minted)
    && forall x :: (x in after <==> x in before || x in minted) && !(x in before && x in minted)
  }

  /** `specs[k]` is the first to pass through `path`. */
  ghost predicate FirstThrough(specs: seq<PathSpec>, k: nat, path: Path) {
    && k < |specs| && path <= specs[k].segments
    && forall j :: 0 <= j < k ==> !(path <= specs[j].segments)
  }

  /**
   * The row at `path` is the one `spec` asks for, of the path's one type; a root's type is the one asked for or named.
   */
  ghost predicate MadeFor(after: Accounts, spec: PathSpec, path: Path, t: AccountType) {
    && path != [] && path <= spec.segments
    && Takes(after, spec, t) && RowMade(after, spec, t, |path| - 1)
    && (|path| == 1 && spec.accountType.None? ==> NamesType(path[0], t))
  }

  /** The row at `path` is the one asked for by the first path through it. */
  ghost predicate MadeAsAsked(after: Accounts, specs: seq<PathSpec>, path: Path) {
    exists k: nat, t :: FirstThrough(specs, k, path) && MadeFor(after, specs[k], path, t)
  }

  /** The batch stops at path `k`: the paths before it were materialised, and the table they left refuses it. */
  ghost predicate StopsAt(before: Accounts, specs: seq<PathSpec>, e: Error, k: nat, made: Created, mid: Accounts,
                          log: seq<Event>) {
    k < |specs| && Materialised(before, specs[..k], made, mid, log) && Refused(mid, specs[k], e)
  }

  /** Everything a successful batch promises. */
  ghost predicate Materialised(before: Accounts, specs: seq<PathSpec>, result: Created, after: Accounts,
                               log: seq<Event>) {
    && CreatedInTurn(before, result.minted, after, log) && Adds(before, after, result.minted)
    && IdsAreLeaves(after, specs, result.ids)
    && NoRepeats(result.created) && (forall path :: path in result.created <==> Missing(before, specs, path))
    && |result.minted| == |result.created|
    && (forall i :: 0 <= i < |result.created| ==>
        result.created[i] != [] && At(after, result.created[i]) == Some(result.minted[i]))
    && AllReusable(after, specs)
    && (forall path :: path in result.created ==> MadeAsAsked(after, specs, path))
  }

  /** A batch is a run of single creations, so it keeps the forest and logs exactly what it added. */
  lemma MaterialisedIsSound(before: Accounts, specs: seq<PathSpec>, result: Created, after: Accounts, log: seq<Event>)
    requires Forest(before) && Materialised(before, specs, result, after, log)
    ensures Forest(after) && TrueLog(LivesOf(before), log) && Replay(LivesOf(before), log) == LivesOf(after)
  {
    var rows := MintedRows(after, result.minted);
    assert NewRows(before, rows) && CreateEach(before, rows) == Outcome(Ok(()), after, log);
    hide *;
    CreateEachKeepsForest(before, rows);
    CreateEachTells(before, rows);
    TellsMeans(before, CreateEach(before, rows));
  }

  lemma TellsMeans(before: Accounts, outcome: Outcome)
    requires Tells(before, outcome)
    ensures TrueLog(LivesOf(before), outcome.log) && Replay(LivesOf(before), outcome.log) == LivesOf(outcome.accounts)
  {
  }

  // ----- Between paths -----

  ghost predicate BatchSoFar(before: Accounts, specs: seq<PathSpec>, b: Batch, ids: map<Path, AccountId>,
                             start: Batch) {
    && Grown(before, b)
    && AllReusable(b.accounts, specs)
    && IdsAreLeaves(b.accounts, specs, ids)
    && (forall p :: p in b.created ==> PrefixOfSome(specs, p))
    && (forall p :: p in b.created ==> MadeAsAsked(b.accounts, specs, p))
    && (AllReusable(before, specs) ==> b == start)
  }

  lemma ReusableGrows(a: Accounts, b: Accounts, spec: PathSpec)
    requires Reusable(a, spec) && Extends(a, b) && NamesDistinct(b)
    ensures Reusable(b, spec)
  {
    AtGrows(a, b, spec.segments);
    AtGrows(a, b, spec.segments[..1]);
  }

  lemma IdsGrow(a: Accounts, b: Accounts, specs: seq<PathSpec>, ids: map<Path, AccountId>, spec: PathSpec,
                id: AccountId)
    requires IdsAreLeaves(a, specs, ids) && Extends(a, b) && NamesDistinct(b)
    requires spec.segments != [] && At(b, spec.segments) == Some(id)
    ensures IdsAreLeaves(b, specs + [spec], ids[spec.segments := id])
  {
    var more := specs + [spec];
    assert more[|specs|] == spec;
    forall path | path in ids[spec.segments := id]
      ensures Requested(more, path) && path != [] && At(b, path) == Some(ids[spec.segments := id][path])
    {
      if path == spec.segments {
        assert more[|specs|].segments == path;
      } else {
        assert Requested(specs, path);
        var k :| 0 <= k < |specs| && specs[k].segments == path;
        assert more[k].segments == path;
        AtGrows(a, b, path);
      }
    }
    assert forall k :: 0 <= k < |specs| ==> more[k] == specs[k];
  }

  lemma AllReusableGrows(a: Accounts, b: Accounts, specs: seq<PathSpec>, spec: PathSpec)
    requires AllReusable(a, specs) && Extends(a, b) && NamesDistinct(b) && Reusable(b, spec)
    ensures AllReusable(b, specs + [spec])
  {
    forall k | 0 <= k < |specs + [spec]| ensures Reusable(b, (specs + [spec])[k]) {
      if k < |specs| {
        ReusableGrows(a, b, specs[k]);
      }
    }
  }

  lemma PrefixesGrow(specs: seq<PathSpec>, spec: PathSpec, p: Path)
    ensures PrefixOfSome(specs, p) || p <= spec.segments ==> PrefixOfSome(specs + [spec], p)
  {
    var more := specs + [spec];
    if PrefixOfSome(specs, p) {
      var k :| 0 <= k < |specs| && p <= specs[k].segments;
      assert p <= more[k].segments;
    } else if p <= spec.segments {
      assert p <= more[|specs|].segments;
    }
  }

  lemma MadeForGrows(a: Accounts, b: Accounts, spec: PathSpec, path: Path, t: AccountType)
    requires MadeFor(a, spec, path, t) && Extends(a, b) && NamesDistinct(b)
    ensures MadeFor(b, spec, path, t)
  {
    var j := |path| - 1;
    assert spec.segments[..j + 1] == path;
    AtPrefix(a, path, 1);
    assert path[..1] == spec.segments[..1];
    AtGrows(a, b, spec.segments[..1]);
    if j > 0 {
      AtPrefix(a, path, j);
      assert path[..j] == spec.segments[..j];
    }
    RowStays(a, b, spec, t, j);
  }

  lemma MadeAsAskedGrows(a: Accounts, b: Accounts, specs: seq<PathSpec>, spec: PathSpec, path: Path)
    requires MadeAsAsked(a, specs, path) && Extends(a, b) && NamesDistinct(b)
    ensures MadeAsAsked(b, specs + [spec], path)
  {
    var k: nat, t :| FirstThrough(specs, k, path) && MadeFor(a, specs[k], path, t);
    var more := specs + [spec];
    assert FirstThrough(more, k, path) by {
      assert forall j :: 0 <= j <= k ==> more[j] == specs[j];
    }
    hide *;
    MadeForGrows(a, b, specs[k], path, t);
    AskedBy(b, more, path, k, t);
  }

  lemma AskedBy(after: Accounts, specs: seq<PathSpec>, path: Path, k: nat, t: AccountType)
    requires FirstThrough(specs, k, path) && MadeFor(after, specs[k], path, t)
    ensures MadeAsAsked(after, specs, path)
  {
  }

  /** A segment this path was the first to need has the row this path asks for. */
  lemma NewlyMadeFor(a: Accounts, b: Accounts, spec: PathSpec, path: Path)
    requires AsAsked(a, b, spec) && Extends(a, b) && NamesDistinct(b)
    requires path != [] && path <= spec.segments && At(a, path).None?
    ensures exists t :: MadeFor(b, spec, path, t)
  {
    var t :| Takes(a, spec, t) && RowsMade(a, b, spec, t, |spec.segments|);
    var j := |path| - 1;
    assert spec.segments[..j + 1] == path;
    assert !Stands(a, spec, j) && RowMade(b, spec, t, j);
    assert |path| == 1 ==> path == spec.segments[..1];
    hide *;
    TakesStill(a, b, spec, t);
    RootNamed(a, spec, t);
    MadeForIf(b, spec, path, t);
  }

  lemma RootNamed(accounts: Accounts, spec: PathSpec, t: AccountType)
    requires spec.segments != [] && Takes(accounts, spec, t)
    ensures At(accounts, spec.segments[..1]).None? && spec.accountType.None? ==> NamesType(spec.segments[0], t)
  {
  }

  lemma MadeForIf(after: Accounts, spec: PathSpec, path: Path, t: AccountType)
    requires path != [] && path <= spec.segments && Takes(after, spec, t) && RowMade(after, spec, t, |path| - 1)
    requires |path| == 1 && spec.accountType.None? ==> NamesType(path[0], t)
    ensures MadeFor(after, spec, path, t)
  {
  }

  /** A path takes the same type of the table it was materialised in. */
  lemma TakesStill(a: Accounts, b: Accounts, spec: PathSpec, t: AccountType)
    requires spec.segments != [] && Takes(a, spec, t) && RowsMade(a, b, spec, t, |spec.segments|)
    requires Extends(a, b) && NamesDistinct(b)
    ensures Takes(b, spec, t)
  {
    if At(a, spec.segments[..1]).Some? {
      AtGrows(a, b, spec.segments[..1]);
    } else {
      assert !Stands(a, spec, 0) && RowMade(b, spec, t, 0);
    }
  }

  lemma NextMadeAsAsked(before: Accounts, specs: seq<PathSpec>, b: Batch, ids: map<Path, AccountId>, start: Batch,
                        spec: PathSpec, next: Batch, p: Path)
    requires Forest(before) && BatchSoFar(before, specs, b, ids, start)
    requires Grown(before, next) && Extends(b.accounts, next.accounts) && MadeFrom(b, next, spec.segments)
    requires AsAsked(b.accounts, next.accounts, spec) && p in next.created
    ensures MadeAsAsked(next.accounts, specs + [spec], p)
  {
    GrownNow(before, b);
    GrownNow(before, next);
    SoFarParts(before, specs, b, ids, start);
    NothingAtRoot(before, next);
    if p in b.created {
      MadeAsAskedGrows(b.accounts, next.accounts, specs, spec, p);
    } else {
      CreatedIffNew(before, b, p);
      CreatedIffNew(before, next, p);
      hide Grown, BatchSoFar, Forest, MadeFor, AsAsked, MintedAt, CreatedInTurn, Mirrors, AllReusable, At;
      NewlyMadeFor(b.accounts, next.accounts, spec, p);
      var t :| MadeFor(next.accounts, spec, p, t);
      var more := specs + [spec];
      forall j | 0 <= j < |specs| ensures !(p <= more[j].segments) {
        if p <= specs[j].segments {
          RequestedExists(b.accounts, specs, p);
        }
      }
      assert more[|specs|] == spec;
      AskedBy(next.accounts, more, p, |specs|, t);
    }
  }

  lemma BatchStep(before: Accounts, specs: seq<PathSpec>, b: Batch, ids: map<Path, AccountId>, start: Batch,
                  spec: PathSpec, next: Batch, id: AccountId)
    requires BatchSoFar(before, specs, b, ids, start) && start.accounts == before
    requires Grown(before, next) && Extends(b.accounts, next.accounts) && Reusable(next.accounts, spec)
    requires At(next.accounts, spec.segments) == Some(id) && MadeFrom(b, next, spec.segments)
    requires Forest(before) && AsAsked(b.accounts, next.accounts, spec)
    requires Reusable(b.accounts, spec) ==> next == b
    ensures BatchSoFar(before, specs + [spec], next, ids[spec.segments := id], start)
  {
    assert spec.segments != [];
    hide *;
    AllReusableSplits(before, specs, spec);
    SoFarParts(before, specs, b, ids, start);
    GrownNow(before, next);
    AllReusableGrows(b.accounts, next.accounts, specs, spec);
    IdsGrow(b.accounts, next.accounts, specs, ids, spec, id);
    forall p | p in next.created ensures PrefixOfSome(specs + [spec], p) && MadeAsAsked(next.accounts, specs + [spec], p) {
      MadeFromMeans(b, next, spec.segments, p);
      PrefixesGrow(specs, spec, p);
      NextMadeAsAsked(before, specs, b, ids, start, spec, next, p);
    }
    SoFarAgain(before, specs + [spec], next, ids[spec.segments := id], start);
  }

  lemma AllReusableSplits(accounts: Accounts, specs: seq<PathSpec>, spec: PathSpec)
    ensures AllReusable(accounts, specs + [spec]) ==> AllReusable(accounts, specs) && Reusable(accounts, spec)
  {
    if AllReusable(accounts, specs + [spec]) {
      assert forall k :: 0 <= k < |specs| ==> (specs + [spec])[k] == specs[k];
      assert (specs + [spec])[|specs|] == spec;
    }
  }

  lemma MadeFromMeans(a: Batch, b: Batch, path: Path, p: Path)
    requires MadeFrom(a, b, path) && p in b.created
    ensures p in a.created || p <= path
  {
  }

  lemma SoFarAgain(before: Accounts, specs: seq<PathSpec>, b: Batch, ids: map<Path, AccountId>, start: Batch)
    requires Grown(before, b) && AllReusable(b.accounts, specs) && IdsAreLeaves(b.accounts, specs, ids)
    requires forall p :: p in b.created ==> PrefixOfSome(specs, p) && MadeAsAsked(b.accounts, specs, p)
    requires AllReusable(before, specs) ==> b == start
    ensures BatchSoFar(before, specs, b, ids, start)
  {
    hide Grown, AllReusable, IdsAreLeaves, PrefixOfSome, MadeAsAsked;
  }

  // ----- The promises, from what the transaction kept -----

  lemma CreatedDistinct(before: Accounts, b: Batch)
    requires MintedAt(before, b)
    ensures NoRepeats(b.created)
  {
    forall i, j | 0 <= i < j < |b.created| ensures b.created[i] != b.created[j] {
      assert MintedEntry(before, b.accounts, b.created[i], b.minted[i]) &&
             MintedEntry(before, b.accounts, b.created[j], b.minted[j]);
    }
  }

  /** A path was created exactly when it names something now and named nothing before. */
  lemma CreatedIffNew(before: Accounts, b: Batch, path: Path)
    requires MintedAt(before, b) && Extends(before, b.accounts) && NamesDistinct(before) &&
             NamesDistinct(b.accounts) && ParentsKnown(before)
    requires path != []
    ensures path in b.created <==> At(b.accounts, path).Some? && At(before, path).None?
  {
    if path in b.created {
      var i :| 0 <= i < |b.created| && b.created[i] == path;
      assert MintedEntry(before, b.accounts, b.created[i], b.minted[i]);
      if At(before, path).Some? {
        AtGrows(before, b.accounts, path);
      }
    }
    if At(b.accounts, path).Some? && At(before, path).None? {
      var x := At(b.accounts, path).value;
      if x in before {
        AtWas(before, b.accounts, path);
      }
      var i :| 0 <= i < |b.minted| && b.minted[i] == x;
      assert MintedEntry(before, b.accounts, b.created[i], b.minted[i]);
      OnePath(b.accounts, path, b.created[i]);
    }
  }

  lemma CreatedIsMissing(before: Accounts, specs: seq<PathSpec>, b: Batch, path: Path)
    requires Forest(before) && Grown(before, b) && AllReusable(b.accounts, specs)
    requires forall p :: p in b.created ==> PrefixOfSome(specs, p)
    ensures path in b.created <==> Missing(before, specs, path)
  {
    if path == [] {
      NothingAtRoot(before, b);
    } else {
      GrownNow(before, b);
      CreatedIffNew(before, b, path);
      hide *;
      if PrefixOfSome(specs, path) {
        RequestedExists(b.accounts, specs, path);
      }
      MissingIs(before, specs, path);
    }
  }

  lemma MissingIs(before: Accounts, specs: seq<PathSpec>, path: Path)
    requires path != []
    ensures Missing(before, specs, path) <==> At(before, path).None? && PrefixOfSome(specs, path)
  {
  }

  lemma NothingAtRoot(before: Accounts, b: Batch)
    requires MintedAt(before, b)
    ensures [] !in b.created
  {
    assert forall i :: 0 <= i < |b.minted| ==> MintedEntry(before, b.accounts, b.created[i], b.minted[i]);
  }

  /** Once every requested path is reusable, so does every prefix of one name something. */
  lemma RequestedExists(accounts: Accounts, specs: seq<PathSpec>, path: Path)
    requires path != [] && AllReusable(accounts, specs) && PrefixOfSome(specs, path)
    ensures At(accounts, path).Some?
  {
    var k :| 0 <= k < |specs| && path <= specs[k].segments;
    assert Reusable(accounts, specs[k]);
    AtPrefix(accounts, specs[k].segments, |path|);
    assert specs[k].segments[..|path|] == path;
  }

  lemma BatchDone(before: Accounts, specs: seq<PathSpec>, b: Batch, ids: map<Path, AccountId>, start: Batch)
    requires Forest(before) && BatchSoFar(before, specs, b, ids, start)
    ensures Materialised(before, specs, Created(ids, b.created, b.minted), b.accounts, b.log)
  {
    hide *;
    SoFarParts(before, specs, b, ids, start);
    CreatedDistinct(before, b);
    forall path ensures path in b.created <==> Missing(before, specs, path) {
      CreatedIsMissing(before, specs, b, path);
    }
    AddsMinted(before, b);
    MaterialisedFrom(before, specs, b, ids);
  }

  lemma SoFarParts(before: Accounts, specs: seq<PathSpec>, b: Batch, ids: map<Path, AccountId>, start: Batch)
    requires BatchSoFar(before, specs, b, ids, start)
    ensures Grown(before, b) && MintedAt(before, b) && Extends(before, b.accounts)
    ensures CreatedInTurn(before, b.minted, b.accounts, b.log)
    ensures AllReusable(b.accounts, specs) && IdsAreLeaves(b.accounts, specs, ids)
    ensures forall p :: p in b.created ==> PrefixOfSome(specs, p)
    ensures forall p :: p in b.created ==> MadeAsAsked(b.accounts, specs, p)
    ensures AllReusable(before, specs) ==> b == start
  {
  }

  /** The table grew by exactly the minted accounts, each at its created path. */
  lemma AddsMinted(before: Accounts, b: Batch)
    requires MintedAt(before, b) && Extends(before, b.accounts)
    ensures Adds(before, b.accounts, b.minted) && |b.minted| == |b.created|
    ensures forall i :: 0 <= i < |b.created| ==> b.created[i] != [] && At(b.accounts, b.created[i]) == Some(b.minted[i])
  {
    assert forall i :: 0 <= i < |b.minted| ==> MintedEntry(before, b.accounts, b.created[i], b.minted[i]);
    hide At, NoRepeats, Extends;
  }

  lemma MaterialisedFrom(before: Accounts, specs: seq<PathSpec>, b: Batch, ids: map<Path, AccountId>)
    requires CreatedInTurn(before, b.minted, b.accounts, b.log)
    requires Adds(before, b.accounts, b.minted) && IdsAreLeaves(b.accounts, specs, ids)
    requires NoRepeats(b.created) && (forall path :: path in b.created <==> Missing(before, specs, path))
    requires |b.minted| == |b.created|
    requires forall i :: 0 <= i < |b.created| ==>
             b.created[i] != [] && At(b.accounts, b.created[i]) == Some(b.minted[i])
    requires AllReusable(b.accounts, specs)
    requires forall path :: path in b.created ==> MadeAsAsked(b.accounts, specs, path)
    ensures Materialised(before, specs, Created(ids, b.created, b.minted), b.accounts, b.log)
  {
    hide MadeAsAsked, CreatedInTurn, Adds, IdsAreLeaves, NoRepeats, Missing, At, AllReusable;
  }

  lemma GrownStarts(before: Accounts, known: seq<Record>)
    requires Forest(before) && Mirrors(known, before)
    ensures Grown(before, Batch(before, known, [], [], []))
  {
  }

  /** Every account, as the snapshot lists it. */
  method ListAll(accounts: Accounts) returns (known: seq<Record>)
    ensures Mirrors(known, accounts)
  {
    var ids := ListOf(accounts.Keys);
    known := [];
    for i := 0 to |ids|
      invariant forall k :: k in known ==> k.id in accounts && accounts[k.id] == k.account
      invariant forall j :: 0 <= j < i ==> Lists(known, ids[j])
    {
      var more := known + [Record(ids[i], accounts[ids[i]])];
      assert more[|known|].id == ids[i];
      forall j | 0 <= j < i + 1 ensures Lists(more, ids[j]) {
        if j < i {
          assert Lists(known, ids[j]);
          var k :| k in known && k.id == ids[j];
          assert k in more;
        } else {
          assert Record(ids[i], accounts[ids[i]]) in more;
        }
      }
      known := more;
    }
    forall x | x in accounts ensures Lists(known, x) {
      assert x in ids;
      var j :| 0 <= j < |ids| && ids[j] == x;
    }
  }

  /**
   * Materialises every path in order against one snapshot, and fails only at a path the table by then refuses.
   * Any failure leaves the table and the log as they were; a batch whose every path can be reused makes nothing.
   */
  method CreateAll(accounts: Accounts, specs: seq<PathSpec>)
    returns (r: Result<Created>, after: Accounts, log: seq<Event>)
    requires Forest(accounts)
    ensures r.Ok? ==> Materialised(accounts, specs, r.value, after, log)
    ensures Forest(after) && TrueLog(LivesOf(accounts), log) && Replay(LivesOf(accounts), log) == LivesOf(after)
    ensures r.Err? ==> after == accounts && log == []
    ensures r.Err? ==> exists k, made, mid, midLog :: StopsAt(accounts, specs, r.error, k, made, mid, midLog)
    ensures AllReusable(accounts, specs) ==>
            r.Ok? && after == accounts && log == [] && r.value.created == [] && r.value.minted == []
  {
    hide *;
    var known := ListAll(accounts);
    var start := Batch(accounts, known, [], [], []);
    var b := start;
    var ids: map<Path, AccountId> := map[];
    BatchStarts(accounts, known);
    assert specs[..0] == [];
    for k := 0 to |specs|
      invariant BatchSoFar(accounts, specs[..k], b, ids, start)
    {
      StillReusable(accounts, specs, k, b, ids, start);
      var step := EnsurePath(accounts, b, specs[k]);
      if step.Err? {
        NotAllReusable(accounts, specs, k);
        BatchDone(accounts, specs[..k], b, ids, start);
        StopsHere(accounts, specs, step.error, k, Created(ids, b.created, b.minted), b.accounts, b.log);
        NothingTold(accounts);
        return Err(step.error), accounts, [];
      }
      BatchStep(accounts, specs[..k], b, ids, start, specs[k], step.value.0, step.value.1);
      assert specs[..k] + [specs[k]] == specs[..k + 1];
      b, ids := step.value.0, ids[specs[k].segments := step.value.1];
    }
    assert specs[..|specs|] == specs;
    BatchDone(accounts, specs, b, ids, start);
    SoFarParts(accounts, specs, b, ids, start);
    r, after, log := Ok(Created(ids, b.created, b.minted)), b.accounts, b.log;
    MaterialisedIsSound(accounts, specs, r.value, after, log);
  }

  lemma StopsHere(before: Accounts, specs: seq<PathSpec>, e: Error, k: nat, made: Created, mid: Accounts,
                  log: seq<Event>)
    requires k < |specs| && Materialised(before, specs[..k], made, mid, log) && Refused(mid, specs[k], e)
    ensures StopsAt(before, specs, e, k, made, mid, log)
  {
  }

  lemma BatchStarts(before: Accounts, known: seq<Record>)
    requires Forest(before) && Mirrors(known, before)
    ensures BatchSoFar(before, [], Batch(before, known, [], [], []), map[], Batch(before, known, [], [], []))
  {
    GrownStarts(before, known);
    hide Grown;
  }

  lemma NotAllReusable(accounts: Accounts, specs: seq<PathSpec>, k: nat)
    requires k < |specs|
    ensures AllReusable(accounts, specs) ==> Reusable(accounts, specs[k])
  {
  }

  /** In a batch that can be reused whole, the next path finds the table unchanged and itself reusable. */
  lemma StillReusable(before: Accounts, specs: seq<PathSpec>, k: nat, b: Batch, ids: map<Path, AccountId>, start: Batch)
    requires k < |specs| && BatchSoFar(before, specs[..k], b, ids, start) && start.accounts == before
    ensures Grown(before, b)
    ensures AllReusable(before, specs) ==> Reusable(b.accounts, specs[k])
  {
  }
}
