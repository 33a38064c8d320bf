/** Materialising a batch of account paths against one snapshot, inside one transaction. */
module CreatePaths {
  import opened Prelude
  import opened Seqs
  import opened Ids
  import opened AccountModel
  import opened AccountOutcomes
  import opened Paths
  import opened PathRules
  import Depreciation

  /** The transaction so far: its table, the snapshot meant to equal it, and what it has logged and made. */
  datatype Batch = Batch(accounts: Accounts, known: seq<Record>, log: seq<Event>, created: seq<Path>, minted: seq<AccountId>)

  // ----- Deciding a path's type and whether its leaf can be reused -----

  function DeriveAccountType(root: string): Option<AccountType> {
    match root
    case "Assets" => Some(Asset)
    case "Liabilities" => Some(Liability)
    case "Equity" => Some(Equity)
    case "Income" => Some(Income)
    case "Expenses" => Some(Expense)
    case _ => None
  }

  /** The existing root's type, else the explicit one, else the one the root's name implies. */
  function ResolveType(existing: Option<AccountType>, requested: Option<AccountType>,
                       root: string): Result<AccountType> {
    match existing
    case Some(stored) => if requested.Some? && requested.value != stored then Err(InvalidInput) else Ok(stored)
    case None =>
      match requested
      case Some(t) => Ok(t)
      case None => if DeriveAccountType(root).Some? then Ok(DeriveAccountType(root).value) else Err(InvalidInput)
  }

  /** The stored account contradicts something the caller asked for. */
  predicate Conflicts(existing: Account, spec: PathSpec, accountType: AccountType) {
    || existing.accountType != accountType
    || (spec.kind.Some? && existing.details.kind != spec.kind.value)
    || (spec.description.Some? && existing.details.description != spec.description)
    || (spec.acquired.Some? && existing.details.acquired != spec.acquired)
    || (spec.cost.Some? && existing.details.cost != spec.cost)
    || (spec.policy.Some? && existing.details.policy != spec.policy)
    || (spec.openedOn.Some? && existing.openedOn != spec.openedOn)
    || (spec.commodities != [] && existing.details.commodities != spec.commodities)
    || (spec.tags != [] && !SameElements(existing.details.tags, spec.tags))
  }

  predicate SameElements(a: seq<TagId>, b: seq<TagId>) {
    (forall x :: x in a ==> x in b) && (forall x :: x in b ==> x in a)
  }

  // ----- The snapshot -----

  /** The first snapshot entry with that name under that parent. */
  function Find(known: seq<Record>, name: string, parent: Option<AccountId>): (r: Option<Record>)
    ensures r.Some? ==> r.value in known && r.value.account.name == name && r.value.account.parent == parent
    ensures r.None? ==> forall k :: k in known ==> !(k.account.name == name && k.account.parent == parent)
  {
    if known == [] then None
    else if known[0].account.name == name && known[0].account.parent == parent then Some(known[0])
    else Find(known[1..], name, parent)
  }

  predicate Lists(known: seq<Record>, x: AccountId) {
    exists k :: k in known && k.id == x
  }

  /** The snapshot equals the table. */
  ghost predicate Mirrors(known: seq<Record>, accounts: Accounts) {
    && (forall k :: k in known ==> k.id in accounts && accounts[k.id] == k.account)
    && (forall x :: x in accounts ==> Lists(known, x))
  }

  lemma FindIsChild(known: seq<Record>, accounts: Accounts, name: string, parent: Option<AccountId>)
    requires Mirrors(known, accounts) && NamesDistinct(accounts)
    ensures var found := Find(known, name, parent);
            && ChildNamed(accounts, name, parent) == (if found.Some? then Some(found.value.id) else None)
            && (found.Some? ==> found.value.id in accounts && accounts[found.value.id] == found.value.account)
  {
    var found, child := Find(known, name, parent), ChildNamed(accounts, name, parent);
    if child.Some? {
      FoundIfNamed(known, accounts, child.value, name, parent);
    }
    if found.Some? {
      OneChildNamed(accounts, found.value.id, name, parent);
    }
  }

  lemma FoundIfNamed(known: seq<Record>, accounts: Accounts, x: AccountId, name: string, parent: Option<AccountId>)
    requires Mirrors(known, accounts) && Named(accounts, x, name, parent)
    ensures Find(known, name, parent).Some?
  {
    assert Lists(known, x);
    var k :| k in known && k.id == x;
    assert k.account.name == name && k.account.parent == parent;
  }

  lemma MirrorsPush(known: seq<Record>, accounts: Accounts, id: AccountId, a: Account)
    requires Mirrors(known, accounts) && id !in accounts
    ensures Mirrors(known + [Record(id, a)], accounts[id := a])
  {
    var more := known + [Record(id, a)];
    assert more[|known|] == Record(id, a);
    forall x | x in accounts[id := a] ensures Lists(more, x) {
      if x in accounts {
        assert Lists(known, x);
        var k :| k in known && k.id == x;
        assert k in more;
      } else {
        assert Record(id, a) in more;
      }
    }
  }

  // ----- What the transaction keeps between segments -----

  /** Each created path names its minted account, which was not there before. */
  ghost predicate MintedAt(before: Accounts, b: Batch) {
    && |b.created| == |b.minted| && NoRepeats(b.minted)
    && (forall x :: x in b.accounts <==> x in before || x in b.minted)
    && (forall i :: 0 <= i < |b.minted| ==> MintedEntry(before, b.accounts, b.created[i], b.minted[i]))
  }

  ghost predicate MintedEntry(before: Accounts, accounts: Accounts, path: Path, id: AccountId) {
    id !in before && path != [] && At(accounts, path) == Some(id)
  }

  /** The rows of the minted accounts, in the order they were minted. */
  function MintedRows(accounts: Accounts, minted: seq<AccountId>): (rows: seq<Record>)
    requires forall x :: x in minted ==> x in accounts
    ensures |rows| == |minted|
    ensures forall i :: 0 <= i < |minted| ==> rows[i] == Record(minted[i], accounts[minted[i]])
  {
    seq(|minted|, i requires 0 <= i < |minted| => Record(minted[i], accounts[minted[i]]))
  }

  /** The table and the log are those of creating the minted rows one by one. */
  ghost predicate CreatedInTurn(before: Accounts, minted: seq<AccountId>, after: Accounts, log: seq<Event>) {
    && (forall x :: x in minted ==> x in after)
    && NewRows(before, MintedRows(after, minted))
    && CreateEach(before, MintedRows(after, minted)) == Outcome(Ok(()), after, log)
  }

  ghost predicate Grown(before: Accounts, b: Batch) {
    && Forest(b.accounts) && Mirrors(b.known, b.accounts)
    && Extends(before, b.accounts) && MintedAt(before, b) && CreatedInTurn(before, b.minted, b.accounts, b.log)
  }

  /** The row inserted for a segment: a leaf takes the spec's attributes, an ancestor none. */
  function InsertedRow(spec: PathSpec, name: string, accountType: AccountType, parent: Option<AccountId>,
                       isLeaf: bool): Account {
    if isLeaf then
      Account(name, accountType, parent, spec.openedOn, None, false,
              Details(if spec.kind.Some? then spec.kind.value else Depreciation.DepositAccount, spec.description, spec.acquired, spec.cost,
                      spec.policy, spec.commodities, spec.tags))
    else
      Account(name, accountType, parent, None, None, false, Details(Depreciation.Group, None, None, None, None, [], []))
  }

  /** The record pushed for it, attribute by attribute. */
  function PushedRecord(spec: PathSpec, name: string, accountType: AccountType, parent: Option<AccountId>,
                        isLeaf: bool): Account {
    var kind := if isLeaf then (if spec.kind.Some? then spec.kind.value else Depreciation.DepositAccount) else Depreciation.Group;
    Account(name, accountType, parent, if isLeaf then spec.openedOn else None, None, false,
            Details(kind, if isLeaf then spec.description else None, if isLeaf then spec.acquired else None,
                    if isLeaf then spec.cost else None, if isLeaf then spec.policy else None,
                    if isLeaf then spec.commodities else [], if isLeaf then spec.tags else []))
  }

  /** A leaf made for a spec does not conflict with it. */
  lemma FreshLeafFits(spec: PathSpec, name: string, accountType: AccountType, parent: Option<AccountId>)
    ensures !Conflicts(InsertedRow(spec, name, accountType, parent, true), spec, accountType)
  {
  }

  /** The batch after a row went in under a minted id. */
  function Inserted(b: Batch, id: AccountId, row: Account, pushed: Account, path: Path): Batch {
    Batch(b.accounts[id := row], b.known + [Record(id, pushed)],
          b.log + [AccountCreated(id, row.name, row.accountType, row.openedOn)], b.created + [path], b.minted + [id])
  }

  lemma InsertKeepsMinted(before: Accounts, b: Batch, id: AccountId, row: Account, path: Path)
    requires Forest(b.accounts) && MintedAt(before, b) && Extends(before, b.accounts) && id !in b.accounts
    requires NamesDistinct(b.accounts[id := row])
    requires path == [] || At(b.accounts, path).Some?
    requires row.parent == ParentAt(b.accounts, path)
    ensures MintedAt(before, Inserted(b, id, row, row, path + [row.name]))
    ensures At(b.accounts[id := row], path + [row.name]) == Some(id)
  {
    hide *;
    MintedStayDistinct(before, b, id);
    NewAt(b.accounts, id, row, path);
    OldEntriesStay(before, b, id, row);
    NewEntry(before, b.accounts, id, row, path);
    MintedGrows(before, b, id, row, path + [row.name]);
  }

  lemma NewEntry(before: Accounts, accounts: Accounts, id: AccountId, row: Account, path: Path)
    requires Extends(before, accounts) && id !in accounts && At(accounts[id := row], path + [row.name]) == Some(id)
    ensures MintedEntry(before, accounts[id := row], path + [row.name], id)
  {
  }

  lemma MintedGrows(before: Accounts, b: Batch, id: AccountId, row: Account, path: Path)
    requires MintedAt(before, b) && NoRepeats(b.minted + [id])
    requires forall i :: 0 <= i < |b.minted| ==> MintedEntry(before, b.accounts[id := row], b.created[i], b.minted[i])
    requires MintedEntry(before, b.accounts[id := row], path, id)
    ensures MintedAt(before, Inserted(b, id, row, row, path))
  {
    hide MintedEntry, NoRepeats;
    var after := Inserted(b, id, row, row, path);
    forall i | 0 <= i < |after.minted| ensures MintedEntry(before, after.accounts, after.created[i], after.minted[i]) {
      assert i < |b.minted| ==> after.minted[i] == b.minted[i] && after.created[i] == b.created[i];
      assert i == |b.minted| ==> after.minted[i] == id && after.created[i] == path;
    }
  }

  lemma OldEntriesStay(before: Accounts, b: Batch, id: AccountId, row: Account)
    requires MintedAt(before, b) && id !in b.accounts && NamesDistinct(b.accounts[id := row])
    ensures forall i :: 0 <= i < |b.minted| ==> MintedEntry(before, b.accounts[id := row], b.created[i], b.minted[i])
  {
    forall i | 0 <= i < |b.minted| ensures MintedEntry(before, b.accounts[id := row], b.created[i], b.minted[i]) {
      assert MintedEntry(before, b.accounts, b.created[i], b.minted[i]);
      AtGrows(b.accounts, b.accounts[id := row], b.created[i]);
    }
  }

  lemma NewAt(accounts: Accounts, id: AccountId, row: Account, path: Path)
    requires id !in accounts && NamesDistinct(accounts[id := row])
    requires path == [] || At(accounts, path).Some?
    requires row.parent == ParentAt(accounts, path)
    ensures At(accounts[id := row], path + [row.name]) == Some(id)
  {
    var after := accounts[id := row];
    if path != [] {
      AtGrows(accounts, after, path);
    }
    AtStep(after, path, row.name);
    OneChildNamed(after, id, row.name, row.parent);
  }

  lemma MintedStayDistinct(before: Accounts, b: Batch, id: AccountId)
    requires MintedAt(before, b) && id !in b.accounts
    ensures NoRepeats(b.minted + [id])
  {
    assert forall i :: 0 <= i < |b.minted| ==> b.minted[i] in b.accounts;
  }

  lemma InsertKeepsGrown(before: Accounts, b: Batch, id: AccountId, row: Account, path: Path)
    requires Grown(before, b) && id !in b.accounts && CreateError(b.accounts, row).None?
    requires row.closedOn.None? && !row.archived
    requires path == [] || At(b.accounts, path).Some?
    requires row.parent == ParentAt(b.accounts, path)
    ensures Grown(before, Inserted(b, id, row, row, path + [row.name]))
    ensures At(b.accounts[id := row], path + [row.name]) == Some(id)
  {
    hide ParentsKnown, Acyclic, ChildrenFollow, DatesOrdered, CreateError, Mirrors, MintedAt;
    CreateKeepsForest(b.accounts, id, row);
    MirrorsPush(b.known, b.accounts, id, row);
    InsertKeepsMinted(before, b, id, row, path);
    hide Extends, NamesDistinct, CreatedInTurn;
    InsertKeepsTurn(before, b, id, row, path + [row.name]);
  }

  /** One more insertion is one more creation. */
  lemma InsertKeepsTurn(before: Accounts, b: Batch, id: AccountId, row: Account, path: Path)
    requires CreatedInTurn(before, b.minted, b.accounts, b.log) && Extends(before, b.accounts)
    requires id !in b.accounts && CreateError(b.accounts, row).None? && row.closedOn.None? && !row.archived
    ensures var after := Inserted(b, id, row, row, path); CreatedInTurn(before, after.minted, after.accounts, after.log)
  {
    hide CreateError;
    var after := Inserted(b, id, row, row, path);
    var rows, more := MintedRows(b.accounts, b.minted), MintedRows(after.accounts, after.minted);
    assert more == rows + [Record(id, row)];
    NewRowsGrow(before, rows, Record(id, row));
    hide NewRows;
    assert more[..|more| - 1] == rows;
  }

  lemma NewRowsGrow(before: Accounts, rows: seq<Record>, row: Record)
    requires NewRows(before, rows) && NewRow(before, row) && forall i :: 0 <= i < |rows| ==> rows[i].id != row.id
    ensures NewRows(before, rows + [row])
  {
  }

  // ----- Segments -----

  /** The spec's leaf exists, and so does its root with a type the spec accepts, and nothing contradicts the spec. */
  ghost predicate Reusable(accounts: Accounts, spec: PathSpec) {
    && spec.segments != [] && At(accounts, spec.segments).Some? && At(accounts, spec.segments[..1]).Some?
    && var root := accounts[At(accounts, spec.segments[..1]).value].accountType;
       (spec.accountType.Some? ==> spec.accountType.value == root)
       && !Conflicts(accounts[At(accounts, spec.segments).value], spec, root)
  }

  /** Whether a segment needs nothing made and, at the leaf, contradicts nothing. */
  ghost predicate SegmentReusable(accounts: Accounts, spec: PathSpec, accountType: AccountType, i: nat)
    requires i < |spec.segments|
  {
    && At(accounts, spec.segments[..i + 1]).Some?
    && (i + 1 == |spec.segments| ==>
        !Conflicts(accounts[At(accounts, spec.segments[..i + 1]).value], spec, accountType))
  }

  /** What stands at segment `i`, and what it would hang under, has the path's type. */
  ghost predicate TypedAt(accounts: Accounts, spec: PathSpec, accountType: AccountType, i: nat)
    requires i < |spec.segments|
  {
    var here := At(accounts, spec.segments[..i + 1]);
    && (here.Some? ==> accounts[here.value].accountType == accountType)
    && (i > 0 && At(accounts, spec.segments[..i]).Some? ==>
          accounts[At(accounts, spec.segments[..i]).value].accountType == accountType)
  }

  lemma AgreesIsNoConflict(a: Account, spec: PathSpec, accountType: AccountType)
    requires a.accountType == accountType
    ensures Conflicts(a, spec, accountType) <==> !Agrees(a, spec)
  {
  }

  /** Creating the row of a missing segment fails exactly when the segment is not accepted, and says why. */
  lemma RowIsStorable(accounts: Accounts, spec: PathSpec, accountType: AccountType, i: nat, parent: Option<AccountId>)
    requires i < |spec.segments| && parent == ParentAt(accounts, spec.segments[..i]) && (i > 0 ==> parent.Some?)
    requires TypedAt(accounts, spec, accountType, i) && At(accounts, spec.segments[..i + 1]).None?
    ensures var row := InsertedRow(spec, spec.segments[i], accountType, parent, IsLeaf(spec, i));
            && (CreateError(accounts, row).None? <==> SegmentAccepted(accounts, spec, i))
            && (CreateError(accounts, row).Some? ==> CreateError(accounts, row).value == SegmentError(accounts, spec, i))
  {
    assert spec.segments[..i + 1] == spec.segments[..i] + [spec.segments[i]];
    AtStep(accounts, spec.segments[..i], spec.segments[i]);
    assert forall x :: !Named(accounts, x, spec.segments[i], parent);
    var row, leaf := InsertedRow(spec, spec.segments[i], accountType, parent, IsLeaf(spec, i)), IsLeaf(spec, i);
    CreateOutcome(accounts, 0, row);
    RowClashesIf(accounts, row, spec, leaf);
    assert MisplacedFields(row.details) <==> leaf && AsksMisplaced(spec);
    hide CreateError, RowClashes, MisplacedFields, AsksOnce, AsksMisplaced, At;
  }

  lemma InsertedRowIsFor(spec: PathSpec, i: nat, accountType: AccountType, parent: Option<AccountId>)
    requires i < |spec.segments|
    ensures RowFor(InsertedRow(spec, spec.segments[i], accountType, parent, IsLeaf(spec, i)), spec, i, accountType, parent)
  {
  }

  lemma RowClashesIf(accounts: Accounts, row: Account, spec: PathSpec, leaf: bool)
    requires forall x :: !Named(accounts, x, row.name, row.parent)
    requires row.details.commodities == (if leaf then spec.commodities else [])
    requires row.details.tags == (if leaf then spec.tags else [])
    ensures RowClashes(accounts, row) <==> leaf && !AsksOnce(spec)
  {
    forall x ensures !(x in accounts && accounts[x].parent == row.parent && accounts[x].name == row.name) {
      assert !Named(accounts, x, row.name, row.parent);
    }
  }

  /** Reuses or creates the account for segment `i` under `parent`. */
  method EnsureSegment(ghost before: Accounts, b: Batch, spec: PathSpec, accountType: AccountType, i: nat,
                       parent: Option<AccountId>)
    returns (r: Result<(Batch, AccountId)>)
    requires Grown(before, b) && i < |spec.segments|
    requires i > 0 ==> At(b.accounts, spec.segments[..i]).Some?
    requires parent == ParentAt(b.accounts, spec.segments[..i])
    requires TypedAt(b.accounts, spec, accountType, i)
    ensures r.Ok? <==> SegmentAccepted(b.accounts, spec, i)
    ensures r.Err? ==> r.error == SegmentError(b.accounts, spec, i)
    ensures r.Ok? ==>
              && Grown(before, r.value.0) && Extends(b.accounts, r.value.0.accounts)
              && At(r.value.0.accounts, spec.segments[..i + 1]) == Some(r.value.1)
              && SegmentReusable(r.value.0.accounts, spec, accountType, i)
    ensures r.Ok? && At(b.accounts, spec.segments[..i + 1]).Some? ==> r.value.0 == b
    ensures r.Ok? && At(b.accounts, spec.segments[..i + 1]).None? ==>
              && r.value.0.created == b.created + [spec.segments[..i + 1]]
              && r.value.0.accounts.Keys == b.accounts.Keys + {r.value.1}
              && RowFor(r.value.0.accounts[r.value.1], spec, i, accountType, parent)
  {
    hide Grown, MintedAt, CreatedInTurn, Mirrors, Forest, Conflicts, At, CreateError, Shut, Agrees, RowFor;
    var segment, isLeaf := spec.segments[i], i + 1 == |spec.segments|;
    var walked := spec.segments[..i + 1];
    assert walked == spec.segments[..i] + [segment];
    GrownNow(before, b);
    AtStep(b.accounts, spec.segments[..i], segment);
    FindIsChild(b.known, b.accounts, segment, parent);
    var existing := Find(b.known, segment, parent);
    if existing.Some? {
      AgreesIsNoConflict(existing.value.account, spec, accountType);
      if isLeaf && Conflicts(existing.value.account, spec, accountType) {
        return Err(InvalidInput);
      }
      return Ok((b, existing.value.id));
    }
    var row := InsertedRow(spec, segment, accountType, parent, isLeaf);
    RowIsStorable(b.accounts, spec, accountType, i, parent);
    InsertedRowIsFor(spec, i, accountType, parent);
    if CreateError(b.accounts, row).Some? {
      return Err(CreateError(b.accounts, row).value);
    }
    var id := Mint(b.accounts.Keys);
    InsertKeepsGrown(before, b, id, row, spec.segments[..i]);
    FreshLeafFits(spec, segment, accountType, parent);
    assert PushedRecord(spec, segment, accountType, parent, isLeaf) == row;
    var after := Inserted(b, id, row, PushedRecord(spec, segment, accountType, parent, isLeaf), walked);
    r := Ok((after, id));
  }

  lemma GrownNow(before: Accounts, b: Batch)
    requires Grown(before, b)
    ensures Forest(b.accounts) && Mirrors(b.known, b.accounts) && NamesDistinct(b.accounts) && ParentsKnown(b.accounts)
    ensures Extends(before, b.accounts)
  {
  }

  // ----- Paths -----

  /** Everything `b` made beyond `a` is a prefix of `path`. */
  ghost predicate MadeFrom(a: Batch, b: Batch, path: Path) {
    forall p :: p in b.created ==> p in a.created || p <= path
  }

  lemma ReusableRoot(known: seq<Record>, accounts: Accounts, spec: PathSpec)
    requires Mirrors(known, accounts) && NamesDistinct(accounts) && spec.segments != []
    ensures var found := Find(known, spec.segments[0], None);
            && At(accounts, spec.segments[..1]) == (if found.Some? then Some(found.value.id) else None)
            && (found.Some? ==> found.value.id in accounts && accounts[found.value.id] == found.value.account)
  {
    FindIsChild(known, accounts, spec.segments[0], None);
    assert spec.segments[..1] == [] + [spec.segments[0]];
    AtStep(accounts, [], spec.segments[0]);
  }

  lemma ReusableSegments(accounts: Accounts, spec: PathSpec, i: nat)
    requires Reusable(accounts, spec) && i < |spec.segments|
    ensures SegmentReusable(accounts, spec, accounts[At(accounts, spec.segments[..1]).value].accountType, i)
  {
    AtPrefix(accounts, spec.segments, i + 1);
    assert spec.segments[..|spec.segments|] == spec.segments;
  }

  /** Between segments: the walk so far names `parent`, and its root has the type the path takes. */
  ghost predicate Walked(accounts: Accounts, spec: PathSpec, accountType: AccountType, i: nat,
                         parent: Option<AccountId>)
    requires i <= |spec.segments|
  {
    && parent == ParentAt(accounts, spec.segments[..i])
    && (i > 0 ==> At(accounts, spec.segments[..i]).Some? && At(accounts, spec.segments[..1]).Some?
                  && accounts[At(accounts, spec.segments[..1]).value].accountType == accountType)
    && (i == |spec.segments| > 0 ==> SegmentReusable(accounts, spec, accountType, i - 1))
  }

  /** Before a segment is walked, it and what it hangs under have the path's type. */
  lemma WalkedIsTyped(accounts: Accounts, spec: PathSpec, accountType: AccountType, i: nat, parent: Option<AccountId>)
    requires Forest(accounts) && i < |spec.segments| && Walked(accounts, spec, accountType, i, parent)
    requires i == 0 ==> RootFits(accounts, spec, accountType)
    ensures TypedAt(accounts, spec, accountType, i)
  {
    var segments := spec.segments;
    hide Forest;
    if i > 0 {
      TypeAlong(accounts, segments[..i]);
      assert segments[..i][..1] == segments[..1] == segments[..i + 1][..1];
      if At(accounts, segments[..i + 1]).Some? {
        TypeAlong(accounts, segments[..i + 1]);
      }
    }
  }

  lemma WalkedOn(a: Accounts, b: Accounts, spec: PathSpec, accountType: AccountType, i: nat, parent: Option<AccountId>,
                 id: AccountId)
    requires i < |spec.segments| && Walked(a, spec, accountType, i, parent) && Extends(a, b) && NamesDistinct(b)
    requires At(b, spec.segments[..i + 1]) == Some(id) && SegmentReusable(b, spec, accountType, i)
    requires i == 0 ==> b[id].accountType == accountType
    ensures Walked(b, spec, accountType, i + 1, Some(id))
  {
    if i > 0 {
      AtGrows(a, b, spec.segments[..1]);
    }
  }

  lemma WalkedWhole(accounts: Accounts, spec: PathSpec, accountType: AccountType, parent: Option<AccountId>)
    requires spec.segments != [] && Walked(accounts, spec, accountType, |spec.segments|, parent)
    requires spec.accountType.Some? ==> spec.accountType.value == accountType
    ensures Reusable(accounts, spec) && parent == At(accounts, spec.segments)
  {
    assert spec.segments[..|spec.segments|] == spec.segments;
  }

  /**
   * Reuses or creates every segment of one path: exactly when the path is accepted, and then with the rows it
   * asks for. A path that can be reused makes nothing.
   */
  method EnsurePath(ghost before: Accounts, b: Batch, spec: PathSpec) returns (r: Result<(Batch, AccountId)>)
    requires Grown(before, b)
    ensures r.Ok? <==> Accepted(b.accounts, spec)
    ensures r.Err? ==> Refused(b.accounts, spec, r.error)
    ensures r.Ok? ==>
              && Grown(before, r.value.0) && Extends(b.accounts, r.value.0.accounts)
              && Reusable(r.value.0.accounts, spec) && At(r.value.0.accounts, spec.segments) == Some(r.value.1)
              && MadeFrom(b, r.value.0, spec.segments)
              && AsAsked(b.accounts, r.value.0.accounts, spec)
    ensures Reusable(b.accounts, spec) ==> r.Ok? && r.value.0 == b
  {
    if spec.segments == [] {
      return Err(BadData);
    }
    var root := Find(b.known, spec.segments[0], None);
    var resolved := ResolveType(if root.Some? then Some(root.value.account.accountType) else None, spec.accountType, spec.segments[0]);
    GrownNow(before, b);
    ReusableRoot(b.known, b.accounts, spec);
    ResolveTypeIs(b.accounts, spec, resolved);
    if Reusable(b.accounts, spec) {
      ReusableIsAccepted(b.accounts, spec);
    }
    hide *;
    PathVerdict(b.accounts, spec, resolved);
    if resolved.Err? {
      return Err(resolved.error);
    }
    r := EnsureSegments(before, b, spec, resolved.value);
  }

  /** The type found is the one the path takes; when none is found, the path takes none. */
  lemma ResolveTypeIs(accounts: Accounts, spec: PathSpec, resolved: Result<AccountType>)
    requires spec.segments != []
    requires var root := At(accounts, spec.segments[..1]);
             resolved == ResolveType(if root.Some? then Some(accounts[root.value].accountType) else None, spec.accountType, spec.segments[0])
    ensures resolved.Ok? ==> forall t :: Takes(accounts, spec, t) <==> t == resolved.value
    ensures resolved.Err? ==> resolved.error == InvalidInput && forall t :: !Takes(accounts, spec, t)
    ensures resolved.Ok? ==> RootFits(accounts, spec, resolved.value)
                             && (spec.accountType.Some? ==> spec.accountType.value == resolved.value)
  {
  }

  lemma PathVerdict(accounts: Accounts, spec: PathSpec, resolved: Result<AccountType>)
    requires spec.segments != []
    requires resolved.Ok? ==> forall t :: Takes(accounts, spec, t) <==> t == resolved.value
    requires resolved.Err? ==> resolved.error == InvalidInput && forall t :: !Takes(accounts, spec, t)
    ensures resolved.Err? ==> !Accepted(accounts, spec) && Refused(accounts, spec, resolved.error)
    ensures resolved.Ok? ==> (Accepted(accounts, spec) <==> AcceptedBefore(accounts, spec, |spec.segments|))
    ensures resolved.Ok? ==> forall e :: (exists i :: RefusedAt(accounts, spec, i, e)) ==> Refused(accounts, spec, e)
    ensures resolved.Ok? ==> forall after: Accounts :: RowsMade(accounts, after, spec, resolved.value, |spec.segments|) ==>
                               AsAsked(accounts, after, spec)
  {
    hide Takes, AcceptedBefore, RefusedAt, RowsMade;
    assert resolved.Ok? ==> Takes(accounts, spec, resolved.value);
  }

  lemma ReusableIsAccepted(accounts: Accounts, spec: PathSpec)
    requires Forest(accounts) && Reusable(accounts, spec)
    ensures Accepted(accounts, spec)
  {
    var segments, root := spec.segments, At(accounts, spec.segments[..1]);
    assert Takes(accounts, spec, accounts[root.value].accountType);
    assert segments[..|segments|] == segments;
    TypeAlong(accounts, segments);
    AgreesIsNoConflict(accounts[At(accounts, segments).value], spec, accounts[root.value].accountType);
    hide Forest, Takes, Conflicts, Agrees, At;
    forall i | 0 <= i < |segments| ensures SegmentAccepted(accounts, spec, i) {
      AtPrefix(accounts, segments, i + 1);
    }
  }

  /** What holds between segments of one path, started from batch `b`. */
  ghost predicate Progressed(before: Accounts, b: Batch, now: Batch, spec: PathSpec, accountType: AccountType, i: nat,
                             parent: Option<AccountId>)
    requires i <= |spec.segments|
  {
    && Grown(before, now) && Extends(b.accounts, now.accounts)
    && Walked(now.accounts, spec, accountType, i, parent) && (i > 0 ==> parent.Some?)
    && MadeFrom(b, now, spec.segments)
    && AcceptedBefore(b.accounts, spec, i)
    && RowsMade(b.accounts, now.accounts, spec, accountType, i) && NotYetFrom(b.accounts, now.accounts, spec, i)
    && (Reusable(b.accounts, spec) ==> now == b)
    && (i == 0 ==> now == b)
  }

  /** The root, if it exists already, has the type the path takes. */
  ghost predicate RootFits(accounts: Accounts, spec: PathSpec, accountType: AccountType) {
    && spec.segments != []
    && (At(accounts, spec.segments[..1]).Some? ==>
        accounts[At(accounts, spec.segments[..1]).value].accountType == accountType)
  }

  method EnsureNext(ghost before: Accounts, ghost b: Batch, now: Batch, spec: PathSpec, accountType: AccountType,
                    i: nat, parent: Option<AccountId>)
    returns (r: Result<(Batch, AccountId)>)
    requires i < |spec.segments| && RootFits(b.accounts, spec, accountType)
    requires Progressed(before, b, now, spec, accountType, i, parent)
    ensures r.Ok? ==> Progressed(before, b, r.value.0, spec, accountType, i + 1, Some(r.value.1))
    ensures r.Err? ==> RefusedAt(b.accounts, spec, i, r.error)
  {
    SegmentFits(b.accounts, spec, accountType, i);
    ProgressIs(before, b, now, spec, accountType, i, parent);
    WalkedIsTyped(now.accounts, spec, accountType, i, parent);
    SameVerdict(b.accounts, now.accounts, spec, accountType, i);
    hide *;
    r := EnsureSegment(before, now, spec, accountType, i, parent);
    if r.Err? {
      RefusedHere(b.accounts, spec, i, r.error);
    } else {
      var next, id := r.value.0, r.value.1;
      GrownNow(before, next);
      SegmentIs(now, next, spec, accountType, i, parent, id);
      RootTyped(b.accounts, now.accounts, next.accounts, spec, accountType, i, id);
      WalkedOn(now.accounts, next.accounts, spec, accountType, i, parent, id);
      ExtendsThrough(b.accounts, now.accounts, next.accounts);
      MadeOneMore(b, now, next, spec.segments, i);
      RowsMadeOn(b.accounts, now.accounts, next.accounts, spec, accountType, i);
      NotYetOn(b.accounts, now.accounts, next.accounts, spec, i, id);
      OneMoreAccepted(b.accounts, spec, i);
      ProgressedOn(before, b, now, next, spec, accountType, i, id);
    }
  }

  lemma RefusedHere(accounts: Accounts, spec: PathSpec, i: nat, e: Error)
    requires i < |spec.segments| && AcceptedBefore(accounts, spec, i)
    requires !SegmentAccepted(accounts, spec, i) && e == SegmentError(accounts, spec, i)
    ensures RefusedAt(accounts, spec, i, e)
  {
  }

  lemma OneMoreAccepted(accounts: Accounts, spec: PathSpec, i: nat)
    requires i < |spec.segments| && AcceptedBefore(accounts, spec, i) && SegmentAccepted(accounts, spec, i)
    ensures AcceptedBefore(accounts, spec, i + 1)
  {
  }

  /** The parts of the progress that the next segment starts from. */
  lemma ProgressIs(before: Accounts, b: Batch, now: Batch, spec: PathSpec, accountType: AccountType, i: nat,
                   parent: Option<AccountId>)
    requires i < |spec.segments| && RootFits(b.accounts, spec, accountType)
    requires Progressed(before, b, now, spec, accountType, i, parent)
    ensures Grown(before, now) && Extends(b.accounts, now.accounts) && MadeFrom(b, now, spec.segments)
    ensures Forest(now.accounts) && NamesDistinct(now.accounts) && ParentsKnown(now.accounts)
    ensures Walked(now.accounts, spec, accountType, i, parent) && parent == ParentAt(now.accounts, spec.segments[..i])
    ensures i > 0 ==> At(now.accounts, spec.segments[..i]).Some?
    ensures i == 0 ==> now == b && RootFits(now.accounts, spec, accountType)
    ensures AcceptedBefore(b.accounts, spec, i)
    ensures RowsMade(b.accounts, now.accounts, spec, accountType, i) && NotYetFrom(b.accounts, now.accounts, spec, i)
    ensures Reusable(b.accounts, spec) ==> now == b
  {
    hide MintedAt, CreatedInTurn, Mirrors, RowsMade, NotYetFrom, AcceptedBefore, Reusable, MadeFrom;
  }

  /** What walking one segment left, in the terms the path keeps. */
  lemma SegmentIs(now: Batch, next: Batch, spec: PathSpec, accountType: AccountType, i: nat, parent: Option<AccountId>,
                  id: AccountId)
    requires i < |spec.segments| && parent == ParentAt(now.accounts, spec.segments[..i])
    requires i > 0 ==> At(now.accounts, spec.segments[..i]).Some?
    requires Extends(now.accounts, next.accounts) && NamesDistinct(next.accounts)
    requires At(next.accounts, spec.segments[..i + 1]) == Some(id)
    requires At(now.accounts, spec.segments[..i + 1]).Some? ==> next == now
    requires At(now.accounts, spec.segments[..i + 1]).None? ==>
               && next.created == now.created + [spec.segments[..i + 1]]
               && next.accounts.Keys == now.accounts.Keys + {id}
               && RowFor(next.accounts[id], spec, i, accountType, parent)
    ensures next == now || next.created == now.created + [spec.segments[..i + 1]]
    ensures next.accounts == now.accounts || next.accounts.Keys == now.accounts.Keys + {id}
    ensures At(now.accounts, spec.segments[..i + 1]).None? ==> RowMade(next.accounts, spec, accountType, i)
    ensures i == 0 && At(now.accounts, spec.segments[..1]).None? ==> next.accounts[id].accountType == accountType
    ensures SegmentReusable(now.accounts, spec, accountType, i) ==> next == now
  {
    if i > 0 {
      AtGrows(now.accounts, next.accounts, spec.segments[..i]);
    }
  }

  lemma MadeOneMore(b: Batch, now: Batch, next: Batch, path: Path, i: nat)
    requires i < |path| && MadeFrom(b, now, path) && (next == now || next.created == now.created + [path[..i + 1]])
    ensures MadeFrom(b, next, path)
  {
  }

  lemma ProgressedOn(before: Accounts, b: Batch, now: Batch, next: Batch, spec: PathSpec, accountType: AccountType,
                     i: nat, id: AccountId)
    requires i < |spec.segments| && Grown(before, next) && Extends(b.accounts, next.accounts) &&
             MadeFrom(b, next, spec.segments)
    requires AcceptedBefore(b.accounts, spec, i + 1)
    requires RowsMade(b.accounts, next.accounts, spec, accountType, i + 1) && NotYetFrom(b.accounts, next.accounts, spec, i + 1)
    requires Walked(next.accounts, spec, accountType, i + 1, Some(id))
    requires Reusable(b.accounts, spec) ==> next == now == b
    ensures Progressed(before, b, next, spec, accountType, i + 1, Some(id))
  {
    hide Grown, Extends, MadeFrom, Walked, Reusable, RowsMade, NotYetFrom, AcceptedBefore;
  }

  lemma ProgressStarts(before: Accounts, b: Batch, spec: PathSpec, accountType: AccountType)
    requires Grown(before, b) && spec.segments != []
    ensures Progressed(before, b, b, spec, accountType, 0, None)
  {
    hide Grown;
  }

  method EnsureSegments(ghost before: Accounts, b: Batch, spec: PathSpec, accountType: AccountType)
    returns (r: Result<(Batch, AccountId)>)
    requires Grown(before, b) && RootFits(b.accounts, spec, accountType)
    requires spec.accountType.Some? ==> spec.accountType.value == accountType
    ensures r.Ok? <==> AcceptedBefore(b.accounts, spec, |spec.segments|)
    ensures r.Err? ==> exists i :: RefusedAt(b.accounts, spec, i, r.error)
    ensures r.Ok? ==>
              && Grown(before, r.value.0) && Extends(b.accounts, r.value.0.accounts)
              && Reusable(r.value.0.accounts, spec) && At(r.value.0.accounts, spec.segments) == Some(r.value.1)
              && MadeFrom(b, r.value.0, spec.segments)
              && RowsMade(b.accounts, r.value.0.accounts, spec, accountType, |spec.segments|)
    ensures r.Ok? && Reusable(b.accounts, spec) ==> r.value.0 == b
  {
    hide *;
    HasSegments(b.accounts, spec, accountType);
    ProgressStarts(before, b, spec, accountType);
    var now, parent: Option<AccountId> := b, None;
    for i := 0 to |spec.segments|
      invariant Progressed(before, b, now, spec, accountType, i, parent)
    {
      var step := EnsureNext(before, b, now, spec, accountType, i, parent);
      if step.Err? {
        RefusedStops(b.accounts, spec, i, step.error);
        return Err(step.error);
      }
      now, parent := step.value.0, Some(step.value.1);
    }
    PathEnsured(before, b, now, spec, accountType, parent);
    r := Ok((now, parent.value));
  }

  lemma HasSegments(accounts: Accounts, spec: PathSpec, accountType: AccountType)
    requires RootFits(accounts, spec, accountType)
    ensures spec.segments != []
  {
  }

  lemma RefusedStops(accounts: Accounts, spec: PathSpec, i: nat, e: Error)
    requires RefusedAt(accounts, spec, i, e)
    ensures !AcceptedBefore(accounts, spec, |spec.segments|)
  {
  }

  lemma PathEnsured(before: Accounts, b: Batch, now: Batch, spec: PathSpec, accountType: AccountType,
                    parent: Option<AccountId>)
    requires spec.segments != [] && Progressed(before, b, now, spec, accountType, |spec.segments|, parent)
    requires spec.accountType.Some? ==> spec.accountType.value == accountType
    ensures parent.Some? && Grown(before, now) && Extends(b.accounts, now.accounts) && MadeFrom(b, now, spec.segments)
    ensures Reusable(now.accounts, spec) && At(now.accounts, spec.segments) == parent
    ensures AcceptedBefore(b.accounts, spec, |spec.segments|)
    ensures RowsMade(b.accounts, now.accounts, spec, accountType, |spec.segments|)
    ensures Reusable(b.accounts, spec) ==> now == b
  {
    hide Grown, RowsMade, NotYetFrom, AcceptedBefore, Reusable, MadeFrom;
    WalkedWhole(now.accounts, spec, accountType, parent);
  }

  lemma SegmentFits(accounts: Accounts, spec: PathSpec, accountType: AccountType, i: nat)
    requires i < |spec.segments| && RootFits(accounts, spec, accountType)
    ensures Reusable(accounts, spec) ==> SegmentReusable(accounts, spec, accountType, i)
  {
    if Reusable(accounts, spec) {
      ReusableSegments(accounts, spec, i);
    }
  }

  /** The root has the path's type, whether it was found or just made. */
  lemma RootTyped(start: Accounts, a: Accounts, b: Accounts, spec: PathSpec, accountType: AccountType, i: nat,
                  id: AccountId)
    requires i < |spec.segments| && Extends(a, b) && NamesDistinct(b) && At(b, spec.segments[..i + 1]) == Some(id)
    requires RootFits(start, spec, accountType) && (i == 0 ==> a == start)
    requires i == 0 && At(a, spec.segments[..1]).None? ==> b[id].accountType == accountType
    ensures i == 0 ==> b[id].accountType == accountType
  {
    if i == 0 && At(a, spec.segments[..1]).Some? {
      AtGrows(a, b, spec.segments[..1]);
    }
  }
}
