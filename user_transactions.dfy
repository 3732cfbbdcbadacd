/** The user-transaction audit ledger: creation, the paginated per-user listing
    with its count, lookup, update, removal and per-user deletion.

    The schema declares neither `timestamps` nor a `createdAt` path, so a stored
    row never has a `createdAt`, and strict mode drops one a client sends. The
    listing's `sort({ createdAt: -1 })` then sorts on a key no row has.
    `CreateAsWritten` models that storage; `Create`, which the ledger uses,
    stamps the row as a timestamped schema would. */
module UserTransactions {
  import opened Common

  /** The value of one schema path. */
  datatype FieldValue = Text(text: string) | Number(number: real)

  /** A stored row: its owner, its creation time when it has one, and the other
      schema paths it holds. */
  datatype Row = Row(id: Id, user_id: Option<Id>, createdAt: Option<nat>, fields: map<string, FieldValue>)

  function RowId(r: Row): Id { r.id }

  /** The schema's paths other than `user_id`, which a row holds on its own;
      strict mode keeps only these and `user_id`. */
  const SchemaPaths: set<string> := {
    "user_transactionId", "date", "transaction_type", "bank_name", "account_name",
    "transaction_fee", "status", "payment_method", "currency", "beneficiary_name",
    "beneficiary_account", "beneficiary_bank", "available_amount", "amount_exchanged",
    "amount_reversed", "amount_deposited", "amount_sold", "amount_received"
  }

  /** What strict mode keeps of a body. */
  function Strict(body: map<string, FieldValue>): (r: map<string, FieldValue>)
    ensures forall k :: k in r <==> k in body && k in SchemaPaths
    ensures forall k :: k in r ==> r[k] == body[k]
  {
    map k | k in body && k in SchemaPaths :: body[k]
  }

  /** `create` against the schema as written: no `createdAt` is ever stored. */
  function CreateAsWritten(rows: seq<Row>, newId: Id, user_id: Option<Id>, body: map<string, FieldValue>): (r: (seq<Row>, Row))
    ensures r.0 == rows + [r.1]
    ensures r.1.id == newId && r.1.user_id == user_id && r.1.createdAt.None? && r.1.fields == Strict(body)
  {
    var row := Row(newId, user_id, None, Strict(body));
    (rows + [row], row)
  }

  /** `create` with the creation time stamped, as `timestamps: true` would. */
  function Create(rows: seq<Row>, newId: Id, user_id: Option<Id>, body: map<string, FieldValue>, now: nat): (r: (seq<Row>, Row))
    ensures r.0 == rows + [r.1]
    ensures r.1.id == newId && r.1.user_id == user_id && r.1.createdAt == Some(now) && r.1.fields == Strict(body)
  {
    var row := Row(newId, user_id, Some(now), Strict(body));
    (rows + [row], row)
  }

  /** The ascending key of `sort({ createdAt: -1 })`: the negated time, and rows
      without a `createdAt` (which sort below every date) after all others. */
  function NewestFirstKey(r: Row): int {
    if r.createdAt.Some? then 0 - (r.createdAt.value as int) else 1
  }

  predicate OwnedBy(r: Row, user: Id) { r.user_id == Some(user) }

  /** `find({ user_id })`: the user's rows in stored order. */
  function Mine(rows: seq<Row>, user: Id): (r: seq<Row>)
    ensures forall x :: x in r <==> x in rows && OwnedBy(x, user)
  {
    Filter(rows, (x: Row) => OwnedBy(x, user))
  }

  /** The user's rows in listing order. */
  function Ordered(rows: seq<Row>, user: Id): (r: seq<Row>)
    ensures multiset(r) == multiset(Mine(rows, user))
    ensures |r| == |Mine(rows, user)|
    ensures Ascending(r, NewestFirstKey)
  {
    SortByKey(Mine(rows, user), NewestFirstKey)
  }

  lemma OrderedMembers(rows: seq<Row>, user: Id)
    ensures forall x :: x in Ordered(rows, user) ==> x in rows && OwnedBy(x, user)
  {
    var o := Ordered(rows, user);
    forall x | x in o ensures x in rows && OwnedBy(x, user) {
      assert x in multiset(o);
      assert x in multiset(Mine(rows, user));
    }
  }

  datatype Page = Page(transactions: seq<Row>, totalItems: nat)

  /** The offset of page `page`: `(page - 1) * limit`. */
  function PageStart(page: int, limit: int): (r: int)
    ensures r < 0 <==> (page < 1 && limit > 0) || (page > 1 && limit < 0)
  {
    SignOfProduct(page - 1, limit);
    (page - 1) * limit
  }

  lemma SignOfProduct(a: int, b: int)
    ensures a * b < 0 <==> (a < 0 && b > 0) || (a > 0 && b < 0)
  {
    if (a > 0 && b > 0) || (a < 0 && b < 0) {
      assert a * b > 0;
    }
  }

  /** `findAll(user_id, page, limit)`: skip (page - 1) * limit rows of the ordered
      list and take `limit` of them; a negative skip is refused by the store. */
  function FindAll(rows: seq<Row>, user: Id, page: int, limit: int): (r: Result<Page>)
    ensures PageStart(page, limit) < 0 <==> r == Err(StoreRejected)
    ensures r.Ok? ==> r.value.totalItems == |Mine(rows, user)|
    ensures r.Ok? ==> forall x :: x in r.value.transactions ==> x in rows && OwnedBy(x, user)
    ensures r.Ok? && limit >= 1 ==> |r.value.transactions| <= limit
  {
    var skip := PageStart(page, limit);
    if skip < 0 then Err(StoreRejected)
    else
      OrderedMembers(rows, user);
      WindowMembers(Ordered(rows, user), skip, limit);
      Ok(Page(Limit(Skip(Ordered(rows, user), skip), limit), |Mine(rows, user)|))
  }

  lemma PageStartBounds(page: nat, limit: nat)
    requires page >= 1
    ensures PageStart(page, limit) >= 0
    ensures PageStart(page, limit) + limit == PageStart(page + 1, limit) == page * limit
  {
    var pm: nat := page - 1;
    assert PageStart(page, limit) == pm * limit;
  }

  /** Page `page` (from 1) of size `limit` is the slice of the ordered list that
      starts at (page - 1) * limit. */
  lemma PageIsSlice(rows: seq<Row>, user: Id, page: nat, limit: nat)
    requires page >= 1 && limit >= 1
    ensures var o := Ordered(rows, user);
      var start := PageStart(page, limit);
      FindAll(rows, user, page, limit).Ok? && start >= 0 &&
      Min(start, |o|) <= Min(start + limit, |o|) &&
      FindAll(rows, user, page, limit).value.transactions == o[Min(start, |o|)..Min(start + limit, |o|)]
  {
    var o := Ordered(rows, user);
    PageStartBounds(page, limit);
    var skip: nat := PageStart(page, limit);
    assert FindAll(rows, user, page, limit).value.transactions == Limit(Skip(o, skip), limit);
    WindowIsSlice(o, skip, limit);
  }

  /** The first k pages, concatenated. */
  function FirstPages(rows: seq<Row>, user: Id, k: nat, limit: nat): seq<Row>
    requires limit >= 1
  {
    if k == 0 then []
    else FirstPages(rows, user, k - 1, limit) + FindAll(rows, user, k, limit).value.transactions
  }

  /** Pages 1..k together are exactly the first k * limit rows of the ordered list. */
  lemma FirstPagesArePrefix(rows: seq<Row>, user: Id, k: nat, limit: nat)
    requires limit >= 1
    ensures var o := Ordered(rows, user);
      FirstPages(rows, user, k, limit) == o[..Min(k * limit, |o|)]
  {
    FirstPagesEndAtNextStart(rows, user, k, limit);
    if k > 0 {
      PageStartBounds(k, limit);
    }
  }

  /** Pages 1..k end where page k + 1 would start. */
  lemma {:induction false} FirstPagesEndAtNextStart(rows: seq<Row>, user: Id, k: nat, limit: nat)
    requires limit >= 1
    ensures var o := Ordered(rows, user);
      PageStart(k + 1, limit) >= 0 &&
      FirstPages(rows, user, k, limit) == o[..Min(PageStart(k + 1, limit), |o|)]
  {
    if k == 0 {
      PageStartBounds(1, limit);
    } else {
      FirstPagesEndAtNextStart(rows, user, k - 1, limit);
      FirstPagesStep(rows, user, k, limit);
    }
  }

  /** One page more: if pages 1..k-1 end where page k starts, pages 1..k end
      where page k + 1 starts. */
  lemma FirstPagesStep(rows: seq<Row>, user: Id, k: nat, limit: nat)
    requires k >= 1 && limit >= 1
    requires var o := Ordered(rows, user);
      PageStart(k, limit) >= 0 &&
      FirstPages(rows, user, k - 1, limit) == o[..Min(PageStart(k, limit), |o|)]
    ensures var o := Ordered(rows, user);
      PageStart(k + 1, limit) >= 0 &&
      FirstPages(rows, user, k, limit) == o[..Min(PageStart(k + 1, limit), |o|)]
  {
    var o := Ordered(rows, user);
    var s: nat := PageStart(k, limit);
    var page := FindAll(rows, user, k, limit).value.transactions;
    assert page == Limit(Skip(o, s), limit);
    PrefixThenWindow(o, FirstPages(rows, user, k - 1, limit), page, s, limit);
    assert s + limit == PageStart(k + 1, limit) by {
      PageStartBounds(k, limit);
    }
  }

  /** A prefix of `o` up to `s` followed by the window at `s` is the prefix up to `s + limit`. */
  lemma PrefixThenWindow<T>(o: seq<T>, prev: seq<T>, page: seq<T>, s: nat, limit: nat)
    requires limit >= 1
    requires prev == o[..Min(s, |o|)] && page == Limit(Skip(o, s), limit)
    ensures prev + page == o[..Min(s + limit, |o|)]
  {
    WindowIsSlice(o, s, limit);
    AdjacentSlices(o, Min(s, |o|), Min(s + limit, |o|));
  }

  /** A prefix followed by the slice that starts where it ends is a longer prefix. */
  lemma AdjacentSlices<T>(o: seq<T>, a: nat, b: nat)
    requires a <= b <= |o|
    ensures o[..a] + o[a..b] == o[..b]
  {
  }

  ghost predicate Distinct<T>(s: seq<T>) {
    forall i, j :: 0 <= i < j < |s| ==> s[i] != s[j]
  }

  lemma {:induction false} DistinctCountsOnce<T>(s: seq<T>, x: T)
    requires Distinct(s)
    ensures multiset(s)[x] <= 1
  {
    if s != [] {
      DistinctCountsOnce(s[1..], x);
      assert s == [s[0]] + s[1..];
      if s[0] == x {
        assert x !in s[1..];
      }
    }
  }

  /** A rearrangement of a sequence without repeats has none either. */
  lemma SameMultisetDistinct<T>(a: seq<T>, b: seq<T>)
    requires Distinct(a) && multiset(a) == multiset(b)
    ensures Distinct(b)
  {
    forall i, j | 0 <= i < j < |b| ensures b[i] != b[j] {
      if b[i] == b[j] {
        assert b == b[..j] + [b[j]] + b[j + 1..];
        assert b[i] in b[..j];
        assert multiset(b)[b[j]] >= 2;
        DistinctCountsOnce(a, b[j]);
      }
    }
  }

  lemma UniqueIdsDistinct(rows: seq<Row>)
    requires UniqueKeys(rows, RowId)
    ensures Distinct(rows)
  {
    assert forall i, j :: 0 <= i < j < |rows| ==> RowId(rows[i]) != RowId(rows[j]);
  }

  /** Two slices of a sequence without repeats that do not overlap share no element. */
  lemma DisjointSlices<T>(o: seq<T>, a: nat, b: nat, c: nat, d: nat)
    requires Distinct(o) && a <= b <= c <= d <= |o|
    ensures forall x :: !(x in o[a..b] && x in o[c..d])
  {
    forall x | x in o[a..b] ensures x !in o[c..d] {
      var i :| 0 <= i < b - a && o[a..b][i] == x;
      assert o[a + i] == x;
      assert forall j :: 0 <= j < d - c ==> o[c..d][j] == o[c + j];
    }
  }

  lemma {:induction false} LaterPageStartsLater(p: nat, q: nat, limit: nat)
    requires 1 <= p < q
    ensures PageStart(p, limit) + limit <= PageStart(q, limit)
    decreases q
  {
    PageStartBounds(p, limit);
    if q > p + 1 {
      LaterPageStartsLater(p, q - 1, limit);
      PageStartBounds(q - 1, limit);
    }
  }

  /** The user's rows have distinct ids when the collection's do, so none repeats in the listing. */
  lemma OrderedDistinct(rows: seq<Row>, user: Id)
    requires UniqueKeys(rows, RowId)
    ensures Distinct(Ordered(rows, user))
  {
    FilterKeepsUniqueKeys(rows, (x: Row) => OwnedBy(x, user), RowId);
    UniqueIdsDistinct(Mine(rows, user));
    SameMultisetDistinct(Mine(rows, user), Ordered(rows, user));
  }

  /** Two windows of a sequence without repeats, the second starting where the
      first has ended or later, share no element. */
  lemma WindowsDisjoint<T>(o: seq<T>, s1: nat, s2: nat, limit: nat)
    requires Distinct(o) && limit >= 1 && s1 + limit <= s2
    ensures forall x :: !(x in Limit(Skip(o, s1), limit) && x in Limit(Skip(o, s2), limit))
  {
    WindowIsSlice(o, s1, limit);
    WindowIsSlice(o, s2, limit);
    DisjointSlices(o, Min(s1, |o|), Min(s1 + limit, |o|), Min(s2, |o|), Min(s2 + limit, |o|));
  }

  /** With distinct ids, two different pages never share a row. */
  lemma PagesDisjoint(rows: seq<Row>, user: Id, p: nat, q: nat, limit: nat)
    requires UniqueKeys(rows, RowId)
    requires 1 <= p < q && limit >= 1
    ensures forall x :: !(x in FindAll(rows, user, p, limit).value.transactions &&
                          x in FindAll(rows, user, q, limit).value.transactions)
  {
    OrderedDistinct(rows, user);
    LaterPageStartsLater(p, q, limit);
    PageStartBounds(p, limit);
    PageStartBounds(q, limit);
    WindowsDisjoint(Ordered(rows, user), PageStart(p, limit), PageStart(q, limit), limit);
  }

  /** The count is the number of the user's rows, whatever page and limit are asked for. */
  lemma TotalIndependentOfPage(rows: seq<Row>, user: Id, p1: int, l1: int, p2: int, l2: int)
    requires FindAll(rows, user, p1, l1).Ok? && FindAll(rows, user, p2, l2).Ok?
    ensures FindAll(rows, user, p1, l1).value.totalItems == FindAll(rows, user, p2, l2).value.totalItems
  {
  }

  /** With stamped rows the listing is newest first. */
  lemma StampedListingNewestFirst(rows: seq<Row>, user: Id)
    requires forall i :: 0 <= i < |rows| ==> rows[i].createdAt.Some?
    ensures var o := Ordered(rows, user);
      forall i, j :: 0 <= i < j < |o| ==>
        (o[i].createdAt.Some? && o[j].createdAt.Some? && o[i].createdAt.value >= o[j].createdAt.value)
  {
    var o := Ordered(rows, user);
    OrderedMembers(rows, user);
    assert forall x :: x in rows ==> x.createdAt.Some?;
    assert forall i :: 0 <= i < |o| ==> o[i] in o;
  }

  /** Rows the ledger creates are stamped with the creation time, so the listing
      puts the later of two rows of a user first. */
  lemma LaterRowListedFirst(rows: seq<Row>, user: Id, body1: map<string, FieldValue>, body2: map<string, FieldValue>)
    requires rows == []
    ensures var (once, r1) := Create(rows, 0, Some(user), body1, 1);
      var (twice, r2) := Create(once, 1, Some(user), body2, 2);
      FindAll(twice, user, 1, 10) == Ok(Page([r2, r1], 2))
  {
    var (once, r1) := Create(rows, 0, Some(user), body1, 1);
    var (twice, r2) := Create(once, 1, Some(user), body2, 2);
    assert twice == [r1, r2];
    MineOfTwo(r1, r2, user);
    SortSwapsTwo(r1, r2);
    FirstPageHoldsShortListing(twice, user);
  }

  /** As written, two rows a user creates one after the other are listed oldest
      first: no row has a `createdAt`, every sort key is the same, and the rows
      keep their stored order. */
  lemma AsWrittenListsOldestFirst(user: Id, body1: map<string, FieldValue>, body2: map<string, FieldValue>)
    ensures var (once, r1) := CreateAsWritten([], 0, Some(user), body1);
      var (twice, r2) := CreateAsWritten(once, 1, Some(user), body2);
      FindAll(twice, user, 1, 10) == Ok(Page([r1, r2], 2))
  {
    var (once, r1) := CreateAsWritten([], 0, Some(user), body1);
    var (twice, r2) := CreateAsWritten(once, 1, Some(user), body2);
    assert twice == [r1, r2];
    MineOfTwo(r1, r2, user);
    SortByConstantKey([r1, r2], NewestFirstKey, 1);
    FirstPageHoldsShortListing(twice, user);
  }

  lemma MineOfTwo(r1: Row, r2: Row, user: Id)
    requires OwnedBy(r1, user) && OwnedBy(r2, user)
    ensures Mine([r1, r2], user) == [r1, r2]
  {
    assert [r1, r2][1..] == [r2];
    assert [r2][1..] == [];
  }

  lemma SortSwapsTwo(r1: Row, r2: Row)
    requires NewestFirstKey(r2) < NewestFirstKey(r1)
    ensures SortByKey([r1, r2], NewestFirstKey) == [r2, r1]
  {
    assert [r1, r2][1..] == [r2];
    assert [r2][1..] == [];
    assert SortByKey([r2], NewestFirstKey) == [r2];
    assert Insert(r1, [], NewestFirstKey) == [r1];
  }

  /** A listing of at most ten rows fits on the first page of ten. */
  lemma FirstPageHoldsShortListing(rows: seq<Row>, user: Id)
    requires |Mine(rows, user)| <= 10
    ensures FindAll(rows, user, 1, 10) == Ok(Page(Ordered(rows, user), |Mine(rows, user)|))
  {
    assert PageStart(1, 10) == 0;
  }

  /** `findOne`: the row with that id; formatting a missing row dereferences `null`. */
  function FindOne(rows: seq<Row>, id: Id): (r: Result<Row>)
    ensures r.Ok? ==> r.value in rows && r.value.id == id
    ensures r.Err? <==> forall x :: x in rows ==> x.id != id
    ensures r.Err? ==> r.failure == NullDereference
  {
    match FindFirst(rows, (x: Row) => x.id == id)
    case None => Err(NullDereference)
    case Some(i) => Ok(rows[i])
  }

  /** A row after `findByIdAndUpdate` applies a body to it. */
  function Merged(x: Row, owner: Option<Id>, patch: map<string, FieldValue>): Row {
    x.(user_id := if owner.Some? then owner else x.user_id, fields := x.fields + Strict(patch))
  }

  /** `update`: `findByIdAndUpdate` with `new: true`; the supplied schema paths
      replace the row's, a supplied `user_id` (`owner`) replaces its owner, and
      an unknown id yields `null`. */
  function Update(rows: seq<Row>, id: Id, owner: Option<Id>, patch: map<string, FieldValue>): (r: (seq<Row>, Option<Row>))
    ensures |r.0| == |rows|
    ensures r.1.None? <==> forall x :: x in rows ==> x.id != id
    ensures r.1.None? ==> r.0 == rows
    ensures r.1.Some? ==> r.1.value in r.0 && r.1.value.id == id
  {
    match FindFirst(rows, (x: Row) => x.id == id)
    case None => (rows, None)
    case Some(i) =>
      var updated := Merged(rows[i], owner, patch);
      var after := rows[i := updated];
      assert after[i] == updated;
      (after, Some(updated))
  }

  /** An update merges the supplied paths into the row with that id, moves it to
      the supplied owner if there is one, keeps its other paths, and leaves every
      other row as it was. */
  lemma UpdateTouchesOnlyThatRow(rows: seq<Row>, id: Id, owner: Option<Id>, patch: map<string, FieldValue>)
    requires UniqueKeys(rows, RowId)
    requires Update(rows, id, owner, patch).1.Some?
    ensures var (after, u) := Update(rows, id, owner, patch);
      forall j :: 0 <= j < |rows| ==>
        if rows[j].id == id then
          after[j] == u.value && u.value.createdAt == rows[j].createdAt &&
          u.value.user_id == (if owner.Some? then owner else rows[j].user_id) &&
          (forall k :: k in u.value.fields <==> k in rows[j].fields || k in Strict(patch)) &&
          (forall k :: k in u.value.fields ==>
             u.value.fields[k] == if k in Strict(patch) then patch[k] else rows[j].fields[k])
        else after[j] == rows[j]
  {
    var i := FindFirst(rows, (x: Row) => x.id == id).value;
    assert forall j :: 0 <= j < |rows| && rows[j].id == id ==> RowId(rows[j]) == RowId(rows[i]);
  }

  /** An update that supplies a `user_id` moves the row out of its old owner's
      listing and into the new owner's. */
  lemma UpdateMovesRowToNewOwner(rows: seq<Row>, id: Id, owner: Id, patch: map<string, FieldValue>)
    requires UniqueKeys(rows, RowId)
    requires Update(rows, id, Some(owner), patch).1.Some?
    ensures var (after, u) := Update(rows, id, Some(owner), patch);
      u.value in Mine(after, owner) && u.value in Ordered(after, owner) &&
      forall other :: other != owner ==> u.value !in Mine(after, other)
  {
    var (after, u) := Update(rows, id, Some(owner), patch);
    assert u.value in multiset(Mine(after, owner));
  }

  /** `remove`: `findByIdAndDelete`, then formatting the deleted row. */
  function Remove(rows: seq<Row>, id: Id): (r: (seq<Row>, Result<Row>))
    ensures r.1.Err? <==> forall x :: x in rows ==> x.id != id
    ensures r.1.Err? ==> r.1.failure == NullDereference && r.0 == rows
    ensures r.1.Ok? ==> r.1.value in rows && r.1.value.id == id && |r.0| == |rows| - 1
  {
    match FindFirst(rows, (x: Row) => x.id == id)
    case None => (rows, Err(NullDereference))
    case Some(i) => (RemoveAt(rows, i), Ok(rows[i]))
  }

  /** Removing takes out the row with that id and nothing else. */
  lemma RemoveTouchesOnlyThatRow(rows: seq<Row>, id: Id)
    requires UniqueKeys(rows, RowId)
    requires Remove(rows, id).1.Ok?
    ensures multiset(Remove(rows, id).0) + multiset{Remove(rows, id).1.value} == multiset(rows)
    ensures forall x :: x in Remove(rows, id).0 <==> x in rows && x.id != id
  {
    var i := FindFirst(rows, (x: Row) => x.id == id).value;
    assert rows == rows[..i] + [rows[i]] + rows[i + 1..];
    var after := Remove(rows, id).0;
    assert after == rows[..i] + rows[i + 1..];
    forall x | x in rows && x.id != id ensures x in after {
      var j :| 0 <= j < |rows| && rows[j] == x;
      if j < i { assert after[j] == x; } else { assert after[j - 1] == x; }
    }
    forall x | x in after ensures x.id != id {
      var j :| 0 <= j < |after| && after[j] == x;
      if j < i { assert x == rows[j]; } else { assert x == rows[j + 1]; }
    }
  }

  /** `deleteAll(user_id)`: the remaining rows and the `deletedCount`. */
  function DeleteAll(rows: seq<Row>, user: Id): (r: (seq<Row>, nat))
    ensures forall x :: x in r.0 <==> x in rows && !OwnedBy(x, user)
    ensures r.1 == |Mine(rows, user)|
  {
    (Filter(rows, (x: Row) => !OwnedBy(x, user)), |Mine(rows, user)|)
  }

  /** The reported count is the number of rows that went, and what went is
      exactly the user's rows. */
  lemma DeleteAllReportsWhatWent(rows: seq<Row>, user: Id)
    ensures var (rest, n) := DeleteAll(rows, user);
      n + |rest| == |rows| &&
      multiset(rest) + multiset(Filter(rows, (x: Row) => OwnedBy(x, user))) == multiset(rows)
  {
    FilterPartition(rows, (x: Row) => OwnedBy(x, user));
    assert forall x: Row :: (!OwnedBy(x, user)) == ((y: Row) => !((z: Row) => OwnedBy(z, user))(y))(x);
    FilterSplit(rows, (x: Row) => OwnedBy(x, user), (x: Row) => !OwnedBy(x, user));
  }

  ghost predicate WellFormed(rows: seq<Row>, nextId: Id) {
    UniqueKeys(rows, RowId) && KeysBelow(rows, RowId, nextId)
  }

  /** The user-transaction collection. */
  class Ledger {
    var rows: seq<Row>
    var nextId: Id

    ghost predicate Valid() reads this {
      WellFormed(rows, nextId)
    }

    constructor (initial: seq<Row>, firstFreeId: Id)
      requires WellFormed(initial, firstFreeId)
      ensures Valid() && rows == initial && nextId == firstFreeId
    {
      rows := initial;
      nextId := firstFreeId;
    }

    /** `create` as corrected: the row is stamped with `now`, as a timestamped
        schema would. */
    method CreateRow(user_id: Option<Id>, body: map<string, FieldValue>, now: nat) returns (r: Row)
      requires Valid()
      modifies this
      ensures Valid() && nextId == old(nextId) + 1
      ensures (rows, r) == Create(old(rows), old(nextId), user_id, body, now)
    {
      r := Row(nextId, user_id, Some(now), Strict(body));
      rows := rows + [r];
      nextId := nextId + 1;
    }

    /** `update`. */
    method UpdateRow(id: Id, owner: Option<Id>, patch: map<string, FieldValue>) returns (r: Option<Row>)
      requires Valid()
      modifies this
      ensures Valid() && nextId == old(nextId)
      ensures (rows, r) == Update(old(rows), id, owner, patch)
    {
      var found := FindFirst(rows, (x: Row) => x.id == id);
      if found.None? {
        return None;
      }
      var i := found.value;
      var updated := rows[i].(fields := rows[i].fields + Strict(patch));
      if owner.Some? {
        updated := updated.(user_id := owner);
      }
      rows := rows[i := updated];
      r := Some(updated);
      assert forall j :: 0 <= j < |rows| ==> RowId(rows[j]) == RowId(old(rows)[j]);
    }

    /** `remove`. */
    method RemoveRow(id: Id) returns (r: Result<Row>)
      requires Valid()
      modifies this
      ensures Valid() && nextId == old(nextId)
      ensures (rows, r) == Remove(old(rows), id)
    {
      var found := FindFirst(rows, (x: Row) => x.id == id);
      if found.None? {
        return Err(NullDereference);
      }
      var i := found.value;
      r := Ok(rows[i]);
      rows := RemoveAt(rows, i);
    }

    /** `deleteAll`. */
    method DeleteAllOf(user: Id) returns (deletedCount: nat)
      requires Valid()
      modifies this
      ensures Valid() && nextId == old(nextId)
      ensures (rows, deletedCount) == DeleteAll(old(rows), user)
    {
      var p := (x: Row) => !OwnedBy(x, user);
      FilterKeepsUniqueKeys(rows, p, RowId);
      FilterKeepsKeysBelow(rows, p, RowId, nextId);
      deletedCount := |Mine(rows, user)|;
      rows := Filter(rows, p);
    }
  }
}
