/** The currency-pair collection an administrator maintains: creation behind a
    role gate, lookup, the paged listing newest update first, update and delete. */
module CurrencyPairs {
  import opened Common
  import Users
  import AppUtil

  /** A stored pair; `createdAt` and `updatedAt` are the schema's timestamps. */
  datatype CurrencyPair = CurrencyPair(
    id: Id,
    base_currency: string,
    quote_currency: string,
    exchange_rate: real,
    isDeleted: bool,
    createdAt: nat,
    updatedAt: nat)

  function PairId(p: CurrencyPair): Id { p.id }

  /** The request body of a create or an update; a missing field is `None`. */
  datatype PairFields = PairFields(base_currency: Option<string>, quote_currency: Option<string>, exchange_rate: Option<real>)

  /** What `getAllCurrencyPairService` answers: one page and the size of the collection. */
  datatype PairList = PairList(currencyPairs: seq<CurrencyPair>, count: nat)

  const SuperAdmin := "superadmin"

  /** `createCurrencyPairService`: the caller must be a live user whose role is
      `superadmin`; the two currency codes are required strings and the rate
      defaults to 0. Both timestamps of the new pair receive `stamp`. As written
      that is the schema-load time: the base schema's `default: now()` is
      evaluated once, when the schema class is declared, and on insert the
      schema's `timestamps` keep a `createdAt` already set and copy it into
      `updatedAt`. The registry passes the creation time instead (see Findings). */
  function CreatePair(users: seq<Users.User>, pairs: seq<CurrencyPair>, newId: Id, caller: Id, dto: PairFields, stamp: nat)
    : (r: Result<(seq<CurrencyPair>, CurrencyPair)>)
    ensures Users.FindUserById(users, caller).None? ==> r == Err(Http("User not found", 400))
    ensures Users.FindUserById(users, caller).Some? && Users.FindUserById(users, caller).value.role != SuperAdmin ==>
              r == Err(Http("You are not authourized to perform this function!", 404))
    ensures r.Ok? <==> Users.FindUserById(users, caller).Some? && Users.FindUserById(users, caller).value.role == SuperAdmin &&
                       Truthy(dto.base_currency) && Truthy(dto.quote_currency)
    ensures r.Ok? ==> var p := r.value.1;
      r.value.0 == pairs + [p] && p.id == newId &&
      Some(p.base_currency) == dto.base_currency && Some(p.quote_currency) == dto.quote_currency &&
      p.exchange_rate == (if dto.exchange_rate.Some? then dto.exchange_rate.value else 0.0) &&
      !p.isDeleted && p.createdAt == stamp && p.updatedAt == stamp
  {
    match Users.FindUserById(users, caller)
    case None => Err(Http("User not found", 400))
    case Some(u) =>
      if u.role != SuperAdmin then Err(Http("You are not authourized to perform this function!", 404))
      else if !Truthy(dto.base_currency) || !Truthy(dto.quote_currency) then Err(StoreRejected)
      else
        var rate := if dto.exchange_rate.Some? then dto.exchange_rate.value else 0.0;
        var p := CurrencyPair(newId, dto.base_currency.value, dto.quote_currency.value, rate, false, stamp, stamp);
        Ok((pairs + [p], p))
  }

  /** Position of the pair `findById(id)` returns; the pair schema has no
      soft-delete filter, so a deleted pair is still found. */
  function PairIndex(pairs: seq<CurrencyPair>, id: Id): (r: Option<nat>)
    ensures r.Some? ==> r.value < |pairs| && pairs[r.value].id == id
    ensures r.None? <==> forall p :: p in pairs ==> p.id != id
  {
    FindFirst(pairs, (p: CurrencyPair) => p.id == id)
  }

  /** `getCurrencyPairService`. */
  function GetPair(pairs: seq<CurrencyPair>, id: Id): (r: Result<CurrencyPair>)
    ensures r.Ok? ==> r.value in pairs && r.value.id == id
    ensures r.Err? <==> forall p :: p in pairs ==> p.id != id
    ensures r.Err? ==> r.failure == Http("Error in fetching currency pair, please confirm the ID", 404)
  {
    match PairIndex(pairs, id)
    case None => Err(Http("Error in fetching currency pair, please confirm the ID", 404))
    case Some(i) => Ok(pairs[i])
  }

  /** The ascending key of `sort({ updatedAt: -1 })`. */
  function NewestUpdateFirstKey(p: CurrencyPair): int { 0 - (p.updatedAt as int) }

  /** Every pair, most recently updated first. */
  function Listing(pairs: seq<CurrencyPair>): (r: seq<CurrencyPair>)
    ensures multiset(r) == multiset(pairs) && |r| == |pairs|
    ensures forall i, j :: 0 <= i < j < |r| ==> r[i].updatedAt >= r[j].updatedAt
  {
    var o := SortByKey(pairs, NewestUpdateFirstKey);
    assert forall i, j :: 0 <= i < j < |o| ==> NewestUpdateFirstKey(o[i]) <= NewestUpdateFirstKey(o[j]);
    o
  }

  /** The window `skip(skip).limit(limit)` of the listing; a missing skip is 0
      and a missing limit is no limit. */
  function ListingWindow(pairs: seq<CurrencyPair>, skip: nat, limit: Option<int>): seq<CurrencyPair> {
    Limit(Skip(Listing(pairs), skip), if limit.Some? then limit.value else 0)
  }

  /** `getAllCurrencyPairService(documentsToSkip = 0, limitOfDocuments)`. A
      negative skip is refused by the store; an empty page is an error even
      when the collection is not empty. */
  function GetAll(pairs: seq<CurrencyPair>, skip: Option<int>, limit: Option<int>): (r: Result<PairList>)
    ensures r.Err? && r.failure == StoreRejected <==> skip.Some? && skip.value < 0
    ensures r.Err? && r.failure != StoreRejected ==> r.failure == Http("No currency pair is registered", 404)
    ensures r.Ok? ==> r.value.count == |pairs| && 1 <= |r.value.currencyPairs|
    ensures r.Ok? && limit.Some? && limit.value >= 1 ==> |r.value.currencyPairs| <= limit.value
    ensures r.Ok? ==> forall p :: p in r.value.currencyPairs ==> p in pairs
  {
    var s := if skip.Some? then skip.value else 0;
    if s < 0 then Err(StoreRejected)
    else
      var page := ListingWindow(pairs, s, limit);
      WindowMembers(Listing(pairs), s, if limit.Some? then limit.value else 0);
      forall p | p in page ensures p in pairs {
        assert p in multiset(Listing(pairs));
      }
      if |page| == 0 then Err(Http("No currency pair is registered", 404))
      else Ok(PairList(page, |pairs|))
  }

  /** A page with a positive limit is the slice of the listing at
      [skip, skip + limit), and reads newest update first. */
  lemma GetAllPageIsSlice(pairs: seq<CurrencyPair>, skip: nat, limit: nat)
    requires limit >= 1
    requires GetAll(pairs, Some(skip), Some(limit)).Ok?
    ensures var page := GetAll(pairs, Some(skip), Some(limit)).value.currencyPairs;
      page == Listing(pairs)[skip..Min(skip + limit, |pairs|)] &&
      forall i, j :: 0 <= i < j < |page| ==> page[i].updatedAt >= page[j].updatedAt
  {
    WindowIsSlice(Listing(pairs), skip, limit);
    assert skip < |pairs|;
  }

  /** Skipping past the end always ends in the 404, however many pairs exist. */
  lemma SkipPastEndIsNotFound(pairs: seq<CurrencyPair>, skip: nat, limit: Option<int>)
    requires skip >= |pairs|
    ensures GetAll(pairs, Some(skip), limit) == Err(Http("No currency pair is registered", 404))
  {
  }

  /** Any non-empty page of the listing is answered, and with the same count. */
  lemma CountIndependentOfWindow(pairs: seq<CurrencyPair>, s1: Option<int>, l1: Option<int>, s2: Option<int>, l2: Option<int>)
    requires GetAll(pairs, s1, l1).Ok? && GetAll(pairs, s2, l2).Ok?
    ensures GetAll(pairs, s1, l1).value.count == GetAll(pairs, s2, l2).value.count
  {
  }

  /** Parameters that pass `PaginationParams` never make the store refuse the
      query: the only failure left is the empty page, and a first page of a
      non-empty collection is never empty. */
  lemma ValidParamsNeverRejected(pairs: seq<CurrencyPair>, skip: Option<int>, limit: Option<int>)
    requires AppUtil.PaginationParamsValid(skip, limit)
    ensures GetAll(pairs, skip, limit).Err? ==> GetAll(pairs, skip, limit).failure == Http("No currency pair is registered", 404)
    ensures |pairs| > 0 && (skip.None? || skip.value == 0) ==> GetAll(pairs, skip, limit).Ok?
  {
    if |pairs| > 0 && (skip.None? || skip.value == 0) {
      var l := if limit.Some? then limit.value else 0;
      assert |Limit(Skip(Listing(pairs), 0), l)| >= 1;
    }
  }

  /** A pair with the supplied fields replaced; a missing field is left alone. */
  function Amended(p: CurrencyPair, dto: PairFields, now: nat): CurrencyPair {
    p.(base_currency := if dto.base_currency.Some? then dto.base_currency.value else p.base_currency,
       quote_currency := if dto.quote_currency.Some? then dto.quote_currency.value else p.quote_currency,
       exchange_rate := if dto.exchange_rate.Some? then dto.exchange_rate.value else p.exchange_rate,
       updatedAt := now)
  }

  /** `updateCurrencyPairService` at time `now`: an unknown id is a 500; otherwise
      the pair found takes the supplied base, quote and rate, and the re-read
      record is returned. */
  function UpdatePair(pairs: seq<CurrencyPair>, id: Id, dto: PairFields, now: nat)
    : (r: Result<(seq<CurrencyPair>, CurrencyPair)>)
    ensures r.Err? <==> forall p :: p in pairs ==> p.id != id
    ensures r.Err? ==> r.failure == Http("Failed to fetch updated currency pair", 500)
    ensures r.Ok? ==> |r.value.0| == |pairs| && r.value.1.id == id && r.value.1.updatedAt == now
  {
    match PairIndex(pairs, id)
    case None => Err(Http("Failed to fetch updated currency pair", 500))
    case Some(i) =>
      var p := Amended(pairs[i], dto, now);
      Ok((pairs[i := p], p))
  }

  /** An update sets exactly the supplied fields of the first pair with that id,
      keeps its id, creation time and deletion flag, leaves every other pair
      alone, and returns what a fresh lookup of the id then yields. */
  lemma UpdateSetsSuppliedFields(pairs: seq<CurrencyPair>, id: Id, dto: PairFields, now: nat)
    requires UpdatePair(pairs, id, dto, now).Ok?
    ensures var (after, p) := UpdatePair(pairs, id, dto, now).value;
      var i := PairIndex(pairs, id).value;
      var old_ := pairs[i];
      p == after[i] && GetPair(after, id) == Ok(p) &&
      p.base_currency == (if dto.base_currency.Some? then dto.base_currency.value else old_.base_currency) &&
      p.quote_currency == (if dto.quote_currency.Some? then dto.quote_currency.value else old_.quote_currency) &&
      p.exchange_rate == (if dto.exchange_rate.Some? then dto.exchange_rate.value else old_.exchange_rate) &&
      p.id == old_.id && p.createdAt == old_.createdAt && p.isDeleted == old_.isDeleted &&
      forall k :: 0 <= k < |pairs| && k != i ==> after[k] == pairs[k]
  {
    var (after, p) := UpdatePair(pairs, id, dto, now).value;
    var i := PairIndex(pairs, id).value;
    var j := PairIndex(after, id);
    assert after[i].id == id;
    assert j.Some? && j.value <= i;
  }

  /** `deleteCurrencyPairService`: an unknown id is a 500; otherwise the pair
      found is removed. */
  function DeletePair(pairs: seq<CurrencyPair>, id: Id): (r: Result<seq<CurrencyPair>>)
    ensures r.Err? <==> forall p :: p in pairs ==> p.id != id
    ensures r.Err? ==> r.failure == Http("Failed to fetch updated currency pair", 500)
    ensures r.Ok? ==> |r.value| == |pairs| - 1
  {
    match PairIndex(pairs, id)
    case None => Err(Http("Failed to fetch updated currency pair", 500))
    case Some(i) => Ok(RemoveAt(pairs, i))
  }

  /** With unique ids, delete removes exactly the pair with that id: afterwards
      it is not found, and every other pair is still there. */
  lemma DeleteRemovesExactlyThatPair(pairs: seq<CurrencyPair>, id: Id)
    requires UniqueKeys(pairs, PairId)
    requires DeletePair(pairs, id).Ok?
    ensures var after := DeletePair(pairs, id).value;
      GetPair(after, id).Err? &&
      forall p :: p in pairs && p.id != id ==> p in after
  {
    var i := PairIndex(pairs, id).value;
    var after := DeletePair(pairs, id).value;
    assert after == pairs[..i] + pairs[i + 1..];
    forall p | p in after ensures p.id != id {
      var k :| 0 <= k < |after| && after[k] == p;
      if k < i {
        assert p == pairs[k];
      } else {
        assert p == pairs[k + 1];
      }
    }
    forall p | p in pairs && p.id != id ensures p in after {
      var k :| 0 <= k < |pairs| && pairs[k] == p;
      if k < i {
        assert after[k] == p;
      } else {
        assert k != i;
        assert after[k - 1] == p;
      }
    }
  }

  /** A pair just created is what a lookup of its id yields. */
  lemma CreatedPairIsFound(users: seq<Users.User>, pairs: seq<CurrencyPair>, newId: Id, caller: Id, dto: PairFields, stamp: nat)
    requires KeysBelow(pairs, PairId, newId)
    requires CreatePair(users, pairs, newId, caller, dto, stamp).Ok?
    ensures var (after, p) := CreatePair(users, pairs, newId, caller, dto, stamp).value;
      GetPair(after, newId) == Ok(p)
  {
    var (after, p) := CreatePair(users, pairs, newId, caller, dto, stamp).value;
    assert forall q :: q in pairs ==> q.id != newId;
    var j := PairIndex(after, newId);
    assert after[|pairs|] == p;
    assert j.Some?;
  }

  /** Pairs that all carry the same `updatedAt` are listed in their stored order. */
  lemma SameStampKeepsStoredOrder(pairs: seq<CurrencyPair>, stamp: nat)
    requires forall p :: p in pairs ==> p.updatedAt == stamp
    ensures Listing(pairs) == pairs
  {
    SortByConstantKey(pairs, NewestUpdateFirstKey, 0 - stamp);
  }

  /** A superadmin's request with both currency codes creates a pair. */
  predicate CreateAccepted(users: seq<Users.User>, caller: Id, dto: PairFields) {
    Users.FindUserById(users, caller).Some? && Users.FindUserById(users, caller).value.role == SuperAdmin &&
    Truthy(dto.base_currency) && Truthy(dto.quote_currency)
  }

  /** As written, two pairs created one after the other in one server run get the
      same schema-load stamp, so the listing meant to show the newest first shows
      the older pair first. */
  lemma OneRunPairsListOldestFirst(users: seq<Users.User>, caller: Id, d1: PairFields, d2: PairFields, loadedAt: nat)
    requires CreateAccepted(users, caller, d1) && CreateAccepted(users, caller, d2)
    ensures var (once, a) := CreatePair(users, [], 0, caller, d1, loadedAt).value;
      var (twice, b) := CreatePair(users, once, 1, caller, d2, loadedAt).value;
      GetAll(twice, None, None) == Ok(PairList([a, b], 2))
  {
    var (once, a) := CreatePair(users, [], 0, caller, d1, loadedAt).value;
    var (twice, b) := CreatePair(users, once, 1, caller, d2, loadedAt).value;
    assert twice == [a, b];
    SameStampKeepsStoredOrder(twice, loadedAt);
  }

  /** Corrected: stamped with their creation times, the later of two pairs is
      listed first. */
  lemma LaterCreatedPairListedFirst(users: seq<Users.User>, caller: Id, d1: PairFields, d2: PairFields, t1: nat, t2: nat)
    requires CreateAccepted(users, caller, d1) && CreateAccepted(users, caller, d2)
    requires t1 < t2
    ensures var (once, a) := CreatePair(users, [], 0, caller, d1, t1).value;
      var (twice, b) := CreatePair(users, once, 1, caller, d2, t2).value;
      GetAll(twice, None, None) == Ok(PairList([b, a], 2))
  {
    var (once, a) := CreatePair(users, [], 0, caller, d1, t1).value;
    var (twice, b) := CreatePair(users, once, 1, caller, d2, t2).value;
    assert twice == [a, b];
    assert [a, b][1..] == [b];
    assert [b][1..] == [];
    assert SortByKey([b], NewestUpdateFirstKey) == [b];
    assert Insert(a, [], NewestUpdateFirstKey) == [a];
    assert Listing(twice) == [b, a];
  }

  ghost predicate WellFormed(pairs: seq<CurrencyPair>, nextId: Id) {
    UniqueKeys(pairs, PairId) && KeysBelow(pairs, PairId, nextId)
  }

  /** The currency-pair collection. */
  class PairRegistry {
    var pairs: seq<CurrencyPair>
    var nextId: Id

    ghost predicate Valid() reads this {
      WellFormed(pairs, nextId)
    }

    constructor (initial: seq<CurrencyPair>, firstFreeId: Id)
      requires WellFormed(initial, firstFreeId)
      ensures Valid() && pairs == initial && nextId == firstFreeId
    {
      pairs := initial;
      nextId := firstFreeId;
    }

    /** `createCurrencyPairService` as corrected, asked at time `now` by `caller`
        of the user collection `users`: the new pair is stamped `now`. */
    method Create(users: seq<Users.User>, caller: Id, dto: PairFields, now: nat) returns (r: Result<CurrencyPair>)
      requires Valid()
      modifies this
      ensures Valid()
      ensures var c := CreatePair(users, old(pairs), old(nextId), caller, dto, now);
        (c.Ok? ==> r == Ok(c.value.1) && pairs == c.value.0 && nextId == old(nextId) + 1) &&
        (c.Err? ==> r == Err(c.failure) && pairs == old(pairs) && nextId == old(nextId))
    {
      var c := CreatePair(users, pairs, nextId, caller, dto, now);
      if c.Err? {
        return Err(c.failure);
      }
      assert forall k :: 0 <= k < |pairs| ==> pairs[k].id < nextId;
      pairs := c.value.0;
      nextId := nextId + 1;
      r := Ok(c.value.1);
    }

    /** `updateCurrencyPairService`. */
    method Update(id: Id, dto: PairFields, now: nat) returns (r: Result<CurrencyPair>)
      requires Valid()
      modifies this
      ensures Valid() && nextId == old(nextId)
      ensures var c := UpdatePair(old(pairs), id, dto, now);
        (c.Ok? ==> r == Ok(c.value.1) && pairs == c.value.0) &&
        (c.Err? ==> r == Err(c.failure) && pairs == old(pairs))
    {
      var c := UpdatePair(pairs, id, dto, now);
      if c.Err? {
        return Err(c.failure);
      }
      var i := PairIndex(pairs, id).value;
      assert forall k :: 0 <= k < |pairs| ==> PairId(c.value.0[k]) == PairId(pairs[k]);
      pairs := c.value.0;
      r := Ok(c.value.1);
    }

    /** `deleteCurrencyPairService`. */
    method Delete(id: Id) returns (r: Outcome)
      requires Valid()
      modifies this
      ensures Valid() && nextId == old(nextId)
      ensures var c := DeletePair(old(pairs), id);
        (c.Ok? ==> r == Pass && pairs == c.value) &&
        (c.Err? ==> r == Fail(c.failure) && pairs == old(pairs))
    {
      var c := DeletePair(pairs, id);
      if c.Err? {
        return Fail(c.failure);
      }
      var i := PairIndex(pairs, id).value;
      assert c.value == pairs[..i] + pairs[i + 1..];
      pairs := c.value;
      r := Pass;
    }
  }
}
