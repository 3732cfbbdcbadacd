/** The wallet collection: the schema's defaults and soft-delete filter, and the
    wallet service's lookups, per-owner listing and deletion, update and the
    upsert-credit `fundWallet`. */
module Wallets {
  import opened Common

  /** A stored wallet. Amounts are JavaScript numbers, modelled as exact reals. */
  datatype Wallet = Wallet(
    id: Id,
    user: Id,
    currency_code: string,
    balance: real,
    escrow_balance: real,
    transactions: seq<Id>,
    isDeleted: bool)

  function WalletId(w: Wallet): Id { w.id }

  /** Constructing and validating a new wallet document: `currency_code` is a
      required string (the empty string fails), `balance` and `escrow_balance`
      default to 0, `transactions` to the empty array and `isDeleted` to false. */
  function NewWallet(id: Id, user: Id, currency_code: Option<string>,
                     balance: Option<real>, escrow_balance: Option<real>): (r: Result<Wallet>)
    ensures r.Ok? <==> Truthy(currency_code)
    ensures r.Err? ==> r.failure == StoreRejected
    ensures r.Ok? ==> r.value.id == id && r.value.user == user && r.value.currency_code == currency_code.value &&
                      !r.value.isDeleted && r.value.transactions == []
    ensures r.Ok? && balance.None? ==> r.value.balance == 0.0
    ensures r.Ok? && escrow_balance.None? ==> r.value.escrow_balance == 0.0
    ensures r.Ok? && balance.Some? ==> r.value.balance == balance.value
    ensures r.Ok? && escrow_balance.Some? ==> r.value.escrow_balance == escrow_balance.value
  {
    if !Truthy(currency_code) then Err(StoreRejected)
    else Ok(Wallet(id, user, currency_code.value,
                   if balance.Some? then balance.value else 0.0,
                   if escrow_balance.Some? then escrow_balance.value else 0.0,
                   [], false))
  }

  /** `findOneById`: `findById` runs the `findOne` hook, so soft-deleted wallets are invisible. */
  function FindOneById(ws: seq<Wallet>, id: Id): (r: Option<Wallet>)
    ensures r.Some? ==> r.value in ws && r.value.id == id && !r.value.isDeleted
    ensures r.None? <==> forall w :: w in ws ==> w.id != id || w.isDeleted
  {
    match FindFirst(ws, (w: Wallet) => w.id == id && !w.isDeleted)
    case None => None
    case Some(i) => Some(ws[i])
  }

  /** `getAllWalletsByUser`: a plain `find`, which has no soft-delete hook. */
  function GetAllWalletsByUser(ws: seq<Wallet>, user: Id): (r: seq<Wallet>)
    ensures forall w :: w in r <==> w in ws && w.user == user
  {
    Filter(ws, (w: Wallet) => w.user == user)
  }

  /** `deleteAllWalletsByUser`: a `deleteMany`, which removes the documents outright. */
  function DeleteAllWalletsByUser(ws: seq<Wallet>, user: Id): (r: seq<Wallet>)
    ensures forall w :: w in r <==> w in ws && w.user != user
  {
    Filter(ws, (w: Wallet) => w.user != user)
  }

  /** What the owner's listing shows is exactly what deleting the owner's wallets
      takes away: the two together are the collection, record for record. */
  lemma DeleteRemovesExactlyTheListing(ws: seq<Wallet>, user: Id)
    ensures multiset(GetAllWalletsByUser(ws, user)) + multiset(DeleteAllWalletsByUser(ws, user)) == multiset(ws)
    ensures |DeleteAllWalletsByUser(ws, user)| == |ws| - |GetAllWalletsByUser(ws, user)|
  {
    FilterSplit(ws, (w: Wallet) => w.user == user, (w: Wallet) => w.user != user);
  }

  /** The body of `updateWallet`; `None` leaves a field alone. */
  datatype WalletUpdate = WalletUpdate(balance: Option<real>, escrow_balance: Option<real>)

  function Updated(w: Wallet, dto: WalletUpdate): Wallet {
    w.(balance := if dto.balance.Some? then dto.balance.value else w.balance,
       escrow_balance := if dto.escrow_balance.Some? then dto.escrow_balance.value else w.escrow_balance)
  }

  /** `updateWallet`: `findByIdAndUpdate` with `new: true`. It is not a `findOne`,
      so soft-deleted wallets are updated too; an unknown id yields `null`. */
  function UpdateWallet(ws: seq<Wallet>, id: Id, dto: WalletUpdate): (r: (seq<Wallet>, Option<Wallet>))
    ensures |r.0| == |ws|
    ensures (forall w :: w in ws ==> w.id != id) <==> r.1.None?
    ensures r.1.None? ==> r.0 == ws
    ensures r.1.Some? ==> r.1.value in r.0 && r.1.value.id == id
  {
    match FindFirst(ws, (w: Wallet) => w.id == id)
    case None => (ws, None)
    case Some(i) =>
      var after := ws[i := Updated(ws[i], dto)];
      assert after[i] == Updated(ws[i], dto);
      (after, Some(Updated(ws[i], dto)))
  }

  /** An update writes the supplied amounts into the wallet with that id and
      changes nothing else. */
  lemma UpdateTouchesOnlyThatWallet(ws: seq<Wallet>, id: Id, dto: WalletUpdate)
    requires UniqueKeys(ws, WalletId)
    requires UpdateWallet(ws, id, dto).1.Some?
    ensures var (after, w) := UpdateWallet(ws, id, dto);
      forall j :: 0 <= j < |ws| ==>
        if ws[j].id == id then after[j] == w.value && w.value == Updated(ws[j], dto)
        else after[j] == ws[j]
  {
    var i := FindFirst(ws, (w: Wallet) => w.id == id).value;
    assert forall j :: 0 <= j < |ws| && ws[j].id == id ==> WalletId(ws[j]) == WalletId(ws[i]);
  }

  /** The filter of `fundWallet`'s `findOne({ user, currency_code })`, soft-delete hook included. */
  function PairIndex(ws: seq<Wallet>, user: Id, code: string): Option<nat> {
    FindFirst(ws, (w: Wallet) => w.user == user && w.currency_code == code && !w.isDeleted)
  }

  /** `fundWallet`: credit the escrow of the live wallet for (user, currency_code),
      or store a new wallet holding the amount in escrow. Nothing checks the sign
      or the size of the amount. */
  function Fund(ws: seq<Wallet>, newId: Id, user: Id, code: string, amount: real): (r: Result<(seq<Wallet>, Wallet)>)
    ensures r.Err? <==> PairIndex(ws, user, code).None? && code == ""
    ensures r.Err? ==> r.failure == StoreRejected
    ensures r.Ok? ==> r.value.1 in r.value.0
  {
    match PairIndex(ws, user, code)
    case Some(i) =>
      var w := ws[i].(escrow_balance := ws[i].escrow_balance + amount);
      var after := ws[i := w];
      assert after[i] == w;
      Ok((after, w))
    case None =>
      match NewWallet(newId, user, Some(code), None, Some(amount))
      case Err(f) => Err(f)
      case Ok(w) => Ok((ws + [w], w))
  }

  /** Funding a pair that has a live wallet raises that wallet's escrow by exactly
      the amount, changes none of its other fields and creates no wallet. */
  lemma FundExistingCredits(ws: seq<Wallet>, newId: Id, user: Id, code: string, amount: real, i: nat)
    requires PairIndex(ws, user, code) == Some(i)
    ensures Fund(ws, newId, user, code, amount).Ok?
    ensures var (after, w) := Fund(ws, newId, user, code, amount).value;
      |after| == |ws| && after[i] == w &&
      w.escrow_balance == ws[i].escrow_balance + amount &&
      w.(escrow_balance := ws[i].escrow_balance) == ws[i] &&
      forall j :: 0 <= j < |ws| && j != i ==> after[j] == ws[j]
  {
  }

  /** Funding a pair without a live wallet appends exactly one wallet, owned by
      the user, in that currency, with the amount in escrow and a zero balance. */
  lemma FundAbsentCreates(ws: seq<Wallet>, newId: Id, user: Id, code: string, amount: real)
    requires PairIndex(ws, user, code).None?
    requires code != ""
    ensures Fund(ws, newId, user, code, amount).Ok?
    ensures var (after, w) := Fund(ws, newId, user, code, amount).value;
      after == ws + [w] &&
      w == Wallet(newId, user, code, 0.0, amount, [], false)
  {
  }

  /** Funding leaves every wallet of another user or another currency as it was. */
  lemma FundLeavesOtherPairs(ws: seq<Wallet>, newId: Id, user: Id, code: string, amount: real)
    requires Fund(ws, newId, user, code, amount).Ok?
    ensures var after := Fund(ws, newId, user, code, amount).value.0;
      |ws| <= |after| &&
      forall j :: 0 <= j < |ws| && (ws[j].user != user || ws[j].currency_code != code) ==> after[j] == ws[j]
  {
  }

  /** Credits are additive: funding a and then b leaves the collection exactly as
      funding a + b once does. */
  lemma FundAdditive(ws: seq<Wallet>, newId: Id, user: Id, code: string, a: real, b: real)
    requires code != ""
    ensures Fund(ws, newId, user, code, a).Ok?
    ensures Fund(Fund(ws, newId, user, code, a).value.0, newId + 1, user, code, b).Ok?
    ensures Fund(Fund(ws, newId, user, code, a).value.0, newId + 1, user, code, b).value ==
            Fund(ws, newId, user, code, a + b).value
  {
    match PairIndex(ws, user, code)
    case Some(i) => FundTwiceExisting(ws, newId, user, code, a, b, i);
    case None => FundTwiceAbsent(ws, newId, user, code, a, b);
  }

  lemma FundTwiceExisting(ws: seq<Wallet>, newId: Id, user: Id, code: string, a: real, b: real, i: nat)
    requires PairIndex(ws, user, code) == Some(i)
    ensures Fund(ws, newId, user, code, a).Ok?
    ensures Fund(Fund(ws, newId, user, code, a).value.0, newId + 1, user, code, b) ==
            Fund(ws, newId, user, code, a + b)
  {
    var p := (w: Wallet) => w.user == user && w.currency_code == code && !w.isDeleted;
    var once := Fund(ws, newId, user, code, a).value.0;
    assert forall j :: 0 <= j < |ws| ==> (p(once[j]) <==> p(ws[j]));
    assert PairIndex(once, user, code) == Some(i) by {
      assert p(once[i]);
      assert forall j :: 0 <= j < i ==> !p(once[j]);
    }
    assert once[i := once[i].(escrow_balance := once[i].escrow_balance + b)] ==
           ws[i := ws[i].(escrow_balance := ws[i].escrow_balance + (a + b))];
  }

  lemma FundTwiceAbsent(ws: seq<Wallet>, newId: Id, user: Id, code: string, a: real, b: real)
    requires PairIndex(ws, user, code).None? && code != ""
    ensures Fund(ws, newId, user, code, a).Ok?
    ensures Fund(Fund(ws, newId, user, code, a).value.0, newId + 1, user, code, b) ==
            Fund(ws, newId, user, code, a + b)
  {
    var once := Fund(ws, newId, user, code, a).value.0;
    assert once == ws + [Wallet(newId, user, code, 0.0, a, [], false)];
    assert PairIndex(once, user, code) == Some(|ws|) by {
      assert once[|ws|] == Wallet(newId, user, code, 0.0, a, [], false);
      assert forall j :: 0 <= j < |ws| ==> once[j] == ws[j];
    }
    assert once[|ws| := once[|ws|].(escrow_balance := once[|ws|].escrow_balance + b)] ==
           ws + [Wallet(newId, user, code, 0.0, a + b, [], false)];
  }

  /** At most one live wallet per (user, currency_code). */
  ghost predicate OneLivePerPair(ws: seq<Wallet>) {
    forall i, j :: 0 <= i < j < |ws| && !ws[i].isDeleted && !ws[j].isDeleted ==>
      ws[i].user != ws[j].user || ws[i].currency_code != ws[j].currency_code
  }

  /** Funding never creates a second live wallet for a pair. */
  lemma FundKeepsOneLivePerPair(ws: seq<Wallet>, newId: Id, user: Id, code: string, amount: real)
    requires OneLivePerPair(ws)
    requires Fund(ws, newId, user, code, amount).Ok?
    ensures OneLivePerPair(Fund(ws, newId, user, code, amount).value.0)
  {
    var after := Fund(ws, newId, user, code, amount).value.0;
    if PairIndex(ws, user, code).Some? {
      var i := PairIndex(ws, user, code).value;
      assert forall j :: 0 <= j < |ws| ==>
        after[j].user == ws[j].user && after[j].currency_code == ws[j].currency_code && after[j].isDeleted == ws[j].isDeleted;
    } else {
      assert forall j :: 0 <= j < |ws| ==> after[j] == ws[j];
    }
  }

  /** The store's invariant: ids are unique and below the next id, and each pair
      has at most one live wallet. */
  ghost predicate WellFormed(ws: seq<Wallet>, nextId: Id) {
    UniqueKeys(ws, WalletId) && KeysBelow(ws, WalletId, nextId) && OneLivePerPair(ws)
  }

  /** The wallet collection. */
  class WalletLedger {
    var wallets: seq<Wallet>
    var nextId: Id

    ghost predicate Valid() reads this {
      WellFormed(wallets, nextId)
    }

    constructor (initial: seq<Wallet>, firstFreeId: Id)
      requires WellFormed(initial, firstFreeId)
      ensures Valid() && wallets == initial && nextId == firstFreeId
    {
      wallets := initial;
      nextId := firstFreeId;
    }

    /** `fundWallet`: find the live wallet of the pair and add to its escrow in
        place, or save a new one. */
    method FundWallet(user: Id, code: string, amount: real) returns (r: Result<Wallet>)
      requires Valid()
      modifies this
      ensures Valid()
      ensures var f := Fund(old(wallets), old(nextId), user, code, amount);
        (f.Ok? ==> r == Ok(f.value.1) && wallets == f.value.0) &&
        (f.Err? ==> r == Err(f.failure) && wallets == old(wallets))
      ensures nextId == old(nextId) + (if PairIndex(old(wallets), user, code).None? && code != "" then 1 else 0)
    {
      FundPreservesWellFormed(wallets, nextId, user, code, amount);
      var found := PairIndex(wallets, user, code);
      if found.Some? {
        var i := found.value;
        var w := wallets[i];
        w := w.(escrow_balance := w.escrow_balance + amount);
        wallets := wallets[i := w];
        return Ok(w);
      }
      var created := NewWallet(nextId, user, Some(code), None, Some(amount));
      if created.Err? {
        return Err(created.failure);
      }
      wallets := wallets + [created.value];
      nextId := nextId + 1;
      r := Ok(created.value);
    }

    /** `updateWallet`. */
    method UpdateWalletById(id: Id, dto: WalletUpdate) returns (r: Option<Wallet>)
      requires Valid()
      modifies this
      ensures Valid() && nextId == old(nextId)
      ensures (wallets, r) == UpdateWallet(old(wallets), id, dto)
    {
      var outcome := UpdateWallet(wallets, id, dto);
      UpdatePreservesWellFormed(wallets, nextId, id, dto);
      wallets := outcome.0;
      r := outcome.1;
    }

    /** `deleteAllWalletsByUser`. */
    method DeleteAllByUser(user: Id)
      requires Valid()
      modifies this
      ensures Valid() && nextId == old(nextId)
      ensures wallets == DeleteAllWalletsByUser(old(wallets), user)
    {
      DeletePreservesWellFormed(wallets, nextId, user);
      wallets := DeleteAllWalletsByUser(wallets, user);
    }
  }

  lemma FundPreservesWellFormed(ws: seq<Wallet>, nextId: Id, user: Id, code: string, amount: real)
    requires WellFormed(ws, nextId)
    ensures var f := Fund(ws, nextId, user, code, amount);
      f.Ok? ==> WellFormed(f.value.0, if PairIndex(ws, user, code).Some? then nextId else nextId + 1)
  {
    if Fund(ws, nextId, user, code, amount).Ok? {
      FundKeepsOneLivePerPair(ws, nextId, user, code, amount);
      var after := Fund(ws, nextId, user, code, amount).value.0;
      if PairIndex(ws, user, code).Some? {
        assert forall j :: 0 <= j < |ws| ==> WalletId(after[j]) == WalletId(ws[j]);
      } else {
        assert forall j :: 0 <= j < |ws| ==> after[j] == ws[j];
      }
    }
  }

  lemma UpdatePreservesWellFormed(ws: seq<Wallet>, nextId: Id, id: Id, dto: WalletUpdate)
    requires WellFormed(ws, nextId)
    ensures WellFormed(UpdateWallet(ws, id, dto).0, nextId)
  {
    var after := UpdateWallet(ws, id, dto).0;
    if UpdateWallet(ws, id, dto).1.Some? {
      assert forall j :: 0 <= j < |ws| ==>
        (WalletId(after[j]) == WalletId(ws[j]) && after[j].user == ws[j].user &&
         after[j].currency_code == ws[j].currency_code && after[j].isDeleted == ws[j].isDeleted);
    }
  }

  lemma DeletePreservesWellFormed(ws: seq<Wallet>, nextId: Id, user: Id)
    requires WellFormed(ws, nextId)
    ensures WellFormed(DeleteAllWalletsByUser(ws, user), nextId)
  {
    var p := (w: Wallet) => w.user != user;
    FilterKeepsUniqueKeys(ws, p, WalletId);
    FilterKeepsSubsequence(ws, p);
  }

  /** A filter keeps records in their collection order, so a pairwise property
      of the collection holds of the filtered records. */
  lemma {:induction false} FilterKeepsSubsequence(ws: seq<Wallet>, p: Wallet -> bool)
    requires OneLivePerPair(ws)
    ensures OneLivePerPair(Filter(ws, p))
  {
    if ws != [] {
      FilterKeepsSubsequence(ws[1..], p);
      var rest := Filter(ws[1..], p);
      forall y | y in rest && !y.isDeleted && !ws[0].isDeleted
        ensures ws[0].user != y.user || ws[0].currency_code != y.currency_code
      {
        var k :| 0 <= k < |ws[1..]| && ws[1..][k] == y;
        assert ws[k + 1] == y;
      }
    }
  }
}
