/** The trade collection: the Trade and BuyTrade schemas' required, unique and
    default constraints, the trade service's insertion and its three queries. */
module Trades {
  import opened Common

  /** A stored trade. Optional schema paths are `Option`s; numbers are exact reals. */
  datatype Trade = Trade(
    id: Id,
    userId: Id,
    currency: string,
    status: string,
    exit_currency: string,
    rate: real,
    amount: real,
    minimumBid: string,
    account_name: Option<string>,
    bank_name: Option<string>,
    payment_method: string,
    transaction_fee: string,
    vat_fee: string,
    account_number: Option<string>,
    additional_information: Option<string>,
    tradeId: string,
    beneficiary_name: string,
    beneficiary_account: string,
    beneficiary_bank: string,
    available_amount: real,
    sold: real,
    price: real,
    isDeleted: bool)

  /** The request body spread into a new trade document: one optional value per
      schema path (`None` = absent from the body). */
  datatype TradeBody = TradeBody(
    currency: Option<string>,
    status: Option<string>,
    exit_currency: Option<string>,
    rate: Option<real>,
    amount: Option<real>,
    minimumBid: Option<string>,
    account_name: Option<string>,
    bank_name: Option<string>,
    payment_method: Option<string>,
    transaction_fee: Option<string>,
    vat_fee: Option<string>,
    account_number: Option<string>,
    additional_information: Option<string>,
    tradeId: Option<string>,
    beneficiary_name: Option<string>,
    beneficiary_account: Option<string>,
    beneficiary_bank: Option<string>,
    available_amount: Option<real>,
    sold: Option<real>,
    price: Option<real>)

  /** The paths `required: true` demands: a string must be present and non-empty,
      a number present. */
  predicate RequiredPresent(b: TradeBody) {
    Truthy(b.currency) && Truthy(b.status) && Truthy(b.exit_currency) &&
    b.rate.Some? && b.amount.Some? && Truthy(b.minimumBid) &&
    Truthy(b.payment_method) && Truthy(b.transaction_fee) && Truthy(b.vat_fee) &&
    Truthy(b.tradeId) && Truthy(b.beneficiary_name) && Truthy(b.beneficiary_account) &&
    Truthy(b.beneficiary_bank) && b.available_amount.Some? && b.price.Some?
  }

  /** Building and validating `new tradeModel({ userId, ...body })`: the
      required paths, `sold` defaulting to 0 and `isDeleted` to false. */
  function NewTrade(id: Id, userId: Id, b: TradeBody): (r: Result<Trade>)
    ensures r.Ok? <==> RequiredPresent(b)
    ensures r.Err? ==> r.failure == StoreRejected
    ensures r.Ok? ==> r.value.id == id && r.value.userId == userId && !r.value.isDeleted &&
                      r.value.sold == (if b.sold.Some? then b.sold.value else 0.0)
  {
    if !RequiredPresent(b) then Err(StoreRejected)
    else Ok(Trade(id, userId, b.currency.value, b.status.value, b.exit_currency.value,
                  b.rate.value, b.amount.value, b.minimumBid.value, b.account_name, b.bank_name,
                  b.payment_method.value, b.transaction_fee.value, b.vat_fee.value,
                  b.account_number, b.additional_information, b.tradeId.value,
                  b.beneficiary_name.value, b.beneficiary_account.value, b.beneficiary_bank.value,
                  b.available_amount.value, if b.sold.Some? then b.sold.value else 0.0,
                  b.price.value, false))
  }

  /** Whether the body was copied into the trade: every supplied path holds the
      body's value. */
  predicate CopiedFrom(t: Trade, b: TradeBody) {
    b.currency == Some(t.currency) && b.status == Some(t.status) && b.exit_currency == Some(t.exit_currency) &&
    b.rate == Some(t.rate) && b.amount == Some(t.amount) && b.minimumBid == Some(t.minimumBid) &&
    b.account_name == t.account_name && b.bank_name == t.bank_name &&
    b.payment_method == Some(t.payment_method) && b.transaction_fee == Some(t.transaction_fee) &&
    b.vat_fee == Some(t.vat_fee) && b.account_number == t.account_number &&
    b.additional_information == t.additional_information && b.tradeId == Some(t.tradeId) &&
    b.beneficiary_name == Some(t.beneficiary_name) && b.beneficiary_account == Some(t.beneficiary_account) &&
    b.beneficiary_bank == Some(t.beneficiary_bank) && b.available_amount == Some(t.available_amount) &&
    b.price == Some(t.price)
  }

  /** Whether a stored trade already holds one of the unique values of `t`:
      `tradeId` and each of the three beneficiary paths is a unique index. */
  predicate Clashes(stored: Trade, t: Trade) {
    stored.tradeId == t.tradeId || stored.beneficiary_name == t.beneficiary_name ||
    stored.beneficiary_account == t.beneficiary_account || stored.beneficiary_bank == t.beneficiary_bank
  }

  /** `createTrade`: the new collection and the stored trade, or the store's refusal. */
  function CreateTrade(trades: seq<Trade>, newId: Id, userId: Id, b: TradeBody): (r: Result<(seq<Trade>, Trade)>)
    ensures r.Ok? <==> RequiredPresent(b) && forall s :: s in trades ==> !Clashes(s, NewTrade(newId, userId, b).value)
    ensures r.Err? ==> r.failure == StoreRejected
    ensures r.Ok? ==> r.value.0 == trades + [r.value.1] && r.value.1.id == newId &&
                      r.value.1.userId == userId && CopiedFrom(r.value.1, b)
  {
    match NewTrade(newId, userId, b)
    case Err(f) => Err(f)
    case Ok(t) =>
      if exists j :: 0 <= j < |trades| && Clashes(trades[j], t) then Err(StoreRejected)
      else Ok((trades + [t], t))
  }

  /** A trade whose body leaves out `sold` is stored with sold = 0. */
  lemma SoldDefaultsToZero(trades: seq<Trade>, newId: Id, userId: Id, b: TradeBody)
    requires b.sold.None?
    requires CreateTrade(trades, newId, userId, b).Ok?
    ensures CreateTrade(trades, newId, userId, b).value.1.sold == 0.0
  {
  }

  /** A second trade reusing a stored trade's tradeId, beneficiary name,
      beneficiary account or beneficiary bank is refused and nothing is stored. */
  lemma UniqueValuesRejected(trades: seq<Trade>, newId: Id, userId: Id, b: TradeBody, stored: Trade)
    requires stored in trades
    requires b.tradeId == Some(stored.tradeId) || b.beneficiary_name == Some(stored.beneficiary_name) ||
             b.beneficiary_account == Some(stored.beneficiary_account) ||
             b.beneficiary_bank == Some(stored.beneficiary_bank)
    ensures CreateTrade(trades, newId, userId, b) == Err(StoreRejected)
  {
  }

  /** What survives the global whitelisting pipe of a trade-creation request:
      only the paths `CreateTradeDTO` declares. */
  datatype CreateTradeDto = CreateTradeDto(
    currency: string,
    exit_currency: string,
    rate: real,
    amount: real,
    minimumBid: string,
    bank_name: string,
    account_number: string,
    beneficiary_name: string,
    beneficiary_account: string)

  function BodyOf(dto: CreateTradeDto): TradeBody {
    TradeBody(Some(dto.currency), None, Some(dto.exit_currency), Some(dto.rate), Some(dto.amount),
              Some(dto.minimumBid), None, Some(dto.bank_name), None, None, None,
              Some(dto.account_number), None, None, Some(dto.beneficiary_name),
              Some(dto.beneficiary_account), None, None, None, None)
  }

  /** `CreateTradeDTO` has no status, payment_method, fees, tradeId, beneficiary
      bank, available amount or price, all of which the schema requires: a body
      holding only the DTO's paths is always refused. */
  lemma DtoBodyAlwaysRejected(trades: seq<Trade>, newId: Id, userId: Id, dto: CreateTradeDto)
    ensures CreateTrade(trades, newId, userId, BodyOf(dto)) == Err(StoreRejected)
  {
  }

  /** `findAll`. */
  function FindAll(trades: seq<Trade>): (r: seq<Trade>)
    ensures multiset(r) == multiset(trades)
  {
    trades
  }

  /** `findByUserId`. */
  function FindByUserId(trades: seq<Trade>, user: Id): (r: seq<Trade>)
    ensures forall t :: t in r <==> t in trades && t.userId == user
  {
    Filter(trades, (t: Trade) => t.userId == user)
  }

  /** `findAllExceptUser`: `{ userId: { $ne: userId } }`. */
  function FindAllExceptUser(trades: seq<Trade>, user: Id): (r: seq<Trade>)
    ensures forall t :: t in r <==> t in trades && t.userId != user
  {
    Filter(trades, (t: Trade) => t.userId != user)
  }

  /** For every user, the user's trades and everybody else's share no trade and
      together are all the trades, each as often as it is stored. */
  lemma QueriesPartitionTheBook(trades: seq<Trade>, user: Id)
    ensures multiset(FindByUserId(trades, user)) + multiset(FindAllExceptUser(trades, user)) == multiset(FindAll(trades))
    ensures |FindByUserId(trades, user)| + |FindAllExceptUser(trades, user)| == |FindAll(trades)|
    ensures forall t :: !(t in FindByUserId(trades, user) && t in FindAllExceptUser(trades, user))
  {
    FilterSplit(trades, (t: Trade) => t.userId == user, (t: Trade) => t.userId != user);
  }

  /** A BuyTrade document: every path but the account and currency details is required. */
  datatype BuyTrade = BuyTrade(
    transaction_id: string,
    userId: Id,
    purchase: real,
    price: real,
    beneficiary_name: string,
    beneficiary_account: string,
    beneficiary_bank: string,
    payment_method: string,
    status: string,
    account_name: Option<string>,
    bank_name: Option<string>,
    account_number: Option<string>,
    purchase_currency: Option<string>,
    paid_currency: Option<string>)

  datatype BuyTradeBody = BuyTradeBody(
    transaction_id: Option<string>,
    userId: Option<Id>,
    purchase: Option<real>,
    price: Option<real>,
    beneficiary_name: Option<string>,
    beneficiary_account: Option<string>,
    beneficiary_bank: Option<string>,
    payment_method: Option<string>,
    status: Option<string>,
    account_name: Option<string>,
    bank_name: Option<string>,
    account_number: Option<string>,
    purchase_currency: Option<string>,
    paid_currency: Option<string>)

  /** Validating a BuyTrade document. */
  function NewBuyTrade(b: BuyTradeBody): (r: Result<BuyTrade>)
    ensures r.Ok? <==>
      Truthy(b.transaction_id) && b.userId.Some? && b.purchase.Some? && b.price.Some? &&
      Truthy(b.beneficiary_name) && Truthy(b.beneficiary_account) && Truthy(b.beneficiary_bank) &&
      Truthy(b.payment_method) && Truthy(b.status)
    ensures r.Err? ==> r.failure == StoreRejected
    ensures r.Ok? ==> Some(r.value.transaction_id) == b.transaction_id && Some(r.value.userId) == b.userId &&
                      Some(r.value.purchase) == b.purchase && Some(r.value.price) == b.price &&
                      r.value.account_name == b.account_name && r.value.paid_currency == b.paid_currency
  {
    if Truthy(b.transaction_id) && b.userId.Some? && b.purchase.Some? && b.price.Some? &&
       Truthy(b.beneficiary_name) && Truthy(b.beneficiary_account) && Truthy(b.beneficiary_bank) &&
       Truthy(b.payment_method) && Truthy(b.status)
    then Ok(BuyTrade(b.transaction_id.value, b.userId.value, b.purchase.value, b.price.value,
                     b.beneficiary_name.value, b.beneficiary_account.value, b.beneficiary_bank.value,
                     b.payment_method.value, b.status.value, b.account_name, b.bank_name,
                     b.account_number, b.purchase_currency, b.paid_currency))
    else Err(StoreRejected)
  }

  function TradeKey(t: Trade): Id { t.id }

  /** The store's invariant: fresh unique ids, and the four unique indexes. */
  ghost predicate WellFormed(trades: seq<Trade>, nextId: Id) {
    UniqueKeys(trades, TradeKey) && KeysBelow(trades, TradeKey, nextId) &&
    forall i, j :: 0 <= i < j < |trades| ==> !Clashes(trades[i], trades[j])
  }

  /** The trade collection. */
  class TradeBook {
    var trades: seq<Trade>
    var nextId: Id

    ghost predicate Valid() reads this {
      WellFormed(trades, nextId)
    }

    constructor (initial: seq<Trade>, firstFreeId: Id)
      requires WellFormed(initial, firstFreeId)
      ensures Valid() && trades == initial && nextId == firstFreeId
    {
      trades := initial;
      nextId := firstFreeId;
    }

    /** `createTrade`: build the document and save it. */
    method Create(userId: Id, b: TradeBody) returns (r: Result<Trade>)
      requires Valid()
      modifies this
      ensures Valid()
      ensures var c := CreateTrade(old(trades), old(nextId), userId, b);
        (c.Ok? ==> r == Ok(c.value.1) && trades == c.value.0 && nextId == old(nextId) + 1) &&
        (c.Err? ==> r == Err(StoreRejected) && trades == old(trades) && nextId == old(nextId))
    {
      var built := NewTrade(nextId, userId, b);
      if built.Err? {
        return Err(StoreRejected);
      }
      var t := built.value;
      if exists k :: 0 <= k < |trades| && Clashes(trades[k], t) {
        return Err(StoreRejected);
      }
      trades := trades + [t];
      nextId := nextId + 1;
      r := Ok(t);
    }
  }
}
