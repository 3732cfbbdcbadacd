/** The three fee services: the transaction fees whose administrators have the
    `superadmin` role, the second copy of the transaction-fee service whose
    administrators have the `admin` account type, and the conversion fees. All
    three list, create, merge-update and delete records behind a permission check. */
module Fees {
  import opened Common
  import Users

  /** Which of the three services is meant. */
  datatype FeeService = TransactionFees | AccountTypeTransactionFees | ConversionFees

  /** A stored fee: its id and the fields its request bodies carried. */
  datatype Fee = Fee(id: Id, fields: map<string, string>)

  function FeeId(f: Fee): Id { f.id }

  /** The test `checkAdminPermission` applies to the caller it found. */
  predicate Administers(svc: FeeService, u: Users.User) {
    match svc
    case TransactionFees => u.role == "superadmin"
    case AccountTypeTransactionFees => u.account_type == "admin"
    case ConversionFees => u.role == "superadmin"
  }

  function RefusalMessage(svc: FeeService): string {
    if svc.ConversionFees? then "User not found or not authorized to manage conversion fees"
    else "User not found or not authorized to manage transaction fees"
  }

  function NotFoundMessage(svc: FeeService): string {
    if svc.ConversionFees? then "Conversion fee not found" else "Transaction fee not found"
  }

  /** `checkAdminPermission`: the caller must be a live user passing the service's test. */
  function CheckAdminPermission(svc: FeeService, users: seq<Users.User>, caller: Id): (r: Outcome)
    ensures r.Pass? <==> exists u :: u in users && u.id == caller && !u.isDeleted && Administers(svc, u) &&
                                    Users.FindUserById(users, caller) == Some(u)
    ensures r.Fail? ==> r.failure == Plain(RefusalMessage(svc))
  {
    match Users.FindUserById(users, caller)
    case None => Fail(Plain(RefusalMessage(svc)))
    case Some(u) => if Administers(svc, u) then Pass else Fail(Plain(RefusalMessage(svc)))
  }

  /** The transaction-fee service admits exactly the live callers whose role is `superadmin`. */
  lemma TransactionFeeGate(users: seq<Users.User>, caller: Id)
    ensures CheckAdminPermission(TransactionFees, users, caller).Pass? <==>
              Users.FindUserById(users, caller).Some? && Users.FindUserById(users, caller).value.role == "superadmin"
  {
  }

  /** The second transaction-fee service admits exactly the live callers whose account type is `admin`. */
  lemma AccountTypeGate(users: seq<Users.User>, caller: Id)
    ensures CheckAdminPermission(AccountTypeTransactionFees, users, caller).Pass? <==>
              Users.FindUserById(users, caller).Some? && Users.FindUserById(users, caller).value.account_type == "admin"
  {
  }

  /** The conversion-fee service admits exactly the live callers whose role is `superadmin`. */
  lemma ConversionFeeGate(users: seq<Users.User>, caller: Id)
    ensures CheckAdminPermission(ConversionFees, users, caller).Pass? <==>
              Users.FindUserById(users, caller).Some? && Users.FindUserById(users, caller).value.role == "superadmin"
  {
  }

  /** The two transaction-fee services disagree on who may manage fees: a
      superadmin without the admin account type is admitted by one and refused by
      the other, and an admin account without the superadmin role the other way round. */
  lemma TransactionFeeGatesDisagree(users: seq<Users.User>, caller: Id)
    requires Users.FindUserById(users, caller).Some?
    ensures var u := Users.FindUserById(users, caller).value;
      (u.role == "superadmin" && u.account_type != "admin" ==>
         CheckAdminPermission(TransactionFees, users, caller).Pass? &&
         CheckAdminPermission(AccountTypeTransactionFees, users, caller).Fail?) &&
      (u.account_type == "admin" && u.role != "superadmin" ==>
         CheckAdminPermission(AccountTypeTransactionFees, users, caller).Pass? &&
         CheckAdminPermission(TransactionFees, users, caller).Fail?)
  {
    TransactionFeeGate(users, caller);
    AccountTypeGate(users, caller);
  }

  /** A live caller who sends `{ role: "superadmin" }` to the profile update,
      as written, is admitted by both superadmin-gated fee services afterwards. */
  lemma SelfPromotionOpensFeeGates(users: seq<Users.User>, caller: Id)
    requires UniqueKeys(users, Users.UserId)
    requires Users.FindUserById(users, caller).Some?
    ensures var r := Users.UpdateProfile(users, caller, map["role" := Users.Text("superadmin")]);
      r.Ok? &&
      CheckAdminPermission(TransactionFees, r.value.0, caller).Pass? &&
      CheckAdminPermission(ConversionFees, r.value.0, caller).Pass?
  {
    var body := map["role" := Users.Text("superadmin")];
    var k := Users.LiveIndex(users, caller).value;
    Users.ProfileUpdateSetsAnyRole(users, caller, "superadmin");
    Users.ProfileUpdateTouchesOnlyThatUser(users, caller, body);
    Users.UpdateKeepsLiveIndex(users, caller, body, caller);
    var after := Users.UpdateProfile(users, caller, body).value.0;
    assert after[k] == Users.Patched(users[k], body);
    assert after[k].role == "superadmin";
  }

  /** The corrected profile update never changes who passes a fee gate. */
  lemma OwnProfileUpdateKeepsFeeGates(svc: FeeService, users: seq<Users.User>, caller: Id, id: Id, body: Users.Body)
    requires UniqueKeys(users, Users.UserId)
    requires Users.UpdateOwnProfile(users, id, body).Ok?
    ensures CheckAdminPermission(svc, Users.UpdateOwnProfile(users, id, body).value.0, caller) ==
            CheckAdminPermission(svc, users, caller)
  {
    var after := Users.UpdateOwnProfile(users, id, body).value.0;
    Users.OwnProfileUpdateKeepsLookup(users, id, body, caller);
    var found := Users.FindUserById(after, caller);
    if found.Some? {
      var u := Users.FindUserById(users, caller).value;
      assert Administers(svc, found.value) == Administers(svc, u);
    }
  }

  /** `create…Fee`: after the permission check, a new fee holding the body. */
  function CreateFee(svc: FeeService, users: seq<Users.User>, fees: seq<Fee>, newId: Id, caller: Id, data: map<string, string>)
    : (r: Result<(seq<Fee>, Fee)>)
    ensures CheckAdminPermission(svc, users, caller).Fail? <==> r.Err?
    ensures r.Err? ==> r.failure == CheckAdminPermission(svc, users, caller).failure
    ensures r.Ok? ==> r.value.0 == fees + [r.value.1] && r.value.1 == Fee(newId, data)
  {
    match CheckAdminPermission(svc, users, caller)
    case Fail(f) => Err(f)
    case Pass =>
      var fee := Fee(newId, data);
      Ok((fees + [fee], fee))
  }

  /** Position of the fee `findById(feeId)` (or `deleteOne({ _id })`) matches. */
  function FeeIndex(fees: seq<Fee>, feeId: Id): (r: Option<nat>)
    ensures r.Some? ==> r.value < |fees| && fees[r.value].id == feeId
    ensures r.None? <==> forall f :: f in fees ==> f.id != feeId
  {
    FindFirst(fees, (f: Fee) => f.id == feeId)
  }

  /** `update…Fee`: after the permission check, the fee found takes every
      supplied field (`Object.assign`) and is saved. */
  function UpdateFee(svc: FeeService, users: seq<Users.User>, fees: seq<Fee>, caller: Id, feeId: Id, patch: map<string, string>)
    : (r: Result<(seq<Fee>, Fee)>)
    ensures CheckAdminPermission(svc, users, caller).Fail? ==> r == Err(CheckAdminPermission(svc, users, caller).failure)
    ensures CheckAdminPermission(svc, users, caller).Pass? ==>
              (r.Err? <==> forall f :: f in fees ==> f.id != feeId)
    ensures CheckAdminPermission(svc, users, caller).Pass? && r.Err? ==> r.failure == Plain(NotFoundMessage(svc))
    ensures r.Ok? ==> |r.value.0| == |fees| && r.value.1.id == feeId
  {
    match CheckAdminPermission(svc, users, caller)
    case Fail(f) => Err(f)
    case Pass =>
      match FeeIndex(fees, feeId)
      case None => Err(Plain(NotFoundMessage(svc)))
      case Some(i) =>
        var fee := fees[i].(fields := fees[i].fields + patch);
        Ok((fees[i := fee], fee))
  }

  /** An update overwrites exactly the supplied fields of the fee found: every
      supplied field takes its new value, every other field keeps its old one,
      no field disappears, and every other fee is untouched. */
  lemma UpdateMergesSuppliedFields(svc: FeeService, users: seq<Users.User>, fees: seq<Fee>, caller: Id, feeId: Id, patch: map<string, string>)
    requires UpdateFee(svc, users, fees, caller, feeId, patch).Ok?
    ensures var (after, fee) := UpdateFee(svc, users, fees, caller, feeId, patch).value;
      var i := FeeIndex(fees, feeId).value;
      after[i] == fee &&
      fee.fields.Keys == fees[i].fields.Keys + patch.Keys &&
      (forall k :: k in patch ==> fee.fields[k] == patch[k]) &&
      (forall k :: k in fees[i].fields && k !in patch ==> fee.fields[k] == fees[i].fields[k]) &&
      forall j :: 0 <= j < |fees| && j != i ==> after[j] == fees[j]
  {
  }

  /** Updating twice with the same body is updating once. */
  lemma UpdateIdempotent(svc: FeeService, users: seq<Users.User>, fees: seq<Fee>, caller: Id, feeId: Id, patch: map<string, string>)
    requires UpdateFee(svc, users, fees, caller, feeId, patch).Ok?
    ensures var after := UpdateFee(svc, users, fees, caller, feeId, patch).value.0;
      UpdateFee(svc, users, after, caller, feeId, patch) == UpdateFee(svc, users, fees, caller, feeId, patch)
  {
    var (after, fee) := UpdateFee(svc, users, fees, caller, feeId, patch).value;
    var i := FeeIndex(fees, feeId).value;
    assert after[i].id == feeId;
    assert forall j :: 0 <= j < i ==> after[j].id != feeId by {
      assert forall j :: 0 <= j < i ==> after[j] == fees[j];
    }
    assert FeeIndex(after, feeId) == Some(i);
    assert fee.fields + patch == fee.fields;
    assert after[i].(fields := after[i].fields + patch) == fee;
    assert after[i := fee] == after;
  }

  /** `delete…Fee`: after the permission check, `deleteOne({ _id: feeId })`;
      `true` when a fee went, the not-found error when none matched. */
  function DeleteFee(svc: FeeService, users: seq<Users.User>, fees: seq<Fee>, caller: Id, feeId: Id)
    : (r: Result<(seq<Fee>, bool)>)
    ensures CheckAdminPermission(svc, users, caller).Fail? ==> r == Err(CheckAdminPermission(svc, users, caller).failure)
    ensures CheckAdminPermission(svc, users, caller).Pass? ==>
              (r.Err? <==> forall f :: f in fees ==> f.id != feeId)
    ensures CheckAdminPermission(svc, users, caller).Pass? && r.Err? ==> r.failure == Plain(NotFoundMessage(svc))
    ensures r.Ok? ==> r.value.1 && |r.value.0| == |fees| - 1
  {
    match CheckAdminPermission(svc, users, caller)
    case Fail(f) => Err(f)
    case Pass =>
      match FeeIndex(fees, feeId)
      case None => Err(Plain(NotFoundMessage(svc)))
      case Some(i) => Ok((RemoveAt(fees, i), true))
  }

  /** With unique ids, a delete removes exactly the fee with that id. */
  lemma DeleteRemovesExactlyThatFee(svc: FeeService, users: seq<Users.User>, fees: seq<Fee>, caller: Id, feeId: Id)
    requires UniqueKeys(fees, FeeId)
    requires DeleteFee(svc, users, fees, caller, feeId).Ok?
    ensures var after := DeleteFee(svc, users, fees, caller, feeId).value.0;
      (forall f :: f in after ==> f.id != feeId) &&
      forall f :: f in fees && f.id != feeId ==> f in after
  {
    var i := FeeIndex(fees, feeId).value;
    var after := DeleteFee(svc, users, fees, caller, feeId).value.0;
    forall f | f in after ensures f.id != feeId {
      var k :| 0 <= k < |after| && after[k] == f;
      if k < i {
        assert f == fees[k];
      } else {
        assert f == fees[k + 1];
      }
    }
    forall f | f in fees && f.id != feeId ensures f in after {
      var k :| 0 <= k < |fees| && fees[k] == f;
      if k < i {
        assert after[k] == f;
      } else {
        assert k != i;
        assert after[k - 1] == f;
      }
    }
  }

  /** A refused caller changes nothing, whichever operation is asked. */
  lemma RefusedCallerChangesNothing(svc: FeeService, users: seq<Users.User>, fees: seq<Fee>, newId: Id, caller: Id,
                                    feeId: Id, data: map<string, string>)
    requires CheckAdminPermission(svc, users, caller).Fail?
    ensures CreateFee(svc, users, fees, newId, caller, data) == Err(Plain(RefusalMessage(svc)))
    ensures UpdateFee(svc, users, fees, caller, feeId, data) == Err(Plain(RefusalMessage(svc)))
    ensures DeleteFee(svc, users, fees, caller, feeId) == Err(Plain(RefusalMessage(svc)))
  {
  }

  ghost predicate WellFormed(fees: seq<Fee>, nextId: Id) {
    UniqueKeys(fees, FeeId) && KeysBelow(fees, FeeId, nextId)
  }

  /** The fee collection of one service. */
  class FeeTable {
    const service: FeeService
    var fees: seq<Fee>
    var nextId: Id

    ghost predicate Valid() reads this {
      WellFormed(fees, nextId)
    }

    constructor (svc: FeeService, initial: seq<Fee>, firstFreeId: Id)
      requires WellFormed(initial, firstFreeId)
      ensures Valid() && service == svc && fees == initial && nextId == firstFreeId
    {
      service := svc;
      fees := initial;
      nextId := firstFreeId;
    }

    /** `findAll`: every stored fee. */
    method FindAll() returns (r: seq<Fee>)
      ensures r == fees
    {
      r := fees;
    }

    /** `create…Fee`. */
    method Create(users: seq<Users.User>, caller: Id, data: map<string, string>) returns (r: Result<Fee>)
      requires Valid()
      modifies this
      ensures Valid()
      ensures var c := CreateFee(service, users, old(fees), old(nextId), caller, data);
        (c.Ok? ==> r == Ok(c.value.1) && fees == c.value.0 && nextId == old(nextId) + 1) &&
        (c.Err? ==> r == Err(c.failure) && fees == old(fees) && nextId == old(nextId))
    {
      var c := CreateFee(service, users, fees, nextId, caller, data);
      if c.Err? {
        return Err(c.failure);
      }
      assert forall k :: 0 <= k < |fees| ==> fees[k].id < nextId;
      fees := c.value.0;
      nextId := nextId + 1;
      r := Ok(c.value.1);
    }

    /** `update…Fee`: the loaded fee is changed in place and saved. */
    method Update(users: seq<Users.User>, caller: Id, feeId: Id, patch: map<string, string>) returns (r: Result<Fee>)
      requires Valid()
      modifies this
      ensures Valid() && nextId == old(nextId)
      ensures var c := UpdateFee(service, users, old(fees), caller, feeId, patch);
        (c.Ok? ==> r == Ok(c.value.1) && fees == c.value.0) &&
        (c.Err? ==> r == Err(c.failure) && fees == old(fees))
    {
      var c := UpdateFee(service, users, fees, caller, feeId, patch);
      if c.Err? {
        return Err(c.failure);
      }
      assert forall k :: 0 <= k < |fees| ==> FeeId(c.value.0[k]) == FeeId(fees[k]);
      fees := c.value.0;
      r := Ok(c.value.1);
    }

    /** `delete…Fee`. */
    method Delete(users: seq<Users.User>, caller: Id, feeId: Id) returns (r: Result<bool>)
      requires Valid()
      modifies this
      ensures Valid() && nextId == old(nextId)
      ensures var c := DeleteFee(service, users, old(fees), caller, feeId);
        (c.Ok? ==> r == Ok(true) && fees == c.value.0) &&
        (c.Err? ==> r == Err(c.failure) && fees == old(fees))
    {
      var c := DeleteFee(service, users, fees, caller, feeId);
      if c.Err? {
        return Err(c.failure);
      }
      var i := FeeIndex(fees, feeId).value;
      assert c.value.0 == fees[..i] + fees[i + 1..];
      fees := c.value.0;
      r := Ok(true);
    }
  }
}
