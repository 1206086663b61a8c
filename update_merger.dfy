/** The partial-update engine of `PUT /accounts/:id`: the four optional
    fields of the request body are checked one after another, in the order
    id, ownerName, balance, type, and only when every check passes are the
    accepted fields written onto the located record.

    The presence rules are JavaScript truthiness, and they differ per
    field: `0` and `""` are rejected outright as a new id or owner name,
    while any other falsy value (absent, `null`, `false`) keeps the old
    value; a balance is checked whenever it is neither `null` nor absent,
    so `0` is a valid new balance. */
module UpdateMerger {
  import opened JsValues
  import opened Identifiers
  import opened Accounts

  /** The request body's fields; a field the body lacks is `Undefined`. */
  datatype Patch = Patch(id: JsValue, ownerName: JsValue, balance: JsValue, accountType: JsValue)

  /** The body with none of the four fields. */
  const EmptyPatch := Patch(Undefined, Undefined, Undefined, Undefined)

  /** The new id: a truthy value must be a string of identifier shape;
      `0` and `""` are rejected; other falsy values are let through. */
  function CheckNewId(v: JsValue): (r: Option<Error>)
    ensures r.None? <==> (v.Str? && IsValidId(v.s)) || v in {Undefined, Null, Bool(false)}
    ensures r.Some? ==> r.value == InvalidNewId
  {
    if Truthy(v) then
      if v.Str? then
        if IsValidId(v.s) then None else Some(InvalidNewId)
      else
        Some(InvalidNewId)
    else if v == Num(0.0) || v == Str("") then
      Some(InvalidNewId)
    else
      None
  }

  /** The new owner name: a truthy value must be a string of at least two
      code units with no line terminator; `0` and `""` are rejected; other
      falsy values are let through. */
  function CheckOwnerName(v: JsValue): (r: Option<Error>)
    ensures r.None? <==> (v.Str? && IsValidOwnerName(v.s)) || v in {Undefined, Null, Bool(false)}
    ensures r.Some? ==> r.value == InvalidOwnerName
  {
    if Truthy(v) then
      if v.Str? then
        if IsValidOwnerName(v.s) then None else Some(InvalidOwnerName)
      else
        Some(InvalidOwnerName)
    else if v == Num(0.0) || v == Str("") then
      Some(InvalidOwnerName)
    else
      None
  }

  /** The new balance: anything but `null` and absence must be a number
      that is not negative. Zero is accepted. */
  function CheckBalance(v: JsValue): (r: Option<Error>)
    ensures r.None? <==> v in {Undefined, Null} || (v.Num? && v.n >= 0.0)
    ensures r.Some? ==> r.value == InvalidBalance
  {
    if !IsNullish(v) then
      if !v.Num? || v.n < 0.0 then Some(InvalidBalance) else None
    else
      None
  }

  /** The member of `ACCOUNT_TYPE` a value is strictly equal to, if any. */
  function TypeOf(v: JsValue): (r: Option<AccountType>)
    ensures r.Some? <==> exists t :: v == Str(TypeName(t))
    ensures r.Some? ==> v == Str(TypeName(r.value))
  {
    if v == Str(TypeName(Black)) then Some(Black)
    else if v == Str(TypeName(Gold)) then Some(Gold)
    else if v == Str(TypeName(Platinum)) then Some(Platinum)
    else None
  }

  /** The new type: a truthy value must equal one of the three members. */
  function CheckType(v: JsValue): (r: Option<Error>)
    ensures r.None? <==> !Truthy(v) || exists t :: v == Str(TypeName(t))
    ensures r.Some? ==> r.value == InvalidAccountType
  {
    if Truthy(v) then
      if TypeOf(v).None? then Some(InvalidAccountType) else None
    else
      None
  }

  /** All four checks in the source's order; the first one that fails
      decides the error. */
  function Validate(p: Patch): (r: Option<Error>)
    ensures r.None? <==>
      CheckNewId(p.id).None? && CheckOwnerName(p.ownerName).None? &&
      CheckBalance(p.balance).None? && CheckType(p.accountType).None?
    ensures r == Some(InvalidNewId) <==> CheckNewId(p.id).Some?
    ensures r == Some(InvalidOwnerName) <==>
      CheckNewId(p.id).None? && CheckOwnerName(p.ownerName).Some?
    ensures r == Some(InvalidBalance) <==>
      CheckNewId(p.id).None? && CheckOwnerName(p.ownerName).None? && CheckBalance(p.balance).Some?
    ensures r == Some(InvalidAccountType) <==>
      CheckNewId(p.id).None? && CheckOwnerName(p.ownerName).None? &&
      CheckBalance(p.balance).None? && CheckType(p.accountType).Some?
    ensures r.Some? ==> r.value in {InvalidNewId, InvalidOwnerName, InvalidBalance, InvalidAccountType}
  {
    if CheckNewId(p.id).Some? then CheckNewId(p.id)
    else if CheckOwnerName(p.ownerName).Some? then CheckOwnerName(p.ownerName)
    else if CheckBalance(p.balance).Some? then CheckBalance(p.balance)
    else CheckType(p.accountType)
  }

  /** `isNaN(v) ? current : v` for the balances validation lets through:
      `isNaN(undefined)` is true, so the old balance stays; `isNaN(null)`
      is false, so `null` is written; a number is written. */
  function NewBalance(current: Balance, v: JsValue): (b: Balance)
    requires CheckBalance(v).None?
    ensures v.Undefined? ==> b == current
    ensures v.Null? ==> b.NullBalance?
    ensures v.Num? ==> b.Number? && b.amount == v.n && b.amount >= 0.0
  {
    match v
    case Undefined => current
    case Null => NullBalance
    case Num(n) => Number(n)
  }

  /** The field assignments, `field = new || field` for id, ownerName and
      type and the `isNaN` rule for balance, onto a validated patch. */
  function Merge(a: Account, p: Patch): (r: Account)
    requires Validate(p).None?
    ensures Truthy(p.id) ==> IsValidId(r.id) && p.id == Str(r.id)
    ensures !Truthy(p.id) ==> r.id == a.id
    ensures Truthy(p.ownerName) ==> IsValidOwnerName(r.ownerName) && p.ownerName == Str(r.ownerName)
    ensures !Truthy(p.ownerName) ==> r.ownerName == a.ownerName
    ensures Truthy(p.accountType) ==> p.accountType == Str(TypeName(r.accountType))
    ensures !Truthy(p.accountType) ==> r.accountType == a.accountType
    ensures r.balance == NewBalance(a.balance, p.balance)
    ensures WellFormed(a) ==> WellFormed(r)
  {
    Account(
      if Truthy(p.id) then p.id.s else a.id,
      if Truthy(p.ownerName) then p.ownerName.s else a.ownerName,
      NewBalance(a.balance, p.balance),
      if Truthy(p.accountType) then TypeOf(p.accountType).value else a.accountType)
  }

  /** Applying the same patch twice changes nothing the first application
      did not: a repeated update is harmless. */
  lemma MergeIdempotent(a: Account, p: Patch)
    requires Validate(p).None?
    ensures Merge(Merge(a, p), p) == Merge(a, p)
  {
  }

  /** A body without any of the four fields leaves the record as it was. */
  lemma MergeEmptyPatch(a: Account)
    ensures Validate(EmptyPatch).None? && Merge(a, EmptyPatch) == a
  {
  }

  /** A patch is accepted exactly when each field is either one the
      update lets through as "not supplied" or a well-formed value. */
  lemma ValidateAccepts(p: Patch)
    ensures Validate(p).None? <==>
      ((p.id.Str? && IsValidId(p.id.s)) || p.id in {Undefined, Null, Bool(false)}) &&
      ((p.ownerName.Str? && IsValidOwnerName(p.ownerName.s)) || p.ownerName in {Undefined, Null, Bool(false)}) &&
      (p.balance in {Undefined, Null} || (p.balance.Num? && p.balance.n >= 0.0)) &&
      (!Truthy(p.accountType) || exists t :: p.accountType == Str(TypeName(t)))
  {
  }

  /** The asymmetry between the fields: `0` is rejected as an id and as an
      owner name, but is a valid balance; `""` is rejected as an id and as
      an owner name; a falsy type is simply not applied. */
  lemma FalsyAsymmetry(a: Account)
    ensures CheckNewId(Num(0.0)) == Some(InvalidNewId) && CheckNewId(Str("")) == Some(InvalidNewId)
    ensures CheckOwnerName(Num(0.0)) == Some(InvalidOwnerName) && CheckOwnerName(Str("")) == Some(InvalidOwnerName)
    ensures CheckBalance(Num(0.0)).None? && CheckType(Num(0.0)).None? && CheckType(Str("")).None?
    ensures Merge(a, Patch(Undefined, Undefined, Num(0.0), Undefined)) == a.(balance := Number(0.0))
    ensures Merge(a, Patch(Null, Bool(false), Undefined, Num(0.0))) == a
  {
  }

  /** `{"balance": null}` passes validation and writes `null` as the new
      balance. */
  lemma NullBalanceWritten(a: Account)
    ensures Validate(Patch(Undefined, Undefined, Null, Undefined)).None?
    ensures Merge(a, Patch(Undefined, Undefined, Null, Undefined)) == a.(balance := NullBalance)
  {
  }
}
