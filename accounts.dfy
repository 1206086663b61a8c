/** The account record and the outcomes the account routes report. */
module Accounts {
  import opened Identifiers

  /** `ACCOUNT_TYPE`, a closed enumeration of three members. */
  datatype AccountType = Black | Gold | Platinum

  /** The runtime value of each `ACCOUNT_TYPE` member, against which a
      patch's `type` is compared with `!==`. The enumeration is taken to be
      a string enum; the model relies only on the three values being
      distinct, non-empty strings. */
  function TypeName(t: AccountType): (s: string)
    ensures s != ""
  {
    match t
    case Black => "Black"
    case Gold => "Gold"
    case Platinum => "Platinum"
  }

  lemma TypeNameInjective(t: AccountType, u: AccountType)
    ensures TypeName(t) == TypeName(u) <==> t == u
  {
  }

  /** A stored balance. It is a number as seeded, but an update whose
      `balance` is `null` writes `null` through (`isNaN(null)` is false). */
  datatype Balance = Number(amount: real) | NullBalance

  datatype Account = Account(id: string, ownerName: string, balance: Balance, accountType: AccountType)

  /** The kinds of failure the routes report, one per thrown error. */
  datatype Error =
    | InvalidId            // the path id does not have the identifier shape
    | NotFound             // no account has the path id
    | InvalidNewId         // the patch's id is rejected
    | InvalidOwnerName     // the patch's ownerName is rejected
    | InvalidBalance       // the patch's balance is rejected
    | InvalidAccountType   // the patch's type is rejected

  datatype Option<T> = None | Some(value: T)

  datatype Result<T> = Ok(value: T) | Err(error: Error)

  /** `/^.{2,}$/`: `.` matches any code unit except a line terminator. */
  predicate IsLineTerminator(c: char)
  {
    c == '\n' || c == '\r' || c == '\U{2028}' || c == '\U{2029}'
  }

  /** `/^.{2,}$/.test(s)` */
  predicate IsValidOwnerName(s: string)
  {
    |s| >= 2 && forall i :: 0 <= i < |s| ==> !IsLineTerminator(s[i])
  }

  /** A record every field of which the update route would accept as a
      new value: a well-shaped id, a valid owner name, and a balance that
      is never a negative number (`null` being the one non-number the
      route can store). */
  predicate WellFormed(a: Account)
  {
    IsValidId(a.id) && IsValidOwnerName(a.ownerName) &&
    (a.balance.Number? ==> a.balance.amount >= 0.0)
  }

  /** No two records share an id. */
  predicate UniqueIds(s: seq<Account>)
  {
    forall i, j :: 0 <= i < j < |s| ==> s[i].id != s[j].id
  }
}
