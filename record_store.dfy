/** The in-memory collection of accounts behind the `/accounts` routes and
    the three operations on one account: fetch (`GET`), delete (`DELETE`,
    `findIndex` then `splice`) and partial update (`PUT`).

    The functions below give the outcome of each route on a store value;
    the class `AccountStore` holds the collection and its methods perform
    the routes, each proved to agree with its function. */
module RecordStore {
  import opened JsValues
  import opened Identifiers
  import opened Accounts
  import opened UpdateMerger

  /** `findIndex`: the position of the first account with the given id. */
  function FirstIndex(s: seq<Account>, id: string): (r: Option<nat>)
    ensures r.None? <==> forall k :: 0 <= k < |s| ==> s[k].id != id
    ensures r.Some? ==> r.value < |s| && s[r.value].id == id
    ensures r.Some? ==> forall k :: 0 <= k < r.value ==> s[k].id != id
  {
    if s == [] then None
    else if s[0].id == id then Some(0)
    else match FirstIndex(s[1..], id)
      case None => None
      case Some(i) => Some(i + 1)
  }

  /** `GET /accounts/:id`: the shape check comes first, then the lookup. */
  function Lookup(s: seq<Account>, id: string): (r: Result<Account>)
    ensures r == Err(InvalidId) <==> !IsValidId(id)
    ensures r == Err(NotFound) <==> IsValidId(id) && forall k :: 0 <= k < |s| ==> s[k].id != id
    ensures r.Ok? ==>
      IsValidId(id) && r.value.id == id &&
      exists i :: 0 <= i < |s| && s[i] == r.value && forall k :: 0 <= k < i ==> s[k].id != id
    ensures r.Err? ==> r.error in {InvalidId, NotFound}
    ensures r.Ok? <==> IsValidId(id) && exists k :: 0 <= k < |s| && s[k].id == id
  {
    if !IsValidId(id) then Err(InvalidId)
    else match FirstIndex(s, id)
      case None => Err(NotFound)
      case Some(i) => Ok(s[i])
  }

  /** `splice(i, 1)`: the sequence without its element at position i. */
  function RemoveAt(s: seq<Account>, i: nat): seq<Account>
    requires i < |s|
  {
    s[..i] + s[i + 1..]
  }

  /** Removing one element shrinks the sequence by one, keeps every other
      element in its relative order, and loses exactly that element. */
  lemma RemoveAtShape(s: seq<Account>, i: nat)
    requires i < |s|
    ensures |RemoveAt(s, i)| == |s| - 1
    ensures forall k :: 0 <= k < i ==> RemoveAt(s, i)[k] == s[k]
    ensures forall k :: i <= k < |s| - 1 ==> RemoveAt(s, i)[k] == s[k + 1]
    ensures multiset(RemoveAt(s, i)) + multiset{s[i]} == multiset(s)
  {
    assert s == s[..i] + [s[i]] + s[i + 1..];
  }

  /** `DELETE /accounts/:id`: the new collection, or the error reported. */
  function DeleteOutcome(s: seq<Account>, id: string): (r: Result<seq<Account>>)
    ensures r == Err(InvalidId) <==> !IsValidId(id)
    ensures r == Err(NotFound) <==> IsValidId(id) && forall k :: 0 <= k < |s| ==> s[k].id != id
    ensures r.Ok? ==> IsValidId(id) && |r.value| == |s| - 1
    ensures r.Err? ==> r.error in {InvalidId, NotFound}
    ensures r.Ok? <==> IsValidId(id) && exists k :: 0 <= k < |s| && s[k].id == id
  {
    if !IsValidId(id) then Err(InvalidId)
    else match FirstIndex(s, id)
      case None => Err(NotFound)
      case Some(i) => Ok(RemoveAt(s, i))
  }

  /** `PUT /accounts/:id`: the new collection and the updated account, or
      the error reported. The path id is checked, then the account is
      located, then the patch is validated, and only then is it merged. */
  function UpdateOutcome(s: seq<Account>, id: string, p: Patch): (r: Result<(seq<Account>, Account)>)
    ensures r == Err(InvalidId) <==> !IsValidId(id)
    ensures r == Err(NotFound) <==> IsValidId(id) && forall k :: 0 <= k < |s| ==> s[k].id != id
    ensures r.Ok? ==> IsValidId(id) && Validate(p).None? && |r.value.0| == |s|
    ensures r.Err? && r.error !in {InvalidId, NotFound} ==> Validate(p) == Some(r.error)
    ensures IsValidId(id) && (exists k :: 0 <= k < |s| && s[k].id == id) ==>
      (r.Ok? <==> Validate(p).None?) && (r.Err? ==> Validate(p) == Some(r.error))
  {
    if !IsValidId(id) then Err(InvalidId)
    else match FirstIndex(s, id)
      case None => Err(NotFound)
      case Some(i) =>
        match Validate(p)
        case Some(e) => Err(e)
        case None =>
          var a := Merge(s[i], p);
          Ok((s[i := a], a))
  }

  /** A successful delete removes exactly the first account carrying the
      id: the others keep their relative order. */
  lemma DeleteRemovesFirstMatch(s: seq<Account>, id: string)
    requires DeleteOutcome(s, id).Ok?
    ensures var t := DeleteOutcome(s, id).value;
      exists i :: 0 <= i < |s| && s[i].id == id && (forall k :: 0 <= k < i ==> s[k].id != id) &&
        t == s[..i] + s[i + 1..] &&
        multiset(t) + multiset{s[i]} == multiset(s)
  {
    var i := FirstIndex(s, id).value;
    RemoveAtShape(s, i);
  }

  /** When the id occurs only once, a deleted account can no longer be
      found, whatever duplicates other ids have. */
  lemma DeleteThenNotFound(s: seq<Account>, id: string)
    requires forall m, n :: 0 <= m < n < |s| && s[m].id == id ==> s[n].id != id
    requires DeleteOutcome(s, id).Ok?
    ensures Lookup(DeleteOutcome(s, id).value, id) == Err(NotFound)
  {
    var i := FirstIndex(s, id).value;
    var t := RemoveAt(s, i);
    RemoveAtShape(s, i);
    forall k | 0 <= k < |t| ensures t[k].id != id {
      if k < i {
        assert t[k] == s[k];
      } else {
        assert t[k] == s[k + 1];
      }
    }
  }

  /** Deleting keeps the ids unique and every remaining record well formed. */
  lemma DeletePreservesInvariants(s: seq<Account>, id: string)
    requires DeleteOutcome(s, id).Ok?
    ensures UniqueIds(s) ==> UniqueIds(DeleteOutcome(s, id).value)
    ensures (forall k :: 0 <= k < |s| ==> WellFormed(s[k])) ==>
      forall k :: 0 <= k < |s| - 1 ==> WellFormed(DeleteOutcome(s, id).value[k])
  {
    var i := FirstIndex(s, id).value;
    var t := RemoveAt(s, i);
    RemoveAtShape(s, i);
    assert forall k :: 0 <= k < |t| ==> t[k] == s[if k < i then k else k + 1];
  }

  /** A well-formed id that some account carries is found, deleted, and
      updated exactly when the patch validates; a rejected patch reports
      the error of the first failing field. */
  lemma PresentIdSucceeds(s: seq<Account>, id: string, p: Patch, k: nat)
    requires IsValidId(id) && k < |s| && s[k].id == id
    ensures Lookup(s, id).Ok? && DeleteOutcome(s, id).Ok?
    ensures UpdateOutcome(s, id, p).Ok? <==> Validate(p).None?
    ensures Validate(p).Some? ==> UpdateOutcome(s, id, p) == Err(Validate(p).value)
  {
  }

  /** Validate-then-apply: whatever the patch, a failed update reports the
      error of the first failing check and no account changes; a successful
      one replaces the first account with the path id by the merged record
      and leaves every other position as it was. */
  lemma UpdateChangesOnlyTarget(s: seq<Account>, id: string, p: Patch)
    requires UpdateOutcome(s, id, p).Ok?
    ensures var (t, a) := UpdateOutcome(s, id, p).value;
      exists i :: 0 <= i < |s| && s[i].id == id && (forall k :: 0 <= k < i ==> s[k].id != id) &&
        a == Merge(s[i], p) && t[i] == a &&
        forall k :: 0 <= k < |s| && k != i ==> t[k] == s[k]
  {
    var i := FirstIndex(s, id).value;
    assert UpdateOutcome(s, id, p).value.0 == s[i := Merge(s[i], p)];
  }

  /** An update keeps every record well formed. */
  lemma UpdatePreservesWellFormed(s: seq<Account>, id: string, p: Patch)
    requires forall k :: 0 <= k < |s| ==> WellFormed(s[k])
    requires UpdateOutcome(s, id, p).Ok?
    ensures var t := UpdateOutcome(s, id, p).value.0;
      forall k :: 0 <= k < |t| ==> WellFormed(t[k])
  {
    var i := FirstIndex(s, id).value;
    assert WellFormed(Merge(s[i], p));
  }

  /** An update keeps ids unique exactly as far as the new id, when one is
      given, is not already carried by another account; the route itself
      never checks this. */
  lemma UpdateUniqueIfFresh(s: seq<Account>, id: string, p: Patch)
    requires UniqueIds(s)
    requires UpdateOutcome(s, id, p).Ok?
    requires Truthy(p.id) ==> forall k :: 0 <= k < |s| && s[k].id != id ==> s[k].id != p.id.s
    ensures UniqueIds(UpdateOutcome(s, id, p).value.0)
  {
    var i := FirstIndex(s, id).value;
    var t := UpdateOutcome(s, id, p).value.0;
    assert t == s[i := Merge(s[i], p)];
    forall m, n | 0 <= m < n < |t| ensures t[m].id != t[n].id {
      if m == i || n == i {
        var o := if m == i then n else m;
        assert s[o].id != id;
      }
    }
  }

  /** Under the same condition, fetching the updated account by its
      (possibly new) id returns exactly the merged record. */
  lemma UpdateThenLookup(s: seq<Account>, id: string, p: Patch)
    requires UniqueIds(s)
    requires UpdateOutcome(s, id, p).Ok?
    requires Truthy(p.id) ==> forall k :: 0 <= k < |s| && s[k].id != id ==> s[k].id != p.id.s
    ensures var (t, a) := UpdateOutcome(s, id, p).value;
      Lookup(t, a.id) == Ok(a)
  {
    var i := FirstIndex(s, id).value;
    var (t, a) := UpdateOutcome(s, id, p).value;
    assert t == s[i := a];
    UpdateUniqueIfFresh(s, id, p);
    assert IsValidId(a.id);
    assert t[i].id == a.id;
    assert FirstIndex(t, a.id) == Some(i);
  }

  /** The new id is not checked against the other accounts, so an update
      can give two accounts the same id. */
  lemma UpdateCanDuplicateId()
    ensures var s := [Account("a001", "Ana", Number(10.0), Gold), Account("a002", "Bia", Number(20.0), Black)];
      var p := Patch(Str("a001"), Undefined, Undefined, Undefined);
      UniqueIds(s) && UpdateOutcome(s, "a002", p).Ok? && !UniqueIds(UpdateOutcome(s, "a002", p).value.0)
  {
    var s := [Account("a001", "Ana", Number(10.0), Gold), Account("a002", "Bia", Number(20.0), Black)];
    var p := Patch(Str("a001"), Undefined, Undefined, Undefined);
    assert FirstIndex(s, "a002") == Some(1);
    var t := UpdateOutcome(s, "a002", p).value.0;
    assert t[0].id == t[1].id;
  }

  /** Four single-record updates: a one-character owner name is rejected;
      a zero balance is accepted and written; a type outside the
      enumeration rejects the whole patch although its other fields are
      valid; and a full valid patch replaces all four fields. */
  lemma UpdateExamples(a: Account)
    requires IsValidId(a.id)
    ensures var s := [a];
      UpdateOutcome(s, a.id, Patch(Undefined, Str("A"), Undefined, Undefined)) == Err(InvalidOwnerName) &&
      UpdateOutcome(s, a.id, Patch(Undefined, Undefined, Num(0.0), Undefined)).Ok? &&
      UpdateOutcome(s, a.id, Patch(Undefined, Undefined, Num(0.0), Undefined)).value.1 == a.(balance := Number(0.0)) &&
      UpdateOutcome(s, a.id, Patch(Str("a999"), Str("Valid Name"), Num(500.0), Str("SILVER"))) == Err(InvalidAccountType) &&
      UpdateOutcome(s, a.id, Patch(Str("a999"), Str("Valid Name"), Num(500.0), Str(TypeName(Gold)))) ==
        Ok(([Account("a999", "Valid Name", Number(500.0), Gold)], Account("a999", "Valid Name", Number(500.0), Gold)))
  {
    var s := [a];
    assert FirstIndex(s, a.id) == Some(0);
    assert IsValidOwnerName("Valid Name");
    assert IsValidId("a999");
    assert !IsValidOwnerName("A");
    var full := Patch(Str("a999"), Str("Valid Name"), Num(500.0), Str(TypeName(Gold)));
    assert TypeOf(full.accountType) == Some(Gold);
    assert Validate(full).None?;
    var b := Account("a999", "Valid Name", Number(500.0), Gold);
    assert Merge(a, full) == b;
    assert s[0 := b] == [b];
  }

  /** The account collection, updated in place by the routes. */
  class AccountStore {
    var accounts: seq<Account>

    /** The collection as seeded at start-up. */
    constructor (seed: seq<Account>)
      ensures accounts == seed
    {
      accounts := seed;
    }

    /** `GET /accounts`: the whole collection in store order. */
    method List() returns (r: seq<Account>)
      ensures r == accounts
    {
      r := accounts;
    }

    /** `findIndex` by id: -1 when no account has the id, otherwise the
        position of the first one that does. */
    method IndexOf(id: string) returns (i: int)
      ensures -1 <= i < |accounts|
      ensures i < 0 <==> forall k :: 0 <= k < |accounts| ==> accounts[k].id != id
      ensures 0 <= i ==> accounts[i].id == id && forall k :: 0 <= k < i ==> accounts[k].id != id
      ensures i == match FirstIndex(accounts, id) case None => -1 case Some(j) => j
    {
      i := 0;
      while i < |accounts|
        invariant 0 <= i <= |accounts|
        invariant forall k :: 0 <= k < i ==> accounts[k].id != id
      {
        if accounts[i].id == id {
          return;
        }
        i := i + 1;
      }
      i := -1;
    }

    /** `GET /accounts/:id` */
    method Get(id: string) returns (r: Result<Account>)
      ensures r == Lookup(accounts, id)
    {
      if !IsValidId(id) {
        return Err(InvalidId);
      }
      var i := IndexOf(id);
      if i < 0 {
        return Err(NotFound);
      }
      r := Ok(accounts[i]);
    }

    /** `DELETE /accounts/:id` */
    method Delete(id: string) returns (r: Result<()>)
      modifies this
      ensures match DeleteOutcome(old(accounts), id)
        case Ok(t) => r.Ok? && accounts == t
        case Err(e) => r == Err(e) && accounts == old(accounts)
    {
      if !IsValidId(id) {
        return Err(InvalidId);
      }
      var i := IndexOf(id);
      if i < 0 {
        return Err(NotFound);
      }
      accounts := RemoveAt(accounts, i);
      r := Ok(());
    }

    /** `PUT /accounts/:id`: every check runs before any field is written. */
    method Update(id: string, p: Patch) returns (r: Result<Account>)
      modifies this
      ensures match UpdateOutcome(old(accounts), id, p)
        case Ok((t, a)) => r == Ok(a) && accounts == t
        case Err(e) => r == Err(e) && accounts == old(accounts)
    {
      if !IsValidId(id) {
        return Err(InvalidId);
      }
      var i := IndexOf(id);
      if i < 0 {
        return Err(NotFound);
      }
      var e := CheckNewId(p.id);
      if e.Some? {
        return Err(e.value);
      }
      e := CheckOwnerName(p.ownerName);
      if e.Some? {
        return Err(e.value);
      }
      e := CheckBalance(p.balance);
      if e.Some? {
        return Err(e.value);
      }
      e := CheckType(p.accountType);
      if e.Some? {
        return Err(e.value);
      }
      // The account is looked up a second time before the assignments.
      var j := IndexOf(id);
      if 0 <= j {
        var merged := Merge(accounts[j], p);
        accounts := accounts[j := merged];
        r := Ok(merged);
      } else {
        assert false;
      }
    }
  }
}
