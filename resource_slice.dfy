/**
 * The resource-collection reducer that the categories, products and users
 * slices each spell out with identical structure. One generic class stands for
 * all three: `idOf` reads a record's server-assigned identifier and `resource`
 * selects the per-slice fallback messages and authorization-header rule.
 */
module ResourceSlice {
  import opened Wrappers
  import opened Sequences
  import opened Requests

  datatype Resource = Categories | Products | Users

  /** The five request kinds each slice dispatches. */
  datatype Operation = FetchAll | FetchById | Create | Update | Delete

  /** The message a rejected request carries when the server body has no `error` field. */
  function Fallback(resource: Resource, op: Operation): (m: string)
    ensures |m| > 10 && m[..10] == "Failed to "
  {
    match (resource, op)
    case (Categories, FetchAll) => "Failed to fetch categories"
    case (Categories, FetchById) => "Failed to fetch category"
    case (Categories, Create) => "Failed to create category"
    case (Categories, Update) => "Failed to update category"
    case (Categories, Delete) => "Failed to delete category"
    case (Products, FetchAll) => "Failed to fetch products"
    case (Products, FetchById) => "Failed to fetch product"
    case (Products, Create) => "Failed to create product"
    case (Products, Update) => "Failed to update product"
    case (Products, Delete) => "Failed to delete product"
    case (Users, FetchAll) => "Failed to fetch users"
    case (Users, FetchById) => "Failed to fetch user"
    case (Users, Create) => "Failed to create user"
    case (Users, Update) => "Failed to update user"
    case (Users, Delete) => "Failed to delete user"
  }

  /** Every rejected request leaves a non-empty message, whatever the server sent. */
  lemma RejectionNeverSilent(resource: Resource, op: Operation, serverError: Option<string>)
    ensures RejectionMessage(serverError, Fallback(resource, op)) != ""
  {
  }

  const AuthorizationHeader: string := "Authorization"

  /**
   * `getAuthHeaders`, given what storage holds under "token". The categories and
   * products slices attach the header only for a non-empty token; the users
   * slice always attaches it, writing the missing token as "null".
   */
  function AuthHeaders(resource: Resource, stored: Option<string>): (h: map<string, string>)
    ensures h.Keys <= {AuthorizationHeader}
    ensures resource == Users ==> AuthorizationHeader in h
    ensures resource != Users ==>
      (AuthorizationHeader in h <==> stored.Some? && stored.value != "")
    ensures AuthorizationHeader in h ==>
      h[AuthorizationHeader] == "Bearer " + stored.GetOr("null")
  {
    if resource == Users then
      map[AuthorizationHeader := "Bearer " + stored.GetOr("null")]
    else if stored.Some? && stored.value != "" then
      map[AuthorizationHeader := "Bearer " + stored.value]
    else
      map[]
  }

  /** With a non-empty token stored, all three slices send the same header. */
  lemma AuthHeadersAgreeOnToken(token: string)
    requires token != ""
    ensures AuthHeaders(Categories, Some(token)) == AuthHeaders(Users, Some(token))
    ensures AuthHeaders(Products, Some(token)) == AuthHeaders(Users, Some(token))
  {
  }

  // ---------------------------------------------------------------------------
  // Identifiers in a list

  /** How many records in `s` carry identifier `id`. */
  function CountId<T>(s: seq<T>, idOf: T -> int, id: int): nat
    decreases |s|
  {
    if s == [] then 0 else (if idOf(s[0]) == id then 1 else 0) + CountId(s[1..], idOf, id)
  }

  /** The intended invariant that no identifier occurs twice (the reducers do not enforce it). */
  ghost predicate UniqueIds<T>(s: seq<T>, idOf: T -> int) {
    forall i, j :: 0 <= i < j < |s| ==> idOf(s[i]) != idOf(s[j])
  }

  /** The identifiers of `s`, in order. */
  function IdsOf<T>(s: seq<T>, idOf: T -> int): (r: seq<int>)
    ensures |r| == |s| && forall i :: 0 <= i < |s| ==> r[i] == idOf(s[i])
  {
    seq(|s|, i requires 0 <= i < |s| => idOf(s[i]))
  }

  /** No record carries `id` exactly when the count of `id` is zero. */
  lemma {:induction false} CountZeroIffAbsent<T>(s: seq<T>, idOf: T -> int, id: int)
    ensures CountId(s, idOf, id) == 0 <==> forall k :: 0 <= k < |s| ==> idOf(s[k]) != id
    decreases |s|
  {
    if s != [] {
      CountZeroIffAbsent(s[1..], idOf, id);
      assert forall k :: 1 <= k < |s| ==> s[1..][k - 1] == s[k];
    }
  }

  /** The count of an identifier depends only on the identifiers, in any order of records. */
  lemma {:induction false} CountIdFromIds<T>(s: seq<T>, t: seq<T>, idOf: T -> int, id: int)
    requires IdsOf(s, idOf) == IdsOf(t, idOf)
    ensures CountId(s, idOf, id) == CountId(t, idOf, id)
    decreases |s|
  {
    if s != [] {
      assert idOf(s[0]) == IdsOf(s, idOf)[0] == IdsOf(t, idOf)[0] == idOf(t[0]);
      assert IdsOf(s[1..], idOf) == IdsOf(s, idOf)[1..];
      assert IdsOf(t[1..], idOf) == IdsOf(t, idOf)[1..];
      CountIdFromIds(s[1..], t[1..], idOf, id);
    }
  }

  // ---------------------------------------------------------------------------
  // The list operations of the fulfilled cases

  /** The position `findIndex` gives for the first record with identifier `id`, or -1. */
  function FirstWithId<T>(s: seq<T>, idOf: T -> int, id: int): (i: int)
    ensures -1 <= i < |s|
    ensures i == -1 <==> forall k :: 0 <= k < |s| ==> idOf(s[k]) != id
    ensures 0 <= i ==> idOf(s[i]) == id && forall k :: 0 <= k < i ==> idOf(s[k]) != id
  {
    FindIndex(s, (y: T) => idOf(y) == id)
  }

  /**
   * The list after an update is fulfilled: the first record whose identifier is
   * that of `x` becomes `x`; with no such record the list is unchanged.
   */
  function Replaced<T>(s: seq<T>, idOf: T -> int, x: T): (r: seq<T>)
    ensures |r| == |s|
    ensures (forall k :: 0 <= k < |s| ==> idOf(s[k]) != idOf(x)) ==> r == s
    ensures (exists k :: 0 <= k < |s| && idOf(s[k]) == idOf(x)) ==> x in r
    ensures FirstWithId(s, idOf, idOf(x)) != -1 ==> r == s[FirstWithId(s, idOf, idOf(x)) := x]
    ensures forall k :: 0 <= k < |s| && r[k] != s[k] ==>
      k == FirstWithId(s, idOf, idOf(x)) && r[k] == x
  {
    var i := FirstWithId(s, idOf, idOf(x));
    if i == -1 then s
    else
      var r := s[i := x];
      assert r[i] == x;
      r
  }

  /** The list after a delete is fulfilled: every record with identifier `id` dropped. */
  function Removed<T(!new)>(s: seq<T>, idOf: T -> int, id: int): (r: seq<T>)
    ensures forall x :: x in r <==> x in s && idOf(x) != id
  {
    Filter(s, (y: T) => idOf(y) != id)
  }

  /** Create appends: the appended record's identifier gains one occurrence, no other changes. */
  lemma {:induction false} AppendedCounts<T>(s: seq<T>, idOf: T -> int, x: T, id: int)
    ensures CountId(s + [x], idOf, id) == CountId(s, idOf, id) + (if idOf(x) == id then 1 else 0)
    decreases |s|
  {
    if s == [] {
      assert [] + [x] == [x];
      assert [x][1..] == [];
    } else {
      assert (s + [x])[1..] == s[1..] + [x];
      AppendedCounts(s[1..], idOf, x, id);
    }
  }

  /**
   * When the server assigns a fresh identifier, create keeps identifiers unique
   * and the new identifier occurs exactly once.
   */
  lemma CreateFreshKeepsUnique<T>(s: seq<T>, idOf: T -> int, x: T)
    requires UniqueIds(s, idOf)
    requires forall k :: 0 <= k < |s| ==> idOf(s[k]) != idOf(x)
    ensures UniqueIds(s + [x], idOf)
    ensures CountId(s + [x], idOf, idOf(x)) == 1
  {
    CountZeroIffAbsent(s, idOf, idOf(x));
    AppendedCounts(s, idOf, x, idOf(x));
  }

  /** Update never changes which identifiers the list holds, nor their order. */
  lemma ReplacedKeepsIds<T>(s: seq<T>, idOf: T -> int, x: T)
    ensures IdsOf(Replaced(s, idOf, x), idOf) == IdsOf(s, idOf)
  {
  }

  /** So update keeps identifiers unique and every identifier's count. */
  lemma ReplacedKeepsUnique<T>(s: seq<T>, idOf: T -> int, x: T, id: int)
    requires UniqueIds(s, idOf)
    ensures UniqueIds(Replaced(s, idOf, x), idOf)
    ensures CountId(Replaced(s, idOf, x), idOf, id) == CountId(s, idOf, id)
  {
    var r := Replaced(s, idOf, x);
    ReplacedKeepsIds(s, idOf, x);
    assert forall k :: 0 <= k < |s| ==> idOf(r[k]) == IdsOf(r, idOf)[k] == idOf(s[k]);
    CountIdFromIds(r, s, idOf, id);
  }

  /** Delete leaves no record with the deleted identifier and every other identifier's count unchanged. */
  lemma {:induction false} RemovedCounts<T(!new)>(s: seq<T>, idOf: T -> int, id: int, other: int)
    ensures CountId(Removed(s, idOf, id), idOf, other) == if other == id then 0 else CountId(s, idOf, other)
    decreases |s|
  {
    if s != [] {
      RemovedCounts(s[1..], idOf, id, other);
      var rest := Removed(s[1..], idOf, id);
      if idOf(s[0]) != id {
        assert Removed(s, idOf, id) == [s[0]] + rest;
        assert ([s[0]] + rest)[1..] == rest;
      } else {
        assert Removed(s, idOf, id) == rest;
      }
    }
  }

  /** Delete keeps the survivors in their original order. */
  lemma RemovedIsSubsequence<T(!new)>(s: seq<T>, idOf: T -> int, id: int)
    ensures Subsequence(Removed(s, idOf, id), s)
  {
    FilterIsSubsequence(s, (y: T) => idOf(y) != id);
  }

  /** One step of delete's filter: the head survives exactly when its identifier differs. */
  lemma RemovedCons<T(!new)>(s: seq<T>, idOf: T -> int, id: int)
    requires s != []
    ensures Removed(s, idOf, id) ==
      (if idOf(s[0]) != id then [s[0]] else []) + Removed(s[1..], idOf, id)
  {
  }

  /** Putting a record in front of a list keeps identifiers unique when its identifier is new. */
  lemma UniqueCons<T>(a: T, r: seq<T>, idOf: T -> int)
    requires UniqueIds(r, idOf)
    requires forall k :: 0 <= k < |r| ==> idOf(r[k]) != idOf(a)
    ensures UniqueIds([a] + r, idOf)
  {
    var c := [a] + r;
    forall i, j | 0 <= i < j < |c|
      ensures idOf(c[i]) != idOf(c[j])
    {
      assert c[j] == r[j - 1];
      if i > 0 {
        assert c[i] == r[i - 1];
      }
    }
  }

  /** Delete keeps identifiers unique. */
  lemma {:induction false} RemovedKeepsUnique<T(!new)>(s: seq<T>, idOf: T -> int, id: int)
    requires UniqueIds(s, idOf)
    ensures UniqueIds(Removed(s, idOf, id), idOf)
    decreases |s|
  {
    if s != [] {
      var tail := s[1..];
      assert UniqueIds(tail, idOf);
      RemovedKeepsUnique(tail, idOf, id);
      RemovedCons(s, idOf, id);
      var rest := Removed(tail, idOf, id);
      if idOf(s[0]) != id {
        forall k | 0 <= k < |rest|
          ensures idOf(rest[k]) != idOf(s[0])
        {
          assert rest[k] in tail;
          var m :| 0 <= m < |tail| && tail[m] == rest[k];
          assert s[m + 1] == rest[k];
        }
        UniqueCons(s[0], rest, idOf);
        assert Removed(s, idOf, id) == [s[0]] + rest;
      } else {
        assert Removed(s, idOf, id) == [] + rest;
      }
    }
  }

  // ---------------------------------------------------------------------------
  // The slice state and its case reducers

  /**
   * The state `{items, selected, isLoading, error}` of one slice. Each request
   * runs `Pending` and then one of its fulfilled cases or `Rejected`; the
   * transitions are applied one at a time.
   */
  class Slice<T(!new)> {
    const resource: Resource
    const idOf: T -> int
    var items: seq<T>
    var selected: Option<T>
    var isLoading: bool
    var error: Option<string>

    /** The initial state: an empty list, nothing selected, not loading, no error. */
    constructor (resource: Resource, idOf: T -> int)
      ensures this.resource == resource && this.idOf == idOf
      ensures items == [] && selected == None && !isLoading && error == None
    {
      this.resource := resource;
      this.idOf := idOf;
      items := [];
      selected := None;
      isLoading := false;
      error := None;
    }

    /** `clearError`: only `error` changes. */
    method ClearError()
      modifies this`error
      ensures error == None
    {
      error := None;
    }

    /** `clearSelectedCategory` / `clearSelectedProduct` / `clearSelectedUser`. */
    method ClearSelected()
      modifies this`selected
      ensures selected == None
    {
      selected := None;
    }

    /** The `pending` case, the same for all five operations: list and selection untouched. */
    method Pending()
      modifies this`isLoading, this`error
      ensures isLoading && error == None
    {
      isLoading := true;
      error := None;
    }

    /** The `rejected` case of operation `op`: list and selection untouched. */
    method Rejected(op: Operation, serverError: Option<string>)
      modifies this`isLoading, this`error
      ensures !isLoading
      ensures error == Some(RejectionMessage(serverError, Fallback(resource, op)))
      ensures error.Some? && error.value != ""
    {
      RejectionNeverSilent(resource, op, serverError);
      isLoading := false;
      error := Some(RejectionMessage(serverError, Fallback(resource, op)));
    }

    /** Fetch-all fulfilled: the list becomes exactly the payload; `error` is left as it was. */
    method FetchAllFulfilled(payload: seq<T>)
      modifies this`isLoading, this`items
      ensures !isLoading && items == payload
    {
      isLoading := false;
      items := payload;
    }

    /** Get-by-id fulfilled: the payload becomes the selection; the list is untouched. */
    method FetchByIdFulfilled(payload: T)
      modifies this`isLoading, this`selected
      ensures !isLoading && selected == Some(payload)
    {
      isLoading := false;
      selected := Some(payload);
    }

    /** Create fulfilled: the payload is pushed onto the end of the list. */
    method CreateFulfilled(payload: T)
      modifies this`isLoading, this`items
      ensures !isLoading
      ensures |items| == |old(items)| + 1 && items[..|old(items)|] == old(items)
      ensures items[|old(items)|] == payload
    {
      isLoading := false;
      items := items + [payload];
    }

    /**
     * Update fulfilled: the first record with the payload's identifier is
     * overwritten, and a selection with that identifier is refreshed.
     */
    method UpdateFulfilled(payload: T)
      modifies this`isLoading, this`items, this`selected
      ensures !isLoading
      ensures items == Replaced(old(items), idOf, payload)
      ensures old(selected).Some? && idOf(old(selected).value) == idOf(payload) ==> selected == Some(payload)
      ensures !(old(selected).Some? && idOf(old(selected).value) == idOf(payload)) ==> selected == old(selected)
    {
      isLoading := false;
      var index := FirstWithId(items, idOf, idOf(payload));
      if index != -1 {
        items := items[index := payload];
      }
      if selected.Some? && idOf(selected.value) == idOf(payload) {
        selected := Some(payload);
      }
    }

    /**
     * Delete fulfilled for the requested identifier `id`: every record with
     * that identifier is filtered out, and a selection with it is cleared.
     */
    method DeleteFulfilled(id: int)
      modifies this`isLoading, this`items, this`selected
      ensures !isLoading
      ensures items == Removed(old(items), idOf, id)
      ensures old(selected).Some? && idOf(old(selected).value) == id ==> selected == None
      ensures !(old(selected).Some? && idOf(old(selected).value) == id) ==> selected == old(selected)
    {
      isLoading := false;
      items := Removed(items, idOf, id);
      if selected.Some? && idOf(selected.value) == id {
        selected := None;
      }
    }
  }
}
