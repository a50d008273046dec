/**
 * Client code that drives the slices through the request sequences the
 * dashboard performs and checks, from the contracts alone, what a user of the
 * store observes.
 */
module Scenarios {
  import opened Wrappers
  import opened Records
  import opened Requests
  import opened Storage
  import opened ResourceSlice
  import opened AuthSlice

  /** A login rejected with "Invalid credentials" leaves the session unauthenticated and storage alone. */
  method LoginWithWrongPassword() {
    var storage := new LocalStorage(map[]);
    var session := new Session(storage);
    session.LoginPending();
    assert session.isLoading && session.error == None;
    session.LoginRejected(Some("Invalid credentials"));
    assert session.error == Some("Invalid credentials");
    assert !session.isAuthenticated && !session.isLoading;
    assert storage.entries == map[];
  }

  /** A rejected login after an earlier one keeps the earlier user and token, and the stored token. */
  method RejectedLoginKeepsCredentials(admin: User) {
    var storage := new LocalStorage(map[]);
    var session := new Session(storage);
    session.LoginPending();
    session.LoginFulfilled(Credentials(admin, "t1"));
    session.LoginPending();
    session.LoginRejected(None);
    assert session.error == Some(LoginFallback);
    assert session.user == Some(admin) && session.token == Some("t1");
    assert !session.isAuthenticated;
    assert storage.GetItem(TokenKey) == Some("t1");
  }

  /** Products and categories requests carry the header only while a token is stored; users requests always do. */
  method HeadersFollowStoredToken(admin: User) {
    var storage := new LocalStorage(map[]);
    var session := new Session(storage);
    assert storage.GetItem(TokenKey) == None;
    assert "Bearer " + "null" == "Bearer null";
    assert AuthHeaders(Products, storage.GetItem(TokenKey)) == map[];
    assert AuthHeaders(Users, storage.GetItem(TokenKey)) == map[AuthorizationHeader := "Bearer null"];
    session.LoginFulfilled(Credentials(admin, "abc"));
    assert storage.GetItem(TokenKey) == Some("abc");
    assert "Bearer " + "abc" == "Bearer abc";
    assert AuthHeaders(Categories, storage.GetItem(TokenKey)) == map[AuthorizationHeader := "Bearer abc"];
    session.LogoutFulfilled();
    assert storage.GetItem(TokenKey) == None;
    assert "Bearer " + "null" == "Bearer null";
    assert AuthHeaders(Products, storage.GetItem(TokenKey)) == map[];
    assert AuthHeaders(Users, storage.GetItem(TokenKey)) == map[AuthorizationHeader := "Bearer null"];
  }

  /** Creating "Breads", to which the server gives the fresh id 7, adds exactly one category with id 7. */
  method CreateBreads(existing: seq<Category>)
    requires UniqueIds(existing, CategoryId)
    requires forall k :: 0 <= k < |existing| ==> existing[k].id != 7
  {
    var categories := new Slice<Category>(Categories, CategoryId);
    categories.Pending();
    categories.FetchAllFulfilled(existing);
    categories.Pending();
    var breads := Category(7, Some("Breads"), true, Some("2024-01-01"));
    categories.CreateFulfilled(breads);
    assert categories.items == existing + [breads];
    CreateFreshKeepsUnique(existing, CategoryId, breads);
    assert CountId(categories.items, CategoryId, 7) == 1;
    assert UniqueIds(categories.items, CategoryId);
    assert categories.error == None && !categories.isLoading;
  }

  /** Updating product 3 puts the server's whole record in place of the old one, keeping the list's length. */
  method UpdateProductStock(before: Product, after: Product) {
    var products := new Slice<Product>(Products, ProductId);
    var old3 := before.(id := 3, stock := Some(5));
    var new3 := after.(id := 3, stock := Some(0));
    products.FetchAllFulfilled([old3]);
    products.FetchByIdFulfilled(old3);
    products.Pending();
    products.UpdateFulfilled(new3);
    assert FirstWithId([old3], ProductId, 3) == 0;
    assert products.items == [new3];
    assert products.selected == Some(new3);
  }

  /** Deleting user 2 while it is selected clears the selection and leaves no user 2. */
  method DeleteSelectedUser(users: seq<User>, two: User)
    requires two.id == 2 && two in users
  {
    var slice := new Slice<User>(Users, UserId);
    slice.FetchAllFulfilled(users);
    slice.FetchByIdFulfilled(two);
    slice.Pending();
    slice.DeleteFulfilled(2);
    assert slice.selected == None;
    assert slice.items == Removed(users, UserId, 2);
    RemovedCounts(users, UserId, 2, 2);
    assert CountId(slice.items, UserId, 2) == 0;
  }

  /** A failed delete leaves list and selection as they were and reports the fallback message. */
  method DeleteRejected(users: seq<User>, chosen: User) {
    var slice := new Slice<User>(Users, UserId);
    slice.FetchAllFulfilled(users);
    slice.FetchByIdFulfilled(chosen);
    slice.Pending();
    slice.Rejected(Delete, Some(""));
    assert slice.items == users && slice.selected == Some(chosen);
    assert slice.error == Some("Failed to delete user");
    slice.ClearError();
    slice.ClearError();
    assert slice.error == None && slice.items == users && slice.selected == Some(chosen) && !slice.isLoading;
  }
}
