/** The in-memory helpers of the users page: filtering, role labels, and the update payload. */
module UsersPage {
  import opened Wrappers
  import opened Sequences
  import opened Records
  import opened Requests
  import opened ListView

  /** `roleFilter === '' || user.role === roleFilter`. */
  predicate RoleMatches(filter: string, role: string) {
    filter == "" || role == filter
  }

  /** An empty role filter passes every user; any other value passes exactly the users with that role. */
  lemma RoleFilterCases(filter: string, role: string)
    ensures filter == "" ==> RoleMatches(filter, role)
    ensures filter != "" ==> (RoleMatches(filter, role) <==> role == filter)
  {
  }

  /** The three tests of `filteredUsers`, all of which must pass. */
  predicate UserPasses(u: User, term: string, roleFilter: string, statusFilter: string) {
    SearchMatches(u.username, term) && RoleMatches(roleFilter, u.role) && StatusMatches(statusFilter, u.isActive)
  }

  /** `filteredUsers`: the users passing all three tests, in list order, each as often as listed. */
  function FilteredUsers(users: seq<User>, term: string, roleFilter: string, statusFilter: string): (r: seq<User>)
    ensures Subsequence(r, users)
    ensures forall u :: u in r <==> u in users && UserPasses(u, term, roleFilter, statusFilter)
    ensures forall u ::
      multiset(r)[u] == if UserPasses(u, term, roleFilter, statusFilter) then multiset(users)[u] else 0
  {
    var passes := (u: User) => UserPasses(u, term, roleFilter, statusFilter);
    FilterIsSubsequence(users, passes);
    Filter(users, passes)
  }

  /** With every filter empty, a list whose users all have a username is shown whole, in order. */
  lemma NoFiltersListsNamedUsers(users: seq<User>)
    requires forall k :: 0 <= k < |users| ==> users[k].username.Some?
    ensures FilteredUsers(users, "", "", "") == users
  {
    var passes := (u: User) => UserPasses(u, "", "", "");
    forall k | 0 <= k < |users|
      ensures passes(users[k])
    {
      SearchEmptyTerm(users[k].username);
    }
    FilterKeepsAll(users, passes);
  }

  /** `getRoleBadgeColor`. */
  function RoleBadgeColor(role: string): (r: string)
    ensures role == "admin" <==> r == RedBadge
    ensures role == "supervisor" <==> r == YellowBadge
    ensures role == "clerk" <==> r == BlueBadge
    ensures r == GrayBadge <==> role != "admin" && role != "supervisor" && role != "clerk"
  {
    match role
    case "admin" => RedBadge
    case "supervisor" => YellowBadge
    case "clerk" => BlueBadge
    case _ => GrayBadge
  }

  /** `getRoleDisplayName`: Turkish labels for the three roles, any other role shown as it is. */
  function RoleDisplayName(role: string): (r: string)
    ensures role == "admin" ==> r == "Admin"
    ensures role == "supervisor" ==> r == "Süpervizör"
    ensures role == "clerk" ==> r == "Personel"
    ensures role != "admin" && role != "supervisor" && role != "clerk" ==> r == role
  {
    match role
    case "admin" => "Admin"
    case "supervisor" => "Süpervizör"
    case "clerk" => "Personel"
    case _ => role
  }

  /** The known roles get three different labels. */
  lemma KnownRoleLabelsDistinct()
    ensures RoleDisplayName("admin") != RoleDisplayName("supervisor")
    ensures RoleDisplayName("admin") != RoleDisplayName("clerk")
    ensures RoleDisplayName("supervisor") != RoleDisplayName("clerk")
  {
  }

  /** A value of the user form: the text inputs and the `is_active` checkbox. */
  datatype FormValue = Text(text: string) | Flag(flag: bool)

  /** JavaScript truthiness of a form value; a missing key is `undefined`. */
  predicate Truthy(v: Option<FormValue>) {
    match v
    case None => false
    case Some(Text(t)) => t != ""
    case Some(Flag(b)) => b
  }

  const PasswordKey: string := "password"

  function Lookup(data: map<string, FormValue>, key: string): Option<FormValue> {
    if key in data then Some(data[key]) else None
  }

  /**
   * The update payload of `onSubmit`: a copy of the form data from which a
   * falsy `password` is deleted; every other field is sent as it is.
   */
  method UpdatePayload(data: map<string, FormValue>) returns (payload: map<string, FormValue>)
    ensures PasswordKey in payload <==> Truthy(Lookup(data, PasswordKey))
    ensures forall k :: k != PasswordKey ==> (k in payload <==> k in data)
    ensures forall k :: k in payload ==> k in data && payload[k] == data[k]
  {
    payload := data;
    if !Truthy(Lookup(payload, PasswordKey)) {
      payload := payload - {PasswordKey};
    }
  }

  /** `onSubmit`'s request: an update of the edited user without a blank password, or a create with the form as-is. */
  method SubmitRequest(editing: Option<User>, data: map<string, FormValue>) returns (request: Request<map<string, FormValue>>)
    ensures request.UpdateRequest? <==> editing.Some?
    ensures editing.Some? ==> request.id == editing.value.id
    ensures editing.None? ==> request.data == data
    ensures editing.Some? ==> request.data.Keys == data.Keys - (if Truthy(Lookup(data, PasswordKey)) then {} else {PasswordKey})
    ensures forall k :: k in request.data ==> k in data && request.data[k] == data[k]
  {
    if editing.Some? {
      var payload := UpdatePayload(data);
      request := UpdateRequest(editing.value.id, payload);
    } else {
      request := CreateRequest(data);
    }
  }
}
