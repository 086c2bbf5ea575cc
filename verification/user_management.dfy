/** The admin's user management screen: the search filter over the users,
    the add/edit dialog, saving, deleting, and the table's paging controls. */
module UserManagement {
  import opened Js
  import opened Ui
  import Seqs
  import AdminSlice
  import opened AdminCrud

  datatype Screen = Screen(
    page: int,
    rowsPerPage: int,
    query: string,
    dialog: Dialog,
    notice: Notice)

  /** The fields the dialog edits. */
  const UserFields: seq<string> := ["firstName", "lastName", "email", "role", "status"]

  /** The form of a new user: empty names and email, role `user`, status `active`. */
  const BlankForm: Record :=
    map["firstName" := Str(""), "lastName" := Str(""), "email" := Str(""),
        "role" := Str("user"), "status" := Str("active")]

  const Initial: Screen := Screen(0, 10, "", Dialog(false, None, BlankForm), Closed)

  // ---------------------------------------------------------------------------
  // Search

  /** The fields the search looks in. */
  const SearchFields: seq<string> := ["firstName", "lastName", "email"]

  /** `u.firstName?.toLowerCase().includes(q) || u.lastName?… || u.email?…` */
  function UserTest(q: string): Record -> Outcome {
    (u: Record) =>
      OrElse(OrElse(FieldIncludes(Get(u, "firstName"), q, true),
                    FieldIncludes(Get(u, "lastName"), q, true)),
             FieldIncludes(Get(u, "email"), q, true))
  }

  /** `filteredUsers` */
  function FilteredUsers(users: seq<Record>, q: string): Option<seq<Record>> {
    FilterOrThrow(UserTest(q), users)
  }

  /** One of the searched fields is a string containing the query, ignoring
      case. */
  predicate Matches(u: Record, q: string) {
    exists k :: 0 <= k < |SearchFields| && FieldMatches(u, SearchFields[k], q)
  }

  predicate FieldMatches(u: Record, f: string, q: string) {
    Get(u, f).Str? && IncludesIgnoringCase(Get(u, f).s, q)
  }

  /** Each searched field is a string or absent (`null`/`undefined`). */
  predicate SearchableFields(u: Record) {
    forall k :: 0 <= k < |SearchFields| ==> Searchable(Get(u, SearchFields[k]))
  }

  predicate Searchable(v: JsVal) {
    v.Str? || v == Undefined || v == Null
  }

  lemma UserTestSpec(u: Record, q: string)
    requires SearchableFields(u)
    ensures UserTest(q)(u) != Throws
    ensures UserTest(q)(u) == Hit <==> Matches(u, q)
  {
    assert Searchable(Get(u, SearchFields[0]));
    assert Searchable(Get(u, SearchFields[1]));
    assert Searchable(Get(u, SearchFields[2]));
    if Matches(u, q) {
      var k :| 0 <= k < |SearchFields| && FieldMatches(u, SearchFields[k], q);
    }
    if UserTest(q)(u) == Hit {
      if FieldMatches(u, "firstName", q) {
        assert FieldMatches(u, SearchFields[0], q);
      } else if FieldMatches(u, "lastName", q) {
        assert FieldMatches(u, SearchFields[1], q);
      } else {
        assert FieldMatches(u, SearchFields[2], q);
      }
    }
  }

  /** When every user's searched fields are strings or absent, the table shows
      exactly the users with a field containing the query, ignoring case, in
      their original order. An absent field never matches. */
  lemma FilteredUsersSpec(users: seq<Record>, q: string)
    requires forall i :: 0 <= i < |users| ==> SearchableFields(users[i])
    ensures FilteredUsers(users, q).Some?
    ensures forall i :: 0 <= i < |FilteredUsers(users, q).value| ==>
      FilteredUsers(users, q).value[i] in users && Matches(FilteredUsers(users, q).value[i], q)
    ensures forall i :: 0 <= i < |users| && Matches(users[i], q) ==> users[i] in FilteredUsers(users, q).value
    ensures FilteredUsers(users, q).value == Seqs.Filter((u: Record) => Matches(u, q), users)
  {
    FilterOrThrowSpec(UserTest(q), users);
    forall i | 0 <= i < |users|
      ensures UserTest(q)(users[i]) != Throws
      ensures UserTest(q)(users[i]) == Hit <==> Matches(users[i], q)
    {
      UserTestSpec(users[i], q);
    }
    Seqs.FilterCongruent((u: Record) => UserTest(q)(u) == Hit, (u: Record) => Matches(u, q), users);
    var r := FilteredUsers(users, q).value;
    forall i | 0 <= i < |r|
      ensures r[i] in users && Matches(r[i], q)
    {
      var k :| 0 <= k < |users| && users[k] == r[i];
    }
  }

  /** With an empty query the search keeps exactly the users with at least
      one of the searched fields present as a string. */
  lemma EmptyQueryKeepsPresent(u: Record)
    ensures Matches(u, "") <==> exists k :: 0 <= k < |SearchFields| && Get(u, SearchFields[k]).Str?
  {
    if exists k :: 0 <= k < |SearchFields| && Get(u, SearchFields[k]).Str? {
      var k :| 0 <= k < |SearchFields| && Get(u, SearchFields[k]).Str?;
      IncludesEmpty(Lower(Get(u, SearchFields[k]).s));
      assert FieldMatches(u, SearchFields[k], "");
    }
  }

  /** A first name that is present but not a string (say a number) makes the
      whole filter throw, whatever the query. */
  lemma NonStringFieldThrows(u: Record, q: string, x: real)
    requires Get(u, "firstName") == Num(x)
    ensures FilteredUsers([u], q).None?
  {
  }

  // ---------------------------------------------------------------------------
  // Dialog and form

  function OpenUserDialog(s: Screen, user: Option<Record>): (t: Screen)
    ensures t.dialog.open && t.dialog.editing == user
    ensures user.None? ==> t.dialog.form == BlankForm
    ensures user.Some? ==> t.dialog.form.Keys == set f | f in UserFields
    ensures user.Some? ==> forall f :: f in UserFields ==> t.dialog.form[f] == Get(user.value, f)
    ensures t.(dialog := s.dialog) == s
  {
    var prefill := if user.Some? then CopyFields(user.value, UserFields) else map[];
    s.(dialog := OpenDialog(user, prefill, BlankForm))
  }

  /** `handleCloseDialog`: closes and forgets the edited user; the form stays. */
  function CloseDialog(s: Screen): (t: Screen)
    ensures !t.dialog.open && t.dialog.editing.None? && t.dialog.form == s.dialog.form
    ensures t.(dialog := s.dialog) == s
  {
    s.(dialog := s.dialog.(open := false, editing := None))
  }

  /** `handleFormChange(field, value)` changes the named field only. */
  function ChangeField(s: Screen, field: string, value: JsVal): (t: Screen)
    ensures Get(t.dialog.form, field) == value
    ensures forall f :: f != field ==> Get(t.dialog.form, f) == Get(s.dialog.form, f)
    ensures t.dialog.(form := s.dialog.form) == s.dialog
    ensures t.(dialog := s.dialog) == s
  {
    s.(dialog := s.dialog.(form := FormChange(s.dialog.form, field, value)))
  }

  // ---------------------------------------------------------------------------
  // Save and delete

  /** `handleSaveUser`, given the API's answer: on success the store action
      and a closed dialog; on failure no action, the dialog as it was, and the
      server's message or "Failed to save user". */
  function Save(s: Screen, result: ApiResult): (r: (Screen, Option<AdminSlice.Action>))
    ensures result.Ok? ==>
      && r.1 == Some(SaveAction(AdminSlice.Users, s.dialog.editing, result.response))
      && !r.0.dialog.open && r.0.dialog.editing.None?
      && r.0.notice == Show(if s.dialog.editing.Some? then "User updated successfully" else "User created successfully", Success)
    ensures result.Failed? ==>
      && r.1.None?
      && r.0 == s.(notice := Notice(true, OrText(result.message, "Failed to save user"), Error))
  {
    match result
    case Ok(response) =>
      var message := if s.dialog.editing.Some? then "User updated successfully" else "User created successfully";
      (CloseDialog(s).(notice := Show(message, Success)), Some(SaveAction(AdminSlice.Users, s.dialog.editing, response)))
    case Failed(m) =>
      (s.(notice := Notice(true, OrText(m, "Failed to save user"), Error)), None)
  }

  /** What a successful save does to the store's user list: editing replaces
      the first user with the response's `_id`, adding appends. */
  lemma SaveUpdatesStore(s: Screen, response: Record, store: AdminSlice.State)
    ensures var t := AdminSlice.Reduce(store, Save(s, Ok(response)).1.value);
      && (s.dialog.editing.Some? ==> t.users == AdminSlice.Replace(store.users, response))
      && (s.dialog.editing.None? ==> t.users == store.users + [response])
      && t.categories == store.categories && t.devices == store.devices
  {
  }

  /** `handleDeleteUser(id)`: nothing without confirmation; otherwise the
      store action and a success notice, or a failure notice. */
  function Delete(s: Screen, id: JsVal, confirmed: bool, apiOk: bool): (r: (Screen, Option<AdminSlice.Action>))
    ensures r.1 == DeleteAction(AdminSlice.Users, id, confirmed, apiOk)
    ensures !confirmed ==> r.0 == s
    ensures confirmed ==> r.0 == s.(notice := if apiOk then Show("User deleted successfully", Success) else Show("Failed to delete user", Error))
  {
    if !confirmed then (s, None)
    else if apiOk then (s.(notice := Show("User deleted successfully", Success)), DeleteAction(AdminSlice.Users, id, confirmed, apiOk))
    else (s.(notice := Show("Failed to delete user", Error)), None)
  }

  // ---------------------------------------------------------------------------
  // Paging

  /** `onPageChange` */
  function PageChange(s: Screen, page: int): (t: Screen)
    ensures t.page == page && t.(page := s.page) == s
  {
    s.(page := page)
  }

  /** `onRowsPerPageChange`: the new page size (the parsed option) and a
      return to the first page. */
  function RowsPerPageChange(s: Screen, rowsPerPage: int): (t: Screen)
    ensures t.page == 0 && t.rowsPerPage == rowsPerPage
    ensures t.(page := s.page, rowsPerPage := s.rowsPerPage) == s
  {
    s.(rowsPerPage := rowsPerPage, page := 0)
  }
}
