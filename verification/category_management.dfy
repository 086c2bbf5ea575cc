/** The admin's category screen: the name search, the add/edit dialog,
    saving and deleting. */
module CategoryManagement {
  import opened Js
  import opened Ui
  import Seqs
  import AdminSlice
  import opened AdminCrud

  datatype Screen = Screen(query: string, dialog: Dialog, notice: Notice)

  const BlankForm: Record := map["name" := Str(""), "description" := Str("")]

  const Initial: Screen := Screen("", Dialog(false, None, BlankForm), Closed)

  /** `c.name.toLowerCase().includes(q.toLowerCase())`: no optional chaining,
      so a category without a string name throws. */
  function NameTest(q: string): Record -> Outcome {
    (c: Record) => FieldIncludes(Get(c, "name"), q, false)
  }

  /** The rows the table is given. */
  function FilteredCategories(categories: seq<Record>, q: string): Option<seq<Record>> {
    FilterOrThrow(NameTest(q), categories)
  }

  predicate NameMatches(c: Record, q: string) {
    Get(c, "name").Str? && IncludesIgnoringCase(Get(c, "name").s, q)
  }

  /** The table shows the categories whose name contains the query, ignoring
      case, in their original order; it cannot render at all if some category
      has no string name. */
  lemma FilteredCategoriesSpec(categories: seq<Record>, q: string)
    ensures FilteredCategories(categories, q).None? <==>
      exists i :: 0 <= i < |categories| && !Get(categories[i], "name").Str?
    ensures FilteredCategories(categories, q).Some? ==>
      FilteredCategories(categories, q).value == Seqs.Filter((c: Record) => NameMatches(c, q), categories)
  {
    FilterOrThrowSpec(NameTest(q), categories);
    Seqs.FilterCongruent((c: Record) => NameTest(q)(c) == Hit, (c: Record) => NameMatches(c, q), categories);
  }

  /** `handleOpenDialog(cat)`: editing copies the name and the description,
      the latter defaulting to "" when falsy; adding resets both to "". */
  function OpenCategoryDialog(s: Screen, cat: Option<Record>): (t: Screen)
    ensures t.dialog.open && t.dialog.editing == cat
    ensures cat.None? ==> t.dialog.form == BlankForm
    ensures cat.Some? ==> t.dialog.form.Keys == {"name", "description"}
    ensures cat.Some? ==> t.dialog.form["name"] == Get(cat.value, "name")
    ensures cat.Some? ==>
      t.dialog.form["description"] == (if Truthy(Get(cat.value, "description")) then Get(cat.value, "description") else Str(""))
    ensures t.(dialog := s.dialog) == s
  {
    var prefill :=
      if cat.Some? then map["name" := Get(cat.value, "name"), "description" := OrText(Get(cat.value, "description"), "")]
      else map[];
    s.(dialog := OpenDialog(cat, prefill, BlankForm))
  }

  /** `handleSave`: on success the store action, the dialog closed and
      "Category saved successfully"; on failure no action, the dialog still
      open and "Error saving category". */
  function Save(s: Screen, result: ApiResult): (r: (Screen, Option<AdminSlice.Action>))
    ensures result.Ok? ==>
      && r.1 == Some(SaveAction(AdminSlice.Categories, s.dialog.editing, result.response))
      && r.0 == s.(dialog := s.dialog.(open := false), notice := Show("Category saved successfully", Success))
    ensures result.Failed? ==>
      r == (s.(notice := Show("Error saving category", Error)), None)
  {
    match result
    case Ok(response) =>
      (s.(dialog := s.dialog.(open := false), notice := Show("Category saved successfully", Success)),
       Some(SaveAction(AdminSlice.Categories, s.dialog.editing, response)))
    case Failed(_) =>
      (s.(notice := Show("Error saving category", Error)), None)
  }

  /** `handleDelete(id)`: nothing without confirmation; the store action only
      after the API succeeds, otherwise "Error deleting category" and the list
      is left alone. */
  function Delete(s: Screen, id: JsVal, confirmed: bool, apiOk: bool): (r: (Screen, Option<AdminSlice.Action>))
    ensures r.1 == DeleteAction(AdminSlice.Categories, id, confirmed, apiOk)
    ensures r.0 == if confirmed && !apiOk then s.(notice := Show("Error deleting category", Error)) else s
  {
    if confirmed && !apiOk then (s.(notice := Show("Error deleting category", Error)), None)
    else (s, DeleteAction(AdminSlice.Categories, id, confirmed, apiOk))
  }

  /** A failed or unconfirmed delete leaves the store's categories as they
      were; a confirmed, successful one removes every category with the id. */
  lemma DeleteStoreEffect(s: Screen, id: JsVal, confirmed: bool, apiOk: bool, store: AdminSlice.State)
    ensures var a := Delete(s, id, confirmed, apiOk).1;
      && (a.None? <==> !(confirmed && apiOk))
      && (a.Some? ==> AdminSlice.Reduce(store, a.value).categories == AdminSlice.Remove(store.categories, id))
  {
  }
}
