/** The admin's device screen: the category column, the add/edit dialog,
    saving and deleting. */
module DeviceManagement {
  import opened Js
  import opened Ui
  import Seqs
  import AdminSlice
  import opened AdminCrud

  datatype Screen = Screen(dialog: Dialog, notice: Notice)

  const DeviceFields: seq<string> := ["name", "categoryId", "ratedPower", "avgUsageHours", "status"]

  /** A new device: empty name, category, power and hours; status `active`. */
  const BlankForm: Record :=
    map["name" := Str(""), "categoryId" := Str(""), "ratedPower" := Str(""),
        "avgUsageHours" := Str(""), "status" := Str("active")]

  const Initial: Screen := Screen(Dialog(false, None, BlankForm), Closed)

  /** The category column: `categories.find((c) => c._id === row.categoryId)?.name || "N/A"`. */
  function CategoryName(categories: seq<Record>, row: Record): (v: JsVal)
    ensures Truthy(v)
  {
    var i := Seqs.FindIndex(AdminSlice.KeyIs(Get(row, "categoryId")), categories);
    OrText(if i < |categories| then Get(categories[i], "name") else Undefined, "N/A")
  }

  /** The column shows the name of the first category whose `_id` is the
      row's `categoryId`, or "N/A" when there is none or its name is falsy. */
  lemma CategoryNameSpec(categories: seq<Record>, row: Record, i: nat)
    requires i < |categories| && StrictEq(Get(categories[i], "_id"), Get(row, "categoryId"))
    requires forall j :: 0 <= j < i ==> !StrictEq(Get(categories[j], "_id"), Get(row, "categoryId"))
    ensures CategoryName(categories, row) == OrText(Get(categories[i], "name"), "N/A")
  {
    Seqs.FindIndexAt(AdminSlice.KeyIs(Get(row, "categoryId")), categories, i);
  }

  lemma CategoryNameMissing(categories: seq<Record>, row: Record)
    requires forall j :: 0 <= j < |categories| ==> !StrictEq(Get(categories[j], "_id"), Get(row, "categoryId"))
    ensures CategoryName(categories, row) == Str("N/A")
  {
  }

  /** `handleOpenDialog(dev)`: editing copies exactly the five fields, adding
      resets them. */
  function OpenDeviceDialog(s: Screen, dev: Option<Record>): (t: Screen)
    ensures t.dialog.open && t.dialog.editing == dev
    ensures dev.None? ==> t.dialog.form == BlankForm
    ensures dev.Some? ==> t.dialog.form.Keys == set f | f in DeviceFields
    ensures dev.Some? ==> forall f :: f in DeviceFields ==> t.dialog.form[f] == Get(dev.value, f)
    ensures t.notice == s.notice
  {
    var prefill := if dev.Some? then CopyFields(dev.value, DeviceFields) else map[];
    s.(dialog := OpenDialog(dev, prefill, BlankForm))
  }

  /** `handleSave`: "Device saved" and a closed dialog on success, "Error
      saving device" and no action on failure. */
  function Save(s: Screen, result: ApiResult): (r: (Screen, Option<AdminSlice.Action>))
    ensures result.Ok? ==>
      && r.1 == Some(SaveAction(AdminSlice.Devices, s.dialog.editing, result.response))
      && r.0 == Screen(s.dialog.(open := false), Show("Device saved", Success))
    ensures result.Failed? ==> r == (s.(notice := Show("Error saving device", Error)), None)
  {
    match result
    case Ok(response) =>
      (Screen(s.dialog.(open := false), Show("Device saved", Success)),
       Some(SaveAction(AdminSlice.Devices, s.dialog.editing, response)))
    case Failed(_) => (s.(notice := Show("Error saving device", Error)), None)
  }

  /** The delete button: confirmation, then the API call, then the store
      action; a failing call rejects the handler with no notice. */
  function Delete(s: Screen, id: JsVal, confirmed: bool, apiOk: bool): (r: (Screen, Option<AdminSlice.Action>))
    ensures r.0 == s
    ensures r.1.Some? <==> confirmed && apiOk
    ensures r.1.Some? ==> r.1.value == AdminSlice.DeleteItem(AdminSlice.Devices, id)
  {
    (s, DeleteAction(AdminSlice.Devices, id, confirmed, apiOk))
  }
}
