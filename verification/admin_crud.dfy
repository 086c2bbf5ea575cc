/** The pattern the three admin management screens share: an add/edit dialog
    over a form record, a save that dispatches update or add, a delete behind
    a confirmation, and a search filter whose field access may throw. */
module AdminCrud {
  import opened Js
  import Seqs
  import AdminSlice

  /** The add/edit dialog: whether it is open, the record being edited (none
      when adding), and the form. */
  datatype Dialog = Dialog(open: bool, editing: Option<Record>, form: Record)

  /** The form the dialog is opened with for an existing record: the listed
      fields copied from it (an absent field copies as `undefined`). */
  function CopyFields(item: Record, fields: seq<string>): (form: Record)
    ensures form.Keys == set f | f in fields
    ensures forall f :: f in fields ==> form[f] == Get(item, f)
  {
    map f | f in fields :: Get(item, f)
  }

  /** `handleOpenDialog(item)`: editing prefills the form, adding resets it. */
  function OpenDialog(item: Option<Record>, prefill: Record, blank: Record): (d: Dialog)
    ensures d.open && d.editing == item
    ensures d.form == if item.Some? then prefill else blank
  {
    Dialog(true, item, if item.Some? then prefill else blank)
  }

  /** `setFormData({ ...formData, [field]: value })` */
  function FormChange(form: Record, field: string, value: JsVal): (r: Record)
    ensures Get(r, field) == value
    ensures forall f :: f != field ==> Get(r, f) == Get(form, f)
    ensures r.Keys == form.Keys + {field}
  {
    form[field := value]
  }

  /** The answer of an awaited API call: its response, or the rejection with
      the server's message (`error.response?.data?.message`). */
  datatype ApiResult = Ok(response: Record) | Failed(message: JsVal)

  /** Save dispatches `update*` with the response when editing and `add*`
      otherwise. */
  function SaveAction(kind: AdminSlice.ListKind, editing: Option<Record>, response: Record): (a: AdminSlice.Action)
    ensures (a.UpdateItem? || a.AddItem?) && a.kind == kind
    ensures a.UpdateItem? <==> editing.Some?
    ensures a.AddItem? <==> editing.None?
    ensures a.UpdateItem? ==> a.item == response
    ensures a.AddItem? ==> a.item == response
  {
    if editing.Some? then AdminSlice.UpdateItem(kind, response) else AdminSlice.AddItem(kind, response)
  }

  // ---------------------------------------------------------------------------
  // Search filters that may throw

  /** Evaluating a filter predicate on one record: it keeps it, drops it, or
      throws (a `TypeError` from calling `toLowerCase` on a non-string). */
  datatype Outcome = Hit | Miss | Throws

  /** `v.toLowerCase().includes(q.toLowerCase())`, or `v?.…` when `optional`:
      optional chaining turns `null`/`undefined` into a miss; without it, and
      for any other non-string, the call throws. */
  function FieldIncludes(v: JsVal, q: string, optional: bool): (o: Outcome)
    ensures o == Hit <==> v.Str? && IncludesIgnoringCase(v.s, q)
    ensures o == Throws <==> !v.Str? && !(optional && (v == Undefined || v == Null))
  {
    match v
    case Str(s) => if IncludesIgnoringCase(s, q) then Hit else Miss
    case Undefined => if optional then Miss else Throws
    case Null => if optional then Miss else Throws
    case _ => Throws
  }

  /** `a || b` over outcomes: `b` is evaluated only after a miss. */
  function OrElse(a: Outcome, b: Outcome): Outcome {
    if a == Miss then b else a
  }

  /** `xs.filter(test)`: the kept records, or `None` when some evaluation
      throws (the render fails). */
  function FilterOrThrow(test: Record -> Outcome, xs: seq<Record>): Option<seq<Record>>
    decreases |xs|
  {
    if xs == [] then Some([])
    else if test(xs[0]) == Throws then None
    else
      var rest := FilterOrThrow(test, xs[1..]);
      if rest.None? then None
      else Some((if test(xs[0]) == Hit then [xs[0]] else []) + rest.value)
  }

  /** The filter throws exactly when some record throws; otherwise it is the
      ordinary filter keeping the hits, an order-preserving subsequence. */
  lemma {:induction false} FilterOrThrowSpec(test: Record -> Outcome, xs: seq<Record>)
    ensures FilterOrThrow(test, xs).None? <==> exists i :: 0 <= i < |xs| && test(xs[i]) == Throws
    ensures FilterOrThrow(test, xs).Some? ==>
      FilterOrThrow(test, xs).value == Seqs.Filter((x: Record) => test(x) == Hit, xs)
    decreases |xs|
  {
    if xs != [] {
      FilterOrThrowSpec(test, xs[1..]);
      if exists i :: 0 <= i < |xs[1..]| && test(xs[1..][i]) == Throws {
        var i :| 0 <= i < |xs[1..]| && test(xs[1..][i]) == Throws;
        assert test(xs[i + 1]) == Throws;
      }
      if exists i :: 0 <= i < |xs| && test(xs[i]) == Throws {
        var i :| 0 <= i < |xs| && test(xs[i]) == Throws;
        assert i == 0 || test(xs[1..][i - 1]) == Throws;
      }
    }
  }

  // ---------------------------------------------------------------------------
  // Delete behind a confirmation

  /** The delete handlers: nothing happens unless the user confirms; the
      store's `delete*` is dispatched only when the API call also succeeds. */
  function DeleteAction(kind: AdminSlice.ListKind, id: JsVal, confirmed: bool, apiOk: bool): (a: Option<AdminSlice.Action>)
    ensures a.Some? <==> confirmed && apiOk
    ensures a.Some? ==> a.value == AdminSlice.DeleteItem(kind, id)
  {
    if confirmed && apiOk then Some(AdminSlice.DeleteItem(kind, id)) else None
  }
}
