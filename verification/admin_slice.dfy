/** The `admin` slice of the store: three lists (users, categories, devices)
    with identical set/add/update/delete reducers keyed by `_id`, the system
    analytics, and a loading flag and an error. */
module AdminSlice {
  import opened Js
  import Seqs

  datatype ListKind = Users | Categories | Devices

  datatype State = State(
    users: seq<Record>,
    categories: seq<Record>,
    devices: seq<Record>,
    systemAnalytics: Option<Record>,
    loading: JsVal,
    error: JsVal)

  const Init: State := State([], [], [], None, Bool(false), Null)

  /** `setUsers`/`addUser`/`updateUser`/`deleteUser` and their category and
      device twins are one action each, parameterised by the list. */
  datatype Action =
    | SetList(kind: ListKind, items: seq<Record>)
    | AddItem(kind: ListKind, item: Record)
    | UpdateItem(kind: ListKind, item: Record)
    | DeleteItem(kind: ListKind, id: JsVal)
    | SetSystemAnalytics(analytics: Option<Record>)
    | SetLoading(loading: JsVal)
    | SetError(error: JsVal)
    | ClearError

  function List(s: State, k: ListKind): seq<Record> {
    match k
    case Users => s.users
    case Categories => s.categories
    case Devices => s.devices
  }

  function WithList(s: State, k: ListKind, xs: seq<Record>): State {
    match k
    case Users => s.(users := xs)
    case Categories => s.(categories := xs)
    case Devices => s.(devices := xs)
  }

  /** `(r) => r._id === id` */
  function KeyIs(id: JsVal): Record -> bool {
    (r: Record) => StrictEq(Get(r, "_id"), id)
  }

  /** `(r) => r._id !== id` */
  function KeyIsNot(id: JsVal): Record -> bool {
    (r: Record) => !StrictEq(Get(r, "_id"), id)
  }

  /** The update reducers: overwrite the first element whose `_id` is the
      payload's `_id`, if there is one. */
  function Replace(xs: seq<Record>, item: Record): seq<Record> {
    var i := Seqs.FindIndex(KeyIs(Get(item, "_id")), xs);
    if i < |xs| then xs[i := item] else xs
  }

  /** The delete reducers: keep the elements whose `_id` is not `id`. */
  function Remove(xs: seq<Record>, id: JsVal): seq<Record> {
    Seqs.Filter(KeyIsNot(id), xs)
  }

  function Reduce(s: State, a: Action): State {
    match a
    case SetList(k, xs) => WithList(s, k, xs)
    case AddItem(k, x) => WithList(s, k, List(s, k) + [x])
    case UpdateItem(k, x) => WithList(s, k, Replace(List(s, k), x))
    case DeleteItem(k, id) => WithList(s, k, Remove(List(s, k), id))
    case SetSystemAnalytics(v) => s.(systemAnalytics := v)
    case SetLoading(v) => s.(loading := v)
    case SetError(v) => s.(error := v)
    case ClearError => s.(error := Null)
  }

  predicate IsListAction(a: Action) {
    a.SetList? || a.AddItem? || a.UpdateItem? || a.DeleteItem?
  }

  // ---------------------------------------------------------------------------
  // Frames

  lemma WithListFrame(s: State, k: ListKind, xs: seq<Record>)
    ensures List(WithList(s, k, xs), k) == xs
    ensures forall j: ListKind :: j != k ==> List(WithList(s, k, xs), j) == List(s, j)
    ensures WithList(s, k, xs).systemAnalytics == s.systemAnalytics
    ensures WithList(s, k, xs).loading == s.loading && WithList(s, k, xs).error == s.error
  {
  }

  /** A list action changes only its own list; the other reducers change
      only their own field. */
  lemma ReduceFrames(s: State, a: Action)
    ensures IsListAction(a) ==>
      && (forall j: ListKind :: j != a.kind ==> List(Reduce(s, a), j) == List(s, j))
      && Reduce(s, a).systemAnalytics == s.systemAnalytics
      && Reduce(s, a).loading == s.loading
      && Reduce(s, a).error == s.error
    ensures a.SetSystemAnalytics? ==> Reduce(s, a) == s.(systemAnalytics := a.analytics)
    ensures a.SetLoading? ==> Reduce(s, a) == s.(loading := a.loading)
    ensures a.SetError? ==> Reduce(s, a) == s.(error := a.error)
    ensures a.ClearError? ==> Reduce(s, a) == s.(error := Null)
  {
    if IsListAction(a) {
      var xs := List(Reduce(s, a), a.kind);
      assert Reduce(s, a) == WithList(s, a.kind, xs);
      WithListFrame(s, a.kind, xs);
    }
  }

  /** `set*` replaces its list wholesale; `add*` appends at the end. */
  lemma SetAndAddEffect(s: State, k: ListKind, xs: seq<Record>, x: Record)
    ensures List(Reduce(s, SetList(k, xs)), k) == xs
    ensures List(Reduce(s, AddItem(k, x)), k) == List(s, k) + [x]
    ensures |List(Reduce(s, AddItem(k, x)), k)| == |List(s, k)| + 1
    ensures List(s, k) <= List(Reduce(s, AddItem(k, x)), k)
  {
    WithListFrame(s, k, xs);
    WithListFrame(s, k, List(s, k) + [x]);
  }

  // ---------------------------------------------------------------------------
  // update*

  /** `update*` overwrites exactly the first element whose `_id` is the
      payload's `_id`, keeps the length, and changes nothing when no element
      matches. */
  lemma ReplaceEffect(xs: seq<Record>, item: Record)
    ensures |Replace(xs, item)| == |xs|
    ensures (exists i :: 0 <= i < |xs| && StrictEq(Get(xs[i], "_id"), Get(item, "_id"))) ==>
      var i := Seqs.FindIndex(KeyIs(Get(item, "_id")), xs);
      && i < |xs|
      && StrictEq(Get(xs[i], "_id"), Get(item, "_id"))
      && (forall j :: 0 <= j < i ==> !StrictEq(Get(xs[j], "_id"), Get(item, "_id")))
      && Replace(xs, item)[i] == item
      && (forall j :: 0 <= j < |xs| && j != i ==> Replace(xs, item)[j] == xs[j])
    ensures (forall i :: 0 <= i < |xs| ==> !StrictEq(Get(xs[i], "_id"), Get(item, "_id"))) ==>
      Replace(xs, item) == xs
  {
    var p := KeyIs(Get(item, "_id"));
    if exists i :: 0 <= i < |xs| && StrictEq(Get(xs[i], "_id"), Get(item, "_id")) {
      var i :| 0 <= i < |xs| && StrictEq(Get(xs[i], "_id"), Get(item, "_id"));
      assert p(xs[i]);
    }
  }

  /** Updating twice with the same payload is the same as updating once. */
  lemma ReplaceIdempotent(xs: seq<Record>, item: Record)
    ensures Replace(Replace(xs, item), item) == Replace(xs, item)
  {
    var p := KeyIs(Get(item, "_id"));
    var i := Seqs.FindIndex(p, xs);
    if i < |xs| {
      var ys := xs[i := item];
      assert p(ys[i]);
      assert forall j :: 0 <= j < i ==> ys[j] == xs[j];
      Seqs.FindIndexAt(p, ys, i);
    }
  }

  /** `_id` is compared with `===`: a payload without `_id` overwrites the
      first element that has none either, and a payload whose `_id` is NaN
      overwrites nothing. */
  lemma ReplaceWithoutKey(xs: seq<Record>, item: Record)
    ensures "_id" !in item ==>
      var i := Seqs.FindIndex(KeyIs(Undefined), xs);
      && (i < |xs| ==> Get(xs[i], "_id") == Undefined && Replace(xs, item) == xs[i := item])
      && (forall j :: 0 <= j < i ==> Get(xs[j], "_id") != Undefined)
    ensures Get(item, "_id") == NaN ==> Replace(xs, item) == xs
  {
  }

  // ---------------------------------------------------------------------------
  // delete*

  /** `delete*` keeps exactly the elements whose `_id` is not `id`, in their
      original relative order. */
  lemma {:induction false} RemoveEffect(xs: seq<Record>, ys: seq<Record>, id: JsVal)
    ensures forall r :: r in Remove(xs, id) <==> r in xs && !StrictEq(Get(r, "_id"), id)
    ensures Remove(xs + ys, id) == Remove(xs, id) + Remove(ys, id)
    ensures |Remove(xs, id)| + Seqs.Count(KeyIs(id), xs) == |xs|
  {
    Seqs.FilterAppend(KeyIsNot(id), xs, ys);
    forall r | r in xs && !StrictEq(Get(r, "_id"), id)
      ensures r in Remove(xs, id)
    {
      var k :| 0 <= k < |xs| && xs[k] == r;
    }
    Seqs.FilterLength(KeyIsNot(id), xs);
    CountComplement(KeyIs(id), KeyIsNot(id), xs);
  }

  lemma {:induction false} CountComplement<T>(p: T -> bool, q: T -> bool, xs: seq<T>)
    requires forall x :: q(x) == !p(x)
    ensures Seqs.Count(p, xs) + Seqs.Count(q, xs) == |xs|
    decreases |xs|
  {
    if xs != [] {
      CountComplement(p, q, xs[1..]);
    }
  }

  /** Deleting twice is the same as deleting once. */
  lemma RemoveIdempotent(xs: seq<Record>, id: JsVal)
    ensures Remove(Remove(xs, id), id) == Remove(xs, id)
  {
    Seqs.FilterKeepsAll(KeyIsNot(id), Remove(xs, id));
  }

  /** Deleting with `undefined` (an id read from a record that carries `id`
      instead of `_id`) removes every element without an `_id`. */
  lemma RemoveUndefined(xs: seq<Record>)
    ensures forall r :: r in Remove(xs, Undefined) <==> r in xs && Get(r, "_id") != Undefined
  {
    RemoveEffect(xs, [], Undefined);
  }
}
