/** The chart inputs the dashboards build: category labels, named series of
    values, and name/value slices, each read off a list of records. */
module Charts {
  import opened Js
  import Seqs

  datatype Series = Series(name: string, data: seq<JsVal>)

  /** A pie slice `{ name, value }`. */
  datatype NamedValue = NamedValue(name: JsVal, value: JsVal)

  /** One column of a list of records: each record's value under `key`, in
      order (an `xs.map` over the records). */
  function Pluck(xs: seq<Record>, key: string): (r: seq<JsVal>)
    ensures |r| == |xs|
    ensures forall i :: 0 <= i < |xs| ==> r[i] == Get(xs[i], key)
  {
    Seqs.Map((item: Record) => Get(item, key), xs)
  }

  /** Plucking keeps the order of the records: it commutes with
      concatenation. */
  lemma PluckAppend(a: seq<Record>, b: seq<Record>, key: string)
    ensures Pluck(a + b, key) == Pluck(a, key) + Pluck(b, key)
  {
  }

  /** Pie slices: one `{ name, value }` pair per record, read from the two
      keys, in order. */
  function Slices(xs: seq<Record>, nameKey: string, valueKey: string): (r: seq<NamedValue>)
    ensures |r| == |xs|
    ensures forall i :: 0 <= i < |xs| ==> r[i] == NamedValue(Get(xs[i], nameKey), Get(xs[i], valueKey))
  {
    Seqs.Map((item: Record) => NamedValue(Get(item, nameKey), Get(item, valueKey)), xs)
  }

  /** The slices are the two plucked columns zipped: names and values pair up
      one to one. */
  lemma SlicesArePluckedPairs(xs: seq<Record>, nameKey: string, valueKey: string)
    ensures |Slices(xs, nameKey, valueKey)| == |Pluck(xs, nameKey)| == |Pluck(xs, valueKey)|
    ensures forall i :: 0 <= i < |xs| ==>
      Slices(xs, nameKey, valueKey)[i].name == Pluck(xs, nameKey)[i]
      && Slices(xs, nameKey, valueKey)[i].value == Pluck(xs, valueKey)[i]
  {
  }

  /** An absent list reads as empty, as both `list?.map(…) || []` and a
      default parameter `list = []` treat `undefined`. The two differ on
      `null`, which `Option` does not represent: the first gives an empty
      chart, the second throws on `.map`. */
  function OrEmpty(list: Option<seq<Record>>): (r: seq<Record>)
    ensures list.Some? ==> r == list.value
    ensures list.None? ==> r == []
  {
    if list.Some? then list.value else []
  }
}
