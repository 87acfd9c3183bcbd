/** JSON values as Python's `json` module loads them, the files that hold
    them, and the top-level shallow merge `{**existing, **data}`. */
module Json {

  /** A JSON value.  Numbers are exact reals: the int/float distinction of
      Python's `json` and IEEE-754 rounding are not modelled. */
  datatype Json =
    | JNull
    | JBool(b: bool)
    | JNum(n: real)
    | JStr(s: string)
    | JArr(items: seq<Json>)
    | JObj(fields: map<string, Json>)

  /** A top-level JSON object. */
  type Document = map<string, Json>

  /** What `json.load` makes of a file: a JSON value, or a decode error. */
  datatype Content = Parsed(value: Json) | Unparsable

  /** A directory entry: its content, its size in bytes and its modification time. */
  datatype File = File(content: Content, size: nat, mtime: real)

  /** `{**existing, **data}`: every key of `data` takes `data`'s value, every
      other key of `existing` keeps its own. */
  function Merge(existing: Document, data: Document): (r: Document)
    ensures r.Keys == existing.Keys + data.Keys
    ensures forall k :: k in data ==> r[k] == data[k]
    ensures forall k :: k in existing && k !in data ==> r[k] == existing[k]
  {
    existing + data
  }

  /** Saving twice with the same top-level keys is the same as saving the
      second document once: the first save leaves nothing behind. */
  lemma {:induction false} MergeAbsorbs(d: Document, first: Document, second: Document)
    requires first.Keys <= second.Keys
    ensures Merge(Merge(d, first), second) == Merge(d, second)
  {
  }

  /** Keys present in neither of two successive saves keep the value they had
      before both. */
  lemma {:induction false} MergeTwicePreserves(d: Document, d1: Document, d2: Document, k: string)
    requires k in d && k !in d1 && k !in d2
    ensures k in Merge(Merge(d, d1), d2) && Merge(Merge(d, d1), d2)[k] == d[k]
  {
  }

  /** `d.get(k, default)` */
  function Get(d: Document, k: string, default: Json): Json
  {
    if k in d then d[k] else default
  }
}
