/** The dictionaries passed between the retrieval modules: metadata records
    read back from the saved index, ranked hits, and source records. */
module Hits {
  import opened Common

  /** A metadata dictionary with string keys and string values. */
  type MetaRecord = map<string, string>

  /** `m.get(key, default)`. */
  function Get(m: MetaRecord, key: string, default: string): string {
    if key in m then m[key] else default
  }

  /** A ranked hit as returned by `retrieve` and `get_faiss_results`. */
  datatype Hit = Hit(rank: int, score: real, title: string, url: string, source: string, origId: string, text: string)

  /** A source record with the four keys `title`, `text`, `url`, `source`. */
  datatype Record = Record(title: string, text: string, url: string, source: string)

  /** Hit texts are cut to this many characters. */
  const MaxHitText := 1500

  /** The error a Python list raises for an index out of range. */
  const IndexError := "list index out of range"

  /** Python's `xs[i]` position for a list of length n: a negative index
      counts from the end; None where Python raises IndexError. */
  function PyIndex(i: int, n: nat): (r: Option<nat>)
    ensures r.Some? <==> -(n as int) <= i < n
    ensures r.Some? ==> r.value < n
    ensures r.Some? && i >= 0 ==> r.value == i
    ensures r.Some? && i < 0 ==> r.value + (-i) == n
  {
    if 0 <= i < n then Some(i)
    else if -(n as int) <= i < 0 then Some(n + i)
    else None
  }
}
