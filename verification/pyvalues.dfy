/** The loosely typed Python values a restriction list is written in. */
module PyValues {
  import opened Wrappers

  /** A Python value as it appears in the restriction list. Sets carry their elements in
      Python's iteration order; dictionaries carry their string keys in insertion order. */
  datatype PyValue =
    | PyNone
    | PyBool(b: bool)
    | PyInt(i: int)
    | PyStr(s: string)
    | PyList(items: seq<PyValue>)
    | PyTuple(items: seq<PyValue>)
    | PySet(items: seq<PyValue>)
    | PyDict(entries: seq<(string, PyValue)>)

  /** What a for-loop or an unpacking assignment iterates over, or None where Python raises
      TypeError because the value is not iterable. */
  function Iterate(v: PyValue): Option<seq<PyValue>> {
    match v
    case PyStr(s) => Some(seq(|s|, i requires 0 <= i < |s| => PyStr([s[i]])))
    case PyList(xs) => Some(xs)
    case PyTuple(xs) => Some(xs)
    case PySet(xs) => Some(xs)
    case PyDict(es) => Some(seq(|es|, i requires 0 <= i < |es| => PyStr(es[i].0)))
    case _ => None
  }

  /** Lists, sets and dictionaries, and tuples holding one, cannot be dictionary keys
      (a membership test on them raises TypeError). */
  predicate IsHashable(v: PyValue) {
    match v
    case PyList(_) => false
    case PySet(_) => false
    case PyDict(_) => false
    case PyTuple(xs) => forall k :: 0 <= k < |xs| ==> IsHashable(xs[k])
    case _ => true
  }
}
