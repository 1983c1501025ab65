/** Result types shared by all modules. */
module Prelude {

  datatype Option<+T> = None | Some(value: T)

  /** `Err` stands for a raised exception. */
  datatype Result<+T, +E> = Ok(value: T) | Err(error: E)

  function Min(a: int, b: int): int { if a <= b then a else b }

  ghost predicate Distinct<T>(s: seq<T>)
  {
    forall i, j | 0 <= i < j < |s| :: s[i] != s[j]
  }

  function Max(a: int, b: int): int { if a >= b then a else b }
}

/** Python's insertion-ordered dict, as a value. */
module PyDicts {

  datatype PyDict<K(==, !new), V> = PyDict(order: seq<K>, data: map<K, V>) {

    /** Every key occurs once in the order. */
    ghost predicate Valid()
    {
      && (forall i, j | 0 <= i < j < |order| :: order[i] != order[j])
      && (forall k :: k in data <==> k in order)
    }

    /** `d[k] = v`: a key already present keeps its place. */
    function Set(k: K, v: V): (d: PyDict<K, V>)
      ensures Valid() ==> d.Valid()
    {
      PyDict(if k in data then order else order + [k], data[k := v])
    }
  }

  function Empty<K(==, !new), V>(): PyDict<K, V> { PyDict([], map[]) }
}
