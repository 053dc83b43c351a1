/** Ordered string-keyed records: the plain JavaScript objects that the engine builds with
    `{...object, [key]: value}` and walks with `Object.entries`. Assigning an existing key keeps
    its position; a new key goes to the end. */
module Records {
  datatype Option<+T> = None | Some(value: T)

  datatype Record<+V> = Empty | Field(key: string, val: V, rest: Record<V>)

  function Get<V>(r: Record<V>, key: string): Option<V> {
    match r
    case Empty => None
    case Field(k, v, rest) => if k == key then Some(v) else Get(rest, key)
  }

  predicate Has<V>(r: Record<V>, key: string) {
    Get(r, key).Some?
  }

  function Put<V>(r: Record<V>, key: string, val: V): Record<V> {
    match r
    case Empty => Field(key, val, Empty)
    case Field(k, v, rest) => if k == key then Field(k, val, rest) else Field(k, v, Put(rest, key, val))
  }

  function Keys<V>(r: Record<V>): seq<string> {
    match r
    case Empty => []
    case Field(k, _, rest) => [k] + Keys(rest)
  }

  /** No key is listed twice, as in every JavaScript object. */
  predicate DistinctKeys<V>(r: Record<V>) {
    match r
    case Empty => true
    case Field(k, _, rest) => !Has(rest, k) && DistinctKeys(rest)
  }

  /** What a read returns after a write. */
  lemma {:induction false} GetPut<V>(r: Record<V>, key: string, val: V, other: string)
    ensures Get(Put(r, key, val), other) == if other == key then Some(val) else Get(r, other)
  {
    match r
    case Empty =>
    case Field(_, _, rest) => GetPut(rest, key, val, other);
  }

  lemma {:induction false} HasIsKey<V>(r: Record<V>, key: string)
    ensures Has(r, key) <==> key in Keys(r)
  {
    match r
    case Empty =>
    case Field(_, _, rest) => HasIsKey(rest, key);
  }
}
