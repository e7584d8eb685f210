/** Bytes, optional values and the error-carrying results shared by the modules. */
module Common {

  newtype Byte = b: int | 0 <= b < 0x100

  /** Keys, values and keyspace names are byte strings. */
  type Bytes = seq<Byte>

  datatype Option<T> = None | Some(value: T)

  /**
    The errors this model distinguishes: a directory miss, and a failure of
    the durable layer, which stands for every other error kind the page
    cache can report.
   */
  datatype Error = CollectionNotFound(name: Bytes) | Io(code: nat)

  datatype Result<T> = Ok(value: T) | Err(error: Error)

  /** The entry of `m` under `k`, if any. */
  function Get<K, V>(m: map<K, V>, k: K): Option<V>
  {
    if k in m then Some(m[k]) else None
  }

  /** `m` with the entry under `k` set to `v`, or removed when `v` is None. */
  function Put<K, V>(m: map<K, V>, k: K, v: Option<V>): (r: map<K, V>)
    ensures Get(r, k) == v
    ensures r - {k} == m - {k}
  {
    if v.Some? then m[k := v.value] else m - {k}
  }
}
