/** Small shared vocabulary: optional values, results with an error, the
    identifier types of the chat platform (all of them plain integers there),
    and dictionary lookup with a default. */
module Base {

  datatype Option<T> = None | Some(value: T)

  datatype Result<T, E> = Ok(value: T) | Err(error: E)

  type UserId = int
  type GuildId = int
  type ChannelId = int

  /** `d.get(k, default)`. */
  function GetOr<K, V>(m: map<K, V>, k: K, default: V): (v: V)
    ensures k in m ==> v == m[k]
    ensures k !in m ==> v == default
  {
    if k in m then m[k] else default
  }

  /** `d.get(k)`, as an optional value. */
  function Lookup<K, V>(m: map<K, V>, k: K): (o: Option<V>)
    ensures o.Some? <==> k in m
    ensures k in m ==> o.value == m[k]
  {
    if k in m then Some(m[k]) else None
  }
}
