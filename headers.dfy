/**
 * Request header tables. Header names are case-insensitive: a table maps the
 * lower-cased name to the list of values sent under it, so that two tables
 * are equal exactly when they hold the same names and values, in whatever
 * order those names were set. The names used here are already lower-cased.
 */
module Headers {

  /**
   * A header value: text, or the `Basic` credentials of `Proxy-Authorization`
   * (section 2 of RFC 7617), kept as the `user:password` it encodes.
   */
  datatype Value = Text(text: string) | BasicCredentials(userinfo: string)

  type Table = map<string, seq<Value>>

  const Cookie := "cookie"
  const Authorization := "authorization"
  const ContentType := "content-type"
  const ContentLength := "content-length"
  const ProxyAuthorization := "proxy-authorization"

  /** The table without the headers whose keys are in `keys`; every other header is kept with its values. */
  function Drop(t: Table, keys: set<string>): (r: Table)
    ensures forall k :: k in r <==> k in t && k !in keys
    ensures forall k :: k in r ==> r[k] == t[k]
  {
    t - keys
  }

  /** Setting a header and then dropping it is the same as dropping it. */
  lemma DropReplaced(t: Table, k: string, vs: seq<Value>)
    ensures Drop(t[k := vs], {k}) == Drop(t, {k})
  {
  }

  /** Dropping the same headers twice is dropping them once. */
  lemma DropTwice(t: Table, keys: set<string>)
    ensures Drop(Drop(t, keys), keys) == Drop(t, keys)
  {
  }
}
