/**
 * The parts of a parsed WHATWG URL that the plugin reads and writes, and
 * the two ways it turns a URL back into text: `url.toString()` and
 * `url.pathname + url.search + url.hash`. Parsing itself is not modelled
 * here: the engine receives it as a function (see AddQueryParam.UrlParser).
 */
module Urls {
  import opened Wrappers
  import opened SearchParams

  /**
   * A parsed URL. `prefix` is everything the serialiser writes before the
   * path (scheme, `//`, credentials, host, port); `query` is the list behind
   * `searchParams`; `fragment` is the text after `#`: `None` when the URL
   * has no `#` at all, `Some("")` when it ends in a bare `#`.
   */
  datatype Url = Url(prefix: string, path: string, query: seq<Pair>, fragment: Option<string>)

  /** The query list as `name=value` entries joined by `&` (percent-encoding is not modelled). */
  function SerializeQuery(pairs: seq<Pair>): (s: string)
    ensures s == "" <==> pairs == []
    ensures pairs != [] ==> pairs[0].name + "=" + pairs[0].value <= s
  {
    if pairs == [] then ""
    else
      var head := pairs[0].name + "=" + pairs[0].value;
      if |pairs| == 1 then head else head + "&" + SerializeQuery(pairs[1..])
  }

  /** `url.search`: empty when there is no query, otherwise `?` and the query. */
  function Search(pairs: seq<Pair>): (s: string)
    ensures s == "" <==> pairs == []
    ensures s != "" ==> s[0] == '?'
  {
    if pairs == [] then "" else "?" + SerializeQuery(pairs)
  }

  /** `url.hash`: empty when the fragment is missing or empty, otherwise `#` and the fragment. */
  function Hash(fragment: Option<string>): (s: string)
    ensures s == "" <==> fragment.None? || fragment.value == ""
    ensures s != "" ==> s[0] == '#' && s[1..] == fragment.value
  {
    if fragment.None? || fragment.value == "" then "" else "#" + fragment.value
  }

  /**
   * What the serialiser writes after the query: `#` and the fragment
   * whenever there is one, so a bare `#` survives here although `hash`
   * drops it.
   */
  function FragmentSuffix(fragment: Option<string>): (s: string)
    ensures s == "" <==> fragment.None?
    ensures s != "" ==> s[0] == '#' && s[1..] == fragment.value
  {
    if fragment.None? then "" else "#" + fragment.value
  }

  /**
   * `url.pathname + url.search + url.hash`: the URL without scheme or host.
   * It starts with the path; the character after the path is `?` exactly
   * when there is a query, and the text ends with `#` and the fragment
   * when that is non-empty.
   */
  function PathSearchHash(u: Url): (s: string)
    ensures u.path <= s
    ensures (|s| > |u.path| && s[|u.path|] == '?') <==> u.query != []
    ensures u.fragment.Some? && u.fragment.value != "" ==>
      |s| > |u.fragment.value| && s[|s| - |u.fragment.value| - 1..] == "#" + u.fragment.value
  {
    u.path + Search(u.query) + Hash(u.fragment)
  }

  /**
   * `url.toString()`: the full URL, scheme and host included. It starts
   * with the prefix and then the path; the character after the path is `?`
   * exactly when there is a query; and whenever the URL has a fragment,
   * even an empty one, the text ends with `#` and that fragment.
   */
  function Href(u: Url): (s: string)
    ensures u.prefix + u.path <= s
    ensures (|s| > |u.prefix + u.path| && s[|u.prefix + u.path|] == '?') <==> u.query != []
    ensures u.fragment.Some? ==>
      |s| > |u.fragment.value| && s[|s| - |u.fragment.value| - 1..] == "#" + u.fragment.value
  {
    u.prefix + (u.path + Search(u.query) + FragmentSuffix(u.fragment))
  }
}
