/** Request headers as the API code reads them. */
module HttpHeaders {
  import opened Common

  /** Request headers by lower-case name. Node delivers every custom header as
      one string (repeated headers are joined), so a value is a single string. */
  type Headers = map<string, string>

  /** `req.header(name)`: the value, or `undefined` when the header is absent. */
  function Header(headers: Headers, name: string): (v: Option<string>)
    ensures v.Some? <==> name in headers
    ensures v.Some? ==> v.value == headers[name]
  {
    if name in headers then Some(headers[name]) else None
  }

  /** `String(req.headers[name] ?? '')`. */
  function HeaderOrEmpty(headers: Headers, name: string): (v: string)
    ensures name in headers ==> v == headers[name]
    ensures name !in headers ==> v == ""
  {
    Header(headers, name).GetOr("")
  }

  /** The declared type of a header value, `string | string[]` (absence is `None`). */
  datatype HeaderValue = Single(s: string) | Multi(vs: seq<string>)

  /** The value `@Headers(name)` or `req.headers[name]` hands to the code. */
  function Declared(headers: Headers, name: string): (v: Option<HeaderValue>)
    ensures v.Some? <==> name in headers
    ensures v.Some? ==> v.value == Single(headers[name])
  {
    if name in headers then Some(Single(headers[name])) else None
  }

  /** `Array.isArray(v) ? v[0] : v`: the first element of an array (`undefined`
      for an empty one), a plain string as it is. */
  function FirstValue(v: Option<HeaderValue>): (r: Option<string>)
    ensures v.None? ==> r.None?
    ensures v.Some? && v.value.Single? ==> r == Some(v.value.s)
    ensures v.Some? && v.value.Multi? ==> (r.Some? <==> |v.value.vs| > 0)
    ensures v.Some? && v.value.Multi? && |v.value.vs| > 0 ==> r == Some(v.value.vs[0])
  {
    match v
    case None => None
    case Some(Single(s)) => Some(s)
    case Some(Multi(vs)) => if |vs| > 0 then Some(vs[0]) else None
  }
}
