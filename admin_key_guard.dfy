/** `AdminKeyGuard` (admin/admin-key.guard.ts): the shared-secret check in front of
    the admin routes. The configured key (`process.env.ADMIN_KEY`) is a parameter. */
module AdminKeyGuard {
  import opened Common
  import opened HttpHeaders

  /** `readHeader(req, name)`: the header under the lower-cased name; the first
      element of an array; `undefined` when absent. */
  function ReadHeader(headers: Headers, name: string): (r: Option<string>)
    ensures r.Some? <==> ToLower(name) in headers
    ensures r.Some? ==> r.value == headers[ToLower(name)]
  {
    FirstValue(Declared(headers, ToLower(name)))
  }

  /** `canActivate`: without a configured key every request is refused; otherwise
      exactly the requests whose `x-admin-key` equals the configured key pass.
      Every refusal is `Unauthorized`. */
  function CanActivate(headers: Headers, expected: Option<string>): (r: Result<bool>)
    ensures !Truthy(expected) ==> r == Failure(Unauthorized)
    ensures r.Success? <==> Truthy(expected) && ReadHeader(headers, "x-admin-key") == Some(expected.value)
    ensures r.Success? ==> r.value
    ensures r.Failure? ==> r.error == Unauthorized
  {
    if !Truthy(expected) then Failure(Unauthorized)
    else
      var key := ReadHeader(headers, "x-admin-key");
      if !Truthy(key) || key.value != expected.value then Failure(Unauthorized)
      else Success(true)
  }

  /** The header name is matched case-insensitively: `X-Admin-Key` and
      `x-admin-key` read the same header. */
  lemma ReadHeaderIgnoresCase(headers: Headers, name: string)
    ensures ReadHeader(headers, name) == ReadHeader(headers, ToLower(name))
  {
    ToLowerIdempotent(name);
  }
}
