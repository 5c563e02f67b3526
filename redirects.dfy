/**
 * Redirect targets as values. A URL with a query string is kept as its base
 * and its list of parameters (`base . '?' . http_build_query(params)`), so
 * that what the receiving side reads back with `$request->query(key)` is a
 * function of the parameters.
 */
module Redirects {
  import opened Wrappers

  const CallbackPath: string := "/sso/callback"
  const LogoutPath: string := "/sso/logout"
  const DashboardPath: string := "/dashboard"

  datatype Param = Param(key: string, value: string)

  datatype Location = To(url: string) | WithQuery(base: string, query: seq<Param>)

  /** An HTTP redirect, with the flash message it carries into the session, if any. */
  datatype Redirect = Redirect(location: Location, flash: Option<string>)

  /** PHP truthiness of a string-or-null: `null`, `""` and `"0"` are false. */
  predicate Truthy(v: Option<string>) {
    v.Some? && v.value != "" && v.value != "0"
  }

  /** PHP string concatenation treats `null` as the empty string. */
  function Str(v: Option<string>): string {
    v.GetOr("")
  }

  /** The value the receiving side reads for `key`; when a key repeats, the last one wins. */
  function QueryValue(query: seq<Param>, key: string): (r: Option<string>)
    ensures r.None? <==> forall i :: 0 <= i < |query| ==> query[i].key != key
    ensures r.Some? ==> exists i :: 0 <= i < |query| && query[i] == Param(key, r.value)
                                   && forall j :: i < j < |query| ==> query[j].key != key
    decreases |query|
  {
    if query == [] then None
    else if query[|query| - 1].key == key then Some(query[|query| - 1].value)
    else QueryValue(query[..|query| - 1], key)
  }

  /** The partner's `/sso/callback` link carrying a token, the issuer's base URL and the final destination. */
  function CallbackLink(partner: string, token: string, issuer: string, returnTo: string): (l: Location)
    ensures l.WithQuery? && l.base == partner + CallbackPath
    ensures QueryValue(l.query, "token") == Some(token)
    ensures QueryValue(l.query, "issuer") == Some(issuer)
    ensures QueryValue(l.query, "return_to") == Some(returnTo)
  {
    var query := [Param("token", token), Param("issuer", issuer), Param("return_to", returnTo)];
    assert query[..2] == [Param("token", token), Param("issuer", issuer)];
    assert query[..2][..1] == [Param("token", token)];
    assert QueryValue(query[..2], "token") == Some(token);
    WithQuery(partner + CallbackPath, query)
  }

  /** The partner's `/sso/logout` link carrying the destination after logout. */
  function LogoutLink(partner: string, returnTo: string): (l: Location)
    ensures l.WithQuery? && l.base == partner + LogoutPath
    ensures QueryValue(l.query, "return_to") == Some(returnTo)
    ensures QueryValue(l.query, "token") == None
  {
    WithQuery(partner + LogoutPath, [Param("return_to", returnTo)])
  }
}
