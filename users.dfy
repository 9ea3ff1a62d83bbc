/**
 * The request and response messages of the `User` RPC service shared by both backends,
 * and the two identifier kinds a claims lookup can use.
 */
module Users {
  /** `IdentifierType_SUBJECT`: the identifier is the principal's subject (its GUID or id). */
  const SUBJECT: int := 0
  /** `IdentifierType_USER_NAME`: the identifier is the principal's login name. */
  const USER_NAME: int := 1

  datatype AuthRequest = AuthRequest(username: string, password: string)
  datatype AuthResponse = AuthResponse(succeeded: bool, subject: string, error: int)

  datatype ClaimsRequest = ClaimsRequest(identifier: string, identifierType: int, claims: seq<string>)
  datatype ClaimsResponse = ClaimsResponse(succeeded: bool, claims: map<string, string>, error: int)

  datatype SearchRequest = SearchRequest(search: string, claims: seq<string>)
  datatype SearchResponse = SearchResponse(succeeded: bool, results: seq<map<string, string>>, error: int)

  /** A Go map read: the stored value, or the empty string for a missing key. */
  function Get(m: map<string, string>, k: string): (v: string)
    ensures k in m ==> v == m[k]
    ensures k !in m ==> v == ""
  {
    if k in m then m[k] else ""
  }
}
