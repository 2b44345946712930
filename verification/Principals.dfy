/** Who is calling, and why a caller is turned away (edc_translation/auth.py). */
module Principals {
  import opened Wrappers

  datatype Principal = Principal(
    subject: string,
    tenantId: string,
    roles: set<string>,
    scopes: set<string>,
    authType: string,
    tokenId: Option<string>)

  /** The reasons of session tokens, and then those of API tokens. */
  datatype AuthError =
    | Segments
    | Encoding
    | BadSignature
    | Malformed
    | Algorithm
    | MissingClaim
    | Expired
    | NotFound
    | ExpiredOrRevoked
}
