/**
 * The bearer-token primitives of JwtUtils. Their implementation is not part of
 * this model: they are carried as functions, and the clock they read is the
 * explicit parameter `now`.
 */
module Jwt {
  import opened Common

  /** What reading the subject claim of a token gives. */
  datatype Extraction =
    | Subject(username: Option<string>)  // the claim, or null when the token has none
    | Unparseable                        // the parser throws (malformed or rejected token)

  datatype JwtUtils = JwtUtils(
    generateToken: (string, int) -> string,        // (subject, now)
    extractUsername: string -> Extraction,
    extractExpiration: string -> int,
    isTokenExpired: (string, int) -> bool,         // (token, now)
    validateToken: (string, string, int) -> bool)  // (token, username, now)
}
