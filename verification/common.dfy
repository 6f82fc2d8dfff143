/**
  Vocabulary shared by every part of the moderation backend: record ids,
  the error kinds a service call can surface, roles, social links and the
  Option/Result wrappers every operation returns.
 */
module Common {

  /** Database ids (Mongo ObjectIds) are modelled as naturals. */
  type Id = nat

  /** Instants (JavaScript `Date` values) are modelled as integers. */
  type Time = int

  datatype Option<+T> = None | Some(value: T) {
    function GetOr(default: T): T {
      match this
      case Some(v) => v
      case None => default
    }
  }

  /** The HTTP status kinds the services throw through `AppError`.
      `SchemaViolation` is a Mongoose validation error, which carries no
      status code of its own. */
  datatype ErrorKind =
    | BadRequest
    | Unauthorized
    | Forbidden
    | NotFound
    | NoContent
    | ServiceUnavailable
    | InternalError
    | SchemaViolation

  datatype Result<+T> = Ok(value: T) | Err(kind: ErrorKind)

  /** A pass/fail check without a value. */
  datatype Outcome = Pass | Fail(kind: ErrorKind)

  datatype Role = USER | ADMIN | SUPERADMIN

  /** The role names as the services spell them. */
  function ParseRole(s: string): (r: Option<Role>)
    ensures r == Some(USER) <==> s == "USER"
    ensures r == Some(ADMIN) <==> s == "ADMIN"
    ensures r == Some(SUPERADMIN) <==> s == "SUPERADMIN"
  {
    if s == "USER" then Some(USER)
    else if s == "ADMIN" then Some(ADMIN)
    else if s == "SUPERADMIN" then Some(SUPERADMIN)
    else None
  }

  /** The life cycle of a staged (pending) change: `pending`, `approved`, `rejected`. */
  datatype ReviewStatus = Pending | Approved | Rejected

  /** A `{ name, link }` pair as stored in social-link and profile-link lists. */
  datatype SocialLink = SocialLink(name: string, link: string)

  /** JavaScript truthiness of an optional string: present and non-empty. */
  predicate Truthy(s: Option<string>) {
    s.Some? && s.value != ""
  }

  /** `x || fallback` for an optional string. */
  function OrElse(x: Option<string>, fallback: string): (r: string)
    ensures Truthy(x) ==> r == x.value
    ensures !Truthy(x) ==> r == fallback
  {
    if Truthy(x) then x.value else fallback
  }

  /** ECMAScript white space and line terminators, by code point: the
      regex class `\s`, and what `Number`, `parseInt` and `trim` skip. */
  predicate IsWhiteSpace(n: int) {
    n == 0x09 || n == 0x0A || n == 0x0B || n == 0x0C || n == 0x0D || n == 0x20
    || n == 0xA0 || n == 0x1680 || (0x2000 <= n <= 0x200A) || n == 0x2028
    || n == 0x2029 || n == 0x202F || n == 0x205F || n == 0x3000 || n == 0xFEFF
  }

  /** Every character of `s` other than `c`. */
  predicate Excludes(s: string, c: char) {
    forall i :: 0 <= i < |s| ==> s[i] != c
  }

  /** `s` with every occurrence of `from` replaced by `to`
      (`s.split(from).join(to)` and `s.replace(/from/g, to)`). */
  function ReplaceChar(s: string, from: char, to: char): (r: string)
    ensures |r| == |s|
    ensures forall i :: 0 <= i < |s| ==> r[i] == (if s[i] == from then to else s[i])
  {
    if s == [] then [] else [if s[0] == from then to else s[0]] + ReplaceChar(s[1..], from, to)
  }
}
