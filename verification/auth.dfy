/**
  The `auth(...requireRoles)` middleware: extract the token from the
  Authorization header, verify it, check the token's role against the
  allowed roles, and find the account it names among the users, then
  (for administrator roles) among the admins. Token verification is an
  oracle: the map from the tokens that verify to the claims they carry.
 */
module Auth {
  import opened Common
  import opened LinkPattern
  import opened UserModel
  import opened Database

  /** The claims of a verified token. */
  datatype Claims = Claims(role: string, id: Id, email: string)

  /** The account a request is authenticated as. */
  datatype Account = UserAccount(userId: Id, user: User) | AdminAccount(adminId: Id, admin: Admin)

  /** The text of `s` up to its first space. */
  function UpToSpace(s: string): (r: string)
    ensures Excludes(r, ' ')
    ensures HasPrefix(s, r)
    ensures |r| < |s| ==> s[|r|] == ' '
  {
    if s == [] || s[0] == ' ' then [] else [s[0]] + UpToSpace(s[1..])
  }

  /** The token of a header: after a `Bearer ` prefix, the next
      space-delimited word (`split(' ')[1]`); otherwise the whole header. */
  function TokenOf(header: string): (t: string)
    ensures !HasPrefix(header, "Bearer ") ==> t == header
    ensures HasPrefix(header, "Bearer ") ==> Excludes(t, ' ') && HasPrefix(header, "Bearer " + t)
  {
    if HasPrefix(header, "Bearer ") then
      var t := UpToSpace(header[7..]);
      assert HasPrefix(header, "Bearer " + t) by {
        assert header[..7 + |t|] == header[..7] + header[7..][..|t|];
      }
      t
    else header
  }

  /** A space-free token sent with the `Bearer ` scheme is recovered exactly. */
  lemma {:induction false} BearerTokenRecovered(t: string)
    requires Excludes(t, ' ')
    ensures TokenOf("Bearer " + t) == t
  {
    var h := "Bearer " + t;
    assert HasPrefix(h, "Bearer ");
    assert h[7..] == t;
    UpToSpaceOfWord(t);
  }

  lemma {:induction false} UpToSpaceOfWord(t: string)
    requires Excludes(t, ' ')
    ensures UpToSpace(t) == t
  {
    if t != [] {
      assert Excludes(t[1..], ' ');
      UpToSpaceOfWord(t[1..]);
      assert t == [t[0]] + t[1..];
    }
  }

  /** `requireRoles.length && !requireRoles.includes(role)` is false. */
  predicate Admits(requireRoles: seq<Role>, role: string) {
    |requireRoles| == 0 || (ParseRole(role).Some? && ParseRole(role).value in requireRoles)
  }

  /** A visible user with this id and email. */
  predicate UserMatches(s: Store, c: Claims) {
    FindUser(s.users, c.id).Some? && s.users[c.id].email == c.email
  }

  /** A visible admin with this id and email. */
  predicate AdminMatches(s: Store, c: Claims) {
    FindAdmin(s.admins, c.id).Some? && s.admins[c.id].email == c.email
  }

  /** The claimed role is an administrator role. */
  predicate AdminRole(role: string) {
    role == "ADMIN" || role == "SUPERADMIN"
  }

  /** The middleware's decision for one request. */
  function Authenticate(s: Store, header: Option<string>, verify: map<string, Claims>, requireRoles: seq<Role>)
    : (r: Result<Account>)
    ensures r.Err? ==> r.kind in {Unauthorized, Forbidden, NotFound}
    ensures r.Err? && r.kind == Unauthorized <==> !Truthy(header) || TokenOf(header.value) !in verify
    ensures r.Err? && r.kind == Forbidden <==>
              && Truthy(header) && TokenOf(header.value) in verify
              && !Admits(requireRoles, verify[TokenOf(header.value)].role)
    ensures r.Ok? ==>
              && Truthy(header) && TokenOf(header.value) in verify
              && var c := verify[TokenOf(header.value)];
                 && Admits(requireRoles, c.role)
                 && (r.value.UserAccount? ==> UserMatches(s, c) && r.value == UserAccount(c.id, s.users[c.id]))
                 && (r.value.AdminAccount? ==>
                       && !UserMatches(s, c) && AdminRole(c.role) && AdminMatches(s, c)
                       && r.value == AdminAccount(c.id, s.admins[c.id]))
    ensures (&& Truthy(header) && TokenOf(header.value) in verify
             && var c := verify[TokenOf(header.value)];
                Admits(requireRoles, c.role) && (UserMatches(s, c) || (AdminRole(c.role) && AdminMatches(s, c))))
            ==> r.Ok?
  {
    if !Truthy(header) then Err(Unauthorized)
    else
      var token := TokenOf(header.value);
      if token !in verify then Err(Unauthorized)
      else
        var c := verify[token];
        if !Admits(requireRoles, c.role) then Err(Forbidden)
        else if UserMatches(s, c) then Ok(UserAccount(c.id, s.users[c.id]))
        else if AdminRole(c.role) && AdminMatches(s, c) then Ok(AdminAccount(c.id, s.admins[c.id]))
        else Err(NotFound)
  }

  /** A USER-role token is never resolved to an admin account, even when an
      admin document with the same id and email exists. */
  lemma UserTokenNeverAdmin(s: Store, header: Option<string>, verify: map<string, Claims>, requireRoles: seq<Role>)
    requires Truthy(header) && TokenOf(header.value) in verify
    requires verify[TokenOf(header.value)].role == "USER"
    requires Authenticate(s, header, verify, requireRoles).Ok?
    ensures Authenticate(s, header, verify, requireRoles).value.UserAccount?
  {
  }
}
