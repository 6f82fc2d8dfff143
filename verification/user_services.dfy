/**
  The user services: sign-up, self-deletion of an account or of one's own
  game, and the two ways of staging a profile change for moderation.
 */
module UserServices {
  import opened Common
  import opened GameModel
  import opened UserModel
  import opened Database
  import MediaUrl
  import JsNumbers

  // ---------------------------------------------------------------------------
  // Sign-up

  /** The sign-up payload; the request validator guarantees the three strings are present. */
  datatype SignupInput = SignupInput(sub: string, name: string, email: string, password: Option<string>, photo: Option<string>)

  /** Sign-up either finds the account already there or creates one. */
  datatype Signup = Existed | Created(id: Id)

  /** A visible USER account with this email. */
  predicate HasVisibleUserWithEmail(s: Store, email: string) {
    exists k :: k in s.users && !s.users[k].isDeleted && s.users[k].email == email && s.users[k].role == USER
  }

  /** The unique indexes on `sub` and `email`, which cover deleted users too. */
  predicate SubOrEmailTaken(s: Store, sub: string, email: string) {
    exists k :: k in s.users && (s.users[k].sub == sub || s.users[k].email == email)
  }

  /** `createUserIntoDb`: a visible USER with the same email is returned as
      it is; otherwise a USER is created, subject to the schema and the
      unique indexes. Every failure surfaces as SERVICE_UNAVAILABLE. */
  function CreateUser(s: Store, p: SignupInput): (r: Result<(Store, Signup)>)
    ensures r.Err? ==> r.kind == ServiceUnavailable
    ensures HasVisibleUserWithEmail(s, p.email) ==> r == Ok((s, Existed))
    ensures r.Ok? && r.value.1.Existed? <==> HasVisibleUserWithEmail(s, p.email)
    ensures r.Ok? && r.value.1.Existed? ==> r.value.0 == s
    ensures r.Err? <==>
              && !HasVisibleUserWithEmail(s, p.email)
              && (p.sub == "" || p.name == "" || p.email == "" || SubOrEmailTaken(s, p.sub, p.email))
    ensures r.Ok? && r.value.1.Created? ==>
              && !HasVisibleUserWithEmail(s, p.email)
              && !SubOrEmailTaken(s, p.sub, p.email)
              && r.value.1.id == s.nextId
              && r.value.0 == s.(users := s.users[s.nextId := NewUser(p.sub, p.name, p.email, p.password, USER, p.photo)],
                                 nextId := s.nextId + 1)
              && UserSchemaValid(r.value.0.users[s.nextId])
    ensures (&& !HasVisibleUserWithEmail(s, p.email) && !SubOrEmailTaken(s, p.sub, p.email)
             && p.sub != "" && p.name != "" && p.email != "")
            ==> r.Ok? && r.value.1 == Created(s.nextId)
  {
    if HasVisibleUserWithEmail(s, p.email) then Ok((s, Existed))
    else
      var u := NewUser(p.sub, p.name, p.email, p.password, USER, p.photo);
      if !UserSchemaValid(u) || SubOrEmailTaken(s, p.sub, p.email) then Err(ServiceUnavailable)
      else if PreSave(true, p.password.Some?, u.approvedUpdate, {NamePath, PhotoPath, LinksPath}).Fail? then
        Err(ServiceUnavailable)
      else
        Ok((s.(users := s.users[s.nextId := u], nextId := s.nextId + 1), Created(s.nextId)))
  }

  // ---------------------------------------------------------------------------
  // Self-deletion

  /** `deleteUserIntoDb`: a user may delete only their own, visible account;
      the document is removed physically. */
  function DeleteOwnAccount(s: Store, userId: Option<Id>, authUserId: Option<Id>): (r: Result<Store>)
    ensures r.Err? ==> r.kind == NoContent || r.kind == NotFound
    ensures r.Err? && r.kind == NoContent <==> authUserId.None? || userId.None? || userId != authUserId
    ensures r.Err? && r.kind == NotFound <==>
              authUserId.Some? && userId == authUserId && FindUser(s.users, userId.value).None?
    ensures r.Ok? ==> userId.Some? && userId == authUserId && r.value == s.(users := s.users - {userId.value})
  {
    if authUserId.None? || userId.None? || userId != authUserId then Err(NoContent)
    else if FindUser(s.users, userId.value).None? then Err(NotFound)
    else Ok(s.(users := s.users - {userId.value}))
  }

  /** `deleteGameIntoDb`: the owner of a visible game removes it physically. */
  function DeleteOwnGame(s: Store, gameId: Option<Id>, authUserId: Option<Id>): (r: Result<Store>)
    ensures r.Err? ==> r.kind == NoContent || r.kind == NotFound
    ensures r.Err? && r.kind == NotFound <==>
              authUserId.Some? && gameId.Some? && FindGame(s.games, gameId.value).None?
    ensures r.Err? && r.kind == NoContent <==>
              || authUserId.None? || gameId.None?
              || (FindGame(s.games, gameId.value).Some? && s.games[gameId.value].owner != authUserId.value)
    ensures r.Ok? ==> && gameId.Some? && authUserId.Some? && gameId.value in s.games
                      && s.games[gameId.value].owner == authUserId.value
                      && r.value == s.(games := s.games - {gameId.value})
  {
    if authUserId.None? || gameId.None? then Err(NoContent)
    else if FindGame(s.games, gameId.value).None? then Err(NotFound)
    else if s.games[gameId.value].owner != authUserId.value then Err(NoContent)
    else Ok(s.(games := s.games - {gameId.value}))
  }

  // ---------------------------------------------------------------------------
  // Staging a profile change

  /** The `data` object of a profile change. */
  datatype ProfileInput = ProfileInput(name: Option<string>, userName: Option<string>, bio: Option<string>, links: Option<seq<SocialLink>>)

  /** The staged record for a profile change; links stay absent when the
      change does not supply them. */
  function StagedProfile(userId: Id, p: ProfileInput, photo: Option<string>, now: Time): (u: PendingUserUpdate)
    ensures u.userId == userId && u.status == Pending && u.submittedAt == now && u.reviewedAt.None?
    ensures u.links == p.links && u.photo == photo
  {
    PendingUserUpdate(userId, p.name, p.userName, p.bio, p.links, photo, Pending, now, None)
  }

  /** `updateUserProfileIntoDb`. Destructuring an absent payload throws
      before any check (a 500). The caller must be a visible user; a user
      who already has a pending change is refused; the photo is the new
      upload's URL, else the current photo. A link validation failure is
      re-wrapped as a 500. The user document is not touched. */
  function UpdateProfile(s: Store, userId: Option<Id>, payload: Option<ProfileInput>, upload: Option<string>, now: Time)
    : (r: Result<(Store, Id)>)
    ensures r.Err? ==> r.kind in {InternalError, Forbidden, NotFound, BadRequest}
    ensures payload.None? ==> r == Err(InternalError)
    ensures payload.Some? && userId.None? ==> r == Err(Forbidden)
    ensures r.Err? && r.kind == NotFound <==> payload.Some? && userId.Some? && FindUser(s.users, userId.value).None?
    ensures r.Err? && r.kind == BadRequest <==>
              && payload.Some? && userId.Some? && FindUser(s.users, userId.value).Some?
              && HasPendingProfileUpdate(s, userId.value)
    ensures r.Ok? <==>
              && payload.Some? && userId.Some? && FindUser(s.users, userId.value).Some?
              && !HasPendingProfileUpdate(s, userId.value)
              && (payload.value.links.None? || ProfileLinksValid(payload.value.links.value))
    ensures r == Err(InternalError) <==>
              || payload.None?
              || (&& userId.Some? && FindUser(s.users, userId.value).Some?
                  && !HasPendingProfileUpdate(s, userId.value)
                  && payload.value.links.Some? && !ProfileLinksValid(payload.value.links.value))
    ensures r.Ok? ==>
              && payload.Some? && userId.Some? && userId.value in s.users && !s.users[userId.value].isDeleted
              && !HasPendingProfileUpdate(s, userId.value)
              && r.value.1 == s.nextId && s.nextId in r.value.0.profileUpdates
              && var u := r.value.0.profileUpdates[s.nextId];
                 && u.userId == userId.value && u.status == Pending
                 && u.name == payload.value.name && u.userName == payload.value.userName
                 && u.bio == payload.value.bio && u.links == payload.value.links
                 && u.photo == (if upload.Some? then upload else s.users[userId.value].photo)
                 && PendingUserUpdateValid(u)
                 && r.value.0 == s.(profileUpdates := s.profileUpdates[s.nextId := u], nextId := s.nextId + 1)
  {
    if payload.None? then Err(InternalError)
    else if userId.None? then Err(Forbidden)
    else if FindUser(s.users, userId.value).None? then Err(NotFound)
    else if HasPendingProfileUpdate(s, userId.value) then Err(BadRequest)
    else
      var photo := if upload.Some? then upload else s.users[userId.value].photo;
      var u := StagedProfile(userId.value, payload.value, photo, now);
      if !PendingUserUpdateValid(u) then Err(InternalError)
      else Ok((s.(profileUpdates := s.profileUpdates[s.nextId := u], nextId := s.nextId + 1), s.nextId))
  }

  /** The body of a direct profile submission; `photo` is a file path. */
  datatype SubmitInput = SubmitInput(name: Option<string>, userName: Option<string>, bio: Option<string>,
                                     links: Option<seq<SocialLink>>, photo: Option<string>)

  /** `submitProfileUpdate`: the user must be visible and must not have a
      pending change. The staged photo is the profile media URL of the
      given path; an absent path makes the URL builder throw (a 500). A link
      validation failure is not caught. */
  function SubmitProfileUpdate(s: Store, baseUrl: string, userId: Option<Id>, p: SubmitInput, now: Time)
    : (r: Result<(Store, Id)>)
    ensures r.Err? ==> r.kind in {NotFound, BadRequest, InternalError, SchemaViolation}
    ensures r.Err? && r.kind == NotFound <==> userId.None? || FindUser(s.users, userId.value).None?
    ensures r.Err? && r.kind == BadRequest <==>
              userId.Some? && FindUser(s.users, userId.value).Some? && HasPendingProfileUpdate(s, userId.value)
    ensures r.Err? && r.kind == InternalError <==>
              && userId.Some? && FindUser(s.users, userId.value).Some? && !HasPendingProfileUpdate(s, userId.value)
              && p.photo.None?
    ensures r.Ok? <==>
              && userId.Some? && FindUser(s.users, userId.value).Some? && !HasPendingProfileUpdate(s, userId.value)
              && p.photo.Some? && (p.links.None? || ProfileLinksValid(p.links.value))
    ensures r.Err? && r.kind == SchemaViolation <==>
              && userId.Some? && FindUser(s.users, userId.value).Some? && !HasPendingProfileUpdate(s, userId.value)
              && p.photo.Some? && p.links.Some? && !ProfileLinksValid(p.links.value)
    ensures r.Ok? ==>
              && userId.Some? && p.photo.Some? && r.value.1 == s.nextId && s.nextId in r.value.0.profileUpdates
              && var u := r.value.0.profileUpdates[s.nextId];
                 && u.userId == userId.value && u.status == Pending && u.links == p.links
                 && u.photo.Some? && MediaUrl.HasUrlPrefix(u.photo.value, baseUrl)
                 && r.value.0.users == s.users
                 && r.value.0 == s.(profileUpdates := s.profileUpdates[s.nextId := u], nextId := s.nextId + 1)
  {
    if userId.None? || FindUser(s.users, userId.value).None? then Err(NotFound)
    else SubmitFoundUser(s, baseUrl, userId.value, p, now)
  }

  /** The submission once the user lookup has succeeded: the pending check,
      the photo, then the schema. */
  function SubmitFoundUser(s: Store, baseUrl: string, userId: Id, p: SubmitInput, now: Time): (r: Result<(Store, Id)>)
    ensures r.Err? ==> r.kind in {BadRequest, InternalError, SchemaViolation}
    ensures r == Err(BadRequest) <==> HasPendingProfileUpdate(s, userId)
    ensures r == Err(InternalError) <==> !HasPendingProfileUpdate(s, userId) && p.photo.None?
    ensures r.Ok? <==>
              !HasPendingProfileUpdate(s, userId) && p.photo.Some? && (p.links.None? || ProfileLinksValid(p.links.value))
    ensures r == Err(SchemaViolation) <==>
              !HasPendingProfileUpdate(s, userId) && p.photo.Some? && p.links.Some? && !ProfileLinksValid(p.links.value)
    ensures r.Ok? ==>
              && p.photo.Some? && r.value.1 == s.nextId && s.nextId in r.value.0.profileUpdates
              && var u := r.value.0.profileUpdates[s.nextId];
                 && u.userId == userId && u.status == Pending && u.links == p.links
                 && u.photo.Some? && MediaUrl.HasUrlPrefix(u.photo.value, baseUrl)
                 && r.value.0 == s.(profileUpdates := s.profileUpdates[s.nextId := u], nextId := s.nextId + 1)
  {
    if HasPendingProfileUpdate(s, userId) then Err(BadRequest)
    else if p.photo.None? then Err(InternalError)
    else
      var url := MediaUrl.ProfileMediaUrl(baseUrl, p.photo.value, JsNumbers.Decimal(userId));
      var u := PendingUserUpdate(userId, p.name, p.userName, p.bio, p.links, Some(url), Pending, now, None);
      if !PendingUserUpdateValid(u) then Err(SchemaViolation)
      else Ok((s.(profileUpdates := s.profileUpdates[s.nextId := u], nextId := s.nextId + 1), s.nextId))
  }
}
