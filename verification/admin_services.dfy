/**
  The administrator services: creating admin accounts under the
  single-SUPERADMIN rules, approving new games, the approve/reject
  decisions on staged game and profile changes (with the merge sets that
  approval writes into the live documents), and hard deletion of users and
  games.
 */
module AdminServices {
  import opened Common
  import opened LinkPattern
  import opened GameModel
  import opened UserModel
  import opened Database

  // ---------------------------------------------------------------------------
  // Creating administrators

  /** The `payload` of an admin creation; `role` is the requested role name. */
  datatype AdminInput = AdminInput(name: Option<string>, email: Option<string>, password: Option<string>, role: string)

  predicate HasVisibleSuperAdmin(s: Store) {
    exists k :: k in s.admins && !s.admins[k].isDeleted && s.admins[k].role == SUPERADMIN
  }

  predicate HasVisibleAdminWithEmail(s: Store, email: string) {
    exists k :: k in s.admins && !s.admins[k].isDeleted && s.admins[k].email == email
  }

  /** The unique index on `email` covers deleted admins too. */
  predicate EmailTaken(s: Store, email: string) {
    exists k :: k in s.admins && s.admins[k].email == email
  }

  /** The creator is a visible SUPERADMIN. */
  predicate IsSuperAdminCreator(s: Store, creatorId: Option<Id>) {
    creatorId.Some? && FindAdmin(s.admins, creatorId.value).Some?
    && s.admins[creatorId.value].role == SUPERADMIN
  }

  /** `createAdminIntoDb`. The role must be SUPERADMIN or ADMIN and the email
      must not belong to a visible admin; while no visible SUPERADMIN exists
      only a SUPERADMIN may be created, and afterwards only a SUPERADMIN
      creator may create, and only ADMINs. Every failure, whatever its cause,
      surfaces as SERVICE_UNAVAILABLE. */
  function CreateAdmin(s: Store, p: AdminInput, creatorId: Option<Id>): (r: Result<(Store, Id)>)
    ensures r.Err? ==> r.kind == ServiceUnavailable
    ensures r.Ok? ==>
              var role := ParseRole(p.role);
              && (role == Some(SUPERADMIN) || role == Some(ADMIN))
              && Truthy(p.name) && Truthy(p.email) && Truthy(p.password)
              && !HasVisibleAdminWithEmail(s, p.email.value)
              && !EmailTaken(s, p.email.value)
              && (!HasVisibleSuperAdmin(s) ==> role == Some(SUPERADMIN))
              && (HasVisibleSuperAdmin(s) ==> role == Some(ADMIN) && IsSuperAdminCreator(s, creatorId))
              && r.value.1 == s.nextId
              && r.value.0 == s.(admins := s.admins[s.nextId := Admin(p.name.value, p.email.value, p.password.value, role.value, false)],
                                 nextId := s.nextId + 1)
    ensures
      (&& ParseRole(p.role).Some? && ParseRole(p.role) != Some(USER)
       && Truthy(p.name) && Truthy(p.email) && Truthy(p.password)
       && !EmailTaken(s, p.email.value)
       && (if HasVisibleSuperAdmin(s) then ParseRole(p.role) == Some(ADMIN) && IsSuperAdminCreator(s, creatorId)
           else ParseRole(p.role) == Some(SUPERADMIN)))
      ==> r.Ok?
  {
    var role := ParseRole(p.role);
    if role != Some(SUPERADMIN) && role != Some(ADMIN) then Err(ServiceUnavailable)
    else if p.email.Some? && HasVisibleAdminWithEmail(s, p.email.value) then Err(ServiceUnavailable)
    else if !HasVisibleSuperAdmin(s) && role != Some(SUPERADMIN) then Err(ServiceUnavailable)
    else if HasVisibleSuperAdmin(s) && (!IsSuperAdminCreator(s, creatorId) || role == Some(SUPERADMIN)) then
      Err(ServiceUnavailable)
    else if !Truthy(p.name) || !Truthy(p.email) || !Truthy(p.password) || EmailTaken(s, p.email.value) then
      Err(ServiceUnavailable)
    else
      Ok((s.(admins := s.admins[s.nextId := Admin(p.name.value, p.email.value, p.password.value, role.value, false)],
             nextId := s.nextId + 1), s.nextId))
  }

  /** At most one visible SUPERADMIN. */
  predicate AtMostOneSuperAdmin(s: Store) {
    forall a, b ::
      (&& a in s.admins && b in s.admins
       && !s.admins[a].isDeleted && !s.admins[b].isDeleted
       && s.admins[a].role == SUPERADMIN && s.admins[b].role == SUPERADMIN)
      ==> a == b
  }

  /** Creating an admin never makes a second visible SUPERADMIN. */
  lemma CreateAdminKeepsOneSuperAdmin(s: Store, p: AdminInput, creatorId: Option<Id>)
    requires AtMostOneSuperAdmin(s)
    requires s.nextId !in s.admins
    requires CreateAdmin(s, p, creatorId).Ok?
    ensures AtMostOneSuperAdmin(CreateAdmin(s, p, creatorId).value.0)
  {
    var s' := CreateAdmin(s, p, creatorId).value.0;
    var n := s.nextId;
    forall a, b | a in s'.admins && b in s'.admins
      && !s'.admins[a].isDeleted && !s'.admins[b].isDeleted
      && s'.admins[a].role == SUPERADMIN && s'.admins[b].role == SUPERADMIN
      ensures a == b
    {
    }
  }

  /** With no creator, an admin can be created only while no visible
      SUPERADMIN exists, and then only as the SUPERADMIN. */
  lemma CreatorlessOnlyBootstraps(s: Store, p: AdminInput)
    requires CreateAdmin(s, p, None).Ok?
    ensures !HasVisibleSuperAdmin(s)
    ensures CreateAdmin(s, p, None).value.0.admins[s.nextId].role == SUPERADMIN
  {
  }

  // ---------------------------------------------------------------------------
  // Approving a new game

  /** `approveGame`: marks a live game approved and changes nothing else. */
  function ApproveGame(s: Store, gameId: Id): (r: Result<Store>)
    ensures r.Err? <==> FindGame(s.games, gameId).None?
    ensures r.Err? ==> r.kind == NotFound
    ensures r.Ok? ==> gameId in s.games && r.value == s.(games := s.games[gameId := s.games[gameId].(isApproved := true)])
  {
    if FindGame(s.games, gameId).None? then Err(NotFound)
    else Ok(s.(games := s.games[gameId := s.games[gameId].(isApproved := true)]))
  }

  // ---------------------------------------------------------------------------
  // Deciding on a staged game change

  /** The fields approval writes into a game. A status change always
      assigns `upcomingDate` too, clearing it unless it is re-set. */
  datatype GameMerge = GameMerge(
    title: Option<string>,
    subTitle: Option<string>,
    description: Option<string>,
    image: Option<seq<string>>,
    thumbnail: Option<string>,
    categories: Option<seq<string>>,
    platform: Option<seq<string>>,
    price: Option<int>,
    socialLinks: Option<seq<SocialLink>>,
    status: Option<GameStatus>,
    upcomingDate: Option<Time>)

  /** The merge set of a pending record: defined scalars, non-empty lists, a
      non-empty thumbnail, and a status change that re-sets the date only
      for `upcoming`. */
  function GameMergeSet(u: PendingGameUpdate): (m: GameMerge)
    ensures m.image.Some? <==> |u.image| > 0
    ensures m.thumbnail.Some? <==> Truthy(u.thumbnail)
    ensures m.socialLinks.Some? ==> |m.socialLinks.value| > 0
    ensures m.status.Some? <==> u.gameStatus.Some?
    ensures m.upcomingDate.Some? ==> m.status == Some(Upcoming)
  {
    GameMerge(
      u.title, u.subTitle, u.description,
      if |u.image| > 0 then Some(u.image) else None,
      if Truthy(u.thumbnail) then u.thumbnail else None,
      if |u.categories| > 0 then Some(u.categories) else None,
      if |u.platform| > 0 then Some(u.platform) else None,
      u.price,
      if |u.socialLinks| > 0 then Some(u.socialLinks) else None,
      u.gameStatus,
      if u.gameStatus == Some(Upcoming) then u.upcomingDate else None)
  }

  predicate MergeEmpty(m: GameMerge) {
    && m.title.None? && m.subTitle.None? && m.description.None? && m.image.None?
    && m.thumbnail.None? && m.categories.None? && m.platform.None? && m.price.None?
    && m.socialLinks.None? && m.status.None?
  }

  /** `$set` of a merge set on a game. */
  function ApplyMerge(g: Game, m: GameMerge): Game {
    g.(title := m.title.GetOr(g.title),
       subTitle := m.subTitle.GetOr(g.subTitle),
       description := m.description.GetOr(g.description),
       image := m.image.GetOr(g.image),
       thumbnail := if m.thumbnail.Some? then m.thumbnail else g.thumbnail,
       categories := m.categories.GetOr(g.categories),
       platform := m.platform.GetOr(g.platform),
       price := m.price.GetOr(g.price),
       socialLinks := m.socialLinks.GetOr(g.socialLinks),
       gameStatus := m.status.GetOr(g.gameStatus),
       upcomingDate := if m.status.Some? then m.upcomingDate else g.upcomingDate)
  }

  /** The update validators on the paths a merge set assigns: required
      strings stay non-empty and new social links are valid. */
  predicate MergePathsValid(m: GameMerge) {
    && (m.title.None? || m.title.value != "")
    && (m.description.None? || m.description.value != "")
    && (m.socialLinks.None? || SocialLinksValid(m.socialLinks.value))
  }

  /** The game `g'` is `g` with the pending record `u` approved into it,
      stated field by field from the record. */
  predicate MergedFrom(g': Game, g: Game, u: PendingGameUpdate) {
    && g'.title == (if u.title.Some? then u.title.value else g.title)
    && g'.subTitle == (if u.subTitle.Some? then u.subTitle.value else g.subTitle)
    && g'.description == (if u.description.Some? then u.description.value else g.description)
    && g'.price == (if u.price.Some? then u.price.value else g.price)
    && g'.image == (if |u.image| > 0 then u.image else g.image)
    && g'.thumbnail == (if Truthy(u.thumbnail) then u.thumbnail else g.thumbnail)
    && g'.categories == (if |u.categories| > 0 then u.categories else g.categories)
    && g'.platform == (if |u.platform| > 0 then u.platform else g.platform)
    && g'.socialLinks == (if |u.socialLinks| > 0 then u.socialLinks else g.socialLinks)
    && g'.gameStatus == (if u.gameStatus.Some? then u.gameStatus.value else g.gameStatus)
    && g'.upcomingDate == (if u.gameStatus == Some(Upcoming) then u.upcomingDate
                           else if u.gameStatus == Some(Active) then None
                           else g.upcomingDate)
    && g'.owner == g.owner && g'.userName == g.userName && g'.linkType == g.linkType
    && g'.upvote == g.upvote && g'.totalUpvote == g.totalUpvote
    && g'.comments == g.comments && g'.totalComments == g.totalComments
    && g'.shares == g.shares && g'.totalShare == g.totalShare
    && g'.isApproved == g.isApproved && g'.isDelete == g.isDelete
  }

  /** Applying the merge set of a record yields exactly the game the record describes. */
  lemma ApplyMergeSetIsMergedFrom(g: Game, u: PendingGameUpdate)
    ensures MergedFrom(ApplyMerge(g, GameMergeSet(u)), g, u)
  {
  }

  /** `id` names a pending record whose game is live and approved: the
      records `approveGameUpdate` may merge. */
  predicate IsDecisionTarget(s: Store, id: Id) {
    && id in s.gameUpdates
    && s.gameUpdates[id].status == Pending
    && FindGame(s.games, s.gameUpdates[id].gameId).Some?
    && s.games[s.gameUpdates[id].gameId].isApproved
  }

  /** The checks of `approveGameUpdate` before the write, in order: a
      missing id, a non-pending record and an unapproved game are
      BAD_REQUEST; an unknown record and a hidden game are NOT_FOUND. */
  function GameDecisionTarget(s: Store, updateId: Option<Id>): (r: Result<(Id, PendingGameUpdate, Game)>)
    ensures r.Ok? <==> updateId.Some? && IsDecisionTarget(s, updateId.value)
    ensures r.Ok? ==> && r.value.0 == updateId.value && r.value.1 == s.gameUpdates[updateId.value]
                      && FindGame(s.games, r.value.1.gameId) == Some(r.value.2)
    ensures r.Err? ==> r.kind == BadRequest || r.kind == NotFound
    ensures r == Err(NotFound) <==>
              && updateId.Some?
              && (|| updateId.value !in s.gameUpdates
                  || (&& s.gameUpdates[updateId.value].status == Pending
                      && FindGame(s.games, s.gameUpdates[updateId.value].gameId).None?))
    ensures r == Err(BadRequest) <==>
              || updateId.None?
              || (&& updateId.value in s.gameUpdates
                  && var u := s.gameUpdates[updateId.value];
                     || u.status != Pending
                     || (FindGame(s.games, u.gameId).Some? && !s.games[u.gameId].isApproved))
  {
    if updateId.None? then Err(BadRequest)
    else if updateId.value !in s.gameUpdates then Err(NotFound)
    else
      var u := s.gameUpdates[updateId.value];
      if u.status != Pending then Err(BadRequest)
      else if FindGame(s.games, u.gameId).None? then Err(NotFound)
      else if !s.games[u.gameId].isApproved then Err(BadRequest)
      else Ok((updateId.value, u, s.games[u.gameId]))
  }

  /** The game an approval of the pending record `id` would write. */
  function MergedGame(s: Store, id: Id): Game
    requires IsDecisionTarget(s, id)
  {
    ApplyMerge(s.games[s.gameUpdates[id].gameId], GameMergeSet(s.gameUpdates[id]))
  }

  /** `approveGameUpdate`: a pending record for an approved, live game is
      merged into the game and marked approved. The checks before the write
      are those of `GameDecisionTarget`; a record with nothing to merge is
      BAD_REQUEST; validation failures of the write surface as
      INTERNAL_SERVER_ERROR (they carry no status code). The write also
      refuses to leave an upcoming game without a release date, the
      corrected schema of Finding D (`Findings.ApproveGameUpdateAsWritten`
      is the code as written). */
  function ApproveGameUpdate(s: Store, updateId: Option<Id>, now: Time): (r: Result<Store>)
    ensures r.Err? ==> r.kind in {BadRequest, NotFound, InternalError}
    ensures GameDecisionTarget(s, updateId).Err? ==> r == Err(GameDecisionTarget(s, updateId).kind)
    ensures updateId.None? ==> r == Err(BadRequest)
    ensures updateId.Some? && updateId.value !in s.gameUpdates ==> r == Err(NotFound)
    ensures (updateId.Some? && updateId.value in s.gameUpdates && s.gameUpdates[updateId.value].status != Pending)
            ==> r == Err(BadRequest)
    ensures (&& updateId.Some? && updateId.value in s.gameUpdates && s.gameUpdates[updateId.value].status == Pending
             && FindGame(s.games, s.gameUpdates[updateId.value].gameId).None?)
            ==> r == Err(NotFound)
    ensures (&& updateId.Some? && updateId.value in s.gameUpdates && s.gameUpdates[updateId.value].status == Pending
             && FindGame(s.games, s.gameUpdates[updateId.value].gameId).Some?
             && !s.games[s.gameUpdates[updateId.value].gameId].isApproved)
            ==> r == Err(BadRequest)
    ensures updateId.Some? && IsDecisionTarget(s, updateId.value) ==>
              (r == Err(BadRequest) <==> MergeEmpty(GameMergeSet(s.gameUpdates[updateId.value])))
    ensures r.Ok? <==>
              && updateId.Some? && IsDecisionTarget(s, updateId.value)
              && !MergeEmpty(GameMergeSet(s.gameUpdates[updateId.value]))
              && MergePathsValid(GameMergeSet(s.gameUpdates[updateId.value]))
              && UpcomingHasDate(MergedGame(s, updateId.value).gameStatus, MergedGame(s, updateId.value).upcomingDate)
    ensures r == Err(InternalError) <==>
              && updateId.Some? && IsDecisionTarget(s, updateId.value)
              && !MergeEmpty(GameMergeSet(s.gameUpdates[updateId.value]))
              && (|| !MergePathsValid(GameMergeSet(s.gameUpdates[updateId.value]))
                  || !UpcomingHasDate(MergedGame(s, updateId.value).gameStatus, MergedGame(s, updateId.value).upcomingDate))
    ensures r.Ok? ==>
              var u := s.gameUpdates[updateId.value];
              var g := s.games[u.gameId];
              && u.gameId in r.value.games
              && var g' := r.value.games[u.gameId];
                 && MergedFrom(g', g, u)
                 && r.value == s.(games := s.games[u.gameId := g'],
                                  gameUpdates := s.gameUpdates[updateId.value := u.(status := Approved, reviewedAt := Some(now))])
  {
    var t := GameDecisionTarget(s, updateId);
    if t.Err? then Err(t.kind)
    else
      var (id, u, g) := t.value;
      var m := GameMergeSet(u);
      if MergeEmpty(m) then Err(BadRequest)
      else
        var g' := ApplyMerge(g, m);
        ApplyMergeSetIsMergedFrom(g, u);
        if !MergePathsValid(m) || !UpcomingHasDate(g'.gameStatus, g'.upcomingDate) then Err(InternalError)
        else
          Ok(s.(games := s.games[u.gameId := g'],
                gameUpdates := s.gameUpdates[id := u.(status := Approved, reviewedAt := Some(now))]))
  }

  /** A record that has been decided on can never be approved again. */
  lemma ApprovedRecordNotReapproved(s: Store, updateId: Id, now: Time, later: Time)
    requires ApproveGameUpdate(s, Some(updateId), now).Ok?
    ensures ApproveGameUpdate(ApproveGameUpdate(s, Some(updateId), now).value, Some(updateId), later) == Err(BadRequest)
  {
  }

  /** `rejectGameUpdate`: deletes a pending record; the game is untouched. */
  function RejectGameUpdate(s: Store, updateId: Option<Id>): (r: Result<Store>)
    ensures r.Err? ==> r.kind == NotFound || r.kind == BadRequest
    ensures r.Err? && r.kind == NotFound <==> updateId.None? || updateId.value !in s.gameUpdates
    ensures r.Err? && r.kind == BadRequest <==>
              updateId.Some? && updateId.value in s.gameUpdates && s.gameUpdates[updateId.value].status != Pending
    ensures r.Ok? ==> updateId.Some? && r.value == s.(gameUpdates := s.gameUpdates - {updateId.value})
    ensures r.Ok? ==> r.value.games == s.games && updateId.value !in r.value.gameUpdates
  {
    if updateId.None? || updateId.value !in s.gameUpdates then Err(NotFound)
    else if s.gameUpdates[updateId.value].status != Pending then Err(BadRequest)
    else Ok(s.(gameUpdates := s.gameUpdates - {updateId.value}))
  }

  // ---------------------------------------------------------------------------
  // Deciding on a staged profile change

  /** The fields profile approval writes besides `approvedUpdate: true`.
      `photo` is `Some(p)` when the photo path is assigned (to `p`, which may be null). */
  datatype ProfileMerge = ProfileMerge(
    name: Option<string>,
    userName: Option<string>,
    bio: Option<string>,
    links: Option<seq<SocialLink>>,
    photo: Option<Option<string>>)

  /** Every defined field of the record is copied; a stored record's photo
      is always defined (it defaults to null). */
  function ProfileMergeSet(u: PendingUserUpdate): (m: ProfileMerge)
    ensures m.photo == Some(u.photo)
    ensures m.links == u.links
  {
    ProfileMerge(u.name, u.userName, u.bio, u.links, Some(u.photo))
  }

  /** The number of keys of the merge set, counting `approvedUpdate`. */
  function ProfileMergeSize(m: ProfileMerge): (n: nat)
    ensures n >= 1
  {
    1 + (if m.name.Some? then 1 else 0) + (if m.userName.Some? then 1 else 0) + (if m.bio.Some? then 1 else 0)
      + (if m.links.Some? then 1 else 0) + (if m.photo.Some? then 1 else 0)
  }

  function ApplyProfileMerge(user: User, m: ProfileMerge): User {
    user.(name := m.name.GetOr(user.name),
          userName := if m.userName.Some? then m.userName else user.userName,
          bio := if m.bio.Some? then m.bio else user.bio,
          links := m.links.GetOr(user.links),
          photo := m.photo.GetOr(user.photo),
          approvedUpdate := true)
  }

  /** The update validators on the assigned user paths. */
  predicate ProfileMergeValid(m: ProfileMerge) {
    && (m.name.None? || m.name.value != "")
    && (m.links.None? || ProfileLinksValid(m.links.value))
  }

  /** The user `u'` is `u` with the profile record `p` approved into it. */
  predicate ProfileMergedFrom(u': User, u: User, p: PendingUserUpdate) {
    && u'.name == (if p.name.Some? then p.name.value else u.name)
    && u'.userName == (if p.userName.Some? then p.userName else u.userName)
    && u'.bio == (if p.bio.Some? then p.bio else u.bio)
    && u'.links == (if p.links.Some? then p.links.value else u.links)
    && u'.photo == p.photo
    && u'.approvedUpdate
    && u'.sub == u.sub && u'.email == u.email && u'.password == u.password
    && u'.role == u.role && u'.isDeleted == u.isDeleted
  }

  /** `approveProfileUpdate`: a pending record of a live user is merged into
      the user, who is marked `approvedUpdate`, and the record becomes
      approved. The "nothing to apply" rejection can never fire because a
      stored record always defines its photo. */
  function ApproveProfileUpdate(s: Store, updateId: Option<Id>, now: Time): (r: Result<Store>)
    ensures r.Err? ==> r.kind in {BadRequest, NotFound, InternalError}
    ensures r.Err? && r.kind == BadRequest <==>
              updateId.None? || (updateId.value in s.profileUpdates && s.profileUpdates[updateId.value].status != Pending)
    ensures r.Err? && r.kind == NotFound <==>
              && updateId.Some?
              && (|| updateId.value !in s.profileUpdates
                  || (s.profileUpdates[updateId.value].status == Pending
                      && FindUser(s.users, s.profileUpdates[updateId.value].userId).None?))
    ensures r.Ok? <==>
              && updateId.Some? && updateId.value in s.profileUpdates
              && var p := s.profileUpdates[updateId.value];
                 && p.status == Pending && FindUser(s.users, p.userId).Some?
                 && (p.name.None? || p.name.value != "")
                 && (p.links.None? || ProfileLinksValid(p.links.value))
    ensures r == Err(InternalError) <==>
              && updateId.Some? && updateId.value in s.profileUpdates
              && var p := s.profileUpdates[updateId.value];
                 && p.status == Pending && FindUser(s.users, p.userId).Some?
                 && !((p.name.None? || p.name.value != "") && (p.links.None? || ProfileLinksValid(p.links.value)))
    ensures r.Ok? ==>
              && updateId.Some? && updateId.value in s.profileUpdates
              && var p := s.profileUpdates[updateId.value];
                 && p.status == Pending && FindUser(s.users, p.userId).Some? && p.userId in r.value.users
                 && ProfileMergedFrom(r.value.users[p.userId], s.users[p.userId], p)
                 && r.value == s.(users := s.users[p.userId := r.value.users[p.userId]],
                                  profileUpdates := s.profileUpdates[updateId.value := p.(status := Approved, reviewedAt := Some(now))])
  {
    if updateId.None? then Err(BadRequest)
    else if updateId.value !in s.profileUpdates then Err(NotFound)
    else
      var p := s.profileUpdates[updateId.value];
      if p.status != Pending then Err(BadRequest)
      else if FindUser(s.users, p.userId).None? then Err(NotFound)
      else
        var m := ProfileMergeSet(p);
        if ProfileMergeSize(m) == 1 then Err(BadRequest)
        else if !ProfileMergeValid(m) then Err(InternalError)
        else
          Ok(s.(users := s.users[p.userId := ApplyProfileMerge(s.users[p.userId], m)],
                profileUpdates := s.profileUpdates[updateId.value := p.(status := Approved, reviewedAt := Some(now))]))
  }

  /** `rejectProfileUpdate`: the record is kept, marked rejected with the
      review time; the user is untouched. */
  function RejectProfileUpdate(s: Store, updateId: Option<Id>, now: Time): (r: Result<Store>)
    ensures r.Err? ==> r.kind == NotFound || r.kind == BadRequest
    ensures r.Err? && r.kind == NotFound <==> updateId.None? || updateId.value !in s.profileUpdates
    ensures r.Err? && r.kind == BadRequest <==>
              updateId.Some? && updateId.value in s.profileUpdates && s.profileUpdates[updateId.value].status != Pending
    ensures r.Ok? ==>
              && updateId.Some? && updateId.value in s.profileUpdates
              && var p := s.profileUpdates[updateId.value];
                 r.value == s.(profileUpdates := s.profileUpdates[updateId.value := p.(status := Rejected, reviewedAt := Some(now))])
    ensures r.Ok? ==> r.value.users == s.users
  {
    if updateId.None? || updateId.value !in s.profileUpdates then Err(NotFound)
    else
      var p := s.profileUpdates[updateId.value];
      if p.status != Pending then Err(BadRequest)
      else Ok(s.(profileUpdates := s.profileUpdates[updateId.value := p.(status := Rejected, reviewedAt := Some(now))]))
  }

  /** Once decided, a record stays decided: neither decision accepts it again. */
  lemma DecidedProfileRecordIsFinal(s: Store, updateId: Id, now: Time, later: Time)
    requires RejectProfileUpdate(s, Some(updateId), now).Ok?
    ensures var s' := RejectProfileUpdate(s, Some(updateId), now).value;
            && ApproveProfileUpdate(s', Some(updateId), later) == Err(BadRequest)
            && RejectProfileUpdate(s', Some(updateId), later) == Err(BadRequest)
  {
  }

  // ---------------------------------------------------------------------------
  // Hard deletion

  /** `deleteUser`: a visible user is removed from the collection. */
  function DeleteUser(s: Store, userId: Id): (r: Result<Store>)
    ensures r.Err? <==> FindUser(s.users, userId).None?
    ensures r.Err? ==> r.kind == NotFound
    ensures r.Ok? ==> r.value == s.(users := s.users - {userId}) && userId !in r.value.users
  {
    if FindUser(s.users, userId).None? then Err(NotFound)
    else Ok(s.(users := s.users - {userId}))
  }

  /** `deleteGame`: a visible game is removed from the collection. */
  function DeleteGame(s: Store, gameId: Id): (r: Result<Store>)
    ensures r.Err? <==> FindGame(s.games, gameId).None?
    ensures r.Err? ==> r.kind == NotFound
    ensures r.Ok? ==> r.value == s.(games := s.games - {gameId}) && gameId !in r.value.games
  {
    if FindGame(s.games, gameId).None? then Err(NotFound)
    else Ok(s.(games := s.games - {gameId}))
  }
}
