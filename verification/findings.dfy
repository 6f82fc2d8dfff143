/**
  Six places where the code as written departs from what it evidently
  means to do. For each, the as-written behaviour is modelled here with an
  input that exhibits the discrepancy; the rest of the model uses the
  corrected behaviour, whose intended property is proved where it lives
  (named at each finding) and contrasted here on the same input.
 */
module Findings {
  import opened Common
  import opened LinkPattern
  import opened GameModel
  import opened UserModel
  import opened Database
  import opened GameServices
  import opened AdminServices
  import opened UserServices
  import opened Workflow
  import opened UserValidation

  // ---------------------------------------------------------------------------
  // A. The pending record's `gameStatus` defaults to `active`.

  /** The staged edit as written: a record created without `gameStatus`
      receives the schema default `active`. */
  function StagedRecordAsWritten(gameId: Id, userId: Id, d: GameUpdateInput, images: seq<string>,
                                 thumbnail: Option<string>, requested: Option<GameStatus>, now: Time)
    : (u: PendingGameUpdate)
    ensures u.gameStatus.Some?
    ensures requested.None? ==> u.gameStatus == Some(Active)
    ensures u == StagedRecord(gameId, userId, d, images, thumbnail, u.gameStatus, now)
  {
    StagedRecord(gameId, userId, d, images, thumbnail, Some(requested.GetOr(Active)), now)
  }

  /** An upcoming game with a release date. */
  function UpcomingGame(): Game {
    NewGame(1, "studio", "Old title", "", "A long description", [], None, ["rpg"], [],
            0, [SocialLink("site", "https://ab")], Upcoming, Some(100))
  }

  /** The sample game's one social link passes the schema. */
  lemma SampleLinksValid()
    ensures SocialLinksValid([SocialLink("site", "https://ab")])
  {
    WellFormedLinkAccepted('a', "b");
    assert "https://" + ['a'] + "b" == "https://ab";
  }

  /** A title-only edit. */
  function TitleEdit(): GameUpdateInput {
    GameUpdateInput(Some(0), Some("New title"), None, None, None, None, None, None, None, None)
  }

  /** As written, approving a title-only edit of an upcoming game turns it
      into an active game and drops its release date. */
  lemma AsWrittenTitleEditResetsUpcoming()
    ensures var g := UpcomingGame();
            var g' := ApplyMerge(g, GameMergeSet(StagedRecordAsWritten(0, 1, TitleEdit(), [], None, None, 5)));
            && g.gameStatus == Upcoming && g.upcomingDate == Some(100)
            && g'.title == "New title" && g'.gameStatus == Active && g'.upcomingDate.None?
  {
    var u := StagedRecordAsWritten(0, 1, TitleEdit(), [], None, None, 5);
    ApplyMergeSetIsMergedFrom(UpcomingGame(), u);
  }

  /** As written, no record's merge set is ever empty, so the "nothing to
      update" refusal of the approval can never fire. */
  lemma AsWrittenMergeNeverEmpty(gameId: Id, userId: Id, d: GameUpdateInput, images: seq<string>,
                                 thumbnail: Option<string>, requested: Option<GameStatus>, now: Time)
    ensures !MergeEmpty(GameMergeSet(StagedRecordAsWritten(gameId, userId, d, images, thumbnail, requested, now)))
  {
  }

  /** Corrected: the same edit staged without a status keeps the game upcoming
      and dated (in general: `Workflow.StatuslessEditKeepsStatus`). */
  lemma CorrectedTitleEditKeepsUpcoming()
    ensures var g' := ApplyMerge(UpcomingGame(), GameMergeSet(StagedRecord(0, 1, TitleEdit(), [], None, None, 5)));
            g'.title == "New title" && g'.gameStatus == Upcoming && g'.upcomingDate == Some(100)
  {
    ApplyMergeSetIsMergedFrom(UpcomingGame(), StagedRecord(0, 1, TitleEdit(), [], None, None, 5));
  }

  // ---------------------------------------------------------------------------
  // B. The pending record's `links` defaults to `[]`.

  /** The staged profile change as written: links that were not supplied
      become the empty list. */
  function StagedProfileAsWritten(userId: Id, p: ProfileInput, photo: Option<string>, now: Time)
    : (u: PendingUserUpdate)
    ensures u.links.Some?
    ensures p.links.None? ==> u.links == Some([])
    ensures p.links.Some? ==> u == StagedProfile(userId, p, photo, now)
  {
    PendingUserUpdate(userId, p.name, p.userName, p.bio, Some(p.links.GetOr([])), photo, Pending, now, None)
  }

  /** A user with one profile link. */
  function LinkedUser(): User {
    User("sub-1", "Ann", None, "ann@site.io", None, USER, None, [SocialLink("site", "https://ab")], None, true, false)
  }

  /** A change of the name alone. */
  function RenameOnly(): ProfileInput {
    ProfileInput(Some("Anna"), None, None, None)
  }

  /** As written, approving a rename wipes the user's links. */
  lemma AsWrittenRenameWipesLinks()
    ensures var u' := ApplyProfileMerge(LinkedUser(), ProfileMergeSet(StagedProfileAsWritten(0, RenameOnly(), None, 5)));
            && |LinkedUser().links| == 1
            && u'.name == "Anna" && u'.links == []
  {
  }

  /** Corrected: the rename staged with links absent keeps them (in
      general: `Workflow.LinklessProfileChangeKeepsLinks`). */
  lemma CorrectedRenameKeepsLinks()
    ensures var u' := ApplyProfileMerge(LinkedUser(), ProfileMergeSet(StagedProfile(0, RenameOnly(), None, 5)));
            u'.name == "Anna" && u'.links == LinkedUser().links
  {
  }

  // ---------------------------------------------------------------------------
  // C. `updateUserProfileIntoDb` does not refuse a second pending change.

  /** The profile staging as written: no check for a pending change, and the
      links default of finding B. */
  function UpdateProfileAsWritten(s: Store, userId: Option<Id>, payload: Option<ProfileInput>,
                                  upload: Option<string>, now: Time): (r: Result<(Store, Id)>)
    ensures r.Err? ==> r.kind in {InternalError, Forbidden, NotFound}
    ensures r.Err? && r.kind == NotFound <==> payload.Some? && userId.Some? && FindUser(s.users, userId.value).None?
    ensures r.Ok? ==>
              && payload.Some? && userId.Some? && FindUser(s.users, userId.value).Some?
              && r.value.1 == s.nextId && s.nextId in r.value.0.profileUpdates
              && r.value.0.profileUpdates[s.nextId].userId == userId.value
              && r.value.0.profileUpdates[s.nextId].status == Pending
              && r.value.0.profileUpdates == s.profileUpdates[s.nextId := r.value.0.profileUpdates[s.nextId]]
  {
    if payload.None? then Err(InternalError)
    else if userId.None? then Err(Forbidden)
    else if FindUser(s.users, userId.value).None? then Err(NotFound)
    else
      var photo := if upload.Some? then upload else s.users[userId.value].photo;
      var u := StagedProfileAsWritten(userId.value, payload.value, photo, now);
      if !PendingUserUpdateValid(u) then Err(InternalError)
      else Ok((s.(profileUpdates := s.profileUpdates[s.nextId := u], nextId := s.nextId + 1), s.nextId))
  }

  /** A store holding `LinkedUser` (id 0) and one pending change of theirs (id 1). */
  function StoreWithPendingChange(): Store {
    Empty.(users := map[0 := LinkedUser()],
           profileUpdates := map[1 := PendingUserUpdate(0, Some("Old"), None, None, None, None, Pending, 3, None)],
           nextId := 2)
  }

  /** As written, a second change is staged while the first is pending. */
  lemma AsWrittenStagesSecondPending()
    ensures OnePendingProfileUpdate(StoreWithPendingChange())
    ensures UpdateProfileAsWritten(StoreWithPendingChange(), Some(0), Some(RenameOnly()), None, 5).Ok?
    ensures !OnePendingProfileUpdate(UpdateProfileAsWritten(StoreWithPendingChange(), Some(0), Some(RenameOnly()), None, 5).value.0)
  {
    var s := StoreWithPendingChange();
    var s' := UpdateProfileAsWritten(s, Some(0), Some(RenameOnly()), None, 5).value.0;
    assert s'.profileUpdates[1] == s.profileUpdates[1];
    assert s'.profileUpdates[2].userId == 0;
  }

  /** Corrected: the same request is refused (in general:
      `Workflow.UpdateProfileKeepsOnePending`). */
  lemma CorrectedRefusesSecondPending()
    ensures UpdateProfile(StoreWithPendingChange(), Some(0), Some(RenameOnly()), None, 5) == Err(BadRequest)
  {
    assert HasPendingProfileUpdate(StoreWithPendingChange(), 0) by {
      assert StoreWithPendingChange().profileUpdates[1].userId == 0;
    }
  }

  // ---------------------------------------------------------------------------
  // D. The `upcomingDate` validator never sees a missing date.

  /** The game schema as written: the date validator only runs when a date
      is present, and a present date is always truthy. */
  predicate GameSchemaValidAsWritten(g: Game) {
    && g.userName != ""
    && g.title != ""
    && g.description != ""
    && SocialLinksValid(g.socialLinks)
    && (g.upcomingDate.Some? ==> (g.gameStatus == Upcoming ==> g.upcomingDate.Some?))
  }

  /** The corrected schema implies the written one; the converse fails only
      for an upcoming game without a date. */
  lemma SchemaAsWrittenDiffersOnlyOnDate(g: Game)
    ensures GameSchemaValid(g) ==> GameSchemaValidAsWritten(g)
    ensures GameSchemaValidAsWritten(g) && !GameSchemaValid(g) ==> g.gameStatus == Upcoming && g.upcomingDate.None?
  {
  }

  /** As written, an upcoming game without a release date passes the
      schema; the corrected schema refuses it. */
  lemma AsWrittenSchemaAdmitsUndatedUpcoming()
    ensures var g := UpcomingGame().(upcomingDate := None);
            GameSchemaValidAsWritten(g) && !GameSchemaValid(g)
  {
    var g := UpcomingGame().(upcomingDate := None);
    SampleLinksValid();
    assert g.socialLinks == [SocialLink("site", "https://ab")];
  }

  /** The approval as written: the date validator does not fire on the
      update (it is skipped for a date the update leaves undefined, and an
      update validator does not see the game's status), so only the other
      path validators can refuse the write. */
  function ApproveGameUpdateAsWritten(s: Store, updateId: Option<Id>, now: Time): (r: Result<Store>)
    ensures r.Ok? <==>
              && updateId.Some? && IsDecisionTarget(s, updateId.value)
              && !MergeEmpty(GameMergeSet(s.gameUpdates[updateId.value]))
              && MergePathsValid(GameMergeSet(s.gameUpdates[updateId.value]))
    ensures r.Err? ==> r == ApproveGameUpdate(s, updateId, now)
    ensures ApproveGameUpdate(s, updateId, now).Ok? ==> r == ApproveGameUpdate(s, updateId, now)
    ensures r.Ok? && ApproveGameUpdate(s, updateId, now).Err? ==>
              var g' := MergedGame(s, updateId.value);
              g'.gameStatus == Upcoming && g'.upcomingDate.None?
  {
    var t := GameDecisionTarget(s, updateId);
    if t.Err? then Err(t.kind)
    else
      var (id, u, g) := t.value;
      var m := GameMergeSet(u);
      if MergeEmpty(m) then Err(BadRequest)
      else if !MergePathsValid(m) then Err(InternalError)
      else
        Ok(s.(games := s.games[u.gameId := ApplyMerge(g, m)],
              gameUpdates := s.gameUpdates[id := u.(status := Approved, reviewedAt := Some(now))]))
  }

  /** A store with a live, approved, undated active game (id 0) and a
      pending edit of it (id 1) that asks for `upcoming` without a date. */
  function StoreWithUndatedUpcomingEdit(): Store {
    var g := NewGame(1, "studio", "Old title", "", "A long description", [], None, ["rpg"], [],
                     0, [], Active, None).(isApproved := true);
    var u := PendingGameUpdate(0, 1, None, None, None, [], None, [], [], None, [], NoLinkType,
                               Some(Upcoming), None, Pending, 3, None);
    Empty.(games := map[0 := g], gameUpdates := map[1 := u], nextId := 2)
  }

  /** As written, approving the edit stores an upcoming game without a
      release date; the corrected approval refuses the write. */
  lemma AsWrittenApprovalLeavesUpcomingUndated()
    ensures ApproveGameUpdateAsWritten(StoreWithUndatedUpcomingEdit(), Some(1), 5).Ok?
    ensures var g' := ApproveGameUpdateAsWritten(StoreWithUndatedUpcomingEdit(), Some(1), 5).value.games[0];
            g'.gameStatus == Upcoming && g'.upcomingDate.None?
    ensures ApproveGameUpdate(StoreWithUndatedUpcomingEdit(), Some(1), 5) == Err(InternalError)
  {
    var s := StoreWithUndatedUpcomingEdit();
    assert IsDecisionTarget(s, 1);
  }

  // ---------------------------------------------------------------------------
  // E. `submitProfileUpdate` looks the user up by a field users do not have.

  /** What `User.findOne({ userId, isDeleted: { $ne: true } })` finds. The
      user schema has no `userId` path. With `strictQuery` on, that
      condition is dropped and any live user matches; with it off, the
      condition stays and no user matches. */
  predicate AsWrittenLookupFinds(s: Store, strictQuery: bool) {
    strictQuery && exists k :: k in s.users && !s.users[k].isDeleted
  }

  /** The submission as written: the id is never compared with a user's
      id, and the rest proceeds as in `UserServices.SubmitProfileUpdate`. */
  function SubmitProfileUpdateAsWritten(s: Store, baseUrl: string, userId: Option<Id>, p: SubmitInput, now: Time,
                                        strictQuery: bool): (r: Result<(Store, Id)>)
    ensures !strictQuery ==> r == Err(NotFound)
    ensures r == Err(NotFound) <==> userId.None? || !AsWrittenLookupFinds(s, strictQuery)
    ensures strictQuery && userId.Some? && FindUser(s.users, userId.value).Some? ==>
              r == SubmitProfileUpdate(s, baseUrl, userId, p, now)
  {
    if userId.None? || !AsWrittenLookupFinds(s, strictQuery) then Err(NotFound)
    else SubmitFoundUser(s, baseUrl, userId.value, p, now)
  }

  /** A store holding only `LinkedUser`, with id 0. */
  function StoreWithLinkedUser(): Store {
    Empty.(users := map[0 := LinkedUser()], nextId := 1)
  }

  /** A submission of a new name and a photo. */
  function RenameWithPhoto(): SubmitInput {
    SubmitInput(Some("Anna"), None, None, None, Some("uploads/ann.png"))
  }

  /** As written with `strictQuery` off, the user's own submission is
      NOT_FOUND; the corrected lookup stages it. */
  lemma AsWrittenSubmitMissesUser()
    ensures SubmitProfileUpdateAsWritten(StoreWithLinkedUser(), "https://cdn", Some(0), RenameWithPhoto(), 5, false)
            == Err(NotFound)
    ensures SubmitProfileUpdate(StoreWithLinkedUser(), "https://cdn", Some(0), RenameWithPhoto(), 5).Ok?
  {
    var s := StoreWithLinkedUser();
    assert !HasPendingProfileUpdate(s, 0);
  }

  /** As written with `strictQuery` on, a submission for an id that names
      no user is staged because some other user is live; the corrected
      lookup refuses it. */
  lemma AsWrittenSubmitStagesForUnknownId()
    ensures SubmitProfileUpdateAsWritten(StoreWithLinkedUser(), "https://cdn", Some(9), RenameWithPhoto(), 5, true).Ok?
    ensures 9 !in StoreWithLinkedUser().users
    ensures SubmitProfileUpdate(StoreWithLinkedUser(), "https://cdn", Some(9), RenameWithPhoto(), 5) == Err(NotFound)
  {
    var s := StoreWithLinkedUser();
    assert 0 in s.users && !s.users[0].isDeleted;
    assert !HasPendingProfileUpdate(s, 9);
  }

  // ---------------------------------------------------------------------------
  // F. The profile payload is spread over the staged record's owner and dates.

  /** A key of the payload that names a path of the staged record: absent,
      a value Mongoose casts to the path's type, or one it cannot cast
      (for `userId`, also `null`, which the required owner refuses). */
  datatype Key<T> = Absent | Given(v: T) | Uncastable

  /** The payload keys, besides the four profile fields, that the spread
      copies into the staged record and nothing overwrites afterwards. */
  datatype RecordKeys = RecordKeys(userId: Key<Id>, submittedAt: Key<Time>, reviewedAt: Key<Time>)

  const NoRecordKeys: RecordKeys := RecordKeys(Absent, Absent, Absent)

  predicate HasUncastableKey(k: RecordKeys) {
    k.userId.Uncastable? || k.submittedAt.Uncastable? || k.reviewedAt.Uncastable?
  }

  /** The staged record with the payload's keys laid over the caller's id
      and the server's dates. */
  function WithRecordKeys(u: PendingUserUpdate, k: RecordKeys): (u': PendingUserUpdate)
    requires !HasUncastableKey(k)
    ensures u'.userId == (if k.userId.Given? then k.userId.v else u.userId)
    ensures u'.submittedAt == (if k.submittedAt.Given? then k.submittedAt.v else u.submittedAt)
    ensures u'.reviewedAt == (if k.reviewedAt.Given? then Some(k.reviewedAt.v) else u.reviewedAt)
    ensures u'.(userId := u.userId, submittedAt := u.submittedAt, reviewedAt := u.reviewedAt) == u
  {
    u.(userId := if k.userId.Given? then k.userId.v else u.userId,
       submittedAt := if k.submittedAt.Given? then k.submittedAt.v else u.submittedAt,
       reviewedAt := if k.reviewedAt.Given? then Some(k.reviewedAt.v) else u.reviewedAt)
  }

  /** `updateUserProfileIntoDb` as written, with findings B and C and the
      payload's record keys: a key Mongoose cannot cast fails the insert,
      which the catch block turns into a 500. */
  function UpdateProfileWithKeys(s: Store, userId: Option<Id>, payload: Option<ProfileInput>, keys: RecordKeys,
                                 upload: Option<string>, now: Time): (r: Result<(Store, Id)>)
    ensures keys == NoRecordKeys ==> r == UpdateProfileAsWritten(s, userId, payload, upload, now)
    ensures payload.Some? && userId.Some? && FindUser(s.users, userId.value).Some? && HasUncastableKey(keys)
            ==> r == Err(InternalError)
    ensures r.Ok? ==>
              && payload.Some? && userId.Some? && FindUser(s.users, userId.value).Some?
              && r.value.1 == s.nextId && s.nextId in r.value.0.profileUpdates
              && r.value.0.profileUpdates[s.nextId].userId == (if keys.userId.Given? then keys.userId.v else userId.value)
              && r.value.0.profileUpdates[s.nextId].submittedAt == (if keys.submittedAt.Given? then keys.submittedAt.v else now)
  {
    if payload.None? then Err(InternalError)
    else if userId.None? then Err(Forbidden)
    else if FindUser(s.users, userId.value).None? then Err(NotFound)
    else if HasUncastableKey(keys) then Err(InternalError)
    else
      var photo := if upload.Some? then upload else s.users[userId.value].photo;
      var u := WithRecordKeys(StagedProfileAsWritten(userId.value, payload.value, photo, now), keys);
      if !PendingUserUpdateValid(u) then Err(InternalError)
      else Ok((s.(profileUpdates := s.profileUpdates[s.nextId := u], nextId := s.nextId + 1), s.nextId))
  }

  /** A second user, with id 7. */
  function OtherUser(): User {
    User("sub-7", "Bob", None, "bob@site.io", None, USER, None, [], None, true, false)
  }

  /** `LinkedUser` (id 0) and `OtherUser` (id 7), with nothing pending. */
  function StoreWithTwoUsers(): Store {
    Empty.(users := map[0 := LinkedUser(), 7 := OtherUser()], nextId := 8)
  }

  /** As written, user 0 sends a rename whose payload carries `userId: 7`;
      an admin approves the record, and it is user 7 who is renamed. The
      corrected staging records the change for user 0. */
  lemma AsWrittenStagesForAnotherUser()
    ensures var r := UpdateProfileWithKeys(StoreWithTwoUsers(), Some(0), Some(RenameOnly()),
                                           RecordKeys(Given(7), Absent, Absent), None, 5);
            && r.Ok?
            && r.value.0.profileUpdates[8].userId == 7
            && var a := ApproveProfileUpdate(r.value.0, Some(8), 6);
               a.Ok? && a.value.users[7].name == "Anna" && a.value.users[0] == LinkedUser()
    ensures var r := UpdateProfile(StoreWithTwoUsers(), Some(0), Some(RenameOnly()), None, 5);
            r.Ok? && r.value.0.profileUpdates[8].userId == 0
  {
    var s := StoreWithTwoUsers();
    assert FindUser(s.users, 0).Some? && FindUser(s.users, 7).Some?;
    assert !HasPendingProfileUpdate(s, 0);
    var r := UpdateProfileWithKeys(s, Some(0), Some(RenameOnly()), RecordKeys(Given(7), Absent, Absent), None, 5);
    var u := r.value.0.profileUpdates[8];
    assert u.links == Some([]) && ProfileLinksValid([]);
    assert FindUser(r.value.0.users, 7).Some?;
  }

  /** As written, a rename that the validator passes but whose payload
      carries `submittedAt: "x"` ends in a 500; the corrected staging ignores
      the key and records the change. */
  lemma AsWrittenBadDateIsInternalError()
    ensures CheckProfileUpdate(Some(RenameOnly())) == Pass
    ensures UpdateProfileWithKeys(StoreWithTwoUsers(), Some(0), Some(RenameOnly()),
                                  RecordKeys(Absent, Uncastable, Absent), None, 5) == Err(InternalError)
    ensures UpdateProfile(StoreWithTwoUsers(), Some(0), Some(RenameOnly()), None, 5).Ok?
  {
    var s := StoreWithTwoUsers();
    assert FindUser(s.users, 0).Some?;
    assert !HasPendingProfileUpdate(s, 0);
  }
}
