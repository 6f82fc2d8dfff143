/**
  Store-wide invariants of the publishing workflow and the operations that
  keep them: every engagement counter matches its list and each user
  appears at most once per list; every upcoming game has a date; there is
  at most one pending edit per game and owner, and at most one pending
  profile change per user. Accounts keep the unique indexes on `sub` and
  `email`, and at most one live USER per email. The last lemmas follow an
  edit from staging to approval.
 */
module Workflow {
  import opened Common
  import opened GameModel
  import opened UserModel
  import opened Database
  import opened GameServices
  import opened AdminServices
  import opened UserServices

  // ---------------------------------------------------------------------------
  // The invariants

  /** Every stored game's counters match and its actors are distinct. */
  predicate GamesWellFormed(s: Store) {
    forall id :: id in s.games ==> CountersMatch(s.games[id]) && OneEntryPerActor(s.games[id])
  }

  /** Every stored upcoming game has a release date. */
  predicate GamesHaveDates(s: Store) {
    forall id :: id in s.games ==> UpcomingHasDate(s.games[id].gameStatus, s.games[id].upcomingDate)
  }

  /** At most one pending edit per game and user. */
  predicate OnePendingGameUpdate(s: Store) {
    forall a, b ::
      (&& a in s.gameUpdates && b in s.gameUpdates
       && s.gameUpdates[a].status == Pending && s.gameUpdates[b].status == Pending
       && s.gameUpdates[a].gameId == s.gameUpdates[b].gameId
       && s.gameUpdates[a].userId == s.gameUpdates[b].userId)
      ==> a == b
  }

  /** At most one pending profile change per user. */
  predicate OnePendingProfileUpdate(s: Store) {
    forall a, b ::
      (&& a in s.profileUpdates && b in s.profileUpdates
       && s.profileUpdates[a].status == Pending && s.profileUpdates[b].status == Pending
       && s.profileUpdates[a].userId == s.profileUpdates[b].userId)
      ==> a == b
  }

  // ---------------------------------------------------------------------------
  // Engagement keeps the counters

  /** Replacing one game by a well-formed game keeps the store well formed. */
  lemma ReplaceWellFormedGame(s: Store, id: Id, g: Game)
    requires GamesWellFormed(s)
    requires CountersMatch(g) && OneEntryPerActor(g)
    ensures GamesWellFormed(s.(games := s.games[id := g]))
  {
  }

  lemma CreateGameKeepsInvariants(s: Store, userId: Id, data: Option<GameInput>, bodyImages: Option<seq<string>>,
                                  uploads: seq<string>, thumbnailUpload: Option<string>)
    requires GamesWellFormed(s) && GamesHaveDates(s)
    requires CreateGame(s, userId, data, bodyImages, uploads, thumbnailUpload).Ok?
    ensures GamesWellFormed(CreateGame(s, userId, data, bodyImages, uploads, thumbnailUpload).value.0)
    ensures GamesHaveDates(CreateGame(s, userId, data, bodyImages, uploads, thumbnailUpload).value.0)
  {
    var (s', id) := CreateGame(s, userId, data, bodyImages, uploads, thumbnailUpload).value;
    ReplaceWellFormedGame(s, id, s'.games[id]);
  }

  lemma AddCommentKeepsWellFormed(s: Store, userId: Id, gameId: Option<Id>, text: Option<string>, now: Time)
    requires GamesWellFormed(s)
    requires AddComment(s, userId, gameId, text, now).Ok?
    ensures GamesWellFormed(AddComment(s, userId, gameId, text, now).value)
  {
    var s' := AddComment(s, userId, gameId, text, now).value;
    var g := s.games[gameId.value];
    var g' := s'.games[gameId.value];
    assert forall i :: 0 <= i < |g.comments| ==> g'.comments[i] == g.comments[i];
    assert g'.comments[|g.comments|].upvote == [];
    ReplaceWellFormedGame(s, gameId.value, g');
  }

  lemma UpvoteCommentKeepsWellFormed(s: Store, userId: Id, gameId: Option<Id>, commentId: Option<Id>, now: Time)
    requires GamesWellFormed(s)
    requires UpvoteComment(s, userId, gameId, commentId, now).Ok?
    ensures GamesWellFormed(UpvoteComment(s, userId, gameId, commentId, now).value)
  {
    var s' := UpvoteComment(s, userId, gameId, commentId, now).value;
    var g := s.games[gameId.value];
    var g' := s'.games[gameId.value];
    var i := FindComment(g.comments, commentId.value).value;
    assert !HasVoter(g.comments[i].upvote, userId);
    AppendNewVoter(g.comments[i].upvote, Vote(userId, now));
    assert DistinctVoters(g'.comments[i].upvote);
    ReplaceWellFormedGame(s, gameId.value, g');
  }

  lemma UpvoteGameKeepsWellFormed(s: Store, userId: Id, gameId: Option<Id>, now: Time)
    requires GamesWellFormed(s)
    requires UpvoteGame(s, userId, gameId, now).Ok?
    ensures GamesWellFormed(UpvoteGame(s, userId, gameId, now).value)
  {
    var s' := UpvoteGame(s, userId, gameId, now).value;
    var g := s.games[gameId.value];
    AppendNewVoter(g.upvote, Vote(userId, now));
    ReplaceWellFormedGame(s, gameId.value, s'.games[gameId.value]);
  }

  lemma ShareGameKeepsWellFormed(s: Store, userId: Id, gameId: Option<Id>)
    requires GamesWellFormed(s)
    requires ShareGame(s, userId, gameId).Ok?
    ensures GamesWellFormed(ShareGame(s, userId, gameId).value)
  {
    var s' := ShareGame(s, userId, gameId).value;
    var g := s.games[gameId.value];
    AppendNewSharer(g.shares, Share(userId, None));
    ReplaceWellFormedGame(s, gameId.value, s'.games[gameId.value]);
  }

  // ---------------------------------------------------------------------------
  // Edits of games

  /** Approving an edit keeps the counters (they are not part of the merge)
      and the release-date rule (the merged game is checked). */
  lemma ApproveGameUpdateKeepsInvariants(s: Store, updateId: Option<Id>, now: Time)
    requires GamesWellFormed(s) && GamesHaveDates(s)
    requires ApproveGameUpdate(s, updateId, now).Ok?
    ensures GamesWellFormed(ApproveGameUpdate(s, updateId, now).value)
    ensures GamesHaveDates(ApproveGameUpdate(s, updateId, now).value)
  {
    var s' := ApproveGameUpdate(s, updateId, now).value;
    var u := s.gameUpdates[updateId.value];
    var g' := s'.games[u.gameId];
    assert CountersMatch(g') && OneEntryPerActor(g') by {
      assert g'.upvote == s.games[u.gameId].upvote && g'.comments == s.games[u.gameId].comments;
    }
    ReplaceWellFormedGame(s, u.gameId, g');
  }

  lemma StageGameUpdateKeepsOnePending(s: Store, callerId: Option<Id>, d: GameUpdateInput,
                                       bodyImages: Option<seq<string>>, uploads: seq<string>,
                                       thumbnailUpload: Option<string>, now: Time)
    requires IdsIssued(s) && OnePendingGameUpdate(s)
    requires StageGameUpdate(s, callerId, d, bodyImages, uploads, thumbnailUpload, now).Ok?
    ensures OnePendingGameUpdate(StageGameUpdate(s, callerId, d, bodyImages, uploads, thumbnailUpload, now).value)
    ensures IdsIssued(StageGameUpdate(s, callerId, d, bodyImages, uploads, thumbnailUpload, now).value)
  {
    var s' := StageGameUpdate(s, callerId, d, bodyImages, uploads, thumbnailUpload, now).value;
    var n := s.nextId;
    forall a, b |
      && a in s'.gameUpdates && b in s'.gameUpdates
      && s'.gameUpdates[a].status == Pending && s'.gameUpdates[b].status == Pending
      && s'.gameUpdates[a].gameId == s'.gameUpdates[b].gameId
      && s'.gameUpdates[a].userId == s'.gameUpdates[b].userId
      ensures a == b
    {
      if a != n && b != n {
        assert s'.gameUpdates[a] == s.gameUpdates[a] && s'.gameUpdates[b] == s.gameUpdates[b];
      }
    }
  }

  lemma ApproveGameUpdateKeepsOnePending(s: Store, updateId: Option<Id>, now: Time)
    requires OnePendingGameUpdate(s)
    requires ApproveGameUpdate(s, updateId, now).Ok?
    ensures OnePendingGameUpdate(ApproveGameUpdate(s, updateId, now).value)
  {
    var s' := ApproveGameUpdate(s, updateId, now).value;
    forall a, b |
      && a in s'.gameUpdates && b in s'.gameUpdates
      && s'.gameUpdates[a].status == Pending && s'.gameUpdates[b].status == Pending
      && s'.gameUpdates[a].gameId == s'.gameUpdates[b].gameId
      && s'.gameUpdates[a].userId == s'.gameUpdates[b].userId
      ensures a == b
    {
      assert s'.gameUpdates[a] == s.gameUpdates[a] && s'.gameUpdates[b] == s.gameUpdates[b];
    }
  }

  lemma RejectGameUpdateKeepsOnePending(s: Store, updateId: Option<Id>)
    requires OnePendingGameUpdate(s)
    requires RejectGameUpdate(s, updateId).Ok?
    ensures OnePendingGameUpdate(RejectGameUpdate(s, updateId).value)
  {
  }

  // ---------------------------------------------------------------------------
  // Profile changes

  /** Adding a pending record for a user without one keeps the rule. */
  lemma AddPendingProfile(s: Store, u: PendingUserUpdate)
    requires OnePendingProfileUpdate(s)
    requires s.nextId !in s.profileUpdates
    requires !HasPendingProfileUpdate(s, u.userId)
    ensures OnePendingProfileUpdate(s.(profileUpdates := s.profileUpdates[s.nextId := u], nextId := s.nextId + 1))
  {
    var s' := s.(profileUpdates := s.profileUpdates[s.nextId := u], nextId := s.nextId + 1);
    var n := s.nextId;
    forall a, b |
      && a in s'.profileUpdates && b in s'.profileUpdates
      && s'.profileUpdates[a].status == Pending && s'.profileUpdates[b].status == Pending
      && s'.profileUpdates[a].userId == s'.profileUpdates[b].userId
      ensures a == b
    {
      if a != n && b != n {
        assert s'.profileUpdates[a] == s.profileUpdates[a] && s'.profileUpdates[b] == s.profileUpdates[b];
      }
    }
  }

  lemma UpdateProfileKeepsOnePending(s: Store, userId: Option<Id>, payload: Option<ProfileInput>,
                                     upload: Option<string>, now: Time)
    requires IdsIssued(s) && OnePendingProfileUpdate(s)
    requires UpdateProfile(s, userId, payload, upload, now).Ok?
    ensures OnePendingProfileUpdate(UpdateProfile(s, userId, payload, upload, now).value.0)
  {
    var s' := UpdateProfile(s, userId, payload, upload, now).value.0;
    AddPendingProfile(s, s'.profileUpdates[s.nextId]);
  }

  lemma SubmitProfileUpdateKeepsOnePending(s: Store, baseUrl: string, userId: Option<Id>, p: SubmitInput, now: Time)
    requires IdsIssued(s) && OnePendingProfileUpdate(s)
    requires SubmitProfileUpdate(s, baseUrl, userId, p, now).Ok?
    ensures OnePendingProfileUpdate(SubmitProfileUpdate(s, baseUrl, userId, p, now).value.0)
  {
    var s' := SubmitProfileUpdate(s, baseUrl, userId, p, now).value.0;
    AddPendingProfile(s, s'.profileUpdates[s.nextId]);
  }

  lemma DecideProfileKeepsOnePending(s: Store, updateId: Option<Id>, now: Time)
    requires OnePendingProfileUpdate(s)
    ensures ApproveProfileUpdate(s, updateId, now).Ok? ==>
              OnePendingProfileUpdate(ApproveProfileUpdate(s, updateId, now).value)
    ensures RejectProfileUpdate(s, updateId, now).Ok? ==>
              OnePendingProfileUpdate(RejectProfileUpdate(s, updateId, now).value)
  {
    if ApproveProfileUpdate(s, updateId, now).Ok? {
      var s' := ApproveProfileUpdate(s, updateId, now).value;
      forall a, b |
        && a in s'.profileUpdates && b in s'.profileUpdates
        && s'.profileUpdates[a].status == Pending && s'.profileUpdates[b].status == Pending
        && s'.profileUpdates[a].userId == s'.profileUpdates[b].userId
        ensures a == b
      {
        assert s'.profileUpdates[a] == s.profileUpdates[a] && s'.profileUpdates[b] == s.profileUpdates[b];
      }
    }
    if RejectProfileUpdate(s, updateId, now).Ok? {
      var s' := RejectProfileUpdate(s, updateId, now).value;
      forall a, b |
        && a in s'.profileUpdates && b in s'.profileUpdates
        && s'.profileUpdates[a].status == Pending && s'.profileUpdates[b].status == Pending
        && s'.profileUpdates[a].userId == s'.profileUpdates[b].userId
        ensures a == b
      {
        assert s'.profileUpdates[a] == s.profileUpdates[a] && s'.profileUpdates[b] == s.profileUpdates[b];
      }
    }
  }

  // ---------------------------------------------------------------------------
  // From staging to approval

  /** An edit staged without a `gameStatus`, once approved, leaves the
      game's status and release date as they were. */
  lemma StatuslessEditKeepsStatus(s: Store, callerId: Option<Id>, d: GameUpdateInput,
                                  bodyImages: Option<seq<string>>, uploads: seq<string>,
                                  thumbnailUpload: Option<string>, now: Time, later: Time)
    requires IdsIssued(s)
    requires d.gameStatus.None?
    requires StageGameUpdate(s, callerId, d, bodyImages, uploads, thumbnailUpload, now).Ok?
    requires ApproveGameUpdate(StageGameUpdate(s, callerId, d, bodyImages, uploads, thumbnailUpload, now).value,
                               Some(s.nextId), later).Ok?
    ensures var s2 := ApproveGameUpdate(StageGameUpdate(s, callerId, d, bodyImages, uploads, thumbnailUpload, now).value,
                                        Some(s.nextId), later).value;
            && d.gameId.value in s2.games
            && s2.games[d.gameId.value].gameStatus == s.games[d.gameId.value].gameStatus
            && s2.games[d.gameId.value].upcomingDate == s.games[d.gameId.value].upcomingDate
            && s2.games[d.gameId.value].totalUpvote == s.games[d.gameId.value].totalUpvote
  {
    var s1 := StageGameUpdate(s, callerId, d, bodyImages, uploads, thumbnailUpload, now).value;
    assert s1.gameUpdates[s.nextId].gameId == d.gameId.value;
    assert s1.games == s.games;
  }

  /** A profile change that does not mention links, once approved, keeps the
      user's links. */
  lemma LinklessProfileChangeKeepsLinks(s: Store, userId: Option<Id>, payload: Option<ProfileInput>,
                                        upload: Option<string>, now: Time, later: Time)
    requires payload.Some? && payload.value.links.None?
    requires UpdateProfile(s, userId, payload, upload, now).Ok?
    requires ApproveProfileUpdate(UpdateProfile(s, userId, payload, upload, now).value.0, Some(s.nextId), later).Ok?
    ensures var s2 := ApproveProfileUpdate(UpdateProfile(s, userId, payload, upload, now).value.0, Some(s.nextId), later).value;
            && userId.value in s2.users
            && s2.users[userId.value].links == s.users[userId.value].links
            && s2.users[userId.value].approvedUpdate
  {
    var s1 := UpdateProfile(s, userId, payload, upload, now).value.0;
    assert s1.profileUpdates[s.nextId].userId == userId.value;
    assert s1.users == s.users;
  }

  // ---------------------------------------------------------------------------
  // Approving and deleting games and accounts

  /** Every store-wide invariant of the workflow. */
  predicate WorkflowInvariants(s: Store) {
    && IdsIssued(s)
    && GamesWellFormed(s) && GamesHaveDates(s)
    && OnePendingGameUpdate(s) && OnePendingProfileUpdate(s)
  }

  /** Approving a game keeps every invariant, and the game is then visible
      and approved. */
  lemma ApproveGameKeepsInvariants(s: Store, gameId: Id)
    requires WorkflowInvariants(s)
    requires ApproveGame(s, gameId).Ok?
    ensures WorkflowInvariants(ApproveGame(s, gameId).value)
    ensures FindGame(ApproveGame(s, gameId).value.games, gameId).Some?
    ensures ApproveGame(s, gameId).value.games[gameId].isApproved
  {
    var s' := ApproveGame(s, gameId).value;
    var g' := s'.games[gameId];
    assert g'.upvote == s.games[gameId].upvote && g'.comments == s.games[gameId].comments;
    ReplaceWellFormedGame(s, gameId, g');
  }

  /** Removing one game keeps every invariant. */
  lemma RemoveGameKeepsInvariants(s: Store, gameId: Id)
    requires WorkflowInvariants(s)
    ensures WorkflowInvariants(s.(games := s.games - {gameId}))
  {
  }

  /** Removing one account keeps every invariant. */
  lemma RemoveUserKeepsInvariants(s: Store, userId: Id)
    requires WorkflowInvariants(s)
    ensures WorkflowInvariants(s.(users := s.users - {userId}))
  {
  }

  lemma DeleteGameKeepsInvariants(s: Store, gameId: Id)
    requires WorkflowInvariants(s)
    requires DeleteGame(s, gameId).Ok?
    ensures WorkflowInvariants(DeleteGame(s, gameId).value)
    ensures FindGame(DeleteGame(s, gameId).value.games, gameId).None?
  {
    RemoveGameKeepsInvariants(s, gameId);
  }

  lemma DeleteOwnGameKeepsInvariants(s: Store, gameId: Option<Id>, authUserId: Option<Id>)
    requires WorkflowInvariants(s)
    requires DeleteOwnGame(s, gameId, authUserId).Ok?
    ensures WorkflowInvariants(DeleteOwnGame(s, gameId, authUserId).value)
    ensures FindGame(DeleteOwnGame(s, gameId, authUserId).value.games, gameId.value).None?
  {
    RemoveGameKeepsInvariants(s, gameId.value);
  }

  /** A store whose accounts keep the unique indexes: no two accounts share
      a `sub` or an `email`, deleted ones included. */
  predicate UniqueIndexes(s: Store) {
    forall a, b :: a in s.users && b in s.users && a != b ==>
      s.users[a].sub != s.users[b].sub && s.users[a].email != s.users[b].email
  }

  /** At most one live USER account per email, the account sign-up returns. */
  predicate OneLiveUserPerEmail(s: Store) {
    forall a, b ::
      (&& a in s.users && b in s.users
       && !s.users[a].isDeleted && !s.users[b].isDeleted
       && s.users[a].role == USER && s.users[b].role == USER
       && s.users[a].email == s.users[b].email)
      ==> a == b
  }

  lemma DeleteUserKeepsInvariants(s: Store, userId: Id)
    requires WorkflowInvariants(s) && UniqueIndexes(s) && OneLiveUserPerEmail(s)
    requires DeleteUser(s, userId).Ok?
    ensures WorkflowInvariants(DeleteUser(s, userId).value)
    ensures UniqueIndexes(DeleteUser(s, userId).value) && OneLiveUserPerEmail(DeleteUser(s, userId).value)
    ensures FindUser(DeleteUser(s, userId).value.users, userId).None?
  {
    RemoveUserKeepsInvariants(s, userId);
  }

  lemma DeleteOwnAccountKeepsInvariants(s: Store, userId: Option<Id>, authUserId: Option<Id>)
    requires WorkflowInvariants(s) && UniqueIndexes(s) && OneLiveUserPerEmail(s)
    requires DeleteOwnAccount(s, userId, authUserId).Ok?
    ensures WorkflowInvariants(DeleteOwnAccount(s, userId, authUserId).value)
    ensures UniqueIndexes(DeleteOwnAccount(s, userId, authUserId).value)
    ensures OneLiveUserPerEmail(DeleteOwnAccount(s, userId, authUserId).value)
    ensures FindUser(DeleteOwnAccount(s, userId, authUserId).value.users, userId.value).None?
  {
    RemoveUserKeepsInvariants(s, userId.value);
  }

  /** Sign-up never creates a second live USER with the same email: it
      returns the existing account instead. */
  lemma CreateUserKeepsOneLiveUserPerEmail(s: Store, p: SignupInput)
    requires OneLiveUserPerEmail(s)
    requires CreateUser(s, p).Ok?
    ensures OneLiveUserPerEmail(CreateUser(s, p).value.0)
  {
    var (s', r) := CreateUser(s, p).value;
    if r.Created? {
      var n := s.nextId;
      forall a, b | a in s'.users && b in s'.users
        ensures (&& !s'.users[a].isDeleted && !s'.users[b].isDeleted
                 && s'.users[a].role == USER && s'.users[b].role == USER
                 && s'.users[a].email == s'.users[b].email) ==> a == b
      {
        if a != n {
          assert s'.users[a] == s.users[a];
        }
        if b != n {
          assert s'.users[b] == s.users[b];
        }
      }
    }
  }

  /** Sign-up keeps the unique indexes and every workflow invariant; a
      created account takes the next id. */
  lemma CreateUserKeepsInvariants(s: Store, p: SignupInput)
    requires WorkflowInvariants(s) && UniqueIndexes(s)
    requires CreateUser(s, p).Ok?
    ensures WorkflowInvariants(CreateUser(s, p).value.0)
    ensures UniqueIndexes(CreateUser(s, p).value.0)
  {
    var (s', r) := CreateUser(s, p).value;
    if r.Created? {
      var n := s.nextId;
      forall a, b | a in s'.users && b in s'.users && a != b
        ensures s'.users[a].sub != s'.users[b].sub && s'.users[a].email != s'.users[b].email
      {
        if a != n && b != n {
          assert s'.users[a] == s.users[a] && s'.users[b] == s.users[b];
        } else if a != n {
          assert s'.users[a] == s.users[a] && a in s.users;
        } else {
          assert s'.users[b] == s.users[b] && b in s.users;
        }
      }
    }
  }
}
