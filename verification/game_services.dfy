/**
  The game services a user calls: creating a game, the four engagement
  operations (comment, comment upvote, game upvote, share) and staging an
  edit of an owned game for moderation. Each call is one atomic step from
  a store to a new store or an error kind. Uploaded files arrive as the
  URLs the CDN returned for them.
 */
module GameServices {
  import opened Common
  import opened GameModel
  import opened UserModel
  import opened Database

  /** Uploaded images win over the request's `image.images`, which defaults to `[]`. */
  function ImageList(uploads: seq<string>, bodyImages: Option<seq<string>>): (r: seq<string>)
    ensures |uploads| > 0 ==> r == uploads
    ensures |uploads| == 0 ==> r == bodyImages.GetOr([])
  {
    if |uploads| > 0 then uploads else bodyImages.GetOr([])
  }

  /** A requested `gameStatus`: absent means the schema default `active`;
      a value outside the enum fails validation. */
  function StatusOrDefault(requested: Option<string>): (r: Option<GameStatus>)
    ensures requested.None? ==> r == Some(Active)
    ensures requested.Some? ==> r == ParseGameStatus(requested.value)
  {
    if requested.None? then Some(Active) else ParseGameStatus(requested.value)
  }

  // ---------------------------------------------------------------------------
  // Creating a game

  /** The `data` object of a create request. */
  datatype GameInput = GameInput(
    userName: Option<string>,
    title: Option<string>,
    subTitle: Option<string>,
    description: Option<string>,
    categories: Option<seq<string>>,
    platform: Option<seq<string>>,
    price: Option<int>,
    socialLinks: Option<seq<SocialLink>>,
    gameStatus: Option<string>,
    upcomingDate: Option<Time>)

  /** The three request checks: a `data` object, a title, a non-empty category list. */
  predicate CreateRequestOk(data: Option<GameInput>) {
    && data.Some?
    && Truthy(data.value.title)
    && data.value.categories.Some?
    && |data.value.categories.value| > 0
  }

  /** The game document the service builds before validation. */
  function BuildGame(owner: Id, d: GameInput, images: seq<string>, thumbnail: Option<string>, status: GameStatus): (g: Game)
    requires d.title.Some? && d.categories.Some?
    ensures g.owner == owner && g.title == d.title.value && g.categories == d.categories.value
    ensures g.userName == OrElse(d.userName, "Unknown")
    ensures g.subTitle == OrElse(d.subTitle, "") && g.description == OrElse(d.description, "")
    ensures g.platform == d.platform.GetOr([]) && g.socialLinks == d.socialLinks.GetOr([])
    ensures g.price == d.price.GetOr(0)
    ensures g.image == images && g.thumbnail == thumbnail
    ensures g.gameStatus == status && g.upcomingDate == d.upcomingDate
    ensures !g.isApproved && !g.isDelete && CountersMatch(g) && OneEntryPerActor(g)
  {
    NewGame(owner, OrElse(d.userName, "Unknown"), d.title.value, OrElse(d.subTitle, ""),
            OrElse(d.description, ""), images, thumbnail, d.categories.value, d.platform.GetOr([]),
            d.price.GetOr(0), d.socialLinks.GetOr([]), status, d.upcomingDate)
  }

  /** `createNewGameIntoDb`: request checks, then the owner lookup, then the
      schema validation of the new document, which is stored unapproved. */
  function CreateGame(s: Store, userId: Id, data: Option<GameInput>, bodyImages: Option<seq<string>>,
                      uploads: seq<string>, thumbnailUpload: Option<string>): (r: Result<(Store, Id)>)
    ensures r.Err? ==> r.kind == BadRequest || r.kind == NotFound || r.kind == SchemaViolation
    ensures r.Err? && r.kind == BadRequest <==> !CreateRequestOk(data)
    ensures r.Err? && r.kind == NotFound <==> CreateRequestOk(data) && FindUser(s.users, userId).None?
    ensures r.Ok? <==>
              && CreateRequestOk(data) && FindUser(s.users, userId).Some?
              && StatusOrDefault(data.value.gameStatus).Some?
              && GameSchemaValid(BuildGame(userId, data.value, ImageList(uploads, bodyImages), thumbnailUpload,
                                           StatusOrDefault(data.value.gameStatus).value))
    ensures r.Ok? ==>
              var (s', id) := r.value;
              && id == s.nextId && id in s'.games
              && s' == s.(games := s.games[id := s'.games[id]], nextId := s.nextId + 1)
              && var g := s'.games[id];
                 && g.owner == userId && g.title == data.value.title.value
                 && g.subTitle == OrElse(data.value.subTitle, "")
                 && g.price == data.value.price.GetOr(0)
                 && g.image == ImageList(uploads, bodyImages)
                 && g == BuildGame(userId, data.value, ImageList(uploads, bodyImages), thumbnailUpload,
                                   StatusOrDefault(data.value.gameStatus).value)
                 && GameSchemaValid(g) && CountersMatch(g) && OneEntryPerActor(g)
                 && !g.isApproved && !g.isDelete
  {
    if !CreateRequestOk(data) then Err(BadRequest)
    else if FindUser(s.users, userId).None? then Err(NotFound)
    else
      var status := StatusOrDefault(data.value.gameStatus);
      if status.None? then Err(SchemaViolation)
      else
        var g := BuildGame(userId, data.value, ImageList(uploads, bodyImages), thumbnailUpload, status.value);
        if !GameSchemaValid(g) then Err(SchemaViolation)
        else Ok((s.(games := s.games[s.nextId := g], nextId := s.nextId + 1), s.nextId))
  }

  // ---------------------------------------------------------------------------
  // Engagement

  /** `userComment`: appends one comment with no votes or reports and counts it. */
  function AddComment(s: Store, userId: Id, gameId: Option<Id>, text: Option<string>, now: Time): (r: Result<Store>)
    ensures r.Err? ==> r.kind == BadRequest || r.kind == NotFound
    ensures r.Err? && r.kind == BadRequest <==> gameId.None? || !Truthy(text)
    ensures r.Err? && r.kind == NotFound <==>
              gameId.Some? && Truthy(text) && (FindUser(s.users, userId).None? || FindGame(s.games, gameId.value).None?)
    ensures r.Ok? ==>
              && gameId.Some? && text.Some? && gameId.value in s.games && gameId.value in r.value.games
              && var g := s.games[gameId.value];
                 var g' := r.value.games[gameId.value];
                 && r.value == s.(games := s.games[gameId.value := g'], nextId := s.nextId + 1)
                 && g'.comments == g.comments + [Comment(s.nextId, userId, text.value, now, [], 0, [], now)]
                 && g'.totalComments == g.totalComments + 1
                 && g' == g.(comments := g'.comments, totalComments := g'.totalComments)
  {
    if gameId.None? || !Truthy(text) then Err(BadRequest)
    else if FindUser(s.users, userId).None? then Err(NotFound)
    else if FindGame(s.games, gameId.value).None? then Err(NotFound)
    else
      var g := s.games[gameId.value];
      var c := Comment(s.nextId, userId, text.value, now, [], 0, [], now);
      var g' := g.(comments := g.comments + [c], totalComments := g.totalComments + 1);
      Ok(s.(games := s.games[gameId.value := g'], nextId := s.nextId + 1))
  }

  /** `userCommentUpvote`: adds the caller's vote to one comment, once. */
  function UpvoteComment(s: Store, userId: Id, gameId: Option<Id>, commentId: Option<Id>, now: Time): (r: Result<Store>)
    ensures r.Err? ==> r.kind == BadRequest || r.kind == NotFound
    ensures r.Err? && r.kind == NotFound <==>
              && gameId.Some? && commentId.Some?
              && (|| FindUser(s.users, userId).None?
                  || FindGame(s.games, gameId.value).None?
                  || FindComment(s.games[gameId.value].comments, commentId.value).None?)
    ensures r.Err? && r.kind == BadRequest <==>
              || gameId.None? || commentId.None?
              || (&& FindUser(s.users, userId).Some?
                  && FindGame(s.games, gameId.value).Some?
                  && var cs := s.games[gameId.value].comments;
                     var i := FindComment(cs, commentId.value);
                     i.Some? && HasVoter(cs[i.value].upvote, userId))
    ensures r.Ok? ==>
              && gameId.Some? && commentId.Some? && gameId.value in s.games && gameId.value in r.value.games
              && var g := s.games[gameId.value];
                 var i := FindComment(g.comments, commentId.value);
                 var g' := r.value.games[gameId.value];
                 && i.Some?
                 && var c := g.comments[i.value];
                    && r.value == s.(games := s.games[gameId.value := g'])
                    && g' == g.(comments := g'.comments)
                    && |g'.comments| == |g.comments|
                    && g'.comments[i.value].upvote == c.upvote + [Vote(userId, now)]
                    && g'.comments[i.value].totalUpvote == c.totalUpvote + 1
                    && g'.comments[i.value] == c.(upvote := g'.comments[i.value].upvote,
                                                  totalUpvote := g'.comments[i.value].totalUpvote)
                    && forall k :: 0 <= k < |g.comments| && k != i.value ==> g'.comments[k] == g.comments[k]
  {
    if gameId.None? || commentId.None? then Err(BadRequest)
    else if FindUser(s.users, userId).None? then Err(NotFound)
    else if FindGame(s.games, gameId.value).None? then Err(NotFound)
    else
      var g := s.games[gameId.value];
      var i := FindComment(g.comments, commentId.value);
      if i.None? then Err(NotFound)
      else
        var c := g.comments[i.value];
        if HasVoter(c.upvote, userId) then Err(BadRequest)
        else
          var c' := c.(upvote := c.upvote + [Vote(userId, now)], totalUpvote := c.totalUpvote + 1);
          var g' := g.(comments := g.comments[i.value := c']);
          Ok(s.(games := s.games[gameId.value := g']))
  }

  /** `userGameUpvote`: adds the caller's vote to the game, once. */
  function UpvoteGame(s: Store, userId: Id, gameId: Option<Id>, now: Time): (r: Result<Store>)
    ensures r.Err? ==> r.kind == BadRequest || r.kind == NotFound
    ensures r.Err? && r.kind == NotFound <==>
              gameId.Some? && (FindUser(s.users, userId).None? || FindGame(s.games, gameId.value).None?)
    ensures r.Err? && r.kind == BadRequest <==>
              || gameId.None?
              || (&& FindUser(s.users, userId).Some? && FindGame(s.games, gameId.value).Some?
                  && HasVoter(s.games[gameId.value].upvote, userId))
    ensures r.Ok? ==>
              && gameId.Some? && gameId.value in s.games && gameId.value in r.value.games
              && var g := s.games[gameId.value];
                 var g' := r.value.games[gameId.value];
                 && !HasVoter(g.upvote, userId)
                 && r.value == s.(games := s.games[gameId.value := g'])
                 && g'.upvote == g.upvote + [Vote(userId, now)]
                 && g'.totalUpvote == g.totalUpvote + 1
                 && g' == g.(upvote := g'.upvote, totalUpvote := g'.totalUpvote)
  {
    if gameId.None? then Err(BadRequest)
    else if FindUser(s.users, userId).None? then Err(NotFound)
    else if FindGame(s.games, gameId.value).None? then Err(NotFound)
    else
      var g := s.games[gameId.value];
      if HasVoter(g.upvote, userId) then Err(BadRequest)
      else
        var g' := g.(upvote := g.upvote + [Vote(userId, now)], totalUpvote := g.totalUpvote + 1);
        Ok(s.(games := s.games[gameId.value := g']))
  }

  /** `userShare`: records that the caller shared the game, once. There is no
      request check: a missing game id is simply a game that is not found. */
  function ShareGame(s: Store, userId: Id, gameId: Option<Id>): (r: Result<Store>)
    ensures r.Err? ==> r.kind == BadRequest || r.kind == NotFound
    ensures r.Err? && r.kind == NotFound <==>
              FindUser(s.users, userId).None? || gameId.None? || FindGame(s.games, gameId.value).None?
    ensures r.Err? && r.kind == BadRequest <==>
              && FindUser(s.users, userId).Some? && gameId.Some? && FindGame(s.games, gameId.value).Some?
              && HasSharer(s.games[gameId.value].shares, userId)
    ensures r.Ok? ==>
              && gameId.Some? && gameId.value in s.games && gameId.value in r.value.games
              && var g := s.games[gameId.value];
                 var g' := r.value.games[gameId.value];
                 && !HasSharer(g.shares, userId)
                 && r.value == s.(games := s.games[gameId.value := g'])
                 && g'.shares == g.shares + [Share(userId, None)]
                 && g'.totalShare == g.totalShare + 1
                 && g' == g.(shares := g'.shares, totalShare := g'.totalShare)
  {
    if FindUser(s.users, userId).None? then Err(NotFound)
    else if gameId.None? || FindGame(s.games, gameId.value).None? then Err(NotFound)
    else
      var g := s.games[gameId.value];
      if HasSharer(g.shares, userId) then Err(BadRequest)
      else
        var g' := g.(shares := g.shares + [Share(userId, None)], totalShare := g.totalShare + 1);
        Ok(s.(games := s.games[gameId.value := g']))
  }

  // ---------------------------------------------------------------------------
  // Staging an edit of an owned game

  /** The `data` object of an update request. */
  datatype GameUpdateInput = GameUpdateInput(
    gameId: Option<Id>,
    title: Option<string>,
    subTitle: Option<string>,
    description: Option<string>,
    categories: Option<seq<string>>,
    platform: Option<seq<string>>,
    price: Option<int>,
    socialLinks: Option<seq<SocialLink>>,
    gameStatus: Option<string>,
    upcomingDate: Option<Time>)

  /** The pending record a staging request creates: the supplied fields,
      empty lists for the array paths not supplied, `linkType` empty, and
      status `pending`. `status` is the parsed `gameStatus`, absent when not
      supplied. */
  function StagedRecord(gameId: Id, userId: Id, d: GameUpdateInput, images: seq<string>,
                        thumbnail: Option<string>, status: Option<GameStatus>, now: Time): (u: PendingGameUpdate)
    ensures u.gameId == gameId && u.userId == userId && u.status == Pending && u.reviewedAt.None?
    ensures u.title == d.title && u.subTitle == d.subTitle && u.description == d.description && u.price == d.price
    ensures u.categories == d.categories.GetOr([]) && u.platform == d.platform.GetOr([])
    ensures u.socialLinks == d.socialLinks.GetOr([])
    ensures u.image == images && u.thumbnail == thumbnail && u.gameStatus == status
    ensures u.upcomingDate == d.upcomingDate && u.submittedAt == now
  {
    PendingGameUpdate(gameId, userId, d.title, d.subTitle, d.description, images, thumbnail,
                      d.categories.GetOr([]), d.platform.GetOr([]), d.price, d.socialLinks.GetOr([]),
                      NoLinkType, status, d.upcomingDate, Pending, now, None)
  }

  /** A requested `gameStatus` as the pending record keeps it: absent when
      not supplied, `None` inside `Some` when outside the enum. */
  function RequestedStatus(requested: Option<string>): Option<Option<GameStatus>> {
    if requested.None? then Some(None)
    else
      var p := ParseGameStatus(requested.value);
      if p.None? then None else Some(p)
  }

  /** The checks `updateGameIntoDb` makes before it builds the record pass:
      a caller, a game id, a live game the caller owns, and no pending edit
      of it by the caller. */
  predicate StageAllowed(s: Store, callerId: Option<Id>, d: GameUpdateInput) {
    && callerId.Some? && d.gameId.Some?
    && FindGame(s.games, d.gameId.value).Some?
    && s.games[d.gameId.value].owner == callerId.value
    && !HasPendingGameUpdate(s, d.gameId.value, callerId.value)
  }

  /** `updateGameIntoDb`: the owner of a live game stages an edit. At most one
      pending edit per game and owner; the live game is not touched. A
      requested status outside the enum, or a social link without a name or
      URL, fails the record's schema. */
  function StageGameUpdate(s: Store, callerId: Option<Id>, d: GameUpdateInput, bodyImages: Option<seq<string>>,
                           uploads: seq<string>, thumbnailUpload: Option<string>, now: Time): (r: Result<Store>)
    ensures r.Err? ==> r.kind in {Forbidden, BadRequest, NotFound, SchemaViolation}
    ensures r.Err? && r.kind == Forbidden <==>
              || callerId.None?
              || (&& d.gameId.Some? && FindGame(s.games, d.gameId.value).Some?
                  && s.games[d.gameId.value].owner != callerId.value)
    ensures r.Err? && r.kind == NotFound <==>
              callerId.Some? && d.gameId.Some? && FindGame(s.games, d.gameId.value).None?
    ensures r.Err? && r.kind == BadRequest <==>
              && callerId.Some?
              && (|| d.gameId.None?
                  || (&& FindGame(s.games, d.gameId.value).Some?
                      && s.games[d.gameId.value].owner == callerId.value
                      && HasPendingGameUpdate(s, d.gameId.value, callerId.value)))
    ensures r.Err? && r.kind == SchemaViolation <==>
              && StageAllowed(s, callerId, d)
              && (|| (d.gameStatus.Some? && ParseGameStatus(d.gameStatus.value).None?)
                  || !LinkFieldsPresent(d.socialLinks.GetOr([])))
    ensures r.Ok? <==>
              && StageAllowed(s, callerId, d)
              && (d.gameStatus.None? || ParseGameStatus(d.gameStatus.value).Some?)
              && LinkFieldsPresent(d.socialLinks.GetOr([]))
    ensures r.Ok? ==>
              && s.nextId in r.value.gameUpdates
              && var u := r.value.gameUpdates[s.nextId];
                 && r.value == s.(gameUpdates := s.gameUpdates[s.nextId := u], nextId := s.nextId + 1)
                 && r.value.games == s.games
                 && u.gameId == d.gameId.value && u.userId == callerId.value
                 && u.status == Pending && u.submittedAt == now && u.reviewedAt.None?
                 && u.image == ImageList(uploads, bodyImages) && u.thumbnail == thumbnailUpload
                 && u.title == d.title && u.subTitle == d.subTitle && u.description == d.description
                 && u.price == d.price
                 && u.categories == d.categories.GetOr([]) && u.platform == d.platform.GetOr([])
                 && u.socialLinks == d.socialLinks.GetOr([])
                 && u.linkType == NoLinkType
                 && (d.gameStatus.None? ==> u.gameStatus.None?)
                 && (d.gameStatus.Some? ==> u.gameStatus == ParseGameStatus(d.gameStatus.value))
                 && u.upcomingDate == d.upcomingDate
  {
    if callerId.None? then Err(Forbidden)
    else if d.gameId.None? then Err(BadRequest)
    else if FindGame(s.games, d.gameId.value).None? then Err(NotFound)
    else if s.games[d.gameId.value].owner != callerId.value then Err(Forbidden)
    else if HasPendingGameUpdate(s, d.gameId.value, callerId.value) then Err(BadRequest)
    else
      var status := RequestedStatus(d.gameStatus);
      if status.None? then Err(SchemaViolation)
      else
        var u := StagedRecord(d.gameId.value, callerId.value, d, ImageList(uploads, bodyImages),
                              thumbnailUpload, status.value, now);
        if !PendingGameUpdateValid(u) then Err(SchemaViolation)
        else Ok(s.(gameUpdates := s.gameUpdates[s.nextId := u], nextId := s.nextId + 1))
  }
}
