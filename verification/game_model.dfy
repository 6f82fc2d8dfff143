/**
  The Game document and its staged counterpart, the pending game update:
  fields, defaults, the schema validators Mongoose runs when a document is
  created, and the soft-delete read filter.
 */
module GameModel {
  import opened Common
  import opened LinkPattern

  datatype GameStatus = Active | Upcoming

  /** The `gameStatus` enum: `active` or `upcoming`; anything else fails validation. */
  function ParseGameStatus(s: string): (r: Option<GameStatus>)
    ensures r == Some(Active) <==> s == "active"
    ensures r == Some(Upcoming) <==> s == "upcoming"
  {
    if s == "active" then Some(Active)
    else if s == "upcoming" then Some(Upcoming)
    else None
  }

  /** The `linkType` enum: `steam`, `itch.io`, `globe` or the empty string (the default). */
  datatype LinkType = Steam | ItchIo | Globe | NoLinkType

  /** An upvote on a game or on a comment. */
  datatype Vote = Vote(userId: Id, createdAt: Time)

  datatype Report = Report(userId: Id, reportData: string, createdAt: Time)

  datatype Comment = Comment(
    id: Id,
    userId: Id,
    text: string,
    commentTime: Time,
    upvote: seq<Vote>,
    totalUpvote: int,
    report: seq<Report>,
    createdAt: Time)

  /** A share. The share sub-schema has no `createdAt` path, so a share pushed
      by the services carries none. */
  datatype Share = Share(userId: Id, createdAt: Option<Time>)

  datatype Game = Game(
    owner: Id,
    userName: string,
    title: string,
    subTitle: string,
    description: string,
    image: seq<string>,
    thumbnail: Option<string>,
    categories: seq<string>,
    platform: seq<string>,
    price: int,
    socialLinks: seq<SocialLink>,
    linkType: LinkType,
    gameStatus: GameStatus,
    upcomingDate: Option<Time>,
    upvote: seq<Vote>,
    totalUpvote: int,
    comments: seq<Comment>,
    totalComments: int,
    shares: seq<Share>,
    totalShare: int,
    isApproved: bool,
    isDelete: bool)

  /** The social-link validators: at least one link, each with a name and a
      link matching `linksRegex`. */
  predicate SocialLinksValid(links: seq<SocialLink>) {
    && |links| > 0
    && (forall i :: 0 <= i < |links| ==> links[i].name != "")
    && AllLinksValid(links)
  }

  /** An upcoming game has a release date. */
  predicate UpcomingHasDate(status: GameStatus, date: Option<Time>) {
    status == Upcoming ==> date.Some?
  }

  /** Every schema check a newly created game must pass: the required
      strings are non-empty, the social links are valid, and an upcoming
      game has a date. */
  predicate GameSchemaValid(g: Game) {
    && g.userName != ""
    && g.title != ""
    && g.description != ""
    && SocialLinksValid(g.socialLinks)
    && UpcomingHasDate(g.gameStatus, g.upcomingDate)
  }

  /** Every engagement counter equals the length of the list it counts. */
  predicate CountersMatch(g: Game) {
    && g.totalUpvote == |g.upvote|
    && g.totalComments == |g.comments|
    && g.totalShare == |g.shares|
    && forall i :: 0 <= i < |g.comments| ==> g.comments[i].totalUpvote == |g.comments[i].upvote|
  }

  predicate HasVoter(votes: seq<Vote>, user: Id) {
    exists i :: 0 <= i < |votes| && votes[i].userId == user
  }

  predicate HasSharer(shares: seq<Share>, user: Id) {
    exists i :: 0 <= i < |shares| && shares[i].userId == user
  }

  predicate DistinctVoters(votes: seq<Vote>) {
    forall i, j :: 0 <= i < j < |votes| ==> votes[i].userId != votes[j].userId
  }

  predicate DistinctSharers(shares: seq<Share>) {
    forall i, j :: 0 <= i < j < |shares| ==> shares[i].userId != shares[j].userId
  }

  /** One upvote per user on the game and on each comment, one share per user. */
  predicate OneEntryPerActor(g: Game) {
    && DistinctVoters(g.upvote)
    && DistinctSharers(g.shares)
    && forall i :: 0 <= i < |g.comments| ==> DistinctVoters(g.comments[i].upvote)
  }

  /** Appending a vote by a user who has not voted keeps the voters distinct. */
  lemma AppendNewVoter(votes: seq<Vote>, v: Vote)
    requires DistinctVoters(votes)
    requires !HasVoter(votes, v.userId)
    ensures DistinctVoters(votes + [v])
  {
    var vs := votes + [v];
    forall i, j | 0 <= i < j < |vs|
      ensures vs[i].userId != vs[j].userId
    {
      if j == |votes| {
        assert vs[i] == votes[i];
      }
    }
  }

  /** Appending a share by a user who has not shared keeps the sharers distinct. */
  lemma AppendNewSharer(shares: seq<Share>, sh: Share)
    requires DistinctSharers(shares)
    requires !HasSharer(shares, sh.userId)
    ensures DistinctSharers(shares + [sh])
  {
    var ss := shares + [sh];
    forall i, j | 0 <= i < j < |ss|
      ensures ss[i].userId != ss[j].userId
    {
      if j == |shares| {
        assert ss[i] == shares[i];
      }
    }
  }

  /** A new game as the schema defaults complete it: not approved, not
      deleted, no engagement yet, and `linkType` empty. */
  function NewGame(
    owner: Id, userName: string, title: string, subTitle: string, description: string,
    image: seq<string>, thumbnail: Option<string>, categories: seq<string>, platform: seq<string>,
    price: int, socialLinks: seq<SocialLink>, gameStatus: GameStatus, upcomingDate: Option<Time>): (g: Game)
    ensures !g.isApproved && !g.isDelete
    ensures g.upvote == [] && g.comments == [] && g.shares == []
    ensures CountersMatch(g) && OneEntryPerActor(g)
    ensures g.linkType == NoLinkType
  {
    Game(owner, userName, title, subTitle, description, image, thumbnail, categories, platform,
         price, socialLinks, NoLinkType, gameStatus, upcomingDate,
         [], 0, [], 0, [], 0, false, false)
  }

  /** `find`, `findOne` and `findById` on games: soft-deleted games are invisible. */
  function FindGame(games: map<Id, Game>, id: Id): (r: Option<Game>)
    ensures r.Some? ==> id in games && games[id] == r.value && !r.value.isDelete
    ensures id in games && !games[id].isDelete ==> r.Some?
  {
    if id in games && !games[id].isDelete then Some(games[id]) else None
  }

  /** The first comment with the given id (`comments.find(c => c._id.equals(id))`). */
  function FindComment(comments: seq<Comment>, id: Id): (r: Option<nat>)
    ensures r.Some? ==> r.value < |comments| && comments[r.value].id == id
    ensures r.Some? ==> forall k :: 0 <= k < r.value ==> comments[k].id != id
    ensures r.None? ==> forall k :: 0 <= k < |comments| ==> comments[k].id != id
  {
    if comments == [] then None
    else if comments[0].id == id then Some(0)
    else
      var t := FindComment(comments[1..], id);
      if t.Some? then Some(t.value + 1) else None
  }

  /** A pending game update. Array paths default to `[]`, so an array that
      was not supplied is empty; `gameStatus` is absent unless supplied. */
  datatype PendingGameUpdate = PendingGameUpdate(
    gameId: Id,
    userId: Id,
    title: Option<string>,
    subTitle: Option<string>,
    description: Option<string>,
    image: seq<string>,
    thumbnail: Option<string>,
    categories: seq<string>,
    platform: seq<string>,
    price: Option<int>,
    socialLinks: seq<SocialLink>,
    linkType: LinkType,
    gameStatus: Option<GameStatus>,
    upcomingDate: Option<Time>,
    status: ReviewStatus,
    submittedAt: Time,
    reviewedAt: Option<Time>)

  /** The sub-document validators of a staged game update: each social link
      has a name and a link. */
  predicate PendingGameUpdateValid(u: PendingGameUpdate) {
    LinkFieldsPresent(u.socialLinks)
  }

  /** Every link has a non-empty name and a non-empty URL. */
  predicate LinkFieldsPresent(links: seq<SocialLink>) {
    forall i :: 0 <= i < |links| ==> links[i].name != "" && links[i].link != ""
  }
}
