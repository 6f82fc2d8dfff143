/**
  The request validators of the game routes: the field bounds of a new
  game, the partial update with its "something to update" refinement, the
  comment bounds, the `linkType` enums and the top-game `limit` query
  parameter. The validators only accept or refuse a request (with
  BAD_REQUEST); the services then read the body as it was sent. String
  lengths are counted in characters. A social link's URL must match
  `urlPattern` (module UrlPattern); zod's own `url()` check, which runs the
  WHATWG URL parser, is not part of this model.
 */
module GameValidation {
  import opened Common
  import opened JsNumbers
  import opened GameServices
  import opened UrlPattern

  /** Every entry of a string list is non-empty. */
  predicate AllNonEmpty(xs: seq<string>) {
    forall i :: 0 <= i < |xs| ==> xs[i] != ""
  }

  /** Every social link has a name. */
  predicate LinkNamesPresent(links: seq<SocialLink>) {
    forall i :: 0 <= i < |links| ==> links[i].name != ""
  }

  /** `SocialLinksSchema`: a name, and a link matching `urlPattern`. */
  predicate SocialLinksOk(links: seq<SocialLink>) {
    LinkNamesPresent(links) && AllUrls(links)
  }

  /** The `linkType` enum of the create schema, which admits `''`. */
  predicate CreateLinkType(t: string) {
    t == "steam" || t == "itch.io" || t == "globe" || t == ""
  }

  /** The `linkType` enum of the link-type update, which does not. */
  predicate UpdateLinkType(t: string) {
    t == "steam" || t == "itch.io" || t == "globe"
  }

  /** The empty link type is accepted when a game is created and refused
      when the link type is updated; the three named types are accepted by both. */
  lemma EmptyLinkTypeOnlyOnCreate(t: string)
    ensures t == "" ==> CreateLinkType(t) && !UpdateLinkType(t)
    ensures t != "" ==> (CreateLinkType(t) <==> UpdateLinkType(t))
  {
  }

  // ---------------------------------------------------------------------------
  // Creating a game

  /** The body of a create request: the owner id, the game fields and the
      link type, each as sent. */
  datatype CreateBody = CreateBody(userId: Option<string>, data: GameInput, linkType: Option<string>)

  /** The optional fields' rules, shared by the create and the update schema. */
  predicate OptionalFieldsOk(subTitle: Option<string>, platform: Option<seq<string>>,
                             socialLinks: Option<seq<SocialLink>>) {
    && (subTitle.None? || |subTitle.value| <= 200)
    && (platform.None? || AllNonEmpty(platform.value))
    && (socialLinks.None? || SocialLinksOk(socialLinks.value))
  }

  /** `GameSchema`: a create body is refused (BAD_REQUEST) unless every
      bound holds. */
  function CheckCreate(b: CreateBody): (r: Outcome)
    ensures r.Fail? ==> r.kind == BadRequest
    ensures !Truthy(b.userId) ==> r.Fail?
    ensures b.data.title.None? || |b.data.title.value| < 1 || |b.data.title.value| > 100 ==> r.Fail?
    ensures b.data.description.None? || |b.data.description.value| < 10 || |b.data.description.value| > 2000 ==> r.Fail?
    ensures b.data.categories.None? || |b.data.categories.value| == 0 || !AllNonEmpty(b.data.categories.value) ==> r.Fail?
    ensures b.data.price.None? || b.data.price.value < 0 ==> r.Fail?
    ensures b.data.subTitle.Some? && |b.data.subTitle.value| > 200 ==> r.Fail?
    ensures b.linkType.Some? && !CreateLinkType(b.linkType.value) ==> r.Fail?
    ensures r == Pass <==>
              && Truthy(b.userId)
              && b.data.title.Some? && 1 <= |b.data.title.value| <= 100
              && b.data.description.Some? && 10 <= |b.data.description.value| <= 2000
              && b.data.categories.Some? && |b.data.categories.value| >= 1 && AllNonEmpty(b.data.categories.value)
              && b.data.price.Some? && b.data.price.value >= 0
              && OptionalFieldsOk(b.data.subTitle, b.data.platform, b.data.socialLinks)
              && (b.linkType.None? || CreateLinkType(b.linkType.value))
  {
    var d := b.data;
    if && Truthy(b.userId)
       && d.title.Some? && 1 <= |d.title.value| <= 100
       && d.description.Some? && 10 <= |d.description.value| <= 2000
       && d.categories.Some? && |d.categories.value| >= 1 && AllNonEmpty(d.categories.value)
       && d.price.Some? && d.price.value >= 0
       && OptionalFieldsOk(d.subTitle, d.platform, d.socialLinks)
       && (b.linkType.None? || CreateLinkType(b.linkType.value))
    then Pass
    else Fail(BadRequest)
  }

  /** A body the create validator accepts always passes the service's own
      request checks, and its description default never applies. */
  lemma ValidCreatePassesServiceChecks(b: CreateBody)
    requires CheckCreate(b) == Pass
    ensures CreateRequestOk(Some(b.data))
    ensures OrElse(b.data.description, "") == b.data.description.value
    ensures b.data.price.GetOr(0) == b.data.price.value
  {
  }

  /** A social link whose host starts with an upper-case letter, as in
      `https://Example.com`, refuses the whole create body. */
  lemma UpperCaseSocialLinkRefused(b: CreateBody, k: int, t: string)
    requires b.data.socialLinks.Some? && 0 <= k < |b.data.socialLinks.value|
    requires t != [] && 'A' <= t[0] <= 'Z'
    requires b.data.socialLinks.value[k].link == "https://" + t
    ensures CheckCreate(b) == Fail(BadRequest)
  {
    UpperCaseHostRefused(t);
  }

  // ---------------------------------------------------------------------------
  // Staging a game update

  /** The optional `image` part of a request. */
  datatype ImagePart = ImagePart(images: Option<seq<string>>, thumbnail: Option<string>)

  /** The body of an update request. The keys of `data` besides the two ids
      are the update's fields; keys the schema does not know (`gameStatus`,
      `upcomingDate`) are stripped before the refinement looks at them. */
  datatype UpdateBody = UpdateBody(userId: Option<string>, data: GameUpdateInput, linkType: Option<string>,
                                   image: Option<ImagePart>)

  /** Some key of the schema other than the ids is present in `data`. */
  predicate HasDataToUpdate(b: UpdateBody) {
    || b.data.title.Some? || b.data.subTitle.Some? || b.data.description.Some?
    || b.data.categories.Some? || b.data.platform.Some? || b.data.price.Some?
    || b.data.socialLinks.Some? || b.linkType.Some?
  }

  /** `image.images` is non-empty or `image.thumbnail` is truthy. */
  predicate HasImageUpdate(b: UpdateBody) {
    b.image.Some? && ((b.image.value.images.Some? && |b.image.value.images.value| > 0) || Truthy(b.image.value.thumbnail))
  }

  /** `GameUpdateSchemaValidation`: both ids are required, every present
      field obeys the create bounds, and the update must carry a field or an image. */
  function CheckUpdate(b: UpdateBody): (r: Outcome)
    ensures r.Fail? ==> r.kind == BadRequest
    ensures r == Pass ==> Truthy(b.userId) && b.data.gameId.Some?
    ensures r == Pass ==> HasDataToUpdate(b) || HasImageUpdate(b)
    ensures b.data.title.Some? && !(1 <= |b.data.title.value| <= 100) ==> r.Fail?
    ensures b.data.description.Some? && !(10 <= |b.data.description.value| <= 2000) ==> r.Fail?
    ensures b.data.price.Some? && b.data.price.value < 0 ==> r.Fail?
    ensures b.data.categories.Some? && (|b.data.categories.value| == 0 || !AllNonEmpty(b.data.categories.value)) ==> r.Fail?
    ensures r == Pass <==>
              && Truthy(b.userId) && b.data.gameId.Some?
              && (b.data.title.None? || 1 <= |b.data.title.value| <= 100)
              && (b.data.description.None? || 10 <= |b.data.description.value| <= 2000)
              && (b.data.categories.None? || (|b.data.categories.value| >= 1 && AllNonEmpty(b.data.categories.value)))
              && (b.data.price.None? || b.data.price.value >= 0)
              && OptionalFieldsOk(b.data.subTitle, b.data.platform, b.data.socialLinks)
              && (b.linkType.None? || CreateLinkType(b.linkType.value))
              && (HasDataToUpdate(b) || HasImageUpdate(b))
  {
    var d := b.data;
    if && Truthy(b.userId) && d.gameId.Some?
       && (d.title.None? || 1 <= |d.title.value| <= 100)
       && (d.description.None? || 10 <= |d.description.value| <= 2000)
       && (d.categories.None? || (|d.categories.value| >= 1 && AllNonEmpty(d.categories.value)))
       && (d.price.None? || d.price.value >= 0)
       && OptionalFieldsOk(d.subTitle, d.platform, d.socialLinks)
       && (b.linkType.None? || CreateLinkType(b.linkType.value))
       && (HasDataToUpdate(b) || HasImageUpdate(b))
    then Pass
    else Fail(BadRequest)
  }

  /** A change of `gameStatus` alone cannot be submitted: the refinement
      does not see the stripped key, so such a body is refused. */
  lemma StatusOnlyUpdateRefused(b: UpdateBody)
    requires b.data.gameStatus.Some?
    requires !HasDataToUpdate(b) && b.image.None?
    ensures CheckUpdate(b) == Fail(BadRequest)
  {
  }

  // ---------------------------------------------------------------------------
  // Comments

  /** `CommentSchema`: a game id and a comment of 1 to 500 characters. */
  function CheckComment(gameId: Option<Id>, comment: Option<string>): (r: Outcome)
    ensures r.Fail? ==> r.kind == BadRequest
    ensures r == Pass <==> gameId.Some? && comment.Some? && 1 <= |comment.value| <= 500
  {
    if gameId.Some? && comment.Some? && 1 <= |comment.value| <= 500 then Pass else Fail(BadRequest)
  }

  /** Behind the comment validator, the comment service's own BAD_REQUEST
      branch cannot fire. */
  lemma ValidCommentPassesServiceChecks(gameId: Option<Id>, comment: Option<string>)
    requires CheckComment(gameId, comment) == Pass
    ensures gameId.Some? && Truthy(comment)
  {
  }

  // ---------------------------------------------------------------------------
  // The top-game limit

  /** `TopGameQuerySchema.limit`: an absent or empty parameter is 10,
      anything else is `parseInt(limit, 10)`, and the value must lie in
      1..50 (`NaN` fails both comparisons). */
  function TopGameLimit(limit: Option<string>): (r: Result<int>)
    ensures !Truthy(limit) ==> r == Ok(10)
    ensures r.Ok? ==> 1 <= r.value <= 50
    ensures r.Err? ==> r.kind == BadRequest
    ensures Truthy(limit) && r.Ok? ==> ParseInt(limit.value) == Val(r.value)
    ensures Truthy(limit) && ParseInt(limit.value).NaN? ==> r.Err?
  {
    var n := if Truthy(limit) then ParseInt(limit.value) else Val(10);
    if n.Val? && 0 < n.v <= 50 then Ok(n.v) else Err(BadRequest)
  }

  /** Every limit in range written in decimal, even with white space in
      front and trailing non-digit text, is read back exactly; every limit
      out of range is refused. */
  lemma TopGameLimitOfRender(n: int, pre: string, suffix: string)
    requires AllWhiteSpace(pre)
    requires suffix == [] || !IsDigit(suffix[0])
    ensures 1 <= n <= 50 ==> TopGameLimit(Some(pre + Render(n) + suffix)) == Ok(n)
    ensures !(1 <= n <= 50) ==> TopGameLimit(Some(pre + Render(n) + suffix)).Err?
  {
    ParseIntOfRender(n, pre, suffix);
    RenderEnds(n);
    var s := pre + Render(n) + suffix;
    assert s != "" by {
      assert |s| >= |Render(n)| >= 1;
    }
  }
}
