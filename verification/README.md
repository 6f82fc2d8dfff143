# Game-hunt content moderation, modelled in Dafny

This project models the back end of a game-publishing site: users register and
publish games, and other users comment on, upvote and share them. Owners do not
edit a live game or profile directly. Instead they stage an edit as a *pending
change*, which an administrator approves (its merge set is written into the live
document) or rejects. Administrators are bootstrapped with at most one
SUPERADMIN. An authentication middleware resolves a bearer token to a user or
admin account and checks its role. Around this workflow sit request validators,
the query builder's paging arithmetic, the media-URL builders, the blog and
newsletter services, and the top-game ranking.

How the code is modelled:

- **Store.** The store (`Database.Store`) holds one map per collection. Ids are
  naturals handed out by a counter.
- **Services.** Every service call is one pure function from a store to either a
  new store or an error kind (`Common.ErrorKind`).
- **Parameters.** The clock, the CDN upload, JWT verification and the
  collection's scan order are all parameters.
- **Schema behaviour.**
  - Defaults apply to absent values, and array paths default to `[]`.
  - `required` refuses the empty string.
  - Custom validators are skipped for absent values, and update validators only
    see the paths being set.
  - The soft-delete hooks hide deleted games and users from `find`, `findOne`
    and `findById`.
- **Error mapping.** An error the service catches and re-throws with
  `statusCode || 500` has lost its kind, so it is a 500 (`InternalError`). A
  schema error nobody catches is `SchemaViolation`.

Places where the code's behaviour differs from what its comments and messages
suggest, and which the model keeps as written (the places it corrects are the
Findings below):

- `updateUserProfileIntoDb` compares the found user's id with the requested id.
  The user was looked up by that same id, so the FORBIDDEN branch never fires.
- `updateBlogIntoDb` compares the found post's id with the requested blog id
  in the same way, and that FORBIDDEN branch never fires for a well-formed id.
- `approveProfileUpdate` refuses a merge set holding only `approvedUpdate`. A
  stored record always defines its photo (the schema default is `null`), so
  this refusal never fires.
- `approveGameUpdate` rejects an empty merge set. As written, every record
  carries the default `gameStatus`, so this rejection never fires either (see
  Finding A).
- `updateBlogIntoDb` refuses a body whose `published` is not truthy. A post
  therefore can never be set back to a draft, and `createNewBlogIntoDb` refuses
  a draft as well.
- `deleteAllNewsletterIntoDB` guards against a negative count, which never
  occurs, so the call always succeeds.
- The game-update validator strips unknown keys before its "at least one field"
  rule runs. A change of `gameStatus` alone is therefore refused.
- The moderation routes carry no authentication. The decisions are modelled as
  plain functions with no role gate.

## Model

| member | source | states |
|---|---|---|
| Common.ParseRole | src/module/user/user.model.ts:39-43 | the role names map to exactly the three roles; anything else is no role |
| UrlPattern.MatchUrlTail | src/constants/regex.constants.ts:8 | one scan accepts exactly the texts that split into a lower-case host, a `.`, a domain of 2 to 6 characters from `[a-z.]` and a path of `[/\w .-]` characters |
| UrlPattern.MatchUrl | src/constants/regex.constants.ts:8 | accepts exactly the texts `urlPattern` matches: a tail on its own, or after `http://` or `https://` |
| UrlPattern.TailIsPathChars | src/constants/regex.constants.ts:8 | every character of a matching tail is in the path class |
| UrlPattern.ShortDomainSuffices | src/constants/regex.constants.ts:8 | whenever a split exists, the split with a two-character domain at the same dot exists |
| UrlPattern.NotPathCharRefused | src/constants/regex.constants.ts:8 | a character outside `[/\w .-]` anywhere refuses the tail |
| UrlPattern.NotHostStartRefused | src/constants/regex.constants.ts:8 | a tail whose first character is outside `[\da-z.-]` is refused |
| UrlPattern.NoShortSplitRefused | src/constants/regex.constants.ts:8 | a tail with no split at any dot with a two-character domain is refused |
| UrlPattern.UpperCaseHostRefused | src/constants/regex.constants.ts:8 | without the `i` flag, a host starting with an upper-case letter is refused with either scheme or none |
| UrlPattern.NoDotRefused | src/constants/regex.constants.ts:8 | a text without a `.` is refused |
| UrlPattern.WellFormedTailAccepted | src/constants/regex.constants.ts:8 | a lower-case host, a dot, two domain characters and any path text match |
| UrlPattern.TailWithAnyScheme | src/constants/regex.constants.ts:8 | a matching tail matches on its own and after either scheme |
| LinkPattern.MatchLink | src/constants/regex.constants.ts:1 | a single scan over the characters accepts exactly the texts whose UTF-16 code units the link pattern `^https?://[^\s$.?#].[^\s]*$` describes, a character outside the Basic Multilingual Plane counting as two units |
| LinkPattern.WellFormedLinkAccepted | src/constants/regex.constants.ts:1 | a scheme, a host-start character and a non-empty text without white space always form an accepted link |
| LinkPattern.LinkWithSpaceRejected | src/constants/regex.constants.ts:1 | in an accepted link no character after the host's second code unit is white space: after its first character when that is a surrogate pair, after its second otherwise |
| LinkPattern.SpaceFreeUnits | src/constants/regex.constants.ts:1 | a text has no white-space character iff none of its UTF-16 code units is white space |
| LinkPattern.LinkTailChars | src/constants/regex.constants.ts:1 | the pattern's condition on the code units after the scheme holds iff its restatement over characters does |
| LinkPattern.AstralHostAccepted | src/constants/regex.constants.ts:1 | `https://` followed by a single character outside the Basic Multilingual Plane is accepted, its two units filling the host-start and `.` positions |
| JsNumbers.ToNumberOfRender | src/app/builder/QueryBuilder.ts:50 | `Number` reads back every integer written in decimal, with any white space around it |
| JsNumbers.ParseIntOfRender | src/module/game/game.zod.validation.ts:94 | `parseInt(_, 10)` reads back every integer written in decimal after any white space, whatever non-digit text follows it |
| JsNumbers.TrimStartDrops | src/module/game/game.zod.validation.ts:94 | skipping leading white space leaves a suffix that does not start with white space, and everything dropped is white space |
| JsNumbers.TrimEndDrops | src/app/builder/QueryBuilder.ts:50 | skipping trailing white space leaves a prefix that does not end with white space, and everything dropped is white space |
| QueryBuilder.Search | src/app/builder/QueryBuilder.ts:14-24 | a search clause exists iff the search term is non-empty, with one case-insensitive clause per searchable field, in order |
| QueryBuilder.Filter | src/app/builder/QueryBuilder.ts:26-31 | the filter keeps exactly the parameters other than the five reserved keys, each with its value |
| QueryBuilder.SortSpec | src/app/builder/QueryBuilder.ts:34-42 | a given sort list keeps every character in place with each comma turned into a space; otherwise the sort is `-createdAt` |
| QueryBuilder.FieldsSpec | src/app/builder/QueryBuilder.ts:67-74 | a given field list keeps every character in place with each comma turned into a space; otherwise the projection is `-__v` |
| QueryBuilder.CommasToSpacesInvertible | src/app/builder/QueryBuilder.ts:35 | turning commas into spaces is undone by turning spaces back into commas when the list had no spaces |
| QueryBuilder.ListParamsRecovered | src/app/builder/QueryBuilder.ts:34-74 | a sort or field list without spaces is recovered exactly from the sort or projection built from it |
| QueryBuilder.Paginate | src/app/builder/QueryBuilder.ts:44-65 | a limit is applied iff it is numeric and positive; a skip only with a page and such a limit; the page is clamped to 1, so the skip is never negative |
| QueryBuilder.CeilDiv | src/app/builder/QueryBuilder.ts:81 | the page count is the least number of pages covering the total |
| QueryBuilder.CountTotal | src/app/builder/QueryBuilder.ts:76-88 | the meta page is `Number(page) \|\| 1` (not clamped); the page count is the ceiling for a positive limit and 1 otherwise |
| QueryBuilder.Window | src/app/builder/QueryBuilder.ts:53-62 | the selected window never exceeds the limit, and without skip and limit it is everything |
| QueryBuilder.PagingAgreesWithMeta | src/app/builder/QueryBuilder.ts:44-88 | with numeric page ≥ 1 and positive limit, the window is the page the meta block reports, and the page count covers every document |
| MediaUrl.Basename | src/utility/game.media.ts:5 | the base name is slash-free and is a suffix of the path |
| MediaUrl.BasenameOfFileInDir | src/utility/game.media.ts:4-43 | a file name under any directory has itself as base name |
| MediaUrl.BasenameIdempotent | src/utility/game.media.ts:5 | taking the base name twice gives the same result as once |
| MediaUrl.JoinSplit | src/utility/game.media.ts:7-9 | splitting on `/` and joining with `/` gives the text back |
| MediaUrl.SplitJoin | src/utility/game.media.ts:7-9 | joining slash-free segments and splitting again gives the segments back |
| MediaUrl.JoinPlain | src/utility/game.media.ts:7-8 | `path.join` of plain components is the components glued with `/` |
| MediaUrl.GameMediaUrl | src/utility/game.media.ts:4-13 | a game media URL starts with the base URL and a `/` and contains no backslash |
| MediaUrl.GameMediaUrlShape | src/utility/game.media.ts:4-13 | an image lands at `<base>/src/uploads/<userId>/games/images/<file>`; any other file type lands under `thumbnails` |
| MediaUrl.ProfileMediaUrl | src/utility/game.media.ts:15-23 | a profile media URL starts with the base URL and a `/` and contains no backslash |
| MediaUrl.ProfileMediaUrlShape | src/utility/game.media.ts:15-23 | a profile photo lands at `<base>/src/uploads/<userId>/profile/<file>` |
| MediaUrl.AdminMediaUrl | src/utility/game.media.ts:25-33 | an admin media URL starts with the base URL and a `/` and contains no backslash |
| MediaUrl.BlogMediaUrl | src/utility/game.media.ts:35-43 | a blog media URL starts with the base URL and a `/` and contains no backslash |
| MediaUrl.AdminMediaUrlShape | src/utility/game.media.ts:25-33 | an admin photo lands at `<base>/src/uploads/admin/<file>` |
| MediaUrl.BlogMediaUrlShape | src/utility/game.media.ts:35-43 | a blog image lands at `<base>/src/uploads/blog/<file>` |
| GameModel.ParseGameStatus | src/module/game/game.model.ts:82-86 | the status enum accepts exactly `active` and `upcoming` |
| GameModel.NewGame | src/module/game/game.model.ts:77-209 | a new game is unapproved and not deleted, has no engagement, its counters match, and its link type is empty |
| GameModel.FindGame | src/module/game/game.model.ts:238-249 | a lookup finds a game iff it is stored and not soft-deleted |
| GameModel.FindComment | src/module/game/game.services.ts:396-404 | a lookup finds the first comment with the id, or reports that none has it |
| GameModel.AppendNewVoter | src/module/game/game.services.ts:473-497 | appending a vote by a user who has not voted keeps one vote per user |
| GameModel.AppendNewSharer | src/module/game/game.services.ts:536-557 | appending a share by a user who has not shared keeps one share per user |
| UserModel.NewUser | src/module/user/user.model.ts:39-72 | a new user keeps the given identity, role and photo, has no links, is not deleted, and `approvedUpdate` defaults to true |
| UserModel.FindAdmin | src/module/admin/admin.model.ts:103-117 | a lookup finds an admin iff it is stored and not soft-deleted |
| UserModel.PreSave | src/module/user/user.model.ts:156-187 | a new document with a password passes; otherwise a save fails iff `approvedUpdate` is false and a guarded path changed |
| UserModel.GuardedPathRefused | src/module/user/user.model.ts:167-177 | while a change awaits approval, changing the name, bio, links or photo alone is refused |
| UserModel.UserNameUnguarded | src/module/user/user.model.ts:167-177 | changing only the user name or the password is never refused by the guard |
| UserModel.FindUser | src/module/user/user.model.ts:198-211 | a lookup finds a user iff it is stored and not soft-deleted |
| GameServices.ImageList | src/module/game/game.services.ts:832-842 | the staged images are the uploads when there are any, else the body's images, else none |
| GameServices.CreateGame | src/module/game/game.services.ts:26-119 | BAD_REQUEST iff data, title or categories are missing; NOT_FOUND iff the owner is not visible; success iff the defaulted game passes the schema, where an upcoming game needs a date (the correction of Finding D); the stored game is exactly the one built from the request (every field as sent, with the defaults for user name, subtitle, description, platform, social links and price), unapproved and with matching counters |
| GameServices.AddComment | src/module/game/game.services.ts:306-363 | BAD_REQUEST iff the id or text is missing; NOT_FOUND iff the user or game is invisible; otherwise exactly one fresh comment with no votes is appended and counted, and nothing else changes |
| GameServices.UpvoteComment | src/module/game/game.services.ts:365-445 | NOT_FOUND for an invisible user or game or an unknown comment; BAD_REQUEST iff an id is missing or the user already voted; otherwise only that comment gains one vote and one count |
| GameServices.UpvoteGame | src/module/game/game.services.ts:446-514 | BAD_REQUEST iff the id is missing or the user already voted; NOT_FOUND iff the user or game is invisible; otherwise exactly one vote is appended and counted, and nothing else changes |
| GameServices.ShareGame | src/module/game/game.services.ts:516-575 | NOT_FOUND iff the user is invisible or the game id is missing or invisible; BAD_REQUEST iff the user already shared; otherwise one undated share is appended and counted |
| GameServices.StagedRecord | src/module/game/gameUpdate.model.ts:9-86 | the staged record is pending and unreviewed, holds each supplied field, `[]` for each absent list, and exactly the status it is given, so none when none was requested (the correction of Finding A) |
| GameServices.StageGameUpdate | src/module/game/game.services.ts:750-852 | FORBIDDEN for no caller or a caller who is not the owner; NOT_FOUND for an invisible game; BAD_REQUEST iff the id is missing or a pending edit by this owner exists; a schema error iff a requested status is outside the enum or a link lacks a name or URL; otherwise exactly one pending record holding every supplied field, `[]` for absent lists, the images and thumbnail staged, no status unless one was requested (the correction of Finding A), and the live game untouched |
| TopGames.UndatedSharesNeverCount | src/module/game/game.services.ts:605-616 | shares as the share operation stores them carry no date and never count towards a score |
| TopGames.ScoreMonotone | src/module/game/game.services.ts:577-748 | a wider window never lowers a score, so a game scores at least as much for its week as for a day in it |
| TopGames.ScoreBound | src/module/game/game.services.ts:589-634 | when shares carry no date, as the share operation stores them, a score never exceeds the number of comments and upvotes |
| TopGames.SortDesc | src/module/game/game.services.ts:642 | the ranking is sorted by descending score and is a permutation of its input |
| TopGames.TopGames | src/module/game/game.services.ts:577-661 | the result is sorted by descending score, is a permutation of the scanned candidates, lists only approved, live games whose owner exists, each with its score for the window, and misses none of them |
| AdminServices.CreateAdmin | src/module/admin/admin.services.ts:22-95 | every failure is SERVICE_UNAVAILABLE; success needs a SUPERADMIN or ADMIN role, the required fields and an untaken email; without a SUPERADMIN only a SUPERADMIN is created; after that only a SUPERADMIN creator may add ADMINs; the converse holds |
| AdminServices.CreateAdminKeepsOneSuperAdmin | src/module/admin/admin.services.ts:42-79 | admin creation keeps at most one live SUPERADMIN |
| AdminServices.CreatorlessOnlyBootstraps | src/module/admin/admin.services.ts:42-60 | creating without a creator succeeds only when no SUPERADMIN exists, and it creates one |
| AdminServices.ApproveGame | src/module/admin/admin.services.ts:142-170 | NOT_FOUND iff the game is invisible; otherwise only `isApproved` becomes true |
| AdminServices.GameMergeSet | src/module/admin/admin.services.ts:240-282 | image is set iff the record has images, thumbnail iff it is non-empty, status iff one was staged, and a date only with `upcoming` |
| AdminServices.ApplyMergeSetIsMergedFrom | src/module/admin/admin.services.ts:240-296 | applying a record's merge set yields the game described field by field by `MergedFrom` |
| AdminServices.GameDecisionTarget | src/module/admin/admin.services.ts:207-238 | a record is a decision target iff it is pending and its game is visible and already approved; BAD_REQUEST exactly for no id, a decided record or an unapproved game; NOT_FOUND exactly for an unknown record or an invisible game |
| AdminServices.ApproveGameUpdate | src/module/admin/admin.services.ts:180-327 | every refusal of the decision target carries through; on a target, BAD_REQUEST iff the merge set is empty; success iff the merge set is non-empty, its paths validate and an upcoming merged game keeps a date (the correction of Finding D), a 500 otherwise; on success the game is the record merged in and the record becomes approved with its review time |
| AdminServices.ApprovedRecordNotReapproved | src/module/admin/admin.services.ts:216-316 | approving the same record twice fails BAD_REQUEST |
| AdminServices.RejectGameUpdate | src/module/admin/admin.services.ts:329-352 | NOT_FOUND iff the id is missing or unknown, BAD_REQUEST iff the record is decided; otherwise the record is deleted and games are untouched |
| AdminServices.ProfileMergeSet | src/module/admin/admin.services.ts:396-422 | the photo is always assigned and the links are assigned iff the change supplied them |
| AdminServices.ApproveProfileUpdate | src/module/admin/admin.services.ts:362-462 | BAD_REQUEST iff there is no id or the record is decided; NOT_FOUND for an unknown record or an invisible user; success iff the record is pending, its user is visible and its name and links pass the update validators, and a 500 iff only the validators fail; on success the user is the change merged in with `approvedUpdate` set, and the record becomes approved |
| AdminServices.RejectProfileUpdate | src/module/admin/admin.services.ts:464-490 | NOT_FOUND iff the id is missing or unknown, BAD_REQUEST iff the record is decided; otherwise the record becomes rejected with its review time and users are untouched |
| AdminServices.DecidedProfileRecordIsFinal | src/module/admin/admin.services.ts:472-489 | once rejected, a record can be neither approved nor rejected again |
| AdminServices.DeleteUser | src/module/admin/admin.services.ts:492-517 | NOT_FOUND iff the user is invisible; otherwise the document is removed physically |
| AdminServices.DeleteGame | src/module/admin/admin.services.ts:519-541 | NOT_FOUND iff the game is invisible; otherwise the document is removed physically |
| UserServices.CreateUser | src/module/user/user.services.ts:16-49 | the existing account is reported, with the store unchanged, iff a live USER has the email; otherwise one USER is created iff sub, name and email are non-empty and neither sub nor email is taken, deleted users included; every failure is SERVICE_UNAVAILABLE |
| UserServices.DeleteOwnAccount | src/module/user/user.services.ts:106-137 | only self-deletion proceeds; an unknown user is NOT_FOUND; the document is removed physically |
| UserServices.DeleteOwnGame | src/module/user/user.services.ts:139-172 | an invisible game is NOT_FOUND; only the owner deletes, and the document is removed physically |
| UserServices.StagedProfile | src/module/user/userUpdateProfile.ts:8-49 | a staged profile change is pending and unreviewed, keeps the chosen photo, and keeps the links exactly as given, so none when none were supplied (the correction of Finding B) |
| UserServices.UpdateProfile | src/module/user/user.services.ts:173-275 | a missing payload is a 500; no user id is FORBIDDEN; an invisible user is NOT_FOUND; a pending change already waiting is BAD_REQUEST (the correction of Finding C); links that fail the pending-record schema are a 500; success iff none of these applies, and then one pending record, owned by the caller (the correction of Finding F), keeps the given fields and links, absent links staying absent (the correction of Finding B), with the upload or the current photo |
| UserServices.SubmitProfileUpdate | src/module/user/user.services.ts:277-311 | NOT_FOUND iff the user id is missing or no visible user has it (the correction of Finding E); BAD_REQUEST iff a change is pending; a 500 iff no photo is given; an uncaught schema error iff the given links fail the pending-record schema; success iff none of these applies, and then one pending record with the links as given and a media URL under the base URL |
| Auth.TokenOf | src/middleware/auth.ts:25-27 | after a `Bearer ` prefix the token is the space-free next word; otherwise it is the whole header |
| Auth.BearerTokenRecovered | src/middleware/auth.ts:25-27 | a space-free token sent as `Bearer <token>` is recovered exactly |
| Auth.Authenticate | src/middleware/auth.ts:15-64 | UNAUTHORIZED iff the header is missing or the token does not verify; FORBIDDEN iff a non-empty role list lacks the claimed role; users are tried first and admins only for admin roles; success exactly when an account matches |
| Auth.UserTokenNeverAdmin | src/middleware/auth.ts:51-54 | a USER-role token never resolves to an admin account |
| AdminController.CreateSuperAdmin | src/module/admin/admin.controller.ts:11-20 | the creator-less call succeeds iff no SUPERADMIN exists, the role asked for is SUPERADMIN, name, email and password are given and the email is free; it creates a SUPERADMIN |
| AdminController.CreateAdminByCaller | src/module/admin/admin.controller.ts:21-34 | UNAUTHORIZED iff there is no caller id; success iff there is a caller, name, email and password are given, the email is free, and either no SUPERADMIN exists and SUPERADMIN is asked for, or the caller is a SUPERADMIN asking for an ADMIN |
| AdminController.DeleteGameByAdmin | src/module/admin/admin.controller.ts:163-175 | FORBIDDEN iff the caller is not a SUPERADMIN; NOT_FOUND iff a SUPERADMIN names an invisible game; otherwise that game is removed |
| AdminController.UpdateUserToAdminGate | src/module/admin/admin.controller.ts:187-191 | the gate refuses exactly ADMIN and USER callers |
| AdminController.AdminCannotDeleteGame | src/module/admin/admin.controller.ts:163-175 | an ADMIN that passes the middleware is still refused game deletion |
| GameValidation.EmptyLinkTypeOnlyOnCreate | src/module/game/game.zod.validation.ts:199-209 | the empty link type is accepted on create and refused on update; the named types are accepted by both |
| GameValidation.CheckCreate | src/module/game/game.zod.validation.ts:5-39 | a create body passes iff the user id is present and every bound holds: title 1..100, subtitle ≤ 200, description 10..2000, non-empty categories, price ≥ 0, every social link named and matching `urlPattern`, link type in the enum |
| GameValidation.ValidCreatePassesServiceChecks | src/module/game/game.zod.validation.ts:13-39 | an accepted create body always passes the service's own request checks |
| GameValidation.CheckUpdate | src/module/game/game.zod.validation.ts:100-123 | an update passes iff both ids are present, every present field obeys its bound (social links named and matching `urlPattern`), and it carries a field or an image |
| GameValidation.UpperCaseSocialLinkRefused | src/module/game/game.zod.validation.ts:5-11 | a social link `https://` followed by an upper-case host refuses the whole create body |
| GameValidation.StatusOnlyUpdateRefused | src/module/game/game.zod.validation.ts:109-117 | an update carrying only a status change is refused |
| GameValidation.CheckComment | src/module/game/game.zod.validation.ts:53-63 | a comment is accepted iff a game id is present and the text has 1..500 characters |
| GameValidation.ValidCommentPassesServiceChecks | src/module/game/game.zod.validation.ts:53-63 | an accepted comment always passes the service's own request checks |
| GameValidation.TopGameLimit | src/module/game/game.zod.validation.ts:90-98 | an absent or empty limit is 10; any accepted limit lies in 1..50 and is the parsed value; a limit with no digits is refused. The top-game routes leave this schema commented out (src/module/game/game.routes.ts:80), so no request reaches it |
| GameValidation.TopGameLimitOfRender | src/module/game/game.zod.validation.ts:90-98 | a decimal limit in 1..50, after any white space and before any non-digit text, is read back exactly, and one outside that range is refused |
| UserValidation.MatchEmail | src/constants/regex.constants.ts:6 | a scanner accepts exactly the addresses the sign-up email pattern describes |
| UserValidation.DottedDomainRefused | src/constants/regex.constants.ts:6 | an address with two dots anywhere after its `@`, such as `a@b.c.de`, is refused |
| UserValidation.CheckSignup | src/module/user/user.zod.validation.ts:9-36 | sign-up passes iff `sub` is present, the name is non-empty, the email passes both `.email()` and the email pattern, and a given photo matches the link pattern |
| UserValidation.DotBeforeAtRefused | src/module/user/user.zod.validation.ts:16-19 | `a.@x.io` matches the email pattern but `.email()` refuses it, so sign-up needs both checks |
| UserValidation.EmptySubFailsSignup | src/module/user/user.zod.validation.ts:12 | an empty `sub` passes the validator, but a new account with it is refused by the schema |
| UserValidation.UniqueUrlsIffSetSize | src/module/user/user.zod.validation.ts:93-99 | the set-size test holds iff the link URLs are pairwise distinct |
| UserValidation.CheckProfileUpdate | src/module/user/user.zod.validation.ts:71-109 | an update passes iff it has data, a present name is non-empty, and present links number at most five, are named and well formed, and have distinct URLs |
| UserValidation.ValidProfileBodyNeverInternalError | src/module/user/user.zod.validation.ts:71-109 | behind the validator, staging a profile change never fails with a 500 (with the correction of Finding F) |
| BlogServices.CreateBlog | src/module/blog/blog.services.ts:11-68 | BAD_REQUEST iff data, title, author or a true `published` is missing; success iff description, alt text, image and rewards also pass the schema; the post is stored published and live |
| BlogServices.CreateWithoutImageFails | src/module/blog/blog.services.ts:43-66 | without an uploaded image no post can be created |
| BlogServices.UpdateBlog | src/module/blog/blog.services.ts:109-204 | FORBIDDEN iff no id; BAD_REQUEST iff `published` is not true; NOT_FOUND iff the post is missing or deleted; a 500 iff new rewards are invalid; otherwise only that post changes, as `UpdatedFrom` describes |
| BlogServices.UpdateNeverUnpublishes | src/module/blog/blog.services.ts:127-170 | every successful update leaves the post published |
| BlogServices.DeleteBlog | src/module/blog/blog.services.ts:206-227 | NOT_FOUND iff the id is missing or the post is missing or soft-deleted; otherwise the post is removed |
| BlogServices.CreateThenDeleteRestores | src/module/blog/blog.services.ts:11-227 | deleting a post right after creating it restores the collection |
| NewsletterServices.AddNewsletterMail | src/module/newsLater/newsletter.services.ts:11-40 | success iff the email is non-empty and not live-subscribed; every failure is SERVICE_UNAVAILABLE |
| NewsletterServices.AddKeepsOneLivePerEmail | src/module/newsLater/newsletter.services.ts:19-26 | subscribing keeps at most one live subscription per email |
| NewsletterServices.DeleteAllNewsletter | src/module/newsLater/newsletter.services.ts:66-81 | always succeeds, removes exactly the live subscriptions, keeps the deleted ones unchanged, and changes no other collection or the id counter |
| NewsletterServices.DeleteNewsletter | src/module/newsLater/newsletter.services.ts:83-92 | NOT_FOUND iff no id is given; otherwise that subscription is removed, and an unknown id changes nothing |
| NewsletterServices.AddThenDeleteRestores | src/module/newsLater/newsletter.services.ts:11-92 | removing a subscription right after adding it restores the collection |
| NewsletterServices.ResubscribeAfterDeleteAll | src/module/newsLater/newsletter.services.ts:11-81 | after removing every live subscription, any non-empty email can subscribe again |
| Workflow.CreateGameKeepsInvariants | src/module/game/game.services.ts:26-119 | creating a game keeps every counter equal to its list, one entry per actor, and a date on every upcoming game |
| Workflow.AddCommentKeepsWellFormed | src/module/game/game.services.ts:306-363 | commenting keeps the counters and the one-entry-per-actor rule |
| Workflow.UpvoteCommentKeepsWellFormed | src/module/game/game.services.ts:365-445 | upvoting a comment keeps the counters and the one-entry-per-actor rule |
| Workflow.UpvoteGameKeepsWellFormed | src/module/game/game.services.ts:446-514 | upvoting a game keeps the counters and the one-entry-per-actor rule |
| Workflow.ShareGameKeepsWellFormed | src/module/game/game.services.ts:516-575 | sharing keeps the counters and the one-entry-per-actor rule |
| Workflow.ApproveGameUpdateKeepsInvariants | src/module/admin/admin.services.ts:240-316 | approving an edit keeps the counters and a date on every upcoming game |
| Workflow.StageGameUpdateKeepsOnePending | src/module/game/game.services.ts:795-805 | staging keeps at most one pending edit per game and owner, and every id issued |
| Workflow.ApproveGameUpdateKeepsOnePending | src/module/admin/admin.services.ts:310-316 | approval keeps at most one pending edit per game and owner |
| Workflow.RejectGameUpdateKeepsOnePending | src/module/admin/admin.services.ts:329-352 | rejection keeps at most one pending edit per game and owner |
| Workflow.UpdateProfileKeepsOnePending | src/module/user/user.services.ts:249-264 | profile staging keeps at most one pending change per user (with the corrections of Findings C and F) |
| Workflow.SubmitProfileUpdateKeepsOnePending | src/module/user/user.services.ts:286-296 | profile submission keeps at most one pending change per user |
| Workflow.DecideProfileKeepsOnePending | src/module/admin/admin.services.ts:362-490 | approving or rejecting a change keeps at most one pending change per user |
| Workflow.StatuslessEditKeepsStatus | src/module/admin/admin.services.ts:262-282 | an edit staged without a status, once approved, leaves the game's status, date and votes as they were |
| Workflow.LinklessProfileChangeKeepsLinks | src/module/admin/admin.services.ts:411-422 | a profile change that does not mention links, once approved, keeps the user's links |
| Workflow.ApproveGameKeepsInvariants | src/module/admin/admin.services.ts:142-170 | approving a game keeps every workflow invariant, and the game is then visible and approved |
| Workflow.DeleteGameKeepsInvariants | src/module/admin/admin.services.ts:519-541 | an admin's game deletion keeps every workflow invariant, and the game is no longer found |
| Workflow.DeleteOwnGameKeepsInvariants | src/module/user/user.services.ts:139-172 | an owner's game deletion keeps every workflow invariant, and the game is no longer found |
| Workflow.DeleteUserKeepsInvariants | src/module/admin/admin.services.ts:492-517 | an admin's user deletion keeps every workflow invariant, the unique indexes and one live USER per email, and the user is no longer found |
| Workflow.DeleteOwnAccountKeepsInvariants | src/module/user/user.services.ts:106-137 | self-deletion keeps every workflow invariant, the unique indexes and one live USER per email, and the user is no longer found |
| Workflow.CreateUserKeepsOneLiveUserPerEmail | src/module/user/user.services.ts:16-49 | sign-up never creates a second live USER with an email that already has one |
| Workflow.CreateUserKeepsInvariants | src/module/user/user.services.ts:16-49 | sign-up keeps every workflow invariant and the unique indexes on `sub` and `email` |
| Findings.StagedRecordAsWritten | src/module/game/gameUpdate.model.ts:67-71 | as written, every staged record carries a status, and `active` when none was requested |
| Findings.AsWrittenTitleEditResetsUpcoming | src/module/admin/admin.services.ts:262-282 | as written, approving a title-only edit makes an upcoming game active and drops its date |
| Findings.AsWrittenMergeNeverEmpty | src/module/admin/admin.services.ts:284-290 | as written, no merge set is empty, so the empty-merge refusal never fires |
| Findings.CorrectedTitleEditKeepsUpcoming | src/module/admin/admin.services.ts:262-282 | corrected, the same edit keeps the game upcoming and dated |
| Findings.StagedProfileAsWritten | src/module/user/userUpdateProfile.ts:25-33 | as written, a staged change without links carries an empty link list |
| Findings.AsWrittenRenameWipesLinks | src/module/admin/admin.services.ts:411-422 | as written, approving a rename erases the user's links |
| Findings.CorrectedRenameKeepsLinks | src/module/admin/admin.services.ts:411-422 | corrected, the rename keeps the user's links |
| Findings.UpdateProfileAsWritten | src/module/user/user.services.ts:173-275 | as written, profile staging has the same error cases without the pending-change check |
| Findings.AsWrittenStagesSecondPending | src/module/user/user.services.ts:249-264 | as written, a second pending change is staged for a user who already has one |
| Findings.CorrectedRefusesSecondPending | src/module/user/user.services.ts:249-264 | corrected, the same request is refused with BAD_REQUEST |
| Findings.SchemaAsWrittenDiffersOnlyOnDate | src/module/game/game.model.ts:88-97 | the corrected schema implies the written one, and they differ only on an upcoming game without a date |
| Findings.AsWrittenSchemaAdmitsUndatedUpcoming | src/module/game/game.model.ts:88-97 | as written, an upcoming game without a date passes the schema; corrected, it is refused |
| Findings.ApproveGameUpdateAsWritten | src/module/admin/admin.services.ts:240-316 | as written, approval succeeds iff the target is valid and the merge set is non-empty with valid paths; it fails exactly as the corrected approval does, and differs from it only when the merged game is upcoming without a date |
| Findings.AsWrittenApprovalLeavesUpcomingUndated | src/module/admin/admin.services.ts:268-298 | as written, approving an edit that asks for `upcoming` without a date stores an upcoming game with no date; corrected, the write is refused with a 500 |
| Findings.SubmitProfileUpdateAsWritten | src/module/user/user.services.ts:277-311 | as written, the lookup never compares the id: with strict queries off every submission is NOT_FOUND, with them on any live user lets it proceed, and then it agrees with the corrected submission for an existing user |
| Findings.AsWrittenSubmitMissesUser | src/module/user/user.services.ts:281 | as written with strict queries off, a user's own submission is NOT_FOUND; corrected, it is staged |
| Findings.UpdateProfileWithKeys | src/module/user/user.services.ts:249-255 | as written, the payload's `userId`, `submittedAt` and `reviewedAt` override the staged record's owner and dates; a value Mongoose cannot cast is a 500; with no such keys it is the as-written staging |
| Findings.WithRecordKeys | src/module/user/user.services.ts:249-255 | the spread lays each given key over the record and changes nothing else |
| Findings.AsWrittenStagesForAnotherUser | src/module/user/user.services.ts:249-255 | as written, user 0 stages a rename with `userId: 7` and its approval renames user 7; corrected, the record belongs to user 0 |
| Findings.AsWrittenBadDateIsInternalError | src/module/user/user.services.ts:249-272 | as written, a body the validator passes but carrying `submittedAt: "x"` is a 500; corrected, it is staged |
| Findings.AsWrittenSubmitStagesForUnknownId | src/module/user/user.services.ts:281 | as written with strict queries on, a submission for an id that names no user is staged; corrected, it is NOT_FOUND |

## Left out

- File and CDN I/O, `fs.unlink` and multer storage: an upload is a parameter holding the URL the CDN returned.
- JWT verification is a parameter mapping tokens to claims. bcrypt hashing and comparison are not modelled: a password is an opaque string.
- `loginAdminIntoDb` and `updateUserToAdminIntoDb` are left out because they are credential handling. Only the role gate in front of the promotion is modelled.
- `getDashboardStats`, `getAllGameIntoDb`, `getAllApproveGameIntoDb`, `getUpcomingGame`, `getSimilarGame`, `searchGameIntoDb`, `updateLinkTypeIntoDb`, `findAllUserIntoDb`, `userProfile`, `getAllBlogIntoDb`, `singleBlog`, `deleteAllBlogIntoDb` and `findAllNewsletterEmailIntoDb` are left out. They are read-only reporting or lie outside the moderation workflow. Their paging is covered by `QueryBuilder`.
- `populate` and `$lookup` are not modelled. The owner join of the top-game pipeline is kept as the condition that the owner document exists.
- TopGames.TopGames: the day and week bounds are parameters, because `startOfDay` and `startOfWeek` are clock arithmetic. The order among equal scores is not fixed, because the database does not fix it.
- Sessions, transactions and the check-then-insert race on pending records are not modelled. Each service call is one atomic step.
- `idConverter` on a malformed id is not modelled. Ids are always well formed.
- GameValidation.CheckCreate counts string lengths in characters rather than UTF-16 code units, so a bound is off for text outside the Basic Multilingual Plane.
- GameValidation.CheckUpdate counts string lengths in characters rather than UTF-16 code units, as CheckCreate does.
- UserValidation.CheckProfileUpdate counts lengths in characters and does not model zod's `url()` check on each link; the link pattern itself is modelled.
- UserValidation.CheckSignup does not model zod's `url()` check on the photo; the link pattern is modelled. `.email()` is modelled with the rule of zod 3.22 and later, because the installed zod version is not pinned.
- GameValidation.CheckCreate does not model zod's `url()` check on each social link, which runs the WHATWG URL parser; `urlPattern` itself is modelled (`UrlPattern.IsUrl`). The model therefore passes some links the parser refuses: one without a scheme, which the parser always refuses, or one whose host ends in a numeric label.
- GameValidation.CheckUpdate does not model zod's `url()` check on each social link either, for the same reason as CheckCreate.
- UserServices.UpdateProfile stages the record for the caller with the server's dates, the correction of Finding F. In the code the payload's `userId`, `submittedAt` and `reviewedAt` override them (`Findings.UpdateProfileWithKeys`). Other keys the spread copies, such as `_id`, are not modelled.
- UserValidation.ValidProfileBodyNeverInternalError holds of the corrected staging only. In the code a body the validator passes can still carry a `submittedAt` Mongoose cannot cast, which is a 500 (`Findings.AsWrittenBadDateIsInternalError`).
- Workflow.UpdateProfileKeepsOnePending holds of the corrected staging only. In the code the payload's `userId` can stage a change for another user (`Findings.AsWrittenStagesForAnotherUser`), besides the second pending change of Finding C.
- MediaUrl.Basename follows POSIX `path.basename`, with `/` as the only separator. On Windows a `\` in the upload path separates too; that is not modelled.
- MediaUrl.JoinPlain follows POSIX `path.join`. The Windows join with `\`, which the builders' `replace` turns back into `/`, is not modelled.
- BlogServices.UpdateBlog leaves out the FORBIDDEN check `existingBlog.id !== payload.blogId` (src/module/blog/blog.services.ts:153-159). The post is found by that id, and ids are always well formed here, so the check cannot fire. An id spelled with upper-case hexadecimal digits, which the comparison with the lower-case `id` would refuse, is not modelled.
- UserServices.SubmitProfileUpdate looks the user up by id, the correction of Finding E; the code's lookup is `Findings.SubmitProfileUpdateAsWritten`. Its pending record keeps the links as given, the correction of Finding B.
- AdminServices.ApproveGameUpdate refuses, with a 500, a merge that leaves an upcoming game without a date: the correction of Finding D. The code lets it through, as `Findings.ApproveGameUpdateAsWritten` models.
- AdminServices.ApproveGameUpdate reads a `$set` of an absent `upcomingDate` as clearing the date. Mongoose versions that strip undefined keys from an update would keep the old date instead.
- AdminServices.RejectGameUpdate deletes exactly the record it found. The code passes the bare ObjectId to `deleteOne` as the whole filter, and the model reads that filter as selecting the record by `_id`. Other readings of a bare ObjectId filter are not modelled.
- GameServices.CreateGame uses the corrected schema of Finding D, so an upcoming game without a date is refused with a schema error where the code stores it.
- GameServices.CreateGame models the price as an integer. The code's `parseFloat` of a fractional or non-numeric price, `NaN` included, is not modelled.
- GameServices.StagedRecord records no status when none was requested, the correction of Finding A. The code's schema default records `active`, as `Findings.StagedRecordAsWritten` models.
- GameServices.StageGameUpdate stages through `StagedRecord`, so it carries the same correction of Finding A.
- UserServices.StagedProfile keeps absent links absent, the correction of Finding B. The code's schema default stores `[]`, as `Findings.StagedProfileAsWritten` models.
- UserServices.UpdateProfile carries the corrections of Findings B and C. A change without links holds no links, and a user with a pending change is refused with BAD_REQUEST where the code stages a second one (`Findings.UpdateProfileAsWritten`).
- QueryBuilder.Paginate reads `Number` on integer notation with surrounding white space. Fractions, exponents, hexadecimal, `Infinity` and the floating-point product for `skip` are not modelled; such a parameter reads as `NaN`.
- QueryBuilder.CountTotal reads `Number` the same way as Paginate. A fractional limit and the floating-point `Math.ceil` are not modelled.
- GameValidation.TopGameLimit reads digits beyond double precision exactly. This never changes the outcome, because such a value is above 50 either way.
- BlogServices.CreateBlog and BlogServices.UpdateBlog model `published` as absent or a boolean. A string value and its Boolean cast are not modelled.
- `approveGame`, the approve/reject decisions and the admin deletions are modelled without the admin id they log, because it has no effect on the outcome.

## Findings

| source | as written | input that shows it | evidently intended | confidence | as-written member | corrected member |
|---|---|---|---|---|---|---|
| src/module/game/gameUpdate.model.ts:67-71 | a staged edit without `gameStatus` gets the default `active`, and approval then writes `active` and clears `upcomingDate` | an upcoming game dated 100; its owner stages a title-only edit; an admin approves it | an edit that does not mention the status leaves the status and date alone | high (not executed) | Findings.StagedRecordAsWritten, Findings.AsWrittenTitleEditResetsUpcoming | GameServices.StageGameUpdate, Workflow.StatuslessEditKeepsStatus |
| src/module/user/userUpdateProfile.ts:25-33 | a staged profile change without links gets the default `[]`, and approval then writes `[]` into the user | a user with one link renames themselves; an admin approves | a change that does not mention links keeps the user's links | high (not executed) | Findings.StagedProfileAsWritten, Findings.AsWrittenRenameWipesLinks | UserServices.UpdateProfile, Workflow.LinklessProfileChangeKeepsLinks |
| src/module/user/user.services.ts:249-264 | profile staging never checks for a pending change, unlike `submitProfileUpdate` | a user who already has a pending change stages another | at most one pending change per user | medium (not executed) | Findings.UpdateProfileAsWritten, Findings.AsWrittenStagesSecondPending | UserServices.UpdateProfile, Workflow.UpdateProfileKeepsOnePending |
| src/module/game/game.model.ts:88-97 | the date validator sits on `upcomingDate`, so it is skipped when the date is absent, and an update validator never sees the status | a game with status `upcoming` and no date is created; or an approved edit asks for `upcoming` without a date | an upcoming game must have a date, as the validator's message says | high (not executed) | Findings.GameSchemaValidAsWritten, Findings.AsWrittenSchemaAdmitsUndatedUpcoming, Findings.ApproveGameUpdateAsWritten, Findings.AsWrittenApprovalLeavesUpcomingUndated | GameModel.GameSchemaValid, GameServices.CreateGame, AdminServices.ApproveGameUpdate, Workflow.CreateGameKeepsInvariants, Workflow.ApproveGameUpdateKeepsInvariants |
| src/module/user/user.services.ts:281 | `User.findOne({ userId, … })` queries a path the user schema lacks: with strict queries on the condition is dropped and any live user matches, with them off no user matches | a user with id 0 submits a change (strict queries off: NOT_FOUND); or a submission for id 9, which names no user, while user 0 is live (strict queries on: staged) | the submitting user is looked up by id | high (not executed) | Findings.SubmitProfileUpdateAsWritten, Findings.AsWrittenSubmitMissesUser, Findings.AsWrittenSubmitStagesForUnknownId | UserServices.SubmitProfileUpdate, Workflow.SubmitProfileUpdateKeepsOnePending |
| src/module/user/user.services.ts:249-255 | the raw payload is spread after `userId`, so its `userId`, `submittedAt` and `reviewedAt` keys (the validator does not replace the body) override the owner and the dates | user 0 sends a rename carrying `userId: 7`, and an admin approves it; or a valid rename carrying `submittedAt: "x"` | the record belongs to the caller, as the "only your own profile" check says, and the server sets its dates | medium (not executed) | Findings.UpdateProfileWithKeys, Findings.AsWrittenStagesForAnotherUser, Findings.AsWrittenBadDateIsInternalError | UserServices.UpdateProfile, UserValidation.ValidProfileBodyNeverInternalError, Workflow.UpdateProfileKeepsOnePending |
