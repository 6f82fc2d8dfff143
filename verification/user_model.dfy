/**
  The User and Admin documents and the staged profile change (the pending
  user update): fields, defaults, schema validators, the pre-save guard
  and the soft-delete read filters.
 */
module UserModel {
  import opened Common
  import opened LinkPattern

  /** A user. `photo` is `None` for the schema's `null` default. */
  datatype User = User(
    sub: string,
    name: string,
    userName: Option<string>,
    email: string,
    password: Option<string>,
    role: Role,
    bio: Option<string>,
    links: seq<SocialLink>,
    photo: Option<string>,
    approvedUpdate: bool,
    isDeleted: bool)

  /** Profile links: each has a name and a link matching `linksRegex`. */
  predicate ProfileLinksValid(links: seq<SocialLink>) {
    && (forall i :: 0 <= i < |links| ==> links[i].name != "")
    && AllLinksValid(links)
  }

  /** The user schema: `sub`, `name` and `email` are non-empty, the role is
      one of the enum's two values (never SUPERADMIN), and the links are valid. */
  predicate UserSchemaValid(u: User) {
    && u.sub != ""
    && u.name != ""
    && u.email != ""
    && u.role != SUPERADMIN
    && ProfileLinksValid(u.links)
  }

  /** A new user as the schema defaults complete it. */
  function NewUser(sub: string, name: string, email: string, password: Option<string>, role: Role, photo: Option<string>): (u: User)
    ensures u.role == role && u.links == [] && u.approvedUpdate && !u.isDeleted
    ensures u.sub == sub && u.name == name && u.email == email && u.photo == photo
  {
    User(sub, name, None, email, password, role, None, [], photo, true, false)
  }

  /** The document paths the pre-save hook looks at. */
  datatype UserPath = NamePath | UserNamePath | BioPath | LinksPath | PhotoPath | PasswordPath

  /** The paths a user whose `approvedUpdate` is false may not change by saving. */
  const GuardedPaths: set<UserPath> := {NamePath, BioPath, LinksPath, PhotoPath}

  /** The pre-save hook: a new document with a password is hashed and
      accepted at once; otherwise a document whose `approvedUpdate` is false
      may not be saved with a modified name, bio, links or photo. */
  function PreSave(isNew: bool, hasPassword: bool, approvedUpdate: bool, modified: set<UserPath>): (r: Outcome)
    ensures isNew && hasPassword ==> r == Pass
    ensures approvedUpdate ==> r == Pass
    ensures r.Fail? <==> !(isNew && hasPassword) && !approvedUpdate && modified * GuardedPaths != {}
  {
    GuardedHit(modified);
    if isNew && hasPassword then Pass
    else if !approvedUpdate && (NamePath in modified || BioPath in modified || LinksPath in modified || PhotoPath in modified) then
      Fail(InternalError)
    else Pass
  }

  lemma GuardedHit(modified: set<UserPath>)
    ensures (NamePath in modified || BioPath in modified || LinksPath in modified || PhotoPath in modified)
            <==> modified * GuardedPaths != {}
  {
    if NamePath in modified { assert NamePath in modified * GuardedPaths; }
    if BioPath in modified { assert BioPath in modified * GuardedPaths; }
    if LinksPath in modified { assert LinksPath in modified * GuardedPaths; }
    if PhotoPath in modified { assert PhotoPath in modified * GuardedPaths; }
    if modified * GuardedPaths != {} {
      var p :| p in modified * GuardedPaths;
    }
  }

  /** `userName` is not guarded: changing only the user name (or the
      password) is always accepted, whatever `approvedUpdate` says. */
  lemma UserNameUnguarded(isNew: bool, hasPassword: bool, approvedUpdate: bool, modified: set<UserPath>)
    requires modified <= {UserNamePath, PasswordPath}
    ensures PreSave(isNew, hasPassword, approvedUpdate, modified) == Pass
  {
    assert modified * GuardedPaths == {} by {
      forall p | p in modified ensures p !in GuardedPaths {
      }
    }
  }

  /** Each guarded path on its own is refused while an update awaits approval. */
  lemma GuardedPathRefused(p: UserPath)
    requires p in GuardedPaths
    ensures PreSave(false, true, false, {p}).Fail?
  {
    assert p in {p} * GuardedPaths;
  }

  /** `find`, `findOne` and `findById` on users: soft-deleted users are invisible. */
  function FindUser(users: map<Id, User>, id: Id): (r: Option<User>)
    ensures r.Some? ==> id in users && users[id] == r.value && !r.value.isDeleted
    ensures id in users && !users[id].isDeleted ==> r.Some?
  {
    if id in users && !users[id].isDeleted then Some(users[id]) else None
  }

  /** An administrator account. */
  datatype Admin = Admin(name: string, email: string, password: string, role: Role, isDeleted: bool)

  /** The admin schema: required strings are non-empty and the role is
      SUPERADMIN or ADMIN. */
  predicate AdminSchemaValid(a: Admin) {
    a.name != "" && a.email != "" && a.password != "" && a.role != USER
  }

  /** `findOne` and `findById` on admins: soft-deleted admins are invisible. */
  function FindAdmin(admins: map<Id, Admin>, id: Id): (r: Option<Admin>)
    ensures r.Some? ==> id in admins && admins[id] == r.value && !r.value.isDeleted
    ensures id in admins && !admins[id].isDeleted ==> r.Some?
  {
    if id in admins && !admins[id].isDeleted then Some(admins[id]) else None
  }

  /** A staged profile change. `links` is `None` when the change does not
      supply links; `photo` is `None` for `null`. */
  datatype PendingUserUpdate = PendingUserUpdate(
    userId: Id,
    name: Option<string>,
    userName: Option<string>,
    bio: Option<string>,
    links: Option<seq<SocialLink>>,
    photo: Option<string>,
    status: ReviewStatus,
    submittedAt: Time,
    reviewedAt: Option<Time>)

  /** The link validator of the staged profile change. */
  predicate PendingUserUpdateValid(u: PendingUserUpdate) {
    u.links.Some? ==> ProfileLinksValid(u.links.value)
  }
}
