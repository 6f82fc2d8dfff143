/**
  The document store every service reads and writes: one map per
  collection, keyed by document id, and the counter that hands out fresh
  ids (the model's stand-in for ObjectId generation).
 */
module Database {
  import opened Common
  import opened GameModel
  import opened UserModel
  import opened ContentModel

  datatype Store = Store(
    users: map<Id, User>,
    admins: map<Id, Admin>,
    games: map<Id, Game>,
    gameUpdates: map<Id, PendingGameUpdate>,
    profileUpdates: map<Id, PendingUserUpdate>,
    blogs: map<Id, Blog>,
    subscriptions: map<Id, Subscription>,
    nextId: Id)

  /** The store with no documents. */
  const Empty: Store := Store(map[], map[], map[], map[], map[], map[], map[], 0)

  /** Every document id, and every comment id, was handed out by the counter. */
  predicate IdsIssued(s: Store) {
    && (forall id :: id in s.users ==> id < s.nextId)
    && (forall id :: id in s.admins ==> id < s.nextId)
    && (forall id :: id in s.games ==> id < s.nextId)
    && (forall id :: id in s.gameUpdates ==> id < s.nextId)
    && (forall id :: id in s.profileUpdates ==> id < s.nextId)
    && (forall id :: id in s.blogs ==> id < s.nextId)
    && (forall id :: id in s.subscriptions ==> id < s.nextId)
    && (forall id, i :: id in s.games && 0 <= i < |s.games[id].comments| ==> s.games[id].comments[i].id < s.nextId)
  }

  /** Does a pending game update exist for this game and this user? */
  predicate HasPendingGameUpdate(s: Store, gameId: Id, userId: Id) {
    exists k :: k in s.gameUpdates && s.gameUpdates[k].gameId == gameId
                && s.gameUpdates[k].userId == userId && s.gameUpdates[k].status == Pending
  }

  /** Does a pending profile update exist for this user? */
  predicate HasPendingProfileUpdate(s: Store, userId: Id) {
    exists k :: k in s.profileUpdates && s.profileUpdates[k].userId == userId
                && s.profileUpdates[k].status == Pending
  }
}
