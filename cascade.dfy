/** The deletions that remove a track, or a whole account, together with
    the rows that refer to it: each DELETE statement as a function on the
    store, the two cascades as those statements in the handlers' order, and
    what is left afterwards. */
module Cascade {
  import opened Text
  import opened Schema
  import opened Toggle

  /** SELECT id FROM tracks WHERE uploader_uid = uid */
  function TracksOf(tracks: map<TrackId, Track>, uid: Uid): set<TrackId> {
    set id | id in tracks && tracks[id].uploader == uid
  }

  /** The blob names of the tracks `ids`. */
  function FilenamesOf(tracks: map<TrackId, Track>, ids: set<TrackId>): set<Bytes> {
    set id | id in ids && id in tracks :: tracks[id].filename
  }

  /** DELETE FROM likes WHERE user_uid = uid */
  function LikesNotBy(likes: set<Like>, uid: Uid): set<Like> {
    set l | l in likes && l.user != uid
  }

  /** DELETE FROM likes WHERE track_id IN ids */
  function LikesNotOn(likes: set<Like>, ids: set<TrackId>): set<Like> {
    set l | l in likes && l.track !in ids
  }

  /** DELETE FROM comments WHERE user_uid = uid */
  function CommentsNotBy(comments: map<CommentId, Comment>, uid: Uid): map<CommentId, Comment> {
    map id | id in comments && comments[id].author != uid :: comments[id]
  }

  /** DELETE FROM comments WHERE track_id IN ids */
  function CommentsNotOn(comments: map<CommentId, Comment>, ids: set<TrackId>): map<CommentId, Comment> {
    map id | id in comments && comments[id].track !in ids :: comments[id]
  }

  /** DELETE FROM follows WHERE follower_uid = uid OR following_uid = uid */
  function FollowsNotTouching(follows: set<Follow>, uid: Uid): set<Follow> {
    set f | f in follows && f.follower != uid && f.followee != uid
  }

  /** DELETE FROM tracks WHERE uploader_uid = uid */
  function TracksNotBy(tracks: map<TrackId, Track>, uid: Uid): map<TrackId, Track> {
    map id | id in tracks && tracks[id].uploader != uid :: tracks[id]
  }

  /** The track deletion's transaction: the track's likes, then its
      comments, then its row. Afterwards nothing refers to the track any
      more, and every other row is kept. */
  function TrackCascade(db: Db, t: TrackId): (after: Db)
    ensures after.tracks == db.tracks - {t}
    ensures forall l :: l in after.likes <==> l in db.likes && l.track != t
    ensures forall id :: id in after.comments <==> id in db.comments && db.comments[id].track != t
    ensures forall id :: id in after.comments ==> after.comments[id] == db.comments[id]
    ensures after.follows == db.follows && after.settings == db.settings
    ensures after.nextTrackId == db.nextTrackId && after.nextCommentId == db.nextCommentId
  {
    var afterLikes := db.(likes := LikesNotOn(db.likes, {t}));
    var afterComments := afterLikes.(comments := CommentsNotOn(afterLikes.comments, {t}));
    afterComments.(tracks := afterComments.tracks - {t})
  }

  /** Removing a track's row and then its blob keeps the store consistent:
      filenames are unique, so no other live track used that blob. */
  lemma TrackCascadeKeepsConsistent(db: Db, blobs: set<Bytes>, t: TrackId, blobRemoved: bool)
    requires Consistent(db, blobs) && t in db.tracks
    ensures Consistent(TrackCascade(db, t), if blobRemoved then blobs - {db.tracks[t].filename} else blobs)
  {
  }

  /** The statements of the account deletion's transaction. */
  datatype PurgeStep =
    | LikesByUser | LikesOnUserTracks | CommentsByUser | CommentsOnUserTracks
    | FollowsEitherWay | SettingsRow | UserTracks

  /** One statement; those that name "the user's tracks" evaluate the
      subquery against the tracks table as it is at that point. */
  function ApplyStep(db: Db, uid: Uid, step: PurgeStep): (r: Db)
    ensures r.likes <= db.likes && r.follows <= db.follows
    ensures forall id :: id in r.tracks ==> id in db.tracks && r.tracks[id] == db.tracks[id]
    ensures forall id :: id in r.comments ==> id in db.comments && r.comments[id] == db.comments[id]
    ensures forall u :: u in r.settings ==> u in db.settings && r.settings[u] == db.settings[u]
    ensures r.nextTrackId == db.nextTrackId && r.nextCommentId == db.nextCommentId
  {
    match step
    case LikesByUser => db.(likes := LikesNotBy(db.likes, uid))
    case LikesOnUserTracks => db.(likes := LikesNotOn(db.likes, TracksOf(db.tracks, uid)))
    case CommentsByUser => db.(comments := CommentsNotBy(db.comments, uid))
    case CommentsOnUserTracks => db.(comments := CommentsNotOn(db.comments, TracksOf(db.tracks, uid)))
    case FollowsEitherWay => db.(follows := FollowsNotTouching(db.follows, uid))
    case SettingsRow => db.(settings := db.settings - {uid})
    case UserTracks => db.(tracks := TracksNotBy(db.tracks, uid))
  }

  /** The statements run one after another. */
  function RunSteps(db: Db, uid: Uid, steps: seq<PurgeStep>): Db
    decreases |steps|
  {
    if steps == [] then db else RunSteps(ApplyStep(db, uid, steps[0]), uid, steps[1..])
  }

  /** The handler's order: dependent rows first, the track rows last. */
  const PURGE_ORDER: seq<PurgeStep> :=
    [LikesByUser, LikesOnUserTracks, CommentsByUser, CommentsOnUserTracks,
     FollowsEitherWay, SettingsRow, UserTracks]

  /** The account deletion's transaction. Afterwards no like, comment,
      follow, settings row or track refers to the user or to any of the
      user's tracks, and every row that did not is kept. */
  function Purge(db: Db, uid: Uid): (after: Db)
    ensures var owned := TracksOf(db.tracks, uid);
      && (forall l :: l in after.likes <==> l in db.likes && l.user != uid && l.track !in owned)
      && (forall id :: id in after.comments <==>
            id in db.comments && db.comments[id].author != uid && db.comments[id].track !in owned)
      && (forall id :: id in after.comments ==> after.comments[id] == db.comments[id])
      && (forall f :: f in after.follows <==> f in db.follows && f.follower != uid && f.followee != uid)
      && after.settings == db.settings - {uid}
      && (forall id :: id in after.tracks <==> id in db.tracks && id !in owned)
      && (forall id :: id in after.tracks ==> after.tracks[id] == db.tracks[id])
      && after.nextTrackId == db.nextTrackId && after.nextCommentId == db.nextCommentId
  {
    var d1 := ApplyStep(db, uid, LikesByUser);
    var d2 := ApplyStep(d1, uid, LikesOnUserTracks);
    var d3 := ApplyStep(d2, uid, CommentsByUser);
    var d4 := ApplyStep(d3, uid, CommentsOnUserTracks);
    var d5 := ApplyStep(d4, uid, FollowsEitherWay);
    var d6 := ApplyStep(d5, uid, SettingsRow);
    ApplyStep(d6, uid, UserTracks)
  }

  /** The account deletion is the statements run in the handler's order. */
  lemma PurgeUnfolds(db: Db, uid: Uid)
    ensures Purge(db, uid) == RunSteps(db, uid, PURGE_ORDER)
  {
  }

  /** The order matters: were the user's track rows deleted before the likes
      on them, the subquery would find no tracks and another user's like on
      the user's track would survive, pointing at a track that is gone. */
  lemma TracksFirstLeavesOrphanLikes(db: Db, uid: Uid, l: Like)
    requires l in db.likes && l.user != uid && l.track in TracksOf(db.tracks, uid)
    ensures var after := RunSteps(db, uid, [UserTracks, LikesOnUserTracks]);
      l in after.likes && l.track !in after.tracks
  {
  }

  /** The blobs left after the account deletion removes some of the
      names of the user's tracks: the store stays consistent, since every
      removed name belonged to one of the user's deleted tracks. */
  lemma PurgeKeepsConsistent(db: Db, blobs: set<Bytes>, uid: Uid, removed: set<Bytes>)
    requires Consistent(db, blobs) && removed <= FilenamesOf(db.tracks, TracksOf(db.tracks, uid))
    ensures Consistent(Purge(db, uid), blobs - removed)
  {
  }

  /** A track of the user whose row the filename loop did not read keeps
      its blob: filenames are unique, so no name that was read is its. */
  lemma UnreadBlobStays(db: Db, blobs: set<Bytes>, uid: Uid, unread: set<TrackId>, id: TrackId)
    requires Consistent(db, blobs) && id in TracksOf(db.tracks, uid) && id in unread
    ensures db.tracks[id].filename in blobs
    ensures db.tracks[id].filename !in FilenamesOf(db.tracks, TracksOf(db.tracks, uid) - unread)
  {
  }

  /** The like counts after the account deletion: a track of the user has
      none left, and every other track loses exactly the user's own like. */
  lemma PurgeLikesCount(db: Db, uid: Uid, t: TrackId)
    ensures var after := Purge(db, uid);
      && !IsLiked(after.likes, t, uid)
      && LikesCount(after.likes, t) ==
           if t in TracksOf(db.tracks, uid) then 0 else |Likers(db.likes, t) - {uid}|
  {
    var after := Purge(db, uid);
    if t in TracksOf(db.tracks, uid) {
      assert Likers(after.likes, t) == {};
    } else {
      assert Likers(after.likes, t) == Likers(db.likes, t) - {uid};
    }
  }

  /** User A likes track T, which nobody liked: its count goes from 0 to
      1 and is_liked is true for A. Then A deletes the account: T's count
      is 0 again and no one likes it, whether or not A uploaded T. */
  lemma LikeThenDeleteAccount(db: Db, a: Uid, t: TrackId)
    requires LikesCount(db.likes, t) == 0
    ensures var liked := db.(likes := Flip(db.likes, Like(a, t)));
      && LikesCount(liked.likes, t) == 1 && IsLiked(liked.likes, t, a)
      && LikesCount(Purge(liked, a).likes, t) == 0
      && forall u :: !IsLiked(Purge(liked, a).likes, t, u)
  {
    var liked := db.(likes := Flip(db.likes, Like(a, t)));
    assert Like(a, t) !in db.likes;
    LikesCountAfterFlip(db.likes, a, t, t);
    assert Likers(liked.likes, t) == {a} by {
      assert Likers(db.likes, t) == {};
    }
    PurgeLikesCount(liked, a, t);
    var after := Purge(liked, a);
    forall u ensures !IsLiked(after.likes, t, u) {
      assert Like(u, t) in after.likes ==> u in Likers(after.likes, t);
    }
  }
}
