/** The rows of the metadata store (the tables tracks, likes, follows,
    comments and user_settings), what a handler receives and answers, and
    the fields the listings derive from the rows when they are read. */
module Schema {
  import opened Wrappers
  import opened Text

  type Uid = Bytes
  type TrackId = int
  type CommentId = int

  /** A tracks row. `filename` names the blob under uploads/; `uploaderName`
      is a copy of the uploader's display name. */
  datatype Track = Track(filename: Bytes, title: Bytes, artist: Bytes, lyrics: Bytes,
                         uploader: Uid, uploaderName: Bytes)

  /** A likes row; UNIQUE(user_uid, track_id) makes the table a set. */
  datatype Like = Like(user: Uid, track: TrackId)

  /** A follows row; the primary key (follower, followee) makes the table a set. */
  datatype Follow = Follow(follower: Uid, followee: Uid)

  /** A comments row; `authorName` is a copy of the author's display name. */
  datatype Comment = Comment(track: TrackId, author: Uid, authorName: Bytes, content: Bytes)

  /** The whole metadata store. `nextTrackId` and `nextCommentId` are the
      AUTOINCREMENT counters: the id the next inserted row receives. */
  datatype Db = Db(tracks: map<TrackId, Track>, likes: set<Like>, follows: set<Follow>,
                   comments: map<CommentId, Comment>, settings: map<Uid, bool>,
                   nextTrackId: TrackId, nextCommentId: CommentId)

  /** The verified identity token a handler runs for: its subject, its
      email_verified claim (false when absent or not a boolean) and its
      name claim (None when absent or not a string). */
  datatype Caller = Caller(uid: Uid, emailVerified: bool, name: Option<Bytes>)

  /** The HTTP status a handler answers with. */
  datatype Status = OK | BadRequest | Forbidden | NotFound | Conflict | InternalError

  /** Which call into the metadata store fails during one request: none,
      or the handler's `step`-th call, counting from 1 (begin, each query
      or statement, commit). */
  datatype StoreFault = Never | FailsAt(step: nat) {
    predicate Hits(first: nat, last: nat) {
      FailsAt? && first <= step <= last
    }
  }

  /** What a request did to durable state, in order: a blob created under
      uploads/, an attempt to remove one (and whether it succeeded), or a
      metadata change made durable. */
  datatype Effect = CreateBlob(name: Bytes) | RemoveBlob(name: Bytes, removed: bool) | Commit

  /** The event an email is sent about. */
  datatype NoticeKind = NewTrack(uploader: Uid) | NewLike(track: TrackId) | NewComment(track: TrackId)

  /** The decision to email `recipient` about an event. */
  datatype Notice = Notice(recipient: Uid, kind: NoticeKind)

  /** The users who like track `t`. */
  function Likers(likes: set<Like>, t: TrackId): set<Uid> {
    set l | l in likes && l.track == t :: l.user
  }

  /** likes_count of a listed track: how many likes rows name it. It is 0
      exactly when no user likes the track. */
  function LikesCount(likes: set<Like>, t: TrackId): (r: nat)
    ensures r == 0 <==> forall u :: !IsLiked(likes, t, u)
  {
    NoLikersIff(likes, t);
    |Likers(likes, t)|
  }

  /** is_liked of a listed track for the user asking: the user is one of
      those likes_count counts. */
  predicate IsLiked(likes: set<Like>, t: TrackId, u: Uid)
    ensures IsLiked(likes, t, u) <==> u in Likers(likes, t)
  {
    assert Like(u, t) in likes ==> Like(u, t).user in Likers(likes, t);
    Like(u, t) in likes
  }

  lemma NoLikersIff(likes: set<Like>, t: TrackId)
    ensures Likers(likes, t) == {} <==> forall u :: !IsLiked(likes, t, u)
  {
    if Likers(likes, t) != {} {
      var u :| u in Likers(likes, t);
      assert IsLiked(likes, t, u);
    }
  }

  predicate NoSelfFollows(follows: set<Follow>) {
    forall f :: f in follows ==> f.follower != f.followee
  }

  /** The UNIQUE constraint on tracks.filename. */
  predicate UniqueFilenames(tracks: map<TrackId, Track>) {
    forall i, j :: i in tracks && j in tracks && tracks[i].filename == tracks[j].filename ==> i == j
  }

  /** What every handler keeps true of the store and the blob directory:
      no one follows themselves, every live track's blob exists, filenames
      are unique, and the counters are above every id in use. Blobs without
      a row (left by a failed cleanup) are allowed. */
  predicate Consistent(db: Db, blobs: set<Bytes>) {
    && NoSelfFollows(db.follows)
    && UniqueFilenames(db.tracks)
    && (forall id :: id in db.tracks ==> id < db.nextTrackId && db.tracks[id].filename in blobs)
    && (forall id :: id in db.comments ==> id < db.nextCommentId)
  }

  /** More files on disk never break consistency. */
  lemma MoreBlobsKeepConsistent(db: Db, blobs: set<Bytes>, more: set<Bytes>)
    requires Consistent(db, blobs)
    ensures Consistent(db, blobs + more)
  {
  }

  /** A new track row at the next id, whose blob is on disk under a name no
      earlier blob had, keeps the tables consistent. */
  lemma NewTrackKeepsConsistent(db: Db, blobs: set<Bytes>, row: Track)
    requires Consistent(db, blobs) && row.filename !in blobs
    ensures Consistent(db.(tracks := db.tracks[db.nextTrackId := row], nextTrackId := db.nextTrackId + 1),
                       blobs + {row.filename})
  {
  }
}
