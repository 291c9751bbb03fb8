/** The handlers of backend/main.go that change state, as methods of one
    object holding the metadata tables, the uploads/ blob directory, the
    identity provider's display names and the notifications decided on.
    Each method runs one request to completion: the deferred rollback of a
    failed transaction is `Rollback`, and a fire-and-forget notification
    unit runs right after the write that started it. */
module Handlers {
  import opened Wrappers
  import opened Text
  import opened Schema
  import opened Toggle
  import opened Validation
  import opened Notify
  import opened Cascade
  import opened Profile

  /** How the upload's file handling goes: every step succeeds, or the
      first step that fails. OpenFails, ReadFails and SeekFails happen
      before content sniffing; CreateFails is os.Create, CopyFails is
      io.Copy into the new blob, InsertFails is the INSERT of the row,
      followed by an os.Remove of the blob that may itself fail. */
  datatype UploadIo =
    | Healthy
    | OpenFails | ReadFails | SeekFails
    | CreateFails | CopyFails
    | InsertFails(cleanupFails: bool)
  {
    /** os.Create made the blob. */
    predicate CreatesBlob() {
      Healthy? || CopyFails? || InsertFails?
    }

    /** The blob is still there when the handler returns. */
    predicate KeepsBlob() {
      Healthy? || CopyFails? || (InsertFails? && cleanupFails)
    }
  }

  /** No one gets two of the notices. */
  predicate OnePerRecipient(notices: seq<Notice>) {
    forall i, j :: 0 <= i < j < |notices| ==> notices[i].recipient != notices[j].recipient
  }

  /** Every name in `audience` gets exactly one notice, of kind `kind`, and
      no one else gets any. */
  predicate Announces(notices: seq<Notice>, audience: set<Uid>, kind: NoticeKind) {
    Recipients(notices) == audience && OnePerRecipient(notices)
    && forall n :: n in notices ==> n.kind == kind
  }

  /** The names a list holds. */
  function Elements(names: seq<Bytes>): set<Bytes> {
    set n | n in names
  }

  lemma ElementsSnoc(names: seq<Bytes>, n: Bytes)
    ensures Elements(names + [n]) == Elements(names) + {n}
  {
  }

  /** Some element of a non-empty set: the next row a query yields. */
  method Pick<T>(s: set<T>) returns (x: T)
    requires s != {}
    ensures x in s
  {
    x :| x in s;
  }

  /** The removal attempts for `names`, in order, with their outcome. */
  function RemovalAttempts(names: seq<Bytes>, stuck: set<Bytes>): seq<Effect> {
    seq(|names|, i requires 0 <= i < |names| => RemoveBlob(names[i], names[i] !in stuck))
  }

  /** A like may name an id no track has yet, and the next upload takes
      that id: the new track is listed as already liked, with a non-zero
      likes_count. */
  lemma EarlyLikeShowsOnNewTrack(db: Db, liker: Uid, row: Track)
    requires !IsLiked(db.likes, db.nextTrackId, liker)
    ensures var id := db.nextTrackId;
      var uploaded := db.(likes := Flip(db.likes, Like(liker, id)),
                          tracks := db.tracks[id := row], nextTrackId := id + 1);
      && id in uploaded.tracks && IsLiked(uploaded.likes, id, liker)
      && LikesCount(uploaded.likes, id) > 0
  {
    var liked := Flip(db.likes, Like(liker, db.nextTrackId));
    assert IsLiked(liked, db.nextTrackId, liker);
  }

  class Store {
    var tracks: map<TrackId, Track>
    var likes: set<Like>
    var follows: set<Follow>
    var comments: map<CommentId, Comment>
    var settings: map<Uid, bool>
    var nextTrackId: TrackId
    var nextCommentId: CommentId
    /** The names of the files under uploads/. */
    var blobs: set<Bytes>
    /** The display names the identity provider holds. */
    var displayNames: map<Uid, Bytes>
    /** The notifications decided on, in order. */
    var outbox: seq<Notice>
    /** What the requests did to durable state, in order. */
    ghost var journal: seq<Effect>

    function Tables(): Db
      reads this
    {
      Db(tracks, likes, follows, comments, settings, nextTrackId, nextCommentId)
    }

    ghost predicate Valid()
      reads this
    {
      Consistent(Tables(), blobs)
    }

    /** An empty store, as the schema creates it. */
    constructor ()
      ensures Valid()
      ensures Tables() == Db(map[], {}, {}, map[], map[], 1, 1)
      ensures blobs == {} && displayNames == map[] && outbox == [] && journal == []
    {
      tracks, likes, follows, comments, settings := map[], {}, {}, map[], map[];
      nextTrackId, nextCommentId := 1, 1;
      blobs, displayNames, outbox := {}, map[], [];
      journal := [];
    }

    /** The deferred tx.Rollback(): every table goes back to the snapshot
        taken at db.Begin(). Files and notifications are not touched. */
    method Rollback(snapshot: Db)
      modifies this
      ensures Tables() == snapshot
      ensures unchanged(this`blobs, this`displayNames, this`outbox, this`journal)
    {
      tracks, likes, follows, comments, settings := snapshot.tracks, snapshot.likes, snapshot.follows, snapshot.comments, snapshot.settings;
      nextTrackId, nextCommentId := snapshot.nextTrackId, snapshot.nextCommentId;
    }

    /** POST /upload. The form is checked first, then the file is opened,
        read for content sniffing and rewound; nothing is written for a
        request that fails any of these. `SaveUpload` does the rest. */
    method Upload(caller: Caller, form: UploadForm, io: UploadIo, uuid: Bytes,
                  directory: map<Uid, Bytes>) returns (status: Status)
      requires Valid()
      requires uuid + MP3 !in blobs
      modifies this
      ensures Valid()
      ensures unchanged(this`displayNames)
      ensures UploadRejection(caller, form).Some? ==> status == UploadRejection(caller, form).value
      ensures UploadRejection(caller, form).None? ==>
                status == (if io.OpenFails? || io.ReadFails? || io.SeekFails? then InternalError
                           else if form.file.value.sniffedDangerous then BadRequest
                           else if io.Healthy? then OK
                           else InternalError)
      ensures !AdmissibleUpload(caller, form) || !io.CreatesBlob() ==>
                Tables() == old(Tables()) && blobs == old(blobs) && outbox == old(outbox) && journal == old(journal)
      ensures AdmissibleUpload(caller, form) && io.CreatesBlob() ==> Saved(caller, form, io, uuid + MP3, directory)
      ensures AdmissibleUpload(caller, form) && io.Healthy? ==>
                && old(nextTrackId) in tracks && old(nextTrackId) !in old(tracks)
                && LikesCount(likes, old(nextTrackId)) == LikesCount(old(likes), old(nextTrackId))
    {
      var rejection := UploadRejection(caller, form);
      if rejection.Some? {
        return rejection.value;
      }
      var file := form.file.value;
      if io.OpenFails? || io.ReadFails? || io.SeekFails? {
        return InternalError;
      }
      if file.sniffedDangerous {
        return BadRequest;
      }
      if io.CreateFails? {  // os.Create
        return InternalError;
      }
      status := SaveUpload(caller, form, io, uuid + MP3, directory);
    }

    /** What the second half of the upload did, as seen from its start:
        the blob is created first; a failed copy leaves the partly written
        blob behind; a failed INSERT is followed by a removal attempt of
        the blob (which may fail and leave an orphan); a successful INSERT
        puts the row at the next id and notifies the uploader's followers. */
    twostate predicate Saved(caller: Caller, form: UploadForm, io: UploadIo, name: Bytes, directory: map<Uid, Bytes>)
      reads this
    {
      && blobs == old(blobs) + (if io.KeepsBlob() then {name} else {})
      && journal == old(journal) + [CreateBlob(name)] +
           (match io
            case Healthy => [Commit]
            case InsertFails(cleanupFails) => [RemoveBlob(name, !cleanupFails)]
            case _ => [])
      && (!io.Healthy? ==> Tables() == old(Tables()) && outbox == old(outbox))
      && (io.Healthy? ==>
            && caller.name.Some?
            && Tables() == old(Tables()).(
                 tracks := old(tracks)[old(nextTrackId) := Track(name, form.title, form.artist, form.lyrics,
                                                                 caller.uid, caller.name.value)],
                 nextTrackId := old(nextTrackId) + 1)
            && |outbox| >= |old(outbox)| && outbox[..|old(outbox)|] == old(outbox)
            && Announces(outbox[|old(outbox)|..], FollowerAudience(follows, settings, directory, caller.uid),
                         NewTrack(caller.uid))
            && caller.uid !in Recipients(outbox[|old(outbox)|..]))
    }

    /** The second half of the upload, from os.Create on. */
    method SaveUpload(caller: Caller, form: UploadForm, io: UploadIo, name: Bytes,
                      directory: map<Uid, Bytes>) returns (status: Status)
      requires Valid()
      requires name !in blobs && caller.name.Some? && io.CreatesBlob()
      modifies this
      ensures Valid()
      ensures unchanged(this`displayNames)
      ensures status == if io.Healthy? then OK else InternalError
      ensures Saved(caller, form, io, name, directory)
    {
      var row := Track(name, form.title, form.artist, form.lyrics, caller.uid, caller.name.value);
      MoreBlobsKeepConsistent(Tables(), blobs, {name});
      NewTrackKeepsConsistent(Tables(), blobs, row);
      blobs := blobs + {name};
      journal := journal + [CreateBlob(name)];
      if io.CopyFails? {  // io.Copy
        return InternalError;
      }
      if io.InsertFails? {  // the INSERT, then os.Remove of the blob
        if !io.cleanupFails {
          blobs := blobs - {name};
          assert blobs == old(blobs);
        }
        journal := journal + [RemoveBlob(name, !io.cleanupFails)];
        return InternalError;
      }
      PublishTrack(row, directory);
      status := OK;
    }

    /** A successful INSERT: the row takes the next id, and the notification
        unit for the uploader's followers runs. */
    method PublishTrack(row: Track, directory: map<Uid, Bytes>)
      modifies this
      ensures unchanged(this`blobs, this`displayNames)
      ensures Tables() == old(Tables()).(tracks := old(tracks)[old(nextTrackId) := row],
                                         nextTrackId := old(nextTrackId) + 1)
      ensures journal == old(journal) + [Commit]
      ensures |outbox| >= |old(outbox)| && outbox[..|old(outbox)|] == old(outbox)
      ensures Announces(outbox[|old(outbox)|..], FollowerAudience(follows, settings, directory, row.uploader),
                        NewTrack(row.uploader))
      ensures NoSelfFollows(follows) ==> row.uploader !in Recipients(outbox[|old(outbox)|..])
    {
      tracks := tracks[nextTrackId := row];
      nextTrackId := nextTrackId + 1;
      journal := journal + [Commit];
      var notices := FollowerNotices(row.uploader, directory);
      outbox := outbox + notices;
      assert outbox[|old(outbox)|..] == notices;
    }

    /** The notification unit started by an upload: it walks the rows of
        the uploader's followers and keeps those whose preference allows
        email and whose address the identity provider knows. */
    method FollowerNotices(uploader: Uid, directory: map<Uid, Bytes>) returns (notices: seq<Notice>)
      ensures Announces(notices, FollowerAudience(follows, settings, directory, uploader), NewTrack(uploader))
      ensures NoSelfFollows(follows) ==> uploader !in Recipients(notices)
    {
      var rows := Followers(follows, uploader);
      var preferences := settings;
      ghost var followers := rows;
      ghost var audience := FollowerAudience(follows, settings, directory, uploader);
      notices := [];
      while rows != {}
        invariant rows <= followers
        invariant audience - rows == Recipients(notices)
        invariant OnePerRecipient(notices)
        invariant forall n :: n in notices ==> n.kind == NewTrack(uploader)
        decreases rows
      {
        var follower := Pick(rows);
        if ShouldNotify(preferences, follower) && Reachable(directory, follower) {
          var notice := Notice(follower, NewTrack(uploader));
          assert forall i :: 0 <= i < |notices| ==> notices[i].recipient in Recipients(notices);
          RecipientsSnoc(notices, notice);
          notices := notices + [notice];
        }
        rows := rows - {follower};
      }
      assert NoSelfFollows(follows) ==> Follow(uploader, uploader) !in follows;
    }

    /** POST /track/:id/like. Inside one transaction: look the like up,
        delete it when present or insert it when absent, commit. Any
        failure before the commit completes rolls the transaction back.
        A new like notifies the track's owner; the answer carries the new
        state and the count read after the commit. */
    method ToggleLike(caller: Caller, t: TrackId, fault: StoreFault, directory: map<Uid, Bytes>)
      returns (status: Status, likesCount: nat, isLiked: bool)
      requires Valid()
      modifies this
      ensures Valid()
      ensures unchanged(this`blobs, this`displayNames)
      ensures !caller.emailVerified ==> status == Forbidden
      ensures status == OK <==> caller.emailVerified && !fault.Hits(1, 4)
      ensures status != OK ==> Tables() == old(Tables()) && outbox == old(outbox) && journal == old(journal)
      ensures status == OK ==>
                && isLiked == (Like(caller.uid, t) !in old(likes))
                && Tables() == old(Tables()).(likes := Flip(old(likes), Like(caller.uid, t)))
                && likesCount == LikesCount(likes, t)
                && outbox == old(outbox) +
                     (if isLiked then OwnerNotice(tracks, settings, directory, t, caller.uid, NewLike(t)) else [])
                && journal == old(journal) + [Commit]
    {
      if !caller.emailVerified {
        return Forbidden, 0, false;
      }
      if fault == FailsAt(1) {  // db.Begin
        return InternalError, 0, false;
      }
      var snapshot := Tables();
      if fault == FailsAt(2) {  // the EXISTS query
        Rollback(snapshot);
        return InternalError, 0, false;
      }
      var like := Like(caller.uid, t);
      var present := like in likes;
      if fault == FailsAt(3) {  // the DELETE or the INSERT
        Rollback(snapshot);
        return InternalError, 0, false;
      }
      if present {
        likes := likes - {like};
      } else {
        likes := likes + {like};
      }
      if fault == FailsAt(4) {  // tx.Commit
        Rollback(snapshot);
        return InternalError, 0, false;
      }
      journal := journal + [Commit];
      if !present {
        outbox := outbox + OwnerNotice(tracks, settings, directory, t, caller.uid, NewLike(t));
      }
      status, likesCount, isLiked := OK, LikesCount(likes, t), !present;
    }

    /** POST /user/:uid/follow. Following oneself is refused before
        anything is read. There is no transaction: the existence query and
        the DELETE or INSERT run on their own, and an error of the write is
        ignored, so the answer reports the flipped state even when the
        write failed. */
    method ToggleFollow(caller: Caller, target: Uid, fault: StoreFault) returns (status: Status, isFollowing: bool)
      requires Valid()
      modifies this
      ensures Valid()
      ensures unchanged(this`blobs, this`displayNames, this`outbox)
      ensures caller.uid == target ==> status == BadRequest
      ensures caller.uid != target && !caller.emailVerified ==> status == Forbidden
      ensures status == OK <==> caller.uid != target && caller.emailVerified && fault != FailsAt(1)
      ensures status != OK ==> Tables() == old(Tables()) && journal == old(journal)
      ensures status == OK ==> isFollowing == (Follow(caller.uid, target) !in old(follows))
      ensures status == OK && fault != FailsAt(2) ==>
                Tables() == old(Tables()).(follows := Flip(old(follows), Follow(caller.uid, target)))
                && journal == old(journal) + [Commit]
      ensures status == OK && fault == FailsAt(2) ==>
                Tables() == old(Tables()) && journal == old(journal)
                && isFollowing != (Follow(caller.uid, target) in follows)
    {
      if caller.uid == target {
        return BadRequest, false;
      }
      if !caller.emailVerified {
        return Forbidden, false;
      }
      if fault == FailsAt(1) {  // the EXISTS query
        return InternalError, false;
      }
      var edge := Follow(caller.uid, target);
      var present := edge in follows;
      if fault != FailsAt(2) {  // the DELETE or the INSERT
        follows := Flip(follows, edge);
        journal := journal + [Commit];
      }
      status, isFollowing := OK, !present;
    }

    /** POST /track/:id/comment. The checks, then one INSERT; the track's
        owner is notified. The track id is not checked against the tracks
        table. */
    method PostComment(caller: Caller, t: TrackId, content: Option<Bytes>, fault: StoreFault,
                       directory: map<Uid, Bytes>) returns (status: Status)
      requires Valid()
      modifies this
      ensures Valid()
      ensures unchanged(this`blobs, this`displayNames)
      ensures CommentRejection(caller, content).Some? ==> status == CommentRejection(caller, content).value
      ensures CommentRejection(caller, content).None? ==>
                status == (if fault == FailsAt(1) then InternalError else OK)
      ensures status != OK ==> Tables() == old(Tables()) && outbox == old(outbox) && journal == old(journal)
      ensures status == OK ==>
                && Tables() == old(Tables()).(
                     comments := old(comments)[old(nextCommentId) := Comment(t, caller.uid, caller.name.value, content.value)],
                     nextCommentId := old(nextCommentId) + 1)
                && outbox == old(outbox) + OwnerNotice(tracks, settings, directory, t, caller.uid, NewComment(t))
                && journal == old(journal) + [Commit]
    {
      var rejection := CommentRejection(caller, content);
      if rejection.Some? {
        return rejection.value;
      }
      if fault == FailsAt(1) {  // the INSERT
        return InternalError;
      }
      comments := comments[nextCommentId := Comment(t, caller.uid, caller.name.value, content.value)];
      nextCommentId := nextCommentId + 1;
      journal := journal + [Commit];
      outbox := outbox + OwnerNotice(tracks, settings, directory, t, caller.uid, NewComment(t));
      status := OK;
    }

    /** DELETE /comment/:id. One DELETE restricted to the caller's own
        comment; when it removes nothing the answer is Forbidden, whether
        the comment is missing or someone else's. */
    method DeleteComment(caller: Caller, id: CommentId, fault: StoreFault) returns (status: Status)
      requires Valid()
      modifies this
      ensures Valid()
      ensures unchanged(this`blobs, this`displayNames, this`outbox)
      ensures fault == FailsAt(1) ==> status == InternalError
      ensures status == OK <==> fault != FailsAt(1) && id in old(comments) && old(comments)[id].author == caller.uid
      ensures fault != FailsAt(1) && status != OK ==> status == Forbidden
      ensures status == OK ==> Tables() == old(Tables()).(comments := old(comments) - {id})
                               && journal == old(journal) + [Commit]
      ensures status != OK ==> Tables() == old(Tables()) && journal == old(journal)
    {
      if fault == FailsAt(1) {  // the DELETE
        return InternalError;
      }
      if id !in comments || comments[id].author != caller.uid {
        return Forbidden;
      }
      comments := comments - {id};
      journal := journal + [Commit];
      status := OK;
    }

    /** DELETE /track/:id. The row is read and the caller's ownership
        checked outside the transaction; then `TrackTransaction` deletes
        the track's likes, its comments and its row; only after the commit
        is the blob removed, and a failed removal still answers OK. */
    method DeleteTrack(caller: Caller, t: TrackId, fault: StoreFault, removeFails: bool) returns (status: Status)
      requires Valid()
      modifies this
      ensures Valid()
      ensures unchanged(this`displayNames, this`outbox)
      ensures fault == FailsAt(1) ==> status == InternalError
      ensures fault != FailsAt(1) && t !in old(tracks) ==> status == NotFound
      ensures fault != FailsAt(1) && t in old(tracks) && old(tracks)[t].uploader != caller.uid ==> status == Forbidden
      ensures status == OK <==> t in old(tracks) && old(tracks)[t].uploader == caller.uid && !fault.Hits(1, 6)
      ensures status != OK ==> Tables() == old(Tables()) && blobs == old(blobs) && journal == old(journal)
      ensures status == OK ==>
                var filename := old(tracks)[t].filename;
                && Tables() == TrackCascade(old(Tables()), t)
                && blobs == (if removeFails then old(blobs) else old(blobs) - {filename})
                && journal == old(journal) + [Commit, RemoveBlob(filename, !removeFails)]
    {
      if fault == FailsAt(1) {  // the SELECT of the row
        return InternalError;
      }
      if t !in tracks {
        return NotFound;
      }
      var row := tracks[t];
      if row.uploader != caller.uid {
        return Forbidden;
      }
      var committed := TrackTransaction(t, fault);
      if !committed {
        return InternalError;
      }
      TrackCascadeKeepsConsistent(old(Tables()), blobs, t, !removeFails);
      if !removeFails {
        blobs := blobs - {row.filename};
      }
      journal := journal + [RemoveBlob(row.filename, !removeFails)];
      status := OK;
    }

    /** The transaction of the track deletion: the track's likes, then its
        comments, then its row, then the commit (statements 2 to 6 of the
        handler); any failure rolls it all back. */
    method TrackTransaction(t: TrackId, fault: StoreFault) returns (committed: bool)
      modifies this
      ensures unchanged(this`blobs, this`displayNames, this`outbox)
      ensures committed <==> !fault.Hits(2, 6)
      ensures !committed ==> Tables() == old(Tables()) && journal == old(journal)
      ensures committed ==> Tables() == TrackCascade(old(Tables()), t) && journal == old(journal) + [Commit]
    {
      if fault == FailsAt(2) {  // db.Begin
        return false;
      }
      var snapshot := Tables();
      if fault == FailsAt(3) {  // DELETE FROM likes
        Rollback(snapshot);
        return false;
      }
      likes := LikesNotOn(likes, {t});
      if fault == FailsAt(4) {  // DELETE FROM comments
        Rollback(snapshot);
        return false;
      }
      comments := CommentsNotOn(comments, {t});
      if fault == FailsAt(5) {  // DELETE FROM tracks
        Rollback(snapshot);
        return false;
      }
      tracks := tracks - {t};
      if fault == FailsAt(6) {  // tx.Commit
        Rollback(snapshot);
        return false;
      }
      journal := journal + [Commit];
      committed := true;
    }

    /** The row loop of the account deletion: the blob names of `uid`'s
        tracks, one per row that is read. The rows in `unread` are those
        the loop does not deliver: a row whose Scan fails is skipped, and
        an iteration that stops early is not noticed. */
    method CaptureFilenames(uid: Uid, unread: set<TrackId>) returns (names: seq<Bytes>)
      ensures Elements(names) == FilenamesOf(tracks, TracksOf(tracks, uid) - unread)
    {
      var rows := tracks;
      var owned := TracksOf(rows, uid);
      var pending := owned;
      names := [];
      while pending != {}
        invariant pending <= owned
        invariant Elements(names) == FilenamesOf(rows, owned - pending - unread)
        decreases pending
      {
        var id := Pick(pending);
        assert owned - (pending - {id}) == owned - pending + {id};
        if id !in unread {
          var filename := rows[id].filename;
          assert FilenamesOf(rows, owned - pending - unread + {id}) == FilenamesOf(rows, owned - pending - unread) + {filename};
          assert owned - (pending - {id}) - unread == owned - pending - unread + {id};
          ElementsSnoc(names, filename);
          names := names + [filename];
        } else {
          assert owned - (pending - {id}) - unread == owned - pending - unread;
        }
        pending := pending - {id};
      }
    }

    /** The file loop after the account deletion's commit: one removal
        attempt per captured name, in order; names in `stuck` fail to be
        removed, and a failure does not stop the loop. */
    method RemoveBlobs(names: seq<Bytes>, stuck: set<Bytes>)
      modifies this
      ensures blobs == old(blobs) - (Elements(names) - stuck)
      ensures journal == old(journal) + RemovalAttempts(names, stuck)
      ensures Tables() == old(Tables()) && unchanged(this`displayNames, this`outbox)
    {
      var i := 0;
      while i < |names|
        invariant 0 <= i <= |names|
        invariant blobs == old(blobs) - (Elements(names[..i]) - stuck)
        invariant journal == old(journal) + RemovalAttempts(names[..i], stuck)
        invariant Tables() == old(Tables()) && unchanged(this`displayNames, this`outbox)
      {
        var removed := names[i] !in stuck;
        if removed {
          blobs := blobs - {names[i]};
        }
        journal := journal + [RemoveBlob(names[i], removed)];
        assert names[..i + 1] == names[..i] + [names[i]];
        ElementsSnoc(names[..i], names[i]);
        assert RemovalAttempts(names[..i + 1], stuck) == RemovalAttempts(names[..i], stuck) + [RemoveBlob(names[i], removed)];
        i := i + 1;
      }
      assert names[..i] == names;
    }

    /** One DELETE statement of the account deletion's transaction. */
    method ExecPurgeStep(uid: Uid, step: PurgeStep)
      modifies this
      ensures Tables() == ApplyStep(old(Tables()), uid, step)
      ensures unchanged(this`blobs, this`displayNames, this`outbox, this`journal)
    {
      match step
      case LikesByUser => likes := LikesNotBy(likes, uid);
      case LikesOnUserTracks => likes := LikesNotOn(likes, TracksOf(tracks, uid));
      case CommentsByUser => comments := CommentsNotBy(comments, uid);
      case CommentsOnUserTracks => comments := CommentsNotOn(comments, TracksOf(tracks, uid));
      case FollowsEitherWay => follows := FollowsNotTouching(follows, uid);
      case SettingsRow => settings := settings - {uid};
      case UserTracks => tracks := TracksNotBy(tracks, uid);
    }

    /** The seven DELETEs of the account deletion, statements 3 to 9 of
        its transaction, stopping at the first that fails. */
    method RunDeletes(uid: Uid, fault: StoreFault) returns (done: bool)
      modifies this
      ensures unchanged(this`blobs, this`displayNames, this`outbox, this`journal)
      ensures done <==> !fault.Hits(3, 9)
      ensures done ==> Tables() == Purge(old(Tables()), uid)
    {
      if fault == FailsAt(3) {
        return false;
      }
      ExecPurgeStep(uid, LikesByUser);
      if fault == FailsAt(4) {
        return false;
      }
      ExecPurgeStep(uid, LikesOnUserTracks);
      if fault == FailsAt(5) {
        return false;
      }
      ExecPurgeStep(uid, CommentsByUser);
      if fault == FailsAt(6) {
        return false;
      }
      ExecPurgeStep(uid, CommentsOnUserTracks);
      if fault == FailsAt(7) {
        return false;
      }
      ExecPurgeStep(uid, FollowsEitherWay);
      if fault == FailsAt(8) {
        return false;
      }
      ExecPurgeStep(uid, SettingsRow);
      if fault == FailsAt(9) {
        return false;
      }
      ExecPurgeStep(uid, UserTracks);
      done := true;
    }

    /** The transaction of the account deletion: it reads the blob names
        of the user's tracks and runs the seven DELETEs in order (likes by
        the user, likes on the user's tracks, comments by the user,
        comments on the user's tracks, follows either way, the settings
        row, the user's tracks), then commits. Any failure rolls it all
        back. */
    method PurgeTransaction(uid: Uid, fault: StoreFault, unread: set<TrackId>)
      returns (committed: bool, names: seq<Bytes>)
      modifies this
      ensures unchanged(this`blobs, this`displayNames, this`outbox)
      ensures committed <==> !fault.Hits(1, 10)
      ensures !committed ==> Tables() == old(Tables()) && journal == old(journal)
      ensures committed ==>
                && Tables() == Purge(old(Tables()), uid)
                && Elements(names) == FilenamesOf(old(tracks), TracksOf(old(tracks), uid) - unread)
                && journal == old(journal) + [Commit]
    {
      names := [];
      if fault == FailsAt(1) {  // db.Begin
        return false, names;
      }
      var snapshot := Tables();
      if fault == FailsAt(2) {  // the SELECT of the filenames
        Rollback(snapshot);
        return false, names;
      }
      names := CaptureFilenames(uid, unread);
      var done := RunDeletes(uid, fault);
      if !done {
        Rollback(snapshot);
        return false, names;
      }
      if fault == FailsAt(10) {  // tx.Commit
        Rollback(snapshot);
        return false, names;
      }
      journal := journal + [Commit];
      committed := true;
    }

    /** DELETE /account: the transaction, then, only once it has
        committed, one removal attempt per captured blob name. The blob of
        a track whose row the filename loop did not read (`unread`) is
        left behind, with no row pointing at it. */
    method DeleteAccount(caller: Caller, fault: StoreFault, unread: set<TrackId>, stuck: set<Bytes>)
      returns (status: Status)
      requires Valid()
      modifies this
      ensures Valid()
      ensures unchanged(this`displayNames, this`outbox)
      ensures status == OK <==> !fault.Hits(1, 10)
      ensures status != OK ==> status == InternalError && Tables() == old(Tables())
                               && blobs == old(blobs) && journal == old(journal)
      ensures status == OK ==>
                var captured := FilenamesOf(old(tracks), TracksOf(old(tracks), caller.uid) - unread);
                && Tables() == Purge(old(Tables()), caller.uid)
                && blobs == old(blobs) - (captured - stuck)
                && (forall id :: id in TracksOf(old(tracks), caller.uid) && id in unread ==>
                      old(tracks)[id].filename in blobs)
                && exists names: seq<Bytes> ::
                     Elements(names) == captured
                     && journal == old(journal) + [Commit] + RemovalAttempts(names, stuck)
    {
      var committed, names := PurgeTransaction(caller.uid, fault, unread);
      if !committed {
        return InternalError;
      }
      ghost var before := old(Tables());
      ghost var captured := FilenamesOf(before.tracks, TracksOf(before.tracks, caller.uid) - unread);
      assert captured <= FilenamesOf(before.tracks, TracksOf(before.tracks, caller.uid));
      PurgeKeepsConsistent(before, blobs, caller.uid, captured - stuck);
      forall id | id in TracksOf(before.tracks, caller.uid) && id in unread
        ensures before.tracks[id].filename in blobs - (captured - stuck)
      {
        UnreadBlobStays(before, blobs, caller.uid, unread, id);
      }
      RemoveBlobs(names, stuck);
      status := OK;
    }

    /** POST /profile. The display name is checked first; then
        `Rename` does the work under the trimmed name. */
    method UpdateProfile(caller: Caller, requested: Option<Bytes>, fault: StoreFault, authFails: bool)
      returns (status: Status)
      requires Valid()
      modifies this
      ensures Valid()
      ensures unchanged(this`blobs, this`outbox)
      ensures ProfileRejection(caller, requested).Some? ==>
                status == ProfileRejection(caller, requested).value
                && Tables() == old(Tables()) && displayNames == old(displayNames) && journal == old(journal)
      ensures ProfileRejection(caller, requested).None? ==>
                Renamed(caller.uid, TrimSpace(requested.value), fault, authFails, status)
      ensures NamesUnique(old(tracks)) ==> NamesUnique(tracks)
    {
      var rejection := ProfileRejection(caller, requested);
      if rejection.Some? {
        return rejection.value;
      }
      status := Rename(caller.uid, TrimSpace(requested.value), fault, authFails);
    }

    /** What the rename did: Conflict when the name is on another user's
        track; otherwise the identity provider takes the name, and then
        the caller's tracks do, unless the UPDATE fails, which leaves the
        provider holding a name the tracks do not show. */
    twostate predicate Renamed(uid: Uid, name: Bytes, fault: StoreFault, authFails: bool, status: Status)
      reads this
    {
      var taken := NameTaken(old(tracks), name, uid);
      && status == (if fault == FailsAt(1) then InternalError
                    else if taken then Conflict
                    else if authFails || fault == FailsAt(2) then InternalError
                    else OK)
      && displayNames == (if fault == FailsAt(1) || taken || authFails then old(displayNames)
                          else old(displayNames)[uid := name])
      && Tables() == (if status == OK then old(Tables()).(tracks := RenameTracks(old(tracks), uid, name))
                      else old(Tables()))
      && journal == (if status == OK then old(journal) + [Commit] else old(journal))
    }

    /** The uniqueness query, the identity provider's update, then the
        UPDATE of the caller's tracks. */
    method Rename(uid: Uid, name: Bytes, fault: StoreFault, authFails: bool) returns (status: Status)
      requires Valid()
      modifies this
      ensures Valid()
      ensures unchanged(this`blobs, this`outbox)
      ensures Renamed(uid, name, fault, authFails, status)
      ensures NamesUnique(old(tracks)) ==> NamesUnique(tracks)
    {
      if fault == FailsAt(1) {  // the uniqueness query
        return InternalError;
      }
      if NameTaken(tracks, name, uid) {
        return Conflict;
      }
      if authFails {  // app.Auth or UpdateUser
        return InternalError;
      }
      displayNames := displayNames[uid := name];
      if fault == FailsAt(2) {  // the UPDATE of tracks
        return InternalError;
      }
      UpdateTrackNames(uid, name);
      status := OK;
    }

    /** UPDATE tracks SET uploader_name = name WHERE uploader_uid = uid,
        run after the uniqueness query found no other user with `name`. */
    method UpdateTrackNames(uid: Uid, name: Bytes)
      requires Valid() && !NameTaken(tracks, name, uid)
      modifies this`tracks, this`journal
      ensures Valid()
      ensures tracks == RenameTracks(old(tracks), uid, name)
      ensures journal == old(journal) + [Commit]
      ensures NamesUnique(old(tracks)) ==> NamesUnique(tracks)
    {
      if NamesUnique(tracks) {
        RenameKeepsNamesUnique(tracks, uid, name);
      }
      RenameKeepsConsistent(Tables(), blobs, uid, name);
      tracks := RenameTracks(tracks, uid, name);
      journal := journal + [Commit];
    }

    /** POST /settings: the caller's email preference is inserted, or
        updated when a row exists. */
    method SetPreference(caller: Caller, requested: Option<bool>, fault: StoreFault) returns (status: Status)
      requires Valid()
      modifies this
      ensures Valid()
      ensures unchanged(this`blobs, this`displayNames, this`outbox)
      ensures requested.None? ==> status == BadRequest
      ensures requested.Some? ==> status == (if fault == FailsAt(1) then InternalError else OK)
      ensures status != OK ==> Tables() == old(Tables()) && journal == old(journal)
      ensures status == OK ==>
                && Tables() == old(Tables()).(settings := old(settings)[caller.uid := requested.value])
                && journal == old(journal) + [Commit]
                && ShouldNotify(settings, caller.uid) == requested.value
                && forall u :: u != caller.uid ==> ShouldNotify(settings, u) == ShouldNotify(old(settings), u)
    {
      if requested.None? {
        return BadRequest;
      }
      if fault == FailsAt(1) {  // the upsert
        return InternalError;
      }
      settings := settings[caller.uid := requested.value];
      journal := journal + [Commit];
      status := OK;
    }
  }

  /** A user likes a track nobody liked, then deletes the account, both
      requests succeeding: the like answers a count of 1 with is_liked
      true, and afterwards the track's count is 0 and nobody likes it. */
  method LikeThenDeleteAccountScenario(s: Store, a: Caller, t: TrackId, directory: map<Uid, Bytes>,
                                       stuck: set<Bytes>)
    returns (likeStatus: Status, likesCount: nat, isLiked: bool, deleteStatus: Status)
    requires s.Valid() && a.emailVerified && LikesCount(s.likes, t) == 0
    modifies s
    ensures s.Valid()
    ensures likeStatus == OK && likesCount == 1 && isLiked
    ensures deleteStatus == OK && LikesCount(s.likes, t) == 0
    ensures forall u :: !IsLiked(s.likes, t, u)
  {
    ghost var before := s.Tables();
    likeStatus, likesCount, isLiked := s.ToggleLike(a, t, Never, directory);
    LikeThenDeleteAccount(before, a.uid, t);
    ghost var liked := s.Tables();
    deleteStatus := s.DeleteAccount(a, Never, {}, stuck);
    assert s.likes == Purge(liked, a.uid).likes;
  }

  /** A user likes the id the next upload takes, then an upload succeeds:
      the new track is listed as liked by that user, with a non-zero
      likes_count, although nobody liked it after it was stored. */
  method EarlyLikeScenario(s: Store, liker: Caller, uploader: Caller, form: UploadForm, uuid: Bytes,
                           directory: map<Uid, Bytes>)
    returns (id: TrackId, uploadStatus: Status)
    requires s.Valid() && liker.emailVerified && !IsLiked(s.likes, s.nextTrackId, liker.uid)
    requires AdmissibleUpload(uploader, form) && uuid + MP3 !in s.blobs
    modifies s
    ensures s.Valid()
    ensures uploadStatus == OK && id in s.tracks
    ensures IsLiked(s.likes, id, liker.uid) && LikesCount(s.likes, id) > 0
  {
    id := s.nextTrackId;
    var likeStatus, count, liked := s.ToggleLike(liker, id, Never, directory);
    assert IsLiked(s.likes, id, liker.uid);
    uploadStatus := s.Upload(uploader, form, Healthy, uuid, directory);
  }
}
