/** The display-name rename of the profile handler: the uniqueness query
    and the UPDATE that copies the new name onto the caller's tracks. */
module Profile {
  import opened Text
  import opened Schema

  /** SELECT uploader_uid FROM tracks WHERE uploader_name = name AND
      uploader_uid != uid LIMIT 1 finds a row. */
  predicate NameTaken(tracks: map<TrackId, Track>, name: Bytes, uid: Uid) {
    exists id :: id in tracks && tracks[id].uploaderName == name && tracks[id].uploader != uid
  }

  /** UPDATE tracks SET uploader_name = name WHERE uploader_uid = uid */
  function RenameTracks(tracks: map<TrackId, Track>, uid: Uid, name: Bytes): (r: map<TrackId, Track>)
    ensures r.Keys == tracks.Keys
    ensures forall id :: id in r && r[id].uploader == uid ==> r[id].uploaderName == name
    ensures forall id :: id in tracks && tracks[id].uploader != uid ==> r[id] == tracks[id]
    ensures forall id :: id in tracks ==> r[id] == tracks[id].(uploaderName := r[id].uploaderName)
  {
    map id | id in tracks :: if tracks[id].uploader == uid then tracks[id].(uploaderName := name) else tracks[id]
  }

  /** No two users carry the same name on their live tracks. */
  predicate NamesUnique(tracks: map<TrackId, Track>) {
    forall i, j :: i in tracks && j in tracks && tracks[i].uploaderName == tracks[j].uploaderName
                   ==> tracks[i].uploader == tracks[j].uploader
  }

  /** A rename that passed the uniqueness query keeps names unique. */
  lemma RenameKeepsNamesUnique(tracks: map<TrackId, Track>, uid: Uid, name: Bytes)
    requires NamesUnique(tracks) && !NameTaken(tracks, name, uid)
    ensures NamesUnique(RenameTracks(tracks, uid, name))
  {
  }

  /** The rename touches no file name, no key and no owner, so the
      tables stay consistent with the blobs. */
  lemma RenameKeepsConsistent(db: Db, blobs: set<Bytes>, uid: Uid, name: Bytes)
    requires Consistent(db, blobs)
    ensures Consistent(db.(tracks := RenameTracks(db.tracks, uid, name)), blobs)
  {
  }

  /** The uniqueness query is needed: a caller who owns a track and takes
      a name another user's track carries would break uniqueness. With
      RenameKeepsNamesUnique, a rename keeps names unique exactly when the
      query finds nothing (for a caller with tracks). */
  lemma TakenNameClashes(tracks: map<TrackId, Track>, name: Bytes, uid: Uid, own: TrackId)
    requires own in tracks && tracks[own].uploader == uid && NameTaken(tracks, name, uid)
    ensures !NamesUnique(RenameTracks(tracks, uid, name))
  {
    var other :| other in tracks && tracks[other].uploaderName == name && tracks[other].uploader != uid;
    var renamed := RenameTracks(tracks, uid, name);
    assert renamed[own].uploaderName == name == renamed[other].uploaderName;
    assert renamed[own].uploader != renamed[other].uploader;
  }

  /** The upload handler copies the token's name claim without asking
      whether another user's tracks carry it, so an upload can break the
      uniqueness that the rename keeps. */
  lemma UploadCanDuplicateName(tracks: map<TrackId, Track>, id: TrackId, row: Track)
    requires NamesUnique(tracks) && id !in tracks
    requires NameTaken(tracks, row.uploaderName, row.uploader)
    ensures !NamesUnique(tracks[id := row])
  {
    var j :| j in tracks && tracks[j].uploaderName == row.uploaderName && tracks[j].uploader != row.uploader;
    var m := tracks[id := row];
    assert j in m && id in m && m[j].uploaderName == m[id].uploaderName && m[j].uploader != m[id].uploader;
  }
}
