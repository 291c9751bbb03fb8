/** Who is emailed about an event. Each notification is a fire-and-forget
    unit started after the triggering write; here it is the list of
    recipients it decides on, appended to an outbox in order. */
module Notify {
  import opened Text
  import opened Schema

  /** shouldNotify: a user without a user_settings row gets email; one with
      a row gets what the row says. */
  function ShouldNotify(settings: map<Uid, bool>, u: Uid): (r: bool)
    ensures u !in settings ==> r
    ensures u in settings ==> r == settings[u]
  {
    if u in settings then settings[u] else true
  }

  /** The identity provider knows a non-empty email address for `u`;
      `directory` stands for its GetUser lookup. */
  predicate Reachable(directory: map<Uid, Bytes>, u: Uid) {
    u in directory && directory[u] != []
  }

  /** The single-recipient unit started after a new like or a new comment on
      track `t` by `actor`: it looks the track up, drops the event when the
      track is gone or the owner is the actor, asks shouldNotify, then
      looks up the owner's address. */
  function OwnerNotice(tracks: map<TrackId, Track>, settings: map<Uid, bool>,
                       directory: map<Uid, Bytes>, t: TrackId, actor: Uid,
                       kind: NoticeKind): (r: seq<Notice>)
    ensures |r| <= 1
    ensures r != [] <==>
              t in tracks && tracks[t].uploader != actor
              && ShouldNotify(settings, tracks[t].uploader) && Reachable(directory, tracks[t].uploader)
    ensures forall n :: n in r ==> n == Notice(tracks[t].uploader, kind) && n.recipient != actor
  {
    if t !in tracks then []
    else
      var owner := tracks[t].uploader;
      if owner == actor then []
      else if !ShouldNotify(settings, owner) then []
      else if !Reachable(directory, owner) then []
      else [Notice(owner, kind)]
  }

  /** SELECT follower_uid FROM follows WHERE following_uid = uploader */
  function Followers(follows: set<Follow>, uploader: Uid): (r: set<Uid>)
    ensures forall u :: u in r <==> Follow(u, uploader) in follows
  {
    set f | f in follows && f.followee == uploader :: f.follower
  }

  /** The followers of `uploader` who are emailed about a new track: those
      whose preference allows it and whose address is known. */
  function FollowerAudience(follows: set<Follow>, settings: map<Uid, bool>,
                            directory: map<Uid, Bytes>, uploader: Uid): (r: set<Uid>)
    ensures forall u :: u in r <==>
              Follow(u, uploader) in follows && ShouldNotify(settings, u) && Reachable(directory, u)
  {
    set f | f in follows && f.followee == uploader && ShouldNotify(settings, f.follower)
                         && Reachable(directory, f.follower) :: f.follower
  }

  /** The users a list of notices goes to. */
  function Recipients(notices: seq<Notice>): set<Uid> {
    set n | n in notices :: n.recipient
  }

  lemma RecipientsSnoc(notices: seq<Notice>, n: Notice)
    ensures Recipients(notices + [n]) == Recipients(notices) + {n.recipient}
  {
  }
}
