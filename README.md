# SoundLike backend, modelled in Dafny

SoundLike is a small music-sharing service: signed-in users upload MP3
tracks with a title, artist and lyrics, like tracks, follow other users,
comment, rename themselves, choose whether they get email, and delete their
tracks or their whole account. Its backend is one Go program,
`backend/main.go`, over a SQLite database (tables `tracks`, `likes`,
`follows`, `comments`, `user_settings`), a directory `uploads/` holding one
blob per track, Firebase for identity, and SMTP for notification email.

This project models the parts of that program that decide what ends up
stored and who is emailed:

- `text.dfy` (module `Text`): strings as UTF-8 bytes, so a length is Go's
  `len`; `strings.TrimSpace`, the separator search of `strings.SplitN`,
  `filepath.Ext` and ASCII `strings.ToLower`.
- `dotenv.dfy` (module `DotEnv`): the `.env` reader run at start-up, line
  by line, and what the environment holds afterwards.
- `schema.dfy` (module `Schema`): the rows, the whole store as a value,
  the caller's verified token, the HTTP statuses, the derived
  `likes_count` / `is_liked` of the listings, and the consistency the
  handlers keep between rows and blobs.
- `validation.dfy` (module `Validation`): the request checks of the
  upload, comment and profile handlers, with their limits and order.
- `notify.dfy` (module `Notify`): `shouldNotify` and who each
  notification unit decides to email.
- `toggle.dfy` (module `Toggle`): the check-then-flip of the like and
  follow toggles.
- `cascade.dfy` (module `Cascade`): the DELETE statements of the track
  deletion and of the account deletion, as functions on the store.
- `profile.dfy` (module `Profile`): the display-name uniqueness query and
  the rename of the caller's tracks.
- `handlers.dfy` (module `Handlers`): class `Store`, one method per
  state-changing handler. Its fields are the tables, the blob names under
  `uploads/`, the display names the identity provider holds, the
  notifications decided on (`outbox`) and a ghost `journal` of durable
  effects in order (blob created, blob removal attempted, commit).

Things the handlers cannot control are parameters: a `StoreFault` says
which call into the database fails (counting `Begin`, each statement and
`Commit` from 1); `UploadIo` says which file operation of the upload fails;
`removeFails` / `stuck` say which blob removals fail; `authFails` says the
identity provider refuses the new display name; `directory` is the
provider's email lookup; `uuid` is the fresh name generator's output.
Every transaction snapshots the tables at `Begin`, and the deferred
rollback restores them (`Store.Rollback`). A notification unit, which the
program starts as a goroutine after the write, runs right after it here.

Where the code and its evident intent differ, the model follows the
code:

- The account deletion reads the filenames inside its transaction, before
  the deletes.
- The rename copies the new name onto the caller's tracks only; comment
  rows keep the name they were written with.
- The follow toggle has no transaction, ignores the error of its DELETE or
  INSERT (the answer still reports the flipped state), and sends no email.
- Likes and comments are accepted for any numeric track id, with no check
  that the track exists.
- The upload copies the token's name claim onto the row without the
  uniqueness query the rename makes, so display names are unique only as
  far as renames go (`Profile.UploadCanDuplicateName`).
- The comment deletion, track deletion, account deletion and settings
  handlers do not require a verified email.
- A fresh upload is not guaranteed to start with no likes: a like may name
  an id no track has yet, and the likes table has no foreign key, so the
  next upload, which takes that id, is listed as already liked
  (`Handlers.EarlyLikeShowsOnNewTrack`). Its `likes_count` is 0 exactly
  when no earlier like names its id (`Handlers.Store.Upload`).
- The account deletion's filename loop skips a row whose scan fails and
  does not check whether the iteration ended early; the deletes still
  commit, and the blobs of the rows not read stay on disk with no row
  pointing at them (`Handlers.Store.DeleteAccount`, parameter `unread`).

## Model

| member | source | states |
|---|---|---|
| Text.TrimSpace | backend/main.go:109 | the result has no white space at either end, is no longer than the input, and a string already trimmed comes back unchanged |
| Text.TrimSpaceIsInfix | backend/main.go:114-115 | the trimmed string is a contiguous part of the input with only white space before and after it |
| Text.TrimSpaceOmits | backend/main.go:114 | trimming adds no byte: a key cut before the first `=` holds no `=` after trimming |
| Text.IndexOf | backend/main.go:112 | the cut point of `SplitN(line, "=", 2)`: -1 exactly when there is no `=`, otherwise an index holding `=` with none before it |
| Text.IndexOfFirst | backend/main.go:112 | the first occurrence of a byte is the index found |
| Text.TrimSpaceFirst | backend/main.go:109 | the trimmed string starts at the first byte that is not white space, and is empty exactly when the string is all white space |
| Text.ToLowerLetters | backend/main.go:467 | lower-casing keeps the length, turns each upper-case ASCII letter into its lower-case letter, keeps every other byte and leaves no upper-case letter |
| Text.Ext | backend/main.go:467 | `filepath.Ext` is a suffix of the name that is empty or starts at a dot and holds no further dot or slash; empty only when every dot is followed by a slash |
| Validation.Mp3ExtensionIff | backend/main.go:467-470 | the extension test accepts a file name exactly when it ends in `.mp3` in any letter case |
| DotEnv.Unquote | backend/main.go:117-119 | one pair of surrounding quotes is removed exactly when the value is longer than one byte and starts and ends with the same `"` or `'`; otherwise the value is kept |
| DotEnv.IsSkipped | backend/main.go:109-111 | a line is skipped exactly when it is all white space or its first byte that is not white space is `#` |
| DotEnv.ParseLine | backend/main.go:109-116 | a line yields a pair exactly when it is neither blank nor a `#` comment and holds an `=`; the key is trimmed and holds no `=` |
| DotEnv.ParseLineSplits | backend/main.go:112-119 | a line that is not skipped is cut at its first `=`: the key is the trimmed text before it and the value the trimmed, unquoted text after it, whatever white space surrounds them |
| DotEnv.Apply | backend/main.go:112-120 | reading one line loses no key and adds at most one |
| DotEnv.EnvAfter | backend/main.go:106-122 | reading all lines loses no key and adds at most one key per line |
| DotEnv.LoadEnv | backend/main.go:105-122 | the scanner loop leaves the environment that applying every line in order gives |
| DotEnv.ApplyKeeps | backend/main.go:120 | a line that does not set a key leaves that key's presence and value as they were |
| DotEnv.ApplySets | backend/main.go:120 | a line that parses to an acceptable pair sets exactly that key to that value |
| DotEnv.LastAssignmentWins | backend/main.go:106-121 | a key ends with the value of the last line that assigns it |
| DotEnv.UnassignedKeyKept | backend/main.go:106-121 | a key no line assigns keeps its earlier value or absence |
| DotEnv.ParseQuoted | backend/main.go:109-119 | the line `key="value"` reads back as the key and the value, for any value and any trimmed key without `=` that does not start with `#` |
| DotEnv.ParseAssignment | backend/main.go:112-116 | a line made of a key, `=` and a trimmed non-empty value is cut at that `=` and gives the key and the unquoted value |
| DotEnv.UnquoteQuoted | backend/main.go:117-119 | a value wrapped in double quotes is unwrapped back to itself |
| Schema.MoreBlobsKeepConsistent | backend/main.go:519-522 | an orphan blob left by a failed cleanup does not break consistency |
| Schema.NewTrackKeepsConsistent | backend/main.go:500-518 | a row inserted at the next id, whose blob was just created under a fresh name, keeps the store consistent |
| Schema.LikesCount | backend/main.go:347 | `likes_count` is 0 exactly when no user likes the track |
| Schema.IsLiked | backend/main.go:348 | `is_liked` holds exactly when the user is one of those `likes_count` counts |
| Toggle.Flip | backend/main.go:750-756 | the like (or follow) is present afterwards exactly when it was absent before, and nothing else changes |
| Toggle.FlipTwice | backend/main.go:750-756 | a second toggle restores the set as it was |
| Toggle.FlipNAlternates | backend/main.go:750-756 | after an even number of toggles the set is as it was, after an odd number it is one toggle away |
| Toggle.LikesCountAfterFlip | backend/main.go:344-348 | a toggle moves the track's `likes_count` by exactly one in the direction of the new state and leaves every other track's count unchanged |
| Validation.UploadRejection | backend/main.go:425-470 | an upload passes exactly when the email is verified, a name claim is present, the title is 1 to 100 bytes, the artist at most 100, the lyrics at most 10000, a file part exists of at most 15 MiB with an `.mp3` extension; a missing verification or name is Forbidden, everything else BadRequest |
| Validation.CommentRejection | backend/main.go:871-886 | a comment passes exactly when the email is verified, a name claim is present, the body binds and the content is 1 to 500 bytes; Forbidden for the first two, BadRequest otherwise |
| Validation.ProfileRejection | backend/main.go:586-601 | a rename passes exactly when the body binds, the email is verified and the trimmed name is 1 to 30 bytes; Forbidden only for an unverified email |
| Notify.ShouldNotify | backend/main.go:143-155 | a user without a settings row is emailed; a user with one gets what the row says |
| Notify.OwnerNotice | backend/main.go:769-790 | the like and comment units email at most the track's owner, and do so exactly when the track exists, the owner is not the actor, `shouldNotify` allows it and the owner has an address |
| Notify.Followers | backend/main.go:531 | the follower query yields exactly the users who follow the uploader |
| Notify.FollowerAudience | backend/main.go:527-571 | a user is emailed about a new track exactly when they follow the uploader, `shouldNotify` allows it and they have an address |
| Notify.RecipientsSnoc | backend/main.go:545-566 | one more notice adds exactly its recipient to those emailed |
| Cascade.TrackCascade | backend/main.go:992-1001 | after the track deletion no like or comment refers to the track, its row is gone, and every other row is kept |
| Cascade.TrackCascadeKeepsConsistent | backend/main.go:992-1012 | deleting the rows and then, when it succeeds, the blob keeps the store consistent |
| Cascade.ApplyStep | backend/main.go:1046-1079 | each DELETE statement of the account deletion only removes rows: every table keeps a subset of its rows, unchanged, and the id counters stay |
| Cascade.PurgeUnfolds | backend/main.go:1046-1079 | the account deletion is the seven DELETE statements run in the handler's order |
| Cascade.Purge | backend/main.go:1046-1079 | after the account deletion no like, comment, follow, settings row or track refers to the user or to one of the user's tracks, and every other row is kept unchanged |
| Cascade.TracksFirstLeavesOrphanLikes | backend/main.go:1051-1053 | had the user's tracks been deleted before the likes on them, another user's like on such a track would survive with no track behind it |
| Cascade.PurgeKeepsConsistent | backend/main.go:1046-1092 | removing any of the user's tracks' blobs after the commit (those captured, less those whose removal fails) keeps the store consistent |
| Cascade.UnreadBlobStays | backend/main.go:1038-1043 | the blob of a user's track whose row the filename loop did not read is still on disk and is not among the names captured |
| Cascade.PurgeLikesCount | backend/main.go:1046-1053 | after the account deletion the user likes nothing, the user's tracks have no likes, and any other track loses exactly the user's like |
| Cascade.LikeThenDeleteAccount | backend/main.go:1046-1053 | a like by A on a track nobody liked, whether or not A uploaded it, brings its count to 1 with `is_liked` true; deleting A's account brings it back to 0 with no one liking it |
| Profile.RenameTracks | backend/main.go:628 | every track of the caller carries the new name, every other track is unchanged, no id is added or lost and no other field changes |
| Profile.RenameKeepsNamesUnique | backend/main.go:604-633 | a rename that passed the uniqueness query keeps every display name on tracks owned by one user |
| Profile.TakenNameClashes | backend/main.go:604-608 | when the uniqueness query (`NameTaken`) finds a row and the caller owns a track, the rename would break name uniqueness, so the Conflict is needed |
| Profile.RenameKeepsConsistent | backend/main.go:628-633 | the rename touches no filename, id or owner, so the store stays consistent |
| Profile.UploadCanDuplicateName | backend/main.go:430-434 | an upload under a name another user's track carries breaks name uniqueness, since the upload makes no uniqueness query |
| Handlers.EarlyLikeShowsOnNewTrack | backend/main.go:744-752 | a like on the id the next upload takes makes the new track listed as liked by that user, with a non-zero `likes_count` |
| Handlers.EarlyLikeScenario | backend/main.go:744-752 | run through the handlers: a like on the next id followed by a successful upload leaves the new track liked by that user, with a non-zero `likes_count` |
| Handlers.LikeThenDeleteAccountScenario | backend/main.go:1046-1053 | run through the handlers: a like on a track nobody liked answers count 1 and liked; after the liker's account deletion succeeds the track has count 0 and no liker |
| Handlers.Store.constructor | backend/main.go:206-272 | the store starts consistent, with empty tables, counters at 1, no blobs and no notices |
| Handlers.Store.Rollback | backend/main.go:740 | the deferred rollback restores every table to the snapshot and touches no file, name or notice |
| Handlers.Store.Upload | backend/main.go:418-574 | a rejected form answers the rejection's status and writes nothing; open, read or seek failures answer 500 and a sniffed text or script answers 400, writing nothing; otherwise the blob is created before the row, and the result is as `Saved` states; a stored track's `likes_count` is what the likes table already held for its id; consistency is kept |
| Handlers.Store.SaveUpload | backend/main.go:500-574 | the blob is created first; a failed copy leaves it and answers 500; a failed INSERT answers 500 and removes the blob unless the removal fails; a successful INSERT puts the row at the next id, commits and emails each follower in the audience once, never the uploader |
| Handlers.Store.PublishTrack | backend/main.go:516-571 | the new row takes the next id; the notices appended go to exactly the follower audience, once each, all about the new track |
| Handlers.Store.FollowerNotices | backend/main.go:527-571 | the follower loop emails every user in the audience exactly once and no one else; with no self-follows the uploader is never emailed |
| Handlers.Store.ToggleLike | backend/main.go:723-813 | unverified callers get Forbidden; OK exactly when none of begin, lookup, write and commit fails; on failure nothing changes; on OK the like is flipped, `is_liked` is the new state, `likes_count` is the count after commit, and only a new like notifies the owner |
| Handlers.Store.ToggleFollow | backend/main.go:817-843 | following oneself is BadRequest, an unverified caller Forbidden, a failed lookup 500 with nothing changed; otherwise OK with `is_following` the flipped state, and the follow flipped unless the write failed |
| Handlers.Store.PostComment | backend/main.go:864-938 | a rejected comment answers its status; a failed INSERT 500; otherwise the comment is stored at the next id with the caller's name, and the owner unit runs |
| Handlers.Store.DeleteComment | backend/main.go:942-959 | OK exactly when the lookup succeeds and the comment exists and is the caller's, and then only that comment is gone; a missing or foreign comment is Forbidden and changes nothing |
| Handlers.Store.DeleteTrack | backend/main.go:962-1017 | NotFound for a missing track, Forbidden for a foreign one; OK exactly when the caller owns it and no database call fails; on OK the cascade is committed before the blob removal is attempted, and a failed removal still answers OK; on failure nothing changes |
| Handlers.Store.TrackTransaction | backend/main.go:985-1006 | either the likes, comments and row of the track are all deleted and committed, or the tables are as before |
| Handlers.Store.CaptureFilenames | backend/main.go:1032-1044 | the row loop collects exactly the blob names of the user's tracks whose rows it reads |
| Handlers.Store.RemoveBlobs | backend/main.go:1087-1092 | one removal attempt per captured name, in order; every name removes its blob unless its removal fails, and a failure does not stop the loop; the tables do not change |
| Handlers.Store.ExecPurgeStep | backend/main.go:1046-1079 | one DELETE statement of the account deletion changes the tables exactly as that statement does |
| Handlers.Store.RunDeletes | backend/main.go:1046-1079 | the seven DELETEs all run exactly when none fails, and then the tables are the purged ones |
| Handlers.Store.PurgeTransaction | backend/main.go:1024-1084 | either the filenames are captured, the purge is committed and the captured names are exactly those of the user's tracks whose rows were read, or the tables are as before |
| Handlers.Store.DeleteAccount | backend/main.go:1020-1095 | OK exactly when no database call fails; on failure nothing changes; on OK the tables are purged, the commit comes before every blob removal attempt, and the blobs of the rows read are gone except those whose removal failed, while the blobs of rows not read stay; consistency is kept |
| Handlers.Store.UpdateProfile | backend/main.go:582-636 | a rejected request answers its status and changes nothing; otherwise the trimmed name is applied as `Renamed` states; names on tracks stay unique when they were |
| Handlers.Store.Rename | backend/main.go:604-635 | a failed query is 500; a name on another user's track is Conflict; a provider failure is 500 with nothing changed; a failed UPDATE is 500 after the provider already took the name; otherwise the provider and the caller's tracks carry the name |
| Handlers.Store.UpdateTrackNames | backend/main.go:628-633 | the caller's tracks carry the new name, consistency is kept and names stay unique when they were |
| Handlers.Store.SetPreference | backend/main.go:657-678 | an unbindable body is BadRequest, a failed upsert 500 with nothing changed; otherwise the caller's preference is the one requested, so `shouldNotify` answers it for the caller and is unchanged for everyone else |

## Left out

- HTTP routing, CORS, the static file server, start-up and the Firebase
  token middleware: a handler receives the verified token as a `Caller`.
- The read-only handlers (track listings with their filters, ordering and
  limits, comment listing, favourites, follow status, settings lookup):
  only the derived `likes_count` and `is_liked` they report are modelled.
- Parsing a numeric id out of the path (`strconv.Atoi`, answering 400) and
  the 20 MiB request body cap: ids arrive as integers, bodies as values.
- SMTP and the email text: a notice records the recipient and the event.
- Failures inside a notification unit (the follower query, the track
  lookup, the identity provider client, a `shouldNotify` read error, which
  the program treats as "allowed") are not modelled; the units are assumed
  to succeed.
- `Handlers.Store`: requests run one at a time; interleavings of
  concurrent requests, which `net/http` allows, are not modelled. Two of
  them reach answers the model does not: two follow toggles on a missing
  edge both reading "absent" (there is no transaction, and the failed
  second INSERT is ignored, so both answer `is_following: true`), and two
  track deletions that both pass the ownership lookup, which runs before
  the transaction begins, so both answer OK.
- Goroutine scheduling: a notification unit runs right after its write,
  so it sees the tables as they are then.
- Content sniffing: `http.DetectContentType` is the `sniffedDangerous`
  flag of the file part.
- Opening `.env`, the `bufio.Scanner` line splitting and a missing file:
  `LoadEnv` receives the lines.
- `Text.TrimSpace`: removes ASCII white space only, not the other Unicode
  white space `strings.TrimSpace` also removes.
- `Text.ToLower`: folds ASCII letters only.
- `Handlers.Store.ToggleLike`: the count query after the commit is assumed
  to succeed; the program ignores its error and would then report 0.
- `Handlers.Store.ToggleFollow`: a failed write is modelled as taking no
  effect; which part of a failed statement took effect is not modelled.
- A failed statement inside a transaction is modelled as failing before it
  takes effect; the rollback makes the difference invisible anyway.
- The `created_at` and `updated_at` timestamps and the SQL schema text.
- Legacy rows with a NULL uploader name.
