/** The checks a request must pass before a handler writes anything: the
    upload form (backend/main.go, the upload handler), a comment's content
    and a new display name. Every length is Go's `len`, a byte count. */
module Validation {
  import opened Wrappers
  import opened Text
  import opened Schema

  const MAX_TITLE := 100
  const MAX_ARTIST := 100
  const MAX_LYRICS := 10000
  const MAX_FILE_SIZE := 15 * 1024 * 1024
  const MAX_COMMENT := 500
  const MAX_DISPLAY_NAME := 30

  /** ".mp3" */
  const MP3: Bytes := [DOT, 109, 112, 51]

  /** The uploaded file part: its client-side name, its size in bytes, and
      whether content sniffing of its first 512 bytes reports a text,
      JavaScript, JSON or XML type. */
  datatype FilePart = FilePart(name: Bytes, size: int, sniffedDangerous: bool)

  /** The multipart form of an upload; `file` is None when the form has no
      readable file part. */
  datatype UploadForm = UploadForm(title: Bytes, artist: Bytes, lyrics: Bytes, file: Option<FilePart>)

  /** The token carries a non-empty name claim. */
  predicate HasDisplayName(caller: Caller) {
    caller.name.Some? && caller.name.value != []
  }

  /** strings.ToLower(filepath.Ext(name)) == ".mp3" */
  predicate HasMp3Extension(name: Bytes) {
    ToLower(Ext(name)) == MP3
  }

  /** The name ends in a dot, an `m` or `M`, a `p` or `P`, and a `3`. */
  predicate EndsWithMp3(name: Bytes) {
    var n := |name|;
    n >= 4 && name[n - 4] == DOT && LowerByte(name[n - 3]) == 109
    && LowerByte(name[n - 2]) == 112 && name[n - 1] == 51
  }

  /** The extension test accepts exactly the names ending in ".mp3" in any
      letter case: whatever comes before (other dots, directories) does
      not matter. */
  lemma Mp3ExtensionIff(name: Bytes)
    ensures HasMp3Extension(name) <==> EndsWithMp3(name)
  {
    var e := Ext(name);
    var n := |name|;
    if HasMp3Extension(name) {
      var low := ToLower(e);
      assert |e| == 4;
      assert low[1] == LowerByte(e[1]) && low[2] == LowerByte(e[2]) && low[3] == LowerByte(e[3]);
      assert e[3] == 51;
      assert name[n - 4..] == e;
    }
    if EndsWithMp3(name) {
      assert name[n - 4] == DOT && SLASH !in name[n - 4..];
      assert e != [];
      assert e == name[n - 4..];
      assert ToLower(e) == MP3;
    }
  }

  /** The checks of the upload handler that run before the file is opened,
      in the handler's order: email verification and a display name
      (Forbidden), then title, artist, lyrics, file part, size and
      extension (BadRequest). */
  function UploadRejection(caller: Caller, form: UploadForm): (r: Option<Status>)
    ensures r.None? <==>
              && caller.emailVerified && HasDisplayName(caller)
              && 0 < |form.title| <= MAX_TITLE && |form.artist| <= MAX_ARTIST
              && |form.lyrics| <= MAX_LYRICS && form.file.Some?
              && form.file.value.size <= MAX_FILE_SIZE && HasMp3Extension(form.file.value.name)
    ensures r == Some(Forbidden) <==> !caller.emailVerified || !HasDisplayName(caller)
    ensures r.Some? ==> r.value == Forbidden || r.value == BadRequest
  {
    if !caller.emailVerified then Some(Forbidden)
    else if !HasDisplayName(caller) then Some(Forbidden)
    else if form.title == [] then Some(BadRequest)
    else if |form.title| > MAX_TITLE then Some(BadRequest)
    else if |form.artist| > MAX_ARTIST then Some(BadRequest)
    else if |form.lyrics| > MAX_LYRICS then Some(BadRequest)
    else if form.file.None? then Some(BadRequest)
    else if form.file.value.size > MAX_FILE_SIZE then Some(BadRequest)
    else if !HasMp3Extension(form.file.value.name) then Some(BadRequest)
    else None
  }

  /** An upload that passes the form checks and whose content is not
      sniffed as a dangerous type. */
  predicate AdmissibleUpload(caller: Caller, form: UploadForm) {
    UploadRejection(caller, form).None? && !form.file.value.sniffedDangerous
  }

  /** The checks of the comment handler, in its order: email verification
      and a display name (Forbidden), a body that binds and content of 1 to
      500 bytes (BadRequest). */
  function CommentRejection(caller: Caller, content: Option<Bytes>): (r: Option<Status>)
    ensures r.None? <==>
              caller.emailVerified && HasDisplayName(caller)
              && content.Some? && 0 < |content.value| <= MAX_COMMENT
    ensures r == Some(Forbidden) <==> !caller.emailVerified || !HasDisplayName(caller)
    ensures r.Some? ==> r.value == Forbidden || r.value == BadRequest
  {
    if !caller.emailVerified then Some(Forbidden)
    else if !HasDisplayName(caller) then Some(Forbidden)
    else if content.None? then Some(BadRequest)
    else if |content.value| == 0 || |content.value| > MAX_COMMENT then Some(BadRequest)
    else None
  }

  /** The checks of the profile handler before any lookup, in its order:
      a body that binds (BadRequest), email verification (Forbidden), then
      a trimmed name of 1 to 30 bytes (BadRequest). */
  function ProfileRejection(caller: Caller, requested: Option<Bytes>): (r: Option<Status>)
    ensures r.None? <==>
              requested.Some? && caller.emailVerified
              && 0 < |TrimSpace(requested.value)| <= MAX_DISPLAY_NAME
    ensures r == Some(Forbidden) <==> requested.Some? && !caller.emailVerified
    ensures r.Some? ==> r.value == Forbidden || r.value == BadRequest
  {
    if requested.None? then Some(BadRequest)
    else if !caller.emailVerified then Some(Forbidden)
    else
      var name := TrimSpace(requested.value);
      if name == [] then Some(BadRequest)
      else if |name| > MAX_DISPLAY_NAME then Some(BadRequest)
      else None
  }
}
