/** The guard chain of the video upload endpoint
    (app/api/upload-video/route.ts) and the storage path it writes to. The
    signed-in user's id and the parsed form are inputs; the storage call is
    not modelled, only the path it is given. */
module UploadVideo {
  import opened Common
  import opened Text

  datatype VideoFile = VideoFile(name: string, mimeType: string, size: nat)

  /** The form fields; `kind` is the form's `type` field. */
  datatype UploadForm = UploadForm(file: Option<VideoFile>, analysisId: Option<string>, kind: Option<string>)

  /** An error response with its status, or the path the file is stored at. */
  datatype UploadResponse = Failed(status: nat, error: string) | Stored(path: string)

  const ValidTypes: seq<string> := ["video/mp4", "video/quicktime", "video/webm", "video/avi", "video/mov"]

  /** 50 MB. */
  const MaxBytes: nat := 50 * 1024 * 1024

  /** The extensions the file-name pattern accepts, dot included. */
  const VideoExtensions: set<string> := {".mp4", ".mov", ".webm", ".avi"}

  /** The name ends in `.mp4`, `.mov`, `.webm` or `.avi`, in any letter case. */
  predicate HasVideoExtension(name: string)
    ensures HasVideoExtension(name) <==> exists ext :: ext in VideoExtensions && EndsWith(Lower(name), ext)
  {
    var lower := Lower(name);
    EndsWith(lower, ".mp4") || EndsWith(lower, ".mov") || EndsWith(lower, ".webm") || EndsWith(lower, ".avi")
  }

  /** The type check: a listed MIME type or a video file name. */
  predicate IsVideo(f: VideoFile)
    ensures IsVideo(f) <==>
      f.mimeType in ValidTypes || exists ext :: ext in VideoExtensions && EndsWith(Lower(f.name), ext)
  {
    f.mimeType in ValidTypes || HasVideoExtension(f.name)
  }

  /** `swing-videos/<user>/<analysis>/<type>-<file name>`. */
  function BlobPath(userId: string, analysisId: string, kind: string, fileName: string): (path: string)
    ensures |path| == 13 + |userId| + 1 + |analysisId| + 1 + |kind| + 1 + |fileName|
  {
    "swing-videos/" + userId + "/" + analysisId + "/" + kind + "-" + fileName
  }

  predicate FieldsPresent(form: UploadForm)
  {
    form.file.Some? && Truthy(form.analysisId) && Truthy(form.kind)
  }

  /** `POST`: 401 without a user, then 400 for a missing field, for a file
      that is not a video, and for a file over 50 MB, the first failing check
      deciding; otherwise the file is stored at its blob path. Any `type`
      value is accepted. */
  function Post(userId: Option<string>, form: UploadForm): (r: UploadResponse)
    ensures userId.None? <==> r == Failed(401, "Unauthorized")
    ensures userId.Some? && !FieldsPresent(form) ==>
      r == Failed(400, "File, analysisId, and type are required")
    ensures userId.Some? && FieldsPresent(form) && !IsVideo(form.file.value) ==>
      r == Failed(400, "Please upload a video file (MP4, MOV, WebM, or AVI)")
    ensures userId.Some? && FieldsPresent(form) && IsVideo(form.file.value) && form.file.value.size > MaxBytes ==>
      r == Failed(400, "Video must be under 50MB")
    ensures r.Stored? <==>
      userId.Some? && FieldsPresent(form) && IsVideo(form.file.value) && form.file.value.size <= MaxBytes
    ensures r.Stored? ==>
      r.path == BlobPath(userId.value, form.analysisId.value, form.kind.value, form.file.value.name)
  {
    if userId.None? then Failed(401, "Unauthorized")
    else if !FieldsPresent(form) then Failed(400, "File, analysisId, and type are required")
    else if !IsVideo(form.file.value) then Failed(400, "Please upload a video file (MP4, MOV, WebM, or AVI)")
    else if form.file.value.size > MaxBytes then Failed(400, "Video must be under 50MB")
    else Stored(BlobPath(userId.value, form.analysisId.value, form.kind.value, form.file.value.name))
  }

  /** The extension check ignores letter case: an upper-cased name passes
      exactly when the name does. */
  lemma ExtensionIgnoresCase(name: string)
    ensures HasVideoExtension(Upper(name)) <==> HasVideoExtension(name)
  {
    assert Lower(Upper(name)) == Lower(name);
  }

  /** When no part contains a slash, the path splits back into the folder,
      the user, the analysis and the stored file name, so distinct users or
      analyses never share a path. */
  lemma BlobPathSplits(userId: string, analysisId: string, kind: string, fileName: string)
    requires '/' !in userId && '/' !in analysisId && '/' !in kind && '/' !in fileName
    ensures Split(BlobPath(userId, analysisId, kind, fileName), '/') ==
      ["swing-videos", userId, analysisId, kind + "-" + fileName]
  {
    var words := ["swing-videos", userId, analysisId, kind + "-" + fileName];
    assert '/' !in kind + "-" + fileName by {
      assert forall k :: 0 <= k < |kind + "-" + fileName| ==> (kind + "-" + fileName)[k] != '/';
    }
    assert Join(words[3..], '/') == kind + "-" + fileName;
    assert Join(words[2..], '/') == analysisId + "/" + (kind + "-" + fileName);
    assert Join(words[1..], '/') == userId + "/" + (analysisId + "/" + (kind + "-" + fileName));
    assert Join(words, '/') == "swing-videos" + "/" + (userId + "/" + (analysisId + "/" + (kind + "-" + fileName)));
    assert Join(words, '/') == BlobPath(userId, analysisId, kind, fileName);
    SplitJoin(words, '/');
  }
}
