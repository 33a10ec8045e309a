/** The swing-analysis list page (components/SwingAnalysisClient.tsx): the
    list of analyses, the selected one, and the create form, updated by the
    create, delete, video-upload and notes handlers. The server calls the
    handlers await are inputs: what create returned, whether delete
    succeeded, and the clock reading for `updated_at`. */
module SwingAnalysisClient {
  import opened Common
  import opened Text
  import opened Sequences

  datatype SwingAnalysis = SwingAnalysis(
    id: string,
    userId: string,
    name: string,
    proVideoUrl: Option<string>,
    personalVideoUrl: Option<string>,
    proPlayerName: Option<string>,
    notes: Option<string>,
    createdAt: string,
    updatedAt: string)

  datatype VideoField = ProVideoUrl | PersonalVideoUrl

  /** `{ ...a, [field]: url }`. */
  function WithVideo(a: SwingAnalysis, field: VideoField, url: string): (b: SwingAnalysis)
    ensures field == ProVideoUrl ==> b == a.(proVideoUrl := Some(url))
    ensures field == PersonalVideoUrl ==> b == a.(personalVideoUrl := Some(url))
  {
    match field
    case ProVideoUrl => a.(proVideoUrl := Some(url))
    case PersonalVideoUrl => a.(personalVideoUrl := Some(url))
  }

  /** `b` is `a` with at most the video field and `updated_at` changed. */
  predicate SameButVideo(a: SwingAnalysis, b: SwingAnalysis, field: VideoField)
  {
    && b.id == a.id && b.userId == a.userId && b.name == a.name
    && b.proPlayerName == a.proPlayerName && b.notes == a.notes && b.createdAt == a.createdAt
    && (field == PersonalVideoUrl ==> b.proVideoUrl == a.proVideoUrl)
    && (field == ProVideoUrl ==> b.personalVideoUrl == a.personalVideoUrl)
  }

  predicate OtherId(id: string, a: SwingAnalysis)
  {
    a.id != id
  }

  /** `analyses.filter(a => a.id !== id)`: every analysis with that id goes,
      the others stay in order. */
  function WithoutId(analyses: seq<SwingAnalysis>, id: string): (r: seq<SwingAnalysis>)
    ensures forall i :: 0 <= i < |r| ==> r[i].id != id
    ensures forall a :: multiset(r)[a] == if a.id != id then multiset(analyses)[a] else 0
  {
    Filter(analyses, a => OtherId(id, a))
  }

  /** Deleting an id that no analysis has leaves the list as it is. */
  lemma DeleteUnknownIdKeepsList(analyses: seq<SwingAnalysis>, id: string)
    requires forall i :: 0 <= i < |analyses| ==> analyses[i].id != id
    ensures WithoutId(analyses, id) == analyses
  {
    FilterKeepsAll(analyses, a => OtherId(id, a));
  }

  /** The list after a video upload: the entries with the id get the URL and
      a new `updated_at`, and nothing else changes. */
  function WithUploadedVideo(analyses: seq<SwingAnalysis>, id: string, field: VideoField, url: string, now: string): (r: seq<SwingAnalysis>)
    ensures |r| == |analyses|
    ensures forall i :: 0 <= i < |r| && analyses[i].id != id ==> r[i] == analyses[i]
    ensures forall i :: 0 <= i < |r| && analyses[i].id == id ==>
      SameButVideo(analyses[i], r[i], field) && r[i].updatedAt == now &&
      (if field == ProVideoUrl then r[i].proVideoUrl else r[i].personalVideoUrl) == Some(url)
  {
    seq(|analyses|, i requires 0 <= i < |analyses| =>
      if analyses[i].id == id then WithVideo(analyses[i], field, url).(updatedAt := now) else analyses[i])
  }

  /** The list after a notes update: only the entries with the id get the
      notes, and nothing else of them changes. */
  function WithNotes(analyses: seq<SwingAnalysis>, id: string, notes: string): (r: seq<SwingAnalysis>)
    ensures |r| == |analyses|
    ensures forall i :: 0 <= i < |r| && analyses[i].id != id ==> r[i] == analyses[i]
    ensures forall i :: 0 <= i < |r| && analyses[i].id == id ==> r[i] == analyses[i].(notes := Some(notes))
  {
    seq(|analyses|, i requires 0 <= i < |analyses| =>
      if analyses[i].id == id then analyses[i].(notes := Some(notes)) else analyses[i])
  }

  /** What `handleCreate` sends: nothing for a blank name, else the trimmed
      name and the trimmed pro name, left out when blank. */
  datatype CreateRequest = CreateRequest(name: string, proPlayerName: Option<string>)

  function RequestOf(newName: string, newProName: string): (r: Option<CreateRequest>)
    ensures r.None? <==> Trim(newName) == ""
    ensures r.Some? ==> r.value.name == Trim(newName) && r.value.name != ""
    ensures r.Some? ==> (r.value.proPlayerName.None? <==> Trim(newProName) == "")
    ensures r.Some? && r.value.proPlayerName.Some? ==> r.value.proPlayerName.value == Trim(newProName)
  {
    if Trim(newName) == "" then None
    else Some(CreateRequest(Trim(newName), if Trim(newProName) == "" then None else Some(Trim(newProName))))
  }

  /** What the create call gave back: the new analysis, or nothing (a null
      result or a failure). */
  datatype CreateOutcome = Created(analysis: SwingAnalysis) | NotCreated

  class AnalysisBoard {
    var analyses: seq<SwingAnalysis>
    var selected: Option<SwingAnalysis>
    var showCreateForm: bool
    var newName: string
    var newProName: string

    constructor(initialAnalyses: seq<SwingAnalysis>)
      ensures analyses == initialAnalyses && selected == None
      ensures !showCreateForm && newName == "" && newProName == ""
    {
      analyses := initialAnalyses;
      selected := None;
      showCreateForm := false;
      newName := "";
      newProName := "";
    }

    /** `handleCreate`: with a blank name nothing is sent and nothing
      changes; a created analysis goes to the front of the list, the form is
      cleared and closed, and the new analysis is selected. */
    method HandleCreate(outcome: CreateOutcome) returns (request: Option<CreateRequest>)
      modifies this
      ensures request == RequestOf(old(newName), old(newProName))
      ensures request.Some? && outcome.Created? ==>
        && analyses == [outcome.analysis] + old(analyses)
        && newName == "" && newProName == "" && !showCreateForm
        && selected == Some(outcome.analysis)
      ensures request.None? || outcome.NotCreated? ==>
        && analyses == old(analyses) && selected == old(selected) && showCreateForm == old(showCreateForm)
        && newName == old(newName) && newProName == old(newProName)
    {
      request := RequestOf(newName, newProName);
      if request.None? {
        return;
      }
      if outcome.Created? {
        ShowCreated(outcome.analysis);
      }
    }

    /** The state updates after a successful create: the analysis goes to
      the front of the list, the form is cleared and closed, and the analysis
      is selected. */
    method ShowCreated(analysis: SwingAnalysis)
      modifies this
      ensures analyses == [analysis] + old(analyses) && selected == Some(analysis)
      ensures newName == "" && newProName == "" && !showCreateForm
    {
      analyses := [analysis] + analyses;
      newName := "";
      newProName := "";
      showCreateForm := false;
      selected := Some(analysis);
    }

    /** `handleDelete`: after a successful delete, every analysis with the id
      is gone and the selection is cleared if it had that id; after a failed
      one nothing changes. */
    method HandleDelete(id: string, deleted: bool)
      modifies this
      ensures deleted ==> analyses == WithoutId(old(analyses), id)
      ensures deleted && old(selected).Some? && old(selected).value.id == id ==> selected == None
      ensures !(deleted && old(selected).Some? && old(selected).value.id == id) ==> selected == old(selected)
      ensures !deleted ==> analyses == old(analyses)
      ensures showCreateForm == old(showCreateForm) && newName == old(newName) && newProName == old(newProName)
    {
      if !deleted {
        return;
      }
      analyses := WithoutId(analyses, id);
      if selected.Some? && selected.value.id == id {
        selected := None;
      }
    }

    /** `handleVideoUploaded`: the list entries with the id get the URL and a
      new `updated_at`; the selection gets the URL, but not the new
      `updated_at`, only when it has the id. */
    method HandleVideoUploaded(id: string, field: VideoField, url: string, now: string)
      modifies this
      ensures analyses == WithUploadedVideo(old(analyses), id, field, url, now)
      ensures old(selected).Some? && old(selected).value.id == id ==>
        selected == Some(WithVideo(old(selected).value, field, url))
      ensures !(old(selected).Some? && old(selected).value.id == id) ==> selected == old(selected)
      ensures showCreateForm == old(showCreateForm) && newName == old(newName) && newProName == old(newProName)
    {
      analyses := WithUploadedVideo(analyses, id, field, url, now);
      if selected.Some? && selected.value.id == id {
        selected := Some(WithVideo(selected.value, field, url));
      }
    }

    /** `onNotesUpdated`, offered while an analysis is selected: the notes go
      to the selected analysis and to the list entries with its id. */
    method OnNotesUpdated(notes: string)
      requires selected.Some?
      modifies this
      ensures analyses == WithNotes(old(analyses), old(selected).value.id, notes)
      ensures selected == Some(old(selected).value.(notes := Some(notes)))
      ensures showCreateForm == old(showCreateForm) && newName == old(newName) && newProName == old(newProName)
    {
      analyses := WithNotes(analyses, selected.value.id, notes);
      selected := Some(selected.value.(notes := Some(notes)));
    }
  }
}
