/** The knowledge-base admin page: a form that posts a new entry, a list
    of the stored entries with a delete button each, and a refresh after
    every successful change. Network outcomes and the browser's
    confirmation dialog are inputs; the requests the page sends are kept
    in a log so that the model can say what was sent, and in which order. */
module KnowledgeAdmin {
  import opened Wrappers

  datatype KnowledgeEntry = KnowledgeEntry(id: string, title: string, kind: string, addedBy: string, createdAt: string)

  /** The JSON body of the POST; `sourceUrl` None stands for JSON null. */
  datatype PostBody = PostBody(title: string, content: string, kind: string, sourceUrl: Option<string>)

  datatype Request = GetList | PostEntry(body: PostBody) | DeleteEntry(path: string)

  /** How a list fetch ends: the entries, or any failure (a response that
      is not ok, or something thrown); the page logs a failure and goes on. */
  datatype ListResult = Loaded(entries: seq<KnowledgeEntry>) | LoadFailed

  const KnowledgeEndpoint := "/api/knowledge"
  const YouTube := "youtube"

  /** The body sent for the form's current fields: the title, content and
      type as entered, and the URL only for a YouTube entry. */
  function RequestBody(title: string, content: string, kind: string, sourceUrl: string): (b: PostBody)
    ensures b.title == title && b.content == content && b.kind == kind
    ensures b.sourceUrl.Some? <==> kind == YouTube
    ensures b.sourceUrl.Some? ==> b.sourceUrl.value == sourceUrl
  {
    PostBody(title, content, kind, if kind == YouTube then Some(sourceUrl) else None)
  }

  /** The address a delete goes to. */
  function DeletePath(id: string): (p: string)
    ensures |p| == |KnowledgeEndpoint| + 1 + |id|
    ensures p[..|KnowledgeEndpoint| + 1] == KnowledgeEndpoint + "/"
    ensures p[|KnowledgeEndpoint| + 1..] == id
  {
    KnowledgeEndpoint + "/" + id
  }

  /** Every request the page can send: a POST carries a URL only for a
      YouTube entry, and a DELETE goes below the knowledge endpoint. */
  predicate WellFormed(r: Request)
  {
    match r
    case GetList => true
    case PostEntry(body) => body.sourceUrl.Some? ==> body.kind == YouTube
    case DeleteEntry(path) =>
      |path| >= |KnowledgeEndpoint| + 1 && path[..|KnowledgeEndpoint| + 1] == KnowledgeEndpoint + "/"
  }

  /** The part of the form below the type selector: the YouTube URL and a
      transcript box, a file picker for documents, or the content box. */
  datatype FormSection = YouTubeFields | DocumentUpload | ContentField

  function SectionFor(kind: string): (s: FormSection)
    ensures s == YouTubeFields <==> kind == YouTube
    ensures s == DocumentUpload <==> kind == "document"
    ensures s == ContentField <==> kind != YouTube && kind != "document"
  {
    if kind == YouTube then YouTubeFields
    else if kind == "document" then DocumentUpload
    else ContentField
  }

  /** One card of the list: the title, "Type: " and the type, and who
      added the entry (its date is formatted by the browser's locale). */
  datatype EntryCard = EntryCard(id: string, title: string, typeLine: string, addedBy: string)

  function CardOf(e: KnowledgeEntry): (c: EntryCard)
    ensures c.id == e.id && c.title == e.title && c.addedBy == e.addedBy
    ensures |c.typeLine| == 6 + |e.kind| && c.typeLine[..6] == "Type: " && c.typeLine[6..] == e.kind
  {
    EntryCard(e.id, e.title, "Type: " + e.kind, e.addedBy)
  }

  datatype PageView = PageView(buttonLabel: string, buttonDisabled: bool, section: FormSection, cards: seq<EntryCard>)

  class KnowledgeAdminPage {
    var entries: seq<KnowledgeEntry>
    var title: string
    var content: string
    var kind: string
    var sourceUrl: string
    var isUploading: bool
    /** The requests sent so far, oldest first. */
    var requests: seq<Request>

    ghost predicate Valid()
      reads this
    {
      forall i :: 0 <= i < |requests| ==> WellFormed(requests[i])
    }

    constructor ()
      ensures Valid()
      ensures entries == [] && title == "" && content == "" && kind == "" && sourceUrl == ""
      ensures !isUploading && requests == []
    {
      entries := [];
      title := "";
      content := "";
      kind := "";
      sourceUrl := "";
      isUploading := false;
      requests := [];
    }

    /** The form's change handlers. */
    method SetTitle(value: string)
      modifies this
      ensures title == value
      ensures content == old(content) && kind == old(kind) && sourceUrl == old(sourceUrl)
      ensures entries == old(entries) && isUploading == old(isUploading) && requests == old(requests)
    {
      title := value;
    }

    method SetContent(value: string)
      modifies this
      ensures content == value
      ensures title == old(title) && kind == old(kind) && sourceUrl == old(sourceUrl)
      ensures entries == old(entries) && isUploading == old(isUploading) && requests == old(requests)
    {
      content := value;
    }

    method SetKind(value: string)
      modifies this
      ensures kind == value
      ensures title == old(title) && content == old(content) && sourceUrl == old(sourceUrl)
      ensures entries == old(entries) && isUploading == old(isUploading) && requests == old(requests)
    {
      kind := value;
    }

    method SetSourceUrl(value: string)
      modifies this
      ensures sourceUrl == value
      ensures title == old(title) && content == old(content) && kind == old(kind)
      ensures entries == old(entries) && isUploading == old(isUploading) && requests == old(requests)
    {
      sourceUrl := value;
    }

    /** `fetchKnowledge`: one GET; the list is replaced on success and kept
        on any failure. */
    method FetchKnowledge(result: ListResult)
      requires Valid()
      modifies this
      ensures Valid()
      ensures requests == old(requests) + [GetList]
      ensures result.Loaded? ==> entries == result.entries
      ensures result.LoadFailed? ==> entries == old(entries)
      ensures title == old(title) && content == old(content) && kind == old(kind) && sourceUrl == old(sourceUrl)
      ensures isUploading == old(isUploading)
    {
      requests := requests + [GetList];
      if result.Loaded? {
        entries := result.entries;
      }
    }

    /** `handleSubmit` up to its first await: uploading starts and the
        body built from the current fields is posted. */
    method BeginSubmit()
      requires Valid()
      modifies this
      ensures Valid()
      ensures isUploading
      ensures requests == old(requests) + [PostEntry(RequestBody(title, content, kind, sourceUrl))]
      ensures title == old(title) && content == old(content) && kind == old(kind) && sourceUrl == old(sourceUrl)
      ensures entries == old(entries)
    {
      isUploading := true;
      requests := requests + [PostEntry(RequestBody(title, content, kind, sourceUrl))];
    }

    /** `handleSubmit` after the POST: when it succeeded, the list is
        fetched again and then the form is cleared (a failed refresh does
        not stop the clearing); when it failed, nothing but the uploading
        flag changes. Uploading ends either way. */
    method FinishSubmit(postOk: bool, refresh: ListResult)
      requires Valid()
      modifies this
      ensures Valid()
      ensures !isUploading
      ensures postOk ==>
        && requests == old(requests) + [GetList]
        && entries == (if refresh.Loaded? then refresh.entries else old(entries))
        && title == "" && content == "" && kind == "" && sourceUrl == ""
      ensures !postOk ==>
        && requests == old(requests) && entries == old(entries)
        && title == old(title) && content == old(content) && kind == old(kind) && sourceUrl == old(sourceUrl)
    {
      if postOk {
        FetchKnowledge(refresh);
        title := "";
        content := "";
        kind := "";
        sourceUrl := "";
      }
      isUploading := false;
    }

    /** The whole submit handler. */
    method HandleSubmit(postOk: bool, refresh: ListResult)
      requires Valid()
      modifies this
      ensures Valid()
      ensures !isUploading
      ensures requests == old(requests) + [PostEntry(RequestBody(old(title), old(content), old(kind), old(sourceUrl)))]
                          + (if postOk then [GetList] else [])
      ensures postOk ==>
        && entries == (if refresh.Loaded? then refresh.entries else old(entries))
        && title == "" && content == "" && kind == "" && sourceUrl == ""
      ensures !postOk ==>
        && entries == old(entries)
        && title == old(title) && content == old(content) && kind == old(kind) && sourceUrl == old(sourceUrl)
    {
      BeginSubmit();
      FinishSubmit(postOk, refresh);
    }

    /** `handleDelete`: nothing happens unless the user confirms; then the
        entry's address is sent a DELETE, and the list is fetched again
        only when the delete succeeded. */
    method HandleDelete(id: string, confirmed: bool, deleteOk: bool, refresh: ListResult)
      requires Valid()
      modifies this
      ensures Valid()
      ensures !confirmed ==> requests == old(requests) && entries == old(entries)
      ensures confirmed ==>
        requests == old(requests) + [DeleteEntry(DeletePath(id))] + (if deleteOk then [GetList] else [])
      ensures confirmed && deleteOk && refresh.Loaded? ==> entries == refresh.entries
      ensures !(confirmed && deleteOk && refresh.Loaded?) ==> entries == old(entries)
      ensures title == old(title) && content == old(content) && kind == old(kind) && sourceUrl == old(sourceUrl)
      ensures isUploading == old(isUploading)
    {
      if confirmed {
        var path := DeletePath(id);
        requests := requests + [DeleteEntry(path)];
        if deleteOk {
          FetchKnowledge(refresh);
        }
      }
    }

    /** The rendered page: the submit button reads "Processing..." and is
        disabled while uploading; the form section follows the chosen
        type; the list has one card per entry, in order. */
    function View(): (v: PageView)
      reads this
      ensures v.buttonDisabled == isUploading
      ensures v.buttonLabel == (if isUploading then "Processing..." else "Add to Knowledge Base")
      ensures v.section == SectionFor(kind)
      ensures |v.cards| == |entries|
      ensures forall i :: 0 <= i < |entries| ==> v.cards[i] == CardOf(entries[i])
    {
      var es := entries;
      PageView(
        if isUploading then "Processing..." else "Add to Knowledge Base",
        isUploading,
        SectionFor(kind),
        seq(|es|, i requires 0 <= i < |es| => CardOf(es[i])))
    }
  }

  /** A URL typed for a YouTube entry is not sent once the type is changed
      to text; and content typed before switching to "document", whose
      section has no content box, is still posted. */
  method SwitchingTypeBeforeSubmit(url: string, typed: string) returns (page: KnowledgeAdminPage)
    ensures page.Valid()
    ensures page.requests == [PostEntry(PostBody("", "", "text", None)),
                              PostEntry(PostBody("", typed, "document", None))]
    ensures page.View().section == DocumentUpload
  {
    page := new KnowledgeAdminPage();
    page.SetKind(YouTube);
    page.SetSourceUrl(url);
    page.SetKind("text");
    page.HandleSubmit(false, LoadFailed);
    page.SetContent(typed);
    page.SetKind("document");
    page.HandleSubmit(false, LoadFailed);
  }
}
