/** The voice-receptionist conversation browser: fetch the conversation
    list, keep the successful ones, open one conversation's details in a
    dialog. The two fetches are network calls; their outcomes are inputs.
    Each handler awaits once, so it is modelled as the part before the
    await and the part after it; the handler runs one then the other. */
module ConversationData {
  import opened Wrappers
  import opened Strings
  import opened JsonValue
  import opened Sequences

  datatype ConversationSummary = ConversationSummary(
    conversationId: string,
    startTimeUnixSecs: int,
    callDurationSecs: int,
    status: string,
    callSuccessful: string,
    messageCount: int)

  datatype TranscriptEntry = TranscriptEntry(role: string, message: Option<string>, timeInCallSecs: int)

  /** The call analysis. The collected data is declared as a record
      (`Record<string, any>`): an object, truthy even when empty. */
  datatype Analysis = Analysis(transcriptSummary: Option<string>, dataCollectionResults: Option<map<string, Json>>)

  datatype ConversationDetails = ConversationDetails(transcript: seq<TranscriptEntry>, analysis: Option<Analysis>)

  /** How a fetch ends: with the data, with a response that is not ok
      (its HTTP status), or with something thrown on the way (an Error
      carrying its message, or None for any other thrown value). */
  datatype Fetch<T> = Fetched(data: T) | NotOk(status: nat) | Threw(message: Option<string>)

  const Successful := "success"
  const ApiErrorPrefix := "API Error: "

  /** The text the page keeps for a failed fetch. */
  function ErrorText<T>(outcome: Fetch<T>): (e: string)
    requires !outcome.Fetched?
    ensures outcome.NotOk? ==>
      && |e| > |ApiErrorPrefix| && e[..|ApiErrorPrefix|] == ApiErrorPrefix
      && (forall k :: |ApiErrorPrefix| <= k < |e| ==> IsDigit(e[k]))
      && DecimalValue(e[|ApiErrorPrefix|..]) == outcome.status
    ensures outcome.Threw? && outcome.message.Some? ==> e == outcome.message.value
    ensures outcome == Threw(None) ==> e == "An error occurred"
  {
    match outcome
    case NotOk(status) =>
      NatToStringRoundTrip(status);
      ApiErrorPrefix + NatToString(status)
    case Threw(message) => message.GetOr("An error occurred")
  }

  /** The successful conversations, in the order the service listed them. */
  function SuccessfulOnly(conversations: seq<ConversationSummary>): (r: seq<ConversationSummary>)
    ensures forall c :: c in r ==> c.callSuccessful == Successful
  {
    if |conversations| == 0 then []
    else
      var rest := SuccessfulOnly(conversations[1..]);
      if conversations[0].callSuccessful == Successful then [conversations[0]] + rest else rest
  }

  /** A conversation is kept exactly when its outcome is "success". */
  lemma {:induction false} SuccessfulOnlyMembers(conversations: seq<ConversationSummary>)
    ensures forall c :: c in SuccessfulOnly(conversations) <==>
      c in conversations && c.callSuccessful == Successful
  {
    if |conversations| > 0 {
      SuccessfulOnlyMembers(conversations[1..]);
      assert forall c :: c in conversations <==> c == conversations[0] || c in conversations[1..];
    }
  }

  /** The kept conversations stay in the order the service listed them. */
  lemma {:induction false} SuccessfulOnlyKeepsOrder(conversations: seq<ConversationSummary>)
    ensures IsSubsequence(SuccessfulOnly(conversations), conversations)
  {
    if |conversations| > 0 {
      SuccessfulOnlyKeepsOrder(conversations[1..]);
      var r := SuccessfulOnly(conversations);
      if conversations[0].callSuccessful == Successful {
        assert r[1..] == SuccessfulOnly(conversations[1..]);
      }
    }
  }

  /** Every successful conversation is kept as often as it is listed, and
      no other conversation is kept at all. */
  lemma {:induction false} SuccessfulOnlyCounts(conversations: seq<ConversationSummary>)
    ensures forall c :: multiset(SuccessfulOnly(conversations))[c] ==
                        (if c.callSuccessful == Successful then multiset(conversations)[c] else 0)
  {
    if |conversations| > 0 {
      SuccessfulOnlyCounts(conversations[1..]);
      assert conversations == [conversations[0]] + conversations[1..];
      assert multiset(conversations) == multiset([conversations[0]]) + multiset(conversations[1..]);
      var rest := SuccessfulOnly(conversations[1..]);
      if conversations[0].callSuccessful == Successful {
        assert multiset([conversations[0]] + rest) == multiset([conversations[0]]) + multiset(rest);
      }
    }
  }

  /** Filtering again changes nothing. */
  lemma {:induction false} SuccessfulOnlyIdempotent(conversations: seq<ConversationSummary>)
    ensures SuccessfulOnly(SuccessfulOnly(conversations)) == SuccessfulOnly(conversations)
  {
    if |conversations| > 0 {
      SuccessfulOnlyIdempotent(conversations[1..]);
      var rest := SuccessfulOnly(conversations[1..]);
      if conversations[0].callSuccessful == Successful {
        assert ([conversations[0]] + rest)[1..] == rest;
      }
    }
  }

  // ---------------------------------------------------------------------------
  // display rules

  /** One row of the list. */
  datatype ListRow = ListRow(conversationId: string, durationSecs: int, messageCount: int, startMillis: int)

  /** One transcript line: the role, whether it gets the agent styling,
      the text shown and the time in the call. */
  datatype TranscriptLine = TranscriptLine(role: string, agentStyle: bool, text: string, timeInCallSecs: int)

  datatype DetailsView = DetailsView(summary: Option<string>, dataCollection: Option<map<string, Json>>, transcript: seq<TranscriptLine>)

  /** A row shows the id, duration and message count as given, and the
      start time as a date built from milliseconds. */
  function RowOf(c: ConversationSummary): (r: ListRow)
    ensures r.startMillis == 1000 * c.startTimeUnixSecs
    ensures r.conversationId == c.conversationId
  {
    ListRow(c.conversationId, c.callDurationSecs, c.messageCount, c.startTimeUnixSecs * 1000)
  }

  /** `entry.message || "No message"`; only the role "agent" gets the
      agent styling. */
  function LineOf(e: TranscriptEntry): (l: TranscriptLine)
    ensures l.text == "No message" <==> e.message.None? || e.message.value in {"", "No message"}
    ensures l.text != "No message" ==> e.message == Some(l.text)
    ensures l.agentStyle <==> e.role == "agent"
  {
    TranscriptLine(e.role, e.role == "agent",
      if e.message.None? || e.message.value == "" then "No message" else e.message.value,
      e.timeInCallSecs)
  }

  /** The dialog body: the summary appears only when present and not empty,
      the collected data whenever it is present (an object is truthy), and
      the transcript shows one line per entry, in order. */
  function DetailsViewOf(d: ConversationDetails): (v: DetailsView)
    ensures v.summary.Some? <==> d.analysis.Some? && d.analysis.value.transcriptSummary.Some?
                                 && d.analysis.value.transcriptSummary.value != ""
    ensures v.summary.Some? ==> v.summary == d.analysis.value.transcriptSummary
    ensures v.dataCollection.Some? <==> d.analysis.Some? && d.analysis.value.dataCollectionResults.Some?
    ensures v.dataCollection.Some? ==> v.dataCollection == d.analysis.value.dataCollectionResults
    ensures |v.transcript| == |d.transcript|
    ensures forall i :: 0 <= i < |d.transcript| ==> v.transcript[i] == LineOf(d.transcript[i])
  {
    var summary :=
      if d.analysis.Some? && d.analysis.value.transcriptSummary.Some? && d.analysis.value.transcriptSummary.value != ""
      then d.analysis.value.transcriptSummary else None;
    var data :=
      if d.analysis.Some? && d.analysis.value.dataCollectionResults.Some?
         // the `&&` of the page: an object is always truthy
         && Truthy(Defined(JObj(d.analysis.value.dataCollectionResults.value)))
      then d.analysis.value.dataCollectionResults else None;
    DetailsView(summary, data,
      seq(|d.transcript|, i requires 0 <= i < |d.transcript| => LineOf(d.transcript[i])))
  }

  /** What the page shows. */
  datatype PageView = PageView(
    buttonLabel: string,
    buttonDisabled: bool,
    errorBox: Option<string>,
    rows: Option<seq<ListRow>>,
    dialogOpen: bool,
    dialogBody: Option<DetailsView>)

  // ---------------------------------------------------------------------------
  // the page state

  class ConversationPage {
    var successfulConversations: seq<ConversationSummary>
    var selectedConversation: Option<ConversationDetails>
    var isModalOpen: bool
    var error: Option<string>
    var loading: bool

    /** Only successful conversations are listed, and the dialog is open
        only over a fetched conversation. */
    ghost predicate Valid()
      reads this
    {
      && (forall c :: c in successfulConversations ==> c.callSuccessful == Successful)
      && (isModalOpen ==> selectedConversation.Some?)
    }

    constructor ()
      ensures Valid()
      ensures successfulConversations == [] && selectedConversation == None
      ensures !isModalOpen && error == None && !loading
    {
      successfulConversations := [];
      selectedConversation := None;
      isModalOpen := false;
      error := None;
      loading := false;
    }

    /** `fetchSuccessfulConversations` up to its await: the error is
        cleared and the page is loading. */
    method BeginFetchConversations()
      requires Valid()
      modifies this
      ensures Valid()
      ensures error == None && loading
      ensures successfulConversations == old(successfulConversations)
      ensures selectedConversation == old(selectedConversation) && isModalOpen == old(isModalOpen)
    {
      error := None;
      loading := true;
    }

    /** `fetchSuccessfulConversations` after its await: on success the list
        is replaced by the successful conversations, on failure the error
        text is kept and the list is left as it was; loading ends either way. */
    method FinishFetchConversations(outcome: Fetch<seq<ConversationSummary>>)
      requires Valid()
      modifies this
      ensures Valid()
      ensures !loading
      ensures outcome.Fetched? ==>
        successfulConversations == SuccessfulOnly(outcome.data) && error == old(error)
      ensures !outcome.Fetched? ==>
        successfulConversations == old(successfulConversations) && error == Some(ErrorText(outcome))
      ensures selectedConversation == old(selectedConversation) && isModalOpen == old(isModalOpen)
    {
      match outcome {
        case Fetched(conversations) =>
          successfulConversations := SuccessfulOnly(conversations);
        case _ =>
          error := Some(ErrorText(outcome));
      }
      loading := false;
    }

    /** The whole list handler. */
    method FetchSuccessfulConversations(outcome: Fetch<seq<ConversationSummary>>)
      requires Valid()
      modifies this
      ensures Valid()
      ensures !loading
      ensures outcome.Fetched? ==> successfulConversations == SuccessfulOnly(outcome.data) && error == None
      ensures !outcome.Fetched? ==>
        successfulConversations == old(successfulConversations) && error == Some(ErrorText(outcome))
      ensures selectedConversation == old(selectedConversation) && isModalOpen == old(isModalOpen)
    {
      BeginFetchConversations();
      FinishFetchConversations(outcome);
    }

    /** `fetchConversationDetails` up to its await: loading, and an earlier
        error is NOT cleared. */
    method BeginFetchDetails()
      requires Valid()
      modifies this
      ensures Valid()
      ensures loading
      ensures error == old(error) && successfulConversations == old(successfulConversations)
      ensures selectedConversation == old(selectedConversation) && isModalOpen == old(isModalOpen)
    {
      loading := true;
    }

    /** `fetchConversationDetails` after its await: on success the
        conversation is selected and the dialog opens; on failure the error
        text is kept and the selection and the dialog are unchanged. */
    method FinishFetchDetails(outcome: Fetch<ConversationDetails>)
      requires Valid()
      modifies this
      ensures Valid()
      ensures !loading
      ensures successfulConversations == old(successfulConversations)
      ensures outcome.Fetched? ==>
        selectedConversation == Some(outcome.data) && isModalOpen && error == old(error)
      ensures !outcome.Fetched? ==>
        && selectedConversation == old(selectedConversation) && isModalOpen == old(isModalOpen)
        && error == Some(ErrorText(outcome))
    {
      match outcome {
        case Fetched(details) =>
          selectedConversation := Some(details);
          isModalOpen := true;
        case _ =>
          error := Some(ErrorText(outcome));
      }
      loading := false;
    }

    /** The whole details handler (the conversation id only selects the URL). */
    method FetchConversationDetails(outcome: Fetch<ConversationDetails>)
      requires Valid()
      modifies this
      ensures Valid()
      ensures !loading
      ensures successfulConversations == old(successfulConversations)
      ensures outcome.Fetched? ==>
        selectedConversation == Some(outcome.data) && isModalOpen && error == old(error)
      ensures !outcome.Fetched? ==>
        && selectedConversation == old(selectedConversation) && isModalOpen == old(isModalOpen)
        && error == Some(ErrorText(outcome))
    {
      BeginFetchDetails();
      FinishFetchDetails(outcome);
    }

    /** Closing the dialog keeps the selected conversation. */
    method CloseDialog()
      requires Valid()
      modifies this
      ensures Valid()
      ensures !isModalOpen
      ensures selectedConversation == old(selectedConversation) && error == old(error)
      ensures successfulConversations == old(successfulConversations) && loading == old(loading)
    {
      isModalOpen := false;
    }

    /** The rendered page: the button reads "Loading..." and is disabled
        while loading; the error box shows a non-empty error; the list
        shows when it is not empty; the dialog body needs a selection. */
    function View(): (v: PageView)
      reads this
      ensures v.buttonDisabled == loading
      ensures v.buttonLabel == (if loading then "Loading..." else "Fetch Successful Conversations")
      ensures v.errorBox.Some? <==> error.Some? && error.value != ""
      ensures v.errorBox.Some? ==> v.errorBox == error
      ensures v.rows.Some? <==> |successfulConversations| > 0
      ensures v.rows.Some? ==> |v.rows.value| == |successfulConversations|
      ensures v.rows.Some? ==>
        forall i :: 0 <= i < |successfulConversations| ==> v.rows.value[i] == RowOf(successfulConversations[i])
      ensures v.dialogOpen == isModalOpen
      ensures v.dialogBody.Some? <==> selectedConversation.Some?
      ensures v.dialogBody.Some? ==> v.dialogBody.value == DetailsViewOf(selectedConversation.value)
    {
      var convs := successfulConversations;
      PageView(
        if loading then "Loading..." else "Fetch Successful Conversations",
        loading,
        if error.Some? && error.value != "" then error else None,
        if |convs| > 0 then Some(seq(|convs|, i requires 0 <= i < |convs| => RowOf(convs[i]))) else None,
        isModalOpen,
        if selectedConversation.Some? then Some(DetailsViewOf(selectedConversation.value)) else None)
    }
  }

  /** A stale error survives a successful details fetch: after a failed
      list fetch and a successful details fetch the page shows the
      conversation's dialog and, unless the old error text is empty (an
      Error thrown with an empty message), the old error box together. */
  method StaleErrorSurvivesDetails(list: Fetch<seq<ConversationSummary>>, details: ConversationDetails)
    returns (page: ConversationPage)
    requires !list.Fetched?
    ensures page.Valid()
    ensures page.error == Some(ErrorText(list))
    ensures page.isModalOpen && page.selectedConversation == Some(details)
    ensures page.successfulConversations == [] && !page.loading
    ensures ErrorText(list) != "" ==> page.View().errorBox == Some(ErrorText(list))
    ensures ErrorText(list) == "" ==> page.View().errorBox == None
    ensures page.View().dialogOpen && page.View().dialogBody == Some(DetailsViewOf(details))
  {
    page := new ConversationPage();
    page.FetchSuccessfulConversations(list);
    page.FetchConversationDetails(Fetched(details));
  }
}
