/** The chat endpoint (`POST /api/chat`): an authentication gate, the
    knowledge context built from every stored entry, a fixed system prompt
    around that context, and the message list handed to the language model.
    Authentication, the request body, the knowledge store and the model are
    outside; their outcomes are inputs, and the calls the handler makes are
    recorded so that what it does NOT call can be stated. */
module ChatRoute {
  import opened Wrappers
  import opened Strings
  import opened JsonValue

  /** One knowledge row as the store query selects it: title, content and
      type. The type is selected but never used. */
  datatype KnowledgeRow = KnowledgeRow(title: string, content: string, kind: string)

  /** A chat message, as the client sends it and as the model receives it. */
  datatype Message = Message(role: string, content: string)

  /** The request body as far as the handler looks at it. */
  datatype Body =
    | Unreadable                            // reading it as JSON fails, or it is null
    | Read(messages: Option<seq<Message>>)  // None: `messages` is missing or not an array

  /** The outside services the handler calls, in the order it calls them. */
  datatype Call =
    | ReadBody
    | FindKnowledge
    | StreamText(model: string, messages: seq<Message>)

  datatype Response =
    | Plain(status: nat, text: string)
    | DataStream(model: string, messages: seq<Message>)

  /** What one request produces: the response and the calls made on the way. */
  datatype Handled = Handled(response: Response, calls: seq<Call>)

  const Model := "gpt-4o-mini"
  const Unauthorized := Plain(401, "Unauthorized")
  const ServerError := Plain(500, "Internal Server Error")

  /** The system prompt before the knowledge context (the second line holds
      six spaces) and after it (four numbered rules). */
  const PromptHead := "You are an AI Coach for dental practices. Use this knowledge to assist users:\n      \n"
  const PromptTail := "\n\nWhen responding:\n1. Use relevant information from the knowledge base\n2. Suggest specific resources when appropriate\n3. Ask follow-up questions to better understand the user's needs\n4. Maintain a professional but friendly tone"

  const ContextSeparator := "\n\n"

  /** `clerkId` as a JavaScript value: the user id string, or `null`. */
  function ClerkIdValue(userId: Option<string>): Prop
  {
    match userId
    case None => Defined(JNull)
    case Some(id) => Defined(JStr(id))
  }

  /** A caller is let through when the session carries a non-empty user id:
      exactly when `!clerkId` is false. */
  function Authenticated(userId: Option<string>): (b: bool)
    ensures b <==> Truthy(ClerkIdValue(userId))
    ensures b ==> userId.Some?
  {
    userId.Some? && userId.value != ""
  }

  /** One entry of the context: `title: content`. It is the title, then
      `": "`, then the content, and nothing else. */
  function Stanza(row: KnowledgeRow): (r: string)
    ensures |r| == |row.title| + 2 + |row.content|
    ensures r[..|row.title|] == row.title
    ensures r[|row.title|..|row.title| + 2] == ": "
    ensures r[|row.title| + 2..] == row.content
  {
    Middle(row.title, ": ", row.content);
    row.title + ": " + row.content
  }

  function Stanzas(rows: seq<KnowledgeRow>): (r: seq<string>)
    ensures |r| == |rows|
    ensures forall i :: 0 <= i < |rows| ==> r[i] == Stanza(rows[i])
  {
    seq(|rows|, i requires 0 <= i < |rows| => Stanza(rows[i]))
  }

  /** The knowledge context: every row's stanza, in the order the store
      returned them, separated by a blank line. It is empty exactly when the
      store is, and a single row gives its stanza alone. */
  function KnowledgeContext(rows: seq<KnowledgeRow>): (r: string)
    ensures r == "" <==> |rows| == 0
    ensures |rows| == 1 ==> r == Stanza(rows[0])
  {
    Join(Stanzas(rows), ContextSeparator)
  }

  /** The system prompt: the fixed head, the context verbatim, the fixed tail. */
  function SystemContent(context: string): (r: string)
    ensures |r| == |PromptHead| + |context| + |PromptTail|
    ensures r[..|PromptHead|] == PromptHead
    ensures r[|PromptHead|..|PromptHead| + |context|] == context
    ensures r[|PromptHead| + |context|..] == PromptTail
  {
    PromptHead + context + PromptTail
  }

  function SystemMessage(context: string): Message
  {
    Message("system", SystemContent(context))
  }

  /** What the model receives: the system message, then the client's
      messages unchanged and in order. */
  function ModelMessages(rows: seq<KnowledgeRow>, messages: seq<Message>): (r: seq<Message>)
    ensures |r| == 1 + |messages|
    ensures r[0] == SystemMessage(KnowledgeContext(rows))
    ensures r[1..] == messages
  {
    [SystemMessage(KnowledgeContext(rows))] + messages
  }

  /** The handler. `store` is the outcome of the knowledge query (None: it
      threw). A failure between the gate and the return of the stream is
      caught and answered with 500. */
  function Post(userId: Option<string>, body: Body, store: Option<seq<KnowledgeRow>>): (h: Handled)
    ensures !Authenticated(userId) ==> h == Handled(Unauthorized, [])
    ensures Authenticated(userId) && body.Unreadable? ==> h == Handled(ServerError, [ReadBody])
    ensures Authenticated(userId) && body.Read? ==> |h.calls| >= 2 && h.calls[..2] == [ReadBody, FindKnowledge]
    ensures Authenticated(userId) && body.Read? && h.response == ServerError ==> h.calls == [ReadBody, FindKnowledge]
    ensures h.response.DataStream? <==>
      Authenticated(userId) && body.Read? && body.messages.Some? && store.Some?
    ensures h.response.DataStream? ==>
      && h.response == DataStream(Model, ModelMessages(store.value, body.messages.value))
      && h.calls == [ReadBody, FindKnowledge, StreamText(Model, h.response.messages)]
    ensures h.response.Plain? ==> h.response in {Unauthorized, ServerError}
  {
    if !Authenticated(userId) then Handled(Unauthorized, [])
    else match body
      case Unreadable => Handled(ServerError, [ReadBody])
      case Read(messages) =>
        match store
        case None => Handled(ServerError, [ReadBody, FindKnowledge])
        case Some(rows) =>
          match messages
          case None => Handled(ServerError, [ReadBody, FindKnowledge])
          case Some(ms) =>
            var input := ModelMessages(rows, ms);
            Handled(DataStream(Model, input), [ReadBody, FindKnowledge, StreamText(Model, input)])
  }

  // ---------------------------------------------------------------------------
  // properties of the context

  /** The length the context has for a non-empty store: each stanza is its
      title, `": "` and its content. */
  function RowsLength(rows: seq<KnowledgeRow>): nat
  {
    if |rows| == 0 then 0 else |rows[0].title| + 2 + |rows[0].content| + RowsLength(rows[1..])
  }

  lemma {:induction false} StanzasLength(rows: seq<KnowledgeRow>)
    ensures TotalLength(Stanzas(rows)) == RowsLength(rows)
  {
    if |rows| > 0 {
      StanzasLength(rows[1..]);
      assert Stanzas(rows)[1..] == Stanzas(rows[1..]);
    }
  }

  /** With n >= 1 rows the context holds every title and content and
      nothing else but the `": "` after each title and the 2(n - 1)
      separator characters. */
  lemma ContextLength(rows: seq<KnowledgeRow>)
    requires |rows| >= 1
    ensures |KnowledgeContext(rows)| == RowsLength(rows) + 2 * (|rows| - 1)
  {
    JoinLength(Stanzas(rows), ContextSeparator);
    StanzasLength(rows);
  }

  /** Where row `i`'s stanza starts in the context. */
  function StanzaStart(rows: seq<KnowledgeRow>, i: nat): nat
    requires i <= |rows|
  {
    Offset(Stanzas(rows), ContextSeparator, i)
  }

  /** Every row the store returned contributes, in store order: its title,
      `": "` and its content stand verbatim at its offset, followed by the
      blank-line separator and the next row unless it is the last row. */
  lemma ContextHoldsRow(rows: seq<KnowledgeRow>, i: nat)
    requires i < |rows|
    ensures var ctx, o, t := KnowledgeContext(rows), StanzaStart(rows, i), |rows[i].title|;
      && o + |Stanza(rows[i])| <= |ctx|
      && OccursAt(ctx, rows[i].title, o)
      && OccursAt(ctx, ": ", o + t)
      && OccursAt(ctx, rows[i].content, o + t + 2)
      && (i + 1 < |rows| ==>
            && StanzaStart(rows, i + 1) == o + |Stanza(rows[i])| + 2
            && OccursAt(ctx, ContextSeparator, o + |Stanza(rows[i])|))
  {
    StanzaInContext(rows, i);
    var ctx, o, s := KnowledgeContext(rows), StanzaStart(rows, i), Stanza(rows[i]);
    StanzaParts(rows[i]);
    OccursWithin(ctx, s, o, rows[i].title, 0);
    OccursWithin(ctx, s, o, ": ", |rows[i].title|);
    OccursWithin(ctx, s, o, rows[i].content, |rows[i].title| + 2);
  }

  /** Row `i`'s stanza stands at its offset in the context, followed by
      the separator unless it is the last. */
  lemma StanzaInContext(rows: seq<KnowledgeRow>, i: nat)
    requires i < |rows|
    ensures OccursAt(KnowledgeContext(rows), Stanza(rows[i]), StanzaStart(rows, i))
    ensures i + 1 < |rows| ==>
      && StanzaStart(rows, i + 1) == StanzaStart(rows, i) + |Stanza(rows[i])| + 2
      && OccursAt(KnowledgeContext(rows), ContextSeparator, StanzaStart(rows, i) + |Stanza(rows[i])|)
  {
    JoinAt(Stanzas(rows), ContextSeparator, i);
  }

  /** A stanza is the title, `": "` and the content, in that order. */
  lemma StanzaParts(row: KnowledgeRow)
    ensures OccursAt(Stanza(row), row.title, 0)
    ensures OccursAt(Stanza(row), ": ", |row.title|)
    ensures OccursAt(Stanza(row), row.content, |row.title| + 2)
  {
  }

  /** The `type` column plays no part: rows that agree on title and content
      give the same context. */
  lemma ContextIgnoresKind(rows: seq<KnowledgeRow>, rows': seq<KnowledgeRow>)
    requires |rows| == |rows'|
    requires forall i :: 0 <= i < |rows| ==> rows[i].title == rows'[i].title && rows[i].content == rows'[i].content
    ensures KnowledgeContext(rows) == KnowledgeContext(rows')
  {
    assert Stanzas(rows) == Stanzas(rows');
  }

  /** The system prompt contains the whole context verbatim, hence every
      row's title and content. */
  lemma PromptHoldsRow(rows: seq<KnowledgeRow>, i: nat)
    requires i < |rows|
    ensures Contains(SystemContent(KnowledgeContext(rows)), rows[i].title)
    ensures Contains(SystemContent(KnowledgeContext(rows)), rows[i].content)
  {
    ContextHoldsRow(rows, i);
    var ctx := KnowledgeContext(rows);
    var o, t := StanzaStart(rows, i), |rows[i].title|;
    OccursInside(PromptHead, ctx, PromptTail, rows[i].title, o);
    OccursInside(PromptHead, ctx, PromptTail, rows[i].content, o + t + 2);
    ContainsIff(SystemContent(ctx), rows[i].title);
    ContainsIff(SystemContent(ctx), rows[i].content);
  }

  /** A single entry titled "Insurance Basics": the prompt names it and
      holds its content. */
  lemma InsuranceBasicsInPrompt(content: string)
    ensures var rows := [KnowledgeRow("Insurance Basics", content, "text")];
      && Contains(SystemContent(KnowledgeContext(rows)), "Insurance Basics")
      && Contains(SystemContent(KnowledgeContext(rows)), content)
  {
    PromptHoldsRow([KnowledgeRow("Insurance Basics", content, "text")], 0);
  }

  /** With an empty store the handler still answers, and the system prompt
      is the head and the tail with nothing between. */
  lemma EmptyStoreStillStreams(userId: Option<string>, messages: seq<Message>)
    requires Authenticated(userId)
    ensures Post(userId, Read(Some(messages)), Some([])).response
      == DataStream(Model, [Message("system", PromptHead + PromptTail)] + messages)
  {
    assert KnowledgeContext([]) == "";
  }
}
