# DCC demo app — verified model of its core

DCC is a small Next.js demo web app for dental-practice coaching. This
project models in Dafny the parts of it that compute something:

- **Chat endpoint** (`ChatRoute`, `chat_route.dfy`). `POST /api/chat` checks
  that the caller is signed in. It reads the client's messages and renders
  every stored knowledge entry as `title: content`, joined by a blank line.
  It wraps that context in a fixed system prompt and hands
  `[system message, ...messages]` to the language model `gpt-4o-mini`. A
  failure between the sign-in check and the return of the stream is
  answered with 500.
- **Assistant message rendering** (`AutoCoaching`, `auto_coaching.dfy`).
  `MessageContent` decides what an assistant message shows. It shows either
  the raw text, or four optional blocks in a fixed order: sources, response
  paragraphs, suggested resources, learning check. JavaScript truthiness
  decides which blocks appear, and a field equal to the number 0 shows the
  text "0" in its block's place. A TypeError anywhere inside the `try`
  falls back to the raw text. The page itself is stuck on "Loading...".
- **Coach directory** (`Coaches`, `coaches.dfy`). The nine coaches, the
  case-insensitive search combined with the exact specialty filter, and the
  avatar initials.
- **Conversation browser** (`ConversationData`, `conversation_data.dfy`).
  This page lists a voice receptionist's successful calls and opens one
  call's transcript in a dialog. It is a class whose methods are the two
  fetch handlers, driven by fetch outcomes given as inputs.
- **Knowledge admin page** (`KnowledgeAdmin`, `knowledge_admin.dfy`). The
  POST body rule, and the submit, delete and refresh handlers. It is a class
  over the form fields, the entry list, the uploading flag and a log of the
  requests it sends.

Supporting modules:

- `Strings`: JavaScript's `join`, one-character `split`, `includes`, ASCII
  `toLowerCase` and `${n}`.
- `JsonValue`: parsed JSON values, property reads and truthiness.
- `Wrappers`: `Option`.

The handlers that change state before their first await are split into
the part before it (`Begin…`) and the part after it (`Finish…`):
`fetchSuccessfulConversations`, `fetchConversationDetails` and
`handleSubmit`. The full handler runs one after the other, so the state a
user sees while a request is in flight is part of the model.
`fetchKnowledge` and `handleDelete` change nothing before they await, so
each is a single method.

Three facts about the code shape the model:

- The chat context uses every stored entry. There is no `isActive` filter
  and no ordering, and `sourceUrl` is not included.
- The system prompt does not ask for JSON.
- A reply that is not JSON is shown as the raw text. It is not turned into
  a structured object with only `response` set.

## Model

| member | source | states |
|---|---|---|
| ChatRoute.Authenticated | app/api/chat/route.ts:9-10 | A caller passes the gate exactly when `clerkId` is truthy: a user id that is present and not empty. |
| ChatRoute.Post | app/api/chat/route.ts:7-57 | An unauthenticated caller gets 401 "Unauthorized" and no service is called. An unreadable body gives 500 after reading only the body. Otherwise the body is read and then the store is queried. Any other 500 comes after exactly those two calls, with no model call. The reply is a data stream exactly when the body, its `messages` and the store read all succeed. A stream carries `gpt-4o-mini` and the model messages, after exactly one model call. Every other reply is 401 or 500. |
| ChatRoute.Stanza | app/api/chat/route.ts:26 | A stanza is exactly the title, then ": ", then the content. |
| ChatRoute.Stanzas | app/api/chat/route.ts:25-26 | One `title: content` stanza per stored row, in store order. |
| ChatRoute.SystemContent | app/api/chat/route.ts:30-41 | The system prompt is the fixed head, the context verbatim, then the fixed tail of four rules. Its length is the sum of the three. |
| ChatRoute.ModelMessages | app/api/chat/route.ts:44-49 | The model input has 1 + \|messages\| messages. The first is the system message, and the rest are the client's messages, unchanged and in order. |
| ChatRoute.KnowledgeContext | app/api/chat/route.ts:25-27 | The context is empty exactly when the store is. A single row gives its stanza alone. |
| ChatRoute.StanzasLength | app/api/chat/route.ts:25-26 | The stanzas together are as long as all titles and contents plus 2 per row. |
| ChatRoute.ContextLength | app/api/chat/route.ts:25-27 | For n >= 1 rows, the context length is the sum of (\|title\| + 2 + \|content\|) plus 2(n-1). |
| ChatRoute.StanzaInContext | app/api/chat/route.ts:25-27 | Row i's stanza stands at its offset in the context. Unless it is the last row, "\n\n" follows, and then the next row starts. |
| ChatRoute.ContextHoldsRow | app/api/chat/route.ts:25-27 | Every row's title, ": " and content occur verbatim at its offset. Unless it is the last row, the separator follows, and then the next row starts. |
| ChatRoute.ContextIgnoresKind | app/api/chat/route.ts:16-27 | The selected `type` column plays no part: rows with equal titles and contents give equal contexts. |
| ChatRoute.PromptHoldsRow | app/api/chat/route.ts:25-41 | The system prompt includes every stored row's title and content. |
| ChatRoute.InsuranceBasicsInPrompt | app/api/chat/route.ts:25-41 | A single row titled "Insurance Basics": the prompt includes the title and the content. |
| ChatRoute.EmptyStoreStillStreams | app/api/chat/route.ts:12-52 | With an empty store the handler still streams. The system prompt is then the head followed directly by the tail. |
| JsonValue.Get | app/ai-auto-coaching/page.tsx:36-91 | For the keys the renderer reads, `v.key` on a non-null value is defined exactly for an object having that key, and is that field's value. |
| JsonValue.Truthy | app/ai-auto-coaching/page.tsx:36-82 | Only a defined, non-null value can be truthy. Arrays and objects are truthy even when empty. |
| JsonValue.TruthyIff | app/ai-auto-coaching/page.tsx:36-82 | A value is falsy exactly when it is undefined, null, false, 0 or "", the falsy values of ToBoolean (section 7.1.2 of ECMA-262) that JSON can produce. |
| Strings.Join | app/api/chat/route.ts:27 | Joining no parts gives "". A join starts with its first part. |
| Strings.JoinLength | app/api/chat/route.ts:25-27 | A non-empty join is as long as its parts plus one separator between each pair of neighbours. |
| Strings.JoinAt | app/api/chat/route.ts:25-27 | Each part stands verbatim at its offset. Unless it is the last part, the separator follows, and then the next part starts. |
| Strings.Split | app/ai-auto-coaching/page.tsx:58 | `split` yields at least one piece, and no piece contains the separator. |
| Strings.SplitWithout | app/ai-auto-coaching/page.tsx:58 | A string without the separator splits into itself alone. |
| Strings.SplitCount | app/ai-auto-coaching/page.tsx:58 | There is one more piece than there are separator occurrences. |
| Strings.SplitJoin | app/ai-auto-coaching/page.tsx:58 | Joining the pieces with the separator restores the string. |
| Strings.SplitAt | app/coaches/page.tsx:188 | A word without the separator, then the separator, then a rest splits into the word followed by the rest's pieces. |
| Strings.JoinSplit | app/coaches/page.tsx:188 | Words without the separator, joined with it, split back into the same words. |
| Strings.JoinSingletons | app/coaches/page.tsx:190 | Joining one-character parts with "" gives those characters, in order. |
| Strings.Contains | app/coaches/page.tsx:113-114 | Every string includes "", and no string includes a longer one. |
| Strings.ContainsIff | app/coaches/page.tsx:113-114 | `includes` is true exactly when the needle occurs at some index. |
| Strings.Lower | app/coaches/page.tsx:113-114 | Lowering keeps the length and leaves no ASCII capital. |
| Strings.LowerForgetsCase | app/coaches/page.tsx:113-114 | Lowering is idempotent, and lowering an upper-cased string equals lowering the original. |
| Strings.NatToString | app/ai-receptionist/data/page.tsx:57 | `${status}` is a non-empty string of digits without a leading zero. |
| Strings.NatToStringRoundTrip | app/ai-receptionist/data/page.tsx:57 | Reading the digits back gives the number. |
| AutoCoaching.SourceItems | app/ai-auto-coaching/page.tsx:42-48 | The sources map succeeds exactly when no element is null. It yields one item per element, in order, holding that element's title, type and relevance. |
| AutoCoaching.SourcesPart | app/ai-auto-coaching/page.tsx:36-51 | The number 0 gives the text "0". Any other falsy field gives nothing. A truthy, usable field gives one sources block. Anything else throws. |
| AutoCoaching.ResponsePart | app/ai-auto-coaching/page.tsx:53-64 | The number 0 gives the text "0". Any other falsy field gives nothing. A truthy string gives one response block. Anything else throws. |
| AutoCoaching.SuggestionsPart | app/ai-auto-coaching/page.tsx:66-80 | The number 0 gives the text "0". Any other falsy field gives nothing. A truthy array gives one suggestions block. Anything else throws. |
| AutoCoaching.LearningCheckPart | app/ai-auto-coaching/page.tsx:82-105 | The number 0 gives the text "0". Any other falsy field gives nothing. An object with an `options` array gives one learning-check block. Anything else throws. |
| AutoCoaching.Assemble | app/ai-auto-coaching/page.tsx:34-106 | Four parts of ranks 0..3 concatenate in the fixed order. Each block is shown exactly when its part is non-empty. |
| AutoCoaching.FieldsFit | app/ai-auto-coaching/page.tsx:34-107 | The parts all succeed exactly when every field is usable. They then show something in each block's place exactly when its field is truthy or the number 0. |
| AutoCoaching.Render | app/ai-auto-coaching/page.tsx:30-107 | Rendering a parsed value succeeds exactly when it is not null and every field is usable. The blocks are then in the fixed order, and place k is filled exactly when field k is truthy or the number 0. |
| AutoCoaching.MessageContent | app/ai-auto-coaching/page.tsx:29-111 | A parse failure shows the raw text unchanged. The message is structured exactly when parsing and rendering both succeed. A raw view always holds the original text. |
| AutoCoaching.BlockContents | app/ai-auto-coaching/page.tsx:36-101 | A block is the text "0" exactly when its field is the number 0. Otherwise it lists its field's elements, one per element and in order. The response's paragraph count is its "\n" count + 1, and joining the paragraphs with "\n" restores it. |
| AutoCoaching.ZeroResponseShowsZero | app/ai-auto-coaching/page.tsx:53 | A reply whose `response` is 0 shows only the text "0". |
| AutoCoaching.EmptyFields | app/ai-auto-coaching/page.tsx:36-66 | An empty `response` string shows nothing. Empty `relevantSources`/`suggestedResources` arrays still show their two blocks, with no items. |
| AutoCoaching.ResponseWithSuggestion | app/ai-auto-coaching/page.tsx:53-80 | A reply with only a response and a suggestion shows exactly those two blocks, in that order. |
| AutoCoaching.WrongKindFallsBack | app/ai-auto-coaching/page.tsx:42-110 | These fall back to raw text: a learning check without `options`, string sources, a null source, or a reply parsing to null. |
| AutoCoaching.Welcome | app/ai-auto-coaching/page.tsx:123-129 | The welcome text starts with "Hello " and then the first name, so it is not JSON text. |
| AutoCoaching.WelcomeShowsRaw | app/ai-auto-coaching/page.tsx:123-129 | The welcome message starts with 'H', so it is not JSON text and is shown as raw text. |
| AutoCoaching.Bubbles | app/ai-auto-coaching/page.tsx:165-183 | One bubble per message, in order. A user message shows its text, and any other goes through `MessageContent`. |
| AutoCoaching.AIAutoCoaching | app/ai-auto-coaching/page.tsx:113-136 | The page always shows "Loading...", because `isChecking` is never cleared. |
| Coaches.MatchesSearch | app/coaches/page.tsx:112-114 | A coach matches exactly when the lowered term occurs in the lowered name or specialty. An empty search matches every coach. |
| Coaches.MatchesSpecialty | app/coaches/page.tsx:115 | A coach matches exactly when `selectedSpecialty` is falsy or equals the coach's specialty. |
| Coaches.Filter | app/coaches/page.tsx:111-117 | The filtered list is never longer than the directory. |
| Coaches.FilterMembers | app/coaches/page.tsx:111-117 | A coach is kept exactly when it is listed and matches both the search and the specialty. |
| Coaches.FilterKeepsOrder | app/coaches/page.tsx:111-117 | The result is a subsequence of the list, in the original order. |
| Coaches.FilterCounts | app/coaches/page.tsx:111-117 | Each kept coach appears as often as it is listed, and no other coach appears. |
| Coaches.FilterSameLower | app/coaches/page.tsx:113-114 | Search terms with equal lower-case forms give equal results. |
| Coaches.SearchIgnoresCase | app/coaches/page.tsx:113-114 | Upper- or lower-casing the search term does not change the result. |
| Coaches.NoFilterKeepsAll | app/coaches/page.tsx:113-115 | An empty search and no specialty keep every coach. |
| Coaches.InitialListIsAll | app/coaches/page.tsx:107-117 | On first load all nine coaches are listed. |
| Coaches.UnknownSpecialtyKeepsNone | app/coaches/page.tsx:115 | A selected specialty that no coach has leaves an empty list. |
| Coaches.EmptySearchIsSpecialtyOnly | app/coaches/page.tsx:112-116 | With an empty search, only the specialty test decides. |
| Coaches.FrontOfficeCoaches | app/coaches/page.tsx:14-117 | "Front Office Excellence" with an empty search lists coaches 2, 4, 6, 9. |
| Coaches.AllItemKeepsNone | app/coaches/page.tsx:165-172 | As written, the "All Specialties" item lists no coach at all. |
| Coaches.FilterIntended | app/coaches/page.tsx:111-117 | The corrected filter agrees with the original for every selection other than "all". |
| Coaches.AllItemKeepsAllIntended | app/coaches/page.tsx:165-172 | With the corrected filter, "all" behaves as no selection, and with an empty search it lists the whole directory. |
| Coaches.FirstLetter | app/coaches/page.tsx:189 | A word contributes at most one initial. |
| Coaches.Initials | app/coaches/page.tsx:187-190 | There are at most as many initials as space-separated words. |
| Coaches.InitialsOfWords | app/coaches/page.tsx:187-190 | Space-free words joined by single spaces show one initial per word, in order. When no word is empty, these are the words' first letters. |
| Coaches.ThreeWordInitials | app/coaches/page.tsx:187-190 | A three-word name shows the first letter of each word. |
| Coaches.SarahJohnsonInitials | app/coaches/page.tsx:187-190 | "Dr. Sarah Johnson" shows "DSJ". |
| ConversationData.ErrorText | app/ai-receptionist/data/page.tsx:56-68 | A non-ok response gives "API Error: " followed by digits that read back as the status. A thrown Error gives its message. Anything else gives "An error occurred". |
| ConversationData.SuccessfulOnly | app/ai-receptionist/data/page.tsx:61-63 | Every kept conversation has `call_successful` "success". |
| ConversationData.SuccessfulOnlyKeepsOrder | app/ai-receptionist/data/page.tsx:61-63 | The kept conversations are a subsequence of the list, in its order. |
| ConversationData.SuccessfulOnlyCounts | app/ai-receptionist/data/page.tsx:61-63 | Each successful conversation is kept as often as it is listed, and no other is kept. |
| ConversationData.SuccessfulOnlyMembers | app/ai-receptionist/data/page.tsx:61-63 | A conversation is kept exactly when it is listed and successful. |
| ConversationData.SuccessfulOnlyIdempotent | app/ai-receptionist/data/page.tsx:61-63 | Filtering twice equals filtering once. |
| ConversationData.RowOf | app/ai-receptionist/data/page.tsx:137-140 | A row shows the id, and the start time as `start_time_unix_secs * 1000` milliseconds. |
| ConversationData.LineOf | app/ai-receptionist/data/page.tsx:176-186 | An entry shows "No message" exactly when its message is absent, empty or literally "No message"; otherwise it shows the message. Only role "agent" gets the agent styling. |
| ConversationData.DetailsViewOf | app/ai-receptionist/data/page.tsx:152-190 | The summary shows exactly when present and non-empty. The collected data, an object, shows exactly when present. The transcript has one line per entry, in order. |
| ConversationData.ConversationPage.constructor | app/ai-receptionist/data/page.tsx:35-39 | Empty list, no selection, dialog closed, no error, not loading. |
| ConversationData.ConversationPage.BeginFetchConversations | app/ai-receptionist/data/page.tsx:41-44 | Clears the error and starts loading. Nothing else changes. |
| ConversationData.ConversationPage.FinishFetchConversations | app/ai-receptionist/data/page.tsx:47-71 | On success the list becomes exactly the successful conversations. On failure the list is kept and the error holds the error text. Loading ends either way, and every listed conversation is successful. |
| ConversationData.ConversationPage.FetchSuccessfulConversations | app/ai-receptionist/data/page.tsx:41-72 | The whole handler: success leaves no error and the filtered list; failure keeps the list and records the error. Loading is false afterwards. Selection and dialog are untouched. |
| ConversationData.ConversationPage.BeginFetchDetails | app/ai-receptionist/data/page.tsx:74-76 | Starts loading without clearing an earlier error. |
| ConversationData.ConversationPage.FinishFetchDetails | app/ai-receptionist/data/page.tsx:79-101 | On success the conversation is selected and the dialog opens. On failure selection and dialog are unchanged and the error is set. Loading ends either way. |
| ConversationData.ConversationPage.FetchConversationDetails | app/ai-receptionist/data/page.tsx:74-102 | The whole details handler. The list is untouched, and an earlier error survives a success. |
| ConversationData.ConversationPage.CloseDialog | app/ai-receptionist/data/page.tsx:147 | Closing the dialog keeps the selection and everything else. |
| ConversationData.ConversationPage.View | app/ai-receptionist/data/page.tsx:112-194 | The button reads "Loading..." and is disabled exactly while loading. The error box shows exactly a non-empty error. The list shows exactly when non-empty, one row per conversation. The dialog body follows the selection. |
| ConversationData.StaleErrorSurvivesDetails | app/ai-receptionist/data/page.tsx:41-102 | After a failed list fetch and a successful details fetch, the dialog is open over the fetched conversation and the old error is still set. The old error box is still shown exactly when its text is not empty; an Error thrown with an empty message shows none. |
| KnowledgeAdmin.RequestBody | app/admin/knowledge/page.tsx:47-52 | Title, content and type are sent unchanged. `sourceUrl` is sent exactly when the type is "youtube", and null otherwise. |
| KnowledgeAdmin.DeletePath | app/admin/knowledge/page.tsx:76 | A delete goes to "/api/knowledge/" followed by the id. |
| KnowledgeAdmin.SectionFor | app/admin/knowledge/page.tsx:131-166 | "youtube" shows the URL and transcript fields. "document" shows the file picker. Any other type, including none, shows the content box. |
| KnowledgeAdmin.CardOf | app/admin/knowledge/page.tsx:185-206 | A card shows the entry's title, "Type: " followed by its type, and who added it. |
| KnowledgeAdmin.KnowledgeAdminPage.constructor | app/admin/knowledge/page.tsx:12-17 | No entries, an empty form, not uploading, nothing sent. |
| KnowledgeAdmin.KnowledgeAdminPage.SetTitle | app/admin/knowledge/page.tsx:112 | Sets the title only. |
| KnowledgeAdmin.KnowledgeAdminPage.SetContent | app/admin/knowledge/page.tsx:143 | Sets the content only. |
| KnowledgeAdmin.KnowledgeAdminPage.SetKind | app/admin/knowledge/page.tsx:119 | Sets the type only. |
| KnowledgeAdmin.KnowledgeAdminPage.SetSourceUrl | app/admin/knowledge/page.tsx:136 | Sets the URL only. |
| KnowledgeAdmin.KnowledgeAdminPage.FetchKnowledge | app/admin/knowledge/page.tsx:20-29 | Sends one GET. The list is replaced on success and kept on failure. The form and the uploading flag are untouched. |
| KnowledgeAdmin.KnowledgeAdminPage.BeginSubmit | app/admin/knowledge/page.tsx:37-53 | Uploading starts and the body built from the current fields is posted. |
| KnowledgeAdmin.KnowledgeAdminPage.FinishSubmit | app/admin/knowledge/page.tsx:55-69 | After a successful POST the list is fetched again and the form is cleared, even when that fetch fails. After a failed POST nothing is sent and nothing but the uploading flag changes. Uploading ends either way. |
| KnowledgeAdmin.KnowledgeAdminPage.HandleSubmit | app/admin/knowledge/page.tsx:37-70 | The whole submit: the POST of the old fields, then a GET exactly when the POST succeeded. The form is cleared exactly in that case. Uploading is false afterwards. |
| KnowledgeAdmin.KnowledgeAdminPage.HandleDelete | app/admin/knowledge/page.tsx:73-87 | Without confirmation nothing is sent and nothing changes. With it, a DELETE goes to the entry's address, then a GET follows exactly when the delete succeeded. The list changes only when that GET succeeds. |
| KnowledgeAdmin.KnowledgeAdminPage.View | app/admin/knowledge/page.tsx:168-207 | The button reads "Processing..." and is disabled exactly while uploading. The form section follows the type. There is one card per entry, in order. |
| KnowledgeAdmin.SwitchingTypeBeforeSubmit | app/admin/knowledge/page.tsx:47-52 | A URL typed under "youtube" is not sent after switching to "text". Content typed before switching to "document" is still posted, although that section has no content box. |

The two classes also keep an invariant, `Valid()`, through every method:

- On the conversation page, only successful conversations are listed, and
  the dialog is open only over a fetched conversation.
- On the knowledge page, every POST in the request log carries a URL only
  for a YouTube entry, and every DELETE goes below `/api/knowledge/`.

## Left out

- `JSON.parse` is not modelled: its outcome is an input to
  `MessageContent`. The only claim made about parsing is a necessary
  condition for JSON text, used for the welcome message.
- The following are not modelled:
  - Clerk's `auth()`/`useUser`. The user id and the sign-in state are
    inputs.
  - Prisma and the language model (`streamText`, `toDataStreamResponse`).
    Store results are inputs, and the model call is recorded in the call
    log.
  - The ElevenLabs API and `window.confirm`. Their outcomes are inputs.
- ChatRoute.Post: an error raised while the stream is produced happens
  after the handler has returned, so the `catch` cannot answer it with 500.
  It is not modelled.
- ChatRoute.Post: a `messages` field that is a string would be spread into
  single characters, and an object that is not iterable throws (500). The
  model only takes an array or "not an array" (500).
- AutoCoaching.MessageContent: a source's title, type or relevance, a
  suggestion, the learning check's question or an option that is itself an
  object is shown in the model as that value. React refuses to render an
  object child, and that error is raised outside the `try`, so it does not
  fall back to raw text.
- AutoCoaching.Render: a number too large for a double (such as `1e400`)
  parses to Infinity, which a `real` cannot hold. It is truthy like any
  other non-zero number, and such a value is not modelled.
- AutoCoaching.WelcomeShowsRaw: the first name is the text the template
  renders. A missing user renders as "undefined"; the model does not derive
  that.
- JsonValue.Get: built-in properties are not modelled. These are
  `length` and the index keys of arrays and strings, and what is inherited
  from a prototype (such as `constructor`). For those keys the model says
  `undefined`, where JavaScript gives a value. None of the keys the pages
  read is such a property.
- These are not modelled:
  - dates rendered with `toLocaleString`/`toLocaleDateString`;
  - `JSON.stringify` of the collected call data;
  - the file picker, which only logs the chosen files;
  - URLs, request headers and environment variables;
  - all markup and styling.
- Coach ratings are floating-point numbers and are omitted. Case mapping is
  ASCII-only, not Unicode.
- Coaches.FirstLetter: `n[0]` takes a UTF-16 code unit, but a Dafny `char`
  is a whole Unicode character. For a word that starts outside the Basic
  Multilingual Plane, the page shows half a surrogate pair and the model
  shows the whole character.
- ConversationData: a list response without `conversations` makes `.filter`
  throw. It reaches the model as a thrown Error with its runtime message.
  The fields of fetched data are taken as the declared types.
- KnowledgeAdmin: the entry list fetched from the server is taken to be an
  array of entries. The POST and DELETE responses are only checked for
  `ok`.
- KnowledgeAdmin: the initial fetch in `useEffect` is a `FetchKnowledge`
  call right after the constructor. It is not a separate member.
- Handlers that interleave are not modelled. Each handler's awaits are
  modelled as Begin/Finish steps, but React's batching of state updates and
  stale closures are not.
- The server routes under `app/api/knowledge` are not part of this model.
  They create entries with `addedBy` "demo-admin" and `isActive` true, list
  them newest first, and delete by id. Also not part of this model:
  - the voice-session page;
  - the dashboard;
  - the admin overview and resources pages;
  - the home page;
  - the coach profile page;
  - the database diagnostic scripts.

## Findings

| source | as written | input that shows it | evidently intended | confidence | as-written member | corrected member |
|---|---|---|---|---|---|---|
| app/coaches/page.tsx:115-170 | The "All Specialties" item has the value "all". The filter keeps a coach only when no specialty is selected (empty) or the specialty equals the selection. | Pick "All Specialties" with any search: no coach has specialty "all", so the list is empty. | "All Specialties" lists the coaches of every specialty, like the initial empty selection. | not executed | Coaches.AllItemKeepsNone | Coaches.AllItemKeepsAllIntended |
