/** The AI coaching page: how an assistant message is displayed
    (`MessageContent`) and the page's loading gate (`AIAutoCoaching`).

    `JSON.parse(content)` is an input: `None` when it throws, otherwise the
    value it produced. Every property read and `.map`/`.split` call of the
    renderer happens inside one `try`; a TypeError anywhere makes the whole
    message fall back to the raw text. */
module AutoCoaching {
  import opened Wrappers
  import opened Strings
  import opened JsonValue

  /** One listed source: its `title`, `type` and `relevance` as read. */
  datatype SourceItem = SourceItem(title: Prop, kind: Prop, relevance: Prop)

  /** The four blocks, each with the values it lists, and the text "0"
      printed in the place of block `rank` when its field is the number 0. */
  datatype Block =
    | SourcesBlock(sources: seq<SourceItem>)
    | ResponseBlock(paragraphs: seq<string>)
    | SuggestionsBlock(resources: seq<Json>)
    | LearningCheckBlock(question: Prop, options: seq<Json>)
    | ZeroText(rank: nat)

  /** What a message shows: the raw text, or the blocks of a parsed reply. */
  datatype View = Raw(text: string) | Structured(blocks: seq<Block>)

  /** The fields the renderer reads, in the order it shows their blocks. */
  const Fields := ["relevantSources", "response", "suggestedResources", "learningCheck"]

  /** The position of a block's kind in the fixed order. */
  function Rank(b: Block): nat
  {
    match b
    case SourcesBlock(_) => 0
    case ResponseBlock(_) => 1
    case SuggestionsBlock(_) => 2
    case LearningCheckBlock(_, _) => 3
    case ZeroText(k) => k
  }

  predicate InFixedOrder(blocks: seq<Block>)
  {
    forall a, b :: 0 <= a < b < |blocks| ==> Rank(blocks[a]) < Rank(blocks[b])
  }

  predicate Shows(blocks: seq<Block>, k: nat)
  {
    exists i :: 0 <= i < |blocks| && Rank(blocks[i]) == k
  }

  /** `{field && (…)}` evaluates to the field itself when it is falsy.
      React prints nothing for `undefined`, `null`, `false` and "", but
      prints a number: a field equal to 0 (or -0) shows the text "0". */
  predicate PrintsZero(p: Prop)
  {
    p == Defined(JNum(0.0))
  }

  /** Field `k` holds something the renderer can use without throwing: a
      falsy value, or a truthy value of the kind its block needs. */
  predicate Usable(k: nat, p: Prop)
    requires k < 4
  {
    !Truthy(p) ||
    match k
    case 0 => p.value.JArr? && forall i :: 0 <= i < |p.value.items| ==> !ThrowsOnRead(p.value.items[i])
    case 1 => p.value.JStr?
    case 2 => p.value.JArr?
    case _ => p.value.JObj? && "options" in p.value.fields && p.value.fields["options"].JArr?
  }

  // ---------------------------------------------------------------------------
  // the renderer

  function SourceItemOf(v: Json): SourceItem
    requires !ThrowsOnRead(v)
  {
    SourceItem(Get(v, "title"), Get(v, "type"), Get(v, "relevance"))
  }

  /** `relevantSources.map(...)`: one item per element, in order; reading a
      field of a `null` element throws. */
  function SourceItems(items: seq<Json>): (r: Option<seq<SourceItem>>)
    ensures r.Some? <==> forall i :: 0 <= i < |items| ==> !ThrowsOnRead(items[i])
    ensures r.Some? ==> |r.value| == |items|
    ensures r.Some? ==> forall i :: 0 <= i < |items| ==> r.value[i] == SourceItemOf(items[i])
  {
    if |items| == 0 then Some([])
    else if ThrowsOnRead(items[0]) then None
    else match SourceItems(items[1..])
      case None => None
      case Some(rest) => Some([SourceItemOf(items[0])] + rest)
  }

  /** The blocks field `k` contributes: the text "0" when it is the number
      0, nothing when it is otherwise falsy, one block when it is truthy and
      usable, and a TypeError (None) otherwise. */
  predicate PartFits(k: nat, p: Prop, r: Option<seq<Block>>)
    requires k < 4
  {
    && (r.Some? <==> Usable(k, p))
    && (r.Some? ==> |r.value| == (if Truthy(p) || PrintsZero(p) then 1 else 0))
    && (r.Some? ==> forall i :: 0 <= i < |r.value| ==>
          Rank(r.value[i]) == k && (r.value[i].ZeroText? <==> PrintsZero(p)))
  }

  function SourcesPart(p: Prop): (r: Option<seq<Block>>)
    ensures PartFits(0, p, r)
  {
    if PrintsZero(p) then Some([ZeroText(0)])
    else if !Truthy(p) then Some([])
    else match p.value
      case JArr(items) =>
        (match SourceItems(items)
         case None => None
         case Some(sources) => Some([SourcesBlock(sources)]))
      case _ => None
  }

  function ResponsePart(p: Prop): (r: Option<seq<Block>>)
    ensures PartFits(1, p, r)
  {
    if PrintsZero(p) then Some([ZeroText(1)])
    else if !Truthy(p) then Some([])
    else match p.value
      case JStr(s) => Some([ResponseBlock(Split(s, '\n'))])
      case _ => None
  }

  function SuggestionsPart(p: Prop): (r: Option<seq<Block>>)
    ensures PartFits(2, p, r)
  {
    if PrintsZero(p) then Some([ZeroText(2)])
    else if !Truthy(p) then Some([])
    else match p.value
      case JArr(items) => Some([SuggestionsBlock(items)])
      case _ => None
  }

  /** `learningCheck.question` never throws on a truthy value;
      `learningCheck.options.map` throws unless `options` is an array. */
  function LearningCheckPart(p: Prop): (r: Option<seq<Block>>)
    ensures PartFits(3, p, r)
  {
    if PrintsZero(p) then Some([ZeroText(3)])
    else if !Truthy(p) then Some([])
    else match p.value
      case JObj(fields) =>
        if "options" in fields && fields["options"].JArr?
        then Some([LearningCheckBlock(Get(p.value, "question"), fields["options"].items)])
        else None
      case _ => None
  }

  /** Every block ranks below `k`. */
  predicate RanksBelow(blocks: seq<Block>, k: nat)
  {
    forall i :: 0 <= i < |blocks| ==> Rank(blocks[i]) < k
  }

  /** Appending a part of at most one block of rank `k` to blocks that all
      rank lower keeps the fixed order. */
  lemma AppendInOrder(blocks: seq<Block>, x: seq<Block>, k: nat)
    requires InFixedOrder(blocks) && RanksBelow(blocks, k)
    requires |x| <= 1 && forall i :: 0 <= i < |x| ==> Rank(x[i]) == k
    ensures InFixedOrder(blocks + x) && RanksBelow(blocks + x, k + 1)
  {
    var r := blocks + x;
    assert forall i :: 0 <= i < |blocks| ==> r[i] == blocks[i];
    if |x| == 1 {
      assert r[|blocks|] == x[0];
    }
  }

  /** ... and adds exactly the block of rank `k`, if there is one. */
  lemma AppendShows(blocks: seq<Block>, x: seq<Block>, k: nat, j: nat)
    requires |x| <= 1 && forall i :: 0 <= i < |x| ==> Rank(x[i]) == k
    ensures Shows(blocks + x, j) <==> Shows(blocks, j) || (j == k && |x| == 1)
  {
    var r := blocks + x;
    if Shows(r, j) {
      var i :| 0 <= i < |r| && Rank(r[i]) == j;
      if i < |blocks| {
        assert Rank(blocks[i]) == j;
      }
    }
    if Shows(blocks, j) {
      var i :| 0 <= i < |blocks| && Rank(blocks[i]) == j;
      assert r[i] == blocks[i];
    }
    if j == k && |x| == 1 {
      assert r[|blocks|] == x[0];
    }
  }

  /** Which ranks the four concatenated parts show. */
  lemma AssembleShows(s: seq<Block>, p: seq<Block>, g: seq<Block>, c: seq<Block>, j: nat)
    requires |s| <= 1 && |p| <= 1 && |g| <= 1 && |c| <= 1
    requires forall i :: 0 <= i < |s| ==> Rank(s[i]) == 0
    requires forall i :: 0 <= i < |p| ==> Rank(p[i]) == 1
    requires forall i :: 0 <= i < |g| ==> Rank(g[i]) == 2
    requires forall i :: 0 <= i < |c| ==> Rank(c[i]) == 3
    ensures Shows(s + p + g + c, j) <==>
      (j == 0 && |s| == 1) || (j == 1 && |p| == 1) || (j == 2 && |g| == 1) || (j == 3 && |c| == 1)
  {
    var none: seq<Block> := [];
    assert none + s == s;
    assert !Shows(none, j);
    AppendShows(none, s, 0, j);
    AppendShows(s, p, 1, j);
    AppendShows(s + p, g, 2, j);
    AppendShows(s + p + g, c, 3, j);
  }

  /** Four parts of at most one block each, of ranks 0 to 3, concatenate to
      blocks in the fixed order showing exactly the non-empty parts. */
  lemma Assemble(s: seq<Block>, p: seq<Block>, g: seq<Block>, c: seq<Block>)
    requires |s| <= 1 && |p| <= 1 && |g| <= 1 && |c| <= 1
    requires forall i :: 0 <= i < |s| ==> Rank(s[i]) == 0
    requires forall i :: 0 <= i < |p| ==> Rank(p[i]) == 1
    requires forall i :: 0 <= i < |g| ==> Rank(g[i]) == 2
    requires forall i :: 0 <= i < |c| ==> Rank(c[i]) == 3
    ensures InFixedOrder(s + p + g + c)
    ensures Shows(s + p + g + c, 0) <==> |s| == 1
    ensures Shows(s + p + g + c, 1) <==> |p| == 1
    ensures Shows(s + p + g + c, 2) <==> |g| == 1
    ensures Shows(s + p + g + c, 3) <==> |c| == 1
  {
    var none: seq<Block> := [];
    assert none + s == s;
    AppendInOrder(none, s, 0);
    AppendInOrder(s, p, 1);
    AppendInOrder(s + p, g, 2);
    AppendInOrder(s + p + g, c, 3);
    AssembleShows(s, p, g, c, 0);
    AssembleShows(s, p, g, c, 1);
    AssembleShows(s, p, g, c, 2);
    AssembleShows(s, p, g, c, 3);
  }

  /** The four parts of a value that does not throw on property reads
      render together exactly when every field is usable, and then show
      each block exactly when its field is truthy. */
  lemma FieldsFit(v: Json, s: Option<seq<Block>>, p: Option<seq<Block>>, g: Option<seq<Block>>, c: Option<seq<Block>>)
    requires !ThrowsOnRead(v)
    requires PartFits(0, Get(v, Fields[0]), s) && PartFits(1, Get(v, Fields[1]), p)
    requires PartFits(2, Get(v, Fields[2]), g) && PartFits(3, Get(v, Fields[3]), c)
    ensures (s.Some? && p.Some? && g.Some? && c.Some?) <==> forall k :: 0 <= k < 4 ==> Usable(k, Get(v, Fields[k]))
    ensures s.Some? && p.Some? && g.Some? && c.Some? ==>
      && InFixedOrder(s.value + p.value + g.value + c.value)
      && forall k :: 0 <= k < 4 ==>
           (Shows(s.value + p.value + g.value + c.value, k) <==> Truthy(Get(v, Fields[k])) || PrintsZero(Get(v, Fields[k])))
  {
    if s.Some? && p.Some? && g.Some? && c.Some? {
      Assemble(s.value, p.value, g.value, c.value);
      var blocks := s.value + p.value + g.value + c.value;
      forall k | 0 <= k < 4
        ensures Usable(k, Get(v, Fields[k]))
        ensures Shows(blocks, k) <==> Truthy(Get(v, Fields[k])) || PrintsZero(Get(v, Fields[k]))
      {
        if k == 0 {} else if k == 1 {} else if k == 2 {} else {}
      }
    } else if s.None? {
      assert !Usable(0, Get(v, Fields[0]));
    } else if p.None? {
      assert !Usable(1, Get(v, Fields[1]));
    } else if g.None? {
      assert !Usable(2, Get(v, Fields[2]));
    } else {
      assert !Usable(3, Get(v, Fields[3]));
    }
  }

  /** The body of the `try` for a parsed value: None when it throws. Every
      block appears exactly when its field is truthy or the number 0, in the
      fixed order, and the render succeeds exactly when the value is not
      `null` and every field is usable. */
  function Render(v: Json): (r: Option<seq<Block>>)
    ensures r.Some? <==> !ThrowsOnRead(v) && forall k :: 0 <= k < 4 ==> Usable(k, Get(v, Fields[k]))
    ensures r.Some? ==> InFixedOrder(r.value)
    ensures r.Some? ==> forall k :: 0 <= k < 4 ==>
      (Shows(r.value, k) <==> Truthy(Get(v, Fields[k])) || PrintsZero(Get(v, Fields[k])))
  {
    if ThrowsOnRead(v) then None
    else
      var s := SourcesPart(Get(v, Fields[0]));
      var p := ResponsePart(Get(v, Fields[1]));
      var g := SuggestionsPart(Get(v, Fields[2]));
      var c := LearningCheckPart(Get(v, Fields[3]));
      FieldsFit(v, s, p, g, c);
      if s.None? || p.None? || g.None? || c.None? then None
      else Some(s.value + p.value + g.value + c.value)
  }

  /** `MessageContent`: the blocks when the text parses and renders, the raw
      text unchanged otherwise. */
  function MessageContent(content: string, parsed: Option<Json>): (r: View)
    ensures r.Raw? ==> r.text == content
    ensures parsed.None? ==> r == Raw(content)
    ensures r.Structured? <==> parsed.Some? && Render(parsed.value).Some?
    ensures r.Structured? ==> r.blocks == Render(parsed.value).value
  {
    match parsed
    case None => Raw(content)
    case Some(v) =>
      match Render(v)
      case None => Raw(content)
      case Some(blocks) => Structured(blocks)
  }

  // ---------------------------------------------------------------------------
  // what the blocks hold

  /** What block `b` holds of the field value `r` it was made from: the text
      "0" exactly when `r` is the number 0; otherwise the field's elements
      one per element and in array order, or the response split on line
      breaks (one paragraph more than there are line breaks, and joining them
      with "\n" restores the response). */
  predicate Holds(b: Block, r: Prop)
  {
    && r.Defined?
    && (b.ZeroText? <==> r == Defined(JNum(0.0)))
    && (b.SourcesBlock? ==>
          r.value.JArr? && |b.sources| == |r.value.items|
          && (forall j :: 0 <= j < |r.value.items| ==> !ThrowsOnRead(r.value.items[j]))
          && forall j :: 0 <= j < |b.sources| ==> b.sources[j] == SourceItemOf(r.value.items[j]))
    && (b.ResponseBlock? ==>
          r.value.JStr? && r.value.s != ""
          && |b.paragraphs| == multiset(r.value.s)['\n'] + 1
          && Join(b.paragraphs, "\n") == r.value.s)
    && (b.SuggestionsBlock? ==> r == Defined(JArr(b.resources)))
    && (b.LearningCheckBlock? ==>
          r.value.JObj? && b.question == Get(r.value, "question")
          && "options" in r.value.fields && r.value.fields["options"] == JArr(b.options))
  }

  /** Every block of a rendered message holds what its field gave. */
  lemma BlockContents(v: Json, i: nat)
    requires Render(v).Some? && i < |Render(v).value|
    ensures Rank(Render(v).value[i]) < 4
    ensures Holds(Render(v).value[i], Get(v, Fields[Rank(Render(v).value[i])]))
  {
    var s := SourcesPart(Get(v, Fields[0]));
    var p := ResponsePart(Get(v, Fields[1]));
    var g := SuggestionsPart(Get(v, Fields[2]));
    var c := LearningCheckPart(Get(v, Fields[3]));
    assert Render(v).value == s.value + p.value + g.value + c.value;
    Pick(s.value, p.value, g.value, c.value, i);
    var b := Render(v).value[i];
    if Rank(b) == 0 {
      SourcesHolds(Get(v, Fields[0]));
    } else if Rank(b) == 1 {
      ResponseHolds(Get(v, Fields[1]));
    } else if Rank(b) == 2 {
      SuggestionsHolds(Get(v, Fields[2]));
    } else {
      LearningCheckHolds(Get(v, Fields[3]));
    }
  }

  /** Block `i` of four parts of ranks 0 to 3 is the one block of the part
      of its rank. */
  lemma Pick(s: seq<Block>, p: seq<Block>, g: seq<Block>, c: seq<Block>, i: nat)
    requires |s| <= 1 && |p| <= 1 && |g| <= 1 && |c| <= 1
    requires forall i :: 0 <= i < |s| ==> Rank(s[i]) == 0
    requires forall i :: 0 <= i < |p| ==> Rank(p[i]) == 1
    requires forall i :: 0 <= i < |g| ==> Rank(g[i]) == 2
    requires forall i :: 0 <= i < |c| ==> Rank(c[i]) == 3
    requires i < |s + p + g + c|
    ensures Rank((s + p + g + c)[i]) < 4
    ensures Rank((s + p + g + c)[i]) == 0 ==> |s| == 1 && (s + p + g + c)[i] == s[0]
    ensures Rank((s + p + g + c)[i]) == 1 ==> |p| == 1 && (s + p + g + c)[i] == p[0]
    ensures Rank((s + p + g + c)[i]) == 2 ==> |g| == 1 && (s + p + g + c)[i] == g[0]
    ensures Rank((s + p + g + c)[i]) == 3 ==> |c| == 1 && (s + p + g + c)[i] == c[0]
  {
    var all := s + p + g + c;
    if i < |s| {
      assert all[i] == s[i];
    } else if i < |s| + |p| {
      assert all[i] == p[i - |s|];
    } else if i < |s| + |p| + |g| {
      assert all[i] == g[i - |s| - |p|];
    } else {
      assert all[i] == c[i - |s| - |p| - |g|];
    }
  }

  lemma SourcesHolds(f: Prop)
    requires SourcesPart(f).Some? && |SourcesPart(f).value| == 1
    ensures Holds(SourcesPart(f).value[0], f)
  {
  }

  lemma ResponseHolds(f: Prop)
    requires ResponsePart(f).Some? && |ResponsePart(f).value| == 1
    ensures Holds(ResponsePart(f).value[0], f)
  {
    if Truthy(f) {
      SplitCount(f.value.s, '\n');
      SplitJoin(f.value.s, '\n');
    }
  }

  lemma SuggestionsHolds(f: Prop)
    requires SuggestionsPart(f).Some? && |SuggestionsPart(f).value| == 1
    ensures Holds(SuggestionsPart(f).value[0], f)
  {
  }

  lemma LearningCheckHolds(f: Prop)
    requires LearningCheckPart(f).Some? && |LearningCheckPart(f).value| == 1
    ensures Holds(LearningCheckPart(f).value[0], f)
  {
  }

  /** A reply whose `response` is the number 0 shows the text "0" in the
      response's place, and nothing else. */
  lemma ZeroResponseShowsZero(content: string)
    ensures MessageContent(content, Some(JObj(map["response" := JNum(0.0)]))) == Structured([ZeroText(1)])
  {
    var v := JObj(map["response" := JNum(0.0)]);
    assert Get(v, Fields[0]) == Undefined && Get(v, Fields[2]) == Undefined && Get(v, Fields[3]) == Undefined;
    assert Get(v, Fields[1]) == Defined(JNum(0.0));
    assert SourcesPart(Get(v, Fields[0])) == Some([]);
    assert ResponsePart(Get(v, Fields[1])) == Some([ZeroText(1)]);
    assert SuggestionsPart(Get(v, Fields[2])) == Some([]);
    assert LearningCheckPart(Get(v, Fields[3])) == Some([]);
    assert [] + [ZeroText(1)] + [] + [] == [ZeroText(1)];
  }

  /** An empty `response` string shows no response block, while empty
      `relevantSources` and `suggestedResources` arrays still show their
      headers, with no items. */
  lemma EmptyFields()
    ensures Render(JObj(map["response" := JStr("")])) == Some([])
    ensures Render(JObj(map["relevantSources" := JArr([]), "suggestedResources" := JArr([])]))
      == Some([SourcesBlock([]), SuggestionsBlock([])])
  {
    var u := JObj(map["response" := JStr("")]);
    assert Get(u, Fields[0]) == Undefined && Get(u, Fields[2]) == Undefined && Get(u, Fields[3]) == Undefined;
    assert !Truthy(Get(u, Fields[1]));
    assert SourcesPart(Get(u, Fields[0])) == Some([]);
    assert ResponsePart(Get(u, Fields[1])) == Some([]);
    assert SuggestionsPart(Get(u, Fields[2])) == Some([]);
    assert LearningCheckPart(Get(u, Fields[3])) == Some([]);
    var none: seq<Block> := [];
    assert none + none + none + none == [];
    var v := JObj(map["relevantSources" := JArr([]), "suggestedResources" := JArr([])]);
    assert Get(v, Fields[0]) == Defined(JArr([]));
    assert Get(v, Fields[1]) == Undefined;
    assert Get(v, Fields[2]) == Defined(JArr([]));
    assert Get(v, Fields[3]) == Undefined;
    assert SourcesPart(Get(v, Fields[0])) == Some([SourcesBlock([])]);
    assert ResponsePart(Get(v, Fields[1])) == Some([]);
    assert SuggestionsPart(Get(v, Fields[2])) == Some([SuggestionsBlock([])]);
    assert LearningCheckPart(Get(v, Fields[3])) == Some([]);
    assert [SourcesBlock([])] + [] + [SuggestionsBlock([])] + [] == [SourcesBlock([]), SuggestionsBlock([])];
  }

  /** A reply with only `response` and `suggestedResources` shows exactly
      those two blocks, holding what was given. */
  lemma ResponseWithSuggestion()
    ensures Render(JObj(map["response" := JStr("Hello"), "suggestedResources" := JArr([JStr("Guide A")])]))
      == Some([ResponseBlock(["Hello"]), SuggestionsBlock([JStr("Guide A")])])
  {
    SplitWithout("Hello", '\n');
    var v := JObj(map["response" := JStr("Hello"), "suggestedResources" := JArr([JStr("Guide A")])]);
    assert Get(v, Fields[0]) == Undefined;
    assert Get(v, Fields[1]) == Defined(JStr("Hello"));
    assert Get(v, Fields[2]) == Defined(JArr([JStr("Guide A")]));
    assert Get(v, Fields[3]) == Undefined;
    assert SourcesPart(Get(v, Fields[0])) == Some([]);
    assert ResponsePart(Get(v, Fields[1])) == Some([ResponseBlock(["Hello"])]);
    assert SuggestionsPart(Get(v, Fields[2])) == Some([SuggestionsBlock([JStr("Guide A")])]);
    assert LearningCheckPart(Get(v, Fields[3])) == Some([]);
    assert [] + [ResponseBlock(["Hello"])] + [SuggestionsBlock([JStr("Guide A")])] + []
      == [ResponseBlock(["Hello"]), SuggestionsBlock([JStr("Guide A")])];
  }

  /** A present field of the wrong kind throws inside the `try`, so the whole
      message falls back to the raw text: a learning check without
      `options`, relevant sources given as a string, a `null` source, or a
      reply that parses to `null`. */
  lemma WrongKindFallsBack(content: string, other: Json)
    ensures var lc := JObj(map["question" := JStr("Q?")]);
      MessageContent(content, Some(JObj(map["response" := JStr("A"), "learningCheck" := lc]))) == Raw(content)
    ensures MessageContent(content, Some(JObj(map["relevantSources" := JStr("Policy")]))) == Raw(content)
    ensures MessageContent(content, Some(JObj(map["relevantSources" := JArr([other, JNull])]))) == Raw(content)
    ensures MessageContent(content, Some(JNull)) == Raw(content)
  {
    assert !Usable(3, Get(JObj(map["response" := JStr("A"), "learningCheck" := JObj(map["question" := JStr("Q?")])]), Fields[3]));
    assert !Usable(0, Get(JObj(map["relevantSources" := JStr("Policy")]), Fields[0]));
    var items := [other, JNull];
    assert ThrowsOnRead(items[1]);
    assert !Usable(0, Get(JObj(map["relevantSources" := JArr(items)]), Fields[0]));
  }

  // ---------------------------------------------------------------------------
  // the welcome message and the page gate

  /** The assistant's first message, greeting `firstName` as the page
      renders it (the line after the greeting holds eight spaces). It starts
      with "Hello " and the name, so it is not JSON text. */
  function Welcome(firstName: string): (w: string)
    ensures OccursAt(w, "Hello ", 0) && OccursAt(w, firstName, 6)
    ensures !MayBeJsonText(w)
  {
    var w := "Hello " + firstName + "! I'm your AI Coach. I can help you with:\n        \n"
    + "1. Front Office Management\n2. Patient Scheduling\n3. Communication Skills\n\n"
    + "What topic would you like to explore?";
    assert w[..6] == "Hello " && w[6..6 + |firstName|] == firstName;
    NotJsonText(w);
    w
  }

  predicate JsonWhitespace(c: char)
  {
    c == ' ' || c == '\t' || c == '\n' || c == '\r'
  }

  /** A condition every JSON text meets: after leading whitespace comes the
      first character of a value. `JSON.parse` can only succeed on such text. */
  predicate MayBeJsonText(s: string)
  {
    exists i ::
      && 0 <= i < |s|
      && (forall j :: 0 <= j < i ==> JsonWhitespace(s[j]))
      && s[i] in "{[\"-0123456789tfn"
  }

  /** The welcome message cannot be JSON, so whatever parse outcome is
      consistent with that, it is shown as raw text. */
  lemma WelcomeShowsRaw(firstName: string, parsed: Option<Json>)
    requires parsed.Some? ==> MayBeJsonText(Welcome(firstName))
    ensures MessageContent(Welcome(firstName), parsed) == Raw(Welcome(firstName))
  {
  }

  /** Text whose first character is neither whitespace nor the start of a
      JSON value is not JSON text. */
  lemma NotJsonText(s: string)
    requires |s| > 0 && !JsonWhitespace(s[0]) && s[0] !in "{[\"-0123456789tfn"
    ensures !MayBeJsonText(s)
  {
  }

  /** A message of the chat as the page holds it. */
  datatype ChatMessage = ChatMessage(id: string, role: string, content: string)

  /** A user message is shown as plain text, any other through
      `MessageContent`. */
  datatype Bubble = UserBubble(text: string) | AssistantBubble(view: View)

  datatype Page = LoadingPage | NoPage | ChatPage(bubbles: seq<Bubble>)

  /** The page's `isChecking` state starts true and nothing ever sets it. */
  const IsChecking := true

  /** One bubble per message, in order: the user's text as it is, every
      other message through `MessageContent` with its parse outcome. */
  function Bubbles(messages: seq<ChatMessage>, parse: string -> Option<Json>): (r: seq<Bubble>)
    ensures |r| == |messages|
    ensures forall i :: 0 <= i < |messages| ==>
      r[i] == if messages[i].role == "user" then UserBubble(messages[i].content)
              else AssistantBubble(MessageContent(messages[i].content, parse(messages[i].content)))
  {
    if |messages| == 0 then []
    else
      var m := messages[0];
      [if m.role == "user" then UserBubble(m.content) else AssistantBubble(MessageContent(m.content, parse(m.content)))]
      + Bubbles(messages[1..], parse)
  }

  /** `AIAutoCoaching`: because `isChecking` is never cleared, the page shows
      "Loading..." whatever the sign-in state and the messages. */
  function AIAutoCoaching(isLoaded: bool, isSignedIn: bool, messages: seq<ChatMessage>,
                          parse: string -> Option<Json>): (page: Page)
    ensures page == LoadingPage
  {
    if !isLoaded || IsChecking then LoadingPage
    else if !isSignedIn then NoPage
    else ChatPage(Bubbles(messages, parse))
  }
}
