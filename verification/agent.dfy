/** The procurement agent's orchestration: intent classification, the
    single pending-order slot and its approval handling, extraction of the
    decision block from the agent's reply, and the memory-consultation tool.
    Every external call is an oracle held in a `World`; the agent's own state
    is an explicit value threaded through `ProcessMessage`. */
module Agent {
  import opened Base
  import opened JsonData
  import Text
  import Memory
  import Events

  datatype Intent = StoreFact | ProcurementRequest | Chat | ApprovalReply

  /** The agent object: the pending-order slot (`JNull` is Python's `None`)
      and the memory collection it owns. */
  datatype AgentState = AgentState(pending: Json, memory: Memory.Store)

  /** What a reply's `response` says; the fields are the values interpolated
      into the source's message text. */
  datatype Message =
    | Learned(fact: string)
    | ApprovalRequired(reason: Json, cost: Json)
    | OrderPlaced(vendor: Json, cost: Json, reason: Json)
    | Verbatim(text: string)
    | Failed(error: string)
    | OrderConfirmed(vendor: Json)
    | OrderCancelled

  /** The dict `process_message` returns: `response` and `reasoning`. */
  datatype Reply = Reply(response: Message, reasoning: string)

  /** A reply, or an exception escaping `process_message`. */
  datatype Outcome = Replied(reply: Reply) | Raised(error: string)

  datatype Turn = Turn(next: AgentState, outcome: Outcome)

  /** The external collaborators of one turn: the classification and
      extraction completions, the embedder, a fresh record id, the agent
      runner's event stream, and `json.loads` (`None` when it raises). */
  datatype World = World(
    classifier: Memory.Completer,
    extractor: Memory.Completer,
    embedder: Memory.Embedder,
    freshId: string,
    runner: string -> Call<seq<Events.Event>>,
    parse: string -> Option<Json>)

  const PauseStatus := "PAUSE_APPROVAL_NEEDED"
  const Affirmative: set<string> := {"yes", "y", "approve", "ok"}
  const NoRules := "No specific rules found in memory."
  const IngestionNote := "Action: INGESTION via MemoryLayer"
  const ApprovedNote := "User manually approved."
  const DeniedNote := "User denied."
  const LogHeader := "ADK Agent Response:\n"

  predicate Idle(st: AgentState) {
    st.pending == JNull
  }

  /** A decision block asking for approval. */
  predicate IsPause(j: Json) {
    j.JObj? && Get(j, "status") == JStr(PauseStatus)
  }

  /** The slot is empty or holds a decision that asked for approval. */
  predicate Valid(st: AgentState) {
    st.pending == JNull || IsPause(st.pending)
  }

  lemma PauseIsTruthy(j: Json)
    requires IsPause(j)
    ensures Truthy(j)
  {
  }

  // ---------------------------------------------------------------------------
  // Intent classification

  /** Keyword precedence on the normalised reply: `STORE_FACT` first, then
      `PROCUREMENT`, otherwise chat. */
  function KeywordIntent(reply: string): Intent {
    if Text.Contains(reply, "STORE_FACT") then StoreFact
    else if Text.Contains(reply, "PROCUREMENT") then ProcurementRequest
    else Chat
  }

  /** The label for a classifier reply: stripped, upper-cased, then keywords. */
  function ClassifyReply(content: string): Intent {
    KeywordIntent(Text.Upper(Text.Strip(content)))
  }

  /** Stripping cannot change the label: the keywords contain no whitespace.
      So the precedence holds of the upper-cased raw reply. */
  lemma ClassificationPrecedence(content: string)
    ensures Text.Contains(Text.Upper(content), "STORE_FACT") ==> ClassifyReply(content) == StoreFact
    ensures !Text.Contains(Text.Upper(content), "STORE_FACT") && Text.Contains(Text.Upper(content), "PROCUREMENT")
      ==> ClassifyReply(content) == ProcurementRequest
    ensures !Text.Contains(Text.Upper(content), "STORE_FACT") && !Text.Contains(Text.Upper(content), "PROCUREMENT")
      ==> ClassifyReply(content) == Chat
  {
    KeywordsHaveNoSpace();
    KeywordSurvivesStrip(content, "STORE_FACT");
    KeywordSurvivesStrip(content, "PROCUREMENT");
  }

  /** A keyword without whitespace is found in the stripped, upper-cased reply
      exactly when it is found in the upper-cased reply. */
  lemma KeywordSurvivesStrip(content: string, keyword: string)
    requires |keyword| > 0 && Text.NoSpace(keyword)
    ensures Text.Contains(Text.Upper(Text.Strip(content)), keyword) == Text.Contains(Text.Upper(content), keyword)
  {
    var core := Text.Strip(content);
    var a := Text.StripIsCore(content);
    var b := a + |core|;
    var up := Text.Upper(content);
    UpperKeepsMargin(content, a, b);
    UpperSlice(content, a, b);
    assert Text.Upper(core) == up[a..b];
    Text.ContainsIgnoresMargin(up, a, b, keyword);
  }

  lemma KeywordsHaveNoSpace()
    ensures Text.NoSpace("STORE_FACT") && Text.NoSpace("PROCUREMENT")
  {
  }

  lemma UpperSlice(s: string, a: nat, b: nat)
    requires a <= b <= |s|
    ensures Text.Upper(s[a..b]) == Text.Upper(s)[a..b]
  {
  }

  lemma UpperKeepsMargin(s: string, a: nat, b: nat)
    requires a <= b <= |s|
    requires forall i :: 0 <= i < a ==> Text.IsSpace(s[i])
    requires forall i :: b <= i < |s| ==> Text.IsSpace(s[i])
    ensures forall i :: 0 <= i < a ==> Text.IsSpace(Text.Upper(s)[i])
    ensures forall i :: b <= i < |s| ==> Text.IsSpace(Text.Upper(s)[i])
  {
  }

  /** `get_intent`: a truthy pending order short-circuits to an approval reply
      without asking the classifier; a classifier failure falls back to chat. */
  function GetIntent(st: AgentState, input: string, classifier: Memory.Completer): (r: Intent)
    ensures Truthy(st.pending) ==> r == ApprovalReply
    ensures !Truthy(st.pending) ==> r in {StoreFact, ProcurementRequest, Chat}
    ensures !Truthy(st.pending) && classifier(input).Threw? ==> r == Chat
    ensures !Truthy(st.pending) && classifier(input).Returned? ==> r == ClassifyReply(classifier(input).value)
  {
    if Truthy(st.pending) then ApprovalReply
    else
      match classifier(input)
      case Threw(_) => Chat
      case Returned(content) => ClassifyReply(content)
  }

  /** With an order pending, the classifier is irrelevant: any two classifiers
      (a failing one included) give the same intent for any input. */
  lemma PendingIgnoresClassifier(st: AgentState, i1: string, i2: string, c1: Memory.Completer, c2: Memory.Completer)
    requires Valid(st) && !Idle(st)
    ensures GetIntent(st, i1, c1) == GetIntent(st, i2, c2) == ApprovalReply
  {
    PauseIsTruthy(st.pending);
  }

  // ---------------------------------------------------------------------------
  // Approval

  /** An exact, case-insensitive match with one of the four approval words. */
  predicate Approves(input: string) {
    Text.Lower(input) in Affirmative
  }

  /** `handle_approval`: the slot is emptied on every path. Approval confirms
      the vendor of the order just cleared; calling `.get` on a slot that holds
      no dict raises after the slot was emptied. Anything else cancels. */
  function HandleApproval(st: AgentState, input: string): (t: Turn)
    ensures t.next == st.(pending := JNull)
    ensures Approves(input) && st.pending.JObj? ==>
      t.outcome == Replied(Reply(OrderConfirmed(Get(st.pending, "selected_vendor")), ApprovedNote))
    ensures Approves(input) && !st.pending.JObj? ==> t.outcome == Raised(NoGetError(st.pending))
    ensures !Approves(input) ==> t.outcome == Replied(Reply(OrderCancelled, DeniedNote))
  {
    var next := st.(pending := JNull);
    if Approves(input) then
      if st.pending.JObj? then Turn(next, Replied(Reply(OrderConfirmed(Get(st.pending, "selected_vendor")), ApprovedNote)))
      else Turn(next, Raised(NoGetError(st.pending)))
    else Turn(next, Replied(Reply(OrderCancelled, DeniedNote)))
  }

  /** No trimming: an approving reply contains no whitespace at all, so
      " yes" or "yes\n" cancel. */
  lemma ApprovalHasNoSpace(input: string)
    requires Approves(input)
    ensures Text.NoSpace(input)
  {
  }

  /** Case does not matter: upper-casing a reply never changes the decision. */
  lemma ApprovalIgnoresCase(input: string)
    ensures Approves(Text.Upper(input)) == Approves(input)
  {
    var up := Text.Upper(input);
    assert Text.Lower(up) == Text.Lower(input) by {
      forall i | 0 <= i < |input|
        ensures Text.Lower(up)[i] == Text.Lower(input)[i]
      {
        assert up[i] == Text.UpperChar(input[i]);
      }
    }
  }

  /** Replies from the approval prompt and how they are read. */
  lemma ApprovalExamples()
    ensures Approves("y") && Approves("YES") && Approves("Ok") && Approves("approve")
    ensures !Approves("no") && !Approves(" yes") && !Approves("yeah") && !Approves("yes please")
  {
    assert Text.Lower("y") == "y";
    assert Text.Lower("YES") == "yes";
    assert Text.Lower("Ok") == "ok";
    assert Text.Lower("approve") == "approve";
    assert Text.Lower("no") == "no";
  }

  // ---------------------------------------------------------------------------
  // Decision block extraction

  /** `extract_json`: the greedy match of `\{.*\}` (dot matching newlines) runs
      from the first `{` to the last `}`; no such pair, or a span `json.loads`
      rejects, gives `None`. */
  function ExtractJson(text: string, parse: string -> Option<Json>): (r: Option<Json>)
    ensures '{' !in text || '}' !in text ==> r == None
  {
    match Text.IndexOf(text, '{')
    case None => None
    case Some(a) =>
      match Text.LastIndexOf(text, '}')
      case None => None
      case Some(b) => if a < b then parse(text[a..b + 1]) else None
  }

  /** The span handed to the parser is exactly first `{` .. last `}`. */
  lemma ExtractJsonSpan(text: string, parse: string -> Option<Json>, a: nat, b: nat)
    requires a < b < |text|
    requires text[a] == '{' && '{' !in text[..a]
    requires text[b] == '}' && '}' !in text[b + 1..]
    ensures ExtractJson(text, parse) == parse(text[a..b + 1])
  {
  }

  /** When every `{` comes after every `}`, nothing is extracted. */
  lemma ExtractJsonNoBlock(text: string, parse: string -> Option<Json>)
    requires forall i, j :: 0 <= i < j < |text| && text[i] == '{' ==> text[j] != '}'
    ensures ExtractJson(text, parse) == None
  {
  }

  /** Prose before the block (without `{`) and after it (without `}`), such as
      Markdown code fences, does not affect what is parsed. */
  lemma ExtractJsonIgnoresProse(prefix: string, block: string, suffix: string, parse: string -> Option<Json>)
    requires '{' !in prefix && '}' !in suffix
    requires |block| >= 2 && block[0] == '{' && block[|block| - 1] == '}'
    ensures ExtractJson(prefix + block + suffix, parse) == parse(block)
  {
    var text := prefix + block + suffix;
    var a := |prefix|;
    var b := |prefix| + |block| - 1;
    assert text[..a] == prefix;
    assert text[b + 1..] == suffix;
    assert text[a..b + 1] == block;
    ExtractJsonSpan(text, parse, a, b);
  }

  // ---------------------------------------------------------------------------
  // The agent path and the state machine

  /** The outcome of the agent path once the runner's text is known. A falsy
      block is treated as no block; a truthy non-dict raises inside the
      `try`, which turns it into an error reply. Only a pause decision fills
      the slot. */
  function DecisionTurn(st: AgentState, text: string, parse: string -> Option<Json>): (t: Turn)
    ensures t.next.memory == st.memory
    ensures t.next.pending != st.pending ==>
      ExtractJson(text, parse).Some? && IsPause(ExtractJson(text, parse).value)
      && t.next.pending == ExtractJson(text, parse).value
    ensures ExtractJson(text, parse).Some? && IsPause(ExtractJson(text, parse).value) ==>
      t.next.pending == ExtractJson(text, parse).value
      && t.outcome.Replied? && t.outcome.reply.response.ApprovalRequired?
  {
    var log := LogHeader + text;
    match ExtractJson(text, parse)
    case None => Turn(st, Replied(Reply(Verbatim(text), log)))
    case Some(j) =>
      if !Truthy(j) then
        Turn(st, Replied(Reply(Verbatim(text), log)))
      else if !j.JObj? then
        Turn(st, Replied(Reply(Failed(NoGetError(j)), NoGetError(j))))
      else if Get(j, "status") == JStr(PauseStatus) then
        Turn(st.(pending := j),
             Replied(Reply(ApprovalRequired(Get(j, "reasoning"), Get(j, "total_cost")), log)))
      else
        Turn(st, Replied(Reply(OrderPlaced(Get(j, "selected_vendor"), Get(j, "total_cost"), Get(j, "reasoning")), log)))
  }

  /** The procurement/chat path: a runner exception becomes an error reply
      and changes nothing. */
  function RunAgent(st: AgentState, input: string, w: World): (t: Turn)
    ensures t.next.memory == st.memory
    ensures w.runner(input).Threw? ==>
      t == Turn(st, Replied(Reply(Failed(w.runner(input).error), w.runner(input).error)))
  {
    match w.runner(input)
    case Threw(e) => Turn(st, Replied(Reply(Failed(e), e)))
    case Returned(events) => DecisionTurn(st, Events.ResponseText(events), w.parse)
  }

  /** `process_message`: one conversation turn. */
  function ProcessMessage(st: AgentState, input: string, w: World): (t: Turn)
    ensures Truthy(st.pending) ==> t.next == st.(pending := JNull)
    ensures Valid(st) ==> Valid(t.next)
    ensures !Truthy(st.pending) && t.outcome.Raised? ==> t.next == st
    ensures Valid(st) && t.outcome.Raised? ==> t.next == st
    ensures t.next.memory == st.memory || (
      && GetIntent(st, input, w.classifier) == StoreFact
      && t.outcome.Replied? && t.outcome.reply.response.Learned?
      && |t.next.memory| == |st.memory| + 1
      && t.next.memory[..|st.memory|] == st.memory
      && t.next.memory[|st.memory|].document == t.outcome.reply.response.fact)
  {
    match GetIntent(st, input, w.classifier)
    case ApprovalReply => HandleApproval(st, input)
    case StoreFact =>
      (match Memory.Add(st.memory, input, map[], w.extractor, w.embedder, w.freshId)
       case Threw(e) => Turn(st, Raised(e))
       case Returned(added) =>
         Turn(st.(memory := added.store), Replied(Reply(Learned(added.fact), IngestionNote))))
    case ProcurementRequest => RunAgent(st, input, w)
    case Chat => RunAgent(st, input, w)
  }

  /** The agent path's outcome asks for approval: the classifier does not say
      STORE_FACT, the runner returns, and its text yields a pause decision. */
  predicate PauseDecided(input: string, w: World) {
    && (w.classifier(input).Threw? || ClassifyReply(w.classifier(input).value) != StoreFact)
    && w.runner(input).Returned?
    && var block := ExtractJson(Events.ResponseText(w.runner(input).value), w.parse);
       block.Some? && IsPause(block.value)
  }

  /** From an empty slot, the slot is filled exactly when the decision block
      asks for approval, and then with that block. The ingestion path, a
      runner exception, a missing block and any other status leave it empty. */
  lemma IdleTransitions(st: AgentState, input: string, w: World)
    requires Idle(st)
    ensures var t := ProcessMessage(st, input, w);
      (t.next.pending != JNull <==> PauseDecided(input, w))
      && (PauseDecided(input, w) ==>
            t.next.pending == ExtractJson(Events.ResponseText(w.runner(input).value), w.parse).value)
    ensures GetIntent(st, input, w.classifier) == StoreFact ==> ProcessMessage(st, input, w).next.pending == JNull
    ensures w.runner(input).Threw? ==> ProcessMessage(st, input, w).next.pending == JNull
    ensures w.runner(input).Returned?
      && ExtractJson(Events.ResponseText(w.runner(input).value), w.parse).None?
      ==> ProcessMessage(st, input, w).next.pending == JNull
  {
  }

  /** The full approval round trip: a pause decision fills the slot, and the
      very next message (whatever it says) empties it again, confirming the
      paused order's vendor on approval and cancelling otherwise. Memory is
      untouched throughout. */
  lemma PauseThenResolve(st: AgentState, request: string, answer: string, w: World)
    requires Idle(st) && PauseDecided(request, w)
    ensures var t1 := ProcessMessage(st, request, w);
      var decision := ExtractJson(Events.ResponseText(w.runner(request).value), w.parse).value;
      var t2 := ProcessMessage(t1.next, answer, w);
      && t1.next == st.(pending := decision)
      && t2.next == st
      && (Approves(answer) ==>
            t2.outcome == Replied(Reply(OrderConfirmed(Get(decision, "selected_vendor")), ApprovedNote)))
      && (!Approves(answer) ==> t2.outcome == Replied(Reply(OrderCancelled, DeniedNote)))
  {
  }

  // ---------------------------------------------------------------------------
  // The memory-consultation tool

  function Bullets(hits: seq<Memory.Hit>): (lines: seq<string>)
    ensures |lines| == |hits|
    ensures forall i :: 0 <= i < |hits| ==> lines[i] == "- " + hits[i].fact
  {
    seq(|hits|, i requires 0 <= i < |hits| => "- " + hits[i].fact)
  }

  lemma JoinStartsWithFirst(lines: seq<string>)
    requires |lines| > 0
    ensures Text.StartsWith(Text.Join(lines), lines[0])
  {
  }

  /** `consult_memory_tool`: the top three memories as bullet lines, or a
      fixed sentence when there are none. */
  function ConsultMemory(store: Memory.Store, query: string, embedder: Memory.Embedder, chroma: Memory.Chroma): (r: Call<string>)
    ensures |store| == 0 ==> r == Returned(NoRules)
    ensures var found := Memory.Search(store, query, Memory.DefaultLimit, embedder, chroma);
      && (r.Threw? <==> found.Threw?)
      && (found.Returned? ==> (r.value == NoRules <==> |found.value| == 0))
      && (found.Returned? && |found.value| > 0 ==> Text.StartsWith(r.value, "- " + found.value[0].fact))
  {
    match Memory.Search(store, query, Memory.DefaultLimit, embedder, chroma)
    case Threw(e) => Threw(e)
    case Returned(hits) =>
      if |hits| == 0 then Returned(NoRules)
      else
        var text := Text.Join(Bullets(hits));
        JoinStartsWithFirst(Bullets(hits));
        assert text[0] == '-';
        assert text != NoRules by { assert NoRules[0] == 'N'; }
        Returned(text)
  }

  /** One line per memory, in result order: splitting the tool's answer on
      newlines gives back `- fact` for each hit, as long as no fact itself
      contains a newline. */
  lemma ConsultMemoryLines(store: Memory.Store, query: string, embedder: Memory.Embedder, chroma: Memory.Chroma)
    requires var found := Memory.Search(store, query, Memory.DefaultLimit, embedder, chroma);
      found.Returned? && |found.value| > 0
      && forall i :: 0 <= i < |found.value| ==> '\n' !in found.value[i].fact
    ensures var hits := Memory.Search(store, query, Memory.DefaultLimit, embedder, chroma).value;
      var lines := Text.SplitLines(ConsultMemory(store, query, embedder, chroma).value);
      |lines| == |hits| && forall i :: 0 <= i < |hits| ==> lines[i] == "- " + hits[i].fact
  {
    var hits := Memory.Search(store, query, Memory.DefaultLimit, embedder, chroma).value;
    var bullets := Bullets(hits);
    forall k | 0 <= k < |bullets|
      ensures '\n' !in bullets[k]
    {
      assert bullets[k] == "- " + hits[k].fact;
    }
    Text.SplitJoin(bullets);
  }
}
