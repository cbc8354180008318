/**
 * The chat request (`src/utils/geminiApi.ts`): the key guard, the system
 * prompt built from the paper, the ordered `contents` list sent to the
 * model, and the reply taken from its answer.
 *
 * The model call is `generate`, what the request comes to for a given
 * `contents` list.
 */
module GeminiApi {
  import opened JsRuntime
  import opened JsStrings
  import opened Types

  const KeyPrompt := "Please add your Gemini API key in the search section above to enable AI chat functionality."
  const Apology := "Sorry, I encountered an error while processing your question. Please check your API key and try again."
  const Acknowledgement := "I understand. I'm ready to help you analyze this paper. What would you like to know?"

  /** The fixed passages of the system prompt. */
  datatype PromptTexts = PromptTexts(
    general: string,
    paperIntro: string,
    fullTextGuidance: string,
    metadataOnlyIntro: string,
    errorNotePrefix: string,
    errorNoteSuffix: string,
    noErrorNote: string,
    closing: string)

  const Texts := PromptTexts(
    "You are an expert research assistant. Help users with questions about academic research, papers, "
    + "methodologies, and scientific concepts. Keep responses concise and informative. If the user's question "
    + "contains grammar mistakes or unclear phrasing, understand their intent and respond appropriately while "
    + "maintaining professional communication.",
    "You are an expert research assistant helping users understand an academic paper. Here are the complete paper details:",
    "\n\nYou have access to the ENTIRE paper content above. Use this complete text to provide detailed, accurate answers about:"
    + "\n- Specific methodologies and experimental procedures"
    + "\n- Detailed findings and results"
    + "\n- Data analysis and statistical methods"
    + "\n- Conclusions and implications"
    + "\n- Any specific sections, figures, tables, or equations mentioned"
    + "\n- Technical details and implementation specifics"
    + "\n- Related work and citations within the paper"
    + "\n\nWhen answering questions, reference specific parts of the paper content directly. You can quote exact passages when relevant.",
    "\n\nI have access to the paper metadata and abstract shown above. Based on this information, I can provide "
    + "insights about the paper's general methodology, findings, implications, and context within the field. ",
    "Note: Full text extraction failed (",
    "), so my responses are based on the abstract and metadata only.",
    "I can help explain the research based on the available information.",
    "\n\nKeep responses informative but concise (under 500 words unless the user specifically asks for detailed "
    + "explanations). Be accurate and cite specific parts of the paper when possible. If the user's question "
    + "contains grammar mistakes or unclear phrasing, understand their intent and respond appropriately while "
    + "maintaining professional communication.")

  /** The two roles of the request format. */
  datatype Role = UserRole | ModelRole

  /** One entry of `contents`: a role and the text of its single part. */
  datatype Content = Content(role: Role, text: string)

  /** What `generateContent` comes to: a response, whose `text` may be missing, or a thrown error. */
  datatype GenerateOutcome = Generated(text: Option<string>) | GenerateFault(fault: Fault)

  /** The paper's metadata block. */
  function PaperMetadata(t: PromptTexts, p: Paper): string {
    t.paperIntro
    + "\n\nPAPER METADATA:\nTitle: " + p.title
    + "\nAuthors: " + Join(p.authors, ", ")
    + "\nCategory: " + p.category
    + "\nPublished: " + p.publishedDate
    + "\nAbstract: " + p.summary
  }

  /** Line 35: the paper has full text that is not blank. */
  predicate HasFullText(p: Paper) {
    Truthy(p.fullText) && |Trim(p.fullText.value)| > 0
  }

  function FullTextSection(t: PromptTexts, fullText: string): string {
    "\n\nCOMPLETE PAPER CONTENT:\n" + fullText + t.fullTextGuidance
  }

  function ExtractionNote(t: PromptTexts, error: Option<string>): string {
    if Truthy(error) then t.errorNotePrefix + error.value + t.errorNoteSuffix else t.noErrorNote
  }

  /** The part between the metadata and the closing: the full text, or what the answers will be based on. */
  function Middle(t: PromptTexts, p: Paper): string {
    if HasFullText(p) then FullTextSection(t, p.fullText.value) else t.metadataOnlyIntro + ExtractionNote(t, p.textExtractionError)
  }

  /** Lines 21-62: the system prompt, from the fixed passages `t`. */
  function PromptFrom(t: PromptTexts, paper: Option<Paper>): string {
    match paper
    case None => t.general
    case Some(p) => PaperMetadata(t, p) + Middle(t, p) + t.closing
  }

  function SystemPrompt(paper: Option<Paper>): string {
    PromptFrom(Texts, paper)
  }

  /**
   * With a paper, the prompt carries the paper's metadata, then its full
   * text when that is not blank, or else the extraction error when there
   * is one; it always ends with the closing instructions.
   */
  lemma PromptContents(t: PromptTexts, p: Paper)
    ensures var prompt := PromptFrom(t, Some(p));
      && Contains(prompt, PaperMetadata(t, p))
      && Contains(prompt, t.closing)
      && (HasFullText(p) ==> Contains(prompt, FullTextSection(t, p.fullText.value)))
      && (!HasFullText(p) ==> Contains(prompt, t.metadataOnlyIntro))
      && (!HasFullText(p) && Truthy(p.textExtractionError) ==> Contains(prompt, p.textExtractionError.value))
      && (!HasFullText(p) && !Truthy(p.textExtractionError) ==> Contains(prompt, t.noErrorNote))
  {
    var prompt := PromptFrom(t, Some(p));
    var middle := Middle(t, p);
    PromptParts(t, p);
    MiddleContents(t, p);
    if HasFullText(p) {
    } else {
      ContainsTransitive(prompt, middle, t.metadataOnlyIntro);
      if Truthy(p.textExtractionError) {
        ContainsTransitive(prompt, middle, p.textExtractionError.value);
      } else {
        ContainsTransitive(prompt, middle, t.noErrorNote);
      }
    }
  }

  /** The prompt for a paper is its metadata, the middle part and the closing, each occurring in it. */
  lemma PromptParts(t: PromptTexts, p: Paper)
    ensures var prompt := PromptFrom(t, Some(p));
      && Contains(prompt, PaperMetadata(t, p))
      && Contains(prompt, Middle(t, p))
      && Contains(prompt, t.closing)
  {
    ContainsEach(PaperMetadata(t, p), Middle(t, p), t.closing);
  }

  /** The middle part is the full text section, or the metadata-only passage followed by the extraction note. */
  lemma MiddleContents(t: PromptTexts, p: Paper)
    ensures var middle := Middle(t, p);
      && (HasFullText(p) ==> middle == FullTextSection(t, p.fullText.value))
      && (!HasFullText(p) ==> Contains(middle, t.metadataOnlyIntro))
      && (!HasFullText(p) && Truthy(p.textExtractionError) ==> Contains(middle, p.textExtractionError.value))
      && (!HasFullText(p) && !Truthy(p.textExtractionError) ==> Contains(middle, t.noErrorNote))
  {
    var middle := Middle(t, p);
    if !HasFullText(p) {
      var note := ExtractionNote(t, p.textExtractionError);
      assert middle == t.metadataOnlyIntro + note;
      ContainsParts([], t.metadataOnlyIntro, note);
      assert [] + t.metadataOnlyIntro + note == middle;
      ContainsParts(t.metadataOnlyIntro, note, []);
      assert t.metadataOnlyIntro + note + [] == middle;
      if Truthy(p.textExtractionError) {
        ContainsParts(t.errorNotePrefix, p.textExtractionError.value, t.errorNoteSuffix);
        ContainsTransitive(middle, note, p.textExtractionError.value);
      }
    }
  }

  /** The prompt for a paper is never empty when the closing is not. */
  lemma PromptNonEmpty(t: PromptTexts, paper: Option<Paper>)
    requires t.general != "" && t.closing != ""
    ensures PromptFrom(t, paper) != ""
  {
    if paper.Some? {
      var p := paper.value;
      assert |PromptFrom(t, paper)| == |PaperMetadata(t, p)| + |Middle(t, p)| + |t.closing|;
    }
  }

  /** The system prompt is never empty. */
  lemma SystemPromptNonEmpty(paper: Option<Paper>)
    ensures SystemPrompt(paper) != ""
  {
    assert |Texts.general| > 0 && |Texts.closing| > 0;
    PromptNonEmpty(Texts, paper);
  }

  /** Line 80: the history without the welcome message (id '1'), in order. */
  function WithoutWelcome(history: seq<Message>): (r: seq<Message>)
    ensures |r| <= |history|
    ensures forall m :: m in r <==> m in history && m.id != "1"
  {
    if history == [] then []
    else (if history[0].id != "1" then [history[0]] else []) + WithoutWelcome(history[1..])
  }

  /** Filtering keeps the order: it distributes over concatenation. */
  lemma {:induction false} WithoutWelcomeAppend(a: seq<Message>, b: seq<Message>)
    ensures WithoutWelcome(a + b) == WithoutWelcome(a) + WithoutWelcome(b)
  {
    if a != [] {
      assert (a + b)[1..] == a[1..] + b;
      WithoutWelcomeAppend(a[1..], b);
    } else {
      assert a + b == b;
    }
  }

  /** The role of a history entry: 'user' for the user's messages, 'model' for everything else. */
  function HistoryEntry(m: Message): Content {
    Content(if m.kind == User then UserRole else ModelRole, m.content)
  }

  /** The entries sent before the history: the system prompt and the acknowledgement, only with a paper. */
  function Preamble(paper: Option<Paper>, systemPrompt: string): seq<Content> {
    if paper.Some? && systemPrompt != "" then [Content(UserRole, systemPrompt), Content(ModelRole, Acknowledgement)] else []
  }

  /** The kept history, one entry per message. */
  function HistoryEntries(history: seq<Message>): seq<Content> {
    var filtered := WithoutWelcome(history);
    seq(|filtered|, k requires 0 <= k < |filtered| => HistoryEntry(filtered[k]))
  }

  /** Lines 65-92: the request's `contents`, for the system prompt of lines 21-62. */
  function Contents(userMessage: string, history: seq<Message>, paper: Option<Paper>, systemPrompt: string): seq<Content> {
    Preamble(paper, systemPrompt) + HistoryEntries(history) + [Content(UserRole, userMessage)]
  }

  /** Builds `contents` as the source does: the preamble, one push per kept history entry, then the message. */
  method BuildContents(userMessage: string, history: seq<Message>, paper: Option<Paper>, systemPrompt: string)
    returns (contents: seq<Content>)
    ensures contents == Contents(userMessage, history, paper, systemPrompt)
  {
    contents := [];
    if paper.Some? && systemPrompt != "" {
      contents := contents + [Content(UserRole, systemPrompt)];
      contents := contents + [Content(ModelRole, Acknowledgement)];
    }
    ghost var preamble := contents;
    var filteredHistory := WithoutWelcome(history);
    for k := 0 to |filteredHistory|
      invariant contents == preamble + seq(k, j requires 0 <= j < k => HistoryEntry(filteredHistory[j]))
    {
      contents := contents + [HistoryEntry(filteredHistory[k])];
    }
    contents := contents + [Content(UserRole, userMessage)];
  }

  /**
   * The shape of `contents`: with a paper it opens with the system prompt
   * as a user entry and the acknowledgement as a model entry; the kept
   * history follows in order, a user entry exactly for a user message; the
   * current message is always last.
   */
  lemma ContentsShape(userMessage: string, history: seq<Message>, paper: Option<Paper>, systemPrompt: string)
    requires systemPrompt != ""
    ensures var c := Contents(userMessage, history, paper, systemPrompt);
      var offset := if paper.Some? then 2 else 0;
      var filtered := WithoutWelcome(history);
      && |c| == offset + |filtered| + 1
      && c[|c| - 1] == Content(UserRole, userMessage)
      && (paper.Some? ==> c[0] == Content(UserRole, systemPrompt) && c[1] == Content(ModelRole, Acknowledgement))
      && (forall k :: 0 <= k < |filtered| ==> c[offset + k] == HistoryEntry(filtered[k]))
  {
    var c := Contents(userMessage, history, paper, systemPrompt);
    var pre := Preamble(paper, systemPrompt);
    var entries := HistoryEntries(history);
    assert c == pre + entries + [Content(UserRole, userMessage)];
    assert |pre| == if paper.Some? then 2 else 0;
    forall k | 0 <= k < |WithoutWelcome(history)|
      ensures c[|pre| + k] == HistoryEntry(WithoutWelcome(history)[k])
    {
      assert c[|pre| + k] == entries[k];
    }
  }

  /** A history entry is a user entry exactly when it comes from a user message. */
  lemma HistoryRoles(history: seq<Message>)
    ensures var entries := HistoryEntries(history);
      forall k :: 0 <= k < |entries| ==> (entries[k].role == UserRole <==> WithoutWelcome(history)[k].kind == User)
  {
  }

  /** Lines 111-118: the trimmed text of the answer; a missing or empty text, or any error, gives the apology. */
  function Reply(outcome: GenerateOutcome): (r: string)
    ensures outcome.Generated? && Truthy(outcome.text) ==> r == Trim(outcome.text.value)
    ensures !(outcome.Generated? && Truthy(outcome.text)) ==> r == Apology
  {
    match outcome
    case GenerateFault(_) => Apology
    case Generated(text) => if Truthy(text) then Trim(text.value) else Apology
  }

  /** What `getChatResponse` resolves to: the key prompt without a key, else the reply to the request. */
  function ChatResponse(userMessage: string, history: seq<Message>, paper: Option<Paper>,
                        geminiApiKey: Option<string>, generate: seq<Content> -> GenerateOutcome): string
  {
    if !Truthy(geminiApiKey) then KeyPrompt
    else Reply(generate(Contents(userMessage, history, paper, SystemPrompt(paper))))
  }

  /**
   * `getChatResponse(userMessage, conversationHistory, paper, geminiApiKey)`:
   * the reply, and the `contents` sent, when a request was made.
   */
  method GetChatResponse(userMessage: string, conversationHistory: seq<Message>, paper: Option<Paper>,
                         geminiApiKey: Option<string>, generate: seq<Content> -> GenerateOutcome)
    returns (reply: string, sent: Option<seq<Content>>)
    ensures !Truthy(geminiApiKey) ==> reply == KeyPrompt && sent == None
    ensures Truthy(geminiApiKey) ==>
              var contents := Contents(userMessage, conversationHistory, paper, SystemPrompt(paper));
              sent == Some(contents) && reply == Reply(generate(contents))
    ensures reply == ChatResponse(userMessage, conversationHistory, paper, geminiApiKey, generate)
  {
    if !Truthy(geminiApiKey) {
      return KeyPrompt, None;
    }
    var systemPrompt := SystemPrompt(paper);
    var contents := BuildContents(userMessage, conversationHistory, paper, systemPrompt);
    sent := Some(contents);
    var response := generate(contents);
    if response.Generated? && Truthy(response.text) {
      reply := Trim(response.text.value);
    } else {
      reply := Apology;
    }
  }
}
