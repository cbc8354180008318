/**
 * The chat panel (`src/components/ChatSidebar.tsx`): a message list that
 * opens with a welcome message and grows by one user message and one
 * assistant message per send, the input box, and the loading flag.
 *
 * The clock readings a send takes are parameters (`now` for the user
 * message, `later` for the reply), and the model call is `generate`, as in
 * `GeminiApi`.
 */
module ChatSidebar {
  import opened JsRuntime
  import opened JsStrings
  import opened Types
  import opened GeminiApi

  const WelcomeId := "1"

  /** The fixed passages of the welcome message. */
  datatype WelcomeTexts = WelcomeTexts(
    noPaper: string,
    opening: string,
    byline: string,
    fullTextAccess: string,
    metadataAccess: string,
    invitation: string,
    publishedOn: string)

  const Welcome := WelcomeTexts(
    "Hello! Select a paper to start chatting about it, or ask me general questions about research!",
    "Hello! I'm here to help you understand \"",
    "\" by ",
    "I have access to the complete paper content and can answer detailed questions about the methodology, "
    + "findings, analysis, and any specific sections.",
    "I have access to the paper's metadata and abstract, and can help you understand the research.",
    " You can ask me about methodology, findings, implications, or anything else you'd like to know about this ",
    " paper published on ")

  /** The sentence saying what the assistant can see of the paper: the full text when `fullText` is truthy. */
  function Access(t: WelcomeTexts, p: Paper): string {
    if Truthy(p.fullText) then t.fullTextAccess else t.metadataAccess
  }

  /** The part of the welcome before the access sentence. */
  function Greeting(t: WelcomeTexts, p: Paper): string {
    t.opening + p.title + (t.byline + Join(p.authors, ", ") + ". ")
  }

  /** The part of the welcome after the access sentence. */
  function Invitation(t: WelcomeTexts, p: Paper): string {
    t.invitation + p.category + (t.publishedOn + p.publishedDate + ".")
  }

  /** Line 19, from the fixed passages `t`. */
  function WelcomeFrom(t: WelcomeTexts, paper: Option<Paper>): string {
    match paper
    case None => t.noPaper
    case Some(p) => Greeting(t, p) + Access(t, p) + Invitation(t, p)
  }

  /** Line 19: the welcome text. */
  function WelcomeText(paper: Option<Paper>): string {
    WelcomeFrom(Welcome, paper)
  }

  /**
   * With a paper the welcome names its title, its category and its date,
   * and says that the complete content is available exactly when `fullText`
   * is truthy, whether or not that text is blank.
   */
  lemma WelcomeMentions(t: WelcomeTexts, p: Paper)
    ensures var w := WelcomeFrom(t, Some(p));
      && Contains(w, p.title)
      && Contains(w, p.category)
      && Contains(w, p.publishedDate)
      && (Truthy(p.fullText) ==> Contains(w, t.fullTextAccess))
      && (!Truthy(p.fullText) ==> Contains(w, t.metadataAccess))
  {
    var g, a, v := Greeting(t, p), Access(t, p), Invitation(t, p);
    ContainsEach(g, a, v);
    ContainsParts(t.opening, p.title, t.byline + Join(p.authors, ", ") + ". ");
    ContainsTransitive(g + a + v, g, p.title);
    ContainsParts(t.invitation, p.category, t.publishedOn + p.publishedDate + ".");
    ContainsTransitive(g + a + v, v, p.category);
    ContainsParts(t.invitation + p.category + t.publishedOn, p.publishedDate, ".");
    assert t.invitation + p.category + t.publishedOn + p.publishedDate + "." == v;
    ContainsTransitive(g + a + v, v, p.publishedDate);
  }

  /**
   * Line 43 as written: `getChatResponse(currentInput, paper, geminiApiKey)`.
   * The paper lands in the history slot, the key in the paper slot, and the
   * key slot is left `undefined`, so the guard of `getChatResponse` always
   * answers with the key prompt and no request is made. (The history slot
   * is not read before the guard returns.)
   */
  method AskAsWritten(currentInput: string, paper: Option<Paper>, geminiApiKey: Option<string>,
                      generate: seq<Content> -> GenerateOutcome)
    returns (reply: string, sent: Option<seq<Content>>)
    ensures reply == KeyPrompt && sent == None
  {
    reply, sent := GetChatResponse(currentInput, [], None, None, generate);
  }

  /**
   * The call as evidently intended: the message, the history as it stood
   * before this send (the welcome message included, which `getChatResponse`
   * drops), the paper and the key.
   */
  method Ask(currentInput: string, history: seq<Message>, paper: Option<Paper>, geminiApiKey: Option<string>,
             generate: seq<Content> -> GenerateOutcome)
    returns (reply: string, sent: Option<seq<Content>>)
    ensures Truthy(geminiApiKey) ==> sent == Some(Contents(currentInput, history, paper, SystemPrompt(paper)))
    ensures !Truthy(geminiApiKey) ==> sent == None
    ensures reply == ChatResponse(currentInput, history, paper, geminiApiKey, generate)
  {
    reply, sent := GetChatResponse(currentInput, history, paper, geminiApiKey, generate);
  }

  /**
   * With a key, the intended call sends the earlier user messages to the
   * model and the reply follows what the model answers; the call as written
   * gives the key prompt whatever the model would say.
   */
  lemma AskDiffers(currentInput: string, history: seq<Message>, paper: Option<Paper>, key: string, answer: string)
    requires key != "" && answer != ""
    ensures var generate := (c: seq<Content>) => Generated(Some(answer));
      && ChatResponse(currentInput, history, paper, Some(key), generate) == Trim(answer)
      && ChatResponse(currentInput, [], None, None, generate) == KeyPrompt
  {
  }

  /** The panel's state. */
  class ChatPanel {
    const paper: Option<Paper>
    const geminiApiKey: Option<string>
    var messages: seq<Message>
    var inputValue: string
    var isLoading: bool

    /** Lines 14-25: one assistant message with id '1', an empty input, not loading. */
    constructor (paper: Option<Paper>, geminiApiKey: Option<string>, now: int)
      ensures this.paper == paper && this.geminiApiKey == geminiApiKey
      ensures messages == [Message(WelcomeId, Assistant, WelcomeText(paper), now)]
      ensures inputValue == "" && !isLoading
    {
      this.paper := paper;
      this.geminiApiKey := geminiApiKey;
      messages := [Message(WelcomeId, Assistant, WelcomeText(paper), now)];
      inputValue := "";
      isLoading := false;
    }

    /** The input box's `onChange`. */
    method SetInputValue(value: string)
      modifies this
      ensures inputValue == value
      ensures messages == old(messages) && isLoading == old(isLoading)
    {
      inputValue := value;
    }

    /**
     * Lines 28-40, up to the call: a blank input changes nothing and gives
     * `None`; otherwise the user message with the untrimmed input is
     * appended, the input is cleared, loading is set, and the input is
     * returned.
     */
    method BeginSend(now: int) returns (currentInput: Option<string>)
      modifies this
      ensures Trim(old(inputValue)) == "" ==>
                currentInput == None && messages == old(messages) && inputValue == old(inputValue) && isLoading == old(isLoading)
      ensures Trim(old(inputValue)) != "" ==>
                && currentInput == Some(old(inputValue))
                && messages == old(messages) + [Message(IntToString(now), User, old(inputValue), now)]
                && inputValue == "" && isLoading
    {
      if Trim(inputValue) == "" {
        return None;
      }
      var userMessage := Message(IntToString(now), User, inputValue, now);
      messages := messages + [userMessage];
      currentInput := Some(inputValue);
      inputValue := "";
      isLoading := true;
    }

    /** Lines 45-64: the reply is appended as an assistant message and loading is cleared. */
    method FinishSend(reply: string, later: int)
      modifies this
      ensures messages == old(messages) + [Message(IntToString(later + 1), Assistant, reply, later)]
      ensures inputValue == old(inputValue) && !isLoading
    {
      var assistantMessage := Message(IntToString(later + 1), Assistant, reply, later);
      messages := messages + [assistantMessage];
      isLoading := false;
    }

    /**
     * `handleSendMessage`, with the call as intended: a blank input changes
     * nothing; otherwise exactly two messages are appended, the user's
     * untrimmed input and the reply to it, the input is cleared and loading
     * ends cleared.
     */
    method HandleSendMessage(now: int, later: int, generate: seq<Content> -> GenerateOutcome)
      modifies this
      ensures Trim(old(inputValue)) == "" ==>
                messages == old(messages) && inputValue == old(inputValue) && isLoading == old(isLoading)
      ensures Trim(old(inputValue)) != "" ==>
                && messages == old(messages)
                     + [Message(IntToString(now), User, old(inputValue), now)]
                     + [Message(IntToString(later + 1), Assistant,
                                ChatResponse(old(inputValue), old(messages), paper, geminiApiKey, generate), later)]
                && inputValue == "" && !isLoading
    {
      var history := messages;
      var currentInput := BeginSend(now);
      if currentInput.None? {
        return;
      }
      var reply, _ := Ask(currentInput.value, history, paper, geminiApiKey, generate);
      FinishSend(reply, later);
    }

    /**
     * `handleSendMessage` as written, with the call of line 43: a blank
     * input changes nothing; otherwise the user message is appended and
     * the reply appended after it is always the key prompt.
     */
    method HandleSendMessageAsWritten(now: int, later: int, generate: seq<Content> -> GenerateOutcome)
      modifies this
      ensures Trim(old(inputValue)) == "" ==>
                messages == old(messages) && inputValue == old(inputValue) && isLoading == old(isLoading)
      ensures Trim(old(inputValue)) != "" ==>
                && messages == old(messages)
                     + [Message(IntToString(now), User, old(inputValue), now)]
                     + [Message(IntToString(later + 1), Assistant, KeyPrompt, later)]
                && inputValue == "" && !isLoading
    {
      var currentInput := BeginSend(now);
      if currentInput.None? {
        return;
      }
      var reply, _ := AskAsWritten(currentInput.value, paper, geminiApiKey, generate);
      FinishSend(reply, later);
    }

    /** `handleKeyPress`: Enter without Shift sends; it reports whether the default action was prevented. */
    method HandleKeyPress(key: string, shiftKey: bool, now: int, later: int, generate: seq<Content> -> GenerateOutcome)
      returns (prevented: bool)
      modifies this
      ensures prevented <==> key == "Enter" && !shiftKey
      ensures !prevented ==> messages == old(messages) && inputValue == old(inputValue) && isLoading == old(isLoading)
      ensures prevented && Trim(old(inputValue)) == "" ==>
                messages == old(messages) && inputValue == old(inputValue) && isLoading == old(isLoading)
      ensures prevented && Trim(old(inputValue)) != "" ==>
                && messages == old(messages)
                     + [Message(IntToString(now), User, old(inputValue), now)]
                     + [Message(IntToString(later + 1), Assistant,
                                ChatResponse(old(inputValue), old(messages), paper, geminiApiKey, generate), later)]
                && inputValue == "" && !isLoading
    {
      prevented := key == "Enter" && !shiftKey;
      if prevented {
        HandleSendMessage(now, later, generate);
      }
    }
  }
}
