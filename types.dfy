/**
 * The records shared by the search page, the paper view and the chat:
 * a paper as the arXiv feed describes it, with the text that extraction
 * added, and one chat message.
 */
module Types {
  import opened JsRuntime

  /**
   * A paper (`summary` is the feed's `abstract`). `fullText` and `textExtractionError` are filled in by the
   * paper view once text extraction has finished.
   */
  datatype Paper = Paper(
    id: string,
    title: string,
    authors: seq<string>,
    summary: string,
    category: string,
    publishedDate: string,
    pdfUrl: string,
    citations: Option<int>,
    fullText: Option<string>,
    textExtractionError: Option<string>)

  datatype MessageType = User | Assistant

  /** A chat message. The timestamp is the clock reading, in milliseconds, when it was made. */
  datatype Message = Message(id: string, kind: MessageType, content: string, timestamp: int)
}
