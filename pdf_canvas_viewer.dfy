/**
 * The page-by-page PDF canvas viewer (`src/components/PdfCanvasViewer.tsx`):
 * its state (the page count, one render status per page and a job-level
 * error) and the rendering job its effect starts for each URL.
 *
 * The fetch is the outcome it resolves to, pdf.js becomes `decode` (the
 * page count of the document, or the fault thrown) and `render(i)`, what
 * happens when page i is drawn. The job runs its steps in order; the
 * effect's cleanup can set `cancelled` between them.
 */
module PdfCanvasViewer {
  import opened JsRuntime

  /**
   * A page's render status. `Unset` is an empty slot, which a write past
   * the end of a JavaScript array leaves behind it.
   */
  datatype PageStatus = Pending | Rendered | Failed | Unset

  /** What drawing one page comes to. */
  datatype RenderOutcome =
    | Painted     // `page.render(...)` resolved
    | Thrown      // `getPage`, `getViewport` or `render` threw
    | NoCanvas    // there is no canvas element for the page yet
    | NoContext   // the canvas has no 2-D context

  const FetchFailedError := "Failed to fetch PDF"
  const DisplayError := "Could not display PDF."

  function Repeat(x: PageStatus, n: nat): (r: seq<PageStatus>)
    ensures |r| == n && forall k :: 0 <= k < n ==> r[k] == x
  {
    seq(n, _ => x)
  }

  /** `copy = [...s]; copy[k] = x`: an index past the end grows the array, with empty slots in between. */
  function WithStatus(s: seq<PageStatus>, k: nat, x: PageStatus): (r: seq<PageStatus>)
    ensures |r| == if k < |s| then |s| else k + 1
    ensures r[k] == x
    ensures forall j :: 0 <= j < |r| && j != k ==> r[j] == if j < |s| then s[j] else Unset
  {
    if k < |s| then s[k := x] else s + Repeat(Unset, k - |s|) + [x]
  }

  /** The status a page's outcome writes, if it writes one; a skipped page writes nothing. */
  function Written(o: RenderOutcome): Option<PageStatus> {
    match o
    case Painted => Some(Rendered)
    case Thrown => Some(Failed)
    case NoCanvas => None
    case NoContext => None
  }

  /** One page's effect on the statuses: page i writes only index i - 1. */
  function AfterPage(s: seq<PageStatus>, i: nat, o: RenderOutcome): seq<PageStatus>
    requires i >= 1
  {
    match Written(o)
    case None => s
    case Some(x) => WithStatus(s, i - 1, x)
  }

  /** The status page k + 1 ends with once the whole job has run. */
  function FinalStatus(o: RenderOutcome): PageStatus {
    match Written(o)
    case None => Pending
    case Some(x) => x
  }

  /** The statuses after the first `done` of n pages were drawn; the rest are still pending. */
  function StatusesAfter(n: nat, done: nat, render: nat -> RenderOutcome): (r: seq<PageStatus>)
    requires done <= n
  {
    seq(n, (k: nat) => if k < done then FinalStatus(render(k + 1)) else Pending)
  }

  /** The fetch and the decode (lines 32-35): the page count, or the job-level error message. */
  function LoadOutcome(fetched: FetchOutcome<seq<byte>>, decode: seq<byte> -> Result<nat, Fault>): Result<nat, string> {
    match fetched
    case Rejected(f) => Err(MessageOr(f, DisplayError))
    case Responded(r) =>
      if !r.Ok() then Err(FetchFailedError)
      else match r.body
        case Err(f) => Err(MessageOr(f, DisplayError))
        case Ok(bytes) =>
          match decode(bytes)
          case Err(f) => Err(MessageOr(f, DisplayError))
          case Ok(n) => Ok(n)
  }

  /** Drawing the pages in order from all-pending gives each page the status of its own outcome. */
  lemma {:induction false} PagesInOrder(n: nat, done: nat, render: nat -> RenderOutcome)
    requires done < n
    ensures AfterPage(StatusesAfter(n, done, render), done + 1, render(done + 1)) == StatusesAfter(n, done + 1, render)
  {
    var s := StatusesAfter(n, done, render);
    var t := AfterPage(s, done + 1, render(done + 1));
    assert s[done] == Pending;
    assert |t| == n;
    forall k | 0 <= k < n ensures t[k] == StatusesAfter(n, done + 1, render)[k] {
      if k != done && Written(render(done + 1)).Some? {
        assert t[k] == s[k];
      }
    }
  }

  /**
   * Failure isolation: whatever happens to page j, every other page ends
   * with the status of its own outcome; and a skipped page stays pending.
   */
  lemma PageIsolated(n: nat, render: nat -> RenderOutcome, j: nat, o: RenderOutcome)
    requires 1 <= j <= n
    ensures var other := (i: nat) => if i == j then o else render(i);
      forall k :: 0 <= k < n && k != j - 1 ==> StatusesAfter(n, n, other)[k] == StatusesAfter(n, n, render)[k]
    ensures StatusesAfter(n, n, render)[j - 1] == Pending <==> render(j) == NoCanvas || render(j) == NoContext
  {
  }

  /** What the viewer draws under a page's canvas. */
  datatype PageNote = RenderingNote | FailedNote | NoNote

  /** Lines 86-124: the error box, the loading spinner, or one canvas per page with its note. */
  datatype Screen = ErrorBox(message: string) | LoadingSpinner | PageList(notes: seq<PageNote>)

  /** The note under page k + 1: `pageStatuses[k]`, undefined past the end, shows no note. */
  function NoteFor(statuses: seq<PageStatus>, k: nat): PageNote {
    if k < |statuses| && statuses[k] == Pending then RenderingNote
    else if k < |statuses| && statuses[k] == Failed then FailedNote
    else NoNote
  }

  function ScreenFor(numPages: Option<nat>, statuses: seq<PageStatus>, error: Option<string>): (r: Screen)
    ensures r.ErrorBox? <==> Truthy(error)
    ensures r.LoadingSpinner? <==> !Truthy(error) && numPages.None?
    ensures r.PageList? ==> |r.notes| == numPages.value
                            && forall k :: 0 <= k < |r.notes| ==> r.notes[k] == NoteFor(statuses, k)
  {
    if Truthy(error) then ErrorBox(error.value)
    else if numPages.None? then LoadingSpinner
    else PageList(seq(numPages.value, (k: nat) => NoteFor(statuses, k)))
  }

  /**
   * Once a job has run to the end, page k + 1 shows "Rendering..." exactly
   * when nothing was drawn on it for want of a canvas or a context, and
   * "Failed to render page." exactly when drawing it threw.
   */
  lemma FinishedJobNotes(n: nat, render: nat -> RenderOutcome, k: nat)
    requires k < n
    ensures var notes := ScreenFor(Some(n), StatusesAfter(n, n, render), None).notes;
      && (notes[k] == RenderingNote <==> render(k + 1) == NoCanvas || render(k + 1) == NoContext)
      && (notes[k] == FailedNote <==> render(k + 1) == Thrown)
  {
  }

  class Viewer {
    var numPages: Option<nat>
    var statuses: seq<PageStatus>
    var error: Option<string>
    /** The effect's `cancelled`, for the job currently running. */
    var cancelled: bool

    constructor ()
      ensures numPages == None && statuses == [] && error == None && !cancelled
    {
      numPages, statuses, error, cancelled := None, [], None, false;
    }

    /** The effect's start for a new URL: a fresh flag, and the state cleared before any work. */
    method Reset()
      modifies this
      ensures numPages == None && statuses == [] && error == None && !cancelled
    {
      cancelled := false;
      numPages := None;
      error := None;
      statuses := [];
    }

    /** The effect's cleanup. */
    method Cancel()
      modifies this`cancelled
      ensures cancelled
    {
      cancelled := true;
    }

    /**
     * Lines 32-39: fetch and decode; a failure sets only the job-level error.
     * After a successful decode the flag is checked once, and only a job
     * not cancelled sets the page count and makes every status pending.
     */
    method Load(fetched: FetchOutcome<seq<byte>>, decode: seq<byte> -> Result<nat, Fault>) returns (pageCount: Option<nat>)
      modifies this`numPages, this`statuses, this`error
      ensures pageCount.Some? <==> LoadOutcome(fetched, decode).Ok? && !cancelled
      ensures pageCount.Some? ==> pageCount.value == LoadOutcome(fetched, decode).value
      ensures pageCount.Some? ==> numPages == pageCount && statuses == Repeat(Pending, pageCount.value)
      ensures pageCount.None? ==> numPages == old(numPages) && statuses == old(statuses)
      ensures error == if LoadOutcome(fetched, decode).Err? then Some(LoadOutcome(fetched, decode).error) else old(error)
    {
      pageCount := None;
      var loaded := LoadOutcome(fetched, decode);
      if loaded.Err? {
        error := Some(loaded.error);
        return;
      }
      if cancelled {
        return;
      }
      numPages := Some(loaded.value);
      statuses := Repeat(Pending, loaded.value);
      pageCount := Some(loaded.value);
    }

    /** Lines 43-70 for page i: copy the statuses and set index i - 1, or skip the page. The flag is not consulted. */
    method RenderPage(i: nat, outcome: RenderOutcome)
      requires i >= 1
      modifies this`statuses
      ensures statuses == AfterPage(old(statuses), i, outcome)
    {
      match outcome {
        case NoCanvas =>
        case NoContext =>
        case Painted =>
          var copy := statuses;
          statuses := WithStatus(copy, i - 1, Rendered);
        case Thrown =>
          var copy := statuses;
          statuses := WithStatus(copy, i - 1, Failed);
      }
    }

    /**
     * `renderPdf` run to the end without interruption: a job that loads
     * draws pages 1..numPages in order, and each page ends with the status
     * of its own outcome, pages on which nothing happened still pending.
     */
    method RenderPdf(fetched: FetchOutcome<seq<byte>>, decode: seq<byte> -> Result<nat, Fault>,
                     render: nat -> RenderOutcome)
      modifies this`numPages, this`statuses, this`error
      ensures LoadOutcome(fetched, decode).Err? ==>
                error == Some(LoadOutcome(fetched, decode).error)
                && numPages == old(numPages) && statuses == old(statuses)
      ensures LoadOutcome(fetched, decode).Ok? && cancelled ==>
                error == old(error) && numPages == old(numPages) && statuses == old(statuses)
      ensures LoadOutcome(fetched, decode).Ok? && !cancelled ==>
                var n := LoadOutcome(fetched, decode).value;
                error == old(error) && numPages == Some(n) && statuses == StatusesAfter(n, n, render)
    {
      var pageCount := Load(fetched, decode);
      if pageCount.None? {
        return;
      }
      var n := pageCount.value;
      assert statuses == StatusesAfter(n, 0, render);
      for i := 1 to n + 1
        invariant statuses == StatusesAfter(n, i - 1, render)
        invariant numPages == Some(n) && error == old(error)
      {
        assert statuses[i - 1] == Pending;
        PagesInOrder(n, i - 1, render);
        RenderPage(i, render(i));
      }
    }
  }
}
