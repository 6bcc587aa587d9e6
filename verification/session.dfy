/**
 * The reading session: the component state of the reader (`App` and the
 * `ReadingView` it renders) and the handlers that change it.
 *
 * Every `useState` variable is a field, except `isSettingsOpen` and
 * `isDarkMode` of the settings panel, which no modelled handler reads. Every
 * handler is a method that makes the updates its setters make. A fetch or a layout measurement that the
 * source waits for is an input of the method that handles its completion:
 *  - `LibraryLoaded` and `BookLoaded` complete the two document fetches;
 *  - `OnChapterChange` is the `ReadingView` effect that runs when the shown
 *    chapter changes;
 *  - `OnResize` is a measurement reported by the resize observer.
 * The handlers run one at a time, in the order the caller gives.
 */
module Session {
  import opened Wrappers
  import opened Library
  import opened Pagination
  import opened Prompt
  import opened Gemini

  /** A snapshot of every field of the session, for stating what a handler leaves alone. */
  datatype SessionState = SessionState(
    library: seq<LibraryEntry>,
    selectedBook: Option<LibraryEntry>,
    bookContent: Option<Book>,
    currentChapterIndex: nat,
    isLoading: bool,
    isAiPanelOpen: bool,
    aiResponse: string,
    isAiLoading: bool,
    currentPage: nat,
    totalPages: nat)

  /** The chapter index names a chapter of the book (and is 0 for a book without chapters). */
  predicate ChapterInRange(index: nat, book: Book) {
    if |book.chapters| == 0 then index == 0 else index < |book.chapters|
  }

  /** `App` renders the `ReadingView` (not the loading screen and not the library grid). */
  predicate ShowsReadingView(s: SessionState) {
    !s.isLoading && s.selectedBook.Some?
  }

  /** Whenever the `ReadingView` is rendered, it has a book to read `chapters` from. */
  predicate ViewSafe(s: SessionState) {
    ShowsReadingView(s) ==> s.bookContent.Some?
  }

  /** A failed book load, as written, shows the reading view with no book whenever no book was loaded before. */
  lemma FailedLoadAsWrittenIsUnsafe(s: SessionState)
    requires s.selectedBook.Some? && s.bookContent.None?
    ensures !ViewSafe(s.(isLoading := false))
  {
  }

  class ReadingSession {
    // `App` state
    var library: seq<LibraryEntry>
    var selectedBook: Option<LibraryEntry>
    var bookContent: Option<Book>
    var currentChapterIndex: nat
    var isLoading: bool
    var isAiPanelOpen: bool
    var aiResponse: string
    var isAiLoading: bool
    // `ReadingView` state
    var currentPage: nat
    var totalPages: nat

    ghost function State(): SessionState
      reads this
    {
      SessionState(library, selectedBook, bookContent, currentChapterIndex, isLoading,
                   isAiPanelOpen, aiResponse, isAiLoading, currentPage, totalPages)
    }

    /**
     * Pages are counted from 1, there is always at least one, and the chapter
     * index is in range. A book is only ever loaded for the selected entry,
     * and not yet while its fetch is pending: the fetch starts in
     * `handleSelectBook`, from the library grid, where no book is loaded.
     */
    ghost predicate Valid()
      reads this
    {
      && currentPage >= 1
      && totalPages >= 1
      && (bookContent.Some? ==> ChapterInRange(currentChapterIndex, bookContent.value))
      && (selectedBook.None? ==> bookContent.None?)
      && (isLoading && selectedBook.Some? ==> bookContent.None?)
    }

    /** The initial values of the `useState` calls; the library fetch is still pending. */
    constructor ()
      ensures Valid() && ViewSafe(State())
      ensures State() == SessionState([], None, None, 0, true, false, "", false, 1, 1)
    {
      library, selectedBook, bookContent, currentChapterIndex := [], None, None, 0;
      isLoading, isAiPanelOpen, aiResponse, isAiLoading := true, false, "", false;
      currentPage, totalPages := 1, 1;
    }

    /**
     * The library manifest fetch completes: the manifest on success, `None` on
     * failure. Either way the loading screen goes away. It completes before any
     * book can be chosen, since the library grid is only shown after it.
     */
    method LibraryLoaded(manifest: Option<seq<LibraryEntry>>)
      requires Valid() && ViewSafe(State())
      requires selectedBook.None?
      modifies this
      ensures Valid() && ViewSafe(State())
      ensures State() == old(State()).(
        library := if manifest.Some? then manifest.value else old(library),
        isLoading := false)
    {
      if manifest.Some? {
        library := manifest.value;
      }
      isLoading := false;
    }

    /**
     * `handleSelectBook`, up to the fetch: the book is selected and the loading
     * screen shown. It is called from the library grid, which `App` renders
     * only when it is not loading and no book is selected.
     */
    method SelectBook(entry: LibraryEntry)
      requires Valid()
      requires !isLoading && selectedBook.None?
      modifies this
      ensures Valid() && ViewSafe(State())
      ensures State() == old(State()).(selectedBook := Some(entry), isLoading := true)
    {
      selectedBook := Some(entry);
      isLoading := true;
    }

    /**
     * The book content fetch of `handleSelectBook` completes, as the source
     * writes it: on success the book is stored, the first chapter selected and
     * the loading screen removed; on failure only the loading screen is
     * removed, so the selection, for which no book is loaded, goes on to
     * render the reading view with no book.
     */
    method BookLoadedAsWritten(content: Option<Book>)
      requires Valid()
      requires isLoading && selectedBook.Some?
      modifies this
      ensures Valid()
      ensures content.Some? ==> State() == old(State()).(
        bookContent := content, currentChapterIndex := 0, isLoading := false,
        currentPage := 1, totalPages := 1)
      ensures content.None? ==> State() == old(State()).(isLoading := false)
      ensures content.None? ==> !ViewSafe(State())
    {
      match content
      case Some(book) =>
        bookContent := Some(book);
        currentChapterIndex := 0;
        isLoading := false;
        // The loading screen had replaced the `ReadingView`, which now mounts
        // afresh with its initial page state.
        currentPage, totalPages := 1, 1;
      case None =>
        isLoading := false;
    }

    /**
     * The book content fetch completes, with the failure path corrected to
     * return to the library grid, the view shown before the selection: the
     * reading view is never rendered without a book.
     */
    method BookLoaded(content: Option<Book>)
      requires Valid()
      requires isLoading && selectedBook.Some?
      modifies this
      ensures Valid() && ViewSafe(State())
      ensures content.Some? ==> State() == old(State()).(
        bookContent := content, currentChapterIndex := 0, isLoading := false,
        currentPage := 1, totalPages := 1)
      ensures content.None? ==> State() == old(State()).(selectedBook := None, isLoading := false)
    {
      match content
      case Some(book) =>
        bookContent := Some(book);
        currentChapterIndex := 0;
        isLoading := false;
        currentPage, totalPages := 1, 1;
      case None =>
        selectedBook := None;
        isLoading := false;
    }

    /** `handleBackToLibrary`: no book is selected or loaded any more. */
    method BackToLibrary()
      requires Valid() && ViewSafe(State())
      modifies this
      ensures Valid() && ViewSafe(State())
      ensures State() == old(State()).(selectedBook := None, bookContent := None)
    {
      selectedBook := None;
      bookContent := None;
    }

    /** `goToNextChapter`: one chapter on, unless this is the last chapter. */
    method GoToNextChapter()
      requires Valid() && bookContent.Some?
      modifies this
      ensures Valid()
      ensures old(currentChapterIndex) < |old(bookContent).value.chapters| - 1 ==>
        State() == old(State()).(currentChapterIndex := old(currentChapterIndex) + 1)
      ensures old(currentChapterIndex) >= |old(bookContent).value.chapters| - 1 ==> State() == old(State())
    {
      if currentChapterIndex < |bookContent.value.chapters| - 1 {
        currentChapterIndex := currentChapterIndex + 1;
      }
    }

    /** `goToPreviousChapter`: one chapter back, unless this is the first chapter. */
    method GoToPreviousChapter()
      requires Valid() && bookContent.Some?
      modifies this
      ensures Valid()
      ensures old(currentChapterIndex) > 0 ==>
        State() == old(State()).(currentChapterIndex := old(currentChapterIndex) - 1)
      ensures old(currentChapterIndex) == 0 ==> State() == old(State())
    {
      if currentChapterIndex > 0 {
        currentChapterIndex := currentChapterIndex - 1;
      }
    }

    /** `goToNextPage`: one page on, unless this is the last page. */
    method GoToNextPage()
      requires Valid()
      modifies this
      ensures Valid()
      ensures old(currentPage) < old(totalPages) ==> State() == old(State()).(currentPage := old(currentPage) + 1)
      ensures old(currentPage) >= old(totalPages) ==> State() == old(State())
      ensures old(currentPage) <= old(totalPages) ==> currentPage <= totalPages
    {
      if currentPage < totalPages {
        currentPage := currentPage + 1;
      }
    }

    /** `goToPreviousPage`: one page back, unless this is the first page. */
    method GoToPreviousPage()
      requires Valid()
      modifies this
      ensures Valid()
      ensures old(currentPage) > 1 ==> State() == old(State()).(currentPage := old(currentPage) - 1)
      ensures old(currentPage) == 1 ==> State() == old(State())
      ensures old(currentPage) <= old(totalPages) ==> currentPage <= totalPages
    {
      if currentPage > 1 {
        currentPage := currentPage - 1;
      }
    }

    /**
     * The `ReadingView` effect on a change of the shown chapter: back to page
     * 1, and the pages recounted from the measured pane and text widths.
     */
    method OnChapterChange(paneWidth: nat, textWidth: nat)
      requires Valid()
      modifies this
      ensures Valid()
      ensures State() == old(State()).(
        currentPage := 1,
        totalPages := PagesAfterMeasure(old(totalPages), paneWidth, textWidth))
    {
      totalPages := PagesAfterMeasure(totalPages, paneWidth, textWidth);
      currentPage := 1;
    }

    /**
     * A measurement after the pane is resized: the pages are recounted, and
     * the current page is kept as it is even if it is now past the last page.
     */
    method OnResize(paneWidth: nat, textWidth: nat)
      requires Valid()
      modifies this
      ensures Valid()
      ensures State() == old(State()).(totalPages := PagesAfterMeasure(old(totalPages), paneWidth, textWidth))
    {
      totalPages := PagesAfterMeasure(totalPages, paneWidth, textWidth);
    }

    /**
     * `handleAiSummary`, with the summary request answered by `outcomes`.
     * Returns the prompt sent, if any. Without a book it does nothing. For a
     * book without chapters, the handler on its own would throw while reading
     * the current chapter, before the request is made, leaving the panel open
     * and its spinner on; in the reader that case cannot arise, because the
     * reading view that holds the Summarize button has already failed to
     * render such a book.
     */
    method HandleAiSummary(outcomes: seq<Attempt>) returns (prompt: Option<string>)
      requires Valid()
      requires |outcomes| >= MAX_ATTEMPTS
      modifies this
      ensures Valid()
      ensures old(bookContent).None? ==> prompt.None? && State() == old(State())
      ensures old(bookContent).Some? && |old(bookContent).value.chapters| == 0 ==>
        prompt.None? &&
        State() == old(State()).(isAiPanelOpen := true, isAiLoading := true, aiResponse := "")
      ensures old(bookContent).Some? && |old(bookContent).value.chapters| > 0 ==>
        && prompt == Some(SummaryPrompt(old(bookContent).value.chapters[old(currentChapterIndex)]))
        && State() == old(State()).(isAiPanelOpen := true, isAiLoading := false, aiResponse := aiResponse)
        && ((exists k: nat :: FirstSuccessAt(outcomes, k) && aiResponse == ReplyText(outcomes[k]))
            || (AllAttemptsFail(outcomes) && aiResponse == APOLOGY))
    {
      if bookContent.None? {
        return None;
      }
      isAiPanelOpen := true;
      isAiLoading := true;
      aiResponse := "";
      var chapters := bookContent.value.chapters;
      if |chapters| == 0 {
        return None;
      }
      var text := SummaryPrompt(chapters[currentChapterIndex]);
      prompt := Some(text);
      var r, attempts, slept := CallGemini(outcomes);
      match r {
        case Summary(t) =>
          aiResponse := t;
        case Failed(_) =>
          aiResponse := APOLOGY;
      }
      isAiLoading := false;
    }
  }
}
