/**
 * Concrete sessions of the reader, walked through step by step and verified
 * against the handlers' contracts alone.
 */
module Scenarios {
  import opened Wrappers
  import opened Library
  import opened Pagination
  import opened Prompt
  import opened Gemini
  import opened Session

  const ENTRY := LibraryEntry(1, "A", "", "", "a.json")
  const BOOK := Book("A", "", [Chapter("Ch1", ["p1", "p2"])])

  /** A one-book library; the book opens at chapter 0, page 1, and its short chapter is one page. */
  method OpenBook() {
    var s := new ReadingSession();
    s.LibraryLoaded(Some([ENTRY]));
    s.SelectBook(ENTRY);
    assert s.isLoading;
    s.BookLoaded(Some(BOOK));
    s.OnChapterChange(600, 400);
    assert s.currentChapterIndex == 0 && s.currentPage == 1;
    SinglePageIff(400, 600);
    assert s.totalPages == 1 && !ShowsPageControls(s.totalPages);
    assert ShowsReadingView(s.State()) && ViewSafe(s.State());
    // With a single chapter, both chapter moves stay put.
    s.GoToNextChapter();
    s.GoToPreviousChapter();
    assert s.currentChapterIndex == 0;
  }

  /** Three HTTP 500 replies: the summary panel shows the apology, and the spinner is off. */
  method SummaryFailsThreeTimes() {
    var s := new ReadingSession();
    s.LibraryLoaded(Some([ENTRY]));
    s.SelectBook(ENTRY);
    s.BookLoaded(Some(BOOK));
    var error := Response(500, Malformed);
    var prompt := s.HandleAiSummary([error, error, error]);
    assert ["p1", "p2"][1..] == ["p2"];
    assert ChapterText(BOOK.chapters[0]) == "p1 p2";
    assert prompt == Some(PROMPT_PREFIX + "p1 p2");
    assert !FirstSuccessAt([error, error, error], 0);
    assert !FirstSuccessAt([error, error, error], 1);
    assert !FirstSuccessAt([error, error, error], 2);
    assert s.aiResponse == APOLOGY && s.isAiPanelOpen && !s.isAiLoading;
  }

  /** The source's failure path: a failed first load renders the reading view with no book. */
  method FailedLoadShowsNullBook() {
    var s := new ReadingSession();
    s.LibraryLoaded(Some([ENTRY]));
    s.SelectBook(ENTRY);
    s.BookLoadedAsWritten(None);
    assert ShowsReadingView(s.State()) && s.bookContent.None?;
  }

  /** A resize that shortens the chapter leaves the current page past the last page. */
  method ResizePastLastPage() {
    var s := new ReadingSession();
    s.LibraryLoaded(Some([ENTRY]));
    s.SelectBook(ENTRY);
    s.BookLoaded(Some(BOOK));
    s.OnChapterChange(500, 1000);
    assert s.totalPages == 2;
    s.GoToNextPage();
    assert s.currentPage == 2;
    s.OnResize(1000, 1000);
    SinglePageIff(1000, 1000);
    assert s.currentPage == 2 && s.totalPages == 1;
  }
}
