# Wodehouse AI Reader: reading session, pagination and summary retries

This project models the logic core of the reader's single React component
file, `App.jsx`. It covers three parts:

- **Pagination** (`pagination.dfy`, module `Pagination`). A chapter is laid out
  in CSS columns with a 50 px gap, whose requested width is the content pane's
  width. The page count
  is `max(1, ceil(scrollWidth / clientWidth))`. It is recomputed only when the
  pane width is positive. Page `p` is shown by translating the text
  `(p - 1) * (clientWidth + 50)` pixels to the left. The widths are whole DOM
  pixels, so everything is natural-number arithmetic with exact ceiling
  division.
- **Summary prompt and retry policy** (`prompt.dfy`, `gemini.dfy`).
  - The prompt is a fixed instruction followed by the current chapter's
    paragraphs joined with single spaces.
  - `callGeminiAPI` makes at most three attempts and returns on the first OK
    reply whose body parses to anything but `null`. It sleeps 1000 ms and then 2000 ms between failed
    attempts, and throws after the third failure without sleeping again.
  - Each attempt's outcome is an input. The sleeps are recorded in a ghost
    sequence.
- **Reading session** (`session.dfy`, class `Session.ReadingSession`).
  - The fields are the `useState` variables of `App` and `ReadingView`, except
    `isSettingsOpen` and `isDarkMode` (App.jsx:10, 14), which belong to the
    settings panel and the theme and are read by no modelled handler.
  - The methods are the handlers: book selection, the completion of the book
    and library fetches, back to library, chapter and page navigation, the
    chapter-change effect, resize measurements, and the summary handler.
  - Each method states the complete new state as an update of the old one
    (`State() == old(State()).(field := …)`), so every field not named is
    unchanged.

`library.dfy` holds the documents (manifest entries, books, chapters) and
`wrappers.dfy` the `Option` type. `scenarios.dfy` walks through a few concrete
sessions, each verified against the contracts alone:
- opening a one-chapter book;
- a summary request answered by three HTTP 500 replies;
- the failed-load path as written;
- a resize that leaves the current page past the last page.

The code does less than one might assume in three places; the model follows
the code:
- Pages are only kept within `[1, totalPages]` by navigation. A resize recounts
  the pages without clamping the current page (`OnResize`,
  `Scenarios.ResizePastLastPage`).
- The page reset on a chapter change is not part of the chapter handlers. It
  is done by the `ReadingView` effect that runs afterwards (`OnChapterChange`).
- A failed book load does not leave the library view in place. See Findings.
- The page offset assumes columns exactly as wide as the pane, but the text's
  padding makes them narrower. See Findings.

## Model

| member | source | states |
|---|---|---|
| Pagination.CeilDiv | App.jsx:161 | `Math.ceil(n / d)` on whole numbers is the least `q` with `n <= q * d` |
| Pagination.PageCount | App.jsx:161 | the page count is at least 1, the pages cover the text, and one page fewer would not (unless it is 1) |
| Pagination.PagesAfterMeasure | App.jsx:158-163 | a measurement with pane width 0 keeps the old count; otherwise the count is the covering count of `PageCount`, so at least 1 |
| Pagination.PageCountIsLeast | App.jsx:161 | no count of at least one page that covers the text is smaller than the page count |
| Pagination.SinglePageIff | App.jsx:161 | the count is 1, and the page controls of lines 254-260 are hidden, exactly when the text is no wider than the pane |
| Pagination.ShowsPageControls | App.jsx:254 | the definition of the `totalPages > 1` guard of the page controls; `SinglePageIff` states when it holds for a measured count |
| Pagination.PageCountMonotone | App.jsx:161 | wider text never gives fewer pages |
| Pagination.PageOffset | App.jsx:238 | the offset is 0 for page 1 and while the pane is not mounted (`NaN` falls back to 0), and never negative for pages from 1 on |
| Pagination.OffsetIsColumnStart | App.jsx:236-238 | page `p` is translated to the left edge of column `p - 1` of the layout the formula is written for: columns of the requested width, the pane's, with a 50 px gap |
| Pagination.OffsetStep | App.jsx:238 | each further page adds exactly the pane width plus 50 to the offset |
| Pagination.OffsetIncreasing | App.jsx:238 | a later page always has a larger offset |
| Pagination.OffsetDriftsWithPadding | App.jsx:233-238 | against the columns actually laid out in the padded text element, page `p` puts its column at `pad - 2 * pad * (p - 1)`, left of the pane from page 2 on whenever there is padding |
| Pagination.PaddedPageOffset | App.jsx:233-238 | the corrected offset, one content-box width plus the gap per page, is the offset as written when there is no padding |
| Pagination.PaddedOffsetShowsColumn | App.jsx:233-238 | with the corrected offset every page shows its column at the padding inset, as page 1 does |
| Prompt.Join | App.jsx:73 | joining no paragraphs gives the empty string, joining one gives that paragraph |
| Prompt.JoinLength | App.jsx:73 | the joined text is as long as the paragraphs plus one separator per gap |
| Prompt.JoinHoldsPart | App.jsx:73 | every paragraph appears unchanged at its computed place in the joined text |
| Prompt.JoinSeparates | App.jsx:73 | the separator stands right after every paragraph but the last |
| Prompt.JoinAppend | App.jsx:73 | joining two non-empty runs of paragraphs puts exactly one separator between them |
| Prompt.ChapterText | App.jsx:73 | the chapter text of no paragraphs is empty; otherwise it is as long as the paragraphs plus one space between each two |
| Prompt.SummaryPrompt | App.jsx:73-74 | the prompt is the fixed instruction followed by the chapter text, and nothing else |
| Prompt.PromptHoldsParagraph | App.jsx:73-74 | each paragraph of the chapter appears verbatim in the prompt, at its place after the instruction |
| Gemini.ReplyText | App.jsx:347-349 | a successful reply yields its text, or "No summary available." when the text is missing or empty; never the empty string |
| Gemini.IsOk | App.jsx:347 | the definition of `response.ok`, a status from 200 to 299; `CallGemini` states what the loop does with it |
| Gemini.Succeeds | App.jsx:347-349 | the definition of an attempt that returns a summary: an OK reply whose body parses to anything but `null`; `CallGemini` states that the first such attempt ends the call |
| Gemini.FailureOf | App.jsx:351-357 | the definition of the error a failed attempt raises (the fetch rejection, the status error, or the body error); `CallGemini` states that the third attempt's is the one thrown |
| Gemini.CallGemini | App.jsx:335-364 | 1 to 3 attempts; a summary exactly when one of the three attempts succeeds, taken from the first success; otherwise the error of the third attempt; the delays slept are the back-off sequence for the failed attempts before the last; the throw after the loop is unreachable |
| Gemini.BackoffDelays | App.jsx:337-360 | the two sleeps the loop can make are 1000 ms and 2000 ms |
| Gemini.BackoffDoubles | App.jsx:360 | each back-off delay is twice the one before it |
| Gemini.BackoffTotal | App.jsx:359-360 | `n` sleeps wait `1000 * (2^n - 1)` ms in all, so success on attempt `k` follows `1000 * (2^(k-1) - 1)` ms of waiting |
| Session.FailedLoadAsWrittenIsUnsafe | App.jsx:56-59 | from a selection with no book loaded, clearing only the loading flag shows the reading view with no book |
| Session.ShowsReadingView | App.jsx:87-98 | the definition of when `App` renders the reading view; `ViewSafe` is stated with it, `BookLoaded` preserves `ViewSafe`, and `FailedLoadAsWrittenIsUnsafe` and `BookLoadedAsWritten` show how the source breaks it |
| Session.ReadingSession.constructor | App.jsx:5-14 | the initial state: nothing selected or loaded, chapter 0, loading, panel closed, page 1 of 1 |
| Session.ReadingSession.LibraryLoaded | App.jsx:25-40 | the manifest is stored on success and kept on failure; the loading flag is cleared either way |
| Session.ReadingSession.SelectBook | App.jsx:42-44 | called from the library grid, where no book is loaded; the entry is selected and the loading screen shown; nothing else changes, and a pending selection has no book loaded |
| Session.ReadingSession.BookLoadedAsWritten | App.jsx:51-59 | completes a pending selection: success stores the book, selects chapter 0, clears loading and remounts the view at page 1 of 1; failure only clears loading, which always shows a reading view without a book |
| Session.ReadingSession.BookLoaded | App.jsx:51-59 | as the source on success; on failure it also returns to the library, so the reading view is never shown without a book |
| Session.ReadingSession.BackToLibrary | App.jsx:62-65 | the selected book and the loaded book are both cleared; nothing else changes |
| Session.ReadingSession.GoToNextChapter | App.jsx:185-189 | the chapter index goes up by one when it is below the last chapter, and nothing else changes; at the last chapter nothing changes |
| Session.ReadingSession.GoToPreviousChapter | App.jsx:191-195 | the chapter index goes down by one when it is above 0, and nothing else changes; at chapter 0 nothing changes |
| Session.ReadingSession.GoToNextPage | App.jsx:197-201 | the page goes up by one when it is below the page count, and nothing else changes; otherwise nothing changes; `currentPage <= totalPages` is preserved |
| Session.ReadingSession.GoToPreviousPage | App.jsx:203-207 | the page goes down by one when it is above 1, and nothing else changes; at page 1 nothing changes; `currentPage <= totalPages` is preserved |
| Session.ReadingSession.OnChapterChange | App.jsx:153-183 | a chapter change puts the view on page 1 and recounts the pages from the measured widths |
| Session.ReadingSession.OnResize | App.jsx:154-172 | a resize recounts the pages and leaves the current page as it is, even past the new last page |
| Session.ReadingSession.HandleAiSummary | App.jsx:67-85 | without a book nothing happens. Otherwise the panel opens, and the prompt sent is the instruction followed by the current chapter's joined paragraphs. The panel then shows the first successful reply's text, or the apology when all three attempts fail, and its spinner is off |

## Left out

- The used column width is not part of the page count or the session: the text's padding (App.jsx:233) makes each column the pane width less both paddings, not the requested pane width (App.jsx:236). `ColumnStart` and `OffsetIsColumnStart` describe the layout the offset formula assumes; the padded layout is modelled only for the offset (`PaddedColumnStart`, see Findings). The page count measured from `scrollWidth` is modelled as written, without deriving `scrollWidth` from the columns.
- DOM measurement (`requestAnimationFrame`, `ResizeObserver`, refs, `clientWidth`, `scrollWidth`): the pane and text widths are natural-number parameters of `OnChapterChange` and `OnResize`.
- `fetch`, JSON parsing, the request payload and URL, and `console.error` are I/O. Each fetch result is an input (`Option` for the documents, a sequence of `Attempt`s for the summary request). `setTimeout` is not waited for; its delays are recorded.
- Session.ReadingSession.OnChapterChange: the page reset and the measurement happen in one step. In the source the measurement happens a frame later. Interleavings are not modelled: a resize racing a chapter change, a stale book fetch that resolves after a newer selection, or overlapping summary requests where the last to resolve wins.
- Gemini.CallGemini: requires an outcome for each of the three possible attempts. Those not reached are ignored.
- Rendering is not modelled:
  - `Header`, `LibraryView`, `SettingsPanel`, `AiPanel` (including closing the panel, App.jsx:108) and `LoadingScreen`;
  - the dark-mode toggle and its `classList` effect (App.jsx:16-23);
  - the disabled state of the buttons;
  - CSS columns and transitions.
- The `ReadingView` page fields live in the session object even while the view is unmounted. Its remount after a successful book load is modelled by resetting them to 1 of 1.
- A book document with no chapters makes `ReadingView` throw on its first render, reading `chapter.title` of an undefined chapter at App.jsx:219; with no error boundary the whole tree unmounts, so the Summarize button of App.jsx:250 is never shown for such a book. The model accepts such a document and keeps the chapter index at 0 for it, but does not model the crash of the view. The zero-chapter branch of `HandleAiSummary` describes the handler on its own (it would throw at App.jsx:73 with the panel open and the spinner on), a path the reader cannot reach.

## Findings

| source | as written | input that shows it | evidently intended | confidence | as-written member | corrected member |
|---|---|---|---|---|---|---|
| App.jsx:56-59 | a failed book fetch only clears `isLoading`. `selectedBook` stays set and `bookContent` stays null, so `App` renders `ReadingView` with `book = null`, and line 147 reads `book.chapters` of null | from the library grid, select any entry whose content fetch fails (for example HTTP 404) | the loading screen clears and the previous view, the library grid, is shown again | not executed; high (`bookContent` is always null while a selection is pending, because `handleBackToLibrary` clears it; `Valid` carries this as an invariant) | Session.ReadingSession.BookLoadedAsWritten | Session.ReadingSession.BookLoaded |
| App.jsx:233-238 | the text element has `p-4 md:p-6` padding, so with a requested column width equal to the pane width the browser lays out columns as wide as the content box, `clientWidth - 2 * pad`, spaced `clientWidth - 2 * pad + 50` apart; the translation moves `clientWidth + 50` per page, so the shown column drifts `2 * pad` px further left on each page | a chapter of three or more pages at `p-4` (pad 16): on page 3 the column starts 48 px left of the pane's edge, its first characters hidden | each page shows its column at the padding inset, as page 1 does: a translation of `(p - 1) * (clientWidth - 2 * pad + 50)` | not executed; medium (rests on the CSS multi-column rule that a requested column width wider than the content box gives one column of the content-box width) | Pagination.OffsetDriftsWithPadding | Pagination.PaddedPageOffset |
