/**
 * The arithmetic of the paginated reading surface: the chapter text is laid out
 * in CSS columns with a fixed gap, their requested width being the content
 * pane's width, and the reader shows one column ("page") at a time by
 * translating the text to the left.
 *
 * The widths are the DOM's `clientWidth` and `scrollWidth`, which are whole
 * numbers of pixels, so every quantity here is a natural number and the page
 * count is exact integer ceiling division.
 */
module Pagination {
  import opened Wrappers

  /** The `columnGap` of the text element, in pixels. */
  const COLUMN_GAP: nat := 50

  /** `Math.ceil(n / d)` for whole numbers: the least `q` with `n <= q * d`. */
  function CeilDiv(n: nat, d: nat): (q: nat)
    requires d > 0
    ensures n <= q * d
    ensures q == 0 || (q - 1) * d < n
  {
    var f := n / d;
    assert n == f * d + n % d;
    if n % d == 0 then f
    else
      assert (f + 1) * d == f * d + d;
      f + 1
  }

  /**
   * The page count the reader computes from the pane width and the text's
   * scroll width: `max(1, ceil(textWidth / paneWidth))`. It is the least
   * page count, at least one, whose pages together are as wide as the text.
   */
  function PageCount(textWidth: nat, paneWidth: nat): (pages: nat)
    requires paneWidth > 0
    ensures pages >= 1
    ensures textWidth <= pages * paneWidth
    ensures pages == 1 || (pages - 1) * paneWidth < textWidth
  {
    var q := CeilDiv(textWidth, paneWidth);
    if q < 1 then 1 else q
  }

  /**
   * The total page count after one measurement: a pane that is not yet laid
   * out (width 0) skips the recomputation and keeps the previous count.
   */
  function PagesAfterMeasure(totalPages: nat, paneWidth: nat, textWidth: nat): (pages: nat)
    ensures paneWidth == 0 ==> pages == totalPages
    ensures paneWidth > 0 ==> pages >= 1 && textWidth <= pages * paneWidth
    ensures paneWidth > 0 ==> pages == 1 || (pages - 1) * paneWidth < textWidth
  {
    if paneWidth > 0 then PageCount(textWidth, paneWidth) else totalPages
  }

  /** The page-navigation controls are rendered only when there is more than one page. */
  predicate ShowsPageControls(totalPages: nat) {
    totalPages > 1
  }

  /**
   * The horizontal translation that brings `page` into view. `paneWidth` is
   * `None` while the pane element is not mounted: then `clientWidth + 50` is
   * `NaN` in the source, `NaN || 0` is 0, and the text is not moved.
   */
  function PageOffset(page: int, paneWidth: Option<nat>): (offset: int)
    ensures paneWidth.None? ==> offset == 0
    ensures page == 1 ==> offset == 0
    ensures page >= 1 ==> offset >= 0
  {
    match paneWidth
    case None => 0
    case Some(w) =>
      assert page >= 1 ==> (page - 1) * (w + COLUMN_GAP) >= 0;
      (page - 1) * (w + COLUMN_GAP)
  }

  /**
   * Where column `k` (counting from 0) of a multi-column layout starts: each
   * column is `w` wide, the width requested for it, and followed by the gap.
   * This is the layout the page offset is written for.
   */
  function ColumnStart(k: nat, w: nat): nat {
    if k == 0 then 0 else ColumnStart(k - 1, w) + w + COLUMN_GAP
  }

  /** Page `p` is scrolled exactly to the left edge of column `p - 1` of that layout. */
  lemma {:induction false} OffsetIsColumnStart(p: nat, w: nat)
    requires p >= 1
    ensures PageOffset(p, Some(w)) == ColumnStart(p - 1, w)
  {
    if p > 1 {
      OffsetIsColumnStart(p - 1, w);
      assert (p - 1) * (w + COLUMN_GAP) == (p - 2) * (w + COLUMN_GAP) + w + COLUMN_GAP;
    }
  }

  /** Each further page moves the text by exactly one pane width plus the gap. */
  lemma OffsetStep(p: int, w: nat)
    ensures PageOffset(p + 1, Some(w)) == PageOffset(p, Some(w)) + w + COLUMN_GAP
  {
    assert p * (w + COLUMN_GAP) == (p - 1) * (w + COLUMN_GAP) + w + COLUMN_GAP;
  }

  /** Later pages are further to the right: offsets strictly increase with the page. */
  lemma {:induction false} OffsetIncreasing(p: int, q: int, w: nat)
    requires p < q
    ensures PageOffset(p, Some(w)) < PageOffset(q, Some(w))
    decreases q - p
  {
    OffsetStep(q - 1, w);
    if p < q - 1 {
      OffsetIncreasing(p, q - 1, w);
    }
  }

  /**
   * Where column `k` of the text starts, from the pane's left edge before any
   * translation, when the text element has padding `pad` on each side (16 px
   * for `p-4`, 24 px for `md:p-6`). The requested column width, the pane width
   * `w`, is wider than the content box `w - 2 * pad`, so each column is as
   * wide as the content box, and the first starts after the left padding.
   */
  function PaddedColumnStart(k: nat, w: nat, pad: nat): int
    requires 2 * pad <= w
  {
    if k == 0 then pad else PaddedColumnStart(k - 1, w, pad) + (w - 2 * pad) + COLUMN_GAP
  }

  /**
   * The offset as written, against the padded columns: page `p` brings column
   * `p - 1` to `pad - 2 * pad * (p - 1)` from the pane's left edge, so from
   * page 2 on, any padding puts the column's start left of the pane, cut off.
   */
  lemma {:induction false} OffsetDriftsWithPadding(p: nat, w: nat, pad: nat)
    requires p >= 1 && 2 * pad <= w
    ensures PaddedColumnStart(p - 1, w, pad) - PageOffset(p, Some(w)) == pad - 2 * pad * (p - 1)
    ensures pad > 0 && p >= 2 ==> PaddedColumnStart(p - 1, w, pad) < PageOffset(p, Some(w))
  {
    if p > 1 {
      OffsetDriftsWithPadding(p - 1, w, pad);
      OffsetStep(p - 1, w);
    }
  }

  /**
   * The offset corrected for the padding: one content-box width plus the gap
   * per page. Without padding it is the offset as written.
   */
  function PaddedPageOffset(page: nat, w: nat, pad: nat): (offset: nat)
    requires page >= 1 && 2 * pad <= w
    ensures pad == 0 ==> offset == PageOffset(page, Some(w))
  {
    (page - 1) * (w - 2 * pad + COLUMN_GAP)
  }

  /** With the corrected offset, every page shows its column at the padding inset, as page 1 does. */
  lemma {:induction false} PaddedOffsetShowsColumn(p: nat, w: nat, pad: nat)
    requires p >= 1 && 2 * pad <= w
    ensures PaddedColumnStart(p - 1, w, pad) - PaddedPageOffset(p, w, pad) == pad
  {
    if p > 1 {
      PaddedOffsetShowsColumn(p - 1, w, pad);
      assert (p - 1) * (w - 2 * pad + COLUMN_GAP) == (p - 2) * (w - 2 * pad + COLUMN_GAP) + (w - 2 * pad + COLUMN_GAP);
    }
  }

  /** The page count is the least count of at least one page that covers the text. */
  lemma PageCountIsLeast(textWidth: nat, paneWidth: nat, p: nat)
    requires paneWidth > 0 && p >= 1 && textWidth <= p * paneWidth
    ensures PageCount(textWidth, paneWidth) <= p
  {
    var pages := PageCount(textWidth, paneWidth);
    MulMonotone(pages - 1, p, paneWidth);
  }

  /** Multiplying by a natural number keeps the order of the factors. */
  lemma MulMonotone(a: int, b: int, w: nat)
    ensures a >= b ==> a * w >= b * w
  {
    assert a * w - b * w == (a - b) * w;
  }

  /** Text no wider than the pane is exactly one page, and only such text is. */
  lemma SinglePageIff(textWidth: nat, paneWidth: nat)
    requires paneWidth > 0
    ensures PageCount(textWidth, paneWidth) == 1 <==> textWidth <= paneWidth
    ensures !ShowsPageControls(PageCount(textWidth, paneWidth)) <==> textWidth <= paneWidth
  {
    if textWidth <= paneWidth {
      PageCountIsLeast(textWidth, paneWidth, 1);
    }
  }

  /** Wider text never gives fewer pages. */
  lemma PageCountMonotone(t1: nat, t2: nat, paneWidth: nat)
    requires paneWidth > 0 && t1 <= t2
    ensures PageCount(t1, paneWidth) <= PageCount(t2, paneWidth)
  {
    PageCountIsLeast(t1, paneWidth, PageCount(t2, paneWidth));
  }
}
