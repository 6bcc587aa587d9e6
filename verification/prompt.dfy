/**
 * The text the summary request sends: the current chapter's paragraphs joined
 * into one string with single spaces (JavaScript's `Array.prototype.join(' ')`),
 * after a fixed instruction.
 */
module Prompt {
  import opened Library

  /** The instruction placed before the chapter text. */
  const PROMPT_PREFIX: string := "Provide a concise, one-paragraph summary of the following chapter:\n\n"

  /** What the summary panel shows when the request finally fails. */
  const APOLOGY: string := "Sorry, I was unable to generate a summary at this time."

  /** `parts.join(sep)`: the parts in order, with `sep` between neighbours and nowhere else. */
  function Join(parts: seq<string>, sep: string): (s: string)
    ensures |parts| == 0 ==> s == ""
    ensures |parts| == 1 ==> s == parts[0]
  {
    if |parts| == 0 then ""
    else if |parts| == 1 then parts[0]
    else parts[0] + sep + Join(parts[1..], sep)
  }

  /** The sum of the lengths of the parts. */
  function TotalLength(parts: seq<string>): nat {
    if |parts| == 0 then 0 else |parts[0]| + TotalLength(parts[1..])
  }

  /** Where part `k` starts in the joined text: the earlier parts, each followed by one separator. */
  function PartStart(parts: seq<string>, sep: string, k: nat): nat
    requires k <= |parts|
  {
    if k == 0 then 0 else |parts[0]| + |sep| + PartStart(parts[1..], sep, k - 1)
  }

  /** The joined text is as long as the parts plus one separator per gap between them. */
  lemma {:induction false} JoinLength(parts: seq<string>, sep: string)
    requires |parts| > 0
    ensures |Join(parts, sep)| == TotalLength(parts) + (|parts| - 1) * |sep|
  {
    if |parts| > 1 {
      JoinLength(parts[1..], sep);
    }
  }

  /** A slice of the right operand of a concatenation, read in the concatenation. */
  lemma SliceOfSuffix(x: string, y: string, i: nat, j: nat)
    requires i <= j <= |y|
    ensures (x + y)[|x| + i .. |x| + j] == y[i..j]
  {
  }

  /** A slice of the left operand of a concatenation, read in the concatenation. */
  lemma SliceOfPrefix(x: string, y: string, i: nat, j: nat)
    requires i <= j <= |x|
    ensures (x + y)[i..j] == x[i..j]
  {
  }

  /** Every part appears, unchanged, at its place in the joined text. */
  lemma {:induction false} JoinHoldsPart(parts: seq<string>, sep: string, k: nat)
    requires k < |parts|
    ensures PartStart(parts, sep, k) + |parts[k]| <= |Join(parts, sep)|
    ensures Join(parts, sep)[PartStart(parts, sep, k) .. PartStart(parts, sep, k) + |parts[k]|] == parts[k]
  {
    if |parts| > 1 {
      var rest := Join(parts[1..], sep);
      var head := parts[0] + sep;
      assert Join(parts, sep) == head + rest;
      if k == 0 {
        SliceOfPrefix(parts[0], sep, 0, |parts[0]|);
        SliceOfPrefix(head, rest, 0, |parts[0]|);
      } else {
        JoinHoldsPart(parts[1..], sep, k - 1);
        var st := PartStart(parts[1..], sep, k - 1);
        assert parts[1..][k - 1] == parts[k];
        assert PartStart(parts, sep, k) == |head| + st;
        SliceOfSuffix(head, rest, st, st + |parts[k]|);
      }
    }
  }

  /** The separator stands right after each part but the last. */
  lemma {:induction false} JoinSeparates(parts: seq<string>, sep: string, k: nat)
    requires k + 1 < |parts|
    ensures PartStart(parts, sep, k) + |parts[k]| + |sep| <= |Join(parts, sep)|
    ensures var e := PartStart(parts, sep, k) + |parts[k]|;
      Join(parts, sep)[e .. e + |sep|] == sep
  {
    var rest := Join(parts[1..], sep);
    var head := parts[0] + sep;
    assert Join(parts, sep) == head + rest;
    if k == 0 {
      assert (head + rest)[|parts[0]| .. |parts[0]| + |sep|] == sep;
    } else {
      JoinSeparates(parts[1..], sep, k - 1);
      var e := PartStart(parts[1..], sep, k - 1) + |parts[k]|;
      SliceOfSuffix(head, rest, e, e + |sep|);
    }
  }

  /** Joining two non-empty runs of parts puts exactly one separator between their joins. */
  lemma {:induction false} JoinAppend(a: seq<string>, b: seq<string>, sep: string)
    requires |a| > 0 && |b| > 0
    ensures Join(a + b, sep) == Join(a, sep) + sep + Join(b, sep)
  {
    if |a| > 1 {
      assert (a + b)[1..] == a[1..] + b;
      JoinAppend(a[1..], b, sep);
    } else {
      assert (a + b)[1..] == b;
    }
  }

  /** The chapter text of the summary request: its paragraphs joined with single spaces. */
  function ChapterText(chapter: Chapter): (text: string)
    ensures |chapter.content| == 0 ==> text == ""
    ensures |chapter.content| > 0 ==> |text| == TotalLength(chapter.content) + |chapter.content| - 1
  {
    if |chapter.content| > 0 then JoinLength(chapter.content, " "); Join(chapter.content, " ")
    else Join(chapter.content, " ")
  }

  /** The prompt sent for a chapter: the fixed instruction, then the chapter text. */
  function SummaryPrompt(chapter: Chapter): (prompt: string)
    ensures |prompt| == |PROMPT_PREFIX| + |ChapterText(chapter)|
    ensures prompt[..|PROMPT_PREFIX|] == PROMPT_PREFIX
    ensures prompt[|PROMPT_PREFIX|..] == ChapterText(chapter)
  {
    PROMPT_PREFIX + ChapterText(chapter)
  }

  /** Paragraph `k` of the chapter appears verbatim in the prompt, at its place after the instruction. */
  lemma PromptHoldsParagraph(chapter: Chapter, k: nat)
    requires k < |chapter.content|
    ensures var start := |PROMPT_PREFIX| + PartStart(chapter.content, " ", k);
      start + |chapter.content[k]| <= |SummaryPrompt(chapter)| &&
      SummaryPrompt(chapter)[start .. start + |chapter.content[k]|] == chapter.content[k]
  {
    JoinHoldsPart(chapter.content, " ", k);
    var p := SummaryPrompt(chapter);
    var st := PartStart(chapter.content, " ", k);
    assert p[|PROMPT_PREFIX|..] == ChapterText(chapter);
    assert p[|PROMPT_PREFIX| + st .. |PROMPT_PREFIX| + st + |chapter.content[k]|]
        == ChapterText(chapter)[st .. st + |chapter.content[k]|];
  }
}
