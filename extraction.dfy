/**
 * The extractor: per-field fallback rules of `extract_post_data` and the
 * Markdown header block of `combine_metadata_and_content`. The page is
 * given by what its selectors found, not as a document tree.
 */
module Extraction {
  import opened Wrappers
  import opened Text

  /**
   * What the selectors found on one page, each already stripped of
   * surrounding whitespace; `None` when the selector matched no element.
   */
  datatype Page = Page(
    heading: Option<string>,      // "h1.post-title, h2"
    subtitle: Option<string>,     // "h3.subtitle"
    dateText: Option<string>,     // the styled date element
    publishedDate: Option<string>, // datePublished of the JSON-LD block, already formatted; None when there is none or it fails to parse
    likeLabel: Option<string>,    // "a.post-ufi-button .label"
    body: string                  // the content container converted to Markdown
  )

  /** The tuple `extract_post_data` returns. */
  datatype PostData = PostData(title: string, subtitle: string, likeCount: string, date: string, markdown: string)

  const UntitledTitle := "Untitled"
  const DateNotFound := "Date not found"
  const LikesLabel := "**Likes:** "

  /** The title: the heading's text when a heading exists, even an empty one. */
  function Title(page: Page): string {
    page.heading.GetOr(UntitledTitle)
  }

  function Subtitle(page: Page): string {
    page.subtitle.GetOr("")
  }

  /** The date: non-empty element text first, then the JSON-LD date, then the placeholder. */
  function Date(page: Page): string {
    if page.dateText.Some? && page.dateText.value != "" then page.dateText.value
    else if page.publishedDate.Some? && page.publishedDate.value != "" then page.publishedDate.value
    else DateNotFound
  }

  /** The like count: the label only when it is all digits. */
  function LikeCount(page: Page): string {
    if page.likeLabel.Some? && IsDigits(page.likeLabel.value) then page.likeLabel.value else "0"
  }

  function TitleBlock(title: string): string {
    "# " + title + "\n\n"
  }

  function SubtitleBlock(subtitle: string): string {
    if subtitle != "" then "## " + subtitle + "\n\n" else ""
  }

  function DateBlock(date: string): string {
    "**" + date + "**\n\n"
  }

  function LikesBlock(likeCount: string): string {
    LikesLabel + likeCount + "\n\n"
  }

  /**
   * `combine_metadata_and_content`: the title heading first, a subtitle
   * heading right after it exactly when the subtitle is non-empty, the
   * bold date line, the likes line, then the content unchanged.
   */
  function CombineMetadataAndContent(title: string, subtitle: string, date: string, likeCount: string, content: string): (r: string)
    ensures StartsWith(r, TitleBlock(title))
    ensures var rest := r[|TitleBlock(title)|..];
            StartsWith(rest, "## ") <==> subtitle != ""
    ensures subtitle != "" ==> StartsWith(r[|TitleBlock(title)|..], "## " + subtitle + "\n\n")
    ensures subtitle == "" ==> StartsWith(r[|TitleBlock(title)|..], DateBlock(date))
    ensures EndsWith(r, DateBlock(date) + (LikesBlock(likeCount) + content))
    ensures EndsWith(r, content)
    ensures |r| == |TitleBlock(title)| + |SubtitleBlock(subtitle)| + |DateBlock(date)| + |LikesBlock(likeCount)| + |content|
  {
    var tail := DateBlock(date) + (LikesBlock(likeCount) + content);
    DateBlockStart(date, LikesBlock(likeCount) + content);
    NestedParts(TitleBlock(title), SubtitleBlock(subtitle), tail);
    NestedParts(DateBlock(date), LikesBlock(likeCount), content);
    SubtitleBlockStart(subtitle, tail);
    TitleBlock(title) + (SubtitleBlock(subtitle) + tail)
  }

  /** The date line opens with `*`. */
  lemma DateBlockStart(date: string, rest: string)
    ensures StartsWith(DateBlock(date) + rest, "*")
  {
    assert (DateBlock(date) + rest)[..1] == "*";
  }

  /** Facts about `a + (b + c)` used to read a header block apart. */
  lemma NestedParts(a: string, b: string, c: string)
    ensures StartsWith(a + (b + c), a) && (a + (b + c))[|a|..] == b + c
    ensures StartsWith(b + c, b)
    ensures EndsWith(a + (b + c), b + c) && EndsWith(a + (b + c), c)
  {
    ConcatParts(a, b + c);
    ConcatParts(b, c);
    assert (a + (b + c))[|a + (b + c)| - |c|..] == c;
  }

  /** After the title block comes `## ` exactly when the subtitle is non-empty. */
  lemma SubtitleBlockStart(subtitle: string, tail: string)
    requires StartsWith(tail, "*")
    ensures StartsWith(SubtitleBlock(subtitle) + tail, "## ") <==> subtitle != ""
    ensures subtitle != "" ==> StartsWith(SubtitleBlock(subtitle) + tail, "## " + subtitle + "\n\n")
    ensures subtitle == "" ==> SubtitleBlock(subtitle) + tail == tail
  {
    if subtitle != "" {
      ConcatParts("## " + subtitle + "\n\n", tail);
      assert ("## " + subtitle + "\n\n" + tail)[..3] == "## ";
    } else {
      assert !StartsWith(tail, "## ") by {
        assert |tail| >= 3 ==> tail[..3][0] == tail[0];
      }
    }
  }

  /**
   * `extract_post_data`: never fails. Every missing field gets its
   * placeholder, the date is never empty, the like count is always a
   * digit string, and the Markdown is the header block over the body.
   */
  function ExtractPostData(page: Page): (d: PostData)
    ensures page.heading.None? ==> d.title == UntitledTitle
    ensures page.heading.Some? ==> d.title == page.heading.value
    ensures page.subtitle.None? ==> d.subtitle == ""
    ensures page.subtitle.Some? ==> d.subtitle == page.subtitle.value
    ensures d.date != ""
    ensures page.dateText.Some? && page.dateText.value != "" ==> d.date == page.dateText.value
    ensures (page.dateText.None? || page.dateText.value == "") && page.publishedDate.Some? && page.publishedDate.value != ""
            ==> d.date == page.publishedDate.value
    ensures (page.dateText.None? || page.dateText.value == "") && (page.publishedDate.None? || page.publishedDate.value == "")
            ==> d.date == DateNotFound
    ensures IsDigits(d.likeCount)
    ensures d.likeCount == "0" || (page.likeLabel.Some? && d.likeCount == page.likeLabel.value)
    ensures page.likeLabel.Some? && IsDigits(page.likeLabel.value) ==> d.likeCount == page.likeLabel.value
    ensures d.markdown == CombineMetadataAndContent(d.title, d.subtitle, d.date, d.likeCount, page.body)
  {
    var title := Title(page);
    var subtitle := Subtitle(page);
    var date := Date(page);
    var likeCount := LikeCount(page);
    PostData(title, subtitle, likeCount, date, CombineMetadataAndContent(title, subtitle, date, likeCount, page.body))
  }
}
