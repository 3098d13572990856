/**
 * The persistence layer. The filesystem is a `FileStore` object: Markdown
 * and HTML artifacts are a map from path to text, and each site's JSON
 * index is held decoded, as the list of records it contains.
 */
module Persistence {
  import opened Text
  import opened Lists

  /** One entry of a site's index, with the fields of its JSON object. */
  datatype PostRecord = PostRecord(
    title: string,
    subtitle: string,
    likeCount: string,
    date: string,
    fileLink: string,
    htmlLink: string
  )

  /**
   * The write rule of `save_to_file`: a path that exists is left as it is;
   * otherwise exactly that path gets `content` and no other path changes.
   */
  function WriteIfAbsent(files: map<string, string>, path: string, content: string): (r: map<string, string>)
    ensures path in files ==> r == files
    ensures path !in files ==> path in r && r[path] == content
    ensures r.Keys == files.Keys + {path}
    ensures forall p :: p in files ==> r[p] == files[p]
  {
    if path in files then files else files[path := content]
  }

  /** `n` spaces. */
  function Spaces(n: nat): (r: string)
    ensures |r| == n && forall i :: 0 <= i < n ==> r[i] == ' '
  {
    seq(n, _ => ' ')
  }

  /** A new line of the document shell, indented by `n` spaces. */
  function Line(n: nat, text: string): string {
    "\n" + Spaces(n) + text
  }

  /** The document shell of `save_to_html_file` before the stylesheet address. */
  const ShellHead: string :=
    Line(12, "<!DOCTYPE html>") + Line(12, "<html lang=\"en\">") + Line(12, "<head>")
    + Line(16, "<meta charset=\"UTF-8\">")
    + Line(16, "<meta name=\"viewport\" content=\"width=device-width, initial-scale=1.0\">")
    + Line(16, "<title>Markdown Content</title>") + Line(16, "<link rel=\"stylesheet\" href=\"")
  /** The shell between the stylesheet address and the content. */
  const ShellMiddle: string :=
    "\">" + Line(12, "</head>") + Line(12, "<body>") + Line(16, "<main class=\"markdown-content\">") + Line(16, "")
  /** The shell after the content. */
  const ShellFoot: string := Line(16, "</main>") + Line(12, "</body>") + Line(12, "</html>") + Line(8, "")

  /** The page `save_to_html_file` writes: `content` inside a document shell linking the stylesheet `cssHref`. */
  function HtmlDocument(cssHref: string, content: string): string {
    ShellHead + cssHref + ShellMiddle + content + ShellFoot
  }

  /**
   * The page opens with the shell up to the stylesheet link, then the
   * stylesheet address, then the shell up to the content; the content
   * follows unchanged and the closing shell ends the page.
   */
  lemma HtmlDocumentLayout(cssHref: string, content: string)
    ensures var r := HtmlDocument(cssHref, content);
            var k := |ShellHead| + |cssHref| + |ShellMiddle|;
            && |r| == k + |content| + |ShellFoot|
            && StartsWith(r, ShellHead)
            && r[|ShellHead|..|ShellHead| + |cssHref|] == cssHref
            && r[|ShellHead| + |cssHref|..k] == ShellMiddle
            && r[k..k + |content|] == content
            && EndsWith(r, ShellFoot)
  {
    FiveParts(ShellHead, cssHref, ShellMiddle, content, ShellFoot);
  }

  /** Where each of five concatenated parts sits in the whole. */
  lemma FiveParts(a: string, b: string, c: string, d: string, e: string)
    ensures var r := a + b + c + d + e;
            var k := |a| + |b| + |c|;
            && |r| == k + |d| + |e|
            && StartsWith(r, a)
            && r[|a|..|a| + |b|] == b
            && r[|a| + |b|..k] == c
            && r[k..k + |d|] == d
            && EndsWith(r, e)
  {
    var r := a + b + c + d + e;
    var k := |a| + |b| + |c|;
    assert r[..|a|] == a;
    assert r[|a|..|a| + |b|] == b;
    assert r[|a| + |b|..k] == c;
    assert r[k..k + |d|] == d;
    assert r[|r| - |e|..] == e;
  }

  /** The records of `incoming` that `existing` does not hold, in order. */
  function NewRecords(existing: seq<PostRecord>, incoming: seq<PostRecord>): seq<PostRecord> {
    Filter(incoming, d => d !in existing)
  }

  /**
   * The merge of `save_essays_data_to_json`,
   * `existing + [d for d in incoming if d not in existing]`: the old index
   * is kept as a prefix, every record of `incoming` ends up in the result,
   * and what is appended comes from `incoming` and was not there before,
   * in the order of `incoming` and as often as it occurs there.
   */
  function MergeIndex(existing: seq<PostRecord>, incoming: seq<PostRecord>): (r: seq<PostRecord>)
    ensures |r| >= |existing| && r[..|existing|] == existing
    ensures forall d :: d in r[|existing|..] ==> d in incoming && d !in existing
    ensures forall d :: d in incoming ==> d in r
    ensures forall d :: d in r ==> d in existing || d in incoming
    ensures IsSubsequence(r[|existing|..], incoming)
    ensures forall d :: d in incoming && d !in existing ==> multiset(r[|existing|..])[d] == multiset(incoming)[d]
  {
    var added := NewRecords(existing, incoming);
    assert (existing + added)[|existing|..] == added;
    existing + added
  }

  /** Merging keeps the index free of duplicates when neither side has any. */
  lemma MergeNoDup(existing: seq<PostRecord>, incoming: seq<PostRecord>)
    requires NoDup(existing) && NoDup(incoming)
    ensures NoDup(MergeIndex(existing, incoming))
  {
    FilterNoDup(incoming, d => d !in existing);
    NoDupAppend(existing, NewRecords(existing, incoming));
  }

  /** Merging the same records a second time changes nothing. */
  lemma {:induction false} MergeIdempotent(existing: seq<PostRecord>, incoming: seq<PostRecord>)
    ensures MergeIndex(MergeIndex(existing, incoming), incoming) == MergeIndex(existing, incoming)
  {
    var once := MergeIndex(existing, incoming);
    var again := NewRecords(once, incoming);
    assert forall d :: d in again ==> d in incoming && d !in once;
    assert multiset(again) == multiset{};
  }

  /** The index a save leaves behind: merged into the existing one, or `incoming` as it is when there was none. */
  function IndexAfterSave(indexes: map<string, seq<PostRecord>>, path: string, incoming: seq<PostRecord>): (r: seq<PostRecord>)
    ensures path in indexes ==> |r| >= |indexes[path]| && r[..|indexes[path]|] == indexes[path]
    ensures path in indexes ==> r == MergeIndex(indexes[path], incoming)
    ensures path in indexes ==> forall d :: d in r[|indexes[path]|..] ==> d in incoming && d !in indexes[path]
    ensures path !in indexes ==> r == incoming
    ensures forall d :: d in incoming ==> d in r
    ensures forall d :: d in r ==> d in incoming || (path in indexes && d in indexes[path])
  {
    if path in indexes then MergeIndex(indexes[path], incoming) else incoming
  }

  /** Saving records without duplicates keeps an index without duplicates free of them. */
  lemma IndexAfterSaveNoDup(indexes: map<string, seq<PostRecord>>, path: string, incoming: seq<PostRecord>)
    requires NoDup(incoming)
    requires path in indexes ==> NoDup(indexes[path])
    ensures NoDup(IndexAfterSave(indexes, path, incoming))
  {
    if path in indexes {
      MergeNoDup(indexes[path], incoming);
    }
  }

  /** The filesystem the scraper writes to. */
  class FileStore {
    /** Markdown and HTML artifacts by path. */
    var files: map<string, string>
    /** Index files by path, decoded. */
    var indexes: map<string, seq<PostRecord>>

    constructor (files: map<string, string>, indexes: map<string, seq<PostRecord>>)
      ensures this.files == files && this.indexes == indexes
    {
      this.files := files;
      this.indexes := indexes;
    }

    /** `save_to_file`: skips a path that already exists. */
    method SaveToFile(path: string, content: string)
      modifies this
      ensures files == WriteIfAbsent(old(files), path, content)
      ensures indexes == old(indexes)
    {
      if path in files {
        return;
      }
      files := files[path := content];
    }

    /** `save_to_html_file`: always overwrites. */
    method SaveToHtmlFile(path: string, cssHref: string, content: string)
      modifies this
      ensures files == old(files)[path := HtmlDocument(cssHref, content)]
      ensures indexes == old(indexes)
    {
      files := files[path := HtmlDocument(cssHref, content)];
    }

    /** Writes a whole index file, replacing what was there. */
    method WriteIndex(path: string, records: seq<PostRecord>)
      modifies this
      ensures indexes == old(indexes)[path := records]
      ensures files == old(files)
    {
      indexes := indexes[path := records];
    }
  }
}
