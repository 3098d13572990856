/**
 * How the scraper names things: the site name taken from the host, the
 * normalised base URL, artifact file names taken from a post URL's last
 * path segment, and POSIX `os.path.join` for two components.
 */
module Naming {
  import opened Text

  /** The base URL as the scraper stores it: always ending in `/`. */
  function NormalizeBaseUrl(url: string): (r: string)
    ensures EndsWith(r, "/")
    ensures StartsWith(r, url) && |r| <= |url| + 1
    ensures EndsWith(url, "/") ==> r == url
  {
    if EndsWith(url, "/") then url else url + "/"
  }

  /** The rule of `extract_main_part`, applied to the dot-separated labels of a host. */
  function SiteName(labels: seq<string>): string
    requires |labels| >= 1
  {
    if labels[0] == "www" then
      (if |labels| > 1 then labels[1] else labels[0])
    else if labels[0] == "substack" && |labels| > 1 then
      "substack"
    else
      labels[0]
  }

  /**
   * The site name of a host (`urlparse(url).netloc`). It is always one of
   * the host's labels, so it never contains a dot.
   */
  function ExtractMainPart(netloc: string): (r: string)
    ensures r in Split(netloc, '.')
    ensures '.' !in r
  {
    SiteName(Split(netloc, '.'))
  }

  /** The first label of a string is its longest prefix before the first separator. */
  lemma FirstPart(s: string, sep: char)
    ensures var parts := Split(s, sep);
            StartsWith(s, parts[0]) &&
            (|parts| == 1 <==> parts[0] == s) &&
            (|parts| > 1 ==> |s| > |parts[0]| && s[|parts[0]|] == sep) &&
            (|parts| > 1 ==> StartsWith(s, parts[0] + [sep]))
  {
    var parts := Split(s, sep);
    if |parts| > 1 {
      assert s == parts[0] + [sep] + Join(parts[1..], sep);
      assert s[..|parts[0]|] == parts[0];
      assert s[..|parts[0]| + 1] == parts[0] + [sep];
    }
  }

  /** A leading `www` label is dropped: the name is the label after it. */
  lemma {:induction false} WwwHost(h: string)
    ensures ExtractMainPart("www." + h) == Split(h, '.')[0]
  {
    assert "www." + h == "www" + ['.'] + h;
    SplitAfterPart("www", '.', h);
  }

  /** A bare `www` host names itself. */
  lemma WwwOnly()
    ensures ExtractMainPart("www") == "www"
  {
    SplitNoSeparator("www", '.');
  }

  /** Every host under `substack.` is named `substack`. */
  lemma {:induction false} SubstackHost(h: string)
    ensures ExtractMainPart("substack." + h) == "substack"
  {
    assert "substack." + h == "substack" + ['.'] + h;
    SplitAfterPart("substack", '.', h);
  }

  /** Any other host is named by its first label, the text before its first dot. */
  lemma {:induction false} PlainHost(netloc: string)
    requires netloc != "www" && !StartsWith(netloc, "www.") && !StartsWith(netloc, "substack.")
    ensures var r := ExtractMainPart(netloc);
            StartsWith(netloc, r) && (r == netloc || netloc[|r|] == '.')
  {
    var parts := Split(netloc, '.');
    FirstPart(netloc, '.');
    assert "www" + ['.'] == "www." && "substack" + ['.'] == "substack.";
  }

  /** With or without a leading `www.`, a host whose first label is not `www` gets the same site name. */
  lemma {:induction false} WwwPrefixIgnored(h: string)
    requires Split(h, '.')[0] != "www"
    ensures ExtractMainPart("www." + h) == ExtractMainPart(h)
  {
    WwwHost(h);
  }

  /** The extension as `get_filename_from_url` uses it: a dot is prefixed when missing. */
  function Extension(filetype: string): (ext: string)
    ensures StartsWith(ext, ".")
    ensures EndsWith(ext, filetype) && |ext| <= |filetype| + 1
    ensures StartsWith(filetype, ".") ==> ext == filetype
    ensures !StartsWith(filetype, ".") ==> ext == "." + filetype
  {
    if StartsWith(filetype, ".") then filetype else "." + filetype
  }

  /** Where the last segment of `s` starts: just after its last `/`, or at 0 when it has none. */
  function SegmentStart(s: string): (k: nat)
    ensures k <= |s|
  {
    if s == [] then 0 else if s[|s| - 1] == '/' then |s| else SegmentStart(s[..|s| - 1])
  }

  /** No `/` follows the segment start, and a `/` or the beginning of `s` precedes it. */
  lemma {:induction false} SegmentStartShape(s: string)
    ensures var k := SegmentStart(s);
            (forall i :: k <= i < |s| ==> s[i] != '/') && (k == 0 || s[k - 1] == '/')
  {
    if s != [] && s[|s| - 1] != '/' {
      var t := s[..|s| - 1];
      SegmentStartShape(t);
      assert forall i :: 0 <= i < |t| ==> s[i] == t[i];
    }
  }

  /** Only one position can start the last segment. */
  lemma SegmentStartUnique(s: string, k: nat)
    requires k <= |s|
    requires forall i :: k <= i < |s| ==> s[i] != '/'
    requires k == 0 || s[k - 1] == '/'
    ensures k == SegmentStart(s)
  {
    SegmentStartShape(s);
  }

  /** The text after the last `/` of `s`, or all of `s` when it has none. */
  function LastSegment(s: string): string {
    s[SegmentStart(s)..]
  }

  /** The last segment holds no `/`, ends `s`, and is all of `s` or follows a `/`. */
  lemma LastSegmentShape(s: string)
    ensures var r := LastSegment(s);
            '/' !in r && EndsWith(s, r) && (r == s || s[|s| - |r| - 1] == '/')
  {
    SegmentStartShape(s);
    var k := SegmentStart(s);
    assert forall j :: 0 <= j < |s| - k ==> s[k..][j] == s[k + j];
  }

  /** The last segment of a join of `/`-free parts is the last part. */
  lemma LastSegmentOfJoin(parts: seq<string>)
    requires |parts| >= 1
    requires '/' !in parts[|parts| - 1]
    ensures LastSegment(Join(parts, '/')) == parts[|parts| - 1]
  {
    var s := Join(parts, '/');
    var last := parts[|parts| - 1];
    JoinLast(parts, '/');
    var k := |s| - |last|;
    assert s[k..] == last;
    forall i | k <= i < |s| ensures s[i] != '/' {
      assert s[i] == last[i - k];
    }
    SegmentStartUnique(s, k);
  }

  /** The last segment is the last item of Python's `s.split('/')`. */
  lemma LastSegmentIsLastPart(s: string)
    ensures var parts := Split(s, '/');
            LastSegment(s) == parts[|parts| - 1]
  {
    LastSegmentOfJoin(Split(s, '/'));
  }

  /** The artifact name of a URL: its last `/`-separated segment plus the extension. */
  function GetFilenameFromUrl(url: string, filetype: string): (r: string)
    ensures EndsWith(r, Extension(filetype))
  {
    ConcatParts(LastSegment(url), Extension(filetype));
    LastSegment(url) + Extension(filetype)
  }

  /**
   * The artifact name is a segment of the URL followed by the extension:
   * that segment holds no `/`, ends the URL, and is the whole URL or
   * follows a `/`.
   */
  lemma FilenameSlug(url: string, filetype: string)
    ensures var r := GetFilenameFromUrl(url, filetype);
            var ext := Extension(filetype);
            var slug := r[..|r| - |ext|];
            r == slug + ext &&
            '/' !in slug && EndsWith(url, slug) &&
            (slug == url || url[|url| - |slug| - 1] == '/')
  {
    var slug, ext := LastSegment(url), Extension(filetype);
    var r := GetFilenameFromUrl(url, filetype);
    assert r == slug + ext;
    assert r[..|r| - |ext|] == slug;
    LastSegmentShape(url);
  }

  /** The artifact name is the last item of `url.split('/')` followed by the extension. */
  lemma FilenameIsLastSplitPart(url: string, filetype: string)
    ensures var parts := Split(url, '/');
            GetFilenameFromUrl(url, filetype) == parts[|parts| - 1] + Extension(filetype)
  {
    LastSegmentIsLastPart(url);
  }

  /** POSIX `os.path.join(a, b)`. */
  function PathJoin(a: string, b: string): (r: string)
    ensures EndsWith(r, b)
    ensures StartsWith(b, "/") ==> r == b
    ensures !StartsWith(b, "/") ==> StartsWith(r, a)
    ensures !StartsWith(b, "/") && (a == [] || EndsWith(a, "/")) ==> r == a + b
    ensures !StartsWith(b, "/") && a != [] && !EndsWith(a, "/") ==> r == a + "/" + b
  {
    if StartsWith(b, "/") then b
    else if a == [] || EndsWith(a, "/") then a + b
    else a + "/" + b
  }
}
