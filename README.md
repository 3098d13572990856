# Substack2Markdown core, modelled in Dafny

Substack2Markdown downloads the posts of a Substack site and saves each as a
Markdown file and an HTML page. A per-site JSON index lists the saved posts.
This project models the parts of `substack_scraper.py` that decide things:

- how a site is named and which discovered URLs are kept;
- how the fields of a post are chosen when a selector finds nothing, and the
  Markdown header block built from them;
- how files are written: Markdown only when absent, HTML always, and the index
  by an append-only merge;
- how `scrape_posts` walks the URL list with its post cap, and how
  `scrape_single_post` handles one URL;
- when an authenticated fetch counts as a redirect away from the post, and how
  the login outcome is decided.

Modules, one per file:

- `Wrappers` (`wrappers.dfy`): an `Option` type.
- `Text` (`text.dfy`): prefix and suffix tests, substring search, `str.split`
  and its inverse `Join`, `rstrip('/')`, and ASCII digits.
- `Lists` (`lists.dfy`): an order-keeping filter, subsequences and
  duplicate-freedom.
- `Naming` (`naming.dfy`): the base-URL slash, the site name, artifact file
  names and POSIX `os.path.join`.
- `Discovery` (`discovery.dfy`): the keyword filter, the sitemap-then-feed
  choice and the post-URL test.
- `Extraction` (`extraction.dfy`): the field fallbacks and the Markdown
  header.
- `Persistence` (`persistence.dfy`): the file store (a `FileStore` object
  holding two maps), its write rules and the index merge.
- `Session` (`session.dfy`): the redirect check, the authenticated fetch's
  verdict and the login decision.
- `Orchestrator` (`orchestrator.dfy`): one post's processing, the run
  specification `RunFrom` and its properties, and the `Scraper` class with
  its loop.

The filesystem is a `map<string, string>` from path to text; index files are
held decoded, as lists of records. A scraping run is specified by the
function `RunFrom`, which takes any per-URL step. The loop method
`Scraper.VisitPosts` is proved to end in exactly the state `RunFrom`
describes for the scraper's step `ProcessPost`, and `Scraper.ScrapePosts`
then saves the collected records into the index.

Two policies of the code are worth stating on their own:

- The cap of `scrape_posts` counts every visited URL except a paywalled one
  (substack_scraper.py:423-426 and 446-448). URLs whose Markdown file already
  exists and URLs whose processing raised are counted too, so the cap limits
  visited posts, not new posts. `Orchestrator.RunSummary` proves the cap still
  bounds the number of new Markdown files.
- When no index exists, the records are written as they are, duplicates
  included (substack_scraper.py:360-365).

## Model

| member | source | states |
|---|---|---|
| Text.Split | substack_scraper.py:37 | `str.split` on one separator character: at least one part, no part contains the separator, and joining the parts with it gives back the input |
| Text.SplitJoin | substack_scraper.py:37 | splitting a join of separator-free parts gives back those parts |
| Text.ContainsIffOccurs | substack_scraper.py:628 | Python's `sub in s`: `Contains` answers yes exactly when `sub` occurs at some position of `s` |
| Text.IsDigitsIffDigitChars | substack_scraper.py:332 | `str.isdigit` on ASCII text: the string is non-empty and each of its characters is one of `0123456789` |
| Text.RStripSlashes | substack_scraper.py:637-638 | `rstrip('/')` keeps a prefix of the input that does not end in `/`, and removes only `/` characters |
| Naming.NormalizeBaseUrl | substack_scraper.py:109-110 | the base URL ends with `/` afterwards, is extended by at most that one character, and is unchanged when it already ended with `/` |
| Naming.ExtractMainPart | substack_scraper.py:36-44 | the site name is one of the host's dot-separated labels and contains no dot |
| Naming.WwwHost | substack_scraper.py:38-39 | a host starting with `www.` is named by its second label |
| Naming.WwwOnly | substack_scraper.py:39 | the host `www` alone is named `www` |
| Naming.SubstackHost | substack_scraper.py:40-42 | a host whose first label is `substack`, followed by more labels, is named `substack` |
| Naming.PlainHost | substack_scraper.py:43-44 | any other host is named by its first label: the host up to its first dot |
| Naming.WwwPrefixIgnored | substack_scraper.py:38-44 | prefixing `www.` to a host whose first label is not `www` leaves its name unchanged |
| Naming.Extension | substack_scraper.py:269-270 | the extension starts with a dot and ends with the requested file type, with a dot added only when it was missing |
| Naming.GetFilenameFromUrl | substack_scraper.py:259-272 | the file name ends with the extension |
| Naming.LastSegmentIsLastPart | substack_scraper.py:272 | the segment after the last `/` of a string is the last item of `s.split('/')` |
| Naming.SegmentStartUnique | substack_scraper.py:272 | the last segment starts at the only position that is preceded by a `/` (or is the start) and followed by no `/` |
| Naming.FilenameSlug | substack_scraper.py:259-272 | the file name is a segment of the URL followed by the extension: that segment has no `/`, ends the URL, and is the whole URL or follows a `/` |
| Naming.FilenameIsLastSplitPart | substack_scraper.py:272 | the file name is the last item of `url.split('/')` followed by the extension |
| Naming.PathJoin | substack_scraper.py:419-420 | POSIX `os.path.join`: an absolute second part replaces the first; otherwise the result is the first part, then one `/` unless the first part is empty or already ends with `/`, then the second part |
| Discovery.FilterUrls | substack_scraper.py:178-183 | exactly the URLs in which no keyword occurs: none of the kept URLs contains a keyword, each kept URL keeps its multiplicity, every URL mentioning a keyword is dropped, and the order is kept |
| Discovery.LooksLikePostUrlIff | substack_scraper.py:128 | the base URL counts as a single post exactly when `/home/post/` or `/p/` occurs in it |
| Discovery.PostPathLooksLikePost | substack_scraper.py:128 | every URL with a `/p/` segment counts as a single post, whatever surrounds it |
| Discovery.GetAllPostUrls | substack_scraper.py:133-140 | the sitemap's URLs are used when it gave any and the feed's otherwise; the result is the filtered list of that source: in order, keyword-free, complete, and with each kept URL as often as it occurs in the source |
| Extraction.CombineMetadataAndContent | substack_scraper.py:275-291 | the Markdown starts with `# title` and a blank line; a `## subtitle` line follows if and only if the subtitle is non-empty, and otherwise the date block follows directly; it ends with the date block, the likes line and the content unchanged; its length is the sum of its blocks |
| Extraction.SubtitleBlockStart | substack_scraper.py:286-287 | the subtitle block begins with `## ` exactly when the subtitle is non-empty, and is empty otherwise |
| Extraction.ExtractPostData | substack_scraper.py:293-344 | the title is the heading's text or `Untitled`; the subtitle is its text or empty; the date is the non-empty element text, otherwise the JSON-LD date, otherwise `Date not found`, and never empty; the like count is the label only when it is all digits and `0` otherwise; the Markdown combines these with the content |
| Persistence.WriteIfAbsent | substack_scraper.py:208-213 | an existing path leaves the store unchanged; otherwise exactly that path is added with the content and no other path changes |
| Persistence.FileStore.SaveToFile | substack_scraper.py:198-213 | the files become the skip-if-exists write of the content, and the index files are untouched |
| Persistence.FileStore.SaveToHtmlFile | substack_scraper.py:223-256 | the path always gets the document shell, which links the stylesheet and wraps the content, whatever was there before; nothing else changes |
| Persistence.HtmlDocumentLayout | substack_scraper.py:238-253 | the page is the shell up to the stylesheet link, the stylesheet address, the shell up to the content, the content unchanged, and the closing shell, with the length of those parts |
| Persistence.MergeIndex | substack_scraper.py:360-363 | the old index is a prefix of the result; every appended record comes from the new records and was not in the old index; every new record ends up in the result; the appended records keep the new records' order, each as often as it occurs among them |
| Persistence.MergeNoDup | substack_scraper.py:363 | merging keeps the index free of duplicates when neither side has any |
| Persistence.MergeIdempotent | substack_scraper.py:363 | merging the same records a second time changes nothing |
| Persistence.IndexAfterSave | substack_scraper.py:358-365 | with an index present, the result is the merge of the new records into it: the old records stay a prefix and only records from the new batch that the old index lacked are added; with none, the new records are written as they are |
| Persistence.IndexAfterSaveNoDup | substack_scraper.py:358-365 | saving records without duplicates keeps an index without duplicates free of them |
| Session.HomeSurfaceShape | substack_scraper.py:639-641 | a home surface is the empty path, `/inbox`, `/feed`, or a path starting with `/home` (so `/homepage` too) |
| Session.HomePostIsNotHome | substack_scraper.py:640-641 | a `/home/post/…` path is never a home surface |
| Session.RedirectCheck | substack_scraper.py:627-647 | an error is raised if the landed URL contains `sign-in`. Otherwise one is raised exactly when the landed path, with trailing slashes removed, is `''`, `/home`, `/inbox` or `/feed`, or starts with `/home` without containing `/post/`, and the target path is not one of those four; the error is a sign-in redirect in the first case and a home redirect in the second |
| Session.RedirectCheckIgnoresTrailingSlash | substack_scraper.py:637-638 | a trailing `/` on either path never changes the verdict |
| Session.PostPathIsNotHome | substack_scraper.py:639-647 | when the landed URL does not mention `sign-in`, landing on a `/p/…` post path never counts as a redirect, whatever the target |
| Session.SignInSlugRejected | substack_scraper.py:627-632 | a post whose slug mentions `sign-in` is rejected as a sign-in redirect even when the browser landed on that very post, because the test reads the whole landed URL |
| Session.NamedPostIsNotLandedHome | substack_scraper.py:664 | after a content timeout, a landed URL containing `/post/` or `p-`, or not containing `/home`, never counts as the home surface |
| Session.AuthenticatedFetch | substack_scraper.py:615-677 | the authenticated fetch never reports a paywall. It returns the page exactly when there is no redirect and the content did not time out on a home page that names no post; a redirect error is reported as the failure, and any other failure is the home-page timeout |
| Session.LoginDecision | substack_scraper.py:583-596 | login succeeds exactly when the browser left the sign-in page, or stayed without an error message and left within the grace wait; it fails for bad credentials exactly when it stayed on sign-in with the error shown |
| Orchestrator.MdPath | substack_scraper.py:417-419 | the Markdown artifact path ends with `.md` (its full layout is `Orchestrator.ArtifactLayout`) |
| Orchestrator.HtmlPath | substack_scraper.py:418-420 | the HTML artifact path ends with `.html` (its full layout is `Orchestrator.ArtifactLayout`) |
| Orchestrator.ArtifactPathLayout | substack_scraper.py:272 | joined to a directory named without a trailing `/`, a URL's file name gives the directory, one `/`, the URL's last segment and the extension |
| Orchestrator.ArtifactLayout | substack_scraper.py:417-420 | the Markdown path is `mdSaveDir/slug.md` and the HTML path `htmlSaveDir/slug.html`, with the same slug: the URL's last segment |
| Orchestrator.SiteArtifactPaths | substack_scraper.py:113-117 | in the directories the constructor builds, a post's artifacts are `mdDir/site/slug.md` and `htmlDir/site/slug.html` |
| Orchestrator.MdHtmlDisjoint | substack_scraper.py:417-420 | no path is both a Markdown and an HTML artifact |
| Orchestrator.ProcessPost | substack_scraper.py:417-445 | a URL is skipped as saved exactly when its Markdown file exists; it is a paywall skip exactly when the file is absent and no page came back; it fails exactly when the fetch raised; a saved post's record links its Markdown and HTML paths |
| Orchestrator.ProcessPostWrites | substack_scraper.py:427-441 | a saved post creates its Markdown file with the extracted Markdown and writes its HTML page from the rendered Markdown. No other existing path changes; the record carries the extracted fields |
| Orchestrator.ProcessPostSavesFreshly | substack_scraper.py:422-432 | a saved post adds exactly one new Markdown path, the one its record names, and keeps every existing non-HTML file |
| Orchestrator.RunFrom | substack_scraper.py:412-448 | a run visits URLs in order, never past the end, and only ever appends to the collected records |
| Orchestrator.RunAccounting | substack_scraper.py:423-446 | `count` grows by the visited URLs minus the paywalled ones, and at most one record is collected per counted URL |
| Orchestrator.RunStopsOnlyAtCap | substack_scraper.py:447-448 | a run ends before the last URL only when a non-zero cap equals `count` |
| Orchestrator.RunCountWithinCap | substack_scraper.py:446-448 | with a positive cap not yet reached, `count` never passes the cap |
| Orchestrator.RunVisitsAll | substack_scraper.py:446-448 | with cap 0, or a cap `count` has already passed, every URL is visited |
| Orchestrator.RunFilesGrow | substack_scraper.py:422-432 | a run only adds paths and keeps every existing non-HTML file |
| Orchestrator.RunRecordsFresh | substack_scraper.py:422-441 | every collected record names a Markdown file that did not exist before the run and exists after it |
| Orchestrator.RunRecordsDistinct | substack_scraper.py:422-441 | no two collected records name the same Markdown file |
| Orchestrator.RunNewMarkdownRecorded | substack_scraper.py:422-441 | every Markdown file a run creates is named by a collected record |
| Orchestrator.RunNewMarkdownCount | substack_scraper.py:422-441 | a run creates exactly as many Markdown files as it collects records |
| Orchestrator.RunSummary | substack_scraper.py:408-449 | the run visits at most every URL, and all of them unless a positive cap is reached. `count` equals the visited URLs that were not paywalled and never passes a positive cap. At most `count` records are collected, none twice; the new Markdown files number the records; non-HTML files are kept |
| Orchestrator.RerunChangesNothing | substack_scraper.py:422-443 | a run over URLs whose Markdown files all exist writes nothing and collects nothing |
| Orchestrator.RunCoversFetched | substack_scraper.py:422-432 | after a run, every visited URL whose page came back has its Markdown file |
| Orchestrator.SecondRunWritesNothing | substack_scraper.py:408-449 | running again without a cap, with every URL fetching as before, leaves every file as the first run left it and collects no record |
| Orchestrator.RunKeepsIndexDistinct | substack_scraper.py:449 | an index without duplicates stays so after a run's records are saved into it |
| Orchestrator.Scraper.constructor | substack_scraper.py:108-131 | the base URL gets its trailing `/` and the site is named from its host. The output directories are per-site subdirectories and the keywords are `about`, `archive`, `podcast`. Discovery is skipped when asked to or when the URL contains `/home/post/` or `/p/` |
| Orchestrator.Scraper.JsonPath | substack_scraper.py:355-359 | the index file is named after the site with `.json`; for a site name that is not absolute it is exactly `data/<site>.json` |
| Orchestrator.Scraper.SaveEssaysDataToJson | substack_scraper.py:351-365 | the site's index becomes the merge of the records into it, or the records alone when it was absent; the artifacts are untouched |
| Orchestrator.Scraper.ProcessOne | substack_scraper.py:417-445 | one URL is handled as `ProcessPost` describes, and the files become what that outcome wrote |
| Orchestrator.Scraper.VisitPosts | substack_scraper.py:412-448 | the loop ends with the files and the collected records that `RunFrom` gives for the URL list and the cap |
| Orchestrator.Scraper.ScrapePosts | substack_scraper.py:408-449 | the files end as the run leaves them, and the index gets the run's records merged in |
| Orchestrator.Scraper.ScrapeSinglePost | substack_scraper.py:367-406 | one URL is handled as `ProcessPost` describes; only a saved post's single record is merged into the index |

## Left out

- Network and XML retrieval (`fetch_urls_from_sitemap`, `fetch_urls_from_feed`,
  the anonymous `get_url_soup`) are foreign calls. Their results are inputs:
  the sitemap and feed URL lists, and one `Fetch` value per URL.
- `urlparse` is not modelled. The host of the base URL and the paths of the
  landed and requested URLs are inputs.
- BeautifulSoup selectors and `.text.strip()` are not modelled. A page is the
  stripped text each selector found, or `None`.
- `html_to_md` and `md_to_html` are thin wrappers over html2text and
  markdown. The converted content is part of the page, and the renderer is a
  function parameter.
- Date formatting with `datetime.fromisoformat` and `strftime` is library
  behaviour. The JSON-LD date is an input that is already formatted, or
  `None` when the source finds no date there: there is no JSON-LD block;
  the block is an object without a `datePublished` key; the block is an
  array with no element equal to the string `datePublished` (so an array of
  objects such as `[{"datePublished": …}]` gives no date); the block is a
  string that does not contain `datePublished`; or parsing raises one of the
  errors the source catches (`JSONDecodeError`, `ValueError`, `KeyError`).
- Extraction.ExtractPostData: never fails in the model. In the source,
  a JSON-LD block that decodes to `null`, a number or a boolean raises
  `TypeError` at substack_scraper.py:318. A block that is a string
  containing `datePublished`, or an array with an element equal to the
  string `datePublished`, raises `TypeError` at line 319. An object whose
  `datePublished` is not a string raises `AttributeError` at line 320.
  None of these is caught there. `scrape_posts` then counts the URL but writes
  and collects nothing, which `ProcessPost` would have to report as
  `PostFailed`, and `scrape_single_post` re-raises. The model has no page
  that raises this way.
- `str.isdigit` is modelled for ASCII digits only. Python also accepts other
  Unicode digits.
- The relative stylesheet path computed with `os.path.relpath` is an input.
  Every HTML page of a run lies in the same directory.
- Browser control is not modelled: Selenium driver setup, the waits and
  sleeps of `login` and `get_url_soup`, and page polling. Only their
  observations (still on sign-in, error shown, content timed out) enter the
  decisions.
- Session.LoginDecision: reads "still on sign-in" once for the two checks at
  substack_scraper.py:584 and 589, where the source reads the current URL
  twice.
- Exceptions after the Markdown file is written are not modelled. The
  renderer and the HTML write are total here, so a post either fails before
  writing anything or is saved completely.
- Orchestrator.Scraper.ScrapeSinglePost: the source re-raises a failure,
  which the model reports as the `PostFailed` outcome.
- Directory creation (`os.makedirs`), JSON encoding, progress output, and
  the tqdm `total` counter are not modelled. None of them changes what is
  written.
- Orchestrator.Scraper.SaveEssaysDataToJson: an existing index is assumed to
  decode to a list of records. In the source, an index file that is not
  valid JSON makes `json.load` raise at substack_scraper.py:362. One that
  decodes to something other than a list makes the concatenation raise at
  line 363. Either way the run ends with an error, outside the per-post
  `try`, and the index is left unchanged; the model always writes it.
- `generate_html_file` (the browsable author page) is templating glue over
  file reads and writes and is not part of this model.
- The command-line interface (`parse_args`, `main`) is not part of this
  model. Neither is `substack_gui.py`: its tkinter interface, background
  thread and config writing.
- Concurrent runs against the same index are not modelled. Every operation
  here runs alone.
