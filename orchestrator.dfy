/**
 * The orchestrator: the scraper object built from a base URL, the bulk run
 * of `scrape_posts` with its post cap, and `scrape_single_post`.
 *
 * A run is specified by `RunFrom`, which walks the URL list one post at a
 * time exactly as the loop does. It is written over any per-URL step so
 * that the run's bookkeeping can be reasoned about apart from what one
 * step writes; the scraper's step is `ProcessPost`. The loop method is
 * proved to end in the state `RunFrom` describes, and the run's
 * properties are lemmas about `RunFrom`.
 */
module Orchestrator {
  import opened Text
  import opened Lists
  import opened Naming
  import opened Discovery
  import opened Extraction
  import opened Persistence
  import opened Session

  /** The directory that holds the index files. */
  const JsonDataDir := "data"

  /**
   * Where one scraper writes, and the two collaborators it calls on: the
   * Markdown-to-HTML renderer and the stylesheet address relative to the
   * HTML directory.
   */
  datatype Env = Env(mdSaveDir: string, htmlSaveDir: string, cssHref: string, render: string -> string)

  /** An artifact path ends with its extension. */
  lemma ArtifactPathEnds(dir: string, url: string, ext: string)
    requires StartsWith(ext, ".")
    ensures EndsWith(PathJoin(dir, GetFilenameFromUrl(url, ext)), ext)
  {
    var name := GetFilenameFromUrl(url, ext);
    assert Extension(ext) == ext;
    EndsWithTrans(PathJoin(dir, name), name, ext);
  }

  function MdPath(env: Env, url: string): (p: string)
    ensures EndsWith(p, ".md")
  {
    ArtifactPathEnds(env.mdSaveDir, url, ".md");
    PathJoin(env.mdSaveDir, GetFilenameFromUrl(url, ".md"))
  }

  function HtmlPath(env: Env, url: string): (p: string)
    ensures EndsWith(p, ".html")
  {
    ArtifactPathEnds(env.htmlSaveDir, url, ".html");
    PathJoin(env.htmlSaveDir, GetFilenameFromUrl(url, ".html"))
  }

  /**
   * In a directory named without a trailing `/`, an artifact sits at the
   * directory, one `/`, the URL's last segment, and the extension.
   */
  lemma ArtifactPathLayout(dir: string, url: string, ext: string)
    requires StartsWith(ext, ".")
    requires dir != [] && !EndsWith(dir, "/")
    ensures PathJoin(dir, GetFilenameFromUrl(url, ext)) == dir + "/" + LastSegment(url) + ext
  {
    var slug := LastSegment(url);
    var name := GetFilenameFromUrl(url, ext);
    assert Extension(ext) == ext;
    assert name == slug + ext;
    LastSegmentShape(url);
    assert !StartsWith(name, "/") by {
      if slug == [] {
        assert name == ext;
      } else {
        assert name[0] == slug[0] && slug[0] in slug;
      }
    }
  }

  /**
   * The Markdown and HTML artifacts of a URL share its last segment as
   * their slug: `dir/slug.md` and `dir/slug.html`.
   */
  lemma ArtifactLayout(env: Env, url: string)
    ensures env.mdSaveDir != [] && !EndsWith(env.mdSaveDir, "/") ==>
              MdPath(env, url) == env.mdSaveDir + "/" + LastSegment(url) + ".md"
    ensures env.htmlSaveDir != [] && !EndsWith(env.htmlSaveDir, "/") ==>
              HtmlPath(env, url) == env.htmlSaveDir + "/" + LastSegment(url) + ".html"
  {
    if env.mdSaveDir != [] && !EndsWith(env.mdSaveDir, "/") {
      ArtifactPathLayout(env.mdSaveDir, url, ".md");
    }
    if env.htmlSaveDir != [] && !EndsWith(env.htmlSaveDir, "/") {
      ArtifactPathLayout(env.htmlSaveDir, url, ".html");
    }
  }

  /**
   * For a site whose directories are `mdDir/site` and `htmlDir/site`, as
   * the scraper's constructor makes them, the artifacts of a URL are
   * `mdDir/site/slug.md` and `htmlDir/site/slug.html`.
   */
  lemma SiteArtifactPaths(mdDir: string, htmlDir: string, site: string, url: string, cssHref: string, render: string -> string)
    requires site != [] && !EndsWith(site, "/")
    ensures var env := Env(mdDir + "/" + site, htmlDir + "/" + site, cssHref, render);
            && MdPath(env, url) == mdDir + "/" + site + "/" + LastSegment(url) + ".md"
            && HtmlPath(env, url) == htmlDir + "/" + site + "/" + LastSegment(url) + ".html"
  {
    var env := Env(mdDir + "/" + site, htmlDir + "/" + site, cssHref, render);
    assert (mdDir + "/" + site)[|mdDir + "/" + site| - 1] == site[|site| - 1];
    assert (htmlDir + "/" + site)[|htmlDir + "/" + site| - 1] == site[|site| - 1];
    ArtifactLayout(env, url);
  }

  /** No path is both a Markdown and an HTML artifact. */
  lemma MdHtmlDisjoint(p: string)
    requires EndsWith(p, ".html")
    ensures !EndsWith(p, ".md")
  {
    assert p[|p| - 1] == 'l';
  }

  /** A concatenation starts with `/` only if one of its parts does. */
  lemma RootedConcat(name: string, ext: string)
    ensures StartsWith(name + ext, "/") ==> StartsWith(name, "/") || StartsWith(ext, "/")
  {
    if |name| > 0 {
      assert (name + ext)[..1] == name[..1];
    } else {
      assert name + ext == ext;
    }
  }

  /** The fate of one URL in a run. */
  datatype PostOutcome =
    | AlreadySaved                                           // its Markdown file exists
    | PaywallSkip                                            // the fetch returned no page
    | PostFailed                                             // the fetch raised
    | Saved(files: map<string, string>, record: PostRecord)  // extracted and written

  /** The files after an outcome. */
  function FilesAfter(files: map<string, string>, o: PostOutcome): map<string, string> {
    if o.Saved? then o.files else files
  }

  /** The record of a post whose page was extracted, pointing at its two artifacts. */
  function RecordOf(data: PostData, md: string, html: string): (rec: PostRecord)
    ensures rec.fileLink == md && rec.htmlLink == html
    ensures rec.title == data.title && rec.subtitle == data.subtitle
    ensures rec.likeCount == data.likeCount && rec.date == data.date
  {
    PostRecord(data.title, data.subtitle, data.likeCount, data.date, md, html)
  }

  /**
   * What processing one URL does: nothing when its Markdown file exists
   * or no page came back; otherwise the Markdown file is created, the HTML
   * file is written over whatever was there, and a record pointing at both
   * is produced.
   */
  function ProcessPost(env: Env, files: map<string, string>, url: string, fetch: Fetch): (o: PostOutcome)
    ensures o.AlreadySaved? <==> MdPath(env, url) in files
    ensures o.PaywallSkip? <==> MdPath(env, url) !in files && fetch.Paywalled?
    ensures o.PostFailed? <==> MdPath(env, url) !in files && fetch.Failed?
    ensures o.Saved? ==> fetch.Fetched? && o.record.fileLink == MdPath(env, url) && o.record.htmlLink == HtmlPath(env, url)
  {
    var md := MdPath(env, url);
    if md in files then AlreadySaved
    else
      match fetch
      case Paywalled => PaywallSkip
      case Failed(_) => PostFailed
      case Fetched(page) =>
        var data := ExtractPostData(page);
        var html := HtmlPath(env, url);
        var written := WriteIfAbsent(files, md, data.markdown);
        Saved(written[html := HtmlDocument(env.cssHref, env.render(data.markdown))], RecordOf(data, md, html))
  }

  /** The outcome of a post whose Markdown file is absent and whose page came back. */
  lemma ProcessPostSaved(env: Env, files: map<string, string>, url: string, page: Page)
    requires MdPath(env, url) !in files
    ensures var md := MdPath(env, url);
            var html := HtmlPath(env, url);
            var data := ExtractPostData(page);
            ProcessPost(env, files, url, Fetched(page))
              == Saved(WriteIfAbsent(files, md, data.markdown)[html := HtmlDocument(env.cssHref, env.render(data.markdown))],
                       RecordOf(data, md, html))
  {
  }

  /**
   * A saved post creates its Markdown file with the extracted Markdown,
   * writes its HTML file, and leaves every other existing path as it was.
   */
  lemma ProcessPostWrites(env: Env, files: map<string, string>, url: string, fetch: Fetch)
    requires ProcessPost(env, files, url, fetch).Saved?
    ensures var o := ProcessPost(env, files, url, fetch);
            var md := MdPath(env, url);
            var html := HtmlPath(env, url);
            var data := ExtractPostData(fetch.page);
            && md !in files
            && o.files.Keys == files.Keys + {md, html}
            && o.files[md] == data.markdown
            && o.files[html] == HtmlDocument(env.cssHref, env.render(data.markdown))
            && o.record == RecordOf(data, md, html)
            && (forall p :: p in files && p != html ==> o.files[p] == files[p])
  {
    var md := MdPath(env, url);
    var html := HtmlPath(env, url);
    var data := ExtractPostData(fetch.page);
    var htmlText := HtmlDocument(env.cssHref, env.render(data.markdown));
    MdHtmlDisjoint(html);
    assert md != html;
    assert ProcessPost(env, files, url, fetch) == Saved(WriteIfAbsent(files, md, data.markdown)[html := htmlText], RecordOf(data, md, html));
    CreateThenOverwrite(files, md, data.markdown, html, htmlText);
  }

  lemma CreateThenOverwrite(files: map<string, string>, md: string, mdText: string, html: string, htmlText: string)
    requires md !in files && md != html
    ensures var o := WriteIfAbsent(files, md, mdText)[html := htmlText];
            && o.Keys == files.Keys + {md, html}
            && o[md] == mdText
            && o[html] == htmlText
            && (forall p :: p in files && p != html ==> o[p] == files[p])
  {
  }

  /** What a run needs from a step: a saved post adds a fresh Markdown path named by its record and changes no other existing non-HTML path. */
  ghost predicate SavesFreshly(files: map<string, string>, o: PostOutcome) {
    o.Saved? ==>
      && o.record.fileLink !in files
      && o.record.fileLink in o.files
      && EndsWith(o.record.fileLink, ".md")
      && files.Keys <= o.files.Keys
      && (forall p :: p in o.files && p !in files && EndsWith(p, ".md") ==> p == o.record.fileLink)
      && (forall p :: p in files && !EndsWith(p, ".html") ==> o.files[p] == files[p])
  }

  ghost predicate WellBehaved(step: (map<string, string>, string, Fetch) -> PostOutcome) {
    forall files, url, fetch :: SavesFreshly(files, step(files, url, fetch))
  }

  /** Creating a fresh Markdown path and writing an HTML path, and nothing else, saves freshly. */
  lemma FreshAfterWrite(files: map<string, string>, md: string, html: string, out: map<string, string>, rec: PostRecord)
    requires md !in files && EndsWith(md, ".md") && EndsWith(html, ".html")
    requires out.Keys == files.Keys + {md, html}
    requires forall p :: p in files && p != html ==> out[p] == files[p]
    requires rec.fileLink == md
    ensures SavesFreshly(files, Saved(out, rec))
  {
    MdHtmlDisjoint(html);
    forall p | p in out && p !in files && EndsWith(p, ".md") ensures p == md {
      assert p in {md, html};
    }
  }

  lemma ProcessPostSavesFreshly(env: Env, files: map<string, string>, url: string, fetch: Fetch)
    ensures SavesFreshly(files, ProcessPost(env, files, url, fetch))
  {
    var o := ProcessPost(env, files, url, fetch);
    if o.Saved? {
      ProcessPostWrites(env, files, url, fetch);
      FreshAfterWrite(files, MdPath(env, url), HtmlPath(env, url), o.files, o.record);
      assert o == Saved(o.files, o.record);
    }
  }

  /** The scraper's step is well behaved. */
  lemma ProcessPostWellBehaved(env: Env)
    ensures WellBehaved(Step(env))
  {
    var step := Step(env);
    forall files, url, fetch ensures SavesFreshly(files, step(files, url, fetch)) {
      ProcessPostSavesFreshly(env, files, url, fetch);
    }
  }

  /**
   * The loop's variables after some URLs: the files, the accumulated
   * records and `count`, plus how many URLs were visited and how many of
   * them were paywalled.
   */
  datatype RunState = RunState(files: map<string, string>, essays: seq<PostRecord>, count: int, visited: nat, paywalled: nat)

  /** One loop iteration's bookkeeping: a paywalled URL `continue`s before `count += 1`. */
  function Advance(s: RunState, o: PostOutcome): RunState {
    match o
    case AlreadySaved => s.(count := s.count + 1, visited := s.visited + 1)
    case PaywallSkip => s.(visited := s.visited + 1, paywalled := s.paywalled + 1)
    case PostFailed => s.(count := s.count + 1, visited := s.visited + 1)
    case Saved(files, record) =>
      s.(files := files, essays := s.essays + [record], count := s.count + 1, visited := s.visited + 1)
  }

  /**
   * The rest of a run from state `s`: URLs are taken in order; after a
   * URL that was not paywalled the run stops once a non-zero `cap` equals
   * `count`.
   */
  function RunFrom(step: (map<string, string>, string, Fetch) -> PostOutcome,
                   urls: seq<string>, fetches: seq<Fetch>, cap: int, s: RunState): (r: RunState)
    requires |fetches| == |urls| && s.visited <= |urls|
    ensures s.visited <= r.visited <= |urls|
    ensures |r.essays| >= |s.essays| && r.essays[..|s.essays|] == s.essays
    decreases |urls| - s.visited
  {
    if s.visited == |urls| then s
    else
      var o := step(s.files, urls[s.visited], fetches[s.visited]);
      var next := Advance(s, o);
      if !o.PaywallSkip? && cap != 0 && next.count == cap then next
      else RunFrom(step, urls, fetches, cap, next)
  }

  /** One step of `RunFrom`: the state after the next URL, and whether the run stops there. */
  lemma RunFromStep(step: (map<string, string>, string, Fetch) -> PostOutcome,
                    urls: seq<string>, fetches: seq<Fetch>, cap: int, s: RunState, o: PostOutcome)
    requires |fetches| == |urls| && s.visited < |urls|
    requires o == step(s.files, urls[s.visited], fetches[s.visited])
    ensures !o.PaywallSkip? && cap != 0 && Advance(s, o).count == cap ==>
              RunFrom(step, urls, fetches, cap, s) == Advance(s, o)
    ensures o.PaywallSkip? || cap == 0 || Advance(s, o).count != cap ==>
              RunFrom(step, urls, fetches, cap, s) == RunFrom(step, urls, fetches, cap, Advance(s, o))
  {
  }

  /** The state a run starts from. */
  function Start(files: map<string, string>): RunState {
    RunState(files, [], 0, 0, 0)
  }

  /** The scraper's per-URL step. */
  function Step(env: Env): (map<string, string>, string, Fetch) -> PostOutcome {
    (files, url, fetch) => ProcessPost(env, files, url, fetch)
  }

  /** `step` computes what `ProcessPost` does in `env`. */
  ghost predicate Implements(step: (map<string, string>, string, Fetch) -> PostOutcome, env: Env) {
    forall files, url, fetch {:trigger ProcessPost(env, files, url, fetch)} ::
      step(files, url, fetch) == ProcessPost(env, files, url, fetch)
  }

  lemma StepImplements(env: Env)
    ensures Implements(Step(env), env)
  {
  }

  /** A whole `scrape_posts` run over `urls` from the files on disk. */
  function Run(env: Env, urls: seq<string>, fetches: seq<Fetch>, cap: int, files: map<string, string>): RunState
    requires |fetches| == |urls|
  {
    RunFrom(Step(env), urls, fetches, cap, Start(files))
  }

  /**
   * Run accounting: `count` grows by one for every visited URL that was
   * not paywalled, and at most one record is accumulated per counted URL.
   */
  lemma {:induction false} RunAccounting(step: (map<string, string>, string, Fetch) -> PostOutcome,
                                         urls: seq<string>, fetches: seq<Fetch>, cap: int, s: RunState)
    requires |fetches| == |urls| && s.visited <= |urls|
    ensures var r := RunFrom(step, urls, fetches, cap, s);
            && s.paywalled <= r.paywalled
            && r.count - s.count == (r.visited - s.visited) - (r.paywalled - s.paywalled)
            && |r.essays| - |s.essays| <= r.count - s.count
    decreases |urls| - s.visited
  {
    if s.visited < |urls| {
      var o := step(s.files, urls[s.visited], fetches[s.visited]);
      var next := Advance(s, o);
      if o.PaywallSkip? || cap == 0 || next.count != cap {
        RunAccounting(step, urls, fetches, cap, next);
      }
    }
  }

  /** A run ends before the last URL only because a non-zero cap was reached. */
  lemma {:induction false} RunStopsOnlyAtCap(step: (map<string, string>, string, Fetch) -> PostOutcome,
                                             urls: seq<string>, fetches: seq<Fetch>, cap: int, s: RunState)
    requires |fetches| == |urls| && s.visited <= |urls|
    ensures var r := RunFrom(step, urls, fetches, cap, s);
            r.visited < |urls| ==> cap != 0 && r.count == cap
    decreases |urls| - s.visited
  {
    if s.visited < |urls| {
      var o := step(s.files, urls[s.visited], fetches[s.visited]);
      var next := Advance(s, o);
      if o.PaywallSkip? || cap == 0 || next.count != cap {
        RunStopsOnlyAtCap(step, urls, fetches, cap, next);
      }
    }
  }

  /** With a positive cap not yet reached, `count` never passes the cap. */
  lemma {:induction false} RunCountWithinCap(step: (map<string, string>, string, Fetch) -> PostOutcome,
                                             urls: seq<string>, fetches: seq<Fetch>, cap: int, s: RunState)
    requires |fetches| == |urls| && s.visited <= |urls|
    requires 0 < cap && s.count < cap
    ensures RunFrom(step, urls, fetches, cap, s).count <= cap
    decreases |urls| - s.visited
  {
    if s.visited < |urls| {
      var o := step(s.files, urls[s.visited], fetches[s.visited]);
      var next := Advance(s, o);
      if o.PaywallSkip? || next.count != cap {
        RunCountWithinCap(step, urls, fetches, cap, next);
      }
    }
  }

  /** Without a cap, or with one `count` has already passed, every URL is visited. */
  lemma {:induction false} RunVisitsAll(step: (map<string, string>, string, Fetch) -> PostOutcome,
                                        urls: seq<string>, fetches: seq<Fetch>, cap: int, s: RunState)
    requires |fetches| == |urls| && s.visited <= |urls|
    requires cap == 0 || cap <= s.count
    ensures RunFrom(step, urls, fetches, cap, s).visited == |urls|
    decreases |urls| - s.visited
  {
    if s.visited < |urls| {
      var o := step(s.files, urls[s.visited], fetches[s.visited]);
      RunVisitsAll(step, urls, fetches, cap, Advance(s, o));
    }
  }

  /**
   * A well-behaved run only adds paths, and leaves every existing path
   * that is not an HTML file as it was.
   */
  lemma {:induction false} RunFilesGrow(step: (map<string, string>, string, Fetch) -> PostOutcome,
                                        urls: seq<string>, fetches: seq<Fetch>, cap: int, s: RunState)
    requires WellBehaved(step)
    requires |fetches| == |urls| && s.visited <= |urls|
    ensures var r := RunFrom(step, urls, fetches, cap, s);
            && s.files.Keys <= r.files.Keys
            && (forall p :: p in s.files && !EndsWith(p, ".html") ==> r.files[p] == s.files[p])
    decreases |urls| - s.visited
  {
    if s.visited < |urls| {
      var o := step(s.files, urls[s.visited], fetches[s.visited]);
      assert SavesFreshly(s.files, o);
      var next := Advance(s, o);
      if o.PaywallSkip? || cap == 0 || next.count != cap {
        RunFilesGrow(step, urls, fetches, cap, next);
      }
    }
  }

  /**
   * Every record accumulated between states `a` and `b` names a Markdown
   * file absent in `a` and present in `b`.
   */
  ghost predicate RecordsFresh(a: RunState, b: RunState) {
    forall i :: |a.essays| <= i < |b.essays| ==>
      b.essays[i].fileLink !in a.files && b.essays[i].fileLink in b.files && EndsWith(b.essays[i].fileLink, ".md")
  }

  /** One step of a well-behaved run, followed by a stretch with fresh records, gives fresh records. */
  lemma FreshStep(s: RunState, o: PostOutcome, r: RunState)
    requires SavesFreshly(s.files, o)
    requires var next := Advance(s, o);
             && RecordsFresh(next, r)
             && next.files.Keys <= r.files.Keys
             && |next.essays| <= |r.essays| && r.essays[..|next.essays|] == next.essays
    ensures RecordsFresh(s, r)
  {
    var next := Advance(s, o);
    forall i | |s.essays| <= i < |r.essays|
      ensures r.essays[i].fileLink !in s.files && r.essays[i].fileLink in r.files && EndsWith(r.essays[i].fileLink, ".md")
    {
      if i < |next.essays| {
        assert o.Saved? && r.essays[i] == next.essays[i] == o.record;
      }
    }
  }

  /**
   * Every record a well-behaved run accumulates names a Markdown file that
   * did not exist when the run started and exists at its end.
   */
  lemma {:induction false} RunRecordsFresh(step: (map<string, string>, string, Fetch) -> PostOutcome,
                                           urls: seq<string>, fetches: seq<Fetch>, cap: int, s: RunState)
    requires WellBehaved(step)
    requires |fetches| == |urls| && s.visited <= |urls|
    ensures RecordsFresh(s, RunFrom(step, urls, fetches, cap, s))
    decreases |urls| - s.visited
  {
    if s.visited < |urls| {
      var o := step(s.files, urls[s.visited], fetches[s.visited]);
      assert SavesFreshly(s.files, o);
      var next := Advance(s, o);
      if o.PaywallSkip? || cap == 0 || next.count != cap {
        RunRecordsFresh(step, urls, fetches, cap, next);
        RunFilesGrow(step, urls, fetches, cap, next);
        FreshStep(s, o, RunFrom(step, urls, fetches, cap, next));
      } else {
        FreshStep(s, o, next);
      }
    }
  }

  /** No two records `b` added after `a` name the same Markdown file. */
  ghost predicate RecordsDistinct(a: RunState, b: RunState) {
    forall i, j :: |a.essays| <= i < j < |b.essays| ==> b.essays[i].fileLink != b.essays[j].fileLink
  }

  /** A record saved by one step differs from every record saved after it. */
  lemma DistinctStep(s: RunState, o: PostOutcome, r: RunState)
    requires SavesFreshly(s.files, o)
    requires var next := Advance(s, o);
             && RecordsDistinct(next, r) && RecordsFresh(next, r)
             && |next.essays| <= |r.essays| && r.essays[..|next.essays|] == next.essays
    ensures RecordsDistinct(s, r)
  {
    var next := Advance(s, o);
    forall i, j | |s.essays| <= i < j < |r.essays| ensures r.essays[i].fileLink != r.essays[j].fileLink {
      if i < |next.essays| {
        assert o.Saved? && r.essays[i] == next.essays[i] == o.record;
        assert |next.essays| <= j;
        assert r.essays[j].fileLink !in next.files;
      }
    }
  }

  /** No two records a well-behaved run accumulates name the same Markdown file. */
  lemma {:induction false} RunRecordsDistinct(step: (map<string, string>, string, Fetch) -> PostOutcome,
                                              urls: seq<string>, fetches: seq<Fetch>, cap: int, s: RunState)
    requires WellBehaved(step)
    requires |fetches| == |urls| && s.visited <= |urls|
    ensures RecordsDistinct(s, RunFrom(step, urls, fetches, cap, s))
    decreases |urls| - s.visited
  {
    if s.visited < |urls| {
      var o := step(s.files, urls[s.visited], fetches[s.visited]);
      assert SavesFreshly(s.files, o);
      var next := Advance(s, o);
      if o.PaywallSkip? || cap == 0 || next.count != cap {
        RunRecordsDistinct(step, urls, fetches, cap, next);
        RunRecordsFresh(step, urls, fetches, cap, next);
        DistinctStep(s, o, RunFrom(step, urls, fetches, cap, next));
      } else {
        DistinctStep(s, o, next);
      }
    }
  }

  /** Every Markdown file present in `b` but not in `a` is named by a record `b` added after `a`. */
  ghost predicate MarkdownRecorded(a: RunState, b: RunState) {
    forall p :: p in b.files && p !in a.files && EndsWith(p, ".md") ==>
      exists i :: |a.essays| <= i < |b.essays| && b.essays[i].fileLink == p
  }

  /** One step that saves freshly keeps every new Markdown file recorded. */
  lemma RecordedStep(s: RunState, o: PostOutcome, r: RunState)
    requires SavesFreshly(s.files, o)
    requires var next := Advance(s, o);
             && MarkdownRecorded(next, r)
             && |next.essays| <= |r.essays| && r.essays[..|next.essays|] == next.essays
    ensures MarkdownRecorded(s, r)
  {
    var next := Advance(s, o);
    forall p | p in r.files && p !in s.files && EndsWith(p, ".md")
      ensures exists i :: |s.essays| <= i < |r.essays| && r.essays[i].fileLink == p
    {
      if p in next.files {
        assert o.Saved? && p == o.record.fileLink;
        assert r.essays[|s.essays|] == next.essays[|s.essays|] == o.record;
      } else {
        var i :| |next.essays| <= i < |r.essays| && r.essays[i].fileLink == p;
      }
    }
  }

  /**
   * Every Markdown file a well-behaved run creates is named by one of the
   * records it accumulates.
   */
  lemma {:induction false} RunNewMarkdownRecorded(step: (map<string, string>, string, Fetch) -> PostOutcome,
                                                  urls: seq<string>, fetches: seq<Fetch>, cap: int, s: RunState)
    requires WellBehaved(step)
    requires |fetches| == |urls| && s.visited <= |urls|
    ensures MarkdownRecorded(s, RunFrom(step, urls, fetches, cap, s))
    decreases |urls| - s.visited
  {
    if s.visited < |urls| {
      var o := step(s.files, urls[s.visited], fetches[s.visited]);
      assert SavesFreshly(s.files, o);
      var next := Advance(s, o);
      if o.PaywallSkip? || cap == 0 || next.count != cap {
        RunNewMarkdownRecorded(step, urls, fetches, cap, next);
        RecordedStep(s, o, RunFrom(step, urls, fetches, cap, next));
      } else {
        RecordedStep(s, o, next);
      }
    }
  }

  /** The Markdown files present in `after` that were not in `before`. */
  ghost function NewMarkdown(before: map<string, string>, after: map<string, string>): set<string> {
    set p | p in after && p !in before && EndsWith(p, ".md")
  }

  /** New Markdown files over two stretches of a run that only adds paths add up. */
  lemma NewMarkdownSplit(a: map<string, string>, b: map<string, string>, c: map<string, string>)
    requires a.Keys <= b.Keys <= c.Keys
    ensures NewMarkdown(a, c) == NewMarkdown(a, b) + NewMarkdown(b, c)
    ensures NewMarkdown(a, b) !! NewMarkdown(b, c)
  {
  }

  /** One step that saves freshly adds as many new Markdown files as records. */
  lemma CountStep(s: RunState, o: PostOutcome, r: RunState)
    requires SavesFreshly(s.files, o)
    requires var next := Advance(s, o);
             && next.files.Keys <= r.files.Keys && |next.essays| <= |r.essays|
             && |NewMarkdown(next.files, r.files)| == |r.essays| - |next.essays|
    ensures |NewMarkdown(s.files, r.files)| == |r.essays| - |s.essays|
  {
    var next := Advance(s, o);
    if o.Saved? {
      assert NewMarkdown(s.files, next.files) == {o.record.fileLink};
    } else {
      assert NewMarkdown(s.files, next.files) == {};
    }
    NewMarkdownSplit(s.files, next.files, r.files);
  }

  /**
   * A well-behaved run creates exactly as many Markdown files as it
   * accumulates records.
   */
  lemma {:induction false} RunNewMarkdownCount(step: (map<string, string>, string, Fetch) -> PostOutcome,
                                               urls: seq<string>, fetches: seq<Fetch>, cap: int, s: RunState)
    requires WellBehaved(step)
    requires |fetches| == |urls| && s.visited <= |urls|
    ensures var r := RunFrom(step, urls, fetches, cap, s);
            |NewMarkdown(s.files, r.files)| == |r.essays| - |s.essays|
    decreases |urls| - s.visited
  {
    if s.visited < |urls| {
      var o := step(s.files, urls[s.visited], fetches[s.visited]);
      assert SavesFreshly(s.files, o);
      var next := Advance(s, o);
      if o.PaywallSkip? || cap == 0 || next.count != cap {
        RunNewMarkdownCount(step, urls, fetches, cap, next);
        RunFilesGrow(step, urls, fetches, cap, next);
        CountStep(s, o, RunFrom(step, urls, fetches, cap, next));
      } else {
        assert NewMarkdown(next.files, next.files) == {};
        CountStep(s, o, next);
      }
    }
  }

  /** A stretch of a run in which no step saves a post changes neither the files nor the records. */
  lemma {:induction false} RunFromNoneSaved(step: (map<string, string>, string, Fetch) -> PostOutcome,
                                            urls: seq<string>, fetches: seq<Fetch>, cap: int, s: RunState)
    requires |fetches| == |urls| && s.visited <= |urls|
    requires forall i :: s.visited <= i < |urls| ==> !step(s.files, urls[i], fetches[i]).Saved?
    ensures var r := RunFrom(step, urls, fetches, cap, s);
            r.files == s.files && r.essays == s.essays
    decreases |urls| - s.visited
  {
    if s.visited < |urls| {
      var o := step(s.files, urls[s.visited], fetches[s.visited]);
      var next := Advance(s, o);
      if o.PaywallSkip? || cap == 0 || next.count != cap {
        RunFromNoneSaved(step, urls, fetches, cap, next);
      }
    }
  }

  /**
   * Running again over posts whose Markdown files all exist writes
   * nothing and collects no records.
   */
  lemma RerunChangesNothing(env: Env, urls: seq<string>, fetches: seq<Fetch>, cap: int, files: map<string, string>)
    requires |fetches| == |urls|
    requires forall u :: u in urls ==> MdPath(env, u) in files
    ensures Run(env, urls, fetches, cap, files).files == files
    ensures Run(env, urls, fetches, cap, files).essays == []
  {
    var step := Step(env);
    forall i | 0 <= i < |urls| ensures !step(files, urls[i], fetches[i]).Saved? {
      assert urls[i] in urls;
    }
    RunFromNoneSaved(step, urls, fetches, cap, Start(files));
  }

  /**
   * What a `scrape_posts` run promises: it visits at most every URL, and
   * all of them unless a positive cap was reached; `count` is the number
   * of visited URLs that were not paywalled and never passes a positive
   * cap; at most `count` records are collected, none twice, and as many
   * Markdown files are created as records collected; existing files other
   * than HTML pages are left as they were.
   */
  lemma RunSummary(env: Env, urls: seq<string>, fetches: seq<Fetch>, cap: int, files: map<string, string>)
    requires |fetches| == |urls|
    ensures var r := Run(env, urls, fetches, cap, files);
            && r.visited <= |urls|
            && r.count == r.visited - r.paywalled
            && |r.essays| <= r.count
            && (cap <= 0 ==> r.visited == |urls|)
            && (r.visited < |urls| ==> 0 < cap && r.count == cap)
            && (0 < cap ==> r.count <= cap && |r.essays| <= cap)
            && NoDup(r.essays)
            && |NewMarkdown(files, r.files)| == |r.essays|
            && files.Keys <= r.files.Keys
            && (forall p :: p in files && !EndsWith(p, ".html") ==> r.files[p] == files[p])
  {
    var step := Step(env);
    var s := Start(files);
    var r := Run(env, urls, fetches, cap, files);
    ProcessPostWellBehaved(env);
    RunAccounting(step, urls, fetches, cap, s);
    RunStopsOnlyAtCap(step, urls, fetches, cap, s);
    if cap <= 0 {
      RunVisitsAll(step, urls, fetches, cap, s);
    } else {
      RunCountWithinCap(step, urls, fetches, cap, s);
    }
    RunRecordsDistinct(step, urls, fetches, cap, s);
    forall i, j | 0 <= i < j < |r.essays| ensures r.essays[i] != r.essays[j] {
      assert r.essays[i].fileLink != r.essays[j].fileLink;
    }
    RunNewMarkdownCount(step, urls, fetches, cap, s);
    RunFilesGrow(step, urls, fetches, cap, s);
  }

  /**
   * A scraper for one site: the normalised base URL, the site name, the
   * two output directories, the keywords that rule a URL out, and the
   * post URLs discovered when it was built.
   */
  class Scraper {
    const baseSubstackUrl: string
    const writerName: string
    const mdSaveDir: string
    const htmlSaveDir: string
    const keywords: seq<string>
    const postUrls: seq<string>

    /**
     * `netloc` is the host of the base URL; `sitemapUrls` and `feedUrls`
     * are what the site's sitemap and feed list. Discovery is skipped when
     * asked to or when the base URL names a single post.
     */
    constructor (baseUrl: string, netloc: string, mdDir: string, htmlDir: string, skipUrlFetch: bool,
                 sitemapUrls: seq<string>, feedUrls: seq<string>)
      ensures baseSubstackUrl == NormalizeBaseUrl(baseUrl)
      ensures writerName == ExtractMainPart(netloc)
      ensures mdSaveDir == mdDir + "/" + writerName
      ensures htmlSaveDir == htmlDir + "/" + writerName
      ensures keywords == Keywords
      ensures skipUrlFetch || LooksLikePostUrl(baseSubstackUrl) ==> postUrls == []
      ensures !skipUrlFetch && !LooksLikePostUrl(baseSubstackUrl) ==> postUrls == GetAllPostUrls(sitemapUrls, feedUrls, Keywords)
    {
      var base := NormalizeBaseUrl(baseUrl);
      baseSubstackUrl := base;
      var name := ExtractMainPart(netloc);
      writerName := name;
      mdSaveDir := mdDir + "/" + name;
      htmlSaveDir := htmlDir + "/" + name;
      keywords := Keywords;
      if skipUrlFetch || LooksLikePostUrl(base) {
        postUrls := [];
      } else {
        postUrls := GetAllPostUrls(sitemapUrls, feedUrls, Keywords);
      }
    }

    /** Where this scraper writes, with the stylesheet address and renderer it is given. */
    function Where(cssHref: string, render: string -> string): (env: Env)
      ensures env.mdSaveDir == mdSaveDir && env.htmlSaveDir == htmlSaveDir
      ensures env.cssHref == cssHref && env.render == render
    {
      Env(mdSaveDir, htmlSaveDir, cssHref, render)
    }

    /** The site's index file, named after the site inside the data directory. */
    function JsonPath(): (p: string)
      ensures EndsWith(p, writerName + ".json")
      ensures !StartsWith(writerName, "/") ==> p == JsonDataDir + "/" + writerName + ".json"
    {
      RootedConcat(writerName, ".json");
      assert ".json"[..1][0] == '.';
      assert !EndsWith(JsonDataDir, "/") by {
        assert JsonDataDir[|JsonDataDir| - 1] == 'a';
      }
      PathJoin(JsonDataDir, writerName + ".json")
    }

    /**
     * `save_essays_data_to_json`: merges `essays` into the site's index
     * when it exists, or writes them as they are when it does not.
     */
    method SaveEssaysDataToJson(fs: FileStore, essays: seq<PostRecord>)
      modifies fs
      ensures fs.indexes == old(fs.indexes)[JsonPath() := IndexAfterSave(old(fs.indexes), JsonPath(), essays)]
      ensures fs.files == old(fs.files)
    {
      var path := JsonPath();
      var data := essays;
      if path in fs.indexes {
        data := MergeIndex(fs.indexes[path], essays);
      }
      fs.WriteIndex(path, data);
    }

    /**
     * Handles one URL as both scraping operations do: skips it when its
     * Markdown file exists or when no page came back, and otherwise writes
     * the Markdown and HTML files and returns the record.
     */
    method ProcessOne(fs: FileStore, url: string, fetch: Fetch, cssHref: string, render: string -> string)
      returns (o: PostOutcome)
      modifies fs
      ensures o == ProcessPost(Where(cssHref, render), old(fs.files), url, fetch)
      ensures fs.files == FilesAfter(old(fs.files), o)
      ensures fs.indexes == old(fs.indexes)
    {
      if MdPath(Where(cssHref, render), url) in fs.files {
        o := AlreadySaved;
      } else if !fetch.Fetched? {
        o := if fetch.Paywalled? then PaywallSkip else PostFailed;
      } else {
        o := SavePost(fs, url, fetch.page, cssHref, render);
      }
    }

    /** `ProcessOne`, stated through a `step` that stands for `ProcessPost`. */
    method StepOne(fs: FileStore, ghost step: (map<string, string>, string, Fetch) -> PostOutcome,
                   url: string, fetch: Fetch, cssHref: string, render: string -> string)
      returns (o: PostOutcome)
      requires Implements(step, Where(cssHref, render))
      modifies fs
      ensures o == step(old(fs.files), url, fetch)
      ensures fs.files == FilesAfter(old(fs.files), o)
      ensures fs.indexes == old(fs.indexes)
    {
      o := ProcessOne(fs, url, fetch, cssHref, render);
    }

    /** Writes the two files of a post whose Markdown file is absent and returns its record. */
    method SavePost(fs: FileStore, url: string, page: Page, cssHref: string, render: string -> string)
      returns (o: PostOutcome)
      requires MdPath(Where(cssHref, render), url) !in fs.files
      modifies fs
      ensures o == ProcessPost(Where(cssHref, render), old(fs.files), url, Fetched(page))
      ensures o.Saved? && fs.files == o.files
      ensures fs.indexes == old(fs.indexes)
    {
      var env := Where(cssHref, render);
      var mdPath := MdPath(env, url);
      var htmlPath := HtmlPath(env, url);
      ProcessPostSaved(env, fs.files, url, page);
      var data := ExtractPostData(page);
      fs.SaveToFile(mdPath, data.markdown);
      fs.SaveToHtmlFile(htmlPath, cssHref, render(data.markdown));
      o := Saved(fs.files, RecordOf(data, mdPath, htmlPath));
    }

    /**
     * `scrape_posts`: walks the post URLs in order, `fetches[i]` being
     * what fetching `postUrls[i]` yields, stops once a non-zero
     * `numPostsToScrape` posts were counted, and then saves the collected
     * records to the index. It ends in the state `Run` describes.
     */
    method ScrapePosts(fs: FileStore, fetches: seq<Fetch>, cssHref: string, render: string -> string, numPostsToScrape: int)
      requires |fetches| == |postUrls|
      modifies fs
      ensures var r := Run(Where(cssHref, render), postUrls, fetches, numPostsToScrape, old(fs.files));
              && fs.files == r.files
              && fs.indexes == old(fs.indexes)[JsonPath() := IndexAfterSave(old(fs.indexes), JsonPath(), r.essays)]
    {
      StepImplements(Where(cssHref, render));
      var essays := VisitPosts(fs, Step(Where(cssHref, render)), fetches, cssHref, render, numPostsToScrape);
      SaveEssaysDataToJson(fs, essays);
    }

    /** The loop of `scrape_posts`, for a `step` that stands for `ProcessPost`; returns the collected records. */
    method VisitPosts(fs: FileStore, ghost step: (map<string, string>, string, Fetch) -> PostOutcome,
                      fetches: seq<Fetch>, cssHref: string, render: string -> string, numPostsToScrape: int)
      returns (essays: seq<PostRecord>)
      requires |fetches| == |postUrls|
      requires Implements(step, Where(cssHref, render))
      modifies fs
      ensures var r := RunFrom(step, postUrls, fetches, numPostsToScrape, Start(old(fs.files)));
              fs.files == r.files && essays == r.essays
      ensures fs.indexes == old(fs.indexes)
    {
      ghost var run := RunFrom(step, postUrls, fetches, numPostsToScrape, Start(fs.files));
      ghost var cur := Start(fs.files);
      essays := [];
      var count := 0;
      var i := 0;
      while i < |postUrls|
        invariant cur.visited == i <= |postUrls|
        invariant cur.files == fs.files && cur.essays == essays && cur.count == count
        invariant fs.indexes == old(fs.indexes)
        invariant RunFrom(step, postUrls, fetches, numPostsToScrape, cur) == run
        decreases |postUrls| - i
      {
        var o := StepOne(fs, step, postUrls[i], fetches[i], cssHref, render);
        RunFromStep(step, postUrls, fetches, numPostsToScrape, cur, o);
        cur := Advance(cur, o);
        i := i + 1;
        if o.PaywallSkip? {
          continue;
        }
        if o.Saved? {
          essays := essays + [o.record];
        }
        count := count + 1;
        if numPostsToScrape != 0 && count == numPostsToScrape {
          break;
        }
      }
    }

    /**
     * `scrape_single_post`: handles one URL and, when it was saved, merges
     * its one record into the index. A failed fetch is reported by the
     * outcome, where the source raises.
     */
    method ScrapeSinglePost(fs: FileStore, url: string, fetch: Fetch, cssHref: string, render: string -> string)
      returns (o: PostOutcome)
      modifies fs
      ensures o == ProcessPost(Where(cssHref, render), old(fs.files), url, fetch)
      ensures fs.files == FilesAfter(old(fs.files), o)
      ensures o.Saved? ==> fs.indexes == old(fs.indexes)[JsonPath() := IndexAfterSave(old(fs.indexes), JsonPath(), [o.record])]
      ensures !o.Saved? ==> fs.indexes == old(fs.indexes)
    {
      o := ProcessOne(fs, url, fetch, cssHref, render);
      if o.Saved? {
        SaveEssaysDataToJson(fs, [o.record]);
      }
    }
  }

  /**
   * What a step tells about the Markdown path `key(url)` of each URL: a
   * post is skipped as saved exactly when that file exists, a saved
   * post's file exists afterwards, and a page that came back for an
   * unsaved post is saved.
   */
  ghost predicate TracksMarkdown(step: (map<string, string>, string, Fetch) -> PostOutcome, key: string -> string) {
    forall files, url, fetch ::
      var o := step(files, url, fetch);
      && (o.AlreadySaved? <==> key(url) in files)
      && (o.Saved? ==> fetch.Fetched? && key(url) in o.files)
      && (fetch.Fetched? && !o.AlreadySaved? ==> o.Saved?)
  }

  /** The Markdown path of each URL in `env`. */
  function MdPathOf(env: Env): string -> string {
    url => MdPath(env, url)
  }

  lemma ProcessPostTracksMarkdown(env: Env)
    ensures TracksMarkdown(Step(env), MdPathOf(env))
  {
    var step := Step(env);
    var key := MdPathOf(env);
    forall files, url, fetch
      ensures var o := step(files, url, fetch);
              && (o.AlreadySaved? <==> key(url) in files)
              && (o.Saved? ==> fetch.Fetched? && key(url) in o.files)
              && (fetch.Fetched? && !o.AlreadySaved? ==> o.Saved?)
    {
      var o := ProcessPost(env, files, url, fetch);
      if o.Saved? {
        ProcessPostWrites(env, files, url, fetch);
      }
    }
  }

  /**
   * After a well-behaved run, every visited URL whose page came back has
   * its Markdown file.
   */
  lemma {:induction false} RunCoversFetched(step: (map<string, string>, string, Fetch) -> PostOutcome, key: string -> string,
                                            urls: seq<string>, fetches: seq<Fetch>, cap: int, s: RunState)
    requires WellBehaved(step) && TracksMarkdown(step, key)
    requires |fetches| == |urls| && s.visited <= |urls|
    ensures var r := RunFrom(step, urls, fetches, cap, s);
            forall i :: s.visited <= i < r.visited && fetches[i].Fetched? ==> key(urls[i]) in r.files
    decreases |urls| - s.visited
  {
    if s.visited < |urls| {
      var o := step(s.files, urls[s.visited], fetches[s.visited]);
      var next := Advance(s, o);
      var r := RunFrom(step, urls, fetches, cap, s);
      if o.PaywallSkip? || cap == 0 || next.count != cap {
        RunCoversFetched(step, key, urls, fetches, cap, next);
        RunFilesGrow(step, urls, fetches, cap, next);
        assert r == RunFrom(step, urls, fetches, cap, next);
      }
      if fetches[s.visited].Fetched? {
        assert key(urls[s.visited]) in next.files;
      }
    }
  }

  /**
   * Running `scrape_posts` a second time without a cap, with every URL
   * fetching as it did the first time, writes no file and collects no
   * record.
   */
  lemma SecondRunWritesNothing(env: Env, urls: seq<string>, fetches: seq<Fetch>, files: map<string, string>)
    requires |fetches| == |urls|
    ensures var first := Run(env, urls, fetches, 0, files);
            var second := Run(env, urls, fetches, 0, first.files);
            second.files == first.files && second.essays == []
  {
    var step := Step(env);
    var first := Run(env, urls, fetches, 0, files);
    ProcessPostWellBehaved(env);
    ProcessPostTracksMarkdown(env);
    RunVisitsAll(step, urls, fetches, 0, Start(files));
    RunCoversFetched(step, MdPathOf(env), urls, fetches, 0, Start(files));
    forall i | 0 <= i < |urls| ensures !step(first.files, urls[i], fetches[i]).Saved? {
    }
    RunFromNoneSaved(step, urls, fetches, 0, Start(first.files));
  }

  /** An index without duplicates stays so after a run's records are saved into it. */
  lemma RunKeepsIndexDistinct(env: Env, urls: seq<string>, fetches: seq<Fetch>, cap: int, files: map<string, string>,
                              indexes: map<string, seq<PostRecord>>, path: string)
    requires |fetches| == |urls|
    requires path in indexes ==> NoDup(indexes[path])
    ensures NoDup(IndexAfterSave(indexes, path, Run(env, urls, fetches, cap, files).essays))
  {
    RunSummary(env, urls, fetches, cap, files);
    IndexAfterSaveNoDup(indexes, path, Run(env, urls, fetches, cap, files).essays);
  }
}
