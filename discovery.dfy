/**
 * URL discovery: the sitemap-then-feed choice and the keyword filter that
 * removes non-article pages, plus the test that tells a post URL from a
 * site URL. Fetching and parsing the two XML sources is not modelled: their
 * URL lists are inputs.
 */
module Discovery {
  import opened Text
  import opened Lists

  /** Path fragments of pages that are not posts. */
  const Keywords: seq<string> := ["about", "archive", "podcast"]

  /** Some keyword occurs in the URL as a substring. */
  predicate Mentions(url: string, keywords: seq<string>) {
    exists k :: k in keywords && Contains(url, k)
  }

  /**
   * `filter_urls`: exactly the URLs in which no keyword occurs, in their
   * original order and with their original multiplicity.
   */
  function FilterUrls(urls: seq<string>, keywords: seq<string>): (r: seq<string>)
    ensures forall u, k :: u in r && k in keywords ==> !Contains(u, k)
    ensures forall u :: u in urls && !Mentions(u, keywords) ==> multiset(r)[u] == multiset(urls)[u]
    ensures forall u :: u in urls && Mentions(u, keywords) ==> u !in r
    ensures IsSubsequence(r, urls)
  {
    Filter(urls, u => !Mentions(u, keywords))
  }

  /**
   * `get_all_post_urls`: the sitemap's URLs when it gave any, the feed's
   * otherwise, filtered.
   */
  function GetAllPostUrls(sitemapUrls: seq<string>, feedUrls: seq<string>, keywords: seq<string>): (r: seq<string>)
    ensures sitemapUrls != [] ==> IsSubsequence(r, sitemapUrls)
    ensures sitemapUrls == [] ==> IsSubsequence(r, feedUrls)
    ensures forall u :: u in r ==> !Mentions(u, keywords)
    ensures forall u :: u in (if sitemapUrls != [] then sitemapUrls else feedUrls) && !Mentions(u, keywords) ==> u in r
    ensures var source := if sitemapUrls != [] then sitemapUrls else feedUrls;
            forall u :: u in source && !Mentions(u, keywords) ==> multiset(r)[u] == multiset(source)[u]
  {
    FilterUrls(if sitemapUrls != [] then sitemapUrls else feedUrls, keywords)
  }

  /** The base URL names a single post, so the constructor skips discovery. */
  predicate LooksLikePostUrl(url: string) {
    Contains(url, "/home/post/") || Contains(url, "/p/")
  }

  /** A URL looks like a post exactly when `/home/post/` or `/p/` occurs somewhere in it. */
  lemma LooksLikePostUrlIff(url: string)
    ensures LooksLikePostUrl(url) <==>
            (exists i :: OccursAt(url, "/home/post/", i)) || (exists i :: OccursAt(url, "/p/", i))
  {
    ContainsIffOccurs(url, "/home/post/");
    ContainsIffOccurs(url, "/p/");
  }

  /** Every URL with a `/p/` segment looks like a post, whatever surrounds it. */
  lemma PostPathLooksLikePost(site: string, slug: string)
    ensures LooksLikePostUrl(site + "/p/" + slug)
  {
    var url := site + "/p/" + slug;
    assert url[|site|..|site| + 3] == "/p/";
    OccursThenContains(url, "/p/", |site|);
  }
}
