/** The admin article list (src/pages/admin/AdminNews.tsx): the search over title and category. */
module AdminNews {
  import opened Catalog
  import Text
  import Seqs
  import SearchFilter

  /** The fields an article is searched by: its title, then its category as the data spells it. */
  function NewsKey(a: NewsItem): (string, string)
  {
    (a.title, CategoryName(a.category))
  }

  predicate MatchesArticle(a: NewsItem, term: string)
  {
    Text.IncludesIgnoringCase(a.title, term) || Text.IncludesIgnoringCase(CategoryName(a.category), term)
  }

  /** `filteredNews`. */
  function FilteredNews(items: seq<NewsItem>, term: string): (r: seq<NewsItem>)
    ensures Seqs.IsSubsequence(r, items)
    ensures forall i :: 0 <= i < |r| ==> MatchesArticle(r[i], term)
  {
    SearchFilter.Search(items, NewsKey, term)
  }

  /** An article is listed exactly when its title or category contains the term, as often as it
      occurs; one matching neither is never listed. */
  lemma FilteredNewsExactly(items: seq<NewsItem>, term: string, a: NewsItem)
    ensures a in FilteredNews(items, term) <==> a in items && MatchesArticle(a, term)
    ensures multiset(FilteredNews(items, term))[a] == if MatchesArticle(a, term) then multiset(items)[a] else 0
  {
    SearchFilter.SearchExactly(items, NewsKey, term, a);
  }

  /** An empty search box lists every article. */
  lemma EmptySearchListsAllNews(items: seq<NewsItem>)
    ensures FilteredNews(items, "") == items
  {
    SearchFilter.SearchEmptyTerm(items, NewsKey);
  }

  /** The letter case of the term does not matter. */
  lemma NewsSearchIgnoresCase(items: seq<NewsItem>, t1: string, t2: string)
    requires Text.Lower(t1) == Text.Lower(t2)
    ensures FilteredNews(items, t1) == FilteredNews(items, t2)
  {
    SearchFilter.SearchIgnoresTermCase(items, NewsKey, t1, t2);
  }

  /** Excerpt and content are never searched: rewriting them changes no article's fate, so two
      lists that differ only there are narrowed to the same positions. */
  lemma BodyNeverSearched(items: seq<NewsItem>, excerpts: seq<string>, contents: seq<string>, term: string)
    requires |excerpts| == |items| && |contents| == |items|
    ensures var edited := seq(|items|, i requires 0 <= i < |items| =>
                                items[i].(excerpt := excerpts[i], content := contents[i]));
            forall i :: 0 <= i < |items| ==> (MatchesArticle(edited[i], term) <==> MatchesArticle(items[i], term))
    ensures (forall i :: 0 <= i < |items| ==> !MatchesArticle(items[i], term))
            ==> FilteredNews(seq(|items|, i requires 0 <= i < |items| =>
                                   items[i].(excerpt := excerpts[i], content := contents[i])), term) == []
  {
    var edited := seq(|items|, i requires 0 <= i < |items| =>
                        items[i].(excerpt := excerpts[i], content := contents[i]));
    SearchFilter.SearchEmpty(edited, NewsKey, term);
  }

  /** The list's empty state. */
  predicate ShowsNoArticlesFound(filtered: seq<NewsItem>)
  {
    |filtered| == 0
  }

  /** "No articles found" appears exactly when no article matches the term. */
  lemma NoArticlesFound(items: seq<NewsItem>, term: string)
    ensures ShowsNoArticlesFound(FilteredNews(items, term))
            <==> forall i :: 0 <= i < |items| ==> !MatchesArticle(items[i], term)
  {
    SearchFilter.SearchEmpty(items, NewsKey, term);
  }
}
