/** The home page's news teaser (src/components/home/LatestNews.tsx): the first three items,
    each with a category colour, a category label and an optional image. */
module LatestNews {
  import opened Wrappers
  import opened Catalog
  import Text
  import Seqs

  const ShownCount: nat := 3

  /** `latestNews`. */
  function LatestNews(items: seq<NewsItem>): (r: seq<NewsItem>)
    ensures |r| <= ShownCount
  {
    Seqs.Take(items, ShownCount)
  }

  /** The teaser is the first min(3, n) items, in their order. */
  lemma LatestNewsIsPrefix(items: seq<NewsItem>)
    ensures LatestNews(items) == items[..Seqs.Min(ShownCount, |items|)]
    ensures |items| <= ShownCount ==> LatestNews(items) == items
  {
  }

  /** With the seed data the teaser shows the new flavour, the promotion and the update; the
      workshop event is not shown. */
  lemma SeedTeaser()
    ensures LatestNews(NewsItems()) == NewsItems()[..3]
    ensures [LatestNews(NewsItems())[0].category, LatestNews(NewsItems())[1].category,
             LatestNews(NewsItems())[2].category] == [NewFlavor, Promo, Update]
  {
  }

  const MutedClass: string := "bg-muted text-muted-foreground"

  /** `getCategoryColor`, over the category string. */
  function CategoryColor(category: string): string
  {
    if category == "new-flavor" then "bg-strawberry/20 text-strawberry"
    else if category == "promo" then "bg-primary/20 text-primary"
    else if category == "event" then "bg-mint/20 text-mint"
    else MutedClass
  }

  /** New flavours, promotions and events get three different colours; every other string,
      the "update" category among them, gets the muted default. */
  lemma CategoryColors(category: string)
    ensures CategoryColor(category) != MutedClass <==> category in {"new-flavor", "promo", "event"}
    ensures CategoryColor(CategoryName(Update)) == MutedClass
    ensures CategoryColor(CategoryName(NewFlavor)) != CategoryColor(CategoryName(Promo))
    ensures CategoryColor(CategoryName(NewFlavor)) != CategoryColor(CategoryName(Event))
    ensures CategoryColor(CategoryName(Promo)) != CategoryColor(CategoryName(Event))
  {
  }

  /** `category.replace("-", " ")`. */
  function CategoryLabel(category: string): (r: string)
    ensures |r| == |category|
  {
    Text.ReplaceFirst(category, '-', ' ')
  }

  /** Only the first hyphen becomes a space; every other character, later hyphens included, is
      kept; a label without hyphens is unchanged. */
  lemma CategoryLabelFirstHyphenOnly(category: string)
    ensures var k := Text.IndexOf(category, '-');
            && (k < |category| ==> CategoryLabel(category)[k] == ' ')
            && (forall j :: 0 <= j < |category| && j != k ==> CategoryLabel(category)[j] == category[j])
    ensures '-' !in category ==> CategoryLabel(category) == category
  {
    Text.ReplaceFirstExactlyFirst(category, '-', ' ');
    var k := Text.IndexOf(category, '-');
    if '-' !in category {
      assert k == |category|;
    }
  }

  /** The hyphenated seed category reads "new flavor". */
  lemma NewFlavorLabel()
    ensures CategoryLabel(CategoryName(NewFlavor)) == "new flavor"
  {
    var c := CategoryName(NewFlavor);
    Text.ReplaceFirstExactlyFirst(c, '-', ' ');
    assert Text.IndexOf(c, '-') == 3;
  }

  /** The other seed categories have no hyphen and read as they are spelled. */
  lemma PlainCategoryLabels(c: NewsCategory)
    requires c != NewFlavor
    ensures CategoryLabel(CategoryName(c)) == CategoryName(c)
  {
    assert '-' !in CategoryName(c);
    CategoryLabelFirstHyphenOnly(CategoryName(c));
  }

  /** `news.image && …`: the image block needs an image that is not the empty string. */
  predicate ShowsImage(item: NewsItem)
  {
    item.image.Some? && item.image.value != ""
  }

  /** The image block appears exactly for items carrying a non-empty image; every seed item has one. */
  lemma ImageBlock(item: NewsItem)
    ensures ShowsImage(item) <==> item.image != None && item.image != Some("")
    ensures forall i :: 0 <= i < |NewsItems()| ==> ShowsImage(NewsItems()[i])
  {
  }
}
