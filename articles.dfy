/** Articles as the news API returns them, and the keyword filter
    (`NewsBot.filter_news_by_keywords`, identical in bot.py, bot_simple.py and bot_demo.py). */
module Articles {
  import opened Wrappers
  import opened Text
  import opened Seqs

  /** One string-valued key of an article dict: absent, JSON `null`, or a string. */
  datatype Field = Missing | Null | Str(s: string)

  datatype Article = Article(title: Field, description: Field, url: Field, publishedAt: Field)

  /** `article.get(key, default)` for a key that is absent or holds a string. */
  function FieldOr(f: Field, default: string): string
  {
    match f
    case Str(s) => s
    case _ => default
  }

  /** The field holds a non-empty string, that is, it is truthy in a Python `if`. */
  predicate NonEmpty(f: Field)
  {
    f.Str? && f.s != ""
  }

  /** The filter calls `.lower()` on the title and the description; a JSON `null` there raises. */
  predicate HasNullText(a: Article)
  {
    a.title.Null? || a.description.Null?
  }

  /** The text the filter searches: lower-cased title, a space, lower-cased description. */
  function SearchText(a: Article): string
  {
    Lower(FieldOr(a.title, "")) + " " + Lower(FieldOr(a.description, ""))
  }

  /** Some keyword, lower-cased, is a substring of the article's search text. */
  predicate Matches(a: Article, keywords: seq<string>)
  {
    exists i :: 0 <= i < |keywords| && Contains(SearchText(a), Lower(keywords[i]))
  }

  function Matcher(keywords: seq<string>): Article -> bool
  {
    a => Matches(a, keywords)
  }

  /** An empty keyword (which splitting "a,,b" on commas produces) is a substring of every text,
      so a keyword list holding one keeps every article. */
  lemma {:induction false} EmptyKeywordKeepsAll(articles: seq<Article>, keywords: seq<string>)
    requires "" in keywords
    ensures Filter(articles, Matcher(keywords)) == articles
  {
    var j :| 0 <= j < |keywords| && keywords[j] == "";
    forall i | 0 <= i < |articles|
      ensures Matcher(keywords)(articles[i])
    {
      assert Lower(keywords[j]) == "";
      assert IsPrefix("", SearchText(articles[i]));
    }
    FilterAllPass(articles, Matcher(keywords));
  }

  /** What `filter_news_by_keywords` yields: the articles themselves for no keywords, a raise when
      some article has a null title or description, else the matching articles in order. */
  function KeywordFilter(articles: seq<Article>, keywords: seq<string>): Result<seq<Article>>
  {
    if keywords == [] then Ok(articles)
    else if exists i :: 0 <= i < |articles| && HasNullText(articles[i]) then Raised
    else Ok(Filter(articles, Matcher(keywords)))
  }

  /** The filter passes everything through for no keywords; otherwise it raises exactly when some
      article has a null title or description, and else keeps, in their order, exactly the articles
      that match some keyword. */
  lemma KeywordFilterCharacterised(articles: seq<Article>, keywords: seq<string>)
    ensures keywords == [] ==> KeywordFilter(articles, keywords) == Ok(articles)
    ensures keywords != [] ==> (KeywordFilter(articles, keywords).Raised? <==> exists i :: 0 <= i < |articles| && HasNullText(articles[i]))
    ensures var r := KeywordFilter(articles, keywords);
            && (r.Ok? ==> IsSubsequence(r.value, articles))
            && (r.Ok? && keywords != [] ==> forall a :: a in r.value ==> Matches(a, keywords))
            && (r.Ok? ==> forall i :: 0 <= i < |articles| && Matches(articles[i], keywords) ==> articles[i] in r.value)
            && (r.Ok? && keywords != [] ==>
                  forall a :: multiset(r.value)[a] == if Matches(a, keywords) then multiset(articles)[a] else 0)
  {
    if keywords == [] {
      SubsequenceReflexive(articles);
    } else {
      var kept := Filter(articles, Matcher(keywords));
      FilterIsSubsequence(articles, Matcher(keywords));
      FilterCounts(articles, Matcher(keywords));
      assert forall i :: 0 <= i < |articles| && Matches(articles[i], keywords) ==> multiset(kept)[articles[i]] > 0;
    }
  }

  /** `filter_news_by_keywords`: no keywords means pass-through; otherwise the articles matching some
      keyword, in order. Reading a `null` title or description raises, as `.lower()` on None does. */
  method FilterByKeywords(articles: seq<Article>, keywords: seq<string>) returns (r: Result<seq<Article>>)
    ensures r == KeywordFilter(articles, keywords)
  {
    if keywords == [] {
      return Ok(articles);
    }
    var filtered: seq<Article> := [];
    var i := 0;
    while i < |articles|
      invariant 0 <= i <= |articles|
      invariant forall j :: 0 <= j < i ==> !HasNullText(articles[j])
      invariant filtered == Filter(articles[..i], Matcher(keywords))
    {
      var article := articles[i];
      if HasNullText(article) {
        return Raised;
      }
      var content := SearchText(article);
      assert articles[..i + 1] == articles[..i] + [article];
      FilterSnoc(articles[..i], article, Matcher(keywords));
      if exists k :: 0 <= k < |keywords| && Contains(content, Lower(keywords[k])) {
        filtered := filtered + [article];
      }
      i := i + 1;
    }
    assert articles[..i] == articles;
    return Ok(filtered);
  }
}
