/** `NewsBot.get_news` in its three variants and the test articles some variants fall back on.
    The NewsAPI request is a parameter `remote`. It maps a query to the article list of the reply,
    or to `None` when the request or the decoding raises. A reply without an `articles` key stands
    for `[]`. */
module Fetching {
  import opened Wrappers
  import opened Text
  import opened Articles
  import opened Subscriptions

  /** `NEWS_API_KEY` as read from the environment: unset, or some string. */
  type ApiKey = Option<string>

  /** `not self.news_api_key`: the key is unset or empty. */
  predicate KeyMissing(key: ApiKey)
  {
    key.None? || key.value == ""
  }

  /** The placeholder key that bot_simple.py and bot_demo.py treat like a missing one. */
  predicate KeyIsPlaceholder(key: ApiKey)
  {
    KeyMissing(key) || key.value == "test_key"
  }

  /** bot.py `get_news`: no key, or a failed request, gives no articles; otherwise the reply's. */
  function GetNews(key: ApiKey, query: string, remote: string -> Option<seq<Article>>): (r: seq<Article>)
    ensures KeyMissing(key) ==> r == []
    ensures !KeyMissing(key) && remote(query).None? ==> r == []
    ensures !KeyMissing(key) && remote(query).Some? ==> r == remote(query).value
  {
    if KeyMissing(key) then []
    else match remote(query)
      case None => []
      case Some(articles) => articles
  }

  const TestLink := "https://example.com"
  const SimpleNote := "Это тестовая новость для демонстрации работы бота."

  /** The one test article of bot_simple.py. */
  function SimpleTestArticle(query: string, now: Timestamp): (a: Article)
    ensures a.title.Str? && Contains(a.title.s, query)
    ensures NonEmpty(a.url) && NonEmpty(a.description) && a.publishedAt == Str(now)
  {
    Article(Str(Spliced("Тестовая новость по теме \"", query, "\"")),
            Str(SimpleNote),
            Str(TestLink), Str(now))
  }

  /** bot_simple.py `get_news`: a missing or placeholder key gives exactly one test article,
      which names the query; otherwise it behaves as bot.py's. */
  function SimpleGetNews(key: ApiKey, query: string, remote: string -> Option<seq<Article>>,
                         now: Timestamp): (r: seq<Article>)
    ensures KeyIsPlaceholder(key) ==> |r| == 1 && r[0] == SimpleTestArticle(query, now)
    ensures KeyIsPlaceholder(key) ==> r[0].title.Str? && Contains(r[0].title.s, query)
    ensures !KeyIsPlaceholder(key) ==> r == GetNews(key, query, remote)
  {
    if KeyIsPlaceholder(key) then [SimpleTestArticle(query, now)]
    else match remote(query)
      case None => []
      case Some(articles) => articles
  }

  /** bot_demo.py `get_test_news`: three articles, each naming the query in its title and its
      description, with distinct non-empty links. */
  function DemoTestNews(query: string, now: Timestamp): (r: seq<Article>)
    ensures |r| == 3
    ensures forall i :: 0 <= i < |r| ==> r[i].title.Str? && Contains(r[i].title.s, query)
    ensures forall i :: 0 <= i < |r| ==> r[i].description.Str? && Contains(r[i].description.s, query)
    ensures forall i :: 0 <= i < |r| ==> NonEmpty(r[i].url) && r[i].publishedAt == Str(now)
    ensures forall i, j :: 0 <= i < j < |r| ==> r[i].url != r[j].url
  {
    assert DemoLink1[24] == '1' && DemoLink2[24] == '2' && DemoLink3[24] == '3';
    [
      Article(Str(Spliced(DemoTitle1, query, DemoTitle1End)),
              Str(Spliced(DemoLead1, query, DemoNote1)),
              Str(DemoLink1), Str(now)),
      Article(Str(Spliced(DemoTitle2, query, DemoTitle2End)),
              Str(Spliced(DemoLead2, query, DemoNote2)),
              Str(DemoLink2), Str(now)),
      Article(Str(Spliced(DemoTitle3, query, "")),
              Str(Spliced(DemoLead3, query, DemoNote3)),
              Str(DemoLink3), Str(now))
    ]
  }

  /** The fixed pieces of the demo test articles, around the query. */
  const DemoTitle1 := "Новости о \""
  const DemoTitle1End := "\" - важные события"
  const DemoLead1 := "Обзор последних событий в области "
  const DemoTitle2 := "Развитие "
  const DemoTitle2End := " в 2024 году"
  const DemoLead2 := "Анализ текущего состояния и перспектив развития "
  const DemoTitle3 := "Инновации в сфере "
  const DemoLead3 := "Новые технологии и подходы в области "
  const DemoNote1 := ". Интересные факты и тенденции развития."
  const DemoNote2 := ". Экспертные мнения и прогнозы."
  const DemoNote3 := ". Практические примеры применения."
  const DemoLink1 := "https://example.com/news1"
  const DemoLink2 := "https://example.com/news2"
  const DemoLink3 := "https://example.com/news3"

  /** bot_demo.py `get_news`: the test articles stand in for a missing or placeholder key and for
      a request that raises; only a real key and a reply give the reply's articles. */
  function DemoGetNews(key: ApiKey, query: string, remote: string -> Option<seq<Article>>,
                       now: Timestamp): (r: seq<Article>)
    ensures KeyIsPlaceholder(key) || remote(query).None? ==> r == DemoTestNews(query, now)
    ensures !KeyIsPlaceholder(key) && remote(query).Some? ==> r == GetNews(key, query, remote)
    ensures r == [] <==> !KeyIsPlaceholder(key) && remote(query) == Some([])
  {
    if KeyIsPlaceholder(key) then DemoTestNews(query, now)
    else match remote(query)
      case None => DemoTestNews(query, now)
      case Some(articles) => articles
  }

  /** bot_minimal.py `get_test_news`: two articles, both naming the query in the title. */
  function MinimalTestNews(query: string, now: Timestamp): (r: seq<Article>)
    ensures |r| == 2
    ensures forall i :: 0 <= i < |r| ==> r[i].title.Str? && Contains(r[i].title.s, query)
    ensures forall i :: 0 <= i < |r| ==> NonEmpty(r[i].url) && NonEmpty(r[i].description)
  {
    [
      Article(Str(Spliced("Тестовая новость по теме \"", query, "\"")),
              Str(MinimalNote1),
              Str(TestLink), Str(now)),
      Article(Str(Spliced("Еще одна новость о \"", query, "\"")),
              Str(MinimalNote2),
              Str(TestLink), Str(now))
    ]
  }

  /** The fixed descriptions of the minimal variant's test articles. */
  const MinimalNote1 := "Это тестовая новость для демонстрации работы бота. "
                        + "В реальной версии здесь будут настоящие новости из NewsAPI."
  const MinimalNote2 := "Вторая тестовая новость для демонстрации функционала бота."
}
