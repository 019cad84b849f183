/** `NewsBot.format_news_message`: the numbered HTML block for one topic. bot.py, bot_simple.py and
    bot_demo.py render at most 5 entries with 200-character descriptions and a date line;
    bot_minimal.py renders at most 3 entries with 150-character descriptions and no date line. */
module Composer {
  import opened Wrappers
  import opened Text
  import opened Seqs
  import opened Articles

  datatype Layout = Layout(maxEntries: nat, descriptionLimit: nat, dateLine: bool)

  const FullLayout := Layout(5, 200, true)
  const MinimalLayout := Layout(3, 150, false)

  /** Shown in the date line when the article has no date or the date does not parse. */
  const NoDate := "Дата неизвестна"

  /** Shown for an article without a `title` key. */
  const NoTitle := "Без заголовка"

  /** The reply for an empty article list. */
  function NotFound(topic: string): (r: string)
    ensures Contains(r, topic)
  {
    ContainsMiddle("📰 По теме '", topic, "' новостей не найдено.");
    "📰 По теме '" + topic + "' новостей не найдено."
  }

  /** How the header, unlike the "not found" sentence, opens: the bold tag. */
  const HeaderOpening := "📰 <b>"

  /** The first line of a message that has articles. */
  function Header(topic: string): (r: string)
    ensures Contains(r, topic)
    ensures IsPrefix(HeaderOpening, r)
  {
    var opening := HeaderOpening + "Новости по теме: ";
    ContainsMiddle(opening, topic, "</b>\n\n");
    var r := opening + topic + "</b>\n\n";
    assert r[..|HeaderOpening|] == HeaderOpening;
    r
  }

  /** `article.get('title', 'Без заголовка')` inside an f-string: a JSON null prints as `None`. */
  function TitleText(f: Field): (r: string)
    ensures f.Str? ==> r == f.s
    ensures f.Missing? ==> r == NoTitle
    ensures f.Null? ==> r == "None"
  {
    match f
    case Missing => NoTitle
    case Null => "None"
    case Str(s) => s
  }

  /** The date shown for an article. `format` stands for ISO parsing followed by `strftime`, and
      yields None where parsing raises; a missing, null or empty date, or one that does not parse,
      shows `NoDate`. */
  function DateText(f: Field, format: string -> Option<string>): (r: string)
    ensures !NonEmpty(f) ==> r == NoDate
    ensures NonEmpty(f) && format(f.s).None? ==> r == NoDate
    ensures NonEmpty(f) && format(f.s).Some? ==> r == format(f.s).value
  {
    if NonEmpty(f) then format(f.s).GetOr(NoDate) else NoDate
  }

  /** The description line: present iff the description is a non-empty string, and then holding
      the description cut to `limit` characters, with `...` iff it was longer. */
  function DescriptionLine(f: Field, limit: nat): (r: string)
    ensures r != "" <==> NonEmpty(f)
    ensures NonEmpty(f) ==> r == "   " + Truncate(f.s, limit) + "\n"
  {
    if NonEmpty(f) then "   " + Truncate(f.s, limit) + "\n" else ""
  }

  /** The link line: present iff the url is a non-empty string, and then linking to that url. */
  function LinkLine(f: Field): (r: string)
    ensures r != "" <==> NonEmpty(f)
    ensures NonEmpty(f) ==> Contains(r, f.s)
  {
    if NonEmpty(f) then
      ContainsMiddle("   🔗 <a href='", f.s, "'>Читать далее</a>\n");
      "   🔗 <a href='" + f.s + "'>Читать далее</a>\n"
    else ""
  }

  /** The line closing an entry: the date and a blank line in the full layout, only the blank
      line in the minimal one. */
  function DateLine(a: Article, layout: Layout, format: string -> Option<string>): (r: string)
    ensures layout.dateLine ==> Contains(r, DateText(a.publishedAt, format))
    ensures !layout.dateLine ==> r == "\n"
  {
    if layout.dateLine then Spliced("   📅 ", DateText(a.publishedAt, format), "\n\n") else "\n"
  }

  /** The entry numbered `n` for one article. */
  function Entry(n: nat, a: Article, layout: Layout, format: string -> Option<string>): (r: string)
    ensures IsPrefix(Decimal(n) + ". <b>" + TitleText(a.title) + "</b>\n", r)
  {
    var head := Decimal(n) + ". <b>" + TitleText(a.title) + "</b>\n";
    var r := head + DescriptionLine(a.description, layout.descriptionLimit) + LinkLine(a.url)
                  + DateLine(a, layout, format);
    assert r[..|head|] == head;
    r
  }

  /** How many entries are rendered: the first `maxEntries` articles, or all if fewer. */
  function EntryCount(articles: seq<Article>, layout: Layout): (n: nat)
    ensures n <= |articles| && n <= layout.maxEntries
    ensures n == |articles| || n == layout.maxEntries
  {
    if |articles| < layout.maxEntries then |articles| else layout.maxEntries
  }

  /** The first `n` entries, numbered from 1 in article order. */
  function Entries(articles: seq<Article>, n: nat, layout: Layout, format: string -> Option<string>): (r: seq<string>)
    requires n <= |articles|
    ensures |r| == n
    ensures forall i :: 0 <= i < n ==> r[i] == Entry(i + 1, articles[i], layout, format)
  {
    if n == 0 then []
    else
      var front := Entries(articles, n - 1, layout, format);
      var last := Entry(n, articles[n - 1], layout, format);
      var r := front + [last];
      assert forall i | 0 <= i < n :: r[i] == Entry(i + 1, articles[i], layout, format) by {
        forall i | 0 <= i < n
          ensures r[i] == Entry(i + 1, articles[i], layout, format)
        {
          if i < n - 1 {
            assert r[i] == front[i];
          }
        }
      }
      r
  }

  /** The message for a topic: the "not found" sentence for no articles, else the header followed
      by one entry for each of the first `EntryCount` articles. */
  function NewsMessage(articles: seq<Article>, topic: string, layout: Layout, format: string -> Option<string>): (r: string)
    ensures articles == [] <==> r == NotFound(topic)
    ensures articles != [] ==> IsPrefix(Header(topic), r)
  {
    if articles == [] then NotFound(topic)
    else
      var r := Header(topic) + Concat(Entries(articles, EntryCount(articles, layout), layout, format));
      assert r[..|Header(topic)|] == Header(topic);
      assert r[..|HeaderOpening|] == HeaderOpening;
      assert NotFound(topic)[..|HeaderOpening|] != HeaderOpening by {
        assert NotFound(topic)[2] != HeaderOpening[2];
      }
      r
  }

  /** Only the first `maxEntries` articles can show: dropping the rest changes nothing. */
  lemma {:induction false} LaterArticlesIgnored(articles: seq<Article>, topic: string, layout: Layout,
                                                format: string -> Option<string>)
    requires layout.maxEntries > 0
    ensures NewsMessage(articles, topic, layout, format)
         == NewsMessage(articles[..EntryCount(articles, layout)], topic, layout, format)
  {
    var n := EntryCount(articles, layout);
    var front := articles[..n];
    if articles != [] {
      assert front != [] by { assert front[0] == articles[0]; }
      assert EntryCount(front, layout) == n;
      assert Entries(articles, n, layout, format) == Entries(front, n, layout, format);
    }
  }

  /** Every message, with or without articles, names its topic. */
  lemma MessageNamesTopic(articles: seq<Article>, topic: string, layout: Layout, format: string -> Option<string>)
    ensures Contains(NewsMessage(articles, topic, layout, format), topic)
  {
    if articles != [] {
      ContainsInPrefix(Header(topic), NewsMessage(articles, topic, layout, format), topic);
    }
  }

  lemma EntriesSnoc(articles: seq<Article>, i: nat, layout: Layout, format: string -> Option<string>)
    requires i < |articles|
    ensures Concat(Entries(articles, i + 1, layout, format))
         == Concat(Entries(articles, i, layout, format)) + Entry(i + 1, articles[i], layout, format)
  {
    ConcatSnoc(Entries(articles, i, layout, format), Entry(i + 1, articles[i], layout, format));
  }

  /** The body of `format_news_message`'s loop: the entry for one article, built piece by piece. */
  method BuildEntry(n: nat, article: Article, layout: Layout, format: string -> Option<string>)
    returns (entry: string)
    ensures entry == Entry(n, article, layout, format)
  {
    entry := Decimal(n) + ". <b>" + TitleText(article.title) + "</b>\n";
    if NonEmpty(article.description) {
      entry := entry + ("   " + Truncate(article.description.s, layout.descriptionLimit) + "\n");
    } else {
      assert entry + DescriptionLine(article.description, layout.descriptionLimit) == entry;
    }
    if NonEmpty(article.url) {
      entry := entry + ("   🔗 <a href='" + article.url.s + "'>Читать далее</a>\n");
    } else {
      assert entry + LinkLine(article.url) == entry;
    }
    if layout.dateLine {
      entry := entry + ("   📅 " + DateText(article.publishedAt, format) + "\n\n");
    } else {
      entry := entry + "\n";
    }
  }

  /** `format_news_message`, building the message with `+=` as the source does. */
  method FormatNewsMessage(articles: seq<Article>, topic: string, layout: Layout,
                           format: string -> Option<string>) returns (message: string)
    ensures message == NewsMessage(articles, topic, layout, format)
    ensures articles == [] ==> message == NotFound(topic)
    ensures articles != [] ==> IsPrefix(Header(topic), message)
  {
    if articles == [] {
      return NotFound(topic);
    }
    message := Header(topic);
    var n := EntryCount(articles, layout);
    for i := 0 to n
      invariant message == Header(topic) + Concat(Entries(articles, i, layout, format))
    {
      var entry := BuildEntry(i + 1, articles[i], layout, format);
      AppendAssociative(Header(topic), Concat(Entries(articles, i, layout, format)), entry);
      EntriesSnoc(articles, i, layout, format);
      message := message + entry;
    }
  }
}
