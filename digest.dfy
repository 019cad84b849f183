/** The per-topic step shared by the daily digest and the `digest` handlers: fetch the topic's
    articles, narrow them by its keywords, and render a block when anything is left. */
module Digest {
  import opened Wrappers
  import opened Text
  import opened Seqs
  import opened Articles
  import opened Composer
  import opened Subscriptions

  /** How a block is framed: bot.py's `send_daily_digest` and bot_simple.py's `digest` put the
      divider after the message; bot.py's `digest` handler puts it before and a newline after. */
  datatype BlockStyle = DividerAfter | DividerBefore

  const Rule := Repeat('=', 50)

  /** The articles that go into a topic's block. The news fetch is abstract: `fetch(query)` is what
      `get_news` returns, already `[]` on any request failure. The filter runs only when the topic
      has keywords, and may raise on a null title or description. */
  function TopicArticles(t: Topic, fetch: string -> seq<Article>): Result<seq<Article>>
  {
    KeywordFilter(fetch(t.name), t.keywords)
  }

  /** The topic has something to show. */
  predicate HasNews(t: Topic, fetch: string -> seq<Article>)
  {
    TopicArticles(t, fetch).Ok? && TopicArticles(t, fetch).value != []
  }

  predicate Raises(t: Topic, fetch: string -> seq<Article>)
  {
    TopicArticles(t, fetch).Raised?
  }

  /** A composed message framed by the divider line in the given style; the message is kept whole. */
  function Framed(message: string, style: BlockStyle): (r: string)
    ensures Contains(r, message) && r != ""
  {
    match style
    case DividerAfter =>
      ContainsMiddle("", message, "\n" + Rule + "\n\n");
      assert "" + message + ("\n" + Rule + "\n\n") == message + "\n" + Rule + "\n\n";
      message + "\n" + Rule + "\n\n"
    case DividerBefore =>
      ContainsMiddle("\n" + Rule + "\n", message, "\n");
      "\n" + Rule + "\n" + message + "\n"
  }

  /** The text one topic adds to the digest: nothing when it has no articles, otherwise its
      composed message framed by the divider. */
  function TopicBlock(t: Topic, fetch: string -> seq<Article>, format: string -> Option<string>,
                      style: BlockStyle): (r: Result<string>)
    ensures r.Raised? <==> Raises(t, fetch)
    ensures r.Ok? ==> (r.value != "" <==> HasNews(t, fetch))
  {
    match TopicArticles(t, fetch)
    case Raised => Raised
    case Ok(articles) =>
      if articles == [] then Ok("")
      else Ok(Framed(NewsMessage(articles, t.name, FullLayout, format), style))
  }

  /** A topic with news shows its whole composed message in its block. */
  lemma BlockShowsMessage(t: Topic, fetch: string -> seq<Article>, format: string -> Option<string>, style: BlockStyle)
    requires HasNews(t, fetch)
    ensures Contains(TopicBlock(t, fetch, format, style).value, NewsMessage(TopicArticles(t, fetch).value, t.name, FullLayout, format))
  {
    var message := NewsMessage(TopicArticles(t, fetch).value, t.name, FullLayout, format);
    assert TopicBlock(t, fetch, format, style) == Ok(Framed(message, style));
  }

  /** The blocks of the given topics, in order; raising if any topic raises. */
  function Blocks(topics: seq<Topic>, fetch: string -> seq<Article>, format: string -> Option<string>,
                  style: BlockStyle): (r: Result<string>)
  {
    if topics == [] then Ok("")
    else
      match Blocks(topics[..|topics| - 1], fetch, format, style)
      case Raised => Raised
      case Ok(text) =>
        match TopicBlock(topics[|topics| - 1], fetch, format, style)
        case Raised => Raised
        case Ok(block) => Ok(text + block)
  }

  /** The blocks raise exactly when some topic raises, and otherwise stay empty exactly when no
      topic has news: so a digest is sent with content iff some topic produced articles. */
  lemma {:induction false} BlocksCharacterised(topics: seq<Topic>, fetch: string -> seq<Article>,
                                              format: string -> Option<string>, style: BlockStyle)
    ensures Blocks(topics, fetch, format, style).Raised? <==> exists i :: 0 <= i < |topics| && Raises(topics[i], fetch)
    ensures Blocks(topics, fetch, format, style).Ok? ==>
              (Blocks(topics, fetch, format, style).value == "" <==> forall i :: 0 <= i < |topics| ==> !HasNews(topics[i], fetch))
  {
    if topics != [] {
      var init := topics[..|topics| - 1];
      BlocksCharacterised(init, fetch, format, style);
      assert forall i :: 0 <= i < |init| ==> init[i] == topics[i];
      assert topics == init + [topics[|topics| - 1]];
    }
  }

  /** The names of the topics with news, in order (bot.py's `processed_topics`). */
  function TopicsWithNews(topics: seq<Topic>, fetch: string -> seq<Article>): (r: seq<string>)
    ensures |r| <= |topics|
    ensures r == [] <==> forall i :: 0 <= i < |topics| ==> !HasNews(topics[i], fetch)
  {
    if topics == [] then []
    else
      var last := topics[|topics| - 1];
      TopicsWithNews(topics[..|topics| - 1], fetch) + (if HasNews(last, fetch) then [last.name] else [])
  }

  /** One topic's turn in the digest loops: fetch, filter when the topic has keywords, and frame
      the composed message when any article is left. */
  method TopicStep(t: Topic, fetch: string -> seq<Article>, format: string -> Option<string>,
                   style: BlockStyle) returns (r: Result<string>)
    ensures r == TopicBlock(t, fetch, format, style)
  {
    var articles := fetch(t.name);
    if t.keywords != [] {
      var filtered := FilterByKeywords(articles, t.keywords);
      if filtered.Raised? {
        return Raised;
      }
      articles := filtered.value;
    }
    if articles == [] {
      return Ok("");
    }
    var message := FormatNewsMessage(articles, t.name, FullLayout, format);
    return Ok(Framed(message, style));
  }

  /** The per-topic loop of `send_daily_digest` and of bot_simple.py's `digest` handler: fetch,
      filter when the topic has keywords, and append the block of every topic with articles.
      `hasNews` is the source's `has_news` flag. */
  method CollectBlocks(topics: seq<Topic>, fetch: string -> seq<Article>, format: string -> Option<string>,
                       style: BlockStyle) returns (r: Result<string>, hasNews: bool)
    ensures r == Blocks(topics, fetch, format, style)
    ensures r.Raised? <==> exists i :: 0 <= i < |topics| && Raises(topics[i], fetch)
    ensures r.Ok? ==> (hasNews <==> exists i :: 0 <= i < |topics| && HasNews(topics[i], fetch))
  {
    var text := "";
    hasNews := false;
    for k := 0 to |topics|
      invariant Blocks(topics[..k], fetch, format, style) == Ok(text)
      invariant hasNews <==> text != ""
    {
      assert topics[..k + 1][..k] == topics[..k];
      var block := TopicStep(topics[k], fetch, format, style);
      if block.Raised? {
        r := Raised;
        BlocksPrefixRaises(topics, k + 1, fetch, format, style);
        BlocksCharacterised(topics, fetch, format, style);
        return;
      }
      if block.value != "" {
        hasNews := true;
        text := text + block.value;
      } else {
        assert text + "" == text;
      }
    }
    assert topics[..|topics|] == topics;
    BlocksCharacterised(topics, fetch, format, style);
    r := Ok(text);
  }

  /** Once a prefix of the topics raises, so do the blocks of all the topics. */
  lemma {:induction false} BlocksPrefixRaises(topics: seq<Topic>, k: nat, fetch: string -> seq<Article>,
                                             format: string -> Option<string>, style: BlockStyle)
    requires k <= |topics|
    requires Blocks(topics[..k], fetch, format, style).Raised?
    ensures Blocks(topics, fetch, format, style).Raised?
    decreases |topics| - k
  {
    if k < |topics| {
      assert topics[..k + 1][..k] == topics[..k];
      BlocksPrefixRaises(topics, k + 1, fetch, format, style);
    } else {
      assert topics[..k] == topics;
    }
  }

  /** The opening line of a daily digest. */
  const DailyHeader := "📰 <b>Ежедневный дайджест новостей</b>\n\n"

  /** Sent instead of a digest when no topic produced articles. */
  const NoNewsToday := "📰 Сегодня новостей по вашим темам не найдено."

  datatype Delivery = Delivery(chat: UserId, text: string)

  /** What the daily run does for one user: skip them, fail (an exception, caught), or deliver. */
  datatype UserRun = Skipped | Failed | Delivered(text: string)

  /** The text sent to a user: the header and the blocks, or the "no news" notice when there are
      no blocks. The two cannot be confused: a digest never reads as the notice. */
  function DigestText(body: string): (r: string)
    ensures body == "" ==> r == NoNewsToday
    ensures body != "" ==> IsPrefix(DailyHeader, r) && r[|DailyHeader|..] == body && r != NoNewsToday
  {
    if body != "" then
      var r := DailyHeader + body;
      assert r[2] == '<' && NoNewsToday[2] == 'С';
      r
    else NoNewsToday
  }

  /** One user's part of `send_daily_digest`. `send(user, text)` says whether `send_message`
      returns normally; when it raises, the user counts as failed. */
  function RunFor(user: UserId, sub: Subscription, fetch: string -> seq<Article>, format: string -> Option<string>,
                  send: (UserId, string) -> bool): UserRun
  {
    if !sub.dailyDigest || sub.topics == [] then Skipped
    else
      match Blocks(sub.topics, fetch, format, DividerAfter)
      case Raised => Failed
      case Ok(body) =>
        var text := DigestText(body);
        if send(user, text) then Delivered(text) else Failed
  }

  /** A user is skipped exactly when digests are off or they have no topics; a user fails when a
      topic raises; a delivered text went through `send`, and it is the "no news" notice exactly
      when no topic had news, the digest header otherwise. Conversely, an enabled user with topics
      none of which raises is delivered exactly when the send succeeds, with the digest text, or
      with the notice when no topic has news. */
  lemma RunForCharacterised(user: UserId, sub: Subscription, fetch: string -> seq<Article>,
                            format: string -> Option<string>, send: (UserId, string) -> bool)
    ensures RunFor(user, sub, fetch, format, send).Skipped? <==> !sub.dailyDigest || sub.topics == []
    ensures (sub.dailyDigest && exists i :: 0 <= i < |sub.topics| && Raises(sub.topics[i], fetch)) ==>
              RunFor(user, sub, fetch, format, send).Failed?
    ensures RunFor(user, sub, fetch, format, send).Delivered? ==>
              var text := RunFor(user, sub, fetch, format, send).text;
              && send(user, text)
              && (text == NoNewsToday <==> forall i :: 0 <= i < |sub.topics| ==> !HasNews(sub.topics[i], fetch))
              && (text != NoNewsToday ==> IsPrefix(DailyHeader, text))
    ensures (sub.dailyDigest && sub.topics != [] && forall i :: 0 <= i < |sub.topics| ==> !Raises(sub.topics[i], fetch)) ==>
              && Blocks(sub.topics, fetch, format, DividerAfter).Ok?
              && var text := DigestText(Blocks(sub.topics, fetch, format, DividerAfter).value);
                 RunFor(user, sub, fetch, format, send) == if send(user, text) then Delivered(text) else Failed
    ensures (sub.dailyDigest && sub.topics != []
             && forall i :: 0 <= i < |sub.topics| ==> !Raises(sub.topics[i], fetch) && !HasNews(sub.topics[i], fetch)) ==>
              RunFor(user, sub, fetch, format, send) == if send(user, NoNewsToday) then Delivered(NoNewsToday) else Failed
  {
    BlocksCharacterised(sub.topics, fetch, format, DividerAfter);
  }

  /** A user's record after the run: `last_digest` is set exactly when something was delivered,
      whether that was a digest or the "no news" notice. */
  function Stamped(sub: Subscription, run: UserRun, now: Timestamp): (r: Subscription)
    ensures r.topics == sub.topics && r.keywords == sub.keywords && r.dailyDigest == sub.dailyDigest
    ensures r.lastDigest == if run.Delivered? then Some(now) else sub.lastDigest
  {
    if run.Delivered? then sub.(lastDigest := Some(now)) else sub
  }

  /** The messages the daily run delivers, user by user in iteration order. */
  function Deliveries(order: seq<UserId>, store: Store, fetch: string -> seq<Article>,
                      format: string -> Option<string>, send: (UserId, string) -> bool): seq<Delivery>
    requires forall i :: 0 <= i < |order| ==> order[i] in store
  {
    if order == [] then []
    else
      var user := order[|order| - 1];
      var run := RunFor(user, store[user], fetch, format, send);
      Deliveries(order[..|order| - 1], store, fetch, format, send)
        + (if run.Delivered? then [Delivery(user, run.text)] else [])
  }

  /** Some one of the first `k` users in `order` has a message delivered. */
  ghost predicate SomeDelivered(order: seq<UserId>, k: nat, store: Store, fetch: string -> seq<Article>,
                                format: string -> Option<string>, send: (UserId, string) -> bool)
    requires k <= |order| && forall i :: 0 <= i < |order| ==> order[i] in store
  {
    exists j :: 0 <= j < k && RunFor(order[j], store[order[j]], fetch, format, send).Delivered?
  }

  lemma SomeDeliveredStep(order: seq<UserId>, k: nat, store: Store, fetch: string -> seq<Article>,
                          format: string -> Option<string>, send: (UserId, string) -> bool)
    requires k < |order| && forall i :: 0 <= i < |order| ==> order[i] in store
    ensures SomeDelivered(order, k + 1, store, fetch, format, send)
        <==> SomeDelivered(order, k, store, fetch, format, send)
             || RunFor(order[k], store[order[k]], fetch, format, send).Delivered?
  {
  }

  /** The store after the daily run has visited the given users in order: each visited user's
      record is stamped by their own run, computed from their record as it was loaded. */
  function DigestRun(order: seq<UserId>, store: Store, fetch: string -> seq<Article>,
                     format: string -> Option<string>, send: (UserId, string) -> bool, now: Timestamp): Store
    requires forall i :: 0 <= i < |order| ==> order[i] in store
  {
    if order == [] then store
    else
      var user := order[|order| - 1];
      var visited := DigestRun(order[..|order| - 1], store, fetch, format, send, now);
      visited[user := Stamped(store[user], RunFor(user, store[user], fetch, format, send), now)]
  }

  /** The run changes records, never who has one. */
  lemma {:induction false} DigestRunKeys(order: seq<UserId>, store: Store, fetch: string -> seq<Article>,
                                         format: string -> Option<string>, send: (UserId, string) -> bool,
                                         now: Timestamp)
    requires forall i :: 0 <= i < |order| ==> order[i] in store
    ensures DigestRun(order, store, fetch, format, send, now).Keys == store.Keys
  {
    if order != [] {
      DigestRunKeys(order[..|order| - 1], store, fetch, format, send, now);
    }
  }

  /** Over distinct users, every visited user's record is stamped by their own run, computed from
      the record as loaded; with `DigestRunUnvisited`, everyone else's record is left alone. */
  lemma {:induction false} DigestRunVisited(order: seq<UserId>, store: Store, fetch: string -> seq<Article>,
                                            format: string -> Option<string>, send: (UserId, string) -> bool,
                                            now: Timestamp)
    requires forall i :: 0 <= i < |order| ==> order[i] in store
    requires forall i, j :: 0 <= i < j < |order| ==> order[i] != order[j]
    ensures forall i :: 0 <= i < |order| ==>
              && order[i] in DigestRun(order, store, fetch, format, send, now)
              && DigestRun(order, store, fetch, format, send, now)[order[i]]
                   == Stamped(store[order[i]], RunFor(order[i], store[order[i]], fetch, format, send), now)
  {
    if order != [] {
      var init, last := order[..|order| - 1], order[|order| - 1];
      DigestRunKeys(order, store, fetch, format, send, now);
      DigestRunVisited(init, store, fetch, format, send, now);
      var prev := DigestRun(init, store, fetch, format, send, now);
      var r := DigestRun(order, store, fetch, format, send, now);
      assert r == prev[last := Stamped(store[last], RunFor(last, store[last], fetch, format, send), now)];
      forall i | 0 <= i < |order|
        ensures order[i] in r
        ensures r[order[i]] == Stamped(store[order[i]], RunFor(order[i], store[order[i]], fetch, format, send), now)
      {
        if i < |init| {
          assert order[i] == init[i] && order[i] != last;
        }
      }
    }
  }

  /** A user the run has not reached yet still has the record that was loaded. */
  lemma {:induction false} DigestRunUnvisited(order: seq<UserId>, store: Store, fetch: string -> seq<Article>,
                                             format: string -> Option<string>, send: (UserId, string) -> bool,
                                             now: Timestamp, user: UserId)
    requires forall i :: 0 <= i < |order| ==> order[i] in store
    requires user in store && forall i :: 0 <= i < |order| ==> order[i] != user
    ensures user in DigestRun(order, store, fetch, format, send, now)
    ensures DigestRun(order, store, fetch, format, send, now)[user] == store[user]
  {
    if order != [] {
      DigestRunUnvisited(order[..|order| - 1], store, fetch, format, send, now, user);
    }
  }
}
