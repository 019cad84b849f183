/** `demo_bot` of bot_demo.py without its console output: three topics are added for one user,
    read back, and a message is composed for each of the first two. */
module Demo {
  import opened Wrappers
  import opened Seqs
  import opened Text
  import opened Articles
  import opened Composer
  import opened Subscriptions
  import opened Digest
  import opened Fetching
  import opened Bot

  const DemoUser: UserId := 12345

  /** The topics the demo adds, in order; the third is added without keywords. */
  function DemoTopics(now: Timestamp): (ts: seq<Topic>)
    ensures |ts| == 3 && ts[2].keywords == []
  {
    [Topic(FirstName, FirstKeywords, now), Topic(SecondName, SecondKeywords, now), Topic(ThirdName, [], now)]
  }

  const FirstName := "искусственный интеллект"
  const FirstKeywords := ["машинное обучение", "нейросети"]
  const SecondName := "программирование"
  const SecondKeywords := ["python", "javascript"]
  const ThirdName := "технологии"

  /** The three `add_user_topic` calls of the demo extend the topic list one element at a time;
      `DemoBot` uses this to read the result as one three-element extension of the list it
      started from. */
  lemma AppendedThree<T>(s: seq<T>, x: T, y: T, z: T)
    ensures s + [x] + [y] + [z] == s + [x, y, z]
  {
  }

  /** The message printed for one topic: its news, narrowed by its keywords when it has any.
      It fails exactly when the filter raises, and otherwise names the topic. */
  function TopicMessage(t: Topic, fetch: string -> seq<Article>, format: string -> Option<string>): (r: Result<string>)
    ensures r.Raised? <==> Raises(t, fetch)
    ensures r.Ok? ==> Contains(r.value, t.name)
  {
    var articles := TopicArticles(t, fetch);
    if articles.Raised? then Raised
    else
      MessageNamesTopic(articles.value, t.name, FullLayout, format);
      Ok(NewsMessage(articles.value, t.name, FullLayout, format))
  }

  /** The messages for the given topics in order; a filter that raises ends the demo. */
  function TopicMessages(topics: seq<Topic>, fetch: string -> seq<Article>,
                         format: string -> Option<string>): Result<seq<string>>
  {
    if topics == [] then Ok([])
    else
      var front := TopicMessages(topics[..|topics| - 1], fetch, format);
      var last := TopicMessage(topics[|topics| - 1], fetch, format);
      if front.Raised? || last.Raised? then Raised else Ok(front.value + [last.value])
  }

  /** The messages fail exactly when some topic's filter meets an article with a `null` title
      or description. */
  lemma {:induction false} TopicMessagesRaise(topics: seq<Topic>, fetch: string -> seq<Article>,
                                              format: string -> Option<string>)
    ensures TopicMessages(topics, fetch, format).Raised?
        <==> exists i :: 0 <= i < |topics| && Raises(topics[i], fetch)
  {
    if topics != [] {
      var init := topics[..|topics| - 1];
      TopicMessagesRaise(init, fetch, format);
      assert forall i :: 0 <= i < |init| ==> init[i] == topics[i];
      assert topics == init + [topics[|topics| - 1]];
    }
  }

  /** Otherwise there is one message per topic, in order, and each names its topic. */
  lemma {:induction false} TopicMessagesNameTopics(topics: seq<Topic>, fetch: string -> seq<Article>,
                                                   format: string -> Option<string>)
    ensures var r := TopicMessages(topics, fetch, format);
            r.Ok? ==> |r.value| == |topics| && forall i :: 0 <= i < |topics| ==> Contains(r.value[i], topics[i].name)
  {
    var r := TopicMessages(topics, fetch, format);
    if topics != [] && r.Ok? {
      var init, last := topics[..|topics| - 1], topics[|topics| - 1];
      TopicMessagesNameTopics(init, fetch, format);
      var ms := TopicMessages(init, fetch, format).value;
      var m := TopicMessage(last, fetch, format).value;
      assert r.value == ms + [m];
      forall i | 0 <= i < |topics|
        ensures Contains(r.value[i], topics[i].name)
      {
        if i < |init| {
          assert r.value[i] == ms[i] && topics[i] == init[i];
        }
      }
    }
  }

  /** Once a prefix of the topics fails, all of them do. */
  lemma {:induction false} TopicMessagesRaisedStays(topics: seq<Topic>, k: nat, fetch: string -> seq<Article>,
                                                    format: string -> Option<string>)
    requires k <= |topics| && TopicMessages(topics[..k], fetch, format).Raised?
    ensures TopicMessages(topics, fetch, format).Raised?
    decreases |topics|
  {
    if k < |topics| {
      var init := topics[..|topics| - 1];
      assert init[..k] == topics[..k];
      TopicMessagesRaisedStays(init, k, fetch, format);
    } else {
      assert topics[..k] == topics;
    }
  }

  /** One pass of the demo's loop: fetch, filter when the topic has keywords, compose. */
  method ShowTopic(t: Topic, fetch: string -> seq<Article>, format: string -> Option<string>)
    returns (m: Result<string>)
    ensures m == TopicMessage(t, fetch, format)
  {
    var articles := fetch(t.name);
    if t.keywords != [] {
      var kept := FilterByKeywords(articles, t.keywords);
      if kept.Raised? {
        return Raised;
      }
      articles := kept.value;
    }
    var message := FormatNewsMessage(articles, t.name, FullLayout, format);
    return Ok(message);
  }

  /** `for topic in topics[:2]`: the demo's loop over the topics it shows. */
  method ShowTopics(shown: seq<Topic>, fetch: string -> seq<Article>, format: string -> Option<string>)
    returns (messages: Result<seq<string>>)
    ensures messages == TopicMessages(shown, fetch, format)
  {
    var ms := [];
    for i := 0 to |shown|
      invariant TopicMessages(shown[..i], fetch, format) == Ok(ms)
    {
      assert shown[..i + 1][..i] == shown[..i];
      var m := ShowTopic(shown[i], fetch, format);
      if m.Raised? {
        TopicMessagesRaisedStays(shown, i + 1, fetch, format);
        return Raised;
      }
      ms := ms + [m.value];
    }
    assert shown[..|shown|] == shown;
    return Ok(ms);
  }

  /** `demo_bot`. The store is loaded from `file`, so the user may already have topics: the three
      new ones come last, and they are all there is for a user the file does not know. The news
      comes from the demo variant's `get_news`. */
  method DemoBot(file: StoreFile, key: ApiKey, remote: string -> Option<seq<Article>>,
                 format: string -> Option<string>, now: Timestamp)
    returns (topics: seq<Topic>, messages: Result<seq<string>>)
    ensures topics == TopicsOf(Load(file), DemoUser) + DemoTopics(now)
    ensures DemoUser !in Load(file) ==> topics == DemoTopics(now)
    ensures messages == TopicMessages(topics[..2], q => DemoGetNews(key, q, remote, now), format)
  {
    ghost var first, second, third := Topic(FirstName, FirstKeywords, now), Topic(SecondName, SecondKeywords, now),
                                      Topic(ThirdName, [], now);
    var bot := new NewsBot(file);
    ghost var t0 := bot.GetUserTopics(DemoUser);
    bot.AddUserTopic(DemoUser, FirstName, Some(FirstKeywords), now);
    ghost var t1 := bot.GetUserTopics(DemoUser);
    assert t1 == t0 + [first];
    bot.AddUserTopic(DemoUser, SecondName, Some(SecondKeywords), now);
    ghost var t2 := bot.GetUserTopics(DemoUser);
    assert t2 == t1 + [second];
    bot.AddUserTopic(DemoUser, ThirdName, None, now);
    topics := bot.GetUserTopics(DemoUser);
    assert topics == t2 + [third];
    AppendedThree(t0, first, second, third);
    messages := ShowTopics(topics[..2], q => DemoGetNews(key, q, remote, now), format);
  }
}
