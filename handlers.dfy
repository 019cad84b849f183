/** The parts of the Telegram command handlers that are program logic rather than plumbing: the
    `get_news` handler's topic lookup, keyword narrowing and chunked reply (bot.py and bot_simple.py),
    bot.py's `digest` handler with its progress notes and summary, and bot_simple.py's simpler
    `digest` handler. A handler's outcome is the list of texts it passed to `reply_text`, in order,
    and whether it ended by raising. The handlers take the bot itself and modify nothing. */
module Handlers {
  import opened Wrappers
  import opened Text
  import opened Seqs
  import opened Articles
  import opened Composer
  import opened Chunking
  import opened Subscriptions
  import opened Digest
  import opened Bot

  /** bot.py's usage reply of `get_news`, with the angle brackets escaped for HTML. */
  const UsageEscaped := "Использование: /get_news &lt;тема&gt;\nПример: /get_news искусственный интеллект"

  /** bot_simple.py's usage reply of `get_news`. */
  const UsagePlain := "Использование: /get_news <тема>\nПример: /get_news искусственный интеллект"

  const NoTopics := "📝 У вас нет добавленных тем для дайджеста."

  const DigestTitle := "📰 <b>Дайджест новостей</b>\n\n"

  /** The replies a handler sent, and whether it then raised (out of the filter, on a null field). */
  datatype Outcome = Outcome(sent: seq<string>, raised: bool)

  /** `' '.join(args)`. */
  function JoinWords(args: seq<string>): string
  {
    if args == [] then ""
    else if |args| == 1 then args[0]
    else args[0] + " " + JoinWords(args[1..])
  }

  /** Every argument survives into the joined topic. */
  lemma {:induction false} JoinWordsContains(args: seq<string>)
    ensures forall i :: 0 <= i < |args| ==> Contains(JoinWords(args), args[i])
  {
    if |args| == 1 {
      ContainsMiddle("", args[0], "");
      assert "" + args[0] + "" == args[0];
    } else if |args| > 1 {
      JoinWordsContains(args[1..]);
      ContainsMiddle("", args[0], " " + JoinWords(args[1..]));
      assert "" + args[0] + (" " + JoinWords(args[1..])) == JoinWords(args);
      forall i | 1 <= i < |args|
        ensures Contains(JoinWords(args), args[i])
      {
        assert args[1..][i - 1] == args[i];
        ContainsWithin(args[0] + " ", JoinWords(args[1..]), "", args[i]);
        assert args[0] + " " + JoinWords(args[1..]) + "" == JoinWords(args);
      }
    }
  }

  /** `topic_data['name'].lower() == topic.lower()`. */
  predicate SameName(t: Topic, query: string)
  {
    Lower(t.name) == Lower(query)
  }

  /** The saved topic the `get_news` handler consults: the first whose name equals the query
      ignoring case, if any. */
  function FirstNamed(topics: seq<Topic>, query: string): (r: Option<Topic>)
    ensures r.None? <==> forall i :: 0 <= i < |topics| ==> !SameName(topics[i], query)
    ensures r.Some? ==> exists i :: 0 <= i < |topics| && topics[i] == r.value && SameName(r.value, query)
                                    && forall j :: 0 <= j < i ==> !SameName(topics[j], query)
  {
    if topics == [] then None
    else if SameName(topics[0], query) then
      assert topics[0] == topics[0];
      Some(topics[0])
    else
      var r := FirstNamed(topics[1..], query);
      assert forall i :: 1 <= i < |topics| ==> topics[1..][i - 1] == topics[i];
      if r.Some? then
        var i :| 0 <= i < |topics[1..]| && topics[1..][i] == r.value && SameName(r.value, query)
                 && forall j :: 0 <= j < i ==> !SameName(topics[1..][j], query);
        assert topics[i + 1] == r.value;
        assert forall j :: 0 <= j < i + 1 ==> !SameName(topics[j], query) by {
          assert forall j :: 1 <= j < i + 1 ==> topics[j] == topics[1..][j - 1];
        }
        r
      else r
  }

  /** The lookup loop of the `get_news` handler, stopping at the first match as `break` does. */
  method FindTopic(topics: seq<Topic>, query: string) returns (found: Option<Topic>)
    ensures found == FirstNamed(topics, query)
  {
    var i := 0;
    while i < |topics|
      invariant 0 <= i <= |topics|
      invariant FirstNamed(topics[i..], query) == FirstNamed(topics, query)
    {
      if SameName(topics[i], query) {
        assert topics[i..][0] == topics[i];
        return Some(topics[i]);
      }
      assert topics[i..][1..] == topics[i + 1..];
      i := i + 1;
    }
    return None;
  }

  /** What the `get_news` handler replies for a topic: the "not found" sentence when the fetch is
      empty; otherwise the composed message, in slices, of the articles narrowed by the keywords of
      the matching saved topic (if it has any). */
  function NewsReplies(topic: string, userTopics: seq<Topic>, fetch: string -> seq<Article>,
                       format: string -> Option<string>): Outcome
  {
    var articles := fetch(topic);
    if articles == [] then Outcome([NotFound(topic)], false)
    else
      var narrowed := match FirstNamed(userTopics, topic)
                      case None => Ok(articles)
                      case Some(t) => KeywordFilter(articles, t.keywords);
      match narrowed
      case Raised => Outcome([], true)
      case Ok(kept) => Outcome(Parts(NewsMessage(kept, topic, FullLayout, format)), false)
  }

  /** The handler raises only when a saved topic with keywords matched and some fetched article
      has a null title or description. */
  lemma NewsRepliesRaise(topic: string, userTopics: seq<Topic>, fetch: string -> seq<Article>,
                         format: string -> Option<string>)
    ensures NewsReplies(topic, userTopics, fetch, format).raised <==>
              fetch(topic) != [] && FirstNamed(userTopics, topic).Some?
              && FirstNamed(userTopics, topic).value.keywords != []
              && exists i :: 0 <= i < |fetch(topic)| && HasNullText(fetch(topic)[i])
  {
    if FirstNamed(userTopics, topic).Some? {
      KeywordFilterCharacterised(fetch(topic), FirstNamed(userTopics, topic).value.keywords);
    }
  }

  /** Unless the filter raises, the handler replies at least once and the replies together name
      the topic. A composed message goes out in slices of at most 4000 characters; the early
      "not found" sentence for an empty fetch is sent whole, however long the topic. */
  lemma NewsRepliesNameTopic(topic: string, userTopics: seq<Topic>, fetch: string -> seq<Article>,
                             format: string -> Option<string>)
    ensures var r := NewsReplies(topic, userTopics, fetch, format);
            !r.raised ==> r.sent != [] && Contains(Concat(r.sent), topic)
                          && (fetch(topic) != [] ==> forall k :: 0 <= k < |r.sent| ==> |r.sent[k]| <= ChunkSize)
                          && (fetch(topic) == [] ==> r.sent == [NotFound(topic)])
  {
    var r := NewsReplies(topic, userTopics, fetch, format);
    if !r.raised {
      var message := if fetch(topic) == [] then NotFound(topic)
                     else
                       var narrowed := match FirstNamed(userTopics, topic)
                                       case None => Ok(fetch(topic))
                                       case Some(t) => KeywordFilter(fetch(topic), t.keywords);
                       NewsMessage(narrowed.value, topic, FullLayout, format);
      if fetch(topic) == [] {
        assert r.sent == [message] && Concat([message]) == Concat([]) + message;
      } else {
        assert r.sent == Parts(message);
      }
      assert Concat(r.sent) == message;
      if message != NotFound(topic) {
        assert IsPrefix(Header(topic), message);
        ContainsInPrefix(Header(topic), message, topic);
      }
    }
  }

  /** The `get_news` handler of bot.py (with `UsageEscaped`) and of bot_simple.py (with `UsagePlain`). */
  method GetNewsCommand(bot: NewsBot, user: UserId, args: seq<string>, usage: string,
                        fetch: string -> seq<Article>, format: string -> Option<string>) returns (r: Outcome)
    ensures args == [] ==> r == Outcome([usage], false)
    ensures args != [] ==> r == NewsReplies(JoinWords(args), bot.GetUserTopics(user), fetch, format)
  {
    if args == [] {
      return Outcome([usage], false);
    }
    var topic := JoinWords(args);
    var articles := fetch(topic);
    if articles == [] {
      return Outcome([NotFound(topic)], false);
    }
    var found := FindTopic(bot.GetUserTopics(user), topic);
    if found.Some? && found.value.keywords != [] {
      var filtered := FilterByKeywords(articles, found.value.keywords);
      if filtered.Raised? {
        return Outcome([], true);
      }
      articles := filtered.value;
    }
    var message := FormatNewsMessage(articles, topic, FullLayout, format);
    return Outcome(Parts(message), false);
  }

  /** The progress note bot.py's `digest` handler sends before fetching each topic. */
  function Searching(name: string): (r: string)
    ensures Contains(r, name)
  {
    Spliced("🔍 Ищу новости по теме: ", name, "...")
  }

  function Progress(topics: seq<Topic>): seq<string>
  {
    if topics == [] then []
    else Progress(topics[..|topics| - 1]) + [Searching(topics[|topics| - 1].name)]
  }

  /** Every topic gets exactly one progress note, in order. */
  lemma {:induction false} ProgressNotes(topics: seq<Topic>)
    ensures |Progress(topics)| == |topics|
    ensures forall i :: 0 <= i < |topics| ==> Progress(topics)[i] == Searching(topics[i].name)
  {
    if topics != [] {
      ProgressNotes(topics[..|topics| - 1]);
    }
  }

  /** The first topic whose filter raises. */
  function FirstRaising(topics: seq<Topic>, fetch: string -> seq<Article>): (k: nat)
    requires exists i :: 0 <= i < |topics| && Raises(topics[i], fetch)
    ensures k < |topics| && Raises(topics[k], fetch)
    ensures forall j :: 0 <= j < k ==> !Raises(topics[j], fetch)
  {
    if Raises(topics[0], fetch) then 0
    else
      assert forall i :: 1 <= i < |topics| ==> topics[1..][i - 1] == topics[i];
      1 + FirstRaising(topics[1..], fetch)
  }

  /** The summary bot.py's `digest` handler puts in front of the accumulated digest. */
  function DigestSummary(viewed: nat, found: nat): string
  {
    DigestTitle + "Просмотрено тем: " + Decimal(viewed) + "\nНайдено новостей: " + Decimal(found) + "\n\n"
  }

  /** What bot.py's `digest` handler sends: one progress note per topic it reaches; then, unless
      a topic raised, the summary followed by the accumulated digest (which itself starts with the
      title), in slices, or the "no news" notice. */
  function DigestReplies(topics: seq<Topic>, fetch: string -> seq<Article>, format: string -> Option<string>): Outcome
  {
    if topics == [] then Outcome([NoTopics], false)
    else
      BlocksCharacterised(topics, fetch, format, DividerBefore);
      match Blocks(topics, fetch, format, DividerBefore)
      case Raised => Outcome(Progress(topics[..FirstRaising(topics, fetch) + 1]), true)
      case Ok(body) =>
        var last := if body != ""
                    then Parts(DigestSummary(|topics|, |TopicsWithNews(topics, fetch)|) + (DigestTitle + body))
                    else [NoNewsToday];
        Outcome(Progress(topics) + last, false)
  }

  /** The summary opens with the digest title, and the accumulated digest after it opens with the
      same title again: a full digest shows its title twice. */
  lemma TitleShownTwice(viewed: nat, found: nat, body: string)
    ensures var text := DigestSummary(viewed, found) + (DigestTitle + body);
            IsPrefix(DigestTitle, text) && IsPrefix(DigestTitle, text[|DigestSummary(viewed, found)|..])
  {
    var summary := DigestSummary(viewed, found);
    var text := summary + (DigestTitle + body);
    assert summary[..|DigestTitle|] == DigestTitle;
    assert text[..|DigestTitle|] == summary[..|DigestTitle|];
    assert text[|summary|..] == DigestTitle + body;
  }

  /** Unless a topic raises, the handler sends one progress note per topic and then either the
      notice, when no topic had news, or the summary and the digest in slices; the summary counts
      every topic as viewed and at least one, at most all, as having news. */
  lemma DigestRepliesFacts(topics: seq<Topic>, fetch: string -> seq<Article>, format: string -> Option<string>)
    requires topics != []
    requires Blocks(topics, fetch, format, DividerBefore).Ok?
    ensures var r := DigestReplies(topics, fetch, format);
            var found := TopicsWithNews(topics, fetch);
            && !r.raised && |r.sent| > |topics|
            && r.sent[..|topics|] == Progress(topics)
            && (found == [] ==> r.sent[|topics|..] == [NoNewsToday])
            && (found != [] ==>
                  && 0 < |found| <= |topics|
                  && Concat(r.sent[|topics|..]) == DigestSummary(|topics|, |found|) + (DigestTitle + Blocks(topics, fetch, format, DividerBefore).value))
  {
    var body := Blocks(topics, fetch, format, DividerBefore).value;
    BlocksCharacterised(topics, fetch, format, DividerBefore);
    DigestRepliesOk(topics, fetch, format, body);
    ProgressNotes(topics);
    var r := DigestReplies(topics, fetch, format);
    var tail := if body != "" then Parts(DigestSummary(|topics|, |TopicsWithNews(topics, fetch)|) + (DigestTitle + body))
                else [NoNewsToday];
    assert r.sent == Progress(topics) + tail;
    assert r.sent[..|topics|] == Progress(topics);
    assert r.sent[|topics|..] == tail;
  }

  /** When the topics before `k` produce their blocks and topic `k` raises, the handler has sent
      exactly the progress notes up to and including topic `k`. */
  lemma DigestRaisesAt(topics: seq<Topic>, k: nat, fetch: string -> seq<Article>, format: string -> Option<string>)
    requires k < |topics| && Raises(topics[k], fetch)
    requires Blocks(topics[..k], fetch, format, DividerBefore).Ok?
    ensures DigestReplies(topics, fetch, format) == Outcome(Progress(topics[..k + 1]), true)
  {
    assert Blocks(topics, fetch, format, DividerBefore).Raised? by {
      BlocksCharacterised(topics, fetch, format, DividerBefore);
    }
    assert FirstRaising(topics, fetch) == k by {
      BlocksCharacterised(topics[..k], fetch, format, DividerBefore);
      assert forall j :: 0 <= j < k ==> topics[..k][j] == topics[j];
    }
  }

  /** When every topic produces its block, the handler ends with the summary and the digest in
      slices if any block is non-empty, and with the notice otherwise. */
  lemma DigestRepliesOk(topics: seq<Topic>, fetch: string -> seq<Article>, format: string -> Option<string>, body: string)
    requires topics != [] && Blocks(topics, fetch, format, DividerBefore) == Ok(body)
    ensures body != "" ==> DigestReplies(topics, fetch, format)
                           == Outcome(Progress(topics) + Parts(DigestSummary(|topics|, |TopicsWithNews(topics, fetch)|) + (DigestTitle + body)), false)
    ensures body == "" ==> DigestReplies(topics, fetch, format) == Outcome(Progress(topics) + [NoNewsToday], false)
  {
  }

  /** One pass of bot.py's `digest` loop over topic `k`: the progress note, then the topic's block
      (the divider, the topic's message and a newline) when it has articles. */
  method DigestTurn(topics: seq<Topic>, k: nat, fetch: string -> seq<Article>, format: string -> Option<string>,
                    sent: seq<string>, message: string, processed: seq<string>, ghost body: string)
    returns (sent': seq<string>, message': string, processed': seq<string>, ghost body': string, found: bool, raised: bool)
    requires k < |topics|
    requires sent == Progress(topics[..k])
    requires Blocks(topics[..k], fetch, format, DividerBefore) == Ok(body)
    requires message == DigestTitle + body
    requires processed == TopicsWithNews(topics[..k], fetch)
    ensures raised ==> sent' == Progress(topics[..k + 1]) && DigestReplies(topics, fetch, format) == Outcome(sent', true)
    ensures !raised ==> && sent' == Progress(topics[..k + 1])
                        && Blocks(topics[..k + 1], fetch, format, DividerBefore) == Ok(body')
                        && message' == DigestTitle + body'
                        && processed' == TopicsWithNews(topics[..k + 1], fetch)
                        && (found ==> body' != "") && (!found ==> body' == body)
  {
    var t := topics[k];
    assert topics[..k + 1][..k] == topics[..k];
    sent' := sent + [Searching(t.name)];
    message', processed', body', found, raised := message, processed, body, false, false;
    var block := TopicStep(t, fetch, format, DividerBefore);
    if block.Raised? {
      DigestRaisesAt(topics, k, fetch, format);
      raised := true;
      return;
    }
    if block.value != "" {
      found := true;
      processed' := processed + [t.name];
      AppendAssociative(DigestTitle, body, block.value);
      message' := message + block.value;
      body' := body + block.value;
    } else {
      assert body + "" == body;
    }
  }

  /** bot.py's `digest` handler. */
  method DigestCommand(bot: NewsBot, user: UserId, fetch: string -> seq<Article>,
                       format: string -> Option<string>) returns (r: Outcome)
    ensures r == DigestReplies(bot.GetUserTopics(user), fetch, format)
  {
    var topics := bot.GetUserTopics(user);
    if topics == [] {
      return Outcome([NoTopics], false);
    }
    var message := DigestTitle;
    var hasNews := false;
    var processed: seq<string> := [];
    var sent: seq<string> := [];
    ghost var body := "";
    for k := 0 to |topics|
      invariant sent == Progress(topics[..k])
      invariant Blocks(topics[..k], fetch, format, DividerBefore) == Ok(body)
      invariant message == DigestTitle + body
      invariant processed == TopicsWithNews(topics[..k], fetch)
      invariant hasNews <==> body != ""
    {
      var found, raised;
      sent, message, processed, body, found, raised := DigestTurn(topics, k, fetch, format, sent, message, processed, body);
      if raised {
        return Outcome(sent, true);
      }
      if found {
        hasNews := true;
      }
    }
    assert topics[..|topics|] == topics;
    DigestRepliesOk(topics, fetch, format, body);
    if hasNews {
      return Outcome(sent + Parts(DigestSummary(|topics|, |processed|) + message), false);
    }
    return Outcome(sent + [NoNewsToday], false);
  }

  /** What bot_simple.py's `digest` handler sends: the title and the blocks, in slices, or the
      "no news" notice; nothing at all when a topic raises. */
  function SimpleDigestReplies(topics: seq<Topic>, fetch: string -> seq<Article>,
                               format: string -> Option<string>): Outcome
  {
    if topics == [] then Outcome([NoTopics], false)
    else
      match Blocks(topics, fetch, format, DividerAfter)
      case Raised => Outcome([], true)
      case Ok(body) => if body != "" then Outcome(Parts(DigestTitle + body), false) else Outcome([NoNewsToday], false)
  }

  /** The simple digest is the notice alone exactly when no topic produced articles; otherwise its
      slices, none over 4000 characters, put back together give the title and every block. */
  lemma SimpleDigestFacts(topics: seq<Topic>, fetch: string -> seq<Article>, format: string -> Option<string>)
    requires topics != []
    ensures var r := SimpleDigestReplies(topics, fetch, format);
            && (r.raised <==> exists i :: 0 <= i < |topics| && Raises(topics[i], fetch))
            && (!r.raised ==> (r.sent == [NoNewsToday] <==> forall i :: 0 <= i < |topics| ==> !HasNews(topics[i], fetch)))
            && (!r.raised && r.sent != [NoNewsToday] ==>
                  Concat(r.sent) == DigestTitle + Blocks(topics, fetch, format, DividerAfter).value
                  && forall k :: 0 <= k < |r.sent| ==> |r.sent[k]| <= ChunkSize)
  {
    BlocksCharacterised(topics, fetch, format, DividerAfter);
    var b := Blocks(topics, fetch, format, DividerAfter);
    if b.Ok? && b.value != "" {
      DigestIsNotNotice(b.value);
    }
  }

  /** However it is sliced, a titled digest never reads as the "no news" notice. */
  lemma DigestIsNotNotice(body: string)
    ensures Parts(DigestTitle + body) != [NoNewsToday]
  {
    var text := DigestTitle + body;
    assert Concat([NoNewsToday]) == Concat([]) + NoNewsToday;
    assert text != NoNewsToday by {
      assert text[2] == '<' && NoNewsToday[2] == 'С';
    }
  }

  /** bot_simple.py's `digest` handler. */
  method SimpleDigestCommand(bot: NewsBot, user: UserId, fetch: string -> seq<Article>,
                             format: string -> Option<string>) returns (r: Outcome)
    ensures r == SimpleDigestReplies(bot.GetUserTopics(user), fetch, format)
  {
    var topics := bot.GetUserTopics(user);
    if topics == [] {
      return Outcome([NoTopics], false);
    }
    var body, hasNews := CollectBlocks(topics, fetch, format, DividerAfter);
    if body.Raised? {
      return Outcome([], true);
    }
    BlocksCharacterised(topics, fetch, format, DividerAfter);
    var message := DigestTitle + body.value;
    if hasNews {
      return Outcome(Parts(message), false);
    }
    return Outcome([NoNewsToday], false);
  }
}
