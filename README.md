# Telegram news bot: subscription store and digest engine

This project is a Dafny model of the topic-subscription and digest engine of a Telegram news bot.
The engine lives in the `NewsBot` class, which four bot variants repeat with small differences:
`bot.py`, `bot_simple.py`, `bot_demo.py` and `bot_minimal.py`. The model covers:

- **the subscription store.** A dictionary from user id to a record holding `topics`, `keywords`,
  `daily_digest` and `last_digest`. Add-topic, remove-topic and toggle-digest change the dictionary
  in place and then save the whole store; list-topics reads it. The class `Bot.NewsBot` is the
  store of `bot.py`. Its store methods appear verbatim in `bot_simple.py` and `bot_demo.py`, so the
  one class models all three. `Minimal.MinimalNewsBot` is the cut-down store of `bot_minimal.py`.
- **the keyword filter.** An order-preserving selection of the articles in which some keyword
  occurs, case-insensitively, in the title and the description joined by a space.
- **the message composer.** A numbered HTML block of at most five articles, with descriptions cut
  at 200 characters and a date line. The minimal variant shows three articles, cuts at 150
  characters and has no date line. Empty input gives the fixed "not found" sentence.
- **the digest.** The scheduled `send_daily_digest` loop over every user, with its
  per-user `try` and the `last_digest` stamp. Also the command handlers' logic: `bot.py`'s `/digest`
  with its progress notes and summary, `bot_simple.py`'s simpler `/digest`, and `/get_news`
  with its saved-topic lookup. The handlers send a reply longer than 4000 characters in
  4000-character slices: `/get_news` and `/digest` in both `bot.py` and `bot_simple.py`.
  `send_daily_digest` sends its text whole, however long. Whether that text goes out is the `send`
  parameter, and a user whose message fails to go out is not stamped.
- **the news sources.** `get_news` in its three behaviours: bot.py, the test article of
  bot_simple.py, and the test-news fallback of bot_demo.py. Also the test news of bot_demo.py and
  bot_minimal.py, and the `demo_bot` scenario.
- **the weather lookup tables.** `bot.py` has two, over the WMO weather interpretation codes
  (WMO code table 4677, as Open-Meteo uses them).

Modelling choices:

- The network request is a parameter `remote: string -> Option<seq<Article>>`. It yields `None`
  when the request or its decoding raises.
- The orchestration code takes an abstract `fetch: string -> seq<Article>`. It stands for
  whichever variant's `get_news` the bot uses.
- Date formatting is an abstract partial function `format`. Where it fails, the sentinel
  "Дата неизвестна" is shown.
- Timestamps are opaque strings passed in as `now`.
- Telegram delivery in the scheduled digest is a parameter `send`, which says whether a message
  went out. A handler's result is the list of the texts it replied with, in order, and whether it
  then raised.
- An article field is `Missing`, `Null` or a string. A JSON `null` title or description makes
  `.get(key, '').lower()` raise inside the filter. The model keeps that as a `Raised` result.
  `send_daily_digest` catches it per user, and the handlers let it propagate.

Behaviours of the code kept as written:

- **Duplicated title.** `bot.py`'s `/digest` puts its summary, which opens with the title
  "Дайджест новостей", in front of a text that already opens with that title. A full digest
  therefore shows the title twice (`Handlers.TitleShownTwice`).
- **Unsliced short reply.** `/get_news` sends its early "not found" sentence whole rather than in
  slices.
- **Stamp on "no news".** A user who received the "no news" notice is stamped too.
- **`remove_user_topic` result.** It tells whether the user has a record, not whether a topic
  matched.

## Model

| member | source | states |
|---|---|---|
| Articles.EmptyKeywordKeepsAll | bot.py:109 | an empty keyword occurs in every text, so a keyword list containing "" keeps every article |
| Articles.KeywordFilterCharacterised | bot.py:98-112 | no keywords: the input comes back unchanged. With keywords: the filter raises exactly when some article has a null title or description. Otherwise it keeps, in order, exactly the articles in which some lower-cased keyword occurs in lower(title) + " " + lower(description), each as many times as it occurs in the input |
| Articles.KeywordFilter | bot.py:98-112 | the definition the filter loop is proved equal to: pass-through for no keywords, a raise on a null title or description, else `Filter` with `Matches`; its properties are those of `KeywordFilterCharacterised` |
| Articles.HasNullText | bot.py:105-106 | the definition of the raising case: a JSON null title or description, on which `.lower()` raises; `KeywordFilterCharacterised` proves that, with keywords, the filter raises exactly when some article has one |
| Articles.SearchText | bot.py:105-107 | the definition of the searched text: lower-cased title (missing as ""), a space, lower-cased description; `LowerConcat` relates it to lowering the joined text |
| Articles.Matches | bot.py:109 | the definition of the keep test: some lower-cased keyword is a substring of `SearchText`; `KeywordFilterCharacterised` proves the filter keeps exactly the matching articles |
| Articles.FilterByKeywords | bot.py:98-112 | the filter loop computes the keyword filter, and so has all the properties above; bot_simple.py:92-106 and bot_demo.py:104-118 are the same loop |
| Seqs.FilterIsSubsequence | bot.py:103-112 | the kept articles are a subsequence of the input, in the input's order |
| Seqs.FilterCounts | bot.py:103-112 | every kept element passes the test. Each passing element is kept as often as it occurs, and each failing element never |
| Seqs.FilterAllPass | bot.py:103-112 | when every article passes the loop's test, the loop keeps all of them in order |
| Seqs.FilterSnoc | bot.py:104-110 | one loop step: the filter of s + [x] is the filter of s, followed by x exactly when x passes |
| Text.LowerChar | bot.py:105-106 | A-Z map to a-z. Characters outside A-Z and the Cyrillic capitals U+0400 to U+042F are unchanged. The result is never one of those capitals |
| Text.Lower | bot.py:105-106 | the model's lowering keeps the length and lowers each character with `LowerChar` |
| Text.LowerConcat | bot.py:107 | lowering distributes over concatenation and is idempotent |
| Text.ContainsAt | bot.py:109 | `k in s` holds exactly when k occurs at some position of s |
| Text.Truncate | bot.py:139 | `description[:limit]` plus "..." iff longer: text within the limit is unchanged. A longer text becomes its first `limit` characters followed by "..." |
| Text.Decimal | bot.py:137 | the entry number is written as a non-empty string of decimal digits with no leading zero, as `str(i)` writes it |
| Text.DecimalRoundTrip | bot.py:137 | reading the entry number's digits back gives the number |
| Composer.NotFound | bot.py:116-117 | the "not found" sentence names the topic |
| Composer.Header | bot.py:119 | the message header names the topic and opens with the bold tag, unlike the "not found" sentence |
| Composer.DateText | bot.py:125-135 | a missing or empty `publishedAt`, or one that fails to format, shows "Дата неизвестна"; otherwise the formatted date |
| Composer.DescriptionLine | bot.py:138-139 | a description line appears iff the description is non-empty, and holds it cut at the layout's limit |
| Composer.LinkLine | bot.py:140-141 | a link line appears iff the url is non-empty, and then it contains the url |
| Composer.TitleText | bot.py:122 | the title as printed: the string itself, "Без заголовка" for a missing key, and "None" for a JSON null |
| Composer.DateLine | bot.py:142 | the full layout closes an entry with a line containing its date text; the minimal layout (bot_minimal.py:88) only with a blank line |
| Composer.Entry | bot.py:137-142 | an entry starts with its number and its bold title |
| Composer.EntryCount | bot.py:121 | `articles[:5]`: the number of entries is min(5, len(articles)); the minimal layout uses 3 |
| Composer.Entries | bot.py:121-142 | entry i is the i-th article rendered with the number i + 1 |
| Composer.BuildEntry | bot.py:122-142 | the body of the loop builds exactly the entry `Entry` specifies for the article and its number |
| Composer.NewsMessage | bot.py:114-144 | the message is the "not found" sentence exactly when there are no articles; otherwise it starts with the header, followed by the entries of `Entries` |
| Composer.LaterArticlesIgnored | bot.py:121 | articles after the first five (three in the minimal layout) do not affect the message |
| Composer.MessageNamesTopic | bot.py:116-119 | every composed message contains the topic |
| Composer.FormatNewsMessage | bot.py:114-144 | the composing loop builds the specified message for a layout. Empty input gives exactly the "not found" sentence; otherwise the message starts with the header. bot_simple.py:108-138 and bot_demo.py:120-150 are the same composer, and bot_minimal.py:71-90 is it with the minimal layout (three entries, 150 characters, no date line) |
| Minimal.MinimalMessageUndated | bot_minimal.py:78-88 | the minimal message does not depend on how dates would be formatted: it has no date line |
| Chunking.ChunkCount | bot.py:607 | the number of slices is ceil(len / 4000) |
| Chunking.Chunks | bot.py:607 | there are ceil(len / 4000) slices. Each is non-empty and at most 4000 long, and all but the last are exactly 4000 long |
| Chunking.ChunksPrefix | bot.py:607 | the first j slices put together are the first min(4000 j, len) characters |
| Chunking.ChunksConcat | bot.py:607 | the slices put together give the original message |
| Chunking.Parts | bot.py:606-611 | what is sent: a message of at most 4000 characters goes whole. A longer one goes as at least two slices of at most 4000. Either way the parts put together give the message |
| Chunking.ShortMessageIsOneChunk | bot.py:606-611 | a non-empty message of at most 4000 characters is a single slice |
| Subscriptions.Load | bot.py:40-60 | an absent, unreadable or corrupt file loads as the empty store |
| Subscriptions.TopicsOf | bot.py:178-182 | an unknown user has no topics; a known user has the stored list |
| Subscriptions.WithTopic | bot.py:146-165 | an unknown user first gets the default record (no topics or keywords, digest on, no last digest). The topic is appended at the end of the user's list. Other users are unchanged, and the key set gains only the user |
| Subscriptions.DropNamed | bot.py:173 | the kept topics are a subsequence of the old list, none has the name, and every other topic is kept as often as it occurred |
| Subscriptions.WithoutTopic | bot.py:167-176 | only the user's topic list changes, to the list without the named topics |
| Subscriptions.RemoveUnmatchedKeepsList | bot.py:167-176 | removing a name no topic carries leaves the list exactly as it was, although the method still saves and returns true |
| Subscriptions.Toggled | bot.py:184-196 | an unknown user gets the default record first. The digest flag flips, a fresh user's flag becomes false, and other users are unchanged |
| Subscriptions.ToggleTwice | bot.py:184-196 | two toggles restore the original flag, and the original store when the user existed |
| Subscriptions.ToggleFreshUser | bot.py:184-196 | for a fresh user the first toggle gives false and the second true |
| Bot.NewsBot.constructor | bot.py:31-33 | the bot starts with the store loaded from the file |
| Bot.NewsBot.SaveData | bot.py:62-68 | a save writes the whole current store |
| Bot.NewsBot.GetUserTopics | bot.py:178-182 | `[]` for an unknown user, else the stored list |
| Bot.NewsBot.AddUserTopic | bot.py:146-165 | the store becomes `WithTopic` of the old store, with `None` keywords stored as `[]`. A new user joins the end of the iteration order. The new store is saved. bot_simple.py:140-159 and bot_demo.py:152-171 are the same method |
| Bot.NewsBot.RemoveUserTopic | bot.py:167-176 | an unknown user: false, nothing changes and nothing is saved. A known user: true, the named topics are removed, others are kept in order, and the store is saved. bot_simple.py:161-170 and bot_demo.py:173-182 are the same method |
| Bot.NewsBot.ToggleDailyDigest | bot.py:184-196 | the store becomes `Toggled` of the old one and is saved; the result is the stored new flag. bot_simple.py:178-190 and bot_demo.py:190-202 are the same method |
| Bot.NewsBot.DigestFor | bot.py:423-458 | one user's digest run computes `RunFor` |
| Bot.NewsBot.VisitUser | bot.py:421-465 | one pass of the user loop: the user's record is stamped and saved iff the message went out |
| Bot.NewsBot.SendDailyDigest | bot.py:417-467 | visits every user in iteration order, each in its own `try`. The new store is `DigestRun` of the old one and the deliveries are `Deliveries`. The file is saved iff some message went out |
| Digest.TopicBlock | bot.py:433-444 | a topic's block raises iff its filter raises, and is non-empty iff the topic has news after filtering |
| Digest.TopicArticles | bot.py:434-440 | the definition of a topic's articles: the fetch for its name, narrowed by its keywords; its properties are `TopicBlock`'s and `KeywordFilterCharacterised`'s |
| Digest.TopicStep | bot.py:434-444 | one topic's turn of the loop computes exactly `TopicBlock`, so it raises iff the filter raises and adds text iff the topic has news |
| Digest.BlockShowsMessage | bot.py:441-443 | a topic with news contributes a block containing its composed message |
| Text.Repeat | bot.py:444 | `"=" * 50`: exactly n copies of the character |
| Digest.Framed | bot.py:442-443 | a framed block contains its message |
| Digest.Blocks | bot.py:433-444 | the definition the topic loop is proved equal to: the topics' blocks joined in order, raising at the first topic that raises; its properties are those of `BlocksCharacterised` |
| Digest.BlocksCharacterised | bot.py:433-444 | the accumulated digest raises iff some topic's filter raises. Otherwise it is empty iff no topic has news |
| Digest.BlocksPrefixRaises | bot.py:433-444 | once a topic has raised, the rest of the loop cannot undo it |
| Digest.TopicsWithNews | bot.py:638-640 | no topic produced articles iff the list of topics with news is empty |
| Digest.CollectBlocks | bot.py:430-444 | the topic loop accumulates the specified digest, and `has_news` holds iff some topic has news |
| Digest.DigestText | bot.py:446-458 | with news, the digest header followed by the blocks; without news, exactly the "no news" notice, which differs from every digest |
| Digest.RunFor | bot.py:422-458 | the definition of one user's run: skipped, failed on a raise or a failed send, or delivered with its text; characterised by `RunForCharacterised` |
| Digest.RunForCharacterised | bot.py:421-465 | a user is skipped iff the digest is off or there are no topics. An enabled user whose filter raises fails. A delivered text is the digest or the notice. Conversely, an enabled user with topics, none of which raises, is delivered exactly when the send succeeds: with the digest text, or with the "no news" notice when no topic has news |
| Digest.Deliveries | bot.py:446-458 | the definition of the messages the daily run delivers, user by user in iteration order |
| Digest.Stamped | bot.py:461-462 | only `last_digest` changes, and only when the message went out |
| Digest.DigestRun | bot.py:421-465 | the definition of the store after the run: each visited user stamped by their own run; characterised by `DigestRunKeys`, `DigestRunVisited` and `DigestRunUnvisited` |
| Digest.DigestRunKeys | bot.py:421-465 | the digest run neither adds nor removes users |
| Digest.DigestRunVisited | bot.py:421-465 | after the run, each visited user's record is the old one stamped by that user's own run. One user's failure does not affect another's outcome |
| Digest.DigestRunUnvisited | bot.py:421-465 | users the loop has not reached yet keep their records |
| Handlers.JoinWords | bot.py:585 | the definition of `' '.join(args)`; `JoinWordsContains` states what it keeps |
| Handlers.JoinWordsContains | bot.py:585 | `' '.join(args)` contains every argument |
| Handlers.FirstNamed | bot.py:595-601 | the lookup finds the first saved topic whose lower-cased name equals the lower-cased query, or none when there is none |
| Handlers.SameName | bot.py:597 | the definition of the name test: the lower-cased names are equal; `FirstNamed` and `FindTopic` are stated with it |
| Handlers.FindTopic | bot.py:596-601 | the lookup loop, with its `break`, computes `FirstNamed` |
| Handlers.NewsReplies | bot.py:588-611 | the definition of the `/get_news` replies for a topic; characterised by `NewsRepliesRaise` and `NewsRepliesNameTopic` |
| Handlers.NewsRepliesRaise | bot.py:588-603 | the handler raises iff articles came back, a saved topic of that name has keywords, and some article has a null title or description |
| Handlers.NewsRepliesNameTopic | bot.py:588-611 | unless it raises, the handler replies and its replies name the topic. A composed message goes out in slices of at most 4000; an empty fetch gives exactly the "not found" sentence |
| Handlers.GetNewsCommand | bot.py:574-611 | no arguments: the usage text (HTML-escaped here, plain in bot_simple.py:295-332); otherwise the replies for the joined topic |
| Handlers.Searching | bot.py:631 | the progress note names the topic |
| Handlers.ProgressNotes | bot.py:631 | one "searching" note per topic reached, naming that topic |
| Handlers.Progress | bot.py:631 | the definition of the progress notes: one `Searching` note per topic, in order; characterised by `ProgressNotes` |
| Handlers.FirstRaising | bot.py:626-645 | the first topic whose filter raises: it raises, and no earlier one does |
| Handlers.DigestSummary | bot.py:647 | the definition of the summary: title, topics viewed and topics with news |
| Handlers.TitleShownTwice | bot.py:622-647 | the full digest text starts with the title (the summary at bot.py:647 opens with it), and again with the title right after the summary |
| Handlers.DigestReplies | bot.py:613-657 | the definition of what bot.py's `/digest` sends; characterised by `DigestRepliesFacts` and `DigestRaisesAt` |
| Handlers.DigestRepliesFacts | bot.py:613-657 | unless a topic raises: one progress note per topic, then the notice when no topic had news. Otherwise the summary (every topic viewed; between 1 and all with news) and the digest, in slices |
| Handlers.DigestRaisesAt | bot.py:626-645 | when topic k is the first to raise, exactly the progress notes up to and including k have been sent |
| Handlers.DigestTurn | bot.py:626-645 | one pass of the topic loop keeps the notes sent, the digest text and the processed topics in step with their specifications |
| Handlers.DigestCommand | bot.py:613-657 | the `/digest` handler sends exactly `DigestReplies` of the user's topics: no topics gives the "no topics" reply |
| Handlers.SimpleDigestReplies | bot_simple.py:334-368 | the definition of what bot_simple.py's `/digest` sends; characterised by `SimpleDigestFacts` |
| Handlers.SimpleDigestFacts | bot_simple.py:334-368 | it raises iff some topic's filter raises. Otherwise the reply is the notice alone iff no topic had news, and else slices of at most 4000 that put together give the title and every block |
| Handlers.DigestIsNotNotice | bot_simple.py:359-368 | a titled digest, however sliced, is never the "no news" notice |
| Handlers.SimpleDigestCommand | bot_simple.py:334-368 | bot_simple.py's `/digest` handler sends exactly `SimpleDigestReplies` of the user's topics |
| Fetching.GetNews | bot.py:70-96 | a missing or empty key gives `[]`; so does a failed request; otherwise the reply's articles |
| Fetching.KeyMissing | bot.py:73 | the definition of `not self.news_api_key`: the key is unset or empty; `GetNews` returns `[]` exactly in this case or on a failed request |
| Fetching.KeyIsPlaceholder | bot_simple.py:56 | the definition of the placeholder test: a missing key or "test_key"; `SimpleGetNews` and `DemoGetNews` return test news in this case |
| Fetching.SimpleTestArticle | bot_simple.py:62-69 | the test article's title contains the query; it has a description and a url, and is dated now |
| Fetching.SimpleGetNews | bot_simple.py:56-90 | a missing, empty or "test_key" key gives exactly one test article, whose title contains the query; otherwise bot.py's behaviour |
| Fetching.DemoTestNews | bot_demo.py:81-102 | exactly three articles, each naming the query in its title and description, with distinct non-empty urls |
| Fetching.DemoGetNews | bot_demo.py:53-79 | a missing or placeholder key, or a failed request, gives the test news; otherwise the reply. The result is empty only for a real key and an empty reply |
| Fetching.MinimalTestNews | bot_minimal.py:54-69 | exactly two articles, both naming the query in the title, each with a description and a url |
| Minimal.TopicList | bot_minimal.py:104-108 | an unknown user, or a record without `topics`, gives `[]`; otherwise the stored list |
| Minimal.Added | bot_minimal.py:92-102 | raises (`KeyError`) iff the user's record has no `topics`, a case only the one-key-type model reaches (see Left out). Otherwise an unknown user first gets `{topics: []}`, the topic is appended, and others are unchanged |
| Minimal.MinimalNewsBot.constructor | bot_minimal.py:30-44 | the bot starts with the saved store, or an empty one |
| Minimal.MinimalNewsBot.GetUserTopics | bot_minimal.py:104-108 | `[]` for an unknown user, else the stored list |
| Minimal.MinimalNewsBot.AddUserTopic | bot_minimal.py:92-102 | raises with nothing changed iff the record lacks `topics`. Otherwise the store becomes `Added` of the old one, the user's list grows by `{name, added_at}` at the end, and the store is saved |
| Weather.WeatherEmoji | bot.py:363-381 | a code outside every listed group gets "☁️", and exactly those codes do |
| Weather.WeatherDescription | bot.py:383-415 | a code not in the table gets "Неизвестная погода", and exactly those codes do; which codes get it is the same as for "☁️" |
| Demo.DemoTopics | bot_demo.py:214-216 | the three demo topics, the third without keywords |
| Demo.TopicMessage | bot_demo.py:228-239 | one demo topic's message: it raises iff its filter raises, and otherwise names the topic |
| Demo.ShowTopic | bot_demo.py:229-239 | one pass of the demo's loop computes exactly `TopicMessage`: a raise iff the filter raises, otherwise a message naming the topic |
| Demo.TopicMessages | bot_demo.py:228-243 | the definition of the demo loop's messages, raising at the first topic that raises; characterised by `TopicMessagesRaise` and `TopicMessagesNameTopics` |
| Demo.TopicMessagesRaise | bot_demo.py:228-243 | the demo loop raises iff some topic's filter raises |
| Demo.TopicMessagesNameTopics | bot_demo.py:228-243 | otherwise there is one message per topic, each naming its topic |
| Demo.TopicMessagesRaisedStays | bot_demo.py:228-243 | once a topic has raised, later topics cannot undo it |
| Demo.ShowTopics | bot_demo.py:228-243 | the loop over the first two topics computes their messages |
| Demo.DemoBot | bot_demo.py:204-243 | the user's topics are those already in the store followed by the three demo topics, and the messages are those of the first two. Exactly the three demo topics is proved only for a file without user 12345 (see Left out) |

## Left out

- HTTP calls to NewsAPI and Open-Meteo: the request is the parameter `remote`, and a reply without
  an `articles` key is folded into an empty list. The `language` parameter of `get_news` and the
  query parameters it sends are not modelled.
- JSON encoding of the store file is not modelled. The file is an abstract snapshot: absent,
  saved or corrupt.
- The `.backup` rename of a corrupt file in `bot.py` is file-system I/O. Only its effect on loading,
  an empty store, is kept.
- The `int` key in memory versus the `str` key after a JSON reload: the model uses one key type.
- Demo.DemoBot: in the source, `json.load` gives string keys and `demo_bot` passes the integer
  12345, so the demo user never matches a loaded record and always ends with exactly the three demo
  topics. With one key type, the model can load a record for user 12345. The exact three-topic
  result is therefore proved only for a file without that user.
- Minimal.Added: in the source, a record without `topics` cannot be reached. Records created in
  memory always have the list, and a loaded record (string key) never matches an integer user id.
  With one key type, the model can load such a record. Its `Raised` path models the `KeyError` the
  code would raise there, and the source never reaches it.
- JSON save and reload of `news_data.json`: the model's file is a snapshot that loads back as the
  saved store by construction. The conversion of integer keys to strings on reload is not modelled,
  so no save/load round trip is claimed.
- Bot.NewsBot.SaveData: `save_data` catches and logs a failed write, leaving the old file. If the
  failure comes after `open(..., 'w')` has truncated the file, it may leave a partial one. The
  model's save always writes the whole store, and every mutating method ensures
  `disk == Saved(users)`. No write failure is modelled, here or in
  `Minimal.MinimalNewsBot.AddUserTopic`.
- Dictionary iteration order after a reload is the file's key order, which the model does not keep.
  `Bot.SomeOrder` picks any duplicate-free listing of the keys instead.
- `datetime.now()`: one timestamp `now` serves a whole call.
- ISO date parsing and `strftime`: the abstract `format` function.
- `format_weather_message`, `get_location_coordinates` and `get_weather`: float presentation and
  HTTP.
- Telegram transport: `parse_mode`, `disable_web_page_preview`, async/await and the
  `job_queue.run_daily` schedule.
- The `start`, `help`, `add_topic`, `remove_topic`, `my_topics`, `toggle_digest`, `weather` and
  `error_handler` handlers, and every handler of the minimal variant: argument parsing and reply
  plumbing around the store methods, which are modelled.
- Text.LowerChar: lower-casing covers ASCII and the Cyrillic capitals U+0400 to U+042F only. Python's
  `str.lower` also lowers capitals the model leaves alone. These include Latin-1 letters such as `É`,
  the Cyrillic capitals beyond U+042F such as `Ґ` (U+0490), and other scripts. It can also change
  the length (`'İ'.lower()` has two code points), which `Text.Lower` never does.
- Digest.RunFor: `user_data.get('daily_digest', False)` defaults a missing flag to false. The model's
  records always carry the flag.
- Logging, and the printing done by `demo_bot`.
- `main.py` (a thread beside a Flask server), `check_setup.py` (environment checks) and
  `fix_data.py` (overwrites the file with fixed data).
