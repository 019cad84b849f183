/** The `NewsBot` class of bot_minimal.py: its records hold only a topic list, topics carry only
    a name and a timestamp, and messages use the three-entry layout without dates. */
module Minimal {
  import opened Wrappers
  import opened Articles
  import opened Composer
  import opened Subscriptions

  datatype NamedTopic = NamedTopic(name: string, addedAt: Timestamp)

  /** A record as `{'topics': [...]}`. `None` stands for a record read from the file without a
      `topics` key. */
  datatype Record = Record(topics: Option<seq<NamedTopic>>)

  type MinimalStore = map<UserId, Record>

  datatype MinimalFile = NoFile | SavedFile(store: MinimalStore) | CorruptFile

  /** `get_user_topics`: `[]` for an unknown user and for a record without a topic list. */
  function TopicList(store: MinimalStore, user: UserId): (ts: seq<NamedTopic>)
    ensures user in store && store[user].topics.Some? ==> ts == store[user].topics.value
    ensures !(user in store && store[user].topics.Some?) ==> ts == []
  {
    if user in store then store[user].topics.GetOr([]) else []
  }

  /** `add_user_topic` on the store: a new user gets `{'topics': []}` first; then the topic is
      appended. A stored record without a topic list makes the append raise (`KeyError`). */
  function Added(store: MinimalStore, user: UserId, topic: NamedTopic): (r: Result<MinimalStore>)
    ensures r.Raised? <==> user in store && store[user].topics.None?
    ensures r.Ok? ==> r.value.Keys == store.Keys + {user}
    ensures r.Ok? ==> TopicList(r.value, user) == TopicList(store, user) + [topic]
    ensures r.Ok? ==> forall u :: u in store && u != user ==> r.value[u] == store[u]
  {
    var record := if user in store then store[user] else Record(Some([]));
    match record.topics
    case None => Raised
    case Some(ts) =>
      var r := store[user := Record(Some(ts + [topic]))];
      assert TopicList(r, user) == ts + [topic];
      Ok(r)
  }

  class MinimalNewsBot {
    /** `users_data`. */
    var users: MinimalStore
    /** What `news_data.json` holds. */
    var disk: MinimalFile

    /** `__init__` with `load_data`: an absent or unreadable file gives an empty store. */
    constructor (file: MinimalFile)
      ensures users == (if file.SavedFile? then file.store else map[]) && disk == file
    {
      users := if file.SavedFile? then file.store else map[];
      disk := file;
    }

    function GetUserTopics(user: UserId): (ts: seq<NamedTopic>)
      reads this
      ensures user !in users ==> ts == []
      ensures user in users && users[user].topics.Some? ==> ts == users[user].topics.value
    {
      TopicList(users, user)
    }

    /** `add_user_topic`: on a `KeyError` nothing is changed or saved; otherwise the topic is
        appended, other users are untouched, and the store is saved. */
    method AddUserTopic(user: UserId, topic: string, now: Timestamp) returns (raised: bool)
      modifies this
      ensures raised <==> Added(old(users), user, NamedTopic(topic, now)).Raised?
      ensures raised ==> users == old(users) && disk == old(disk)
      ensures !raised ==> users == Added(old(users), user, NamedTopic(topic, now)).value
      ensures !raised ==> GetUserTopics(user) == old(GetUserTopics(user)) + [NamedTopic(topic, now)]
      ensures !raised ==> disk == SavedFile(users)
    {
      if user !in users {
        users := users[user := Record(Some([]))];
      }
      if users[user].topics.None? {
        return true;
      }
      var ts := users[user].topics.value;
      users := users[user := Record(Some(ts + [NamedTopic(topic, now)]))];
      disk := SavedFile(users);
      return false;
    }
  }

  /** `format_news_message` of bot_minimal.py prints no date: whatever the date formatting does,
      the message is the same. */
  lemma {:induction false} MinimalMessageUndated(articles: seq<Article>, topic: string,
                                                 f: string -> Option<string>, g: string -> Option<string>)
    ensures NewsMessage(articles, topic, MinimalLayout, f) == NewsMessage(articles, topic, MinimalLayout, g)
  {
    if articles != [] {
      var n := EntryCount(articles, MinimalLayout);
      var ef, eg := Entries(articles, n, MinimalLayout, f), Entries(articles, n, MinimalLayout, g);
      forall i | 0 <= i < n
        ensures ef[i] == eg[i]
      {
        assert DateLine(articles[i], MinimalLayout, f) == DateLine(articles[i], MinimalLayout, g);
      }
      assert ef == eg;
    }
  }
}
