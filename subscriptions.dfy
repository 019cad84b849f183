/** The per-user subscription records of bot.py, bot_simple.py and bot_demo.py (`users_data`), as
    values, with the store operations as functions on them. The `NewsBot` class applies these. */
module Subscriptions {
  import opened Wrappers
  import opened Seqs

  type UserId = int

  /** `datetime.now().isoformat()`; the model treats it as an opaque string. */
  type Timestamp = string

  datatype Topic = Topic(name: string, keywords: seq<string>, addedAt: Timestamp)

  /** One user's record: `topics`, the unused record-level `keywords`, `daily_digest`, `last_digest`. */
  datatype Subscription = Subscription(topics: seq<Topic>, keywords: seq<string>, dailyDigest: bool,
                                       lastDigest: Option<Timestamp>)

  /** The record created for a user on their first add-topic or toggle. */
  const Fresh := Subscription([], [], true, None)

  type Store = map<UserId, Subscription>

  /** What `news_data.json` holds: nothing, a document that parses, or one that does not. */
  datatype StoreFile = Absent | Saved(store: Store) | Corrupt

  /** `load_data`: the parsed document, or an empty store when the file is absent or unreadable. */
  function Load(file: StoreFile): (r: Store)
    ensures !file.Saved? ==> r == map[]
  {
    if file.Saved? then file.store else map[]
  }

  function RecordOf(store: Store, user: UserId): Subscription
  {
    if user in store then store[user] else Fresh
  }

  /** `get_user_topics`: the stored topic list, `[]` for an unknown user. */
  function TopicsOf(store: Store, user: UserId): (ts: seq<Topic>)
    ensures user !in store ==> ts == []
    ensures user in store ==> ts == store[user].topics
  {
    RecordOf(store, user).topics
  }

  /** `add_user_topic`: create the default record if needed, then append the topic. */
  function WithTopic(store: Store, user: UserId, topic: Topic): (r: Store)
    ensures r.Keys == store.Keys + {user}
    ensures TopicsOf(r, user) == TopicsOf(store, user) + [topic]
    ensures user !in store ==> r[user] == Fresh.(topics := [topic])
    ensures user in store ==> r[user] == store[user].(topics := store[user].topics + [topic])
    ensures forall u :: u in store && u != user ==> r[u] == store[u]
  {
    var rec := RecordOf(store, user);
    store[user := rec.(topics := rec.topics + [topic])]
  }

  function NameDiffers(name: string): Topic -> bool
  {
    (t: Topic) => t.name != name
  }

  /** `[t for t in topics if t['name'] != topic]`: every topic named exactly `name` goes, the rest
      stay in order. */
  function DropNamed(topics: seq<Topic>, name: string): (r: seq<Topic>)
    ensures IsSubsequence(r, topics)
    ensures forall t :: t in r ==> t.name != name
    ensures forall i :: 0 <= i < |topics| && topics[i].name != name ==> topics[i] in r
    ensures forall t: Topic :: t.name != name ==> multiset(r)[t] == multiset(topics)[t]
  {
    FilterIsSubsequence(topics, NameDiffers(name));
    FilterCounts(topics, NameDiffers(name));
    var r := Filter(topics, NameDiffers(name));
    assert forall i :: 0 <= i < |topics| && topics[i].name != name ==> multiset(r)[topics[i]] > 0 by {
      forall i | 0 <= i < |topics| && topics[i].name != name
        ensures multiset(r)[topics[i]] > 0
      {
        assert multiset(topics)[topics[i]] > 0;
      }
    }
    r
  }

  /** `remove_user_topic` on a known user: only that user's topic list changes. */
  function WithoutTopic(store: Store, user: UserId, name: string): (r: Store)
    requires user in store
    ensures r.Keys == store.Keys
    ensures r[user] == store[user].(topics := DropNamed(store[user].topics, name))
    ensures forall u :: u in store && u != user ==> r[u] == store[u]
  {
    store[user := store[user].(topics := DropNamed(store[user].topics, name))]
  }

  /** `toggle_daily_digest`: create the default record if needed, then negate `daily_digest`. */
  function Toggled(store: Store, user: UserId): (r: Store)
    ensures r.Keys == store.Keys + {user}
    ensures r[user] == RecordOf(store, user).(dailyDigest := !RecordOf(store, user).dailyDigest)
    ensures user !in store ==> !r[user].dailyDigest
    ensures forall u :: u in store && u != user ==> r[u] == store[u]
  {
    var rec := RecordOf(store, user);
    store[user := rec.(dailyDigest := !rec.dailyDigest)]
  }

  /** Toggling twice restores the flag: a known user's store is back as it was, and an unknown
      user is left with the default record (digest enabled). */
  lemma ToggleTwice(store: Store, user: UserId)
    ensures Toggled(Toggled(store, user), user) == store[user := RecordOf(store, user)]
    ensures user in store ==> Toggled(Toggled(store, user), user) == store
    ensures Toggled(Toggled(store, user), user)[user].dailyDigest == RecordOf(store, user).dailyDigest
  {
    var once := Toggled(store, user);
    assert RecordOf(once, user) == RecordOf(store, user).(dailyDigest := !RecordOf(store, user).dailyDigest);
  }

  /** On a fresh user the first toggle reports `false` and the second `true`. */
  lemma ToggleFreshUser(store: Store, user: UserId)
    requires user !in store
    ensures !Toggled(store, user)[user].dailyDigest
    ensures Toggled(Toggled(store, user), user)[user].dailyDigest
  {
    ToggleTwice(store, user);
  }

  /** A name no topic carries removes nothing: `remove_user_topic` still saves and returns `True`,
      and the list is exactly as it was. */
  lemma {:induction false} RemoveUnmatchedKeepsList(topics: seq<Topic>, name: string)
    requires forall i :: 0 <= i < |topics| ==> topics[i].name != name
    ensures DropNamed(topics, name) == topics
  {
    FilterAllPass(topics, NameDiffers(name));
  }
}
