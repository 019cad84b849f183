/** The `NewsBot` class of bot.py (its store methods are repeated verbatim in bot_simple.py and
    bot_demo.py): the in-memory `users_data` dictionary, the file it is saved to, and the daily
    digest run over all users. */
module Bot {
  import opened Wrappers
  import opened Articles
  import opened Subscriptions
  import opened Digest

  /** An order in which a loaded dictionary iterates: the file's key order, which the model does
      not keep, so any duplicate-free listing of the keys. */
  method SomeOrder(store: Store) returns (order: seq<UserId>)
    ensures forall u :: u in store <==> u in order
    ensures forall j :: 0 <= j < |order| ==> order[j] in store
    ensures forall i, j :: 0 <= i < j < |order| ==> order[i] != order[j]
  {
    var pending := store.Keys;
    order := [];
    while pending != {}
      invariant forall u :: u in store <==> u in order || u in pending
      invariant forall j :: 0 <= j < |order| ==> order[j] in store
      invariant forall u :: u in order ==> u !in pending
      invariant forall i, j :: 0 <= i < j < |order| ==> order[i] != order[j]
      decreases pending
    {
      if forall v :: v !in pending {
        assert false;
      }
      var next :| next in pending;
      order := order + [next];
      pending := pending - {next};
    }
  }

  class NewsBot {
    /** `users_data`. */
    var users: Store
    /** The order in which `users_data` iterates: keys in insertion order. */
    var order: seq<UserId>
    /** What `news_data.json` holds; `save_data` overwrites it with the whole store. */
    var disk: StoreFile

    ghost predicate Valid()
      reads this
    {
      && (forall u :: u in users <==> u in order)
      && (forall j :: 0 <= j < |order| ==> order[j] in users)
      && (forall i, j :: 0 <= i < j < |order| ==> order[i] != order[j])
    }

    /** `__init__`: load the store from the file (empty when absent or corrupt). */
    constructor (file: StoreFile)
      ensures Valid()
      ensures users == Load(file) && disk == file
    {
      var loaded := Load(file);
      var keys := SomeOrder(loaded);
      users, order, disk := loaded, keys, file;
    }

    method SaveData()
      modifies this`disk
      ensures disk == Saved(users)
    {
      disk := Saved(users);
    }

    /** `get_user_topics`. */
    function GetUserTopics(user: UserId): (ts: seq<Topic>)
      reads this
      ensures user !in users ==> ts == []
      ensures user in users ==> ts == users[user].topics
    {
      TopicsOf(users, user)
    }

    /** `add_user_topic`: a `None` keyword list is stored as `[]`. */
    method AddUserTopic(user: UserId, topic: string, keywords: Option<seq<string>>, now: Timestamp)
      requires Valid()
      modifies this
      ensures Valid()
      ensures users == WithTopic(old(users), user, Topic(topic, keywords.GetOr([]), now))
      ensures order == if user in old(users) then old(order) else old(order) + [user]
      ensures disk == Saved(users)
    {
      if user !in users {
        users := users[user := Fresh];
        order := order + [user];
      }
      var kws := if keywords.None? then [] else keywords.value;
      var rec := users[user];
      users := users[user := rec.(topics := rec.topics + [Topic(topic, kws, now)])];
      SaveData();
    }

    /** `remove_user_topic`: `false`, with nothing changed and nothing saved, for an unknown user;
        otherwise `true`, whether or not any topic had that name. */
    method RemoveUserTopic(user: UserId, topic: string) returns (removed: bool)
      requires Valid()
      modifies this
      ensures Valid() && order == old(order)
      ensures removed <==> user in old(users)
      ensures !removed ==> users == old(users) && disk == old(disk)
      ensures removed ==> users == WithoutTopic(old(users), user, topic) && disk == Saved(users)
    {
      if user !in users {
        return false;
      }
      var topics := users[user].topics;
      users := users[user := users[user].(topics := DropNamed(topics, topic))];
      SaveData();
      return true;
    }

    /** `toggle_daily_digest`: returns the value it stored. */
    method ToggleDailyDigest(user: UserId) returns (enabled: bool)
      requires Valid()
      modifies this
      ensures Valid()
      ensures users == Toggled(old(users), user)
      ensures enabled == users[user].dailyDigest
      ensures order == if user in old(users) then old(order) else old(order) + [user]
      ensures disk == Saved(users)
    {
      if user !in users {
        users := users[user := Fresh];
        order := order + [user];
      }
      users := users[user := users[user].(dailyDigest := !users[user].dailyDigest)];
      SaveData();
      return users[user].dailyDigest;
    }

    /** One user's part of `send_daily_digest`'s loop, the early `continue`s as returns. */
    static method DigestFor(user: UserId, sub: Subscription, fetch: string -> seq<Article>,
                            format: string -> Option<string>, send: (UserId, string) -> bool)
      returns (run: UserRun)
      ensures run == RunFor(user, sub, fetch, format, send)
    {
      if !sub.dailyDigest || sub.topics == [] {
        return Skipped;
      }
      var body, hasNews := CollectBlocks(sub.topics, fetch, format, DividerAfter);
      BlocksCharacterised(sub.topics, fetch, format, DividerAfter);
      if body.Raised? {
        return Failed;
      }
      var text := if hasNews then DailyHeader + body.value else NoNewsToday;
      assert text == DigestText(body.value);
      if !send(user, text) {
        return Failed;
      }
      return Delivered(text);
    }

    /** The `try` block for the user at position `idx`: on delivery, stamp the record and save. */
    method VisitUser(idx: nat, ghost start: Store, fetch: string -> seq<Article>,
                     format: string -> Option<string>, send: (UserId, string) -> bool, now: Timestamp)
      returns (run: UserRun)
      requires idx < |order|
      requires forall j :: 0 <= j < |order| ==> order[j] in start
      requires forall i, j :: 0 <= i < j < |order| ==> order[i] != order[j]
      requires users == DigestRun(order[..idx], start, fetch, format, send, now)
      modifies this`users, this`disk
      ensures run == RunFor(order[idx], start[order[idx]], fetch, format, send)
      ensures users == DigestRun(order[..idx + 1], start, fetch, format, send, now)
      ensures disk == if run.Delivered? then Saved(users) else old(disk)
      ensures !run.Delivered? ==> users == old(users)
    {
      var user := order[idx];
      assert order[..idx + 1][..idx] == order[..idx];
      DigestRunUnvisited(order[..idx], start, fetch, format, send, now, user);
      var sub := users[user];
      assert sub == start[user];
      run := DigestFor(user, sub, fetch, format, send);
      assert DigestRun(order[..idx + 1], start, fetch, format, send, now) == users[user := Stamped(sub, run, now)];
      if run.Delivered? {
        users := users[user := sub.(lastDigest := Some(now))];
        SaveData();
      } else {
        assert users[user := sub] == users;
      }
    }

    /** `send_daily_digest`: every user in iteration order, each in its own `try`. A user who is
        skipped or fails keeps their record; a user whose message goes out gets `last_digest`
        and a save, whether the message was a digest or the "no news" notice. */
    method SendDailyDigest(fetch: string -> seq<Article>, format: string -> Option<string>,
                           send: (UserId, string) -> bool, now: Timestamp) returns (sent: seq<Delivery>)
      requires Valid()
      modifies this
      ensures Valid() && order == old(order)
      ensures users == DigestRun(order, old(users), fetch, format, send, now)
      ensures sent == Deliveries(order, old(users), fetch, format, send)
      ensures disk == if exists j :: 0 <= j < |order| && RunFor(order[j], old(users)[order[j]], fetch, format, send).Delivered?
                      then Saved(users) else old(disk)
    {
      ghost var start := users;
      ghost var saved := false;
      sent := [];
      for idx := 0 to |order|
        invariant order == old(order)
        invariant users == DigestRun(order[..idx], start, fetch, format, send, now)
        invariant sent == Deliveries(order[..idx], start, fetch, format, send)
        invariant saved <==> SomeDelivered(order, idx, start, fetch, format, send)
        invariant disk == if saved then Saved(users) else old(disk)
      {
        var run := VisitUser(idx, start, fetch, format, send, now);
        SomeDeliveredStep(order, idx, start, fetch, format, send);
        assert order[..idx + 1][..idx] == order[..idx];
        assert Deliveries(order[..idx + 1], start, fetch, format, send)
            == sent + (if run.Delivered? then [Delivery(order[idx], run.text)] else []);
        if run.Delivered? {
          sent := sent + [Delivery(order[idx], run.text)];
          saved := true;
        } else {
          assert sent + [] == sent;
        }
      }
      assert order[..|order|] == order;
      DigestRunKeys(order, start, fetch, format, send, now);
    }
  }
}
