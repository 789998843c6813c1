/** The account and chat endpoints of the backend (main.py) over an
    in-memory stand-in for its two MongoDB collections: `users`, keyed by
    username, and `chats`, a sequence of documents in natural order. Token
    signing, authentication of the caller, unique ids and clock readings are
    inputs. */
module Backend {
  import opened Messages
  import opened Records

  /** An endpoint's answer: a value, or an `HTTPException` with its status and detail. */
  datatype Reply<T> = Ok(value: T) | HttpError(status: int, detail: string)

  /** The token an endpoint issues, reduced to its `sub` claim. */
  datatype TokenGrant = TokenGrant(subject: string)

  /** A document of the `users` collection, apart from its username key. */
  datatype UserRecord = UserRecord(userId: string, createdAt: int)

  /** The body `create_chat` answers with. */
  datatype Created = Created(chatId: string, title: string)

  /** The first index whose document satisfies `p`, as `find_one` and
      `update_one` pick the first match in natural order. */
  function FirstIndex(chats: seq<ChatDoc>, p: ChatDoc -> bool): (r: Option<nat>)
    ensures r.Some? ==> r.value < |chats| && p(chats[r.value])
    ensures r.Some? ==> forall k :: 0 <= k < r.value ==> !p(chats[k])
    ensures r.None? ==> forall k :: 0 <= k < |chats| ==> !p(chats[k])
    decreases |chats|
  {
    if chats == [] then None
    else if p(chats[0]) then Some(0)
    else match FirstIndex(chats[1..], p)
      case None => None
      case Some(i) => Some(i + 1)
  }

  /** The chat `get_chat` and `update_chat` look up. */
  function FindChat(chats: seq<ChatDoc>, chatId: string, userId: string): (r: Option<nat>)
    ensures r.Some? ==> r.value < |chats| && Matches(chats[r.value], chatId, userId)
    ensures r.Some? ==> forall k :: 0 <= k < r.value ==> !Matches(chats[k], chatId, userId)
    ensures r.None? ==> forall k :: 0 <= k < |chats| ==> !Matches(chats[k], chatId, userId)
  {
    FirstIndex(chats, d => Matches(d, chatId, userId))
  }

  /** The document `update_one` filters for: the first holding `value` under `field`. */
  function FindByKey(chats: seq<ChatDoc>, field: string, value: string): (r: Option<nat>)
    ensures r.Some? ==> r.value < |chats| && Holds(chats[r.value], field, value)
    ensures r.Some? ==> forall k :: 0 <= k < r.value ==> !Holds(chats[k], field, value)
    ensures r.None? ==> forall k :: 0 <= k < |chats| ==> !Holds(chats[k], field, value)
  {
    FirstIndex(chats, d => Holds(d, field, value))
  }

  /** The documents `get_chats` queries for, in storage order: each of the
      user's documents exactly as often as the store holds it, and no other. */
  function Owned(chats: seq<ChatDoc>, userId: string): (r: seq<ChatDoc>)
    ensures multiset(r) <= multiset(chats)
    ensures forall x :: x in r ==> OwnedBy(x, userId)
    ensures forall x :: OwnedBy(x, userId) ==> multiset(r)[x] == multiset(chats)[x]
    decreases |chats|
  {
    if chats == [] then []
    else
      var rest := Owned(chats[1..], userId);
      assert chats == [chats[0]] + chats[1..];
      if OwnedBy(chats[0], userId) then [chats[0]] + rest else rest
  }

  /** The listing keeps storage order: the listing of two stretches of the
      store is the listing of the first followed by that of the second. */
  lemma {:induction false} OwnedAppend(xs: seq<ChatDoc>, ys: seq<ChatDoc>, userId: string)
    ensures Owned(xs + ys, userId) == Owned(xs, userId) + Owned(ys, userId)
    decreases |xs|
  {
    if xs == [] {
      assert xs + ys == ys;
    } else {
      var x, xs' := xs[0], xs[1..];
      assert xs == [x] + xs';
      assert xs + ys == [x] + (xs' + ys);
      OwnedAppend(xs', ys, userId);
      OwnedCons(x, xs', userId);
      OwnedCons(x, xs' + ys, userId);
      var a, b := Owned(xs', userId), Owned(ys, userId);
      ConsAssoc(x, a, b);
    }
  }

  lemma ConsAssoc<T>(x: T, a: seq<T>, b: seq<T>)
    ensures [x] + (a + b) == ([x] + a) + b
  {
  }

  /** The listing of a store with one more document in front. */
  lemma OwnedCons(x: ChatDoc, rest: seq<ChatDoc>, userId: string)
    ensures Owned([x] + rest, userId) == (if OwnedBy(x, userId) then [x] + Owned(rest, userId) else Owned(rest, userId))
  {
    assert ([x] + rest)[1..] == rest;
  }

  /** A chat is listed exactly when it is stored and is the user's. */
  lemma OwnedMembers(chats: seq<ChatDoc>, userId: string, x: ChatDoc)
    ensures x in Owned(chats, userId) <==> x in chats && OwnedBy(x, userId)
  {
    var r := Owned(chats, userId);
    assert x in r <==> multiset(r)[x] > 0;
    assert x in chats <==> multiset(chats)[x] > 0;
  }

  /** The store after `update_one({field: value}, {"$set": ...})`: the first
      document holding `value` under `field` gets the new messages and time;
      when there is none, nothing changes. */
  function Updated(chats: seq<ChatDoc>, field: string, value: string, messages: seq<Message>, now: int): (r: seq<ChatDoc>)
    ensures |r| == |chats|
    ensures FindByKey(chats, field, value).None? ==> r == chats
    ensures FindByKey(chats, field, value).Some? ==>
      var j := FindByKey(chats, field, value).value;
      r[j] == SetMessages(chats[j], messages, now) && forall k :: 0 <= k < |chats| && k != j ==> r[k] == chats[k]
  {
    match FindByKey(chats, field, value)
    case None => chats
    case Some(j) => chats[j := SetMessages(chats[j], messages, now)]
  }

  /** No two documents hold the same value under `field`. */
  predicate DistinctUnder(chats: seq<ChatDoc>, field: string) {
    forall j, k :: 0 <= j < k < |chats| && field in chats[j] && field in chats[k] ==> chats[j][field] != chats[k][field]
  }

  class Database {
    var users: map<string, UserRecord>
    var chats: seq<ChatDoc>

    constructor ()
      ensures users == map[] && chats == []
    {
      users := map[];
      chats := [];
    }

    /** `register`: a taken username is refused with 400; otherwise the user
        is stored and a token for the username is issued. */
    method Register(username: string, userId: string, now: int) returns (r: Reply<TokenGrant>)
      modifies this
      ensures username in old(users) ==> r == HttpError(400, "Username already registered") && users == old(users)
      ensures username !in old(users) ==> r == Ok(TokenGrant(username)) && users == old(users)[username := UserRecord(userId, now)]
      ensures chats == old(chats)
    {
      if username in users {
        return HttpError(400, "Username already registered");
      }
      users := users[username := UserRecord(userId, now)];
      r := Ok(TokenGrant(username));
    }

    /** `login`: a token is issued exactly for a registered username, and an
        unknown one is refused with 401. */
    method Login(username: string) returns (r: Reply<TokenGrant>)
      ensures r.Ok? <==> username in users
      ensures r.Ok? ==> r.value == TokenGrant(username)
      ensures r.HttpError? ==> r == HttpError(401, "Invalid username")
    {
      if username !in users {
        return HttpError(401, "Invalid username");
      }
      r := Ok(TokenGrant(username));
    }

    /** `create_chat`: the record of a fresh chat is appended and its id and
        title are answered; a failed insert answers 500 and stores nothing. */
    method CreateChat(userId: string, chatId: string, title: string, createdAt: int, updatedAt: int,
                      insertError: Option<string>) returns (r: Reply<Created>)
      modifies this
      ensures insertError.None? ==> (r == Ok(Created(chatId, title)) &&
        chats == old(chats) + [NewChatRecord(chatId, title, userId, createdAt, updatedAt)])
      ensures insertError.Some? ==> r == HttpError(500, "Database error: " + insertError.value) && chats == old(chats)
      ensures users == old(users)
    {
      var chat := NewChatRecord(chatId, title, userId, createdAt, updatedAt);
      if insertError.Some? {
        return HttpError(500, "Database error: " + insertError.value);
      }
      chats := chats + [chat];
      r := Ok(Created(chatId, title));
    }

    /** `get_chats`: the user's chats, each given its `chat_id`. */
    method GetChats(userId: string) returns (list: seq<ChatDoc>)
      ensures |list| == |Owned(chats, userId)|
      ensures forall k :: 0 <= k < |list| ==> list[k] == Backfill(Owned(chats, userId)[k])
    {
      list := Owned(chats, userId);
      var i := 0;
      while i < |list|
        invariant 0 <= i <= |list| == |Owned(chats, userId)|
        invariant forall k :: 0 <= k < i ==> list[k] == Backfill(Owned(chats, userId)[k])
        invariant forall k :: i <= k < |list| ==> list[k] == Owned(chats, userId)[k]
      {
        list := list[i := Backfill(list[i])];
        i := i + 1;
      }
    }

    /** `get_chat`: the first matching chat, given its `chat_id`, or 404. */
    method GetChat(chatId: string, userId: string) returns (r: Reply<ChatDoc>)
      ensures FindChat(chats, chatId, userId).None? ==> r == HttpError(404, "Chat not found")
      ensures FindChat(chats, chatId, userId).Some? ==>
        r == Ok(Backfill(chats[FindChat(chats, chatId, userId).value]))
    {
      var found := FindChat(chats, chatId, userId);
      if found.None? {
        return HttpError(404, "Chat not found");
      }
      r := Ok(Backfill(chats[found.value]));
    }

    /** `update_chat`: 404 when the user has no such chat; otherwise the
        messages are replaced, filtering on `id` when the chat found has one
        and on `chat_id` otherwise, and the answer is "updated". */
    method UpdateChat(chatId: string, userId: string, messages: seq<Message>, now: int) returns (r: Reply<string>)
      modifies this
      ensures FindChat(old(chats), chatId, userId).None? ==>
        r == HttpError(404, "Chat not found") && chats == old(chats)
      ensures FindChat(old(chats), chatId, userId).Some? ==> (r == Ok("updated") &&
        chats == Updated(old(chats), KeyField(old(chats)[FindChat(old(chats), chatId, userId).value]), chatId, messages, now))
      ensures users == old(users)
    {
      var found := FindChat(chats, chatId, userId);
      if found.None? {
        return HttpError(404, "Chat not found");
      }
      var idField := KeyField(chats[found.value]);
      chats := Updated(chats, idField, chatId, messages, now);
      r := Ok("updated");
    }
  }

  /** With ids unique under each key field, `update_chat` writes the very
      chat it found whenever that chat's key field holds the requested id;
      this is always so for chats made by `create_chat`. */
  lemma UpdateReachesFoundChat(chats: seq<ChatDoc>, chatId: string, userId: string, messages: seq<Message>, now: int)
    requires FindChat(chats, chatId, userId).Some?
    requires var i := FindChat(chats, chatId, userId).value; "id" !in chats[i] || Holds(chats[i], "id", chatId)
    requires DistinctUnder(chats, "id") && DistinctUnder(chats, "chat_id")
    ensures var i := FindChat(chats, chatId, userId).value;
      Updated(chats, KeyField(chats[i]), chatId, messages, now) == chats[i := SetMessages(chats[i], messages, now)]
  {
    var i := FindChat(chats, chatId, userId).value;
    var f := KeyField(chats[i]);
    assert Holds(chats[i], f, chatId);
    var j := FindByKey(chats, f, chatId);
    assert j.Some?;
  }

  /** A stored chat found by its `chat_id` whose `id` is a different value
      is not the document the update writes: the update filters on `id`, so it
      writes the first document whose `id` is the requested id, if any, while
      the endpoint still answers "updated". */
  lemma UpdateMissesChatFoundByAlias(chats: seq<ChatDoc>, chatId: string, userId: string, messages: seq<Message>, now: int)
    requires FindChat(chats, chatId, userId).Some?
    requires var i := FindChat(chats, chatId, userId).value; "id" in chats[i] && !Holds(chats[i], "id", chatId)
    ensures var i := FindChat(chats, chatId, userId).value;
      Updated(chats, KeyField(chats[i]), chatId, messages, now)[i] == chats[i]
  {
    var i := FindChat(chats, chatId, userId).value;
    assert KeyField(chats[i]) == "id";
    var j := FindByKey(chats, "id", chatId);
    assert j.Some? ==> j.value != i;
  }

  /** The owner-less update filter can write another user's chat: user `u`
      owns a chat with `id` "a" and `chat_id` "b", user `v` owns a chat with
      `id` "b"; `u` asking to update "b" finds its own chat and then
      overwrites the messages of `v`'s. */
  lemma UpdateWritesOtherUsersChat(messages: seq<Message>, now: int)
    ensures var mine := map["id" := Str("a"), "chat_id" := Str("b"), "user_id" := Str("u")];
      var theirs := map["id" := Str("b"), "user_id" := Str("v")];
      && FindChat([mine, theirs], "b", "u") == Some(0)
      && Updated([mine, theirs], KeyField(mine), "b", messages, now) == [mine, SetMessages(theirs, messages, now)]
  {
    var mine := map["id" := Str("a"), "chat_id" := Str("b"), "user_id" := Str("u")];
    var theirs := map["id" := Str("b"), "user_id" := Str("v")];
    assert Matches(mine, "b", "u");
    assert !Holds(mine, "id", "b") && Holds(theirs, "id", "b");
    assert [mine, theirs][1..] == [theirs];
    assert FirstIndex([theirs], d => Holds(d, "id", "b")) == Some(0);
    assert FindByKey([mine, theirs], "id", "b") == Some(1);
  }

  /** A chat just created by a user, with an id none of the user's chats
      has, is what `get_chat` answers for that id: its `chat_id` is the id and
      it holds only the system greeting. */
  lemma CreatedChatIsFound(chats: seq<ChatDoc>, chatId: string, title: string, userId: string, createdAt: int, updatedAt: int)
    requires forall k :: 0 <= k < |chats| ==> !Matches(chats[k], chatId, userId)
    ensures var store := chats + [NewChatRecord(chatId, title, userId, createdAt, updatedAt)];
      && FindChat(store, chatId, userId) == Some(|chats|)
      && Backfill(store[|chats|])["chat_id"] == Str(chatId)
      && store[|chats|]["messages"] == MessageList([Message(System, SystemGreeting)])
  {
    var doc := NewChatRecord(chatId, title, userId, createdAt, updatedAt);
    var store := chats + [doc];
    assert Matches(doc, chatId, userId);
    assert forall k :: 0 <= k < |chats| ==> store[k] == chats[k];
    assert store[|chats|] == doc;
  }
}
