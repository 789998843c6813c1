/** The chat client's session logic (static/js/chat.js): the three
    module-level variables `conversation`, `currentChatId` and `isNewChat`,
    the operations that change them, and the pure rules the page applies to
    titles, message contents and the address bar. Network answers are
    parameters; rendering is not modelled. */
module Client {
  import opened Messages
  import opened Text
  import Api

  /** Longest title kept as typed. */
  const TitleLimit: nat := 30

  /** The chat title `sendMessage` derives from the trimmed text. */
  function Title(text: string): (t: string)
    ensures |text| <= TitleLimit ==> t == text
    ensures t == text <==> |text| <= TitleLimit || (|text| == 33 && text[TitleLimit..] == "...")
    ensures |t| <= TitleLimit + 3
    ensures |text| > TitleLimit ==> |t| == 33 && t[..TitleLimit] == text[..TitleLimit] && t[TitleLimit..] == "..."
  {
    if |text| > TitleLimit then text[..TitleLimit] + "..." else text
  }

  /** `Title` starts with as much of the text as it keeps. */
  lemma TitleKeepsPrefix(text: string)
    ensures var n := if |text| <= TitleLimit then |text| else TitleLimit;
      n <= |Title(text)| && Title(text)[..n] == text[..n]
  {
  }

  const UrgentWords: seq<string> := ["emergency", "urgent", "call 911", "immediate medical attention"]
  const DisclaimerWords: seq<string> := ["treatment", "diagnosis", "medication", "therapy"]

  /** Some word of `words` occurs in the lower-cased content. */
  predicate MentionsAny(content: string, words: seq<string>) {
    exists w :: w in words && Contains(Lower(content), w)
  }

  /** An assistant message is flagged urgent when it mentions one of the urgent keywords. */
  predicate IsUrgent(role: Role, content: string)
    ensures IsUrgent(role, content) <==> (role == Assistant &&
      (Contains(Lower(content), "emergency") || Contains(Lower(content), "urgent") ||
       Contains(Lower(content), "call 911") || Contains(Lower(content), "immediate medical attention")))
  {
    MentionsOneOfFour(content, "emergency", "urgent", "call 911", "immediate medical attention");
    role == Assistant && MentionsAny(content, UrgentWords)
  }

  /** An assistant message gets the medical-advice disclaimer when it mentions
      one of the treatment keywords. */
  predicate NeedsDisclaimer(role: Role, content: string)
    ensures NeedsDisclaimer(role, content) <==> (role == Assistant &&
      (Contains(Lower(content), "treatment") || Contains(Lower(content), "diagnosis") ||
       Contains(Lower(content), "medication") || Contains(Lower(content), "therapy")))
  {
    MentionsOneOfFour(content, "treatment", "diagnosis", "medication", "therapy");
    role == Assistant && MentionsAny(content, DisclaimerWords)
  }

  /** A list of four words is mentioned exactly when one of the four is. */
  lemma MentionsOneOfFour(content: string, a: string, b: string, c: string, d: string)
    ensures MentionsAny(content, [a, b, c, d]) <==>
      (Contains(Lower(content), a) || Contains(Lower(content), b) ||
       Contains(Lower(content), c) || Contains(Lower(content), d))
  {
    var words := [a, b, c, d];
    assert forall w :: w in words <==> w == a || w == b || w == c || w == d;
  }

  lemma {:induction false} LowerAppend(a: string, b: string)
    ensures Lower(a + b) == Lower(a) + Lower(b)
  {
    assert forall i :: 0 <= i < |a + b| ==> Lower(a + b)[i] == (Lower(a) + Lower(b))[i];
  }

  /** A keyword in any letter case, anywhere in an assistant message, flags it;
      the tests look only at the lower-cased text. */
  lemma KeywordAnywhereInAnyCase(words: seq<string>, w: string, before: string, typed: string, after: string)
    requires w in words && Lower(typed) == w
    ensures MentionsAny(before + typed + after, words)
  {
    var content := before + typed + after;
    LowerAppend(before + typed, after);
    LowerAppend(before, typed);
    var low := Lower(content);
    assert low == Lower(before) + w + Lower(after);
    assert w <= low[|before|..];
    ContainsAt(low, w, |before|);
  }

  /** Neither test is affected by lower-casing the content first. */
  lemma TestsIgnoreCase(role: Role, content: string)
    ensures IsUrgent(role, Lower(content)) == IsUrgent(role, content)
    ensures NeedsDisclaimer(role, Lower(content)) == NeedsDisclaimer(role, content)
  {
    LowerIdempotent(content);
  }

  /** The chat id the page opens from its address: the third `/`-separated
      part when the second is `chat`. */
  function ChatIdFromPath(path: string): (id: Option<string>)
    ensures id.Some? ==> '/' !in id.value
  {
    var parts := Split(path, '/');
    if |parts| > 2 && parts[1] == "chat" then Some(parts[2]) else None
  }

  /** The address `/chat/<id>` (optionally followed by more segments) opens `<id>`. */
  lemma ChatPathOpensId(id: string, more: string)
    requires '/' !in id
    ensures ChatIdFromPath("/chat/" + id) == Some(id)
    ensures ChatIdFromPath("/chat/" + id + "/" + more) == Some(id)
  {
    ChatPrefixSplit(id);
    SplitWithoutSep(id, '/');
    ChatPrefixSplit(id + "/" + more);
    assert "/chat/" + id + "/" + more == "/chat/" + (id + "/" + more);
    SplitAfterHead(id, '/', more);
    assert id + ['/'] + more == id + "/" + more;
  }

  /** `/chat/x` splits into an empty part, `chat` and the parts of `x`. */
  lemma ChatPrefixSplit(x: string)
    ensures Split("/chat/" + x, '/') == ["", "chat"] + Split(x, '/')
  {
    assert '/' !in "chat";
    SplitAfterHead("chat", '/', x);
    assert "chat" + ['/'] + x == "chat/" + x;
    SplitAfterHead("", '/', "chat/" + x);
    assert "" + ['/'] + ("chat/" + x) == "/chat/" + x;
  }

  /** Only an address whose second part is `chat` opens a chat, and the id
      is the text between the second and third separators. */
  lemma ChatPathShape(path: string)
    requires ChatIdFromPath(path).Some?
    ensures var parts := Split(path, '/');
      parts[1] == "chat" && ChatIdFromPath(path).value == parts[2] && Join(parts, '/') == path
  {
    JoinSplit(path, '/');
  }

  /** The pieces of an answer read in order, concatenated. */
  function Concat(chunks: seq<string>): string
    decreases |chunks|
  {
    if chunks == [] then "" else Concat(chunks[..|chunks| - 1]) + chunks[|chunks| - 1]
  }

  /** Reading one more piece appends it. */
  lemma ConcatSnoc(xs: seq<string>, x: string)
    ensures Concat(xs + [x]) == Concat(xs) + x
  {
    var all := xs + [x];
    assert all[..|all| - 1] == xs && all[|all| - 1] == x;
  }

  /** Concatenation of pieces distributes over splitting the pieces. */
  lemma {:induction false} ConcatAppend(xs: seq<string>, ys: seq<string>)
    ensures Concat(xs + ys) == Concat(xs) + Concat(ys)
    decreases |ys|
  {
    if ys == [] {
      assert xs + ys == xs;
    } else {
      var ys', last := ys[..|ys| - 1], ys[|ys| - 1];
      AppendSnoc(xs, ys);
      ConcatSnoc(xs + ys', last);
      ConcatSnoc(ys', last);
      ConcatAppend(xs, ys');
    }
  }

  /** Appending a non-empty list ends with that list's last element. */
  lemma AppendSnoc<T>(xs: seq<T>, ys: seq<T>)
    requires ys != []
    ensures ys == ys[..|ys| - 1] + [ys[|ys| - 1]]
    ensures xs + ys == (xs + ys[..|ys| - 1]) + [ys[|ys| - 1]]
  {
  }

  lemma ReplaceLast<T>(s: seq<T>, x: T, y: T)
    ensures (s + [x])[|s| := y] == s + [y]
  {
  }

  /** JavaScript truthiness of a chat id: present and non-empty. */
  predicate Truthy(id: Option<string>) {
    id.Some? && id.value != ""
  }

  /** The body of a successful `POST /api/chats`; its `chat_id` may be absent. */
  datatype CreatedChat = CreatedChat(chatId: Option<string>)

  /** The body of a successful `GET /api/chats/<id>`; its `messages` may be absent. */
  datatype LoadedChat = LoadedChat(title: string, messages: Option<seq<Message>>)

  /** The `PUT /api/chats/<id>` request `updateChat` issues. */
  datatype SaveRequest = SaveRequest(chatId: string, messages: seq<Message>)

  datatype TurnOutcome = Ignored | CreationFailed | RequestFailed | StreamFailed | Completed

  /** What one `sendMessage` call did besides changing the session: the
      title it created a chat with, the conversation it posted to
      `/api/chat`, and the save it issued afterwards. */
  datatype Turn = Turn(outcome: TurnOutcome, requestedTitle: Option<string>,
                       requestBody: Option<seq<Message>>, saved: Option<SaveRequest>)

  /** Whether a turn gets past chat creation: either the chat exists, or the
      creation answered with a truthy `chat_id`. */
  predicate PassesCreation(isNewChat: bool, created: Option<CreatedChat>) {
    isNewChat ==> created.Some? && Truthy(created.value.chatId)
  }

  /** Whether `/api/chat` answered with a 2xx status. */
  predicate Answered(status: Option<int>) {
    status.Some? && Api.IsOk(status.value)
  }

  class Session {
    var conversation: seq<Message>
    var currentChatId: Option<string>
    var isNewChat: bool

    /** The state when the page loads. */
    constructor ()
      ensures conversation == [] && currentChatId == None && isNewChat
    {
      conversation := [];
      currentChatId := None;
      isNewChat := true;
    }

    /** `startNewChat`: an empty, unsaved chat, whatever came before. */
    method StartNewChat()
      modifies this
      ensures conversation == [] && currentChatId == None && isNewChat
    {
      conversation := [];
      currentChatId := None;
      isNewChat := true;
    }

    /** `loadChat(chatId)` given what the load request returned: nothing
        changes when it returned null; otherwise the session is that chat. */
    method LoadChat(chatId: string, chat: Option<LoadedChat>)
      modifies this
      ensures chat.None? ==> conversation == old(conversation) && currentChatId == old(currentChatId)
                             && isNewChat == old(isNewChat)
      ensures chat.Some? ==> currentChatId == Some(chatId) && !isNewChat
      ensures chat.Some? ==> conversation == (if chat.value.messages.Some? then chat.value.messages.value else [])
    {
      if chat.None? {
        return;
      }
      currentChatId := Some(chatId);
      isNewChat := false;
      conversation := if chat.value.messages.Some? then chat.value.messages.value else [];
    }

    /** The page-load handler: opens the chat named by the address, if any. */
    method OpenFromPath(path: string, chat: Option<LoadedChat>)
      modifies this
      ensures ChatIdFromPath(path).None? || chat.None? ==>
        conversation == old(conversation) && currentChatId == old(currentChatId) && isNewChat == old(isNewChat)
      ensures ChatIdFromPath(path).Some? && chat.Some? ==> currentChatId == ChatIdFromPath(path) && !isNewChat
      ensures ChatIdFromPath(path).Some? && chat.Some? ==>
        conversation == (if chat.value.messages.Some? then chat.value.messages.value else [])
    {
      var id := ChatIdFromPath(path);
      if id.Some? {
        LoadChat(id.value, chat);
      }
    }

    /** `createNewChat` given what the creation request returned: on null it
        changes nothing and yields null; otherwise it adopts the answer's
        `chat_id`, even an absent one, and marks the chat as not new. */
    method CreateNewChat(result: Option<CreatedChat>) returns (chatId: Option<string>)
      modifies this
      ensures conversation == old(conversation)
      ensures result.None? ==> chatId.None? && currentChatId == old(currentChatId) && isNewChat == old(isNewChat)
      ensures result.Some? ==> chatId == result.value.chatId && currentChatId == chatId && !isNewChat
    {
      if result.None? {
        return None;
      }
      currentChatId := result.value.chatId;
      isNewChat := false;
      chatId := currentChatId;
    }

    /** `updateChat`: the save of the whole conversation under the current
        chat id, or nothing when there is no (truthy) chat id. */
    method UpdateChat() returns (save: Option<SaveRequest>)
      ensures save.None? <==> !Truthy(currentChatId)
      ensures save.Some? ==> save.value.chatId == currentChatId.value && save.value.messages == conversation
    {
      if !Truthy(currentChatId) {
        return None;
      }
      save := Some(SaveRequest(currentChatId.value, conversation));
    }

    /** The read loop of `sendMessage`: each decoded piece is appended to the
        content of the assistant message last pushed onto the conversation. */
    method StreamReply(chunks: seq<string>)
      requires |conversation| > 0 && conversation[|conversation| - 1] == Message(Assistant, "")
      modifies this
      ensures conversation == old(conversation)[..|old(conversation)| - 1] + [Message(Assistant, Concat(chunks))]
      ensures currentChatId == old(currentChatId) && isNewChat == old(isNewChat)
    {
      var at := |conversation| - 1;  // where the assistant message was pushed
      ghost var earlier := conversation[..at];
      assert conversation == earlier + [Message(Assistant, "")];
      var content := "";
      var i := 0;
      while i < |chunks|
        invariant 0 <= i <= |chunks|
        invariant content == Concat(chunks[..i])
        invariant conversation == earlier + [Message(Assistant, content)]
        invariant currentChatId == old(currentChatId) && isNewChat == old(isNewChat)
      {
        ConcatSnoc(chunks[..i], chunks[i]);
        assert chunks[..i + 1] == chunks[..i] + [chunks[i]];
        ReplaceLast(earlier, Message(Assistant, content), Message(Assistant, content + chunks[i]));
        content := content + chunks[i];
        conversation := conversation[at := Message(Assistant, content)];
        i := i + 1;
      }
      assert chunks[..i] == chunks;
    }

    /** `sendMessage`, given the text typed, the chat-creation answer (read
        only for a new chat), the status of `/api/chat` (`None` when the
        request itself failed), the decoded pieces of its answer and whether
        reading the answer failed after them. */
    method SendMessage(input: string, created: Option<CreatedChat>, status: Option<int>,
                       chunks: seq<string>, streamFails: bool) returns (turn: Turn)
      modifies this
      // Blank input: nothing happens.
      ensures Trim(input) == "" ==> (turn == Turn(Ignored, None, None, None) &&
        conversation == old(conversation) && currentChatId == old(currentChatId) && isNewChat == old(isNewChat))
      // Chat creation failed: only the user's message was added.
      ensures Trim(input) != "" && !PassesCreation(old(isNewChat), created) ==>
        && turn == Turn(CreationFailed, Some(Title(Trim(input))), None, None)
        && conversation == old(conversation) + [Message(User, Trim(input))]
        && (created.None? ==> currentChatId == old(currentChatId) && isNewChat == old(isNewChat))
        && (created.Some? ==> currentChatId == created.value.chatId && !isNewChat)
      // Past creation: the chat exists and the transcript with the user's message is posted.
      ensures Trim(input) != "" && PassesCreation(old(isNewChat), created) ==>
        && !isNewChat
        && currentChatId == (if old(isNewChat) then created.value.chatId else old(currentChatId))
        && turn.requestedTitle == (if old(isNewChat) then Some(Title(Trim(input))) else None)
        && turn.requestBody == Some(old(conversation) + [Message(User, Trim(input))])
      // The answer was refused: no assistant message.
      ensures Trim(input) != "" && PassesCreation(old(isNewChat), created) && !Answered(status) ==>
        && turn.outcome == RequestFailed && turn.saved == None
        && conversation == old(conversation) + [Message(User, Trim(input))]
      // The answer was read: one assistant message holding every piece in order.
      ensures Trim(input) != "" && PassesCreation(old(isNewChat), created) && Answered(status) ==>
        && conversation == old(conversation) + [Message(User, Trim(input)), Message(Assistant, Concat(chunks))]
        && turn.outcome == (if streamFails then StreamFailed else Completed)
        && turn.saved == (if streamFails || !Truthy(currentChatId) then None
                          else Some(SaveRequest(currentChatId.value, conversation)))
    {
      var text := Trim(input);
      if text == "" {
        return Turn(Ignored, None, None, None);
      }
      conversation := conversation + [Message(User, text)];
      var title: Option<string> := None;
      if isNewChat {
        title := Some(Title(text));
        var chatId := CreateNewChat(created);
        if !Truthy(chatId) {
          return Turn(CreationFailed, title, None, None);
        }
      }
      ghost var posted := conversation;
      turn := Exchange(title, status, chunks, streamFails);
      assert posted + [Message(Assistant, Concat(chunks))] == old(conversation) + [Message(User, text), Message(Assistant, Concat(chunks))];
    }

    /** The `try` block of `sendMessage`: the conversation is posted to
        `/api/chat`; on a 2xx answer an empty assistant message is pushed, the
        pieces read into it, and the chat saved unless reading failed. */
    method Exchange(title: Option<string>, status: Option<int>, chunks: seq<string>, streamFails: bool)
      returns (turn: Turn)
      modifies this
      ensures currentChatId == old(currentChatId) && isNewChat == old(isNewChat)
      ensures turn.requestedTitle == title && turn.requestBody == Some(old(conversation))
      ensures !Answered(status) ==> turn.outcome == RequestFailed && turn.saved == None && conversation == old(conversation)
      ensures Answered(status) ==>
        && conversation == old(conversation) + [Message(Assistant, Concat(chunks))]
        && turn.outcome == (if streamFails then StreamFailed else Completed)
        && turn.saved == (if streamFails || !Truthy(currentChatId) then None
                          else Some(SaveRequest(currentChatId.value, conversation)))
    {
      var body := conversation;
      if status.None? || !Api.IsOk(status.value) {
        return Turn(RequestFailed, title, Some(body), None);
      }
      conversation := conversation + [Message(Assistant, "")];
      StreamReply(chunks);
      if streamFails {
        return Turn(StreamFailed, title, Some(body), None);
      }
      var save := UpdateChat();
      turn := Turn(Completed, title, Some(body), save);
    }
  }
}
