/** The prompt the backend's `/api/chat` endpoint hands to the language model
    (main.py, `chat_endpoint`): one line per message, prefixed by its role,
    followed by an open `Assistant:` turn. */
module Prompt {
  import opened Messages

  /** The text the model is asked to continue. */
  const Cue: string := "Assistant:"

  function RolePrefix(role: Role): string {
    match role
    case System => "System: "
    case User => "User: "
    case Assistant => "Assistant: "
  }

  /** The line one message contributes. */
  function PromptLine(m: Message): string {
    RolePrefix(m.role) + m.content + "\n"
  }

  /** The lines of all messages, in order. */
  function PromptBody(messages: seq<Message>): (r: string)
    ensures r == "" <==> messages == []
    ensures r != "" ==> r[|r| - 1] == '\n'
    decreases |messages|
  {
    if messages == [] then "" else PromptLine(messages[0]) + PromptBody(messages[1..])
  }

  /** The loop of `chat_endpoint` that accumulates the prompt with `+=`. */
  method BuildPrompt(messages: seq<Message>) returns (prompt: string)
    ensures prompt == PromptBody(messages) + Cue
    ensures |prompt| >= |Cue| && prompt[|prompt| - |Cue|..] == Cue
  {
    prompt := "";
    var i := 0;
    while i < |messages|
      invariant 0 <= i <= |messages|
      invariant prompt == PromptBody(messages[..i])
    {
      assert messages[..i + 1] == messages[..i] + [messages[i]];
      BodySnoc(messages[..i], messages[i]);
      prompt := prompt + PromptLine(messages[i]);
      i := i + 1;
    }
    assert messages[..i] == messages;
    prompt := prompt + Cue;
  }

  /** The prompt of no messages is the bare cue. */
  lemma EmptyPrompt()
    ensures PromptBody([]) + Cue == "Assistant:"
  {
  }

  /** The body distributes over concatenation of message lists, so the
      prompt keeps the order of the conversation. */
  lemma {:induction false} BodyAppend(xs: seq<Message>, ys: seq<Message>)
    ensures PromptBody(xs + ys) == PromptBody(xs) + PromptBody(ys)
    decreases |xs|
  {
    if xs == [] {
      assert xs + ys == ys;
    } else {
      assert (xs + ys)[0] == xs[0];
      assert (xs + ys)[1..] == xs[1..] + ys;
      BodyAppend(xs[1..], ys);
    }
  }

  /** The body of one message is its line. */
  lemma BodyOfOne(m: Message)
    ensures PromptBody([m]) == PromptLine(m)
  {
    assert [m][1..] == [];
  }

  /** Appending one message appends its line. */
  lemma BodySnoc(head: seq<Message>, m: Message)
    ensures PromptBody(head + [m]) == PromptBody(head) + PromptLine(m)
  {
    BodyAppend(head, [m]);
    BodyOfOne(m);
  }

  lemma SplitAround<T>(s: seq<T>, k: nat)
    requires k < |s|
    ensures s == (s[..k] + [s[k]]) + s[k + 1..]
  {
    assert s[k..] == [s[k]] + s[k + 1..];
    assert s == s[..k] + s[k..];
  }

  /** Message `k` of the list contributes its line right after the lines of
      the messages before it. */
  lemma BodyLineAt(messages: seq<Message>, k: nat)
    requires k < |messages|
    ensures PromptBody(messages) ==
            PromptBody(messages[..k]) + PromptLine(messages[k]) + PromptBody(messages[k + 1..])
  {
    var head, m, tail := messages[..k], messages[k], messages[k + 1..];
    SplitAround(messages, k);
    BodyAppend(head + [m], tail);
    BodySnoc(head, m);
  }

  /** A client turn sends the transcript followed by the user's message; the
      prompt is then the earlier transcript's lines, the user's line and the cue. */
  lemma PromptOfUserTurn(earlier: seq<Message>, text: string)
    ensures PromptBody(earlier + [Message(User, text)]) + Cue ==
            PromptBody(earlier) + "User: " + text + "\n" + "Assistant:"
  {
    var u := Message(User, text);
    BodySnoc(earlier, u);
    var b := PromptBody(earlier);
    calc {
      PromptBody(earlier + [u]) + Cue;
      (b + PromptLine(u)) + Cue;
      { assert PromptLine(u) == "User: " + text + "\n"; }
      (b + ("User: " + text + "\n")) + "Assistant:";
      { SeqAssoc4(b, "User: ", text, "\n"); }
      b + "User: " + text + "\n" + "Assistant:";
    }
  }

  lemma SeqAssoc4<T>(a: seq<T>, b: seq<T>, c: seq<T>, d: seq<T>)
    ensures a + (b + c + d) == a + b + c + d
  {
  }
}
