/**
 * The chat widget's transcript state machine: the message list, the
 * loading flag and the input text, changed by starting a session and by
 * sending a message whose reply is streamed into a placeholder.
 */
module App {
  import opened Wrappers
  import opened JsString
  import MockApis
  import opened GeminiService

  datatype Sender = User | Bot

  /** A transcript entry; `isTyping` is absent (`None`) unless set. Timestamps are not modelled. */
  datatype Message = Message(id: string, sender: Sender, text: string, isTyping: Option<bool>)

  const GreetingText :=
    "Namaste! Welcome to TechSanju Support. I'm Sanju. How can I assist you with your electronics today?"

  const ApologyText :=
    "I'm having trouble connecting to the server right now. Please try again momentarily."

  function Greeting(id: string): Message {
    Message(id, Bot, GreetingText, None)
  }

  /** The bot's placeholder: empty and typing. */
  function Placeholder(id: string): Message {
    Message(id, Bot, "", Some(true))
  }

  function UserMessage(id: string, text: string): Message {
    Message(id, User, text, None)
  }

  /** The ids in a transcript. */
  function IdsOf(msgs: seq<Message>): set<string> {
    set i | 0 <= i < |msgs| :: msgs[i].id
  }

  /** No two messages share an id. */
  predicate UniqueIds(msgs: seq<Message>) {
    forall i, j :: 0 <= i < j < |msgs| ==> msgs[i].id != msgs[j].id
  }

  /**
   * `msgs.map(msg => msg.id === id ? { ...msg, text, isTyping: false } : msg)`:
   * every message with that id gets the text and stops typing; every other
   * message is kept, and so is the order.
   */
  function ShowText(msgs: seq<Message>, id: string, text: string): (r: seq<Message>)
    ensures |r| == |msgs|
    ensures forall i :: 0 <= i < |msgs| && msgs[i].id != id ==> r[i] == msgs[i]
    ensures forall i :: 0 <= i < |msgs| && msgs[i].id == id ==>
      r[i] == Message(id, msgs[i].sender, text, Some(false))
  {
    if msgs == [] then []
    else
      var m := msgs[0];
      var rest := ShowText(msgs[1..], id, text);
      assert forall i :: 1 <= i < |msgs| ==> msgs[i] == msgs[1..][i - 1];
      [if m.id == id then m.(text := text, isTyping := Some(false)) else m] + rest
  }

  /** A later update by the same id overwrites an earlier one completely. */
  lemma ShowTextOverwrites(msgs: seq<Message>, id: string, a: string, b: string)
    ensures ShowText(ShowText(msgs, id, a), id, b) == ShowText(msgs, id, b)
  {
    var once := ShowText(msgs, id, a);
    assert forall i :: 0 <= i < |msgs| ==> (once[i].id == id <==> msgs[i].id == id);
  }

  /**
   * The transcript after the fragments `fs` have streamed in: the bot
   * message shows all of them, or is untouched while there are none.
   */
  function Streamed(started: seq<Message>, botId: string, fs: seq<string>): seq<Message> {
    if fs == [] then started else ShowText(started, botId, Concat(fs))
  }

  /** One more fragment: the `fullResponse += chunk` and by-id update of the loop. */
  lemma StreamedStep(started: seq<Message>, botId: string, fragments: seq<string>, i: nat)
    requires i < |fragments|
    ensures Concat(fragments[..i + 1]) == Concat(fragments[..i]) + fragments[i]
    ensures Streamed(started, botId, fragments[..i + 1]) ==
      ShowText(Streamed(started, botId, fragments[..i]), botId, Concat(fragments[..i]) + fragments[i])
  {
    assert fragments[..i + 1] == fragments[..i] + [fragments[i]];
    ConcatSnoc(fragments[..i], fragments[i]);
    if i > 0 {
      ShowTextOverwrites(started, botId, Concat(fragments[..i]), Concat(fragments[..i]) + fragments[i]);
    } else {
      assert fragments[..i] == [];
    }
  }

  /**
   * The transcript once the reply has been consumed: on failure the bot
   * message shows the apology, whatever had streamed in; otherwise it shows
   * everything streamed, or stays the typing placeholder when nothing was.
   */
  function Settled(started: seq<Message>, botId: string, reply: Trace): seq<Message> {
    if reply.outcome.Failed? then ShowText(started, botId, ApologyText)
    else Streamed(started, botId, reply.fragments)
  }

  /** The apology replaces whatever had streamed in. */
  lemma ApologyAfterStream(started: seq<Message>, botId: string, fs: seq<string>)
    ensures ShowText(Streamed(started, botId, fs), botId, ApologyText) == ShowText(started, botId, ApologyText)
  {
    if fs != [] {
      ShowTextOverwrites(started, botId, Concat(fs), ApologyText);
    }
  }

  /** Updating by id leaves every id where it was. */
  lemma ShowTextKeepsIds(msgs: seq<Message>, id: string, text: string)
    ensures UniqueIds(msgs) ==> UniqueIds(ShowText(msgs, id, text))
  {
    var r := ShowText(msgs, id, text);
    assert forall i :: 0 <= i < |msgs| ==> r[i].id == msgs[i].id;
  }

  /**
   * A send appends the user's message and the bot's message and touches
   * nothing else: the earlier messages are kept as they were, and the bot
   * message's text is the apology on failure, every streamed fragment
   * otherwise, typing only while nothing has streamed in.
   */
  lemma SendTouchesOnlyItsBotMessage(before: seq<Message>, userId: string, botId: string,
                                     text: string, reply: Trace)
    requires botId !in IdsOf(before) && userId != botId
    ensures var after := Settled(before + [UserMessage(userId, text), Placeholder(botId)], botId, reply);
      var n := |before|;
      && |after| == n + 2
      && after[..n] == before
      && after[n] == UserMessage(userId, text)
      && after[n + 1].id == botId && after[n + 1].sender == Bot
      && after[n + 1].text == (if reply.outcome.Failed? then ApologyText else Concat(reply.fragments))
      && after[n + 1].isTyping == Some(!reply.outcome.Failed? && reply.fragments == [])
  {
    var started := before + [UserMessage(userId, text), Placeholder(botId)];
    var n := |before|;
    assert forall i :: 0 <= i < n ==> started[i] == before[i] && before[i].id in IdsOf(before);
    assert started[n].id != botId && started[n + 1].id == botId;
    if !reply.outcome.Failed? && reply.fragments == [] {
      assert started[..n] == before;
    }
  }

  /**
   * A reply that needed no tools and completed shows, in the bot message,
   * the concatenation of every chunk text of the one stream, empty ones
   * included.
   */
  lemma DirectReplyShowsStreamText(before: seq<Message>, userId: string, botId: string,
                                   text: string, chunks: seq<Chunk>)
    requires botId !in IdsOf(before) && userId != botId
    requires Calls(chunks) == []
    ensures var reply := Reply(MockApis.Handler, text, [Stream(chunks, None)]);
      var after := Settled(before + [UserMessage(userId, text), Placeholder(botId)], botId, reply);
      && reply.outcome == Completed
      && after[|before| + 1].text == Concat(AllText(chunks))
  {
    var reply := Reply(MockApis.Handler, text, [Stream(chunks, None)]);
    DrainFirstRound(MockApis.Handler, [Stream(chunks, None)]);
    assert reply.fragments == Texts(chunks);
    SendTouchesOnlyItsBotMessage(before, userId, botId, text, reply);
    TextsJoinAllText(chunks);
  }

  class ChatApp {
    var messages: seq<Message>
    var inputText: string
    var isLoading: bool
    /** Whether `chatSessionRef.current` holds a session. */
    var hasSession: bool
    /** The tool table the chat service dispatches to: `mockAPIs`, fixed on construction. */
    const tools: Registry

    /**
     * Distinct message ids: the list is rendered keyed by `msg.id`, and the
     * by-id updates reach exactly the message they mean.
     */
    ghost predicate Valid()
      reads this
    {
      UniqueIds(messages)
    }

    /** The component's initial state, before the mount effect starts a session. */
    constructor ()
      ensures Valid()
      ensures messages == [Greeting("init-1")] && inputText == "" && !isLoading && !hasSession
      ensures tools == MockApis.Handler
    {
      tools := MockApis.Handler;
      messages := [Greeting("init-1")];
      inputText := "";
      isLoading := false;
      hasSession := false;
    }

    /**
     * `startNewSession`: when the session is created, the transcript is
     * reset to a single greeting and the input and loading flag are
     * cleared; when creating it throws, nothing changes.
     */
    method StartNewSession(greetingId: string, sessionCreated: bool)
      requires Valid()
      modifies this
      ensures Valid()
      ensures sessionCreated ==>
        messages == [Greeting(greetingId)] && inputText == "" && !isLoading && hasSession
      ensures !sessionCreated ==>
        messages == old(messages) && inputText == old(inputText) &&
        isLoading == old(isLoading) && hasSession == old(hasSession)
    {
      if sessionCreated {
        hasSession := true;
        messages := [Greeting(greetingId)];
        inputText := "";
        isLoading := false;
      }
    }

    /** The input's `onChange`. */
    method EditInput(value: string)
      requires Valid()
      modifies this
      ensures Valid()
      ensures inputText == value
      ensures messages == old(messages) && isLoading == old(isLoading) && hasSession == old(hasSession)
    {
      inputText := value;
    }

    /** The guard of `handleSendMessage`: non-blank text, not loading, a session. */
    predicate CanSend(text: string)
      reads this
    {
      Trim(text) != [] && !isLoading && hasSession
    }

    /**
     * `handleSendMessage(text)`, with the session replying `rounds` and the
     * two fresh ids the caller generated. A blocked send changes nothing.
     * A send that passes the guard appends the user message and the bot
     * placeholder, clears the input, and while loading streams each fragment
     * into the bot message; on failure it shows the apology. Loading ends
     * (the `finally`) unless the reply is still awaited.
     */
    method HandleSendMessage(text: string, userId: string, botId: string, rounds: seq<Stream>)
      returns (accepted: bool)
      requires Valid()
      requires userId != botId && userId !in IdsOf(messages) && botId !in IdsOf(messages)
      modifies this
      ensures Valid()
      ensures accepted == old(CanSend(text))
      ensures !accepted ==>
        messages == old(messages) && inputText == old(inputText) &&
        isLoading == old(isLoading) && hasSession == old(hasSession)
      ensures accepted ==>
        var reply := Reply(tools, text, rounds);
        && messages == Settled(old(messages) + [UserMessage(userId, text), Placeholder(botId)], botId, reply)
        && inputText == "" && hasSession
        && isLoading == (reply.outcome == AwaitingReply)
    {
      if Trim(text) == [] || isLoading || !hasSession {
        return false;
      }
      accepted := true;
      var userMessage := UserMessage(userId, text);
      var botPlaceholder := Placeholder(botId);
      messages := messages + [userMessage, botPlaceholder];
      inputText := "";
      isLoading := true;
      ghost var started := messages;
      assert UniqueIds(started) by {
        assert forall i :: 0 <= i < |started| - 2 ==> started[i].id in IdsOf(old(messages));
      }

      var fragments, sent, outcome := SendMessageStream(tools, text, rounds);
      var fullResponse := "";
      var i := 0;
      assert fragments[..0] == [];
      while i < |fragments|
        invariant 0 <= i <= |fragments|
        invariant fullResponse == Concat(fragments[..i])
        invariant messages == Streamed(started, botId, fragments[..i])
        invariant inputText == "" && isLoading && hasSession
      {
        StreamedStep(started, botId, fragments, i);
        fullResponse := fullResponse + fragments[i];
        messages := ShowText(messages, botId, fullResponse);
        i := i + 1;
      }
      assert fragments[..i] == fragments;
      if outcome.Failed? {
        ApologyAfterStream(started, botId, fragments);
        messages := ShowText(messages, botId, ApologyText);
      }
      if outcome != AwaitingReply {
        isLoading := false;
      }
      ShowTextKeepsIds(started, botId, ApologyText);
      ShowTextKeepsIds(started, botId, Concat(fragments));
    }

    /** The form's `onSubmit`: send the current input. */
    method Submit(userId: string, botId: string, rounds: seq<Stream>) returns (accepted: bool)
      requires Valid()
      requires userId != botId && userId !in IdsOf(messages) && botId !in IdsOf(messages)
      modifies this
      ensures Valid()
      ensures accepted == old(CanSend(inputText))
      ensures !accepted ==>
        messages == old(messages) && inputText == old(inputText) &&
        isLoading == old(isLoading) && hasSession == old(hasSession)
      ensures accepted ==>
        var reply := Reply(tools, old(inputText), rounds);
        && messages == Settled(old(messages) + [UserMessage(userId, old(inputText)), Placeholder(botId)], botId, reply)
        && inputText == "" && hasSession
        && isLoading == (reply.outcome == AwaitingReply)
    {
      accepted := HandleSendMessage(inputText, userId, botId, rounds);
    }
  }
}
