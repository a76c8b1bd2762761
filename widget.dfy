/**
 * The chat widget's state: an append-only transcript, the input box's
 * value and the lock that disables the send button and the input while a
 * message is in flight (index.tsx:8-163). The widget's own chat session
 * is a `Session` whose answers come from an oracle and which logs every
 * message sent to it.
 */
module Widget {
  import opened Wrappers
  import opened Text
  import opened Citations

  datatype Sender = User | Bot

  /** One transcript entry: who said it and the HTML shown for it. */
  datatype Entry = Entry(sender: Sender, html: string)

  /** What `chat.sendMessage` produces: the reply text and its grounding chunks, if any, or a thrown error. */
  datatype Reply = Ok(text: string, chunks: Option<seq<Chunk>>) | Err

  const WelcomeHtml: string := "<p>Yia mas! Welcome, welcome! Come, sit! Tell me what you're craving or what Chicago neighborhood you're in, and I'll find the perfect Greek or Mediterranean spot for you. Don't be shy!</p>"
  const ApologyHtml: string := "<p>I'm sorry, I'm having a little trouble right now. Please try again in a moment.</p>"
  const MissingKeyError: string := "API_KEY environment variable not set"

  /** The entry shown for a message the user sent. */
  function UserEntry(message: string): Entry
  {
    Entry(User, "<p>" + message + "</p>")
  }

  /** The bot entry for a reply: the built reply on success, the apology on error. */
  function BotHtml(reply: Reply): (r: string)
    ensures reply.Err? ==> r == ApologyHtml
    ensures reply.Ok? ==> reply.text <= r
    ensures reply.Ok? && Links(reply.chunks) == [] ==> r == reply.text
  {
    match reply
    case Ok(text, chunks) => ReplyHtml(text, chunks)
    case Err => ApologyHtml
  }

  /** `!process.env.API_KEY` is false: the key is present and not the empty string. */
  predicate ApiKeyPresent(apiKey: Option<string>)
  {
    apiKey.Some? && apiKey.value != ""
  }

  /** A message as the widget sends it: trimmed and non-empty. */
  predicate IsSentMessage(m: string)
  {
    m != [] && IsTrimmed(m)
  }

  /**
   * The transcript is the welcome message followed by one user entry per
   * sent message, each followed by its bot entry except, while `pending`,
   * the last one.
   */
  ghost predicate Conversation(transcript: seq<Entry>, sent: seq<string>, pending: bool)
  {
    && |transcript| == 1 + 2 * |sent| - (if pending then 1 else 0)
    && (pending ==> sent != [])
    && transcript[0] == Entry(Bot, WelcomeHtml)
    && (forall k :: 0 <= k < |sent| ==> IsSentMessage(sent[k]) && transcript[2 * k + 1] == UserEntry(sent[k]))
    && (forall i :: 0 <= i < |transcript| && i % 2 == 0 ==> transcript[i].sender == Bot)
  }

  /** Sending a message from an idle conversation appends its user entry and leaves it pending. */
  lemma ConversationSend(transcript: seq<Entry>, sent: seq<string>, m: string)
    requires Conversation(transcript, sent, false) && IsSentMessage(m)
    ensures Conversation(transcript + [UserEntry(m)], sent + [m], true)
  {
    var t := transcript + [UserEntry(m)];
    var s := sent + [m];
    forall k | 0 <= k < |s| ensures IsSentMessage(s[k]) && t[2 * k + 1] == UserEntry(s[k]) {
      if k < |sent| {
        assert s[k] == sent[k] && t[2 * k + 1] == transcript[2 * k + 1];
      }
    }
    forall i | 0 <= i < |t| && i % 2 == 0 ensures t[i].sender == Bot {
      assert i < |transcript|;
      assert t[i] == transcript[i];
    }
  }

  /** Any bot entry completes a pending conversation. */
  lemma ConversationReply(transcript: seq<Entry>, sent: seq<string>, html: string)
    requires Conversation(transcript, sent, true)
    ensures Conversation(transcript + [Entry(Bot, html)], sent, false)
  {
    var t := transcript + [Entry(Bot, html)];
    forall k | 0 <= k < |sent| ensures t[2 * k + 1] == UserEntry(sent[k]) {
      assert t[2 * k + 1] == transcript[2 * k + 1];
    }
    forall i | 0 <= i < |t| && i % 2 == 0 ensures t[i].sender == Bot {
      if i < |transcript| {
        assert t[i] == transcript[i];
      }
    }
  }

  /**
   * The remote chat session (`this.chat`): `SendMessage` is the one place
   * a message reaches it, and every such call is logged in `calls`.
   */
  class Session {
    /** What the hosted model answers to a message: a reply or a thrown error. */
    const answer: string -> Reply
    /** The messages sent to the session, in order. */
    ghost var calls: seq<string>

    constructor (answer: string -> Reply)
      ensures this.answer == answer && calls == []
    {
      this.answer := answer;
      calls := [];
    }

    /** `chat.sendMessage({ message })`. */
    method SendMessage(message: string) returns (r: Reply)
      modifies this
      ensures calls == old(calls) + [message]
      ensures r == answer(message)
    {
      calls := calls + [message];
      r := answer(message);
    }
  }

  class YiaMasBot {
    /** The chat session, created once by `initializeChat` and used for every message. */
    const chat: Session
    /** The entries appended to the chat history, oldest first. */
    var transcript: seq<Entry>
    /** The text in the input box. */
    var inputValue: string
    var sendButtonDisabled: bool
    var inputDisabled: bool

    /** A message is in flight. */
    function Loading(): bool
      reads this
    {
      sendButtonDisabled
    }

    /**
     * The lock disables both controls together, the transcript has the
     * shape of the conversation held with the session so far, and nothing
     * is in the input box while a message is in flight.
     */
    ghost predicate Valid()
      reads this, chat
    {
      && sendButtonDisabled == inputDisabled
      && Conversation(transcript, chat.calls, Loading())
      && (Loading() ==> inputValue == "")
    }

    /**
     * The widget once its constructor has created the chat session, cached
     * the DOM and shown the welcome message.
     */
    constructor (answer: string -> Reply)
      ensures fresh(chat) && chat.answer == answer && chat.calls == []
      ensures Valid() && !Loading()
      ensures transcript == [Entry(Bot, WelcomeHtml)] && inputValue == ""
      ensures !sendButtonDisabled && !inputDisabled
    {
      chat := new Session(answer);
      transcript := [];
      inputValue := "";
      sendButtonDisabled := false;
      inputDisabled := false;
      new;
      DisplayWelcomeMessage();
    }

    /**
     * `new YiaMasBot()`: `initializeChat` throws before anything else when
     * the API key is absent or empty; otherwise the widget starts with a
     * new session, whose answers are `answer`, and the welcome message as
     * its only entry.
     */
    static method Create(apiKey: Option<string>, answer: string -> Reply) returns (r: Result<YiaMasBot, string>)
      ensures r.Failure? <==> !ApiKeyPresent(apiKey)
      ensures r.Failure? ==> r.error == MissingKeyError
      ensures r.Success? ==> fresh(r.value) && fresh(r.value.chat) && r.value.Valid() && !r.value.Loading()
      ensures r.Success? ==> r.value.chat.answer == answer && r.value.chat.calls == []
      ensures r.Success? ==> r.value.transcript == [Entry(Bot, WelcomeHtml)]
      ensures r.Success? ==> r.value.inputValue == "" && !r.value.sendButtonDisabled && !r.value.inputDisabled
    {
      if !ApiKeyPresent(apiKey) {
        return Failure(MissingKeyError);
      }
      var bot := new YiaMasBot(answer);
      return Success(bot);
    }

    method DisplayWelcomeMessage()
      modifies this`transcript
      ensures transcript == old(transcript) + [Entry(Bot, WelcomeHtml)]
    {
      AddMessageToHistory(WelcomeHtml, Bot);
    }

    /** Appends one entry; earlier entries are never edited or removed. */
    method AddMessageToHistory(message: string, sender: Sender)
      modifies this`transcript
      ensures transcript == old(transcript) + [Entry(sender, message)]
    {
      transcript := transcript + [Entry(sender, message)];
    }

    /** Sets both the send button's and the input's disabled flag. */
    method SetLoading(isLoading: bool)
      modifies this`sendButtonDisabled, this`inputDisabled
      ensures sendButtonDisabled == isLoading && inputDisabled == isLoading
    {
      sendButtonDisabled := isLoading;
      inputDisabled := isLoading;
    }

    /**
     * `handleFormSubmit` up to its `await`: trim the input; if nothing is
     * left, do nothing; otherwise append the user entry, clear the input,
     * take the lock and send the message to the session, whose reply is
     * delivered when the `await` resumes. The disabled controls mean no
     * submit event arrives while the lock is held.
     */
    method BeginSubmit() returns (pending: Option<Reply>)
      requires Valid() && !Loading()
      modifies this, chat
      ensures Valid()
      ensures var m := Trim(old(inputValue));
        m == "" ==>
          && pending.None?
          && transcript == old(transcript) && inputValue == old(inputValue)
          && chat.calls == old(chat.calls) && !Loading() && !inputDisabled
      ensures var m := Trim(old(inputValue));
        m != "" ==>
          && pending == Some(chat.answer(m))
          && transcript == old(transcript) + [UserEntry(m)]
          && inputValue == "" && chat.calls == old(chat.calls) + [m]
          && Loading() && inputDisabled
    {
      var userMessage := Trim(inputValue);
      if userMessage == "" {
        return None;
      }
      ConversationSend(transcript, chat.calls, userMessage);
      AddMessageToHistory("<p>" + userMessage + "</p>", User);
      inputValue := "";
      SetLoading(true);
      var reply := chat.SendMessage(userMessage);
      pending := Some(reply);
    }

    /**
     * `handleFormSubmit` after its `await`: append exactly one bot entry,
     * the built reply or the apology, and release the lock.
     */
    method FinishSubmit(reply: Reply)
      requires Valid() && Loading()
      modifies this
      ensures Valid() && !Loading() && !inputDisabled
      ensures transcript == old(transcript) + [Entry(Bot, BotHtml(reply))]
      ensures inputValue == old(inputValue)
    {
      var html: string;
      match reply {
        case Ok(text, chunks) =>
          html := BuildReplyHtml(text, chunks);
        case Err =>
          html := ApologyHtml;
      }
      ConversationReply(transcript, chat.calls, html);
      AddMessageToHistory(html, Bot);
      SetLoading(false);
    }

    /**
     * A whole submission on the widget's own session. An input that trims
     * to nothing changes nothing and sends nothing; any other is sent once
     * and adds exactly the user entry and one bot entry, leaves the input
     * empty and the lock released, on the success and the error path alike.
     */
    method HandleFormSubmit()
      requires Valid() && !Loading()
      modifies this, chat
      ensures Valid() && !Loading() && !sendButtonDisabled && !inputDisabled
      ensures var m := Trim(old(inputValue));
        m == "" ==>
          && transcript == old(transcript) && inputValue == old(inputValue)
          && chat.calls == old(chat.calls)
      ensures var m := Trim(old(inputValue));
        m != "" ==>
          && transcript == old(transcript) + [UserEntry(m), Entry(Bot, BotHtml(chat.answer(m)))]
          && inputValue == "" && chat.calls == old(chat.calls) + [m]
    {
      var pending := BeginSubmit();
      if pending.Some? {
        FinishSubmit(pending.value);
      }
    }
  }

  const GyroQuestion: string := "best gyro in Greektown"
  const GyroAnswer: string := "Try Mr. Greek Gyros"
  const MenuChunk: Chunk := Chunk(Some(Web(Some("https://example.com"), Some("Menu"))))

  lemma GyroQuestionTrimmed()
    ensures Trim(GyroQuestion) == GyroQuestion
  {
    assert GyroQuestion[0] == 'b' && GyroQuestion[|GyroQuestion| - 1] == 'n';
    TrimFixesTrimmed(GyroQuestion);
  }

  lemma MenuChunkLinked()
    ensures HasLink(MenuChunk) && MarkupSafe(MenuChunk)
    ensures Links(Some([MenuChunk])) == [MenuChunk]
    ensures Rendered([MenuChunk]) == [Link("https://example.com", "Menu")]
  {
    assert ValidLinks([MenuChunk]) == [MenuChunk];
  }

  lemma MenuReadsBack()
    ensures GyroAnswer <= ReplyHtml(GyroAnswer, Some([MenuChunk]))
    ensures ParseSources(ReplyHtml(GyroAnswer, Some([MenuChunk]))[|GyroAnswer|..]) == Some([Link("https://example.com", "Menu")])
  {
    MenuChunkLinked();
    ReplySourcesReadBack(GyroAnswer, Some([MenuChunk]));
  }

  /**
   * A whole run: the widget starts, the user submits "best gyro in
   * Greektown" and the session answers "Try Mr. Greek Gyros" with one
   * grounding chunk linking "https://example.com" under the title "Menu".
   */
  method GyroScenario() returns (transcript: seq<Entry>)
    ensures |transcript| == 3
    ensures transcript[0] == Entry(Bot, WelcomeHtml)
    ensures transcript[1] == UserEntry(GyroQuestion)
    ensures transcript[2].sender == Bot && GyroAnswer <= transcript[2].html
    ensures ParseSources(transcript[2].html[|GyroAnswer|..]) == Some([Link("https://example.com", "Menu")])
  {
    var created := YiaMasBot.Create(Some("key"), m => Ok(GyroAnswer, Some([MenuChunk])));
    var bot := created.value;
    bot.inputValue := GyroQuestion;
    GyroQuestionTrimmed();
    bot.HandleFormSubmit();
    MenuReadsBack();
    transcript := bot.transcript;
  }
}
