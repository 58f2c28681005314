/** The chat client's state and its event handlers. One `App` object holds
    the fields the component keeps in React state; each method is one
    handler, run to completion before the next event (React's batching and
    rendering are not modelled). The persist effect, which React runs after
    every render in which `messages` changed, is the method `Persist`; a
    driver calls it after `Mount`, `NewChat`, `SelectChat`, `DeleteChat` of
    the active chat, `BeginSend` and `CompleteSend`. `SendMessage` is a whole
    send cycle whose reply arrives before any other event. */
module ChatApp {
  import opened Common
  import opened Chats
  import opened Speech
  import opened AnswerNormalizer

  const BackendError: string := "Error: Cannot reach backend. Make sure it's running."

  /** The text of the assistant message a finished send appends. */
  function ReplyText(reply: Reply): (t: string)
    ensures reply.Unreachable? ==> t == BackendError
    ensures reply.Answer? ==> t == reply.text
  {
    match reply
    case Answer(text) => text
    case Unreachable => BackendError
  }

  class App {
    /** The chat list, `{id, title, messages}` per entry. */
    var history: seq<Chat>
    var activeChatId: Option<string>
    /** The open conversation. */
    var messages: seq<Message>
    /** The pending input buffer. */
    var input: string
    /** A send is awaiting the back end. */
    var loading: bool
    var ttsEnabled: bool
    var listening: bool
    /** Whether the host offers speech recognition; decided once, at mount. */
    const recognizer: bool
    /** What this session last wrote to the storage slot; None while the slot
        still holds whatever was there at load time. */
    var saved: Option<seq<Chat>>
    /** `ttsEnabled` as captured by the closure of the send in flight: the
        reply is spoken, or not, according to the toggle at send time. */
    var sendTts: bool

    /** Every write to the chat list is mirrored to storage at once, and
        listening is only ever switched on with a recognizer present. */
    ghost predicate Valid()
      reads this
    {
      (saved.Some? ==> saved.value == history) && (listening ==> recognizer)
    }

    /** The first render and the mount effects: the list is loaded from the
        storage slot and the first chat is opened; when there is none (or its
        id is empty), a chat created at time `now` is put in front, saved and
        opened. */
    constructor Mount(slot: Option<string>, parse: string -> Option<seq<Chat>>, now: nat, hasRecognizer: bool)
      ensures Valid()
      ensures var loaded := LoadHistory(slot, parse);
              if |loaded| > 0 && loaded[0].id != "" then
                history == loaded && activeChatId == Some(loaded[0].id)
                && messages == loaded[0].messages && saved == None
              else
                history == [Chat(ChatId(now), NewChatTitle, DefaultMessages)] + loaded
                && activeChatId == Some(ChatId(now)) && messages == DefaultMessages
                && saved == Some(history)
      ensures input == "" && !loading && !ttsEnabled && !listening && !sendTts
      ensures recognizer == hasRecognizer
    {
      var loaded := LoadHistory(slot, parse);
      var active: Option<string> := if |loaded| > 0 then Some(loaded[0].id) else None;
      var msgs := if |loaded| > 0 then loaded[0].messages else DefaultMessages;
      var hist := loaded;
      var written: Option<seq<Chat>> := None;
      if !IsSet(active) {
        var id := ChatId(now);
        var chat := Chat(id, NewChatTitle, DefaultMessages);
        hist := [chat] + hist;
        written := Some(hist);
        active := Some(id);
        msgs := chat.messages;
      }
      history, activeChatId, messages, saved := hist, active, msgs, written;
      input, loading, ttsEnabled, listening, sendTts := "", false, false, false, false;
      recognizer := hasRecognizer;
    }

    /** The persist effect: the open conversation and its derived title are
        written into the active chat's entry (or a new entry in front), and
        the list is saved. Without an active chat nothing happens. */
    method Persist()
      requires Valid()
      modifies this
      ensures Valid()
      ensures history == Persisted(old(history), activeChatId, messages)
      ensures saved == if IsSet(activeChatId) then Some(history) else old(saved)
      ensures activeChatId == old(activeChatId) && messages == old(messages) && input == old(input)
      ensures loading == old(loading) && ttsEnabled == old(ttsEnabled) && listening == old(listening)
      ensures sendTts == old(sendTts)
    {
      if !IsSet(activeChatId) {
        return;
      }
      var id := activeChatId.value;
      var idx := FindChat(history, id);
      var updated := history;
      var title := Title(messages);
      if idx >= 0 {
        updated := updated[idx := updated[idx].(messages := messages, title := title)];
      } else {
        updated := [Chat(id, title, messages)] + updated;
      }
      history := updated;
      saved := Some(updated);
    }

    /** `newChat`: a chat created at time `now`, titled "New Chat" and holding
        the greeting, is put in front of the others, saved, and opened with
        an empty input. */
    method NewChat(now: nat)
      requires Valid()
      modifies this
      ensures Valid()
      ensures history == [Chat(ChatId(now), NewChatTitle, DefaultMessages)] + old(history)
      ensures saved == Some(history)
      ensures activeChatId == Some(ChatId(now)) && messages == DefaultMessages && input == ""
      ensures loading == old(loading) && ttsEnabled == old(ttsEnabled) && listening == old(listening)
      ensures sendTts == old(sendTts)
    {
      var id := ChatId(now);
      var chat := Chat(id, NewChatTitle, DefaultMessages);
      var newHist := [chat] + history;
      history := newHist;
      saved := Some(newHist);
      activeChatId := Some(id);
      messages := chat.messages;
      input := "";
    }

    /** `selectChat`: the first entry with the id is opened and the input
        cleared; an id no entry carries changes nothing. */
    method SelectChat(id: string)
      requires Valid()
      modifies this
      ensures Valid()
      ensures history == old(history) && saved == old(saved)
      ensures FindChat(history, id) == -1 ==>
                activeChatId == old(activeChatId) && messages == old(messages) && input == old(input)
      ensures FindChat(history, id) >= 0 ==>
                activeChatId == Some(id) && messages == history[FindChat(history, id)].messages && input == ""
      ensures loading == old(loading) && ttsEnabled == old(ttsEnabled) && listening == old(listening)
      ensures sendTts == old(sendTts)
    {
      var i := FindChat(history, id);
      if i == -1 {
        return;
      }
      activeChatId := Some(id);
      messages := history[i].messages;
      input := "";
    }

    /** `deleteChat`: every entry with the id is removed and the list saved.
        When the open chat was deleted, the new first entry is opened, or,
        with none left, no chat is active and the greeting is shown; the
        input is kept either way. */
    method DeleteChat(id: string)
      requires Valid()
      modifies this
      ensures Valid()
      ensures history == RemoveChat(old(history), id) && saved == Some(history)
      ensures old(activeChatId) == Some(id) && |history| > 0 ==>
                activeChatId == Some(history[0].id) && messages == history[0].messages
      ensures old(activeChatId) == Some(id) && |history| == 0 ==>
                activeChatId == None && messages == DefaultMessages
      ensures old(activeChatId) != Some(id) ==>
                activeChatId == old(activeChatId) && messages == old(messages)
      ensures input == old(input) && loading == old(loading) && ttsEnabled == old(ttsEnabled)
      ensures listening == old(listening) && sendTts == old(sendTts)
    {
      var newHist := RemoveChat(history, id);
      history := newHist;
      saved := Some(newHist);
      if activeChatId == Some(id) {
        if |newHist| > 0 {
          activeChatId := Some(newHist[0].id);
          messages := newHist[0].messages;
        } else {
          activeChatId := None;
          messages := DefaultMessages;
        }
      }
    }

    /** Typing into the input box. */
    method Type(text: string)
      requires Valid()
      modifies this`input
      ensures Valid()
      ensures input == text
    {
      input := text;
    }

    /** The voice-output toggle. */
    method ToggleTts()
      requires Valid()
      modifies this`ttsEnabled
      ensures Valid()
      ensures ttsEnabled == !old(ttsEnabled)
    {
      ttsEnabled := !ttsEnabled;
    }

    /** `sendMessage` up to its `await`. An input that trims to nothing, or a
        send already in flight, changes nothing and sends nothing. Otherwise
        the trimmed text is appended as a user message, the input cleared,
        and the send marked in flight; the question handed to the back end
        is returned. */
    method BeginSend() returns (question: Option<string>)
      requires Valid()
      modifies this
      ensures Valid()
      ensures history == old(history) && saved == old(saved) && activeChatId == old(activeChatId)
      ensures ttsEnabled == old(ttsEnabled) && listening == old(listening)
      ensures JsTrim(old(input)) == "" || old(loading) ==>
                question == None && messages == old(messages) && input == old(input)
                && loading == old(loading) && sendTts == old(sendTts)
      ensures JsTrim(old(input)) != "" && !old(loading) ==>
                question == Some(JsTrim(old(input))) && messages == old(messages) + [Message(User, JsTrim(old(input)))]
                && input == "" && loading && sendTts == ttsEnabled
    {
      var q := JsTrim(input);
      if q == "" || loading {
        return None;
      }
      messages := messages + [Message(User, q)];
      input := "";
      loading := true;
      sendTts := ttsEnabled;
      question := Some(q);
    }

    /** The rest of `sendMessage`, when the back end's reply arrives: one
        assistant message is appended to the conversation open at that
        moment (the answer, or the fixed error text), the answer is spoken
        according to the toggle captured at send time (a failure is never
        spoken), and the send is no longer in flight. */
    method CompleteSend(reply: Reply, voices: seq<Voice>) returns (spoken: Option<Utterance>)
      requires Valid()
      requires loading
      modifies this
      ensures Valid()
      ensures messages == old(messages) + [Message(Assistant, ReplyText(reply))]
      ensures !loading
      ensures reply.Answer? ==> spoken == Speak(sendTts, reply.text, voices)
      ensures reply.Unreachable? ==> spoken == None
      ensures history == old(history) && saved == old(saved) && activeChatId == old(activeChatId)
      ensures input == old(input) && ttsEnabled == old(ttsEnabled) && listening == old(listening)
      ensures sendTts == old(sendTts)
    {
      spoken := None;
      match reply {
        case Answer(answer) =>
          messages := messages + [Message(Assistant, answer)];
          spoken := Speak(sendTts, answer, voices);
        case Unreachable =>
          messages := messages + [Message(Assistant, BackendError)];
      }
      loading := false;
    }

    /** A whole send cycle, with the persist step after each of its two
        renders, when nothing else happens while the back end answers. A
        cycle that passes the guard appends exactly the user message and
        then one assistant message, clears the input, ends not in flight,
        and leaves the list persisted with the final conversation. */
    method SendMessage(reply: Reply, voices: seq<Voice>) returns (question: Option<string>, spoken: Option<Utterance>)
      requires Valid()
      modifies this
      ensures Valid()
      ensures activeChatId == old(activeChatId) && ttsEnabled == old(ttsEnabled) && listening == old(listening)
      ensures JsTrim(old(input)) == "" || old(loading) ==>
                question == None && spoken == None && history == old(history) && saved == old(saved)
                && messages == old(messages) && input == old(input) && loading == old(loading)
                && sendTts == old(sendTts)
      ensures JsTrim(old(input)) != "" && !old(loading) ==>
                question == Some(JsTrim(old(input)))
                && messages == old(messages) + [Message(User, JsTrim(old(input))), Message(Assistant, ReplyText(reply))]
                && input == "" && !loading
                && history == Persisted(old(history), activeChatId, messages)
                && spoken == (if reply.Answer? then Speak(old(ttsEnabled), reply.text, voices) else None)
                && saved == (if IsSet(activeChatId) then Some(history) else old(saved))
                && sendTts == old(ttsEnabled)
    {
      ghost var h0 := history;
      question := BeginSend();
      spoken := None;
      if question.None? {
        return;
      }
      ghost var m1 := messages;
      Persist();
      spoken := CompleteSend(reply, voices);
      Persist();
      PersistLatestWins(h0, activeChatId, m1, messages);
    }

    /** `rec.onresult`: the transcript is appended to the pending input. */
    method OnResult(transcript: string)
      requires Valid()
      requires recognizer
      modifies this`input
      ensures Valid()
      ensures input == AppendTranscript(old(input), transcript)
    {
      input := AppendTranscript(input, transcript);
    }

    /** `rec.onerror`: recognition stopped. */
    method OnError()
      requires Valid()
      requires recognizer
      modifies this`listening
      ensures Valid()
      ensures !listening
    {
      listening := false;
    }

    /** `rec.onend`: recognition stopped. */
    method OnEnd()
      requires Valid()
      requires recognizer
      modifies this`listening
      ensures Valid()
      ensures !listening
    {
      listening := false;
    }

    /** `startListen`. Without a recognizer the "not supported" notice is
        shown and nothing changes. Otherwise `rec.start()` is attempted;
        `started` says whether it returned normally (it throws when
        recognition is already running), and only then is the state
        listening. */
    method StartListen(started: bool) returns (notice: bool)
      requires Valid()
      modifies this`listening
      ensures Valid()
      ensures notice == !recognizer
      ensures listening == (if recognizer && started then true else old(listening))
    {
      if !recognizer {
        return true;
      }
      notice := false;
      if started {
        listening := true;
      }
    }

    /** `stopListen`: with a recognizer, recognition is stopped and the state
        is not listening; without one nothing happens. */
    method StopListen()
      requires Valid()
      modifies this`listening
      ensures Valid()
      ensures listening == (if recognizer then false else old(listening))
      ensures !listening
    {
      if !recognizer {
        return;
      }
      listening := false;
    }

    /** The microphone button: stops when listening, starts otherwise. */
    method ToggleListen(started: bool) returns (notice: bool)
      requires Valid()
      modifies this`listening
      ensures Valid()
      ensures old(listening) ==> !listening && !notice
      ensures !old(listening) ==> notice == !recognizer && listening == (recognizer && started)
    {
      notice := false;
      if listening {
        StopListen();
      } else {
        notice := StartListen(started);
      }
    }
  }
}
