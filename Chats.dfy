/** The values the chat client keeps: messages, chats (sessions) and the
    chat list, with the pure steps the client applies to them -- deriving a
    chat's title, finding a chat by id, writing the open conversation back
    into the list, removing a chat, and loading the list from storage. */
module Chats {
  import opened Common

  datatype Role = System | User | Assistant

  datatype Message = Message(role: Role, text: string)

  /** One entry of the chat list: `{id, title, messages}`. */
  datatype Chat = Chat(id: string, title: string, messages: seq<Message>)

  const Greeting: string := "Connected to RAG-Tech backend."

  /** The conversation a fresh chat starts with. */
  const DefaultMessages: seq<Message> := [Message(System, Greeting)]

  const NewChatTitle: string := "New Chat"
  const FallbackTitle: string := "Chat"
  const TitleLength: nat := 40

  /** The id a chat created at time `now` (milliseconds) gets:
      `chat_${Date.now()}`. The digits after the prefix read back as the
      timestamp, so ids differ exactly when the creation times do: two
      chats created in the same millisecond get the same id. */
  function ChatId(now: nat): (id: string)
    ensures |id| > 5 && id[..5] == "chat_"
    ensures forall i :: 5 <= i < |id| ==> '0' <= id[i] <= '9'
    ensures DigitsValue(id[5..]) == now
  {
    var digits := DecimalString(now);
    DecimalRoundTrip(now);
    assert ("chat_" + digits)[5..] == digits;
    "chat_" + digits
  }

  lemma ChatIdInjective(a: nat, b: nat)
    ensures ChatId(a) == ChatId(b) <==> a == b
  {
    if ChatId(a) == ChatId(b) {
      assert ChatId(a)[5..] == ChatId(b)[5..];
    }
  }

  /** An active-chat id counts as set when it is present and non-empty
      (`if (!activeChatId)` treats the empty string like null). */
  predicate IsSet(active: Option<string>)
    ensures IsSet(active) <==> active != None && active != Some("")
  {
    active.Some? && active.value != ""
  }

  /** `messages.find(m => m.role === "user")`, as the text of that message. */
  function FirstUserText(msgs: seq<Message>): (r: Option<string>)
    ensures r.None? <==> forall i :: 0 <= i < |msgs| ==> msgs[i].role != User
    ensures r.Some? ==> exists i :: 0 <= i < |msgs| && msgs[i].role == User && msgs[i].text == r.value
                                    && forall j :: 0 <= j < i ==> msgs[j].role != User
  {
    if msgs == [] then None
    else if msgs[0].role == User then Some(msgs[0].text)
    else
      var r := FirstUserText(msgs[1..]);
      assert forall j :: 1 <= j < |msgs| ==> msgs[j] == msgs[1..][j - 1];
      r
  }

  /** `s.slice(0, n)`, which counts UTF-16 code units: the longest run of
      leading characters that fits in `n` units. Where the cut falls inside
      a surrogate pair JavaScript keeps the pair's high half; that lone half
      is not a character and is left out here. */
  function Prefix(s: string, n: nat): (r: string)
    ensures |r| <= |s| && r == s[..|r|]
    ensures Utf16Length(r) <= n
    ensures |r| < |s| ==> Utf16Length(r) + Utf16Units(s[|r|]) > n
  {
    if s == [] || Utf16Units(s[0]) > n then []
    else
      var rest := Prefix(s[1..], n - Utf16Units(s[0]));
      assert ([s[0]] + rest)[1..] == rest;
      [s[0]] + rest
  }

  /** A string that fits is kept whole. */
  lemma {:induction false} PrefixWhole(s: string, n: nat)
    requires Utf16Length(s) <= n
    ensures Prefix(s, n) == s
  {
    if s != [] {
      PrefixWhole(s[1..], n - Utf16Units(s[0]));
      assert s == [s[0]] + s[1..];
    }
  }

  /** The smaller of a length and a character count. */
  function Fits(len: nat, count: nat): nat {
    if len <= count then len else count
  }

  /** A first character that fits is kept, and the cut goes on with the
      units left. */
  lemma PrefixStep(s: string, n: nat, units: nat)
    requires s != [] && units == Utf16Units(s[0]) <= n
    ensures Prefix(s, n) == [s[0]] + Prefix(s[1..], n - units)
  {
  }

  /** Taking `m + 1` characters is taking the first and then `m` more. */
  lemma TakeStep(s: string, m: nat)
    requires m < |s|
    ensures s[..m + 1] == [s[0]] + s[1..][..m]
  {
  }

  /** In the Basic Multilingual Plane a code unit is a character, so the cut
      keeps the first `n` characters. */
  lemma {:induction false} PrefixOfBmp(s: string, n: nat)
    requires forall i :: 0 <= i < |s| ==> s[i] as int < 0x1_0000
    ensures Prefix(s, n) == s[..Fits(|s|, n)]
  {
    if s == [] || n == 0 {
      assert Fits(|s|, n) == 0;
    } else {
      var tail := s[1..];
      var m := Fits(|tail|, n - 1);
      assert Utf16Units(s[0]) == 1;
      PrefixStep(s, n, 1);
      PrefixOfBmp(tail, n - 1);
      TakeStep(s, m);
      calc {
        Prefix(s, n);
        [s[0]] + Prefix(tail, n - 1);
        [s[0]] + tail[..m];
        s[..m + 1];
        { assert Fits(|s|, n) == m + 1; }
        s[..Fits(|s|, n)];
      }
    }
  }

  /** Above it every character takes two units, so the cut keeps the first
      `n / 2` characters. */
  lemma {:induction false} PrefixOfAstral(s: string, n: nat)
    requires forall i :: 0 <= i < |s| ==> s[i] as int >= 0x1_0000
    ensures Prefix(s, n) == s[..Fits(|s|, n / 2)]
  {
    if s != [] && n > 1 {
      var tail := s[1..];
      var m := Fits(|tail|, (n - 2) / 2);
      PrefixStep(s, n, 2);
      PrefixOfAstral(tail, n - 2);
      assert Prefix(tail, n - 2) == tail[..m];
      TakeStep(s, m);
      assert Fits(|s|, n / 2) == m + 1;
    }
  }

  /** The title the persist step gives a conversation: the first user
      message's text cut to 40 UTF-16 code units, or "Chat" when there is no
      user message or its text is empty. */
  function Title(msgs: seq<Message>): (t: string)
    ensures 0 < |t| <= TitleLength && Utf16Length(t) <= TitleLength
    ensures FirstUserText(msgs).None? ==> t == FallbackTitle
    ensures FirstUserText(msgs).Some? && FirstUserText(msgs).value != ""
            ==> t == Prefix(FirstUserText(msgs).value, TitleLength)
    ensures FirstUserText(msgs).Some? && FirstUserText(msgs).value == "" ==> t == FallbackTitle
  {
    assert Utf16Length(FallbackTitle) == 4;
    match FirstUserText(msgs)
    case None => FallbackTitle
    case Some(text) => var cut := Prefix(text, TitleLength); if cut == "" then FallbackTitle else cut
  }

  /** Once a conversation has a user message, appending messages never
      changes its title. */
  lemma {:induction false} TitleStable(msgs: seq<Message>, more: seq<Message>)
    requires FirstUserText(msgs).Some?
    ensures FirstUserText(msgs + more) == FirstUserText(msgs)
    ensures Title(msgs + more) == Title(msgs)
  {
    if msgs[0].role != User {
      assert (msgs + more)[1..] == msgs[1..] + more;
      TitleStable(msgs[1..], more);
    }
  }

  /** A question in the Basic Multilingual Plane (every script the
      assistant detects) is titled by its first 40 characters. */
  lemma TitleOfBmpQuestion(msgs: seq<Message>)
    requires FirstUserText(msgs).Some? && FirstUserText(msgs).value != ""
    requires var q := FirstUserText(msgs).value; forall i :: 0 <= i < |q| ==> q[i] as int < 0x1_0000
    ensures var q := FirstUserText(msgs).value;
            Title(msgs) == q[..if |q| <= TitleLength then |q| else TitleLength]
  {
    PrefixOfBmp(FirstUserText(msgs).value, TitleLength);
  }

  /** Emoji take two code units each: a question of 21 emoji is titled by
      the first 20. */
  lemma EmojiQuestionTitle()
    ensures var q := seq(21, _ => '\U{1F600}');
            Title([Message(User, q)]) == seq(20, _ => '\U{1F600}')
  {
    var q := seq(21, _ => '\U{1F600}');
    assert FirstUserText([Message(User, q)]) == Some(q);
    PrefixOfAstral(q, TitleLength);
    assert q[..20] == seq(20, _ => '\U{1F600}');
  }

  /** `history.findIndex(h => h.id === id)`. */
  function FindChat(history: seq<Chat>, id: string): (i: int)
    ensures -1 <= i < |history|
    ensures i == -1 <==> forall j :: 0 <= j < |history| ==> history[j].id != id
    ensures i >= 0 ==> history[i].id == id && forall j :: 0 <= j < i ==> history[j].id != id
  {
    if history == [] then -1
    else if history[0].id == id then 0
    else
      var i := FindChat(history[1..], id);
      assert forall j :: 1 <= j < |history| ==> history[j] == history[1..][j - 1];
      if i == -1 then -1 else i + 1
  }

  /** The chat list after the persist step: with no active chat it is
      unchanged; otherwise either exactly the first entry carrying the
      active id is rewritten with the conversation and its derived title,
      keeping its position, or, with no such entry, one entry is put in
      front of the old list. Nothing else changes. */
  function Persisted(history: seq<Chat>, active: Option<string>, msgs: seq<Message>): (r: seq<Chat>)
    ensures !IsSet(active) ==> r == history
    ensures IsSet(active) && FindChat(history, active.value) >= 0 ==>
      var i := FindChat(history, active.value);
      |r| == |history| && r[i] == Chat(active.value, Title(msgs), msgs)
      && forall j :: 0 <= j < |r| && j != i ==> r[j] == history[j]
    ensures IsSet(active) && FindChat(history, active.value) == -1 ==>
      r == [Chat(active.value, Title(msgs), msgs)] + history
  {
    if !IsSet(active) then history
    else
      var i := FindChat(history, active.value);
      if i >= 0 then history[i := history[i].(messages := msgs, title := Title(msgs))]
      else [Chat(active.value, Title(msgs), msgs)] + history
  }

  /** After the persist step the active chat is in the list, and the first
      entry with its id holds exactly the open conversation. */
  lemma PersistStoresActive(history: seq<Chat>, active: Option<string>, msgs: seq<Message>)
    requires IsSet(active)
    ensures var r := Persisted(history, active, msgs);
            var i := FindChat(r, active.value);
            i >= 0 && r[i] == Chat(active.value, Title(msgs), msgs)
  {
    var r := Persisted(history, active, msgs);
    var i := FindChat(history, active.value);
    if i >= 0 {
      assert FindChat(r, active.value) == i by {
        assert forall j :: 0 <= j < i ==> r[j] == history[j];
      }
    } else {
      assert r[0].id == active.value;
    }
  }

  /** Persisting a newer conversation for the same active chat overrides an
      earlier persist completely: only the latest conversation matters. */
  lemma PersistLatestWins(history: seq<Chat>, active: Option<string>, m1: seq<Message>, m2: seq<Message>)
    ensures Persisted(Persisted(history, active, m1), active, m2) == Persisted(history, active, m2)
  {
    if IsSet(active) {
      var r1 := Persisted(history, active, m1);
      var i := FindChat(history, active.value);
      if i >= 0 {
        assert FindChat(r1, active.value) == i by {
          assert forall j :: 0 <= j < i ==> r1[j] == history[j];
        }
      } else {
        PrependedOverwritten(history, active.value, m1, m2);
      }
    }
  }

  /** The second persist of a chat the first one prepended overwrites that
      entry in place. */
  lemma PrependedOverwritten(history: seq<Chat>, id: string, m1: seq<Message>, m2: seq<Message>)
    requires id != "" && FindChat(history, id) == -1
    ensures Persisted([Chat(id, Title(m1), m1)] + history, Some(id), m2) == [Chat(id, Title(m2), m2)] + history
  {
    var r1 := [Chat(id, Title(m1), m1)] + history;
    assert FindChat(r1, id) == 0;
    assert r1[1..] == history;
  }

  /** The persist step is idempotent. */
  lemma PersistIdempotent(history: seq<Chat>, active: Option<string>, msgs: seq<Message>)
    ensures Persisted(Persisted(history, active, msgs), active, msgs) == Persisted(history, active, msgs)
  {
    PersistLatestWins(history, active, msgs, msgs);
  }

  /** A chat just created as "New Chat" loses that title at the first
      persist step, which finds no user message and writes "Chat". */
  lemma NewChatRetitled(history: seq<Chat>, id: string)
    requires id != ""
    ensures var created := [Chat(id, NewChatTitle, DefaultMessages)] + history;
            Persisted(created, Some(id), DefaultMessages)
            == [Chat(id, FallbackTitle, DefaultMessages)] + history
  {
    var created := [Chat(id, NewChatTitle, DefaultMessages)] + history;
    assert FindChat(created, id) == 0;
    assert FirstUserText(DefaultMessages).None? by {
      assert DefaultMessages[0].role != User;
    }
  }

  /** `history.filter(h => h.id !== id)`. */
  function RemoveChat(history: seq<Chat>, id: string): (r: seq<Chat>)
    ensures |r| <= |history|
    ensures forall c :: c in r <==> c in history && c.id != id
  {
    if history == [] then []
    else if history[0].id == id then RemoveChat(history[1..], id)
    else [history[0]] + RemoveChat(history[1..], id)
  }

  /** Removal works entry by entry, so the surviving entries keep their
      relative order: removing from a concatenation removes from each part. */
  lemma {:induction false} RemoveChatConcat(h1: seq<Chat>, h2: seq<Chat>, id: string)
    ensures RemoveChat(h1 + h2, id) == RemoveChat(h1, id) + RemoveChat(h2, id)
  {
    if h1 != [] {
      assert (h1 + h2)[0] == h1[0];
      assert (h1 + h2)[1..] == h1[1..] + h2;
      RemoveChatConcat(h1[1..], h2, id);
      if h1[0].id != id {
        assert [h1[0]] + (RemoveChat(h1[1..], id) + RemoveChat(h2, id))
            == ([h1[0]] + RemoveChat(h1[1..], id)) + RemoveChat(h2, id);
      }
    } else {
      assert h1 + h2 == h2;
    }
  }

  /** Removing an id no entry carries changes nothing. */
  lemma {:induction false} RemoveAbsentChat(history: seq<Chat>, id: string)
    requires forall j :: 0 <= j < |history| ==> history[j].id != id
    ensures RemoveChat(history, id) == history
  {
    if history != [] {
      RemoveAbsentChat(history[1..], id);
    }
  }

  /** The number of entries carrying `id`. */
  function CountId(history: seq<Chat>, id: string): (n: nat)
    ensures n <= |history|
  {
    if history == [] then 0
    else (if history[0].id == id then 1 else 0) + CountId(history[1..], id)
  }

  /** Exactly the entries carrying the id are removed, all of them. */
  lemma {:induction false} RemoveChatCount(history: seq<Chat>, id: string)
    ensures |RemoveChat(history, id)| == |history| - CountId(history, id)
  {
    if history != [] {
      RemoveChatCount(history[1..], id);
    }
  }

  /** `loadHistory`: the storage slot's raw content (None when the key is
      missing) decoded by `parse`, which stands for `JSON.parse` and returns
      None on a syntax error. A missing or empty slot, or unreadable content,
      gives the empty list. */
  function LoadHistory(slot: Option<string>, parse: string -> Option<seq<Chat>>): (h: seq<Chat>)
    ensures slot.None? || slot.value == "" ==> h == []
    ensures slot.Some? && slot.value != "" && parse(slot.value).None? ==> h == []
    ensures slot.Some? && slot.value != "" && parse(slot.value).Some? ==> h == parse(slot.value).value
  {
    match slot
    case None => []
    case Some(raw) =>
      if raw == "" then []
      else match parse(raw)
        case Some(h) => h
        case None => []
  }

  /** Persistence round trip. `serialize` and `parse` stand for
      `JSON.stringify` and `JSON.parse`, which are not modelled; that `parse`
      reads back what `serialize` writes is assumed about them (the
      requires), not proved. The lemma only threads that assumption through
      `LoadHistory`: the written text is non-empty, so the load takes the
      parse branch rather than the empty-list fallback, and loading and
      saving again writes the same content. */
  lemma SaveLoadRoundTrip(history: seq<Chat>, serialize: seq<Chat> -> string, parse: string -> Option<seq<Chat>>)
    requires serialize(history) != "" && parse(serialize(history)) == Some(history)
    ensures LoadHistory(Some(serialize(history)), parse) == history
    ensures serialize(LoadHistory(Some(serialize(history)), parse)) == serialize(history)
  {
  }
}
