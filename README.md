# RAG-Tech Assist in Dafny

This project models the logic of RAG-Tech Assist, a retrieval-augmented
question-answering assistant for IT support, and proves properties of it.
The model has two halves.

**The chat client (`rag-tech-frontend/src/App.jsx`).** This is a single React component.
- It keeps a list of chats in browser storage.
- It writes the open conversation back into that list after every change.
- It sends questions to the back end and turns any reply body into one answer string.
- It can read answers aloud and take dictated input.

The model splits it into four modules:
- `Chats`: chats, titles and the chat list, as values.
- `AnswerNormalizer`: the reply parsing and canonicalisation chain.
- `Speech`: the voice helpers.
- `ChatApp`: the component's state, as a class `App` whose fields are the
  React state variables. Each handler is one method, and its contract
  states every field the handler may change.

The React persist effect is `App.Persist`. A driver calls it after each
handler that changes `messages`. `Chats.PersistLatestWins` shows that
running it once more than React would changes nothing.

**The back-end helpers (`backend/`).** Four modules cover them:
- `ContextBooster` puts a query in a technical category by keyword rules. It
  reorders retrieved documents by a category score, using a stable sort.
- `Translator` detects Tamil, Hindi or English from a fixed set of letters.
- `Retriever` cleans a query before it is embedded, guards against empty
  queries, and turns the FAISS index row into metadata records.
- `Common` holds what several modules share:
  - JavaScript `trim` and Python `strip`, each with its own whitespace set;
  - ASCII lower-casing;
  - substring search.

Things from outside are parameters of the model:
- `JSON.parse`, `JSON.stringify` and storage contents;
- the clock, which gives chat ids;
- the available voices, and whether a recognizer exists or `rec.start()` succeeds;
- the embedding model together with the FAISS search.

## Model

| member | source | states |
|---|---|---|
| Common.JsTrim | rag-tech-frontend/src/App.jsx:215 | the trimmed input has no JavaScript whitespace at either end |
| Common.PyStrip | backend/retriever.py:56 | the stripped query has no Python whitespace at either end |
| Common.Trim | backend/retriever.py:36 | the result is no longer than the input and has no whitespace at either end |
| Common.TrimKeepsMiddle | backend/retriever.py:36 | trimming removes only whitespace, and only at the two ends: the result is a stretch of the input |
| Common.TrimIdempotent | backend/retriever.py:36 | trimming twice is trimming once |
| Common.TrimEmptyIff | backend/retriever.py:56-59 | a string trims to empty exactly when all of it is whitespace |
| Common.AsciiLower | backend/context_booster.py:33 | lower-casing keeps the length and lowers each character on its own |
| Common.DecimalString | rag-tech-frontend/src/App.jsx:241 | the decimal form of the timestamp is a non-empty run of digits, without a leading zero |
| Common.DecimalRoundTrip | rag-tech-frontend/src/App.jsx:241 | reading the decimal digits back gives the timestamp |
| Common.DecimalInjective | rag-tech-frontend/src/App.jsx:241 | two timestamps have the same decimal form exactly when they are equal |
| Common.Utf16Length | rag-tech-frontend/src/App.jsx:79 | a string's length in UTF-16 code units lies between its character count and twice that |
| Common.Utf16LengthConcat | rag-tech-frontend/src/App.jsx:79 | the code-unit length of a concatenation is the sum of the parts' lengths |
| AnswerNormalizer.Truthy | rag-tech-frontend/src/App.jsx:195-200 | a value is truthy exactly when it is not `null`, `false`, `0` or `""` |
| AnswerNormalizer.HasTruthy | rag-tech-frontend/src/App.jsx:195-197 | `if (data?.key)` holds exactly when `data` is an object with the key and a truthy value there |
| AnswerNormalizer.Get | rag-tech-frontend/src/App.jsx:195-197 | `data?.key` gives a value exactly when `data` is an object that has the key |
| AnswerNormalizer.MessageContent | rag-tech-frontend/src/App.jsx:200 | `c.message?.content` is used only when present and truthy |
| AnswerNormalizer.FirstChoice | rag-tech-frontend/src/App.jsx:197-199 | a first choice is used exactly when `choices` is an array whose first element is truthy |
| AnswerNormalizer.Normalize | rag-tech-frontend/src/App.jsx:193-204 | a string payload is taken verbatim; otherwise a truthy `answer`, then a truthy `text`; then, for a truthy first choice, its truthy `message.content`, its truthy `text`, or its serialisation; with none of these and no first choice, the whole payload is serialised |
| AnswerNormalizer.NormalizeOutcomes | rag-tech-frontend/src/App.jsx:193-204 | the result is the string payload, a truthy value, or a serialisation of the payload or of its first choice; never a falsy field |
| AnswerNormalizer.AnswerOutranksTheRest | rag-tech-frontend/src/App.jsx:195 | a truthy `answer` decides the result whatever else the payload holds |
| AnswerNormalizer.FalsyAnswerIsSkipped | rag-tech-frontend/src/App.jsx:195-200 | a falsy `answer` is treated as absent whenever `text` or `choices` decides |
| AnswerNormalizer.KnownShapes | rag-tech-frontend/src/App.jsx:194-200 | a bare string, `{answer}`, `{text}`, `{choices:[{message:{content}}]}` and `{choices:[{text}]}` each yield their string |
| AnswerNormalizer.UnrecognisedIsSerialised | rag-tech-frontend/src/App.jsx:201-204 | a payload without the recognised fields, and `null`, are shown serialised |
| AnswerNormalizer.EmptyChoicesFallThrough | rag-tech-frontend/src/App.jsx:197-204 | an empty `choices` array or a falsy first choice falls through to serialising the payload |
| AnswerNormalizer.BareChoiceIsSerialised | rag-tech-frontend/src/App.jsx:199-200 | a first choice with no truthy content or text is shown as its own serialisation |
| AnswerNormalizer.AsText | rag-tech-frontend/src/App.jsx:206 | a string result is shown as itself |
| AnswerNormalizer.FetchAnswerAsWritten | rag-tech-frontend/src/App.jsx:169-211 | as written: a failed fetch, or a body that is not JSON, rejects with "Backend unreachable"; a JSON body goes through the chain; a response without a body goes through the fallback on the empty text |
| AnswerNormalizer.Payload | rag-tech-frontend/src/App.jsx:179-190 | the parsed body, or `{answer: txt}` when the body is not JSON |
| AnswerNormalizer.FetchAnswer | rag-tech-frontend/src/App.jsx:169-211 | as intended: the reply is "unreachable" exactly on a network failure; any body, or the empty text of a response without one, goes through the chain after the text fallback |
| AnswerNormalizer.PlainTextBodyIsTheAnswer | rag-tech-frontend/src/App.jsx:184-189 | a non-empty plain-text body is returned verbatim as the answer |
| AnswerNormalizer.EmptyBodyIsSerialised | rag-tech-frontend/src/App.jsx:188-203 | an empty non-JSON body is shown as the serialisation of `{answer: ""}` |
| AnswerNormalizer.VersionsAgreeOnJson | rag-tech-frontend/src/App.jsx:179-190 | the written and intended versions agree on network failures, on responses without a body and on JSON bodies |
| AnswerNormalizer.NoBodyIsSerialised | rag-tech-frontend/src/App.jsx:180-203 | even as written, a response without a body is shown as the serialisation of `{answer: ""}` |
| AnswerNormalizer.PlainTextBodyAsWrittenIsUnreachable | rag-tech-frontend/src/App.jsx:180-189 | the body "hello" comes out as the error in the code as written and as the answer in the intended version |
| Chats.ChatId | rag-tech-frontend/src/App.jsx:241 | a chat id is `chat_` followed by digits that read back as the timestamp |
| Chats.ChatIdInjective | rag-tech-frontend/src/App.jsx:241 | two chat ids are equal exactly when their creation times are |
| Chats.IsSet | rag-tech-frontend/src/App.jsx:76 | `if (!activeChatId)` lets through exactly a present, non-empty id |
| Chats.FirstUserText | rag-tech-frontend/src/App.jsx:79 | the text of the first user message, and none exactly when there is no user message |
| Chats.Prefix | rag-tech-frontend/src/App.jsx:79 | `slice(0, n)` counts UTF-16 code units: the result is a prefix of at most `n` units, and the next character would not fit |
| Chats.PrefixWhole | rag-tech-frontend/src/App.jsx:79 | a string of at most `n` code units is kept whole |
| Chats.PrefixOfBmp | rag-tech-frontend/src/App.jsx:79 | on characters of the Basic Multilingual Plane, the cut keeps `min(n, length)` characters |
| Chats.PrefixOfAstral | rag-tech-frontend/src/App.jsx:79 | on characters outside it, such as emoji, the cut keeps `min(n / 2, length)` characters |
| Chats.Title | rag-tech-frontend/src/App.jsx:79-80 | the title is non-empty and at most 40 UTF-16 code units: the first user text cut to 40 units, or "Chat" when there is none or it is empty |
| Chats.TitleStable | rag-tech-frontend/src/App.jsx:79 | once a user message exists, later messages never change the title |
| Chats.TitleOfBmpQuestion | rag-tech-frontend/src/App.jsx:79-80 | a question in the Basic Multilingual Plane is titled by its first 40 characters |
| Chats.EmojiQuestionTitle | rag-tech-frontend/src/App.jsx:79-80 | a question of 21 emoji is titled by the first 20 |
| Chats.FindChat | rag-tech-frontend/src/App.jsx:77 | the first index carrying the id, or -1 exactly when no entry carries it |
| Chats.Persisted | rag-tech-frontend/src/App.jsx:75-87 | with no active id, the list is unchanged; otherwise the first matching entry is rewritten in place and all others are kept, or a new entry is put in front |
| Chats.PersistStoresActive | rag-tech-frontend/src/App.jsx:76-85 | after persisting, the first entry with the active id holds the open conversation and its title |
| Chats.PersistLatestWins | rag-tech-frontend/src/App.jsx:75-87 | persisting twice equals persisting the later conversation once |
| Chats.PersistIdempotent | rag-tech-frontend/src/App.jsx:75-87 | the persist step is idempotent |
| Chats.NewChatRetitled | rag-tech-frontend/src/App.jsx:79-84 | a fresh "New Chat" entry is retitled "Chat" by the first persist step |
| Chats.RemoveChat | rag-tech-frontend/src/App.jsx:260 | an entry survives exactly when it is in the list and does not carry the id |
| Chats.RemoveChatConcat | rag-tech-frontend/src/App.jsx:260 | removal distributes over concatenation, so survivors keep their order |
| Chats.RemoveAbsentChat | rag-tech-frontend/src/App.jsx:260 | removing an id no entry carries changes nothing |
| Chats.RemoveChatCount | rag-tech-frontend/src/App.jsx:260 | exactly the entries carrying the id are removed |
| Chats.LoadHistory | rag-tech-frontend/src/App.jsx:18-26 | a missing or empty slot, or unparsable content, loads as the empty list; otherwise the parsed list |
| Chats.SaveLoadRoundTrip | rag-tech-frontend/src/App.jsx:18-32 | a saved list loads back unchanged when the parser reads what the serialiser writes |
| Speech.FirstEnglish | rag-tech-frontend/src/App.jsx:159 | the position of the first voice whose language starts with "en", none exactly when no voice does |
| Speech.PreferredVoice | rag-tech-frontend/src/App.jsx:157-160 | a voice is chosen exactly when there are voices, and it is one of them |
| Speech.PreferredVoiceChoice | rag-tech-frontend/src/App.jsx:156-161 | the chosen voice is the first English one if there is one, else the first voice; none only when there are no voices |
| Speech.Speak | rag-tech-frontend/src/App.jsx:149-166 | something is spoken exactly when text-to-speech is on and the text is non-empty: that text, in en-US, with the preferred voice |
| Speech.AppendTranscript | rag-tech-frontend/src/App.jsx:110-113 | the transcript is appended after one space, or replaces an empty input; the earlier input stays a prefix |
| ChatApp.ReplyText | rag-tech-frontend/src/App.jsx:222-226 | an answer is shown as itself, a failure as the fixed error text |
| ChatApp.App.Mount | rag-tech-frontend/src/App.jsx:36-72 | the loaded list and its first chat are opened; with none, a new chat is created, put in front, saved and opened; all flags start off |
| ChatApp.App.Persist | rag-tech-frontend/src/App.jsx:75-91 | the list becomes `Persisted` of the old list and is saved; nothing else changes |
| ChatApp.App.NewChat | rag-tech-frontend/src/App.jsx:240-249 | a new chat with the greeting is put in front, saved and opened, and the input is cleared |
| ChatApp.App.SelectChat | rag-tech-frontend/src/App.jsx:251-257 | a known id opens that chat and clears the input; an unknown id changes nothing |
| ChatApp.App.DeleteChat | rag-tech-frontend/src/App.jsx:259-273 | the id's entries are removed and saved; deleting the open chat opens the new first chat, or the greeting with no active chat |
| ChatApp.App.Type | rag-tech-frontend/src/App.jsx:373 | the input becomes the typed text |
| ChatApp.App.ToggleTts | rag-tech-frontend/src/App.jsx:317 | text-to-speech is flipped |
| ChatApp.App.BeginSend | rag-tech-frontend/src/App.jsx:214-219 | an empty trimmed input or a send in flight changes nothing; otherwise the user message is appended, the input cleared and the send marked in flight |
| ChatApp.App.CompleteSend | rag-tech-frontend/src/App.jsx:221-229 | exactly one assistant message is appended; only an answer is spoken, by the toggle at send time; the send ends |
| ChatApp.App.SendMessage | rag-tech-frontend/src/App.jsx:214-230 | a guarded-out send changes nothing; a completed one appends the user message and the reply, clears the input, and leaves the list persisted with the final conversation |
| ChatApp.App.OnResult | rag-tech-frontend/src/App.jsx:110-113 | the transcript is appended to the pending input |
| ChatApp.App.OnError | rag-tech-frontend/src/App.jsx:114-117 | listening stops |
| ChatApp.App.OnEnd | rag-tech-frontend/src/App.jsx:118 | listening stops |
| ChatApp.App.StartListen | rag-tech-frontend/src/App.jsx:128-137 | without a recognizer, only the notice; otherwise listening becomes true when `start` succeeds and is otherwise unchanged |
| ChatApp.App.StopListen | rag-tech-frontend/src/App.jsx:139-146 | afterwards nothing is listening |
| ChatApp.App.ToggleListen | rag-tech-frontend/src/App.jsx:324-327 | the button stops when listening, and otherwise starts |
| Translator.AnyOccurs | backend/translator.py:27 | some character of the set occurs in the text exactly when some character of the text is in the set |
| Translator.DetectLanguage | backend/translator.py:26-31 | Tamil exactly when a Tamil letter occurs; Hindi exactly when none does but a Hindi vowel does; English otherwise |
| Translator.MixedScriptIsTamil | backend/translator.py:27-30 | Tamil takes precedence over Hindi |
| Translator.ConsonantOnlyTamilIsEnglish | backend/translator.py:27-31 | a Tamil word written with consonants and vowel signs only, such as கணினி, is detected as English |
| Translator.AythamWordIsTamil | backend/translator.py:26-28 | a Tamil word with no independent vowel but with the aytham, which the set also lists, such as பஃறுளி, is detected as Tamil |
| ContextBooster.RuleNamesDistinct | backend/context_booster.py:5-30 | the rule table is a dictionary: its six category names are distinct and none is "general" |
| ContextBooster.CategoryFrom | backend/context_booster.py:35-40 | the rules from a point on give one of their names or "general" |
| ContextBooster.CategoryOf | backend/context_booster.py:32-40 | the category is one of the rule names or "general" |
| ContextBooster.CategoryFromSpec | backend/context_booster.py:35-40 | trying the rules from a point on gives "general" exactly when none of them matches, else the first match |
| ContextBooster.CategoryOfSpec | backend/context_booster.py:32-40 | "general" exactly when no pattern occurs in the lowered query; otherwise the first matching rule in order |
| ContextBooster.FirstRule | backend/context_booster.py:35-40 | the loop over the rules in order returns the category the rules define |
| ContextBooster.MatchRule | backend/context_booster.py:36-38 | the inner loop over one rule's patterns finds a hit exactly when some pattern occurs in the query |
| ContextBooster.WindowsBeforeLinux | backend/context_booster.py:5-13 | rule order decides: "sudo win" is a Windows query |
| ContextBooster.DetectCategory | backend/context_booster.py:32-40 | the nested-loop search returns the category the rules define |
| ContextBooster.Score | backend/context_booster.py:47-61 | a score is 0 or 3, or 6 for a networking query |
| ContextBooster.ScoreZeroIffNoKeyword | backend/context_booster.py:50-61 | a document scores 0 exactly when it contains none of the category's scoring keywords; "general" scores everything 0 |
| ContextBooster.Scored | backend/context_booster.py:45-63 | one `(score, doc)` pair per document, in document order |
| ContextBooster.Insert | backend/context_booster.py:65 | insertion adds exactly one element |
| ContextBooster.InsertPos | backend/context_booster.py:65 | insertion puts the new pair at one position and leaves the others in order around it |
| ContextBooster.InsertBounded | backend/context_booster.py:65 | insertion keeps an upper bound on the scores |
| ContextBooster.InsertSorted | backend/context_booster.py:65 | insertion keeps a list ordered by falling score |
| ContextBooster.SortByScore | backend/context_booster.py:65 | the sort is a permutation |
| ContextBooster.SortSorted | backend/context_booster.py:65 | the sort orders by falling score |
| ContextBooster.InsertStable | backend/context_booster.py:65 | an inserted element goes before the equal-score elements already present |
| ContextBooster.SortStable | backend/context_booster.py:65 | the sort keeps the relative order among equal scores |
| ContextBooster.SortEqualKeys | backend/context_booster.py:65 | sorting equal scores changes nothing |
| ContextBooster.Docs | backend/context_booster.py:66 | the documents of the pairs, position by position |
| ContextBooster.DocsOfInsert | backend/context_booster.py:65-66 | the documents after an insertion are the old ones plus the inserted one |
| ContextBooster.DocsOfSort | backend/context_booster.py:65-66 | the sorted documents are a permutation of the unsorted ones |
| ContextBooster.WithScoreOfDocs | backend/context_booster.py:65-66 | selecting documents by score commutes with dropping the scores |
| ContextBooster.ScoredIsKeyed | backend/context_booster.py:45-65 | every pair, before and after sorting, carries its document's score |
| ContextBooster.Boosted | backend/context_booster.py:42-66 | the output is a permutation of the input documents |
| ContextBooster.BoostedOrdered | backend/context_booster.py:42-66 | the output is ordered by falling score |
| ContextBooster.BoostedStable | backend/context_booster.py:42-66 | documents of equal score keep their input order |
| ContextBooster.BoostedGeneralIsIdentity | backend/context_booster.py:42-66 | a "general" query leaves the documents unchanged |
| ContextBooster.BoostedWindowsFirst | backend/context_booster.py:50-51 | for Windows and networking queries, every document mentioning "windows" comes before every document scoring 0 |
| ContextBooster.Boost | backend/context_booster.py:42-66 | the scoring loop and the sort give the boosted order: a permutation, ordered by falling score, stable |
| Retriever.ReplaceChar | backend/retriever.py:34-35 | every occurrence of the one character, and nothing else, is replaced |
| Retriever.Blank | backend/retriever.py:34-35 | a newline or tab becomes a space and every other character is kept; whitespace stays whitespace and nothing else becomes whitespace |
| Retriever.Spaced | backend/retriever.py:34-35 | every newline and tab becomes a space, and every other character is kept |
| Retriever.Clean | backend/retriever.py:32-37 | the cleaned text has no newline or tab and no whitespace at either end |
| Retriever.CleanKeepsText | backend/retriever.py:32-37 | the cleaned text is a stretch of the input with newlines and tabs blanked, with only whitespace outside it |
| Retriever.StretchOfBlanked | backend/retriever.py:34-36 | a trimmed stretch of the blanked text holds no newline or tab |
| Retriever.BlankedStretch | backend/retriever.py:34-36 | a trimmed stretch of the blanked text is a cleaned stretch of the original |
| Retriever.CleanIdempotent | backend/retriever.py:32-37 | cleaning twice is cleaning once |
| Retriever.PyIndex | backend/retriever.py:72 | a list subscript succeeds exactly on `-len .. len-1`; a non-negative one gives that element, a negative one the element that far from the end |
| Retriever.Kept | backend/retriever.py:69-71 | the kept entries are entries of the row, none of them -1, and at most as many; a row without -1 is kept whole |
| Retriever.KeptConcat | backend/retriever.py:69-71 | skipping distributes over concatenation, so the row order is kept |
| Retriever.Collect | backend/retriever.py:67-74 | the records found are at most as many as the row's entries, and each is a metadata record |
| Retriever.CollectErrorPersists | backend/retriever.py:69-72 | a lookup that raises ends the whole search with the error |
| Retriever.CollectStep | backend/retriever.py:69-72 | one more row entry adds nothing for -1, adds its record for a valid subscript, and raises otherwise |
| Retriever.CollectSpec | backend/retriever.py:67-74 | results exist exactly when every entry is -1 or a valid subscript; they are then one record per kept entry, in order, no more than the entries |
| Retriever.CollectInRange | backend/retriever.py:67-74 | with indices the index produces, each result is `meta[idx]` for the kept entries in order |
| Retriever.CollectRow | backend/retriever.py:67-74 | the loop with `continue` and `append` computes exactly `Collect` of the row |
| Retriever.Search | backend/retriever.py:55-74 | an empty stripped query gives no results and is not embedded; otherwise the cleaned query is embedded and the row is collected |

## Left out

- Rendering is not modelled: the JSX, the auto-scroll effects, `ThreeAvatar.jsx` and `TypingIndicator.jsx`. They are presentation only.
- The HTTP exchange is an input `Exchange`: a network failure, a response without a body, or a response body. The response status is never read by the code.
- `JSON.parse` and `JSON.stringify` are parameters. The exact serialisation text is not modelled.
- Storage writes are recorded in the `saved` field and always succeed. The code swallows a failing write, and the model does not capture that.
- The Web Speech objects are not modelled: recognition, synthesis, `cancel`, the recognition language "en-IN", `alert` and the `abort` on unmount. Their observable results are inputs or outputs: voices, whether `start` succeeded, the notice, the spoken utterance.
- React batching and render timing are not modelled. Each handler is one atomic step, and `App.SendMessage` covers a send with no other event during the wait.
- ChatApp.App.Mount: the loaded list is assumed to parse to a list of chats. A stored JSON value that is not an array is not modelled.
- Chats.Title: a user message always has text. A missing `text` property is not modelled.
- Chats.Prefix, Chats.Title: where the 40-unit cut falls inside a surrogate pair, JavaScript keeps the lone high surrogate as the 40th unit. A lone surrogate is not a Dafny `char`, so the model drops the whole pair and the title is one unit shorter.
- AnswerNormalizer.AsText: a truthy answer that is not a string is shown as its serialisation. The page stores the raw value as the message text (App.jsx:223) and renders it as a React child (App.jsx:361), so the outcomes differ by type:
  - a number is rendered as the number itself;
  - `true` is rendered as nothing;
  - an array of strings is rendered as those strings run together;
  - an object, or an array holding an object, makes the render throw (objects are not valid React children). The page goes blank and the effect that persists the history never runs.
  The model does not distinguish these: it shows `stringify(j)` for every one of them.
- Common.AsciiLower: only ASCII letters are lowered. Python's `str.lower` also lowers other scripts. This changes the category when a non-ASCII capital lowers to ASCII letters. The Kelvin sign U+212A lowers to `k`, so `\u212AEYBOARD` is "devices" in the source but "general" here. U+0130 lowers to `i` followed by a combining dot, so `WIF\u0130` contains "wifi" in the source and is "networking" there, but "general" here.
- ContextBooster: each document is assumed to have a `content`. The `KeyError` for a document without one is not modelled.
- Retriever.Search: `nearest` is any function of the cleaned text and `k`. The default `k = 5`, the 512-dimension check and FAISS returning exactly `k` entries are not modelled.
- `backend/reranker.py` is not modelled. It is a neural model with floating-point scores.
- Three more backend pieces are not modelled, because each is a call to a remote language model: `backend/generator.py`, `backend/query_expander.py`, and `translate_to_english`/`translate_from_english` in `backend/translator.py`.
- The embedding model, the FAISS index and `backend/retrieve.py` are not modelled. They are foreign libraries, and `backend/retrieve.py` has no logic of its own.
- `backend/rag_pipeline.py` and `backend/app.py` are orchestration and web plumbing around the calls above, and are not modelled.

## Findings

| source | as written | input that shows it | evidently intended | confidence | as-written member | corrected member |
|---|---|---|---|---|---|---|
| rag-tech-frontend/src/App.jsx:179-189 | after `res.json()` fails, `res.text()` is called on the same response. The body has already been read, so under the Fetch standard ("consume body" rejects a disturbed body) `res.text()` rejects, and the outer `catch` reports "Backend unreachable" | a 200 response whose body is the plain text `hello` (a response without a body, such as a 204, is not affected: an absent body is never disturbed) | the raw text is read instead, and a non-JSON body becomes `{answer: txt}`, shown verbatim | high, not executed | AnswerNormalizer.FetchAnswerAsWritten, AnswerNormalizer.PlainTextBodyAsWrittenIsUnreachable | AnswerNormalizer.FetchAnswer, AnswerNormalizer.PlainTextBodyIsTheAnswer |
