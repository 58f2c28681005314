/** The voice side of the chat client, as values: how a recognised
    transcript joins the pending input, whether a reply is spoken, and which
    synthesis voice is chosen for it. */
module Speech {
  import opened Common

  /** A synthesis voice; `lang` is absent on hosts that do not report one. */
  datatype Voice = Voice(name: string, lang: Option<string>)

  /** The utterance `speak` queues after cancelling any utterance in
      flight. */
  datatype Utterance = Utterance(text: string, lang: string, voice: Option<Voice>)

  const UtteranceLang: string := "en-US"

  /** `v.lang?.startsWith("en")`. */
  predicate IsEnglish(v: Voice) {
    v.lang.Some? && StartsWith(v.lang.value, "en")
  }

  /** The position of the first English voice: `voices.find(...)`. */
  function FirstEnglish(voices: seq<Voice>): (r: Option<nat>)
    ensures r.None? <==> forall i :: 0 <= i < |voices| ==> !IsEnglish(voices[i])
    ensures r.Some? ==> r.value < |voices| && IsEnglish(voices[r.value])
                        && forall j :: 0 <= j < r.value ==> !IsEnglish(voices[j])
  {
    if voices == [] then None
    else if IsEnglish(voices[0]) then Some(0)
    else
      var r := FirstEnglish(voices[1..]);
      assert forall j :: 1 <= j < |voices| ==> voices[j] == voices[1..][j - 1];
      match r
      case None => None
      case Some(i) => Some(i + 1)
  }

  /** The voice `speak` sets on the utterance: the first voice whose
      language starts with "en", else the first voice, and none when the
      host offers no voice. */
  function PreferredVoice(voices: seq<Voice>): (v: Option<Voice>)
    ensures v.None? <==> voices == []
    ensures v.Some? ==> v.value in voices
  {
    match FirstEnglish(voices)
    case Some(i) => Some(voices[i])
    case None => if voices == [] then None else Some(voices[0])
  }

  /** The chosen voice is one of the host's voices; it is English whenever
      some voice is, and then no earlier voice is; with no English voice it
      is the first one. */
  lemma PreferredVoiceChoice(voices: seq<Voice>)
    ensures PreferredVoice(voices).None? <==> voices == []
    ensures PreferredVoice(voices).Some? ==> PreferredVoice(voices).value in voices
    ensures (exists i :: 0 <= i < |voices| && IsEnglish(voices[i])) ==>
              exists k :: 0 <= k < |voices| && PreferredVoice(voices) == Some(voices[k])
                          && IsEnglish(voices[k]) && forall j :: 0 <= j < k ==> !IsEnglish(voices[j])
    ensures voices != [] && (forall i :: 0 <= i < |voices| ==> !IsEnglish(voices[i])) ==>
              PreferredVoice(voices) == Some(voices[0])
  {
    match FirstEnglish(voices)
    case Some(k) => assert PreferredVoice(voices) == Some(voices[k]);
    case None =>
  }

  /** `speak(text)`: nothing is spoken when text-to-speech is off or the text
      is empty; otherwise exactly the text is spoken, in "en-US", with the
      preferred voice. */
  function Speak(ttsEnabled: bool, text: string, voices: seq<Voice>): (u: Option<Utterance>)
    ensures u.Some? <==> ttsEnabled && text != ""
    ensures u.Some? ==> u.value.text == text && u.value.lang == UtteranceLang
                        && u.value.voice == PreferredVoice(voices)
  {
    if !ttsEnabled || text == "" then None
    else Some(Utterance(text, UtteranceLang, PreferredVoice(voices)))
  }

  /** The `onresult` update of the pending input: the transcript is
      appended after a single space, or becomes the input when the input is
      empty. The earlier input is always kept as a prefix. */
  function AppendTranscript(input: string, transcript: string): (r: string)
    ensures |r| >= |input| && r[..|input|] == input
    ensures |r| >= |transcript| && r[|r| - |transcript|..] == transcript
    ensures input == "" ==> r == transcript
    ensures input != "" ==> |r| == |input| + 1 + |transcript| && r[|input|] == ' '
  {
    if input != "" then input + " " + transcript else transcript
  }
}
