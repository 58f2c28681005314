/** Language detection for incoming questions: a text is Tamil when it holds
    one of the Tamil independent vowels (or the aytham or anusvara sign),
    Hindi when it holds one of the Devanagari independent vowels, and
    English otherwise. The translation calls themselves go to a remote
    model and are not part of this model. */
module Translator {

  /** The twelve Tamil independent vowels, then the aytham and the
      anusvara sign. */
  const TamilLetters: string :=
    "\U{0B85}\U{0B86}\U{0B87}\U{0B88}\U{0B89}\U{0B8A}\U{0B8E}\U{0B8F}\U{0B90}\U{0B92}\U{0B93}\U{0B94}\U{0B83}\U{0B82}"

  /** Ten Devanagari independent vowels (short and long a, i, u, then e,
      ai, o, au). */
  const HindiVowels: string :=
    "\U{0905}\U{0906}\U{0907}\U{0908}\U{0909}\U{090A}\U{090F}\U{0910}\U{0913}\U{0914}"

  const Tamil: string := "Tamil"
  const Hindi: string := "Hindi"
  const English: string := "English"

  /** Some character of `text` is one of `chars`. */
  ghost predicate HasAny(text: string, chars: string) {
    exists j :: 0 <= j < |text| && text[j] in chars
  }

  /** `any(ch in text for ch in chars)`: the characters of the set are tried
      in turn, each searched for in the text. */
  function AnyOccurs(chars: string, text: string): (b: bool)
    ensures b <==> HasAny(text, chars)
  {
    if chars == [] then false
    else if chars[0] in text then
      var j :| 0 <= j < |text| && text[j] == chars[0];
      assert text[j] in chars;
      true
    else
      var b := AnyOccurs(chars[1..], text);
      assert forall j :: 0 <= j < |text| && text[j] in chars ==> text[j] in chars[1..] by {
        forall j | 0 <= j < |text| && text[j] in chars ensures text[j] in chars[1..] {
          assert text[j] != chars[0];
          assert chars == [chars[0]] + chars[1..];
        }
      }
      b
  }

  /** `detect_language`: Tamil takes precedence over Hindi, and a text with
      neither, the empty text among them, is English. */
  function DetectLanguage(text: string): (lang: string)
    ensures lang == Tamil || lang == Hindi || lang == English
    ensures lang == Tamil <==> HasAny(text, TamilLetters)
    ensures lang == Hindi <==> !HasAny(text, TamilLetters) && HasAny(text, HindiVowels)
    ensures lang == English <==> !HasAny(text, TamilLetters) && !HasAny(text, HindiVowels)
  {
    if AnyOccurs(TamilLetters, text) then Tamil
    else if AnyOccurs(HindiVowels, text) then Hindi
    else English
  }

  /** A text that mixes both scripts is taken for Tamil. */
  lemma MixedScriptIsTamil()
    ensures DetectLanguage("\U{0905}\U{0B85}") == Tamil
  {
    assert "\U{0905}\U{0B85}"[1] in TamilLetters;
  }

  /** Only the listed letters count, not the whole script: a Tamil word
      written with consonants and vowel signs alone (the word for
      "computer", ka-nna-i-na-i) is detected as English. */
  lemma ConsonantOnlyTamilIsEnglish()
    ensures DetectLanguage("\U{0B95}\U{0BA3}\U{0BBF}\U{0BA9}\U{0BBF}") == English
  {
    var w := "\U{0B95}\U{0BA3}\U{0BBF}\U{0BA9}\U{0BBF}";
    assert forall j :: 0 <= j < |w| ==> w[j] !in TamilLetters && w[j] !in HindiVowels;
  }

  /** The set also lists the aytham: a word holding it, with no
      independent vowel (pa-aytham-ru-lli), is already Tamil. */
  lemma AythamWordIsTamil()
    ensures DetectLanguage("\U{0BAA}\U{0B83}\U{0BB1}\U{0BC1}\U{0BB3}\U{0BBF}") == Tamil
  {
    assert "\U{0BAA}\U{0B83}\U{0BB1}\U{0BC1}\U{0BB3}\U{0BBF}"[1] in TamilLetters;
  }
}
