/**
 * The text validity heuristics of text_processing.py: clean_response and
 * is_gibberish.
 */
module TextProcessing {
  import opened Text
  import opened Seqs

  /** string.punctuation: the 32 ASCII punctuation characters. */
  const Punctuation: string := "!\"#$%&'()*+,-./:;<=>?@[\\]^_`{|}~"

  predicate IsPunctuation(c: char) { c in Punctuation }

  predicate NotPunctuation(c: char) { !IsPunctuation(c) }

  /** str.translate with every punctuation character mapped to None. */
  function RemovePunctuation(s: string): (r: string)
    ensures |r| <= |s|
    ensures forall i :: 0 <= i < |r| ==> !IsPunctuation(r[i]) && r[i] in s
    ensures forall i :: 0 <= i < |s| && !IsPunctuation(s[i]) ==> s[i] in r
  {
    Filter(s, NotPunctuation)
  }

  /** Removing punctuation works character by character: it distributes over concatenation... */
  lemma RemovePunctuationAppend(a: string, b: string)
    ensures RemovePunctuation(a + b) == RemovePunctuation(a) + RemovePunctuation(b)
  {
    FilterAppend(a, b, NotPunctuation);
  }

  /** ...and keeps a character exactly when it is not punctuation, in the position it had. */
  lemma RemovePunctuationSnoc(s: string, c: char)
    ensures RemovePunctuation(s + [c]) == RemovePunctuation(s) + (if IsPunctuation(c) then [] else [c])
  {
    FilterSnoc(s, c, NotPunctuation);
  }

  /**
   * clean_response: lower-case, drop punctuation, then strip; the result is
   * the lower-cased text without its punctuation, cut down to the slice
   * between its leading and trailing whitespace.
   */
  function CleanResponse(text: string): (r: string)
    ensures |r| <= |text|
    ensures forall i :: 0 <= i < |r| ==> !IsPunctuation(r[i]) && !IsUpperLetter(r[i])
    ensures IsStripped(r)
    ensures exists a :: Trims(RemovePunctuation(Lower(text)), a, r)
  {
    var lowered := Lower(text);
    var kept := RemovePunctuation(lowered);
    FilterPreserves(lowered, NotPunctuation, NotUpper);
    StripPreserves(kept, IsCleanChar);
    StripIsSlice(kept);
    Strip(kept)
  }

  predicate NotUpper(c: char) { !IsUpperLetter(c) }

  predicate IsCleanChar(c: char) { !IsPunctuation(c) && !IsUpperLetter(c) }

  /** A response that cleaning leaves alone. */
  predicate IsCleanResponse(s: string) {
    IsStripped(s) && forall i :: 0 <= i < |s| ==> !IsPunctuation(s[i]) && !IsUpperLetter(s[i])
  }

  lemma {:induction false} LowerOfLower(s: string)
    requires forall i :: 0 <= i < |s| ==> !IsUpperLetter(s[i])
    ensures Lower(s) == s
  {
    if s != [] {
      LowerOfLower(s[1..]);
    }
  }

  /** Cleaning leaves a clean response unchanged... */
  lemma CleanResponseOfClean(s: string)
    requires IsCleanResponse(s)
    ensures CleanResponse(s) == s
  {
    LowerOfLower(s);
    FilterAll(s, NotPunctuation);
    StripOfStripped(s);
  }

  /** ...and every cleaned response is clean, so cleaning twice is cleaning once. */
  lemma CleanResponseIdempotent(text: string)
    ensures IsCleanResponse(CleanResponse(text))
    ensures CleanResponse(CleanResponse(text)) == CleanResponse(text)
  {
    CleanResponseOfClean(CleanResponse(text));
  }

  /** A lower-case ASCII vowel; capitals and accented vowels do not count. */
  predicate IsVowel(c: char) { c == 'a' || c == 'e' || c == 'i' || c == 'o' || c == 'u' }

  predicate HasVowel(text: string) { exists i :: 0 <= i < |text| && IsVowel(text[i]) }

  /** str.isdigit(): non-empty and every character a digit. */
  predicate IsDigitString(text: string) {
    text != [] && forall i :: 0 <= i < |text| ==> IsDigitChar(text[i])
  }

  /** is_gibberish: the three early-return tests in order. */
  function IsGibberish(text: string): (r: bool)
    ensures |text| <= 2 ==> r
    ensures !HasVowel(text) ==> r
  {
    if |text| <= 2 then true
    else if !HasVowel(text) then true
    else if IsDigitString(text) then true
    else false
  }

  /** A text with a vowel has a non-digit character, so the digit test never decides. */
  lemma VowelIsNotDigit(text: string)
    requires HasVowel(text)
    ensures !IsDigitString(text)
  {
    var i :| 0 <= i < |text| && IsVowel(text[i]);
    assert !IsDigitChar(text[i]);
  }

  /** is_gibberish is exactly "at most two characters, or no vowel". */
  lemma IsGibberishReduces(text: string)
    ensures IsGibberish(text) <==> |text| <= 2 || !HasVowel(text)
  {
    if HasVowel(text) {
      VowelIsNotDigit(text);
    }
  }

  lemma HelloIsNotGibberish()
    ensures !IsGibberish("hello")
  {
    assert IsVowel("hello"[1]);
  }
}
