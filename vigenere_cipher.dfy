/** The repeating-keyword (Vigenère) cipher and its puzzle generator. */
module Vigenere {
  import opened Text
  import opened Puzzles

  /** The fixed keyword list of `generateVigenerePuzzle`. */
  const KEYWORDS: seq<string> := ["CIPHER", "SECRET", "PUZZLE", "QUEST", "ESCAPE", "DECODE", "MYSTERY"]

  /** A keyword that, upper-cased, is non-empty and made of capital letters. */
  predicate ValidKeyword(k: string) {
    |k| > 0 && IsLetters(Upper(k))
  }

  /** The text both directions work on: upper-cased, letters only. */
  function Normalize(t: string): (r: string)
    ensures IsLetters(r)
  {
    KeepLetters(Upper(t))
  }

  /** The normal form has one letter per capital of the upper-cased text. */
  lemma NormalizeLength(t: string)
    ensures |Normalize(t)| == CountUpper(Upper(t))
  {
    KeepLettersLength(Upper(t));
  }

  /** Alphabet position of the keyword letter used at text position `i`. */
  function KeyAt(k: string, i: nat): (v: int)
    requires ValidKeyword(k)
    ensures 0 <= v < 26
  {
    Upper(k)[i % |k|] as int - 65
  }

  /** `vigenereEncode`: position `i` of the letters-only text moves forward
      by the keyword letter at `i mod |keyword|`. */
  function Encode(text: string, keyword: string): (r: string)
    requires ValidKeyword(keyword)
    ensures |r| == |Normalize(text)| && IsLetters(r)
    ensures forall i :: 0 <= i < |r| ==>
      r[i] as int - 65 == (Normalize(text)[i] as int - 65 + KeyAt(keyword, i)) % 26
  {
    var n := Normalize(text);
    seq(|n|, i requires 0 <= i < |n| => ((n[i] as int - 65 + KeyAt(keyword, i)) % 26 + 65) as char)
  }

  /** `vigenereDecode`: the same walk backwards, with the `+ 26` guard. */
  function Decode(text: string, keyword: string): (r: string)
    requires ValidKeyword(keyword)
    ensures |r| == |Normalize(text)| && IsLetters(r)
    ensures forall i :: 0 <= i < |r| ==>
      r[i] as int - 65 == (Normalize(text)[i] as int - 65 - KeyAt(keyword, i) + 26) % 26
  {
    var n := Normalize(text);
    seq(|n|, i requires 0 <= i < |n| => ((n[i] as int - 65 - KeyAt(keyword, i) + 26) % 26 + 65) as char)
  }

  /** Normalising letters-only text changes nothing. */
  lemma NormalizeLetters(t: string)
    requires IsLetters(t)
    ensures Normalize(t) == t
  {
    assert Upper(t) == t;
    KeepLettersOfLetters(t);
  }

  /** Normalising works piece by piece, so it keeps the letters in order. */
  lemma NormalizeAppend(a: string, b: string)
    ensures Normalize(a + b) == Normalize(a) + Normalize(b)
  {
    assert Upper(a + b) == Upper(a) + Upper(b);
    KeepLettersAppend(Upper(a), Upper(b));
  }

  /** Decoding first strips every non-letter, so it sees only the letters. */
  lemma DecodeStripsNonLetters(t: string, k: string)
    requires ValidKeyword(k)
    ensures Decode(t, k) == Decode(Normalize(t), k)
  {
    NormalizeLetters(Normalize(t));
  }

  /** Decoding an encoding gives back the upper-case letters of the text. */
  lemma DecodeEncode(t: string, k: string)
    requires ValidKeyword(k)
    ensures Decode(Encode(t, k), k) == Normalize(t)
  {
    var e := Encode(t, k);
    NormalizeLetters(e);
    var d := Decode(e, k);
    var n := Normalize(t);
    forall i | 0 <= i < |d| ensures d[i] == n[i] {
      ShiftThenUnshiftChar(n[i], e[i], d[i], KeyAt(k, i));
    }
  }

  /** One letter shifted forward by `y` and back again. */
  lemma ShiftThenUnshiftChar(c: char, shifted: char, back: char, y: int)
    requires IsUpper(c) && 0 <= y < 26
    requires shifted as int - 65 == (c as int - 65 + y) % 26
    requires back as int - 65 == (shifted as int - 65 - y + 26) % 26
    ensures back == c
  {
    ShiftThenUnshift(c as int - 65, y);
  }

  /** One letter shifted back by `y` and forward again. */
  lemma UnshiftThenShiftChar(c: char, shifted: char, back: char, y: int)
    requires IsUpper(c) && 0 <= y < 26
    requires shifted as int - 65 == (c as int - 65 - y + 26) % 26
    requires back as int - 65 == (shifted as int - 65 + y) % 26
    ensures back == c
  {
    UnshiftThenShift(c as int - 65, y);
  }

  /** Encoding a decoding gives back the upper-case letters of the ciphertext. */
  lemma EncodeDecode(c: string, k: string)
    requires ValidKeyword(k)
    ensures Encode(Decode(c, k), k) == Normalize(c)
  {
    var d := Decode(c, k);
    NormalizeLetters(d);
    var e := Encode(d, k);
    var n := Normalize(c);
    forall i | 0 <= i < |e| ensures e[i] == n[i] {
      UnshiftThenShiftChar(n[i], d[i], e[i], KeyAt(k, i));
    }
  }

  /** For a word-bank entry the normal form is the entry without its spaces. */
  lemma NormalizeBankText(t: string)
    requires IsBankText(t)
    ensures Normalize(t) == RemoveSpaces(t)
  {
    UpperOfBankText(t);
    KeepLettersOfBankText(t);
  }

  /** Every fixed keyword is usable. */
  lemma KeywordsValid()
    ensures forall k :: k in KEYWORDS ==> ValidKeyword(k)
  {
  }

  /** `generateVigenerePuzzle`: the keyword and the word are drawn by index;
      the difficulty level plays no part and the bank is not filtered. */
  function GeneratePuzzle(bank: seq<string>, keywordPick: nat, wordPick: nat): (p: Puzzle)
    requires keywordPick < |KEYWORDS| && wordPick < |bank|
    ensures p.VigenerePuzzle? && p.keyword in KEYWORDS && ValidKeyword(p.keyword)
    ensures p.answer == bank[wordPick]
    ensures p.encoded == Encode(p.answer, p.keyword)
    ensures p.hint == VigenereKeywordHint(p.keyword)
    ensures Decode(p.encoded, p.keyword) == Normalize(p.answer)
  {
    KeywordsValid();
    var keyword := KEYWORDS[keywordPick];
    var answer := bank[wordPick];
    DecodeEncode(answer, keyword);
    VigenerePuzzle(Encode(answer, keyword), answer, VigenereKeywordHint(keyword), keyword)
  }
}
