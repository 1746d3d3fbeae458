/** Character classes and string normalisations shared by the ciphers:
    ASCII upper-casing (`toUpperCase`), `replace(/[^A-Z]/g, '')`,
    `replace(/\s/g, '')` and the letters-and-spaces form of word-bank entries. */
module Text {

  predicate IsUpper(c: char) { 'A' <= c <= 'Z' }

  predicate IsLower(c: char) { 'a' <= c <= 'z' }

  /** The letter with alphabet position `i` (0 for 'A'). */
  function Letter(i: int): (c: char)
    requires 0 <= i < 26
    ensures IsUpper(c) && c as int - 65 == i
  {
    (65 + i) as char
  }

  /** `toUpperCase` on one character (ASCII letters only). */
  function UpperChar(c: char): (r: char)
    ensures !IsLower(r)
    ensures IsLower(c) ==> IsUpper(r) && r as int == c as int - 32
    ensures !IsLower(c) ==> r == c
  {
    if IsLower(c) then (c as int - 32) as char else c
  }

  /** `toUpperCase` on a string: same length, no lower-case letter left. */
  function Upper(t: string): (r: string)
    ensures |r| == |t|
    ensures forall i :: 0 <= i < |r| ==> r[i] == UpperChar(t[i]) && !IsLower(r[i])
  {
    seq(|t|, i requires 0 <= i < |t| => UpperChar(t[i]))
  }

  /** Every character is in 'A'..'Z'. */
  predicate IsLetters(t: string) {
    forall i :: 0 <= i < |t| ==> IsUpper(t[i])
  }

  /** The shape of a word-bank entry: capital letters and spaces. */
  predicate IsBankText(t: string) {
    forall i :: 0 <= i < |t| ==> IsUpper(t[i]) || t[i] == ' '
  }

  /** `replace(/[^A-Z]/g, '')`: the capital letters of `t`, in order. */
  function KeepLetters(t: string): (r: string)
    ensures IsLetters(r) && |r| <= |t|
    ensures |t| == 1 ==> r == if IsUpper(t[0]) then t else []
  {
    if t == [] then []
    else (if IsUpper(t[0]) then [t[0]] else []) + KeepLetters(t[1..])
  }

  /** `t` without its ' ' characters. */
  function RemoveSpaces(t: string): (r: string)
    ensures ' ' !in r && |r| <= |t|
  {
    if t == [] then []
    else (if t[0] == ' ' then [] else [t[0]]) + RemoveSpaces(t[1..])
  }

  /** The characters JavaScript's `\s` class matches. */
  predicate IsJsWhitespace(c: char) {
    c in {'\t', '\n', '\U{B}', '\U{C}', '\r', ' ', '\U{A0}', '\U{1680}', '\U{2028}',
          '\U{2029}', '\U{202F}', '\U{205F}', '\U{3000}', '\U{FEFF}'}
    || '\U{2000}' <= c <= '\U{200A}'
  }

  /** `word.replace(/\s/g, '').length`. */
  function NonSpaceLength(w: string): (n: nat)
    ensures n <= |w|
    ensures n == |w| <==> forall i :: 0 <= i < |w| ==> !IsJsWhitespace(w[i])
  {
    if w == [] then 0
    else (if IsJsWhitespace(w[0]) then 0 else 1) + NonSpaceLength(w[1..])
  }

  /** Upper-casing changes nothing in text without lower-case letters. */
  lemma UpperOfBankText(t: string)
    requires IsBankText(t)
    ensures Upper(t) == t
  {
  }

  /** Upper-casing twice is upper-casing once. */
  lemma UpperIdempotent(t: string)
    ensures Upper(Upper(t)) == Upper(t)
  {
  }

  /** Keeping the letters of an all-letter text changes nothing. */
  lemma {:induction false} KeepLettersOfLetters(t: string)
    requires IsLetters(t)
    ensures KeepLetters(t) == t
  {
    if t != [] {
      KeepLettersOfLetters(t[1..]);
    }
  }

  /** Keeping letters does not change how often a capital letter occurs. */
  lemma {:induction false} KeepLettersCount(t: string, c: char)
    requires IsUpper(c)
    ensures multiset(KeepLetters(t))[c] == multiset(t)[c]
  {
    if t != [] {
      KeepLettersCount(t[1..], c);
      assert t == [t[0]] + t[1..];
    }
  }

  /** For a word-bank entry, keeping the letters is removing the spaces. */
  lemma {:induction false} KeepLettersOfBankText(t: string)
    requires IsBankText(t)
    ensures KeepLetters(t) == RemoveSpaces(t)
  {
    if t != [] {
      KeepLettersOfBankText(t[1..]);
    }
  }

  /** The number of capital letters in `t`. */
  function CountUpper(t: string): (n: nat)
    ensures n <= |t|
  {
    if t == [] then 0
    else CountUpper(t[..|t| - 1]) + (if IsUpper(t[|t| - 1]) then 1 else 0)
  }

  /** Stripping works piece by piece: the capitals of `a + b` are the
      capitals of `a` followed by the capitals of `b`. */
  lemma {:induction false} KeepLettersAppend(a: string, b: string)
    ensures KeepLetters(a + b) == KeepLetters(a) + KeepLetters(b)
  {
    if a == [] {
      assert a + b == b;
    } else {
      assert (a + b)[1..] == a[1..] + b;
      KeepLettersAppend(a[1..], b);
    }
  }

  /** One character is kept for every capital letter of `t`, and no other. */
  lemma {:induction false} KeepLettersLength(t: string)
    ensures |KeepLetters(t)| == CountUpper(t)
  {
    if t != [] {
      var init, last := t[..|t| - 1], t[|t| - 1];
      assert t == init + [last];
      KeepLettersAppend(init, [last]);
      KeepLettersLength(init);
    }
  }

  /** A word-bank entry's length without whitespace is its length without spaces. */
  lemma {:induction false} NonSpaceLengthOfBankText(t: string)
    requires IsBankText(t)
    ensures NonSpaceLength(t) == |RemoveSpaces(t)|
  {
    if t != [] {
      NonSpaceLengthOfBankText(t[1..]);
    }
  }

  /** Moving a letter forward by `y` and back again gives it back. */
  lemma ShiftThenUnshift(x: int, y: int)
    requires 0 <= x < 26 && 0 <= y <= 26
    ensures ((x + y) % 26 - y + 26) % 26 == x
  {
    if x + y < 26 {
      assert (x + y) % 26 == x + y;
    } else {
      assert (x + y) % 26 == x + y - 26;
    }
  }

  /** Moving a letter back by `y` and forward again gives it back. */
  lemma UnshiftThenShift(x: int, y: int)
    requires 0 <= x < 26 && 0 <= y <= 26
    ensures ((x - y + 26) % 26 + y) % 26 == x
  {
    if x - y + 26 < 26 {
      assert (x - y + 26) % 26 == x - y + 26;
    } else {
      assert (x - y + 26) % 26 == x - y;
    }
  }
}
