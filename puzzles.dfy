/** The puzzle record the three generators return, the hint each attaches,
    and the word-bank filtering with fallback that two of them share. */
module Puzzles {

  /** A generated hint: which tier was chosen and what key it reveals, if any. */
  datatype Hint =
    | CaesarShiftHint(shift: int)        // names the numeric shift
    | CaesarPatternHint                  // names only the technique
    | VigenereKeywordHint(keyword: string)
    | SymbolBasicHint
    | SymbolPatternHint
    | SymbolAdvancedHint

  /** A puzzle as each generator builds it. The Vigenère puzzle has no
      `difficulty` field; the symbol puzzle carries both of its maps. */
  datatype Puzzle =
    | CaesarPuzzle(difficulty: int, encoded: string, answer: string, hint: Hint, shift: int)
    | VigenerePuzzle(encoded: string, answer: string, hint: Hint, keyword: string)
    | SymbolPuzzle(difficulty: int, encoded: string, answer: string, hint: Hint,
                   mapping: map<char, char>, reverseMapping: map<char, char>)

  /** The `type` field of a puzzle. */
  function TypeName(p: Puzzle): (name: string)
    ensures name in {"caesar", "vigenere", "symbol"}
  {
    match p
    case CaesarPuzzle(_, _, _, _, _) => "caesar"
    case VigenerePuzzle(_, _, _, _) => "vigenere"
    case SymbolPuzzle(_, _, _, _, _, _) => "symbol"
  }

  /** Decimal digits of `n`, as a template literal prints a number. */
  function Decimal(n: nat): (s: string)
    ensures |s| > 0
    ensures IsDigits(s)
    ensures n > 0 ==> s[0] != '0'
  {
    if n < 10 then [(48 + n) as char] else Decimal(n / 10) + [(48 + n % 10) as char]
  }

  /** Every character is one of '0'..'9'. */
  predicate IsDigits(s: string) {
    forall i :: 0 <= i < |s| ==> '0' <= s[i] <= '9'
  }

  /** The number a string of decimal digits denotes. */
  function DigitsValue(s: string): nat
    requires IsDigits(s)
  {
    if s == [] then 0 else 10 * DigitsValue(s[..|s| - 1]) + (s[|s| - 1] as int - 48)
  }

  /** The printed digits denote the number printed. */
  lemma {:induction false} DecimalValue(n: nat)
    ensures DigitsValue(Decimal(n)) == n
  {
    if n >= 10 {
      var s := Decimal(n / 10);
      DecimalValue(n / 10);
      assert (s + [(48 + n % 10) as char])[..|s|] == s;
    }
  }

  /** The opening of the hint that names the Caesar shift. */
  const SHIFT_HINT_PREFIX := "Intelligence suggests this is a Caesar cipher. Each letter has been shifted by "

  /** The opening of the hint that names the Vigenère keyword. */
  const KEYWORD_HINT_PREFIX := "Intelligence indicates this is a Vigenère cipher. The keyword appears to be: "

  /** The text the player sees for a hint. */
  function HintText(h: Hint): (r: string)
    ensures h.CaesarShiftHint? && h.shift >= 0 ==> SHIFT_HINT_PREFIX + Decimal(h.shift) <= r
    ensures h.VigenereKeywordHint? ==> KEYWORD_HINT_PREFIX + h.keyword <= r
  {
    match h
    case CaesarShiftHint(shift) => ShiftHintText(shift)
    case CaesarPatternHint => PATTERN_HINT
    case VigenereKeywordHint(keyword) => KeywordHintText(keyword)
    case SymbolBasicHint => SYMBOL_BASIC_HINT
    case SymbolPatternHint => SYMBOL_PATTERN_HINT
    case SymbolAdvancedHint => SYMBOL_ADVANCED_HINT
  }

  const PATTERN_HINT :=
    "Intelligence confirms Caesar cipher encryption. Advanced shift pattern detected. "
    + "Use frequency analysis or systematic decryption methods."

  const SYMBOL_BASIC_HINT :=
    "Intelligence confirms this is a symbol substitution cipher. Each letter has been "
    + "replaced with a unique symbol. Use frequency analysis - the most common symbol "
    + "likely represents E or T."

  const SYMBOL_PATTERN_HINT :=
    "Advanced symbol substitution detected. Apply frequency analysis and pattern "
    + "recognition. Look for single-symbol words and common letter combinations."

  const SYMBOL_ADVANCED_HINT :=
    "Complex symbolic encryption identified. Utilize advanced cryptanalytic techniques "
    + "including frequency analysis, pattern matching, and linguistic structure analysis."

  /** The hint text that prints the shift. */
  function ShiftHintText(shift: int): (r: string)
    ensures shift >= 0 ==> SHIFT_HINT_PREFIX + Decimal(shift) <= r
  {
    var digits := if shift >= 0 then Decimal(shift) else "-" + Decimal(-shift);
    var rest := " positions in the alphabet. Try frequency analysis or systematic shifting.";
    Prefix(SHIFT_HINT_PREFIX + digits, rest);
    SHIFT_HINT_PREFIX + digits + rest
  }

  /** The hint text that prints the keyword. */
  function KeywordHintText(keyword: string): (r: string)
    ensures KEYWORD_HINT_PREFIX + keyword <= r
  {
    var rest := ". Look for repeating patterns to determine keyword length.";
    Prefix(KEYWORD_HINT_PREFIX + keyword, rest);
    KEYWORD_HINT_PREFIX + keyword + rest
  }

  /** A string begins every extension of itself. */
  lemma Prefix(a: string, b: string)
    ensures a <= a + b
  {
    assert (a + b)[..|a|] == a;
  }

  /** `words.filter(keep)`: the kept words, in their bank order. */
  function Filter(words: seq<string>, keep: string -> bool): (r: seq<string>)
    ensures forall w :: w in r <==> w in words && keep(w)
    ensures (forall w :: w in words ==> !keep(w)) ==> r == []
    ensures |r| <= |words|
  {
    if words == [] then []
    else (if keep(words[0]) then [words[0]] else []) + Filter(words[1..], keep)
  }

  /** The words a generator draws from: the bank filtered by `keep`, or the
      whole bank when the filter keeps nothing
      (`filtered.length > 0 ? filtered : wordBank`). */
  function Pool(bank: seq<string>, keep: string -> bool): (r: seq<string>)
    ensures |bank| > 0 ==> |r| > 0
    ensures forall i :: 0 <= i < |r| ==> r[i] in bank
  {
    var filtered := Filter(bank, keep);
    if |filtered| > 0 then filtered else bank
  }

  /** The pool is the filtered bank when some word passes the filter, and
      the whole bank when none does. */
  lemma PoolChoice(bank: seq<string>, keep: string -> bool)
    ensures (exists w :: w in bank && keep(w)) ==>
      forall w :: w in Pool(bank, keep) <==> w in bank && keep(w)
    ensures (forall w :: w in bank ==> !keep(w)) ==> Pool(bank, keep) == bank
  {
    if w :| w in bank && keep(w) {
      assert w in Filter(bank, keep);
    }
  }
}
