/** The symbol substitution cipher: a random bijection between the 26
    capital letters and 26 fixed glyphs, and its puzzle generator. */
module Symbol {
  import opened Text
  import opened Seqs
  import opened Puzzles

  /** The glyph palette `SYMBOLS`, in order. */
  function Symbols(): (r: seq<char>)
    ensures |r| == 26 && Distinct(r)
    ensures forall g :: g in r ==> !IsUpper(g) && g != ' '
  {
    GlyphsDistinct();
    seq(26, Glyph)
  }

  /** The `i`-th glyph of the palette. */
  function Glyph(i: int): char
    requires 0 <= i < 26
  {
    match i
    case 0 => '∆'
    case 1 => '◊'
    case 2 => '∇'
    case 3 => '◈'
    case 4 => '◉'
    case 5 => '◯'
    case 6 => '◎'
    case 7 => '●'
    case 8 => '◐'
    case 9 => '◑'
    case 10 => '◒'
    case 11 => '◓'
    case 12 => '⬢'
    case 13 => '⬡'
    case 14 => '⬟'
    case 15 => '⬞'
    case 16 => '⧫'
    case 17 => '⧪'
    case 18 => '⧬'
    case 19 => '⟐'
    case 20 => '⟑'
    case 21 => '⟒'
    case 22 => '⟓'
    case 23 => '⟔'
    case 24 => '⟕'
    case _ => '⟖'
  }

  /** The position of a glyph in the palette, 26 for any other character. */
  function GlyphIndex(c: char): nat {
    match c
    case '∆' => 0
    case '◊' => 1
    case '∇' => 2
    case '◈' => 3
    case '◉' => 4
    case '◯' => 5
    case '◎' => 6
    case '●' => 7
    case '◐' => 8
    case '◑' => 9
    case '◒' => 10
    case '◓' => 11
    case '⬢' => 12
    case '⬡' => 13
    case '⬟' => 14
    case '⬞' => 15
    case '⧫' => 16
    case '⧪' => 17
    case '⧬' => 18
    case '⟐' => 19
    case '⟑' => 20
    case '⟒' => 21
    case '⟓' => 22
    case '⟔' => 23
    case '⟕' => 24
    case '⟖' => 25
    case _ => 26
  }

  /** The glyphs are pairwise different, and none is a capital letter or a space. */
  lemma GlyphsDistinct()
    ensures forall i, j :: 0 <= i < j < 26 ==> Glyph(i) != Glyph(j)
    ensures forall i :: 0 <= i < 26 ==> !IsUpper(Glyph(i)) && Glyph(i) != ' '
  {
    forall i | 0 <= i < 26 ensures GlyphIndex(Glyph(i)) == i && !IsUpper(Glyph(i)) && Glyph(i) != ' ' {
    }
  }

  /** `[...SYMBOLS].sort(random comparator)`: some permutation of the palette. */
  predicate IsShuffle(s: seq<char>) {
    multiset(s) == multiset(Symbols())
  }

  /** `mapping` sends the 26 letters one-to-one onto `palette` and
      `reverseMapping` is its inverse. */
  predicate IsBijectionOnto(mapping: map<char, char>, reverseMapping: map<char, char>, palette: seq<char>) {
    && (forall c :: c in mapping <==> IsUpper(c))
    && (forall g :: g in reverseMapping <==> g in palette)
    && (forall c :: c in mapping ==> mapping[c] in reverseMapping && reverseMapping[mapping[c]] == c)
    && (forall g :: g in reverseMapping ==> reverseMapping[g] in mapping && mapping[reverseMapping[g]] == g)
  }

  /** A letter-to-glyph bijection onto the palette. */
  predicate IsBijection(mapping: map<char, char>, reverseMapping: map<char, char>) {
    IsBijectionOnto(mapping, reverseMapping, Symbols())
  }

  /** The maps the filling loop has built once all 26 letters are done. */
  predicate Filled(shuffled: seq<char>, mapping: map<char, char>, reverseMapping: map<char, char>, n: nat)
    requires n <= |shuffled| && n <= 26
  {
    && (forall k :: 0 <= k < n ==> Letter(k) in mapping && mapping[Letter(k)] == shuffled[k])
    && (forall c :: c in mapping ==> IsUpper(c) && c as int - 65 < n)
    && (forall k :: 0 <= k < n ==> shuffled[k] in reverseMapping && reverseMapping[shuffled[k]] == Letter(k))
    && (forall g :: g in reverseMapping ==> g in shuffled[..n])
  }

  /** Filling the maps from a shuffle of the palette yields a bijection. */
  lemma FilledIsBijection(shuffled: seq<char>, mapping: map<char, char>, reverseMapping: map<char, char>,
                          palette: seq<char>)
    requires multiset(shuffled) == multiset(palette) && |shuffled| == 26
    requires Filled(shuffled, mapping, reverseMapping, 26)
    ensures IsBijectionOnto(mapping, reverseMapping, palette)
  {
    assert shuffled[..26] == shuffled;
    forall c ensures c in mapping <==> IsUpper(c) {
      if IsUpper(c) {
        assert c == Letter(c as int - 65);
      }
    }
    forall g ensures g in reverseMapping <==> g in palette {
      assert g in palette <==> g in multiset(shuffled);
    }
    forall c | c in mapping ensures mapping[c] in reverseMapping && reverseMapping[mapping[c]] == c {
      assert c == Letter(c as int - 65);
    }
    forall g | g in reverseMapping ensures reverseMapping[g] in mapping && mapping[reverseMapping[g]] == g {
      var k :| 0 <= k < 26 && g == shuffled[k];
    }
  }

  /** One step of the filling loop: the next letter and glyph are paired. */
  lemma FilledStep(shuffled: seq<char>, mapping: map<char, char>, reverseMapping: map<char, char>, i: nat)
    requires Distinct(shuffled) && i < |shuffled| && i < 26
    requires Filled(shuffled, mapping, reverseMapping, i)
    ensures Filled(shuffled, mapping[Letter(i) := shuffled[i]], reverseMapping[shuffled[i] := Letter(i)], i + 1)
  {
    assert shuffled[..i + 1] == shuffled[..i] + [shuffled[i]];
  }

  /** A shuffle of the palette has the palette's length and distinctness. */
  lemma ShuffleFacts(shuffled: seq<char>)
    requires IsShuffle(shuffled)
    ensures |shuffled| == 26 && Distinct(shuffled)
  {
    PermutationKeepsDistinct(Symbols(), shuffled);
    assert |shuffled| == |multiset(shuffled)| == 26;
  }

  /** `generateSymbolMapping` with the shuffled palette as a parameter:
      the i-th letter goes to the i-th shuffled glyph and back. */
  method GenerateMapping(shuffled: seq<char>) returns (mapping: map<char, char>, reverseMapping: map<char, char>)
    requires IsShuffle(shuffled)
    ensures |shuffled| == 26
    ensures IsBijection(mapping, reverseMapping)
    ensures forall i :: 0 <= i < 26 ==> mapping[Letter(i)] == shuffled[i]
  {
    ShuffleFacts(shuffled);
    mapping, reverseMapping := map[], map[];
    for i := 0 to 26
      invariant Filled(shuffled, mapping, reverseMapping, i)
    {
      var letter := Letter(i);
      var symbol := shuffled[i];
      FilledStep(shuffled, mapping, reverseMapping, i);
      mapping := mapping[letter := symbol];
      reverseMapping := reverseMapping[symbol := letter];
    }
    FilledIsBijection(shuffled, mapping, reverseMapping, Symbols());
  }

  /** `symbolEncode` on one upper-cased character. */
  function EncodeChar(c: char, mapping: map<char, char>): char {
    if IsUpper(c) && c in mapping then mapping[c] else c
  }

  /** `symbolEncode`: upper-case, replace each letter by its glyph, keep the rest. */
  function Encode(text: string, mapping: map<char, char>): (r: string)
    ensures |r| == |text|
    ensures forall i :: 0 <= i < |r| && IsUpper(Upper(text)[i]) && Upper(text)[i] in mapping ==>
      r[i] == mapping[Upper(text)[i]]
    ensures forall i :: 0 <= i < |r| && IsUpper(Upper(text)[i]) && Upper(text)[i] !in mapping ==>
      r[i] == Upper(text)[i]
    ensures forall i :: 0 <= i < |r| && !IsUpper(Upper(text)[i]) ==> r[i] == Upper(text)[i]
  {
    var u := Upper(text);
    seq(|u|, i requires 0 <= i < |u| => EncodeChar(u[i], mapping))
  }

  /** `symbolDecode`: each character through the reverse map, or kept. */
  function Decode(text: string, reverseMapping: map<char, char>): (r: string)
    ensures |r| == |text|
    ensures forall i :: 0 <= i < |r| && text[i] in reverseMapping ==> r[i] == reverseMapping[text[i]]
    ensures forall i :: 0 <= i < |r| && text[i] !in reverseMapping ==> r[i] == text[i]
  {
    seq(|text|, i requires 0 <= i < |text| => if text[i] in reverseMapping then reverseMapping[text[i]] else text[i])
  }

  /** Decoding an encoding gives back the upper-cased text, provided the text
      holds no glyph of the palette (letters and spaces never are). */
  lemma DecodeEncode(t: string, mapping: map<char, char>, reverseMapping: map<char, char>)
    requires IsBijection(mapping, reverseMapping)
    requires forall i :: 0 <= i < |t| ==> Upper(t)[i] !in Symbols()
    ensures Decode(Encode(t, mapping), reverseMapping) == Upper(t)
  {
    var e := Encode(t, mapping);
    var d := Decode(e, reverseMapping);
    forall i | 0 <= i < |t| ensures d[i] == Upper(t)[i] {
      var c := Upper(t)[i];
      if IsUpper(c) {
        assert e[i] == mapping[c];
      } else {
        assert e[i] == c && c !in reverseMapping;
      }
    }
  }

  /** Word-bank text never holds a glyph of the palette. */
  lemma BankTextHasNoGlyph(t: string)
    requires IsBankText(t)
    ensures forall i :: 0 <= i < |t| ==> Upper(t)[i] !in Symbols()
  {
    UpperOfBankText(t);
  }

  /** Word eligibility by length without whitespace, per difficulty band. */
  predicate Eligible(w: string, d: int) {
    var n := NonSpaceLength(w);
    if d <= 2 then n <= 10 else if d <= 4 then 8 <= n <= 16 else n >= 12
  }

  /** The eligible words, or the whole bank when none is eligible. */
  function Words(bank: seq<string>, d: int): (r: seq<string>)
    ensures |bank| > 0 ==> |r| > 0
    ensures forall w :: w in r ==> w in bank
    ensures (exists w :: w in bank && Eligible(w, d)) ==>
      forall w :: w in r <==> w in bank && Eligible(w, d)
    ensures (forall w :: w in bank ==> !Eligible(w, d)) ==> r == bank
  {
    PoolChoice(bank, w => Eligible(w, d));
    Pool(bank, w => Eligible(w, d))
  }

  /** The hint tier for a level; no tier carries the mapping. */
  function HintFor(d: int): (h: Hint)
    ensures h.SymbolBasicHint? <==> d <= 2
    ensures h.SymbolPatternHint? <==> d == 3
    ensures h.SymbolAdvancedHint? <==> d > 3
  {
    if d <= 2 then SymbolBasicHint else if d <= 3 then SymbolPatternHint else SymbolAdvancedHint
  }

  /** `generateSymbolPuzzle` with the shuffled palette and the word index as
      parameters. */
  method GeneratePuzzle(bank: seq<string>, d: int, shuffled: seq<char>, wordPick: nat) returns (p: Puzzle)
    requires IsShuffle(shuffled) && wordPick < |Words(bank, d)|
    ensures p.SymbolPuzzle? && p.difficulty == d
    ensures IsBijection(p.mapping, p.reverseMapping) && |shuffled| == 26
    ensures forall i :: 0 <= i < 26 ==> p.mapping[Letter(i)] == shuffled[i]
    ensures p.answer == Words(bank, d)[wordPick] && p.answer in bank
    ensures p.encoded == Encode(p.answer, p.mapping)
    ensures p.hint == HintFor(d)
  {
    var mapping, reverseMapping := GenerateMapping(shuffled);
    var answer := Words(bank, d)[wordPick];
    p := SymbolPuzzle(d, Encode(answer, mapping), answer, HintFor(d), mapping, reverseMapping);
  }
}
