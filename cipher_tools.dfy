/** The analyst's tools beside a puzzle: letter frequencies, a trial Caesar
    shift, a hand-built symbol substitution and the tool list per puzzle kind. */
module CipherTools {
  import opened Text
  import opened Seqs
  import opened Sorting
  import Caesar
  import Symbol

  // ---------------------------------------------------------------------
  // Frequency analysis
  // ---------------------------------------------------------------------

  /** An `Object.entries(freq)` pair: a letter and its count. */
  type Frequency = (char, nat)

  /** The sort comparator `b - a` on counts is negative for `(x, y)`
      exactly when `x` is the more frequent. */
  predicate MoreFrequent(x: Frequency, y: Frequency) {
    y.1 - x.1 < 0
  }

  lemma MoreFrequentIsStrictOrder()
    ensures StrictOrder(MoreFrequent)
  {
  }

  /** The entries of the count table: each capital letter of `text` once,
      in order of first occurrence (the order object keys are kept in),
      with its number of occurrences. */
  function Frequencies(text: string): (r: seq<Frequency>)
    ensures Tallies(r, text)
    ensures forall i, j :: 0 <= i < j < |r| ==> r[i].0 != r[j].0
    ensures forall c :: c in text && IsUpper(c) ==> (c, multiset(text)[c]) in r
  {
    var keys := Dedup(KeepLetters(text));
    LetterKeys(text);
    TabulateCovers(keys, text);
    Tabulate(keys, text)
  }

  /** Each key with its number of occurrences in `text`. */
  function Tabulate(keys: seq<char>, text: string): (r: seq<Frequency>)
    ensures |r| == |keys|
    ensures forall j :: 0 <= j < |r| ==> r[j] == (keys[j], multiset(text)[keys[j]])
  {
    seq(|keys|, j requires 0 <= j < |keys| => (keys[j], multiset(text)[keys[j]]))
  }

  /** Every key appears in the tabulation with its count. */
  lemma TabulateCovers(keys: seq<char>, text: string)
    ensures forall c :: c in keys ==> (c, multiset(text)[c]) in Tabulate(keys, text)
  {
    forall c | c in keys ensures (c, multiset(text)[c]) in Tabulate(keys, text) {
      var i := FirstIndex(keys, c);
      assert Tabulate(keys, text)[i] == (c, multiset(text)[c]);
    }
  }

  /** The table's keys are capital letters, and every capital of the text is one. */
  lemma LetterKeys(text: string)
    ensures var keys := Dedup(KeepLetters(text));
      && (forall i :: 0 <= i < |keys| ==> IsUpper(keys[i]))
      && (forall c :: c in text && IsUpper(c) ==> c in keys)
  {
    var keys := Dedup(KeepLetters(text));
    forall i | 0 <= i < |keys| ensures IsUpper(keys[i]) {
      KeepLettersMembers(text, keys[i]);
    }
    forall c | c in text && IsUpper(c) ensures c in keys {
      KeepLettersMembers(text, c);
    }
  }

  /** `getFrequencyAnalysis` as a value: the entries sorted by count, most
      frequent first (ties in first-occurrence order), cut to ten. The
      panel shows at most ten entries, distinct capital letters, each with
      its exact number of occurrences in the text, most frequent first. */
  function TopFrequencies(text: string): (top: seq<Frequency>)
    ensures |top| <= 10
    ensures forall i :: 0 <= i < |top| ==> IsUpper(top[i].0) && top[i].1 == multiset(text)[top[i].0]
    ensures forall i, j :: 0 <= i < j < |top| ==> top[i].0 != top[j].0 && top[i].1 >= top[j].1
  {
    var ranked := Sort(Frequencies(text), MoreFrequent);
    RankedFacts(Frequencies(text), text);
    var top := Take(ranked, 10);
    assert top == ranked[..|top|];
    top
  }

  /** The counting loop's table after the letters `seen`: its keys in
      insertion order and the count of each. */
  ghost predicate Counted(seen: string, keys: seq<char>, freq: map<char, nat>) {
    && keys == Dedup(seen)
    && (forall c :: c in freq <==> c in seen)
    && (forall c :: c in freq ==> freq[c] == multiset(seen)[c])
  }

  /** One turn of the counting loop: the next letter is counted, and added
      to the keys the first time it is seen. */
  lemma CountedStep(seen: string, c: char, keys: seq<char>, freq: map<char, nat>)
    requires Counted(seen, keys, freq)
    ensures Counted(seen + [c], if c in freq then keys else keys + [c],
                    freq[c := if c in freq then freq[c] + 1 else 1])
  {
    DedupSnoc(seen, c);
    TallyStep(seen, c, freq);
  }

  /** The table's counts after one more letter. */
  lemma TallyStep(p: string, c: char, freq: map<char, nat>)
    requires forall d :: d in freq <==> d in p
    requires forall d :: d in freq ==> freq[d] == multiset(p)[d]
    ensures var f := freq[c := if c in freq then freq[c] + 1 else 1];
      && (forall d :: d in f <==> d in p + [c])
      && (forall d :: d in f ==> f[d] == multiset(p + [c])[d])
  {
    assert multiset(p + [c]) == multiset(p) + multiset{c};
  }

  /** The counting loop of `getFrequencyAnalysis`: each letter's count goes
      up by one, and a letter seen for the first time becomes a new key. */
  method CountLetters(cleanText: string) returns (keys: seq<char>, freq: map<char, nat>)
    ensures Counted(cleanText, keys, freq)
  {
    keys, freq := [], map[];
    for i := 0 to |cleanText|
      invariant Counted(cleanText[..i], keys, freq)
    {
      var c := cleanText[i];
      assert cleanText[..i + 1] == cleanText[..i] + [c];
      CountedStep(cleanText[..i], c, keys, freq);
      if c in freq {
        freq := freq[c := freq[c] + 1];
      } else {
        freq := freq[c := 1];
        keys := keys + [c];
      }
    }
    assert cleanText[..|cleanText|] == cleanText;
  }

  /** `getFrequencyAnalysis`: count the capital letters in a table, then rank
      the table's entries and keep the first ten. */
  method FrequencyAnalysis(text: string) returns (top: seq<Frequency>)
    ensures top == TopFrequencies(text)
  {
    var cleanText := KeepLetters(text);
    var keys, freq := CountLetters(cleanText);
    CountedEntries(text, keys, freq);
    var entries := Entries(keys, freq);
    var ranked := Sort(entries, MoreFrequent);
    top := Take(ranked, 10);
  }

  /** `Object.entries(freq)`: each key, in insertion order, with its count. */
  function Entries(keys: seq<char>, freq: map<char, nat>): (r: seq<Frequency>)
    requires forall c :: c in keys ==> c in freq
    ensures |r| == |keys|
    ensures forall j :: 0 <= j < |r| ==> r[j] == (keys[j], freq[keys[j]])
  {
    seq(|keys|, j requires 0 <= j < |keys| => (keys[j], freq[keys[j]]))
  }

  /** The finished table lists exactly `Frequencies(text)`. */
  lemma CountedEntries(text: string, keys: seq<char>, freq: map<char, nat>)
    requires Counted(KeepLetters(text), keys, freq)
    ensures forall c :: c in keys ==> c in freq
    ensures Entries(keys, freq) == Frequencies(text)
  {
    forall c | c in keys ensures freq[c] == multiset(text)[c] {
      KeepLettersCount(text, c);
    }
  }

  /** Every capital letter of `text` occurs in `KeepLetters(text)`, and only those. */
  lemma {:induction false} KeepLettersMembers(text: string, c: char)
    ensures c in KeepLetters(text) <==> c in text && IsUpper(c)
  {
    if text != [] {
      KeepLettersMembers(text[1..], c);
      assert text == [text[0]] + text[1..];
    }
  }

  /** Each entry pairs a capital letter with its number of occurrences in `text`. */
  ghost predicate Tallies(entries: seq<Frequency>, text: string) {
    forall i :: 0 <= i < |entries| ==> IsUpper(entries[i].0) && entries[i].1 == multiset(text)[entries[i].0]
  }

  /** Ranking a table whose letters are distinct keeps its entries and their
      distinct letters, and puts the more frequent first. */
  lemma RankedFacts(entries: seq<Frequency>, text: string)
    requires forall i, j :: 0 <= i < j < |entries| ==> entries[i].0 != entries[j].0
    requires Tallies(entries, text)
    ensures var ranked := Sort(entries, MoreFrequent);
      && SortedBy(ranked, MoreFrequent)
      && (forall i :: 0 <= i < |ranked| ==> ranked[i] in entries)
      && Tallies(ranked, text)
      && (forall e :: e in entries ==> e in ranked)
      && (forall i, j :: 0 <= i < j < |ranked| ==> ranked[i].0 != ranked[j].0 && ranked[i].1 >= ranked[j].1)
  {
    var ranked := Sort(entries, MoreFrequent);
    MoreFrequentIsStrictOrder();
    SortSorted(entries, MoreFrequent);
    assert Distinct(entries);
    PermutationKeepsDistinct(entries, ranked);
    forall i | 0 <= i < |ranked| ensures ranked[i] in entries {
      assert ranked[i] in multiset(entries);
    }
    forall i | 0 <= i < |ranked|
      ensures IsUpper(ranked[i].0) && ranked[i].1 == multiset(text)[ranked[i].0]
    {
      var p :| 0 <= p < |entries| && entries[p] == ranked[i];
    }
    forall e | e in entries ensures e in ranked {
      assert e in multiset(ranked);
    }
    forall i, j | 0 <= i < j < |ranked| ensures ranked[i].0 != ranked[j].0 {
      assert ranked[i] in entries && ranked[j] in entries && ranked[i] != ranked[j];
    }
  }

  /** Every capital letter of the text is listed, unless ten letters at
      least as frequent fill the list. */
  lemma TopFrequenciesComplete(text: string, c: char)
    requires c in text && IsUpper(c)
    ensures var top := TopFrequencies(text);
      || (exists i :: 0 <= i < |top| && top[i].0 == c)
      || (|top| == 10 && forall i :: 0 <= i < |top| ==> multiset(text)[c] <= top[i].1)
  {
    var entries := Frequencies(text);
    var ranked := Sort(entries, MoreFrequent);
    var j := EntryOf(text, c);
    var k := PositionAfterSort(entries, j);
    MoreFrequentIsStrictOrder();
    SortSorted(entries, MoreFrequent);
    TopOfRanked(ranked, k);
    if k < |TopFrequencies(text)| {
      assert TopFrequencies(text)[k].0 == c;
    }
  }

  /** The table's entry for a capital letter of the text. */
  lemma EntryOf(text: string, c: char) returns (j: nat)
    requires c in text && IsUpper(c)
    ensures j < |Frequencies(text)| && Frequencies(text)[j] == (c, multiset(text)[c])
  {
    KeepLettersMembers(text, c);
    j := FirstIndex(Dedup(KeepLetters(text)), c);
  }

  /** Where an entry ends up once the table is ranked. */
  lemma PositionAfterSort(entries: seq<Frequency>, j: nat) returns (k: nat)
    requires j < |entries|
    ensures k < |Sort(entries, MoreFrequent)| && Sort(entries, MoreFrequent)[k] == entries[j]
  {
    var ranked := Sort(entries, MoreFrequent);
    assert entries[j] in multiset(ranked);
    k :| 0 <= k < |ranked| && ranked[k] == entries[j];
  }

  /** In a ranked list, an entry beyond the first ten is no more frequent
      than any of them. */
  lemma TopOfRanked(ranked: seq<Frequency>, k: nat)
    requires SortedBy(ranked, MoreFrequent) && k < |ranked|
    ensures var top := Take(ranked, 10);
      || (k < |top| && top[k] == ranked[k])
      || (|top| == 10 && forall i :: 0 <= i < |top| ==> ranked[k].1 <= top[i].1)
  {
    var top := Take(ranked, 10);
    if k >= |top| {
      forall i | 0 <= i < |top| ensures ranked[k].1 <= top[i].1 {
        assert top[i] == ranked[i] && !MoreFrequent(ranked[k], ranked[i]);
      }
    }
  }

  // ---------------------------------------------------------------------
  // Caesar tool
  // ---------------------------------------------------------------------

  /** `applyCaesarShift`: every capital letter moves forward by the shift;
      every other character, lower-case letters included, is kept. */
  function ApplyCaesarShift(text: string, shift: int): (r: string)
    ensures |r| == |text|
    ensures forall i :: 0 <= i < |r| && !IsUpper(text[i]) ==> r[i] == text[i]
    ensures shift >= 0 ==> forall i :: 0 <= i < |r| && IsUpper(text[i]) ==>
      IsUpper(r[i]) && r[i] as int - 65 == (text[i] as int - 65 + shift) % 26
  {
    seq(|text|, i requires 0 <= i < |text| => Caesar.ShiftChar(text[i], shift))
  }

  /** On text with no lower-case letter the tool shifts as the cipher does. */
  lemma ApplyMatchesEncode(text: string, shift: int)
    requires Upper(text) == text
    ensures ApplyCaesarShift(text, shift) == Caesar.Encode(text, shift)
  {
  }

  /** With the slider at `26 - s` the tool turns a shift-`s` cipher text back
      into the upper-cased plain text. */
  lemma SliderUndoesShift(plain: string, s: int)
    requires 1 <= s <= 25
    ensures ApplyCaesarShift(Caesar.Encode(plain, s), 26 - s) == Upper(plain)
  {
    var e := Caesar.Encode(plain, s);
    assert Upper(e) == e by {
      forall i | 0 <= i < |e| ensures UpperChar(e[i]) == e[i] {
        if !IsUpper(Upper(plain)[i]) {
          assert e[i] == Upper(plain)[i];
        }
      }
    }
    ApplyMatchesEncode(e, 26 - s);
    Caesar.DecodeEncode(plain, s);
  }

  // ---------------------------------------------------------------------
  // Substitution tool
  // ---------------------------------------------------------------------

  /** `applySubstitution`: each character is replaced by its entry when the
      entry is non-empty (an empty string is falsy), else kept. */
  function Substitute(text: string, substitutionMap: map<char, string>): (r: string)
    ensures |r| >= |text|
    ensures (forall c :: c in text ==> c !in substitutionMap || substitutionMap[c] == "") ==> r == text
  {
    if text == [] then []
    else
      var c := text[0];
      assert text == [c] + text[1..];
      (if c in substitutionMap && substitutionMap[c] != "" then substitutionMap[c] else [c])
      + Substitute(text[1..], substitutionMap)
  }

  /** With one-character entries (the input box takes at most one character)
      the substitution works character by character. */
  lemma {:induction false} SubstituteCharwise(text: string, substitutionMap: map<char, string>)
    requires forall c :: c in substitutionMap ==> |substitutionMap[c]| <= 1
    ensures var r := Substitute(text, substitutionMap);
      && |r| == |text|
      && forall i :: 0 <= i < |text| ==>
           r[i] == if text[i] in substitutionMap && substitutionMap[text[i]] != ""
                   then substitutionMap[text[i]][0] else text[i]
  {
    if text != [] {
      SubstituteCharwise(text[1..], substitutionMap);
    }
  }

  /** A substitution that pairs every glyph with its letter decodes a symbol
      cipher text exactly as the cipher's own decoder does. */
  lemma FullSubstitutionDecodes(text: string, substitutionMap: map<char, string>,
                                reverseMapping: map<char, char>)
    requires forall g :: g in substitutionMap <==> g in reverseMapping
    requires forall g :: g in reverseMapping ==> substitutionMap[g] == [reverseMapping[g]]
    ensures Substitute(text, substitutionMap) == Symbol.Decode(text, reverseMapping)
  {
    SubstituteCharwise(text, substitutionMap);
  }

  /** The substitution being built by hand. */
  class SubstitutionTool {
    var substitutionMap: map<char, string>

    constructor ()
      ensures substitutionMap == map[]
    {
      substitutionMap := map[];
    }

    /** `updateSubstitution`: the symbol's entry becomes the upper-cased
        letter; every other entry stays. */
    method UpdateSubstitution(symbol: char, letter: string)
      modifies this
      ensures symbol in substitutionMap && substitutionMap[symbol] == Upper(letter)
      ensures forall c :: c != symbol ==> (c in substitutionMap <==> c in old(substitutionMap))
      ensures forall c :: c != symbol && c in substitutionMap ==> substitutionMap[c] == old(substitutionMap)[c]
    {
      substitutionMap := substitutionMap[symbol := Upper(letter)];
    }

    /** `clearSubstitution`: every entry is dropped. */
    method ClearSubstitution()
      modifies this
      ensures substitutionMap == map[]
    {
      substitutionMap := map[];
    }
  }

  // ---------------------------------------------------------------------
  // Symbols and tool list
  // ---------------------------------------------------------------------

  /** Every non-space character of `text` occurs in `RemoveSpaces(text)`, and only those. */
  lemma {:induction false} RemoveSpacesMembers(text: string, c: char)
    ensures c in RemoveSpaces(text) <==> c in text && c != ' '
  {
    if text != [] {
      RemoveSpacesMembers(text[1..], c);
      assert text == [text[0]] + text[1..];
    }
  }

  /** `getUniqueSymbols`: the non-space characters, each once, in order of
      first appearance. */
  function UniqueSymbols(text: string): (r: seq<char>)
    ensures Distinct(r)
    ensures forall c :: c in r <==> c in text && c != ' '
    ensures forall i, j :: 0 <= i < j < |r| ==> FirstIndex(text, r[i]) < FirstIndex(text, r[j])
  {
    NonSpaceFirstOccurrences(text);
    Dedup(RemoveSpaces(text))
  }

  /** The de-duplicated non-space characters are those of the text, in the
      order of their first occurrence in the text. */
  lemma NonSpaceFirstOccurrences(text: string)
    ensures var r := Dedup(RemoveSpaces(text));
      && (forall c :: c in r <==> c in text && c != ' ')
      && (forall i, j :: 0 <= i < j < |r| ==> FirstIndex(text, r[i]) < FirstIndex(text, r[j]))
  {
    var nonSpace := RemoveSpaces(text);
    forall c ensures c in nonSpace <==> c in text && c != ' ' {
      RemoveSpacesMembers(text, c);
    }
    var r := Dedup(nonSpace);
    forall i, j | 0 <= i < j < |r| ensures FirstIndex(text, r[i]) < FirstIndex(text, r[j]) {
      DedupOrderInText(text, r[i], r[j]);
    }
  }

  /** Two distinct non-space characters keep, in the text, the order of
      their first occurrences among the non-space characters. */
  lemma DedupOrderInText(text: string, a: char, b: char)
    requires a in RemoveSpaces(text) && b in RemoveSpaces(text) && a != b
    requires FirstIndex(RemoveSpaces(text), a) < FirstIndex(RemoveSpaces(text), b)
    ensures a in text && b in text && FirstIndex(text, a) < FirstIndex(text, b)
  {
    RemoveSpacesMembers(text, a);
    RemoveSpacesMembers(text, b);
    var fa, fb := FirstIndex(text, a), FirstIndex(text, b);
    if fb < fa {
      RemoveSpacesKeepsOrder(text, b, a);
    }
  }

  /** Dropping spaces keeps the order of first occurrences. */
  lemma {:induction false} RemoveSpacesKeepsOrder(text: string, a: char, b: char)
    requires a in text && b in text && a != ' ' && b != ' '
    requires FirstIndex(text, a) < FirstIndex(text, b)
    ensures a in RemoveSpaces(text) && b in RemoveSpaces(text)
    ensures FirstIndex(RemoveSpaces(text), a) < FirstIndex(RemoveSpaces(text), b)
  {
    RemoveSpacesMembers(text, a);
    RemoveSpacesMembers(text, b);
    var rest := text[1..];
    var r := RemoveSpaces(text);
    assert text[0] != b;
    if text[0] == a {
      assert r[0] == a;
    } else {
      assert a in rest && b in rest;
      assert FirstIndex(text, a) == 1 + FirstIndex(rest, a);
      assert FirstIndex(text, b) == 1 + FirstIndex(rest, b);
      RemoveSpacesKeepsOrder(rest, a, b);
      if text[0] == ' ' {
        assert r == RemoveSpaces(rest);
      } else {
        assert r == [text[0]] + RemoveSpaces(rest);
        assert r[1..] == RemoveSpaces(rest);
      }
    }
  }

  /** `getToolsForPuzzleType` on the puzzle's `type`. */
  function ToolsFor(puzzleType: string): (tools: seq<string>)
    ensures |tools| > 0 && tools[0] == "frequency"
    ensures "caesar" in tools <==> puzzleType == "caesar"
    ensures "substitution" in tools <==> puzzleType == "symbol"
    ensures Distinct(tools)
  {
    match puzzleType
    case "caesar" => ["frequency", "caesar"]
    case "vigenere" => ["frequency"]
    case "symbol" => ["frequency", "substitution"]
    case _ => ["frequency"]
  }
}
