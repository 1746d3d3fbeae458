/** The game session: a queue of generated puzzles walked by a cursor, an
    adaptive difficulty level, the player's counters and the final score. */
module Game {
  import opened Wrappers
  import opened Text
  import opened Puzzles
  import Caesar
  import Vigenere
  import Symbol

  // ---------------------------------------------------------------------
  // Puzzle generation
  // ---------------------------------------------------------------------

  datatype CipherType = CaesarCipher | VigenereCipher | SymbolCipher

  /** The `CIPHER_TYPES` entry for a cipher kind. */
  function CipherName(c: CipherType): string {
    match c
    case CaesarCipher => "caesar"
    case VigenereCipher => "vigenere"
    case SymbolCipher => "symbol"
  }

  /** The random choices behind one generated puzzle: the cipher kind, the
      cipher parameter (shift offset or keyword index), the word index, and
      the shuffled glyph palette. */
  datatype Draw = Draw(cipher: CipherType, paramPick: nat, wordPick: nat, shuffled: seq<char>)

  /** The word bank the generators draw from: non-empty, capitals and spaces. */
  predicate WellFormedBank(bank: seq<string>) {
    |bank| > 0 && forall w :: w in bank ==> IsBankText(w)
  }

  /** The draw is one the generator for its cipher can make at level `d`. */
  predicate DrawFits(bank: seq<string>, d: int, draw: Draw) {
    match draw.cipher
    case CaesarCipher =>
      |bank| > 0 && d >= 1 && draw.paramPick <= Caesar.MaxShift(d) - Caesar.MinShift(d)
      && draw.wordPick < |Caesar.Words(bank, d)|
    case VigenereCipher => draw.paramPick < |Vigenere.KEYWORDS| && draw.wordPick < |bank|
    case SymbolCipher => Symbol.IsShuffle(draw.shuffled) && draw.wordPick < |Symbol.Words(bank, d)|
  }

  /** `p` is the puzzle the cipher's generator returns for `draw` at level `d`. */
  ghost predicate Generated(p: Puzzle, bank: seq<string>, d: int, draw: Draw) {
    && DrawFits(bank, d, draw)
    && match draw.cipher
       case CaesarCipher => p == Caesar.GeneratePuzzle(bank, d, draw.paramPick, draw.wordPick)
       case VigenereCipher => p == Vigenere.GeneratePuzzle(bank, draw.paramPick, draw.wordPick)
       case SymbolCipher =>
         && p.SymbolPuzzle? && p.difficulty == d
         && Symbol.IsBijection(p.mapping, p.reverseMapping)
         && |draw.shuffled| == 26
         && (forall i :: 0 <= i < 26 ==> p.mapping[Letter(i)] == draw.shuffled[i])
         && p.answer == Symbol.Words(bank, d)[draw.wordPick]
         && p.encoded == Symbol.Encode(p.answer, p.mapping)
         && p.hint == Symbol.HintFor(d)
  }

  /** The `i`-th puzzle of `batch` is the one generated from the `i`-th draw. */
  ghost predicate GeneratedAt(batch: seq<Puzzle>, bank: seq<string>, d: int, draws: seq<Draw>, i: nat) {
    i < |batch| && i < |draws| && Generated(batch[i], bank, d, draws[i])
  }

  /** Every puzzle of `batch` is generated from the draw at its position. */
  ghost predicate GeneratedBatch(batch: seq<Puzzle>, bank: seq<string>, d: int, draws: seq<Draw>) {
    |batch| <= |draws| && forall i :: 0 <= i < |batch| ==> GeneratedAt(batch, bank, d, draws, i)
  }

  /** A puzzle whose cipher text is its bank answer under its own key. */
  ghost predicate ValidPuzzle(p: Puzzle, bank: seq<string>) {
    && p.answer in bank
    && match p
       case CaesarPuzzle(d, encoded, answer, hint, shift) =>
         && 1 <= shift <= 25 && encoded == Caesar.Encode(answer, shift)
         && (if d <= 2 then hint == CaesarShiftHint(shift) else hint == CaesarPatternHint)
       case VigenerePuzzle(encoded, answer, hint, keyword) =>
         && keyword in Vigenere.KEYWORDS && Vigenere.ValidKeyword(keyword)
         && encoded == Vigenere.Encode(answer, keyword)
         && hint == VigenereKeywordHint(keyword)
       case SymbolPuzzle(d, encoded, answer, hint, mapping, reverseMapping) =>
         && Symbol.IsBijection(mapping, reverseMapping)
         && encoded == Symbol.Encode(answer, mapping)
         && hint == Symbol.HintFor(d)
  }

  /** Every puzzle of the list is valid. */
  ghost predicate AllValid(puzzles: seq<Puzzle>, bank: seq<string>) {
    forall p :: p in puzzles ==> ValidPuzzle(p, bank)
  }

  lemma AllValidAppend(a: seq<Puzzle>, b: seq<Puzzle>, bank: seq<string>)
    requires AllValid(a, bank) && AllValid(b, bank)
    ensures AllValid(a + b, bank)
  {
    forall p | p in a + b ensures ValidPuzzle(p, bank) {
      assert p in a || p in b;
    }
  }

  /** The puzzle carries a difficulty in 1..5, or none (Vigenère). */
  predicate InLevelRange(p: Puzzle) {
    p.VigenerePuzzle? || 1 <= p.difficulty <= 5
  }

  /** Decoding the cipher text with the puzzle's own key. */
  function Solution(p: Puzzle): string
    requires p.VigenerePuzzle? ==> Vigenere.ValidKeyword(p.keyword)
  {
    match p
    case CaesarPuzzle(_, encoded, _, _, shift) => Caesar.Decode(encoded, shift)
    case VigenerePuzzle(encoded, _, _, keyword) => Vigenere.Decode(encoded, keyword)
    case SymbolPuzzle(_, encoded, _, _, _, reverseMapping) => Symbol.Decode(encoded, reverseMapping)
  }

  /** Every valid puzzle decodes to its answer; Vigenère loses the spaces. */
  lemma PuzzleDecodes(p: Puzzle, bank: seq<string>)
    requires WellFormedBank(bank) && ValidPuzzle(p, bank)
    ensures Solution(p) == if p.VigenerePuzzle? then RemoveSpaces(p.answer) else p.answer
  {
    UpperOfBankText(p.answer);
    match p
    case CaesarPuzzle(_, _, answer, _, shift) =>
      Caesar.DecodeEncode(answer, shift);
    case VigenerePuzzle(_, answer, _, keyword) =>
      Vigenere.DecodeEncode(answer, keyword);
      Vigenere.NormalizeBankText(answer);
    case SymbolPuzzle(_, _, answer, _, mapping, reverseMapping) =>
      Symbol.BankTextHasNoGlyph(answer);
      Symbol.DecodeEncode(answer, mapping, reverseMapping);
  }

  /** What each generator promises makes its puzzle valid. */
  lemma GeneratedIsValid(p: Puzzle, bank: seq<string>, d: int, draw: Draw)
    requires Generated(p, bank, d, draw)
    ensures ValidPuzzle(p, bank)
  {
    match draw.cipher
    case CaesarCipher => CaesarGeneratedIsValid(p, bank, d, draw);
    case VigenereCipher => VigenereGeneratedIsValid(p, bank, d, draw);
    case SymbolCipher => SymbolGeneratedIsValid(p, bank, d, draw);
  }

  lemma CaesarGeneratedIsValid(p: Puzzle, bank: seq<string>, d: int, draw: Draw)
    requires draw.cipher == CaesarCipher && Generated(p, bank, d, draw)
    ensures ValidPuzzle(p, bank)
  {
  }

  lemma VigenereGeneratedIsValid(p: Puzzle, bank: seq<string>, d: int, draw: Draw)
    requires draw.cipher == VigenereCipher && Generated(p, bank, d, draw)
    ensures ValidPuzzle(p, bank)
  {
  }

  lemma SymbolGeneratedIsValid(p: Puzzle, bank: seq<string>, d: int, draw: Draw)
    requires draw.cipher == SymbolCipher && Generated(p, bank, d, draw)
    ensures ValidPuzzle(p, bank)
  {
    assert p.answer in Symbol.Words(bank, d);
  }

  /** One call of the generator `CIPHER_GENERATORS[cipherType]`. */
  method GeneratePuzzle(bank: seq<string>, d: int, draw: Draw) returns (p: Puzzle)
    requires DrawFits(bank, d, draw)
    ensures Generated(p, bank, d, draw)
    ensures TypeName(p) == CipherName(draw.cipher)
    ensures p.VigenerePuzzle? || p.difficulty == d
  {
    match draw.cipher {
      case CaesarCipher =>
        p := Caesar.GeneratePuzzle(bank, d, draw.paramPick, draw.wordPick);
      case VigenereCipher =>
        p := Vigenere.GeneratePuzzle(bank, draw.paramPick, draw.wordPick);
      case SymbolCipher =>
        p := Symbol.GeneratePuzzle(bank, d, draw.shuffled, draw.wordPick);
    }
  }

  /** `generatePuzzleBatch`: `batchSize` puzzles at difficulty `d`, the i-th
      one from the i-th draw. */
  method GeneratePuzzleBatch(bank: seq<string>, d: int, batchSize: nat, draws: seq<Draw>)
    returns (batch: seq<Puzzle>)
    requires |draws| >= batchSize
    requires forall i :: 0 <= i < batchSize ==> DrawFits(bank, d, draws[i])
    ensures |batch| == batchSize && GeneratedBatch(batch, bank, d, draws)
  {
    batch := [];
    for i := 0 to batchSize
      invariant |batch| == i && GeneratedBatch(batch, bank, d, draws)
    {
      var puzzle := GeneratePuzzle(bank, d, draws[i]);
      GeneratedBatchAppend(batch, puzzle, bank, d, draws);
      batch := batch + [puzzle];
    }
  }

  /** Appending the puzzle generated from the next draw keeps a batch generated. */
  lemma GeneratedBatchAppend(batch: seq<Puzzle>, p: Puzzle, bank: seq<string>, d: int, draws: seq<Draw>)
    requires GeneratedBatch(batch, bank, d, draws) && |batch| < |draws|
    requires Generated(p, bank, d, draws[|batch|])
    ensures GeneratedBatch(batch + [p], bank, d, draws)
  {
    forall j | 0 <= j <= |batch| ensures GeneratedAt(batch + [p], bank, d, draws, j) {
      if j < |batch| {
        assert GeneratedAt(batch, bank, d, draws, j);
      }
    }
  }

  /** A generated batch holds valid puzzles at its level. */
  lemma BatchIsValid(batch: seq<Puzzle>, bank: seq<string>, d: int, draws: seq<Draw>)
    requires GeneratedBatch(batch, bank, d, draws)
    ensures AllValid(batch, bank)
    ensures forall p :: p in batch ==> p.VigenerePuzzle? || p.difficulty == d
  {
    forall p | p in batch ensures ValidPuzzle(p, bank) && (p.VigenerePuzzle? || p.difficulty == d) {
      var i :| 0 <= i < |batch| && batch[i] == p;
      assert GeneratedAt(batch, bank, d, draws, i);
      GeneratedIsValid(p, bank, d, draws[i]);
    }
  }

  // ---------------------------------------------------------------------
  // Score
  // ---------------------------------------------------------------------

  datatype Stats = Stats(hintsUsed: nat, puzzlesSkipped: nat, puzzlesSolved: nat, totalScore: int)

  const NEW_STATS: Stats := Stats(0, 0, 0, 0)

  /** `⌊(120 − seconds/index)·10⌋` when the average time per puzzle is under
      two minutes, else nothing (also when `index` is 0). */
  function SpeedBonus(seconds: nat, index: nat): (b: int)
    ensures 0 <= b <= 1200
    ensures index == 0 || seconds >= 120 * index ==> b == 0
    ensures index > 0 && seconds < 120 * index ==>
      b * index <= 1200 * index - 10 * seconds < (b + 1) * index
  {
    if index > 0 && seconds < 120 * index then (1200 * index - 10 * seconds) / index else 0
  }

  /** `(900 − seconds)·2` when the game took under fifteen minutes. */
  function TimeBonus(seconds: nat): (b: int)
    ensures 0 <= b <= 1800
    ensures b > 0 <==> seconds < 900
  {
    if seconds < 900 then (900 - seconds) * 2 else 0
  }

  /** The score: base points, both bonuses, the penalties, clamped at 0. */
  function Score(stats: Stats, index: nat, seconds: nat): (r: int)
    ensures 0 <= r <= 1000 * stats.puzzlesSolved + 3000
    ensures r >= 1000 * stats.puzzlesSolved - 100 * stats.hintsUsed - 500 * stats.puzzlesSkipped
  {
    var raw := 1000 * stats.puzzlesSolved + SpeedBonus(seconds, index) + TimeBonus(seconds)
      - 100 * stats.hintsUsed - 500 * stats.puzzlesSkipped;
    if raw < 0 then 0 else raw
  }

  /** `calculateScore`: the total accumulated step by step. */
  method CalculateScore(stats: Stats, index: nat, seconds: nat) returns (total: int)
    ensures total == Score(stats, index, seconds)
  {
    total := 0;
    total := total + stats.puzzlesSolved * 1000;
    if index > 0 && seconds < 120 * index {
      var speedBonus := (1200 * index - 10 * seconds) / index;
      total := total + speedBonus;
    }
    if seconds < 900 {
      var timeBonus := (900 - seconds) * 2;
      total := total + timeBonus;
    }
    total := total - stats.hintsUsed * 100;
    total := total - stats.puzzlesSkipped * 500;
    if total < 0 {
      total := 0;
    }
  }

  /** Taking longer never raises the speed bonus. */
  lemma SpeedBonusAntitone(s1: nat, s2: nat, index: nat)
    requires s1 <= s2
    ensures SpeedBonus(s2, index) <= SpeedBonus(s1, index)
  {
  }

  /** Taking longer never raises the score. */
  lemma ScoreAntitoneInTime(stats: Stats, index: nat, s1: nat, s2: nat)
    requires s1 <= s2
    ensures Score(stats, index, s2) <= Score(stats, index, s1)
  {
    SpeedBonusAntitone(s1, s2, index);
  }

  /** Each extra hint or skip costs at most its penalty and never adds. */
  lemma PenaltiesLowerScore(stats: Stats, index: nat, seconds: nat)
    ensures Score(stats.(hintsUsed := stats.hintsUsed + 1), index, seconds) <= Score(stats, index, seconds)
    ensures Score(stats.(hintsUsed := stats.hintsUsed + 1), index, seconds) >= Score(stats, index, seconds) - 100
    ensures Score(stats.(puzzlesSkipped := stats.puzzlesSkipped + 1), index, seconds) <= Score(stats, index, seconds)
    ensures Score(stats.(puzzlesSkipped := stats.puzzlesSkipped + 1), index, seconds) >= Score(stats, index, seconds) - 500
  {
  }

  // ---------------------------------------------------------------------
  // Difficulty
  // ---------------------------------------------------------------------

  /** The level after a correct answer: one up when the puzzle was solved
      within the rough time estimate, without the hint, below the top level. */
  function LevelAfterSolve(level: int, hinted: bool, seconds: int, index: int): (r: int)
    requires 1 <= level <= 5
    ensures 1 <= r <= 5
    ensures r == level + 1 <==> seconds - index * 120 < 60 && !hinted && level < 5
    ensures r == level || r == level + 1
  {
    if seconds - index * 120 < 60 && !hinted && level < 5 then Min(level + 1, 5) else level
  }

  /** The level after a skip: one down unless already at the bottom. */
  function LevelAfterSkip(level: int): (r: int)
    requires 1 <= level <= 5
    ensures 1 <= r <= 5
    ensures r == level - 1 <==> level > 1
    ensures r == level || r == level - 1
  {
    if level > 1 then Max(level - 1, 1) else level
  }

  function Min(a: int, b: int): int { if a <= b then a else b }
  function Max(a: int, b: int): int { if a >= b then a else b }

  // ---------------------------------------------------------------------
  // Session
  // ---------------------------------------------------------------------

  datatype GameState = Waiting | Playing | Completed

  datatype Feedback = Neutral | Correct | Incorrect

  /** The number of puzzles after which the game ends. */
  const GAME_LENGTH: nat := 15

  /** The values a handler closes over: the state as of the last render. */
  datatype View = View(queue: seq<Puzzle>, index: nat, level: int, showHint: bool, stats: Stats)

  /** What the player may submit: trimmed, upper-cased and not blank. */
  predicate Submittable(answer: string) {
    && |answer| > 0 && Upper(answer) == answer
    && !IsJsWhitespace(answer[0]) && !IsJsWhitespace(answer[|answer| - 1])
  }

  class Session {
    const bank: seq<string>
    var state: GameState
    var queue: seq<Puzzle>
    var index: nat
    var level: int
    var showHint: bool
    var feedback: Feedback
    var stats: Stats
    var current: Option<Puzzle>

    /** Facts that hold between handlers and while one is half done. */
    ghost predicate Common()
      reads this
    {
      && 1 <= level <= 5
      && stats.puzzlesSolved + stats.puzzlesSkipped == index
      && AllValid(queue, bank)
      && forall p :: p in queue ==> InLevelRange(p)
    }

    /** The session shows the puzzle at cursor `k`: waiting sessions hold
        nothing; otherwise the queue runs at least two past the cursor, the
        current puzzle is the one at the cursor (the last shown once the
        game is over), and the game is over exactly from cursor 15 on. */
    ghost predicate Showing(k: nat)
      reads this
    {
      if state == Waiting then queue == [] && index == 0 && current == None
      else
        && |queue| >= k + 2
        && current == Some(queue[Min(k, GAME_LENGTH - 1)])
        && (state == Completed <==> k >= GAME_LENGTH)
    }

    ghost predicate Valid()
      reads this
    {
      Common() && Showing(index)
    }

    function Snapshot(): View
      reads this
    {
      View(queue, index, level, showHint, stats)
    }

    /** The session before its first render. */
    constructor (bank: seq<string>)
      ensures this.bank == bank && Valid()
      ensures state == Waiting && queue == [] && index == 0 && level == 1
      ensures !showHint && feedback == Neutral && stats == NEW_STATS && current == None
    {
      this.bank := bank;
      state := Waiting;
      queue := [];
      index := 0;
      level := 1;
      showHint := false;
      feedback := Neutral;
      stats := NEW_STATS;
      current := None;
    }

    /** `startGame`: six fresh puzzles at level 1, everything counted from
        zero, the first puzzle shown. The hint flag and the feedback are
        left as they were. */
    method StartGame(draws: seq<Draw>)
      requires Valid()
      requires |draws| >= 6 && forall i :: 0 <= i < 6 ==> DrawFits(bank, 1, draws[i])
      modifies this
      ensures Valid()
      ensures state == Playing && index == 0 && level == 1 && stats == NEW_STATS
      ensures |queue| == 6 && GeneratedBatch(queue, bank, 1, draws)
      ensures current == Some(queue[0])
      ensures showHint == old(showHint) && feedback == old(feedback)
    {
      var initialPuzzles := GeneratePuzzleBatch(bank, 1, 6, draws);
      BatchIsValid(initialPuzzles, bank, 1, draws);
      queue := initialPuzzles;
      index := 0;
      level := 1;
      state := Playing;
      stats := NEW_STATS;
      current := Some(initialPuzzles[0]);
      assert current == Some(queue[0]);
    }

    /** `completeGame`: the score computed from the rendered state `v` is
        stored, on top of any counter updates already made. */
    method CompleteGame(v: View, seconds: nat)
      modifies this
      ensures stats == old(stats).(totalScore := Score(v.stats, v.index, seconds))
      ensures state == Completed
      ensures queue == old(queue) && index == old(index) && level == old(level) && current == old(current)
      ensures showHint == old(showHint) && feedback == old(feedback)
    {
      var finalScore := CalculateScore(v.stats, v.index, seconds);
      stats := stats.(totalScore := finalScore);
      state := Completed;
    }

    /** `generateNextPuzzle(puzzleIndex)` as called by a handler rendered
        with `v`, after it advanced the cursor: three puzzles at the rendered
        level are appended when the cursor reaches the queue's last slot;
        from cursor 15 on the game completes, otherwise the puzzle under the
        cursor is shown with a fresh hint flag and feedback. */
    method GenerateNextPuzzle(v: View, puzzleIndex: nat, seconds: nat, draws: seq<Draw>)
      requires Common() && state != Waiting && Showing(v.index)
      requires v.queue == queue && puzzleIndex == index == v.index + 1 && 1 <= v.level <= 5
      requires |draws| >= 3 && forall i :: 0 <= i < 3 ==> DrawFits(bank, v.level, draws[i])
      modifies this
      ensures Valid()
      ensures puzzleIndex < |old(queue)| - 1 ==> queue == old(queue)
      ensures puzzleIndex >= |old(queue)| - 1 ==>
        && |queue| == |old(queue)| + 3 && queue[..|old(queue)|] == old(queue)
        && GeneratedBatch(queue[|old(queue)|..], bank, v.level, draws)
      ensures index == old(index) && level == old(level)
      ensures puzzleIndex >= GAME_LENGTH ==>
        && state == Completed && stats == old(stats).(totalScore := Score(v.stats, v.index, seconds))
        && current == old(current) && showHint == old(showHint) && feedback == old(feedback)
      ensures puzzleIndex < GAME_LENGTH ==>
        && state == old(state) && stats == old(stats)
        && current == Some(v.queue[puzzleIndex]) && !showHint && feedback == Neutral
    {
      if puzzleIndex >= |v.queue| - 1 {
        var newBatch := GeneratePuzzleBatch(bank, v.level, 3, draws);
        BatchIsValid(newBatch, bank, v.level, draws);
        AllValidAppend(queue, newBatch, bank);
        queue := queue + newBatch;
        assert queue[..|old(queue)|] == old(queue) && queue[|old(queue)|..] == newBatch;
      }
      if puzzleIndex >= GAME_LENGTH {
        CompleteGame(v, seconds);
        return;
      }
      if puzzleIndex < |v.queue| {
        current := Some(v.queue[puzzleIndex]);
        showHint := false;
        feedback := Neutral;
      }
    }

    /** `handleSubmit`: an exact match counts the solve, may raise the
        level, advances the cursor and moves on; anything else only flags
        the answer as wrong. With no puzzle shown nothing happens. */
    method HandleSubmit(answer: string, seconds: nat, draws: seq<Draw>)
      requires Valid() && Submittable(answer)
      requires |draws| >= 3 && forall i :: 0 <= i < 3 ==> DrawFits(bank, level, draws[i])
      modifies this
      ensures Valid()
      ensures old(current) == None ==> unchanged(this)
      ensures old(current).Some? && answer != old(current).value.answer ==>
        && feedback == Incorrect
        && state == old(state) && queue == old(queue) && index == old(index) && level == old(level)
        && showHint == old(showHint) && stats == old(stats) && current == old(current)
      ensures old(current).Some? && answer == old(current).value.answer ==>
        && index == old(index) + 1
        && level == LevelAfterSolve(old(level), old(showHint), seconds, old(index))
        && stats.puzzlesSolved == old(stats).puzzlesSolved + 1
        && stats.puzzlesSkipped == old(stats).puzzlesSkipped && stats.hintsUsed == old(stats).hintsUsed
        && (index < |old(queue)| - 1 ==> queue == old(queue))
        && (index >= |old(queue)| - 1 ==>
              |queue| == |old(queue)| + 3 && queue[..|old(queue)|] == old(queue)
              && GeneratedBatch(queue[|old(queue)|..], bank, old(level), draws))
        && (index >= GAME_LENGTH ==>
              && state == Completed && feedback == Correct
              && stats.totalScore == Score(old(stats), old(index), seconds)
              && current == old(current) && showHint == old(showHint))
        && (index < GAME_LENGTH ==>
              && state == old(state) && stats.totalScore == old(stats).totalScore
              && current == Some(queue[index]) && !showHint && feedback == Neutral)
    {
      var v := Snapshot();
      if current == None {
        return;
      }
      var isCorrect := answer == current.value.answer;
      if isCorrect {
        feedback := Correct;
        stats := stats.(puzzlesSolved := stats.puzzlesSolved + 1);
        if seconds - v.index * 120 < 60 && !v.showHint && v.level < 5 {
          level := Min(level + 1, 5);
        }
        var nextIndex := v.index + 1;
        index := nextIndex;
        GenerateNextPuzzle(v, nextIndex, seconds, draws);
      } else {
        feedback := Incorrect;
      }
    }

    /** The timeout after a wrong answer: the feedback returns to neutral. */
    method ClearFeedback()
      requires Valid()
      modifies this
      ensures Valid() && feedback == Neutral
      ensures state == old(state) && queue == old(queue) && index == old(index) && level == old(level)
      ensures showHint == old(showHint) && stats == old(stats) && current == old(current)
    {
      feedback := Neutral;
    }

    /** `handleSkip`: counts the skip, lowers the level unless at the
        bottom, advances the cursor and moves on. */
    method HandleSkip(seconds: nat, draws: seq<Draw>)
      requires Valid() && state != Waiting
      requires |draws| >= 3 && forall i :: 0 <= i < 3 ==> DrawFits(bank, level, draws[i])
      modifies this
      ensures Valid()
      ensures index == old(index) + 1
      ensures level == LevelAfterSkip(old(level))
      ensures stats.puzzlesSkipped == old(stats).puzzlesSkipped + 1
      ensures stats.puzzlesSolved == old(stats).puzzlesSolved && stats.hintsUsed == old(stats).hintsUsed
      ensures index < |old(queue)| - 1 ==> queue == old(queue)
      ensures index >= |old(queue)| - 1 ==>
        && |queue| == |old(queue)| + 3 && queue[..|old(queue)|] == old(queue)
        && GeneratedBatch(queue[|old(queue)|..], bank, old(level), draws)
      ensures index >= GAME_LENGTH ==>
        && state == Completed && stats.totalScore == Score(old(stats), old(index), seconds)
        && current == old(current) && showHint == old(showHint) && feedback == old(feedback)
      ensures index < GAME_LENGTH ==>
        && state == old(state) && stats.totalScore == old(stats).totalScore
        && current == Some(queue[index]) && !showHint && feedback == Neutral
    {
      var v := Snapshot();
      stats := stats.(puzzlesSkipped := stats.puzzlesSkipped + 1);
      if v.level > 1 {
        level := Max(level - 1, 1);
      }
      var nextIndex := v.index + 1;
      index := nextIndex;
      GenerateNextPuzzle(v, nextIndex, seconds, draws);
    }

    /** `handleHint`: every call counts a hint and shows it. */
    method HandleHint()
      requires Valid()
      modifies this
      ensures Valid() && showHint
      ensures stats == old(stats).(hintsUsed := old(stats).hintsUsed + 1)
      ensures state == old(state) && queue == old(queue) && index == old(index) && level == old(level)
      ensures feedback == old(feedback) && current == old(current)
    {
      stats := stats.(hintsUsed := stats.hintsUsed + 1);
      showHint := true;
    }

    /** `restartGame`: back to the waiting session; the new game starts
        from there with `StartGame`. */
    method RestartGame()
      requires Valid()
      modifies this
      ensures Valid()
      ensures state == Waiting && queue == [] && index == 0 && level == 1
      ensures !showHint && feedback == Neutral && stats == NEW_STATS && current == None
    {
      index := 0;
      current := None;
      queue := [];
      level := 1;
      state := Waiting;
      showHint := false;
      feedback := Neutral;
      stats := NEW_STATS;
    }
  }

  /** In a started session the puzzle on screen exists and decodes to its
      answer (without spaces for Vigenère). */
  lemma ShownPuzzleSolvable(s: Session)
    requires s.Valid() && s.state != Waiting && WellFormedBank(s.bank)
    ensures s.current.Some? && s.current.value in s.queue
    ensures var p := s.current.value;
      Solution(p) == if p.VigenerePuzzle? then RemoveSpaces(p.answer) else p.answer
  {
    PuzzleDecodes(s.current.value, s.bank);
  }
}
