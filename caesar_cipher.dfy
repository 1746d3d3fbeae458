/** The shift (Caesar) cipher and its puzzle generator. */
module Caesar {
  import opened Text
  import opened Puzzles

  /** JavaScript's `%`: the remainder has the sign of the dividend. */
  function JsRem(a: int, n: int): (r: int)
    requires n > 0
    ensures -n < r < n && (a - r) % n == 0
    ensures a >= 0 ==> r == a % n
    ensures a < 0 ==> r <= 0
  {
    if a >= 0 then
      MultipleRem(a / n, n);
      a % n
    else
      var q, m := -((-a) / n), (-a) % n;
      assert a - (-m) == q * n;
      MultipleRem(q, n);
      -m
  }

  /** A multiple of `n` leaves no remainder. */
  lemma MultipleRem(q: int, n: int)
    requires n > 0
    ensures (q * n) % n == 0
  {
    var d, m := (q * n) / n, (q * n) % n;
    var k := q - d;
    assert k * n == m by {
      assert q * n == d * n + m;
    }
  }

  /** One character of the shift after upper-casing:
      `String.fromCharCode(((c - 65 + shift) % 26) + 65)` on 'A'..'Z'. */
  function ShiftChar(c: char, shift: int): (r: char)
    ensures !IsUpper(c) ==> r == c
    ensures IsUpper(c) && shift >= 0 ==> IsUpper(r) && r as int - 65 == (c as int - 65 + shift) % 26
  {
    if IsUpper(c) then (JsRem(c as int - 65 + shift, 26) + 65) as char else c
  }

  /** `caesarEncode`: upper-case the text, then shift each capital letter;
      every other character, spaces included, is kept in place. */
  function Encode(text: string, shift: int): (r: string)
    ensures |r| == |text|
    ensures forall i :: 0 <= i < |r| && !IsUpper(Upper(text)[i]) ==> r[i] == Upper(text)[i]
    ensures shift >= 0 ==> forall i :: 0 <= i < |r| && IsUpper(Upper(text)[i]) ==>
      IsUpper(r[i]) && r[i] as int - 65 == (Upper(text)[i] as int - 65 + shift) % 26
  {
    var u := Upper(text);
    seq(|u|, i requires 0 <= i < |u| => ShiftChar(u[i], shift))
  }

  /** `caesarDecode`: encoding with the complementary shift. */
  function Decode(text: string, shift: int): (r: string)
    ensures |r| == |text|
    ensures forall i :: 0 <= i < |r| && !IsUpper(Upper(text)[i]) ==> r[i] == Upper(text)[i]
    ensures 0 <= shift <= 26 ==> forall i :: 0 <= i < |r| && IsUpper(Upper(text)[i]) ==>
      IsUpper(r[i]) && (r[i] as int - 65 + shift) % 26 == Upper(text)[i] as int - 65
  {
    ComplementUndoesShift(text, shift);
    Encode(text, 26 - shift)
  }

  /** Shifting by `26 - s` moves each capital `s` places back. */
  lemma ComplementUndoesShift(text: string, s: int)
    ensures 0 <= s <= 26 ==> forall i :: 0 <= i < |text| && IsUpper(Upper(text)[i]) ==>
      IsUpper(Encode(text, 26 - s)[i]) &&
      (Encode(text, 26 - s)[i] as int - 65 + s) % 26 == Upper(text)[i] as int - 65
  {
    if 0 <= s <= 26 {
      var e := Encode(text, 26 - s);
      forall i | 0 <= i < |text| && IsUpper(Upper(text)[i])
        ensures IsUpper(e[i]) && (e[i] as int - 65 + s) % 26 == Upper(text)[i] as int - 65
      {
        var x := Upper(text)[i] as int - 65;
        assert e[i] as int - 65 == (x - s + 26) % 26;
        UnshiftThenShift(x, s);
      }
    }
  }

  /** Shifting a capital by `s` and then by `26 - s` gives it back. */
  lemma ShiftCharRoundTrip(c: char, s: int)
    requires IsUpper(c) && 0 <= s <= 26
    ensures ShiftChar(ShiftChar(c, s), 26 - s) == c
  {
    var x := c as int - 65;
    var y := (x + s) % 26;
    assert (y + 26 - s) % 26 == x by {
      if x + s < 26 {
        assert y == x + s;
      } else {
        assert y == x + s - 26;
      }
    }
  }

  /** Decoding undoes encoding, up to upper-casing, for shifts 0..26. */
  lemma DecodeEncode(t: string, s: int)
    requires 0 <= s <= 26
    ensures Decode(Encode(t, s), s) == Upper(t)
  {
    var e := Encode(t, s);
    var d := Decode(e, s);
    forall i | 0 <= i < |t| ensures d[i] == Upper(t)[i] {
      var c := Upper(t)[i];
      assert Upper(e)[i] == e[i];
      if IsUpper(c) {
        ShiftCharRoundTrip(c, s);
      }
    }
  }

  /** A shift of 0 or 26 only upper-cases. */
  lemma EncodeWholeTurn(t: string, s: int)
    requires s == 0 || s == 26
    ensures Encode(t, s) == Upper(t)
  {
    var e := Encode(t, s);
    forall i | 0 <= i < |t| ensures e[i] == Upper(t)[i] {
      var c := Upper(t)[i];
      if IsUpper(c) {
        assert (c as int - 65 + s) % 26 == c as int - 65;
      }
    }
  }

  /** `Math.min(1 + Math.floor(difficultyLevel / 2), 10)`. */
  function MinShift(d: int): (r: int)
    ensures r <= 10 && (r == 10 <==> d >= 18)
    ensures d >= 0 ==> r >= 1
  {
    if 1 + d / 2 < 10 then 1 + d / 2 else 10
  }

  /** `Math.min(5 + difficultyLevel * 3, 25)`. */
  function MaxShift(d: int): (r: int)
    ensures r <= 25 && (r == 25 <==> d >= 7)
    ensures d >= 0 ==> r >= 5
  {
    if 5 + 3 * d < 25 then 5 + 3 * d else 25
  }

  /** For every level the shift range is non-empty and inside 1..25. */
  lemma ShiftRangeSound(d: int)
    requires d >= 1
    ensures 1 <= MinShift(d) <= MaxShift(d) <= 25
  {
  }

  /** Word eligibility by length without whitespace, per difficulty band. */
  predicate Eligible(w: string, d: int) {
    var n := NonSpaceLength(w);
    if d <= 2 then n <= 12 else if d <= 4 then 8 <= n <= 18 else n >= 12
  }

  /** The words a puzzle is drawn from: the eligible ones, or the whole
      bank when none is eligible. */
  function Words(bank: seq<string>, d: int): (r: seq<string>)
    ensures |bank| > 0 ==> |r| > 0
    ensures forall w :: w in r ==> w in bank
    ensures (exists w :: w in bank && Eligible(w, d)) ==>
      forall w :: w in r <==> w in bank && Eligible(w, d)
    ensures (forall w :: w in bank ==> !Eligible(w, d)) ==> r == bank
  {
    PoolChoice(bank, w => Eligible(w, d));
    Pool(bank, w => Eligible(w, d))
  }

  /** `generateCaesarPuzzle` with its two random draws as parameters: the
      offset of the shift inside its range and the index of the word. */
  function GeneratePuzzle(bank: seq<string>, d: int, shiftPick: nat, wordPick: nat): (p: Puzzle)
    requires |bank| > 0 && d >= 1
    requires shiftPick <= MaxShift(d) - MinShift(d)
    requires wordPick < |Words(bank, d)|
    ensures p.CaesarPuzzle? && p.difficulty == d
    ensures MinShift(d) <= p.shift <= MaxShift(d) && 1 <= p.shift <= 25
    ensures p.answer in Words(bank, d) && p.answer in bank
    ensures p.encoded == Encode(p.answer, p.shift)
    ensures Decode(p.encoded, p.shift) == Upper(p.answer)
    ensures p.hint.CaesarShiftHint? <==> d <= 2
    ensures p.hint.CaesarShiftHint? ==> p.hint.shift == p.shift
    ensures !p.hint.CaesarShiftHint? ==> p.hint == CaesarPatternHint
  {
    var shift := MinShift(d) + shiftPick;
    var answer := Words(bank, d)[wordPick];
    DecodeEncode(answer, shift);
    CaesarPuzzle(d, Encode(answer, shift), answer,
                 if d <= 2 then CaesarShiftHint(shift) else CaesarPatternHint, shift)
  }
}
