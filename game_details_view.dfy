/** `GameDetailsView`: the expected pot, the progress percentage and the round caption. */
module GameDetailsView {
  import opened Text

  /** `amount × (player_count − 1)`: negative for a game with no players. */
  function ExpectedTotal(amount: nat, playerCount: nat): (t: int)
    ensures playerCount >= 1 ==> t >= 0
    ensures t > 0 <==> amount > 0 && playerCount > 1
    ensures playerCount == 0 ==> t == -(amount as int)
  {
    amount * (playerCount - 1)
  }

  /**
   * The progress bar value: 0 when the expected pot is not positive (no division by
   * zero), otherwise the floor of `totalDeposited × 100 / expected`, capped at 100.
   */
  function Percentage(totalDeposited: nat, expected: int): (p: nat)
    ensures p <= 100
    ensures expected <= 0 ==> p == 0
    ensures expected > 0 && p < 100 ==> p * expected <= totalDeposited * 100 < (p + 1) * expected
    ensures expected > 0 && p == 100 ==> 100 * expected <= totalDeposited * 100
  {
    if expected > 0 then
      var q := (totalDeposited * 100) / expected;
      DivBracket(totalDeposited * 100, expected);
      if q < 100 then q else MulMonotone(expected, 100, q); 100
    else 0
  }

  /** The quotient of a floor division brackets the dividend. */
  lemma DivBracket(n: nat, e: int)
    requires e > 0
    ensures (n / e) * e <= n < (n / e + 1) * e
  {
    var q, r := n / e, n % e;
    assert n == q * e + r && 0 <= r < e;
    assert (q + 1) * e == q * e + e;
  }

  /** A pot that is full (or over-full) shows exactly 100. */
  lemma FullPotIsHundred(totalDeposited: nat, expected: int)
    requires totalDeposited >= expected > 0
    ensures Percentage(totalDeposited, expected) == 100
  {
  }

  /** More deposited never shows less progress. */
  lemma PercentageMonotone(d1: nat, d2: nat, expected: int)
    requires d1 <= d2
    ensures Percentage(d1, expected) <= Percentage(d2, expected)
  {
    if expected > 0 {
      DivMonotone(d1 * 100, d2 * 100, expected);
    }
  }

  /** Integer division by a positive divisor is monotone in the dividend. */
  lemma DivMonotone(a: nat, b: nat, e: int)
    requires a <= b && e > 0
    ensures a / e <= b / e
  {
    var qa, qb := a / e, b / e;
    assert e * qa <= a && b < e * qb + e;
    if qa > qb {
      assert e * qa >= e * (qb + 1) by {
        MulMonotone(e, qb + 1, qa);
      }
      assert false;
    }
  }

  lemma MulMonotone(e: int, x: int, y: int)
    requires e > 0 && x <= y
    ensures e * x <= e * y && x * e <= y * e
  {
  }

  /** Games with no players or one player show 0, whatever has been deposited. */
  lemma SmallGamesShowZero(amount: nat, playerCount: nat, totalDeposited: nat)
    requires playerCount <= 1
    ensures Percentage(totalDeposited, ExpectedTotal(amount, playerCount)) == 0
  {
  }

  const EndedSuffix: string := " \U{00B7} Ended"

  /** `Round {index+1} of {player_count}`, followed by ` · Ended` for an ended game. */
  function RoundLabel(currentIndex: nat, playerCount: nat, ended: bool): (caption: string)
    ensures |caption| > |EndedSuffix|
  {
    "Round " + NatToString(currentIndex + 1) + " of " + NatToString(playerCount) + (if ended then EndedSuffix else "")
  }

  /** The ` · Ended` suffix appears exactly when the game has ended. */
  lemma RoundLabelEnded(currentIndex: nat, playerCount: nat, ended: bool)
    ensures EndsWith(RoundLabel(currentIndex, playerCount, ended), EndedSuffix) <==> ended
  {
    var base := "Round " + NatToString(currentIndex + 1) + " of " + NatToString(playerCount);
    var caption := RoundLabel(currentIndex, playerCount, ended);
    if ended {
      assert caption == base + EndedSuffix;
      assert caption[|caption| - |EndedSuffix|..] == EndedSuffix;
    } else {
      assert caption == base;
      var digits := NatToString(playerCount);
      assert caption[|caption| - 1] == digits[|digits| - 1];
      assert IsDigit(caption[|caption| - 1]);
      assert caption[|caption| - |EndedSuffix|..][|EndedSuffix| - 1] == caption[|caption| - 1];
    }
  }

  /** The caption counts rounds from one: its number reads back as `currentIndex + 1`. */
  lemma RoundLabelNumber(currentIndex: nat, playerCount: nat, ended: bool)
    ensures var caption := RoundLabel(currentIndex, playerCount, ended);
            var n := |NatToString(currentIndex + 1)|;
            |caption| >= 6 + n && caption[..6] == "Round " &&
            (forall i :: 6 <= i < 6 + n ==> IsDigit(caption[i])) &&
            ParseDigits(caption[6..6 + n]) == currentIndex + 1
  {
    var caption := RoundLabel(currentIndex, playerCount, ended);
    var digits := NatToString(currentIndex + 1);
    assert caption[6..6 + |digits|] == digits;
    ParseNatToString(currentIndex + 1);
  }

  /**
   * After the round number come ` of ` and the digits of `playerCount`, which read back,
   * and then the ended suffix or nothing.
   */
  lemma RoundLabelCount(currentIndex: nat, playerCount: nat, ended: bool)
    ensures var caption := RoundLabel(currentIndex, playerCount, ended);
            var n := |NatToString(currentIndex + 1)|;
            var m := |NatToString(playerCount)|;
            |caption| >= 10 + n + m &&
            caption[6 + n..10 + n] == " of " &&
            ParseDigits(caption[10 + n..10 + n + m]) == playerCount &&
            caption[10 + n + m..] == (if ended then EndedSuffix else "")
  {
    var digits := NatToString(currentIndex + 1);
    var count := NatToString(playerCount);
    var suffix: string := if ended then EndedSuffix else "";
    var head := "Round " + digits;
    var caption := RoundLabel(currentIndex, playerCount, ended);
    assert caption == head + " of " + count + suffix;
    SliceOfConcat(head, " of ", count, suffix);
    ParseNatToString(playerCount);
  }

  /** The three inner parts of `w + x + y + z`, recovered by slicing at their offsets. */
  lemma SliceOfConcat(w: string, x: string, y: string, z: string)
    ensures var s := w + x + y + z;
            s[|w|..|w| + |x|] == x && s[|w| + |x|..|w| + |x| + |y|] == y && s[|w| + |x| + |y|..] == z
  {
    var s := w + x + y + z;
    assert s[|w|..] == x + y + z;
  }
}
