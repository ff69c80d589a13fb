/** The HUD's score text: `score.toString().padStart(6, '0')` (App.tsx).
    Scores are integers; `toString` writes a minus sign before the digits of
    a negative number, and `padStart` fills on the left, so a negative score
    keeps its sign after the padding zeros. */
module ScoreDisplay {

  /** Width the HUD pads the score to. */
  const ScoreWidth: nat := 6

  predicate IsDigit(c: char) { '0' <= c <= '9' }

  predicate AllDigits(s: string)
  {
    forall i :: 0 <= i < |s| ==> IsDigit(s[i])
  }

  function DigitChar(d: nat): (c: char)
    requires d < 10
    ensures IsDigit(c)
  {
    (48 + d) as char
  }

  function DigitValue(c: char): (d: nat)
    requires IsDigit(c)
    ensures d < 10 && DigitChar(d) == c
  {
    c as int - 48
  }

  /** Decimal digits of a non-negative integer, most significant first,
      without leading zeros. */
  function Digits(n: nat): (s: string)
    ensures |s| >= 1 && AllDigits(s)
    ensures n > 0 ==> s[0] != '0'
    ensures |s| > 1 ==> s[0] != '0'
    decreases n
  {
    if n < 10 then [DigitChar(n)] else Digits(n / 10) + [DigitChar(n % 10)]
  }

  /** `Number.prototype.toString()` on an integer: a minus sign exactly for
      a negative number, then decimal digits without a leading zero that
      read back as its size. */
  function NumberToString(n: int): (s: string)
    ensures |s| >= 1
    ensures s[0] == '-' <==> n < 0
    ensures n >= 0 ==> AllDigits(s) && ParseDigits(s) == n
    ensures n < 0 ==> AllDigits(s[1..]) && ParseDigits(s[1..]) == -n
    ensures n > 0 ==> s[0] != '0'
    ensures n < 0 ==> |s| >= 2 && s[1] != '0'
    ensures n == 0 ==> s == "0"
  {
    if n < 0 then
      ParseDigitsOfDigits(-n);
      assert ("-" + Digits(-n))[1..] == Digits(-n);
      "-" + Digits(-n)
    else
      ParseDigitsOfDigits(n);
      Digits(n)
  }

  function Repeat(c: char, k: nat): (r: string)
    ensures |r| == k
    ensures forall i :: 0 <= i < k ==> r[i] == c
  {
    seq(k, _ => c)
  }

  /** `s.padStart(target, fill)` for a one-character fill: `fill` repeated
      on the left up to length `target`; a string already that long is
      returned as it is. */
  function PadStart(s: string, target: nat, fill: char): (r: string)
    ensures |s| >= target ==> r == s
    ensures |s| < target ==> |r| == target
    ensures r[|r| - |s|..] == s
    ensures forall i :: 0 <= i < |r| - |s| ==> r[i] == fill
  {
    if |s| >= target then s else Repeat(fill, target - |s|) + s
  }

  /** The score line of the HUD. A non-negative score is shown as digits
      that read back as the score; up to 999999 it takes exactly six
      characters, and from 100000 on it is its plain digits. A negative
      score is its digits behind a minus sign, with the padding zeros in
      front of the sign. */
  function FormatScore(score: int): (r: string)
    ensures score >= 0 ==> AllDigits(r) && ParseDigits(r) == score
    ensures 0 <= score < 1000000 ==> |r| == ScoreWidth
    ensures score >= 100000 ==> r == Digits(score)
    ensures score < 0 && |Digits(-score)| <= ScoreWidth - 1 ==>
      r == Repeat('0', ScoreWidth - 1 - |Digits(-score)|) + "-" + Digits(-score)
    ensures score < 0 && |Digits(-score)| > ScoreWidth - 1 ==> r == "-" + Digits(-score)
  {
    if score >= 0 then
      PaddedDigits(score);
      PadStart(NumberToString(score), ScoreWidth, '0')
    else
      PaddedNegative(score);
      PadStart(NumberToString(score), ScoreWidth, '0')
  }

  /** The text of a negative number, left-filled with zeros to the score
      width: the zeros go in front of the minus sign. */
  lemma PaddedNegative(n: int)
    requires n < 0
    ensures |Digits(-n)| <= ScoreWidth - 1 ==>
      PadStart(NumberToString(n), ScoreWidth, '0')
        == Repeat('0', ScoreWidth - 1 - |Digits(-n)|) + "-" + Digits(-n)
    ensures |Digits(-n)| > ScoreWidth - 1 ==>
      PadStart(NumberToString(n), ScoreWidth, '0') == "-" + Digits(-n)
  {
    var d := Digits(-n);
    var t := NumberToString(n);
    assert t == "-" + d;
    if |d| <= ScoreWidth - 1 {
      var z := Repeat('0', ScoreWidth - 1 - |d|);
      assert Repeat('0', ScoreWidth - |t|) == z;
      assert z + t == z + "-" + d;
    }
  }

  /** Reading a string of decimal digits as a number. */
  function ParseDigits(s: string): (v: nat)
    requires AllDigits(s)
  {
    if s == [] then 0 else 10 * ParseDigits(s[..|s| - 1]) + DigitValue(s[|s| - 1])
  }

  lemma {:induction false} ParseDigitsOfDigits(n: nat)
    ensures ParseDigits(Digits(n)) == n
    decreases n
  {
    if n >= 10 {
      var s := Digits(n);
      assert s[..|s| - 1] == Digits(n / 10);
      ParseDigitsOfDigits(n / 10);
    }
  }

  lemma {:induction false} LeadingZerosIgnored(k: nat, s: string)
    requires AllDigits(s)
    ensures AllDigits(Repeat('0', k) + s)
    ensures ParseDigits(Repeat('0', k) + s) == ParseDigits(s)
    decreases |s|
  {
    var z := Repeat('0', k);
    if s == [] {
      assert z + s == z;
      ZerosParseToZero(k);
    } else {
      var t := s[..|s| - 1];
      assert (z + s)[..|z + s| - 1] == z + t;
      LeadingZerosIgnored(k, t);
    }
  }

  lemma {:induction false} ZerosParseToZero(k: nat)
    ensures AllDigits(Repeat('0', k))
    ensures ParseDigits(Repeat('0', k)) == 0
    decreases k
  {
    if k > 0 {
      assert Repeat('0', k)[..k - 1] == Repeat('0', k - 1);
      ZerosParseToZero(k - 1);
    }
  }

  /** The digits of a non-negative number, left-filled with zeros to the
      score width, read back as the number; they fill the width exactly
      below 10^6 and are left unpadded from 10^5 on. */
  lemma PaddedDigits(n: nat)
    ensures AllDigits(PadStart(Digits(n), ScoreWidth, '0'))
    ensures ParseDigits(PadStart(Digits(n), ScoreWidth, '0')) == n
    ensures n < 1000000 ==> |PadStart(Digits(n), ScoreWidth, '0')| == ScoreWidth
    ensures n >= 100000 ==> PadStart(Digits(n), ScoreWidth, '0') == Digits(n)
  {
    var s := Digits(n);
    ParseDigitsOfDigits(n);
    DigitsLength(n, ScoreWidth);
    if |s| < ScoreWidth {
      LeadingZerosIgnored(ScoreWidth - |s|, s);
    }
  }

  /** A number below 10^k has at most k digits; one at or above 10^(k-1)
      has at least k. */
  lemma {:induction false} DigitsLength(n: nat, k: nat)
    ensures n < Pow10(k) && k >= 1 ==> |Digits(n)| <= k
    ensures k >= 1 && n >= Pow10(k - 1) ==> |Digits(n)| >= k
    decreases k
  {
    if k > 1 {
      DigitsLength(n / 10, k - 1);
    }
  }

  function Pow10(k: nat): (p: nat)
    ensures p >= 1
  {
    if k == 0 then 1 else 10 * Pow10(k - 1)
  }

  /** A negative score keeps its minus sign behind the padding zeros:
      -5 is shown as "0000-5". */
  lemma FormatNegativeScore()
    ensures FormatScore(-5) == "0000-5"
  {
  }

  /** Every score from -99999 to -1 is shown in exactly six characters, the
      minus sign standing right before its digits. */
  lemma NegativeScoreWidth(score: int)
    requires -100000 < score < 0
    ensures |Digits(-score)| <= ScoreWidth - 1
    ensures |FormatScore(score)| == ScoreWidth
    ensures FormatScore(score)[ScoreWidth - 1 - |Digits(-score)|] == '-'
  {
    assert Pow10(5) == 100000;
    DigitsLength(-score, 5);
  }
}
