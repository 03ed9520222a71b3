// The strings game_logic builds with format!: the decimal rendering of an
// unsigned counter, the target labels "ferris<N>" and the two HUD lines.

module Format {

  /** A string made only of the characters '0' to '9'. */
  predicate AllDigits(s: string) {
    forall i :: 0 <= i < |s| ==> '0' <= s[i] <= '9'
  }

  function DigitChar(d: nat): (c: char)
    requires d < 10
    ensures '0' <= c <= '9'
    ensures c as int - '0' as int == d
  {
    ('0' as int + d) as char
  }

  /** Rust's `{}` formatting of an unsigned integer: base ten, no sign, no leading zero. */
  function NatToString(n: nat): (s: string)
    ensures |s| >= 1 && AllDigits(s)
    ensures s[0] == '0' <==> n == 0
    ensures n < 10 <==> |s| == 1
    ensures n == 0 ==> s == "0"
    decreases n
  {
    if n < 10 then [DigitChar(n)] else NatToString(n / 10) + [DigitChar(n % 10)]
  }

  /** The value of a string of decimal digits, most significant first. */
  function DigitsValue(s: string): nat
    requires AllDigits(s)
    decreases |s|
  {
    if s == [] then 0
    else DigitsValue(s[..|s| - 1]) * 10 + (s[|s| - 1] as int - '0' as int)
  }

  /** Reading back a rendered number gives the number: the rendering loses nothing. */
  lemma {:induction false} DigitsValueOfNatToString(n: nat)
    ensures DigitsValue(NatToString(n)) == n
    decreases n
  {
    var s := NatToString(n);
    if n >= 10 {
      DigitsValueOfNatToString(n / 10);
      assert s[..|s| - 1] == NatToString(n / 10);
    }
  }

  lemma NatToStringInjective(m: nat, n: nat)
    requires NatToString(m) == NatToString(n)
    ensures m == n
  {
    DigitsValueOfNatToString(m);
    DigitsValueOfNatToString(n);
  }

  const PlayerLabel: string := "player"
  const TargetPrefix: string := "ferris"

  /** The label of the target spawned with counter value i (`format!("ferris{}", i)`). */
  function FerrisLabel(i: nat): (name: string)
    ensures |name| > |TargetPrefix| && name[..|TargetPrefix|] == TargetPrefix
    ensures AllDigits(name[|TargetPrefix|..])
    ensures !(PlayerLabel <= name) && name != PlayerLabel
  {
    var name := TargetPrefix + NatToString(i);
    assert name[0] != PlayerLabel[0];
    assert name[|TargetPrefix|..] == NatToString(i);
    name
  }

  /** Distinct counter values give distinct labels, so no target label is ever reused. */
  lemma FerrisLabelInjective(i: nat, j: nat)
    requires i != j
    ensures FerrisLabel(i) != FerrisLabel(j)
  {
    if FerrisLabel(i) == FerrisLabel(j) {
      assert NatToString(i) == FerrisLabel(i)[|TargetPrefix|..];
      assert NatToString(j) == FerrisLabel(j)[|TargetPrefix|..];
      NatToStringInjective(i, j);
    }
  }

  /** The score line of the HUD (`format!("Score: {}", score)`). */
  function ScoreText(n: nat): string {
    "Score: " + NatToString(n)
  }

  /** The high-score line of the HUD (`format!("High Score: {}", high_score)`). */
  function HighScoreText(n: nat): string {
    "High Score: " + NatToString(n)
  }

  /** Both HUD lines are their caption followed by digits that read back as the number shown. */
  lemma HudTextsReadBack(n: nat)
    ensures var s := ScoreText(n);
            |s| > 7 && s[..7] == "Score: " && AllDigits(s[7..]) && DigitsValue(s[7..]) == n
    ensures var s := HighScoreText(n);
            |s| > 12 && s[..12] == "High Score: " && AllDigits(s[12..]) && DigitsValue(s[12..]) == n
  {
    DigitsValueOfNatToString(n);
    assert ScoreText(n)[7..] == NatToString(n);
    assert HighScoreText(n)[12..] == NatToString(n);
  }
}
