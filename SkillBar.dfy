/**
 * The text of a skill bar: the level label (`0` prepended below 100, then
 * `%`), the bar's target CSS width and the entrance delay of the bar at a
 * given list position. Levels are integers here; JavaScript prints an
 * integer of magnitude below 10^21 as its shortest decimal, with a leading
 * `-` when negative (from 10^21 on it switches to exponent notation).
 */
module SkillBar {
  import opened Wrappers

  function DigitChar(d: nat): char
    requires d < 10
  {
    "0123456789"[d]
  }

  function DigitValue(c: char): Option<nat>
  {
    if '0' <= c <= '9' then Some(c as nat - '0' as nat) else None
  }

  /** The decimal digits of `n`, most significant first, with no leading zero. */
  function NatToDecimal(n: nat): (s: string)
    ensures |s| >= 1 && forall i :: 0 <= i < |s| ==> DigitValue(s[i]).Some?
    ensures s[0] == '0' ==> n == 0 && |s| == 1
    decreases n
  {
    if n < 10 then [DigitChar(n)] else NatToDecimal(n / 10) + [DigitChar(n % 10)]
  }

  /** `String(n)` for an integer `n`. */
  function IntToDecimal(n: int): (s: string)
    ensures |s| >= 1
  {
    if n < 0 then "-" + NatToDecimal(-n) else NatToDecimal(n)
  }

  /** Reads a string of decimal digits back. */
  function ParseDigits(s: string): Option<nat>
    decreases |s|
  {
    if s == [] then None
    else if |s| == 1 then DigitValue(s[0])
    else match (ParseDigits(s[..|s| - 1]), DigitValue(s[|s| - 1]))
      case (Some(hi), Some(lo)) => Some(10 * hi + lo)
      case _ => None
  }

  /** Reads an optionally negative decimal integer back. */
  function ParseInt(s: string): Option<int>
  {
    if |s| >= 1 && s[0] == '-' then
      match ParseDigits(s[1..])
      case Some(n) => var v: int := n; Some(-v)
      case None => None
    else
      match ParseDigits(s)
      case Some(n) => var v: int := n; Some(v)
      case None => None
  }

  lemma {:induction false} ParseNatToDecimal(n: nat)
    ensures ParseDigits(NatToDecimal(n)) == Some(n)
    decreases n
  {
    if n >= 10 {
      ParseNatToDecimal(n / 10);
      var s := NatToDecimal(n);
      assert s[..|s| - 1] == NatToDecimal(n / 10);
    }
  }

  /** Printing an integer and reading it back gives the integer. */
  lemma ParseIntToDecimal(n: int)
    ensures ParseInt(IntToDecimal(n)) == Some(n)
  {
    var s := IntToDecimal(n);
    if n < 0 {
      var d := NatToDecimal(-n);
      ParseNatToDecimal(-n);
      assert s == "-" + d;
      assert s[0] == '-' && s[1..] == d;
    } else {
      ParseNatToDecimal(n);
      assert DigitValue(s[0]).Some?;
    }
  }

  /** The label `{level < 100 ? `0${level}` : level}%`. */
  function Label(level: int): (s: string)
    ensures |s| >= 2 && s[|s| - 1] == '%'
  {
    (if level < 100 then "0" + IntToDecimal(level) else IntToDecimal(level)) + "%"
  }

  /** The bar's target width, `${level}%`: the raw level, not clamped to [0, 100]. */
  function Width(level: int): (s: string)
    ensures |s| >= 2 && s[|s| - 1] == '%'
  {
    IntToDecimal(level) + "%"
  }

  /** Reads a label back: drop the `%`, then one leading `0` if something follows it. */
  function ParseLabel(text: string): Option<int>
  {
    if |text| < 2 || text[|text| - 1] != '%' then None
    else
      var body := text[..|text| - 1];
      if |body| > 1 && body[0] == '0' then ParseInt(body[1..]) else ParseInt(body)
  }

  /** Every label names its level unambiguously. */
  lemma LabelRoundTrip(level: int)
    ensures ParseLabel(Label(level)) == Some(level)
  {
    var dec := IntToDecimal(level);
    var text := Label(level);
    var body := text[..|text| - 1];
    ParseIntToDecimal(level);
    if level < 100 {
      assert body == "0" + dec;
      assert body[1..] == dec;
    } else {
      assert body == dec;
      assert dec[0] != '0';
    }
  }

  /** The label is the width with one `0` in front below 100, and the width itself from 100 up. */
  lemma LabelAndWidth(level: int)
    ensures level < 100 ==> Label(level) == "0" + Width(level)
    ensures level >= 100 ==> Label(level) == Width(level)
  {
  }

  /** One `0` is prepended rather than padding to three digits, and nothing is clamped. */
  lemma LabelExamples()
    ensures Label(95) == "095%"
    ensures Label(100) == "100%"
    ensures Label(5) == "05%"
    ensures Label(-5) == "0-5%"
    ensures Width(150) == "150%"
  {
    assert NatToDecimal(9) == "9" && NatToDecimal(5) == "5" && NatToDecimal(1) == "1" && NatToDecimal(0) == "0";
    assert NatToDecimal(95) == "95";
    assert NatToDecimal(10) == "10";
    assert NatToDecimal(100) == "100";
    assert NatToDecimal(15) == "15";
    assert NatToDecimal(150) == "150";
  }

  /** The bar's entrance delay, `index * 0.1` seconds. */
  function EntranceDelay(index: nat): (d: real)
    ensures d >= 0.0
  {
    index as real * 0.1
  }

  /** Bars further down the list start later. */
  lemma EntranceDelayOrder(i: nat, j: nat)
    requires i < j
    ensures EntranceDelay(i) < EntranceDelay(j)
  {
  }
}
