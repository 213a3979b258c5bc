/**
 * The line the camera node writes to its serial ports on every heartbeat,
 * `printf("%d,%d\n", dir, button)`, and a reader for it that shows the line
 * determines the two numbers.
 */
module SerialLine {
  import opened Wrappers

  predicate IsDigit(c: char) {
    '0' <= c <= '9'
  }

  predicate AllDigits(s: string) {
    forall i :: 0 <= i < |s| ==> IsDigit(s[i])
  }

  function DigitChar(d: nat): (c: char)
    requires d < 10
    ensures IsDigit(c) && c as int - '0' as int == d
  {
    ('0' as int + d) as char
  }

  /** Decimal digits of `n`, most significant first, no leading zeros. */
  function NatDigits(n: nat): (s: string)
    ensures |s| >= 1 && AllDigits(s)
    ensures |s| > 1 ==> s[0] != '0'
    decreases n
  {
    if n < 10 then [DigitChar(n)] else NatDigits(n / 10) + [DigitChar(n % 10)]
  }

  /** `%d`: an optional minus sign, then the digits of the magnitude. */
  function Decimal(n: int): (s: string)
    ensures |s| >= 1 && (s[0] == '-' <==> n < 0)
    ensures AllDigits(if n < 0 then s[1..] else s)
    ensures ',' !in s && '\n' !in s
  {
    if n < 0 then "-" + NatDigits(-n) else NatDigits(n)
  }

  /** The heartbeat line for a direction `d` and a button value `b`. */
  function HeartbeatLine(d: int, b: int): (line: string)
    ensures |line| >= 4 && line[|line| - 1] == '\n'
  {
    Decimal(d) + "," + Decimal(b) + "\n"
  }

  /** The value of a string of decimal digits, most significant first. */
  function DigitsValue(s: string): nat
    requires AllDigits(s)
    decreases |s|
  {
    if s == [] then 0 else DigitsValue(s[..|s| - 1]) * 10 + (s[|s| - 1] as int - '0' as int)
  }

  function ParseNat(s: string): Option<nat> {
    if |s| > 0 && AllDigits(s) then Some(DigitsValue(s)) else None
  }

  function ParseDecimal(s: string): Option<int> {
    if |s| > 0 && s[0] == '-' then
      match ParseNat(s[1..])
      case Some(n) => Some(-(n as int))
      case None => None
    else ParseNat(s)
  }

  /** Position of the first `c` in `s`, or `|s|` when there is none. */
  function IndexOf(s: string, c: char): (k: nat)
    ensures k <= |s|
    ensures k < |s| ==> s[k] == c
    ensures forall j :: 0 <= j < k ==> s[j] != c
    decreases |s|
  {
    if s == [] then 0 else if s[0] == c then 0 else 1 + IndexOf(s[1..], c)
  }

  /** Reads `<int>,<int>\n` back into its two numbers. */
  function ParseHeartbeatLine(line: string): Option<(int, int)> {
    if |line| == 0 || line[|line| - 1] != '\n' then None
    else
      var body := line[..|line| - 1];
      var k := IndexOf(body, ',');
      if k == |body| then None
      else
        match (ParseDecimal(body[..k]), ParseDecimal(body[k + 1..]))
        case (Some(d), Some(b)) => Some((d, b))
        case _ => None
  }

  lemma {:induction false} NatDigitsValue(n: nat)
    ensures DigitsValue(NatDigits(n)) == n
    decreases n
  {
    if n >= 10 {
      var s := NatDigits(n);
      assert s[..|s| - 1] == NatDigits(n / 10);
      NatDigitsValue(n / 10);
    }
  }

  lemma ParseNatDigits(n: nat)
    ensures ParseNat(NatDigits(n)) == Some(n)
  {
    NatDigitsValue(n);
  }

  lemma DecimalRoundTrip(n: int)
    ensures ParseDecimal(Decimal(n)) == Some(n)
  {
    if n < 0 {
      var digits := NatDigits(-n);
      var s := "-" + digits;
      assert Decimal(n) == s;
      assert s[0] == '-' && s[1..] == digits;
      ParseNatDigits(-n);
    } else {
      var digits := NatDigits(n);
      assert Decimal(n) == digits && digits[0] != '-';
      ParseNatDigits(n);
    }
  }

  /** The first `c` of `a + [c] + b` is the one after `a` when `a` holds none. */
  lemma {:induction false} IndexOfAfterPrefix(a: string, c: char, b: string)
    requires c !in a
    ensures IndexOf(a + [c] + b, c) == |a|
    decreases |a|
  {
    var s := a + [c] + b;
    if a != [] {
      assert s[0] == a[0] && s[1..] == a[1..] + [c] + b;
      IndexOfAfterPrefix(a[1..], c, b);
    }
  }

  /** The heartbeat line is unambiguous: reading it yields exactly the two numbers written. */
  lemma HeartbeatLineRoundTrip(d: int, b: int)
    ensures ParseHeartbeatLine(HeartbeatLine(d, b)) == Some((d, b))
  {
    var sd, sb := Decimal(d), Decimal(b);
    var body := sd + [','] + sb;
    var line := HeartbeatLine(d, b);
    assert line == body + ['\n'];
    assert line[..|line| - 1] == body;
    IndexOfAfterPrefix(sd, ',', sb);
    assert body[..|sd|] == sd;
    assert body[|sd| + 1..] == sb;
    DecimalRoundTrip(d);
    DecimalRoundTrip(b);
  }
}
