/** The decimal-string map keys of NodePodUsage (ridKey, parseRid). */
module Decimal {
  import opened Options

  function Digit(d: nat): char
    requires d < 10
  {
    '0' + d as char
  }

  function DigitValue(c: char): Option<nat> {
    if '0' <= c <= '9' then Some((c - '0') as nat) else None
  }

  function Digits(n: nat): string {
    if n < 10 then [Digit(n)] else Digits(n / 10) + [Digit(n % 10)]
  }

  function RidKey(rid: int): string {
    if rid < 0 then "-" + Digits(-rid) else Digits(rid)
  }

  function ParseDigits(s: string): Option<nat>
    decreases |s|
  {
    if s == "" then None
    else
      var last := DigitValue(s[|s| - 1]);
      if |s| == 1 || last.None? then last
      else match ParseDigits(s[..|s| - 1])
        case None => None
        case Some(v) => Some(10 * v + last.value)
  }

  /** strconv.Atoi, without its 64-bit range error. */
  function ParseRid(key: string): Option<int> {
    if key == "" then None
    else if key[0] == '-' || key[0] == '+' then
      match ParseDigits(key[1..])
      case None => None
      case Some(v) => Some(if key[0] == '-' then 0 - v else v as int)
    else match ParseDigits(key)
      case None => None
      case Some(v) => Some(v)
  }

  lemma {:induction false} DigitsParse(n: nat)
    ensures ParseDigits(Digits(n)) == Some(n) && Digits(n) != "" && '0' <= Digits(n)[0] <= '9'
  {
    if n >= 10 {
      DigitsParse(n / 10);
      assert Digits(n)[..|Digits(n)| - 1] == Digits(n / 10);
      assert Digits(n)[|Digits(n)| - 1] == Digit(n % 10);
    }
  }

  /** Encoding a resource id as a map key and decoding it gives the id back. */
  lemma RidRoundTrip(rid: int)
    ensures ParseRid(RidKey(rid)) == Some(rid)
  {
    if rid < 0 { NegativeRoundTrip(rid); } else { PlainRoundTrip(rid); }
  }

  lemma PlainRoundTrip(rid: nat)
    ensures ParseRid(RidKey(rid)) == Some(rid)
  {
    DigitsParse(rid);
  }

  lemma NegativeRoundTrip(rid: int)
    requires rid < 0
    ensures ParseRid(RidKey(rid)) == Some(rid)
  {
    var digits := Digits(-rid);
    DigitsParse(-rid);
    var key := "-" + digits;
    assert key[0] == '-' && key[1..] == digits;
  }

  /** A key is plain decimal: the remainder by ten is the last digit, and one digit stands for itself. */
  lemma KeyIsDecimal(rid: nat)
    ensures rid < 10 ==> RidKey(rid) == ["0123456789"[rid]]
    ensures rid >= 10 ==> RidKey(rid) == RidKey(rid / 10) + ["0123456789"[rid % 10]]
    ensures rid > 0 ==> RidKey(0 - rid) == "-" + RidKey(rid)
  {
  }

  /** Hence distinct ids get distinct keys. */
  lemma RidKeyInjective(a: int, b: int)
    requires RidKey(a) == RidKey(b)
    ensures a == b
  {
    RidRoundTrip(a);
    RidRoundTrip(b);
  }
}
