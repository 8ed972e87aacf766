/** The seat labels `${row}-${seat}` that the order-backed panel sends when it
    creates an order, with the seat number written the way JavaScript writes an
    integer: optional minus sign, decimal digits, no leading zeros. */
module SeatLabels {
  import opened Wrappers

  predicate IsDigit(c: char) {
    '0' <= c <= '9'
  }

  predicate AllDigits(s: string) {
    forall i :: 0 <= i < |s| ==> IsDigit(s[i])
  }

  function DigitChar(d: nat): (c: char)
    requires d < 10
    ensures IsDigit(c)
  {
    ('0' as int + d) as char
  }

  function DigitValue(c: char): nat
    requires IsDigit(c)
  {
    c as int - '0' as int
  }

  /** The decimal digits of `n`, most significant first. */
  function NatToDecimal(n: nat): (r: string)
    ensures |r| >= 1 && AllDigits(r)
    ensures |r| > 1 ==> r[0] != '0'
  {
    if n < 10 then [DigitChar(n)] else NatToDecimal(n / 10) + [DigitChar(n % 10)]
  }

  /** JavaScript's `String(n)` for an integer `n` with |n| < 10^21 (larger
      magnitudes are written here in plain decimal, not in exponent form):
      a minus sign exactly for negative numbers, then the digits of |n| with
      no leading zero. */
  function IntToDecimal(n: int): (r: string)
    ensures |r| >= 1
    ensures n >= 0 ==> AllDigits(r) && (|r| > 1 ==> r[0] != '0')
    ensures n < 0 ==> |r| >= 2 && r[0] == '-' && AllDigits(r[1..]) && r[1] != '0'
    ensures '-' !in r[1..]
  {
    if n < 0 then "-" + NatToDecimal(-n) else NatToDecimal(n)
  }

  function ParseNat(s: string): nat
    requires AllDigits(s)
  {
    if s == [] then 0 else ParseNat(s[..|s| - 1]) * 10 + DigitValue(s[|s| - 1])
  }

  /** Reads back an integer written by `IntToDecimal`; anything else that is
      not an optional minus followed by digits is refused. */
  function ParseInt(s: string): Option<int> {
    if |s| > 1 && s[0] == '-' && AllDigits(s[1..]) then Some(-(ParseNat(s[1..]) as int))
    else if |s| > 0 && AllDigits(s) then Some(ParseNat(s))
    else None
  }

  lemma {:induction false} NatRoundTrip(n: nat)
    ensures ParseNat(NatToDecimal(n)) == n
  {
    if n >= 10 {
      var d := NatToDecimal(n);
      assert d[..|d| - 1] == NatToDecimal(n / 10);
      NatRoundTrip(n / 10);
    }
  }

  lemma IntRoundTrip(n: int)
    ensures ParseInt(IntToDecimal(n)) == Some(n)
  {
    if n < 0 {
      var d := NatToDecimal(-n);
      assert ("-" + d)[1..] == d;
      NatRoundTrip(-n);
    } else {
      NatRoundTrip(n);
    }
  }

  /** The label of one selected seat: `${row}-${seat}`. */
  function Label(row: string, seat: int): (r: string)
    ensures |r| >= |row| + 2
    ensures r[..|row|] == row && r[|row|] == '-'
    ensures r[|row| + 1..] == IntToDecimal(seat)
  {
    row + "-" + IntToDecimal(seat)
  }

  /** Index of the first '-' in `s`, if any. */
  function FirstDash(s: string): (r: Option<nat>)
    ensures r.Some? ==> r.value < |s| && s[r.value] == '-' && '-' !in s[..r.value]
    ensures r.None? ==> '-' !in s
  {
    if s == [] then None
    else if s[0] == '-' then Some(0)
    else
      match FirstDash(s[1..])
      case None => None
      case Some(i) => assert s[..i + 1] == [s[0]] + s[1..][..i]; Some(i + 1)
  }

  /** Splits a label at its first '-' into the row and the seat number. */
  function ParseLabel(l: string): Option<(string, int)> {
    match FirstDash(l)
    case None => None
    case Some(i) =>
      match ParseInt(l[i + 1..])
      case None => None
      case Some(n) => Some((l[..i], n))
  }

  /** A label can be read back into its row and seat when the row itself has
      no '-'. */
  lemma LabelRoundTrip(row: string, seat: int)
    requires '-' !in row
    ensures ParseLabel(Label(row, seat)) == Some((row, seat))
  {
    var l := Label(row, seat);
    assert l[|row|] == '-';
    assert l[..|row|] == row;
    match FirstDash(l)
    case None =>
      assert false;
    case Some(i) =>
      assert i == |row|;
      assert l[i + 1..] == IntToDecimal(seat);
      IntRoundTrip(seat);
  }

  /** Hence two seats with dash-free rows get the same label only when row and
      seat number both agree. */
  lemma LabelInjective(row1: string, seat1: int, row2: string, seat2: int)
    requires '-' !in row1 && '-' !in row2
    requires Label(row1, seat1) == Label(row2, seat2)
    ensures row1 == row2 && seat1 == seat2
  {
    LabelRoundTrip(row1, seat1);
    LabelRoundTrip(row2, seat2);
  }
}
