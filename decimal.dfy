/** Python's `str(n)` on a non-negative integer, and its inverse, used for the
    `"<k>/<n>"` count field of the variant handler. */
module Decimal {
  import opened Wrappers

  predicate IsDigit(c: char) {
    '0' <= c <= '9'
  }

  function DigitChar(d: nat): (c: char)
    requires d < 10
    ensures IsDigit(c)
  {
    "0123456789"[d]
  }

  function DigitValue(c: char): (d: nat)
    requires IsDigit(c)
    ensures d < 10
  {
    (c as int) - ('0' as int)
  }

  /** `str(n)`: the shortest decimal spelling, "0" for zero. */
  function NatToString(n: nat): (s: string)
    ensures |s| >= 1
    ensures forall i :: 0 <= i < |s| ==> IsDigit(s[i])
    ensures |s| > 1 ==> s[0] != '0'
  {
    if n < 10 then [DigitChar(n)] else NatToString(n / 10) + [DigitChar(n % 10)]
  }

  /** Reads a string of decimal digits back; None for the empty string or a
      non-digit. */
  function ParseNat(s: string): (r: Option<nat>)
    ensures r.Some? ==> |s| >= 1
  {
    if |s| == 0 || !IsDigit(s[|s| - 1]) then None
    else if |s| == 1 then Some(DigitValue(s[0]))
    else match ParseNat(s[..|s| - 1])
      case None => None
      case Some(m) => Some(m * 10 + DigitValue(s[|s| - 1]))
  }

  lemma DigitRoundTrip(d: nat)
    requires d < 10
    ensures DigitValue(DigitChar(d)) == d
  {
    assert "0123456789"[d] as int == '0' as int + d by {
      assert "0123456789"[0] == '0' && "0123456789"[9] == '9';
      assert forall j :: 0 <= j < 10 ==> "0123456789"[j] as int == '0' as int + j;
    }
  }

  /** Decimal spelling round-trips. */
  lemma {:induction false} ParseNatToString(n: nat)
    ensures ParseNat(NatToString(n)) == Some(n)
  {
    var s := NatToString(n);
    if n < 10 {
      DigitRoundTrip(n);
    } else {
      ParseNatToString(n / 10);
      DigitRoundTrip(n % 10);
      assert s[..|s| - 1] == NatToString(n / 10);
    }
  }

  /** The count field `str(k) + '/' + str(n)`. */
  function CountText(k: nat, n: nat): (s: string)
    ensures |s| == |NatToString(k)| + 1 + |NatToString(n)| >= 3
    ensures s[|NatToString(k)|] == '/'
    ensures forall i :: 0 <= i < |s| && i != |NatToString(k)| ==> IsDigit(s[i])
  {
    NatToString(k) + "/" + NatToString(n)
  }

  /** The position of the first occurrence of `c` in `s`. */
  function IndexOf(s: string, c: char): (r: Option<nat>)
    ensures r.Some? ==> r.value < |s| && s[r.value] == c &&
                        forall j :: 0 <= j < r.value ==> s[j] != c
    ensures r.None? ==> forall j :: 0 <= j < |s| ==> s[j] != c
  {
    if |s| == 0 then None
    else if s[0] == c then Some(0)
    else match IndexOf(s[1..], c)
      case None => None
      case Some(i) => Some(i + 1)
  }

  /** Splits "<k>/<n>" at its first slash and reads both halves. */
  function ParseCount(s: string): (r: Option<(nat, nat)>) {
    match IndexOf(s, '/')
    case None => None
    case Some(i) =>
      match (ParseNat(s[..i]), ParseNat(s[i + 1..]))
      case (Some(k), Some(n)) => Some((k, n))
      case _ => None
  }

  /** The count field reads back as the two numbers it was made from, so it
      always has the form "<k>/<n>". */
  lemma CountTextRoundTrip(k: nat, n: nat)
    ensures ParseCount(CountText(k, n)) == Some((k, n))
  {
    var a, b := NatToString(k), NatToString(n);
    var s := CountText(k, n);
    assert s == a + "/" + b;
    assert s[|a|] == '/';
    assert forall j :: 0 <= j < |a| ==> s[j] == a[j] && s[j] != '/';
    assert s[..|a|] == a;
    assert s[|a| + 1..] == b;
    ParseNatToString(k);
    ParseNatToString(n);
  }
}
