/**
 * Values shared by the whole visualisation layer: the evaluator's result
 * values, an optional wrapper, screen coordinates that may be non-finite,
 * and the decimal rendering of counters that appears in titles.
 */
module Values {

  datatype Option<+T> = None | Some(value: T)

  /**
   * What the external evaluator hands back for a function body: a number
   * (VT_NUMBER) or an error (VT_ERROR). Other value kinds are not
   * modelled.
   */
  datatype Value = Number(val: real) | Error(message: string)

  /**
   * A coordinate computed with IEEE-754 division. Dividing by a zero span
   * yields an infinity or NaN; the model keeps only the fact that such a
   * coordinate is not a finite number.
   */
  datatype Coord = Finite(v: real) | NonFinite

  predicate IsDigit(c: char) {
    '0' <= c <= '9'
  }

  function DigitChar(d: nat): (c: char)
    requires d < 10
    ensures IsDigit(c) && (c as int) - ('0' as int) == d
  {
    (('0' as int) + d) as char
  }

  /** The decimal text JavaScript produces for a non-negative integer. */
  function NatToString(n: nat): (s: string)
    ensures |s| > 0
    decreases n
  {
    if n < 10 then [DigitChar(n)] else NatToString(n / 10) + [DigitChar(n % 10)]
  }

  /** The decimal text of a counter is all digits, with no leading zero. */
  lemma {:induction false} NatToStringDigits(n: nat)
    ensures forall k :: 0 <= k < |NatToString(n)| ==> IsDigit(NatToString(n)[k])
    ensures |NatToString(n)| > 1 ==> NatToString(n)[0] != '0'
    ensures n >= 10 <==> |NatToString(n)| > 1
    decreases n
  {
    if n >= 10 {
      NatToStringDigits(n / 10);
      var s := NatToString(n);
      assert s == NatToString(n / 10) + [DigitChar(n % 10)];
      assert s[0] == NatToString(n / 10)[0];
    }
  }

  /** Reads a string of decimal digits back as a number, each character counting its offset from '0'. */
  function ParseNat(s: string): int
  {
    if s == [] then 0
    else ParseNat(s[..|s| - 1]) * 10 + ((s[|s| - 1] as int) - ('0' as int))
  }

  /** Titles built from counters can be read back: the rendering loses nothing. */
  lemma {:induction false} NatToStringRoundTrip(n: nat)
    ensures ParseNat(NatToString(n)) == n
    decreases n
  {
    if n >= 10 {
      var s := NatToString(n);
      NatToStringRoundTrip(n / 10);
      assert s[..|s| - 1] == NatToString(n / 10);
    }
  }

  /** Distinct counters give distinct titles. */
  lemma NatToStringInjective(m: nat, n: nat)
    requires NatToString(m) == NatToString(n)
    ensures m == n
  {
    NatToStringRoundTrip(m);
    NatToStringRoundTrip(n);
  }

  /** The number of characters in all the parts together. */
  function TotalLength(parts: seq<string>): nat
  {
    if parts == [] then 0 else TotalLength(parts[..|parts| - 1]) + |parts[|parts| - 1]|
  }

  /** Array.prototype.join: the parts with `sep` between each neighbouring pair. */
  function Join(parts: seq<string>, sep: string): (s: string)
    ensures parts == [] ==> s == ""
    ensures parts != [] ==> |s| == TotalLength(parts) + (|parts| - 1) * |sep|
    ensures parts != [] ==> parts[0] <= s
    ensures parts != [] ==> s[|s| - |parts[|parts| - 1]|..] == parts[|parts| - 1]
  {
    if parts == [] then ""
    else if |parts| == 1 then parts[0]
    else Join(parts[..|parts| - 1], sep) + sep + parts[|parts| - 1]
  }

  /** Joining the first k parts gives a prefix of joining all of them. */
  lemma {:induction false} JoinPrefix(parts: seq<string>, sep: string, k: nat)
    requires 0 < k <= |parts|
    ensures Join(parts[..k], sep) <= Join(parts, sep)
  {
    if k < |parts| {
      var init := parts[..|parts| - 1];
      JoinPrefix(init, sep, k);
      assert init[..k] == parts[..k];
    } else {
      assert parts[..k] == parts;
    }
  }

  /**
   * The joined text holds every part in order, each after a separator:
   * the first k parts joined, then `sep`, then part k, begin the whole.
   */
  lemma JoinPartAt(parts: seq<string>, sep: string, k: nat)
    requires 0 < k < |parts|
    ensures Join(parts[..k], sep) + sep + parts[k] <= Join(parts, sep)
  {
    var pre := parts[..k + 1];
    assert pre[..k] == parts[..k] && pre[k] == parts[k];
    assert Join(pre, sep) == Join(parts[..k], sep) + sep + parts[k];
    JoinPrefix(parts, sep, k + 1);
  }
}
