/**
 * The JavaScript values a parsed inbound message can carry in a field, and
 * the two conversions the relay applies to them: `String(v || '')` (room
 * names and chat text) and `s.slice(0, n)` (chat truncation).
 */
module JsValue {
  import opened Wrappers

  /**
   * A field of a parsed JSON message. `Undefined` is a missing field (or any
   * field of a message that is not an object). Numbers are integers here.
   * Arrays and objects are `Compound`, carrying the text `String()` gives
   * for them ("[object Object]", "1,2", "" for []). `Unprintable` is an array
   * or object for which `String()` throws a TypeError: JSON can give an
   * object an own `toString` that is not a function (`{"toString":0}`), and
   * an array holding such an object throws when it is joined.
   */
  datatype Value =
    | Undefined
    | Null
    | Bool(b: bool)
    | Num(n: int)
    | Str(s: string)
    | Compound(rendered: string)
    | Unprintable

  /** JavaScript truthiness: `v || d` yields d exactly when this is false. */
  predicate Truthy(v: Value) {
    match v
    case Undefined => false
    case Null => false
    case Bool(b) => b
    case Num(n) => n != 0
    case Str(s) => s != ""
    case Compound(_) => true
    case Unprintable => true
  }

  function DigitChar(d: nat): (r: char)
    requires d < 10
    ensures '0' <= r <= '9' && DigitValue(r) == d
    ensures r == '0' <==> d == 0
  {
    "0123456789"[d]
  }

  function DigitValue(c: char): nat {
    if '0' <= c <= '9' then c as int - '0' as int else 0
  }

  /** Decimal digits of n, most significant first, no leading zeros. */
  /** A run of decimal digits with no leading zero, as `String()` writes a non-negative integer. */
  predicate CanonicalDigits(s: string) {
    && s != []
    && (forall i :: 0 <= i < |s| ==> '0' <= s[i] <= '9')
    && (s[0] == '0' ==> s == "0")
  }

  /** The text `String()` gives an integer: canonical digits, with a '-' in front only of a non-zero value. */
  predicate Canonical(s: string) {
    if s != [] && s[0] == '-' then CanonicalDigits(s[1..]) && s[1..] != "0" else CanonicalDigits(s)
  }

  function Digits(n: nat): (r: string)
    ensures CanonicalDigits(r)
    ensures r == "0" <==> n == 0
  {
    if n < 10 then [DigitChar(n)] else Digits(n / 10) + [DigitChar(n % 10)]
  }

  /** `String(n)` for an integer n. */
  function Decimal(n: int): (r: string)
    ensures Canonical(r)
  {
    if n < 0 then "-" + Digits(-n) else Digits(n)
  }

  /** Reads back what Digits writes. */
  function ParseDigits(s: string): nat {
    if s == [] then 0 else ParseDigits(s[..|s| - 1]) * 10 + DigitValue(s[|s| - 1])
  }

  function ParseDecimal(s: string): int {
    if s != [] && s[0] == '-' then -(ParseDigits(s[1..]) as int) else ParseDigits(s)
  }

  lemma {:induction false} DigitsRoundTrip(n: nat)
    ensures ParseDigits(Digits(n)) == n
  {
    if n >= 10 {
      var d := Digits(n);
      DigitsRoundTrip(n / 10);
      assert d[..|d| - 1] == Digits(n / 10);
      assert DigitValue(d[|d| - 1]) == n % 10;
    } else {
      assert DigitValue(DigitChar(n)) == n;
    }
  }

  /** Every integer is recovered from its decimal text. */
  lemma DecimalRoundTrip(n: int)
    ensures ParseDecimal(Decimal(n)) == n
  {
    if n < 0 {
      DigitsRoundTrip(-n);
      assert ("-" + Digits(-n))[1..] == Digits(-n);
    } else {
      DigitsRoundTrip(n);
    }
  }

  /** Digits is the only canonical text of its value: it recovers every canonical digit run. */
  lemma {:induction false} DigitsOfParse(s: string)
    requires CanonicalDigits(s)
    ensures Digits(ParseDigits(s)) == s
  {
    var init := s[..|s| - 1];
    var c := s[|s| - 1];
    if |s| == 1 {
      assert DigitChar(DigitValue(c)) == c by {
        assert c in "0123456789";
      }
    } else {
      assert CanonicalDigits(init);
      DigitsOfParse(init);
      var a := ParseDigits(init);
      var d := DigitValue(c);
      assert a != 0;
      var n := a * 10 + d;
      assert n / 10 == a && n % 10 == d;
      assert DigitChar(d) == c by {
        assert c in "0123456789";
      }
      assert s == init + [c];
    }
  }

  /** `String(n)` is the only canonical text of n: a canonical text is the decimal text of the integer it reads as. */
  lemma DecimalOfParse(s: string)
    requires Canonical(s)
    ensures Decimal(ParseDecimal(s)) == s
  {
    if s != [] && s[0] == '-' {
      var t := s[1..];
      DigitsOfParse(t);
      assert ParseDigits(t) != 0;
      assert s == "-" + t;
    } else {
      DigitsOfParse(s);
    }
  }

  /** Distinct integers have distinct decimal texts, so distinct numeric room ids name distinct rooms. */
  lemma DecimalInjective(a: int, b: int)
    ensures Decimal(a) == Decimal(b) ==> a == b
  {
    DecimalRoundTrip(a);
    DecimalRoundTrip(b);
  }

  /** `String(v)`; None when it throws. */
  function ToJsString(v: Value): Option<string> {
    match v
    case Undefined => Some("undefined")
    case Null => Some("null")
    case Bool(b) => Some(if b then "true" else "false")
    case Num(n) => Some(Decimal(n))
    case Str(s) => Some(s)
    case Compound(r) => Some(r)
    case Unprintable => None
  }

  /**
   * `String(v || '')`: the room name and chat text a message field stands
   * for, or None when the conversion throws.
   */
  function OrEmpty(v: Value): (r: Option<string>)
    ensures r.None? <==> v.Unprintable?
    ensures !Truthy(v) ==> r == Some("")
    ensures v.Str? ==> r == Some(v.s)
    ensures v.Num? ==> r.Some? && ParseDecimal(r.value) == v.n
    ensures v.Num? && v.n != 0 ==> Canonical(r.value)
    ensures v.Bool? ==> r == Some(if v.b then "true" else "")
    ensures v.Compound? ==> r == Some(v.rendered)
  {
    if !Truthy(v) then Some("")
    else if v.Num? then DecimalRoundTrip(v.n); ToJsString(v)
    else ToJsString(v)
  }

  /**
   * A non-zero number and a string field convert to the same room name
   * exactly when the string is the number's decimal text: `room: 7` and
   * `room: "7"` name one room, `room: "07"` another.
   */
  lemma NumberNamesItsText(n: int, s: string)
    requires n != 0
    ensures OrEmpty(Num(n)) == OrEmpty(Str(s)) <==> s == Decimal(n)
  {
  }

  /** `s.slice(0, n)`: the longest prefix of s that has at most n characters. */
  function Truncate(s: string, n: nat): (r: string)
    ensures |r| <= n && |r| <= |s| && r == s[..|r|]
    ensures |s| <= n ==> r == s
    ensures |s| > n ==> |r| == n
  {
    if |s| <= n then s else s[..n]
  }
}
