/** The texts `Decimal(str(value))` accepts, as the numbers they stand for. */
module Numbers {
  import opened Basics
  import opened Text

  // Infinite and NotANumber are Decimals too; Malformed is a text that Decimal refuses.
  datatype Number = Finite(value: real) | Infinite(negative: bool) | NotANumber | Malformed
  {
    // What an ordering comparison accepts without raising InvalidOperation.
    predicate Comparable() {
      Finite? || Infinite?
    }
  }

  predicate AtMost(a: Number, b: Number) {
    a == Infinite(true) || b == Infinite(false) || (a.Finite? && b.Finite? && a.value <= b.value)
  }

  // --------------------------------------------------------------------------- reading

  predicate AreDigits(s: string) {
    forall i :: 0 <= i < |s| ==> IsDigit(s[i])
  }

  // Digits with at most one point among them.
  predicate IsMantissa(t: string) {
    (exists i :: 0 <= i < |t| && IsDigit(t[i]))
    && (forall i :: 0 <= i < |t| ==> IsDigit(t[i]) || t[i] == '.')
    && (forall i, j :: 0 <= i < j < |t| ==> t[i] != '.' || t[j] != '.')
  }

  function Digit(c: char): int {
    if IsDigit(c) then c as int - '0' as int else 0
  }

  // The position of a character, or the length.
  function Find(t: string, c: char): (n: nat)
    ensures n <= |t| && (n < |t| ==> t[n] == c)
  {
    if t == "" || t[0] == c then 0 else 1 + Find(t[1..], c)
  }

  // All the digits read as one integer, the point passed over.
  function Integer(t: string): int {
    if t == "" then 0
    else
      var c := t[|t| - 1];
      if c == '.' then Integer(t[..|t| - 1]) else 10 * Integer(t[..|t| - 1]) + Digit(c)
  }

  function Power10(n: nat): (r: real)
    ensures r > 0.0
  {
    if n == 0 then 1.0 else 10.0 * Power10(n - 1)
  }

  function Shift(x: real, places: int): real {
    if places >= 0 then x * Power10(places) else x / Power10(-places)
  }

  // How many digits follow the point.
  function Decimals(t: string): nat {
    if Find(t, '.') == |t| then 0 else |t| - 1 - Find(t, '.')
  }

  function Signed(t: string): (r: (bool, string)) {
    if t != "" && (t[0] == '-' || t[0] == '+') then (t[0] == '-', t[1..]) else (false, t)
  }

  function Exponent(t: string): Option<int> {
    var s := Signed(t);
    if s.1 == "" || !AreDigits(s.1) then None else Some(if s.0 then -Integer(s.1) else Integer(s.1))
  }

  predicate NotUnderscore(c: char) {
    c != '_'
  }

  predicate IsNaN(t: string) {
    ("nan" <= t && AreDigits(t[3..])) || ("snan" <= t && AreDigits(t[4..]))
  }

  // mantissa[e exponent]
  function FiniteOf(t: string, negative: bool): Number {
    var e := Find(t, 'e');
    var exponent := if e == |t| then Some(0) else Exponent(t[e + 1..]);
    if !IsMantissa(t[..e]) || exponent.None? then Malformed
    else
      var x := Shift(Integer(t[..e]) as real, exponent.value - Decimals(t[..e]));
      Finite(if negative then -x else x)
  }

  // `Decimal(text)`
  function NumberOf(text: string): Number {
    var s := Signed(Lower(Only(Strip(text), NotUnderscore)));
    if s.1 == "inf" || s.1 == "infinity" then Infinite(s.0)
    else if IsNaN(s.1) then NotANumber
    else FiniteOf(s.1, s.0)
  }

  lemma ReadsNaN()
    ensures NumberOf("NaN") == NotANumber
  {
    assert Only("NaN", NotUnderscore) == "NaN" && Strip("NaN") == "NaN" && Lower("NaN") == "nan";
    assert "nan"[3..] == "";
  }

  // ------------------------------------------------------------- plain decimal numbers

  lemma {:induction false} IntegerIsPlaces(t: string)
    requires AreDigits(t)
    ensures Integer(t) == Places(t)
  {
    if t != "" {
      var n := |t| - 1;
      assert forall i :: 0 <= i < n ==> t[..n][i] == t[i];
      IntegerIsPlaces(t[..n]);
      PlacesAppend(t[..n], t[n]);
      assert t == t[..n] + [t[n]];
    }
  }

  // The point is passed over.
  lemma {:induction false} IntegerOfPieces(whole: string, frac: string)
    requires AreDigits(whole) && AreDigits(frac)
    ensures Integer(whole + "." + frac) == Integer(whole + frac)
  {
    var t, u := whole + "." + frac, whole + frac;
    if frac == "" {
      assert t[..|t| - 1] == whole && u == whole;
    } else {
      var n := |frac| - 1;
      assert t[..|t| - 1] == whole + "." + frac[..n] && u[..|u| - 1] == whole + frac[..n];
      assert forall i :: 0 <= i < n ==> frac[..n][i] == frac[i];
      assert t[|t| - 1] == frac[n] && u[|u| - 1] == frac[n];
      IntegerOfPieces(whole, frac[..n]);
    }
  }

  lemma {:induction false} FindIs(t: string, c: char, n: nat)
    requires n <= |t| && (forall i :: 0 <= i < n ==> t[i] != c) && (n < |t| ==> t[n] == c)
    ensures Find(t, c) == n
  {
    if n > 0 {
      FindIs(t[1..], c, n - 1);
    }
  }

  lemma PlainReads(t: string)
    requires t != "" && forall i :: 0 <= i < |t| ==> IsDigit(t[i]) || t[i] == '.' || t[i] == '-'
    ensures Lower(Only(Strip(t), NotUnderscore)) == t
  {
    hide Lower, Only, Strip;
    NothingToStrip(t);
    assert AllOf(t, NotUnderscore);
    assert Lower(t) == t by { assert forall i :: 0 <= i < |t| ==> LowerChar(t[i]) == t[i]; }
  }

  lemma NothingToStrip(t: string)
    requires t != "" && !IsSpace(t[0]) && !IsSpace(t[|t| - 1])
    ensures Strip(t) == t
  {
  }

  // What a plain decimal stands for: its digits, as many tens down as digits follow the point.
  function DecimalOf(whole: string, frac: string): real {
    Places(whole + frac) as real / Power10(|frac|)
  }

  lemma MantissaReads(whole: string, frac: string, negative: bool)
    requires AreDigits(whole) && AreDigits(frac) && whole + frac != ""
    ensures FiniteOf(whole + "." + frac, negative) == Finite(if negative then -DecimalOf(whole, frac) else DecimalOf(whole, frac))
  {
    hide Integer, Places, Power10;
    var t := whole + "." + frac;
    FindIs(t, 'e', |t|);
    FindIs(t, '.', |whole|);
    assert t[..|t|] == t;
    assert IsMantissa(t) by {
      assert IsDigit(if whole != "" then t[0] else t[1]);
      assert forall i :: 0 <= i < |t| ==> (t[i] == '.' <==> i == |whole|);
    }
    IntegerOfPieces(whole, frac);
    assert AreDigits(whole + frac);
    IntegerIsPlaces(whole + frac);
    if frac == "" {
      assert Power10(0) == 1.0 by { PowerOfNone(); }
    }
  }

  lemma PowerOfNone()
    ensures Power10(0) == 1.0
  {
  }

  /** A plain decimal, with or without a minus sign, is read as the number it writes. */
  lemma ReadsDecimals(whole: string, frac: string, negative: bool)
    requires AreDigits(whole) && AreDigits(frac) && whole + frac != ""
    ensures NumberOf((if negative then "-" else "") + (whole + "." + frac)) == Finite(if negative then -DecimalOf(whole, frac) else DecimalOf(whole, frac))
  {
    hide FiniteOf, Lower, Strip, Only;
    var t := whole + "." + frac;
    var text := (if negative then "-" else "") + t;
    PlainReads(text);
    MantissaReads(whole, frac, negative);
    assert t[0] == '.' || IsDigit(t[0]);
    if negative {
      assert text[0] == '-' && text[1..] == t;
    } else {
      assert text == t;
    }
    assert Signed(text) == (negative, t);
    assert t[0] !in {'i', 'n', 's'};
    assert "inf"[0] == 'i' && "infinity"[0] == 'i' && "nan"[0] == 'n' && "snan"[0] == 's';
    assert !IsNaN(t);
  }
}
