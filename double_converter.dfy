/**
 * The CSV cell converter for prices: a blank cell is null, a comma is read as a decimal point, and text the
 * number parser rejects raises "Invalid number format: <cell>".
 * `Double.parseDouble` is a parameter; `JavaLikeParser` states the two facts about it the converter relies on.
 */
module DoubleConverter {
  import opened Wrappers

  /** `Character.isWhitespace`: the Unicode space, line and paragraph separators except the no-break spaces, and the ASCII controls 9-13 and 28-31. */
  predicate IsJavaWhitespace(c: char)
  {
    || c == ' ' || c == '\U{1680}' || ('\U{2000}' <= c <= '\U{200A}' && c != '\U{2007}') || c == '\U{205F}' || c == '\U{3000}'
    || c == '\U{2028}' || c == '\U{2029}'
    || '\t' <= c <= '\r' || '\U{1C}' <= c <= '\U{1F}'
  }

  /** `String.isBlank`: empty or whitespace only. */
  predicate IsBlank(s: string)
  {
    forall i :: 0 <= i < |s| ==> IsJavaWhitespace(s[i])
  }

  /** `value.replace(",", ".")`: every comma becomes a dot, every other character stays where it is. */
  function Normalize(s: string): (r: string)
    ensures |r| == |s|
    decreases |s|
  {
    if s == [] then []
    else Normalize(s[..|s| - 1]) + [if s[|s| - 1] == ',' then '.' else s[|s| - 1]]
  }

  /** Position by position: a comma becomes a dot and any other character stays, so no comma is left. */
  lemma {:induction false} NormalizeAt(s: string)
    ensures forall i :: 0 <= i < |s| ==> Normalize(s)[i] == if s[i] == ',' then '.' else s[i]
    ensures forall i :: 0 <= i < |s| ==> Normalize(s)[i] != ','
    decreases |s|
  {
    if s != [] {
      NormalizeAt(s[..|s| - 1]);
    }
  }

  /** What `convert` throws: a `RuntimeException` with this message. */
  function InvalidNumberMessage(value: string): string
  {
    "Invalid number format: " + value
  }

  /** `DoubleConverter.convert(value)` with `parse` standing for `Double.parseDouble` (`None` for a `NumberFormatException`). */
  function Convert(value: Option<string>, parse: string -> Option<real>): (r: Result<Option<real>, string>)
    ensures r == Success(None) <==> value.None? || IsBlank(value.value)
    ensures r.Failure? <==> value.Some? && !IsBlank(value.value) && parse(Normalize(value.value)).None?
    ensures r.Failure? ==> r.error == InvalidNumberMessage(value.value)
    ensures r.Success? && r.value.Some? ==> r.value == parse(Normalize(value.value))
  {
    if value.None? || IsBlank(value.value) then Success(None)
    else match parse(Normalize(value.value))
      case Some(v) => Success(Some(v))
      case None => Failure(InvalidNumberMessage(value.value))
  }

  // ----- the plain decimal syntax, as a reference for the parser -----

  predicate IsDigit(c: char)
  {
    '0' <= c <= '9'
  }

  predicate AllDigits(s: string)
  {
    forall i :: 0 <= i < |s| ==> IsDigit(s[i])
  }

  /** The value of a string of decimal digits. */
  function DigitsValue(s: string): nat
    requires AllDigits(s)
    decreases |s|
  {
    if s == [] then 0 else 10 * DigitsValue(s[..|s| - 1]) + (s[|s| - 1] as int - '0' as int)
  }

  function Pow10(n: nat): (r: nat)
    ensures r > 0
  {
    if n == 0 then 1 else 10 * Pow10(n - 1)
  }

  /** The first position of `c` in `s`, if any. */
  function IndexOf(s: string, c: char): (r: Option<nat>)
    ensures r.Some? ==> r.value < |s| && s[r.value] == c && forall i :: 0 <= i < r.value ==> s[i] != c
    ensures r.None? ==> forall i :: 0 <= i < |s| ==> s[i] != c
    decreases |s|
  {
    if s == [] then None
    else if s[0] == c then Some(0)
    else match IndexOf(s[1..], c)
      case Some(k) => Some(k + 1)
      case None => None
  }

  /** `digits` or `digits.digits`, read as an unsigned decimal. */
  function UnsignedValue(u: string): Option<real>
  {
    match IndexOf(u, '.')
    case None =>
      if u != [] && AllDigits(u) then Some(DigitsValue(u) as real) else None
    case Some(k) =>
      var whole, fraction := u[..k], u[k + 1..];
      if whole != [] && fraction != [] && AllDigits(whole) && AllDigits(fraction)
      then Some(DigitsValue(whole) as real + DigitsValue(fraction) as real / Pow10(|fraction|) as real)
      else None
  }

  /** An optionally signed plain decimal (`-123.45`, `+7`, `0.5`), the subset of the parser's syntax the price files use. */
  function PlainValue(s: string): Option<real>
  {
    if s != [] && s[0] == '-' then
      match UnsignedValue(s[1..])
      case Some(v) => Some(-v)
      case None => None
    else if s != [] && s[0] == '+' then UnsignedValue(s[1..])
    else UnsignedValue(s)
  }

  /** Two decimal points somewhere in `s`. */
  ghost predicate HasTwoDots(s: string)
  {
    exists i, j :: 0 <= i < j < |s| && s[i] == '.' && s[j] == '.'
  }

  /** Two separators, commas or dots, somewhere in `s`. */
  ghost predicate HasTwoSeparators(s: string)
  {
    exists i, j :: 0 <= i < j < |s| && s[i] in ",." && s[j] in ",."
  }

  /**
   * What the converter takes for granted about `Double.parseDouble`: it reads plain decimals at their value, and
   * no number it accepts has two decimal points.
   */
  ghost predicate JavaLikeParser(parse: string -> Option<real>)
  {
    && (forall s :: PlainValue(s).Some? ==> parse(s) == PlainValue(s))
    && (forall s :: HasTwoDots(s) ==> parse(s).None?)
  }

  /** The reference syntax itself never accepts two decimal points, so it is a parser of that kind. */
  lemma PlainValueRejectsTwoDots(s: string)
    requires HasTwoDots(s)
    ensures PlainValue(s).None?
  {
    var i, j :| 0 <= i < j < |s| && s[i] == '.' && s[j] == '.';
    var u := if s != [] && (s[0] == '-' || s[0] == '+') then s[1..] else s;
    var off := |s| - |u|;
    assert i >= off;
    assert u[i - off] == '.' && u[j - off] == '.';
    UnsignedRejectsTwoDots(u, i - off, j - off);
  }

  /** So the hypothesis on the parser can be met: the reference reader itself meets it. */
  lemma ReferenceParserIsJavaLike()
    ensures JavaLikeParser(PlainValue)
  {
    forall s | HasTwoDots(s) ensures PlainValue(s).None? {
      PlainValueRejectsTwoDots(s);
    }
  }

  lemma UnsignedRejectsTwoDots(u: string, i: nat, j: nat)
    requires i < j < |u| && u[i] == '.' && u[j] == '.'
    ensures UnsignedValue(u).None?
  {
    var k := IndexOf(u, '.').value;
    assert k <= i;
    var fraction := u[k + 1..];
    assert fraction[j - k - 1] == '.';
  }

  // ----- properties of the converter -----

  /** Replacing commas by dots neither creates nor removes whitespace, so a cell is blank before exactly when after. */
  lemma NormalizeKeepsBlankness(s: string)
    ensures IsBlank(Normalize(s)) <==> IsBlank(s)
  {
    var r := Normalize(s);
    NormalizeAt(s);
    if IsBlank(r) {
      forall i | 0 <= i < |s| ensures IsJavaWhitespace(s[i]) {
        assert IsJavaWhitespace(r[i]);
      }
    }
  }

  /** Writing a separator as a comma or as a dot makes no difference to the value read. */
  lemma CommaAndDotAgree(a: string, b: string, parse: string -> Option<real>)
    requires Normalize(a) == Normalize(b)
    ensures Convert(Some(a), parse).Success? <==> Convert(Some(b), parse).Success?
    ensures Convert(Some(a), parse).Success? ==> Convert(Some(a), parse) == Convert(Some(b), parse)
  {
    NormalizeKeepsBlankness(a);
    NormalizeKeepsBlankness(b);
  }

  /** A cell with two separators, whichever they are, is rejected with its own text in the message. */
  lemma MultipleSeparatorsRejected(value: string, parse: string -> Option<real>)
    requires JavaLikeParser(parse)
    requires HasTwoSeparators(value)
    ensures Convert(Some(value), parse) == Failure("Invalid number format: " + value)
  {
    var i, j :| 0 <= i < j < |value| && value[i] in ",." && value[j] in ",.";
    var r := Normalize(value);
    NormalizeAt(value);
    assert r[i] == '.' && r[j] == '.';
    assert HasTwoDots(r);
    assert !IsJavaWhitespace(value[i]);
  }

  /** A leading minus passes through unchanged: `-x` reads as the negation of `x`, with either separator. */
  lemma LeadingMinusKept(t: string, parse: string -> Option<real>)
    requires JavaLikeParser(parse)
    requires UnsignedValue(Normalize(t)).Some?
    ensures Convert(Some("-" + t), parse) == Success(Some(-UnsignedValue(Normalize(t)).value))
  {
    MinusThenNormalize(t);
    MinusIsNotBlank(t);
    ParsesPlain(parse, Normalize("-" + t));
  }

  /** Normalising `-x` gives `-` and the normalised `x`, which reads as the negation of `x`. */
  lemma MinusThenNormalize(t: string)
    requires UnsignedValue(Normalize(t)).Some?
    ensures PlainValue(Normalize("-" + t)) == Some(-UnsignedValue(Normalize(t)).value)
  {
    NormalizeMinus(t);
    PlainOfMinus(Normalize(t));
  }

  lemma MinusIsNotBlank(t: string)
    ensures !IsBlank("-" + t)
  {
    assert ("-" + t)[0] == '-';
  }

  lemma PlainOfMinus(u: string)
    requires UnsignedValue(u).Some?
    ensures PlainValue("-" + u) == Some(-UnsignedValue(u).value)
  {
    assert ("-" + u)[1..] == u;
  }

  lemma NormalizeMinus(t: string)
    ensures Normalize("-" + t) == "-" + Normalize(t)
    ensures PlainValue(Normalize("-" + t)) == PlainValue("-" + Normalize(t))
  {
    NormalizeConcat("-", t);
    assert Normalize("-") == "-";
  }

  /** A parser of that kind reads a plain decimal at its value. */
  lemma ParsesPlain(parse: string -> Option<real>, s: string)
    requires JavaLikeParser(parse)
    requires PlainValue(s).Some?
    ensures parse(s) == PlainValue(s)
  {
  }

  lemma {:induction false} NormalizeConcat(a: string, b: string)
    ensures Normalize(a + b) == Normalize(a) + Normalize(b)
    decreases |b|
  {
    if b == [] {
      assert a + b == a;
    } else {
      var init := b[..|b| - 1];
      assert (a + b)[..|a + b| - 1] == a + init;
      NormalizeConcat(a, init);
    }
  }

  /** A cell that normalises to a plain decimal reads as that decimal. */
  lemma ReadsPlainDecimal(s: string, parse: string -> Option<real>)
    requires JavaLikeParser(parse)
    requires s != [] && !IsJavaWhitespace(s[0])
    requires PlainValue(Normalize(s)).Some?
    ensures Convert(Some(s), parse) == Success(PlainValue(Normalize(s)))
  {
    ParsesPlain(parse, Normalize(s));
  }

  lemma NormalizeSamples()
    ensures Normalize("123,45") == "123.45" && Normalize("123.45") == "123.45"
    ensures Normalize("-123,45") == "-123.45" && Normalize("-123.45") == "-123.45"
  {
    NormalizeAt("123,45");
    NormalizeAt("123.45");
    NormalizeAt("-123,45");
    NormalizeAt("-123.45");
  }

  /** `123,45` and `123.45` both read as 123.45. */
  lemma CommaExample(parse: string -> Option<real>)
    requires JavaLikeParser(parse)
    ensures Convert(Some("123,45"), parse) == Success(Some(123.45))
    ensures Convert(Some("123.45"), parse) == Success(Some(123.45))
  {
    NormalizeSamples();
    OneTwoThreePointFourFive();
    ReadsPlainDecimal("123,45", parse);
    ReadsPlainDecimal("123.45", parse);
  }

  lemma OneTwoThreePointFourFive()
    ensures PlainValue("123.45") == Some(123.45)
    ensures PlainValue("-123.45") == Some(-123.45)
  {
    var u := "123.45";
    assert IndexOf(u, '.') == Some(3);
    assert u[..3] == "123" && u[4..] == "45";
    assert DigitsValue("12") == 12;
    assert DigitsValue("123") == 123;
    assert DigitsValue("45") == 45;
    assert "-123.45"[1..] == u;
  }

  /** `-123,45` and `-123.45` both read as -123.45. */
  lemma NegativeExample(parse: string -> Option<real>)
    requires JavaLikeParser(parse)
    ensures Convert(Some("-123,45"), parse) == Success(Some(-123.45))
    ensures Convert(Some("-123.45"), parse) == Success(Some(-123.45))
  {
    NormalizeSamples();
    OneTwoThreePointFourFive();
    ReadsPlainDecimal("-123,45", parse);
    ReadsPlainDecimal("-123.45", parse);
  }

  /** `12,34,56` and `12.34,56` are rejected. */
  lemma TwoSeparatorExamples(parse: string -> Option<real>)
    requires JavaLikeParser(parse)
    ensures Convert(Some("12,34,56"), parse) == Failure("Invalid number format: " + "12,34,56")
    ensures Convert(Some("12.34,56"), parse) == Failure("Invalid number format: " + "12.34,56")
  {
    assert "12,34,56"[2] in ",." && "12,34,56"[5] in ",.";
    MultipleSeparatorsRejected("12,34,56", parse);
    assert "12.34,56"[2] in ",." && "12.34,56"[5] in ",.";
    MultipleSeparatorsRejected("12.34,56", parse);
  }

  /** Null, empty and whitespace-only cells read as null, whatever the parser. */
  lemma BlankExamples(parse: string -> Option<real>)
    ensures Convert(None, parse) == Success(None)
    ensures Convert(Some(""), parse) == Success(None)
    ensures Convert(Some("   "), parse) == Success(None)
    ensures Convert(Some("\t\n"), parse) == Success(None)
  {
  }
}
