/**
 * src/v1/middlewares/bodySize.middleware.ts: `parseSize` for limits such as "10mb", and
 * the decision that refuses a request whose Content-Length header (section 8.6 of
 * RFC 9110) exceeds the limit. Numbers are JavaScript numbers: a value or NaN.
 */
module BodySize {
  import opened Wrappers
  import opened Numerals
  import opened Strings

  datatype Number = Finite(value: int) | NaN

  /** The longest prefix made of decimal digits. */
  function DigitPrefix(s: string): (d: string)
    ensures |d| <= |s| && d == s[..|d|] && AllDigits(d)
    ensures |d| < |s| ==> !IsDigit(s[|d|])
    decreases |s|
  {
    if s != [] && IsDigit(s[0]) then [s[0]] + DigitPrefix(s[1..]) else []
  }

  /** `parseInt(s, 10)`: skip white space, then read an optionally signed run of digits. */
  function ParseInt(s: string): (n: Number)
    ensures s == [] ==> n == NaN
    ensures n.NaN? <==> DigitPrefix(Unsigned(TrimStart(s))) == []
  {
    ReadSigned(TrimStart(s))
  }

  /** What follows one leading sign, if there is one. */
  function Unsigned(t: string): (u: string)
    ensures |u| <= |t|
  {
    if |t| > 0 && (t[0] == '-' || t[0] == '+') then t[1..] else t
  }

  /** The optionally signed digit run at the start of `t`; NaN when no digit follows the sign. */
  function ReadSigned(t: string): Number {
    var digits := DigitPrefix(Unsigned(t));
    if digits == [] then NaN
    else if |t| > 0 && t[0] == '-' then Finite(0 - DigitsValue(digits))
    else Finite(DigitsValue(digits))
  }

  /** A string of digits alone is read as its decimal value. */
  lemma ParseIntOfDigits(s: string)
    requires s != [] && AllDigits(s)
    ensures ParseInt(s) == Finite(DigitsValue(s))
  {
    TrimStartAtDigit(s);
    ReadAllDigits(s);
  }

  lemma ReadAllDigits(s: string)
    requires s != [] && AllDigits(s)
    ensures ReadSigned(s) == Finite(DigitsValue(s))
  {
    DigitPrefixAll(s);
    assert Unsigned(s) == s;
  }

  /** A string starting with a digit has no leading white space to skip. */
  lemma TrimStartAtDigit(s: string)
    requires s != [] && IsDigit(s[0])
    ensures TrimStart(s) == s
  {
    DigitNotSpace(s[0]);
  }

  lemma DigitNotSpace(c: char)
    requires IsDigit(c)
    ensures !JsSpace(c)
  {
  }

  /** The digit run of an all-digit string is the whole string. */
  lemma DigitPrefixAll(s: string)
    requires AllDigits(s)
    ensures DigitPrefix(s) == s
  {
  }

  /**
   * `parseInt` skips leading white space, reads an optional sign and then the digit run,
   * ignoring whatever follows the run.
   */
  lemma ParseIntReadsDigitRun(space: string, sign: string, digits: string, rest: string)
    requires Blank(space)
    requires sign == "" || sign == "+" || sign == "-"
    requires digits != [] && AllDigits(digits)
    requires rest == [] || !IsDigit(rest[0])
    ensures ParseInt(space + (sign + (digits + rest))) ==
              Finite(if sign == "-" then 0 - DigitsValue(digits) else DigitsValue(digits))
  {
    ReadSignedRun(sign, digits, rest);
    ParseIntAfterSpace(space, sign + (digits + rest));
  }

  /** Text that is blank, or whose first other character starts no signed digit run, reads as NaN. */
  lemma ParseIntWithoutDigitRun(space: string, t: string)
    requires Blank(space)
    requires t == [] || (!JsSpace(t[0]) && !IsDigit(t[0]))
    requires t != [] && (t[0] == '+' || t[0] == '-') ==> |t| == 1 || !IsDigit(t[1])
    ensures ParseInt(space + t) == NaN
  {
    if t == [] {
      assert space + t == space;
      BlankTrimsAway(space);
    } else {
      ParseIntAfterSpace(space, t);
    }
  }

  /** Nothing is left of blank text after the leading white space is skipped. */
  lemma BlankTrimsAway(s: string)
    requires Blank(s)
    ensures TrimStart(s) == []
  {
  }

  /** An optional sign and a digit run: the first character is not white space, and the run is read with its sign. */
  lemma ReadSignedRun(sign: string, digits: string, rest: string)
    requires sign == "" || sign == "+" || sign == "-"
    requires digits != [] && AllDigits(digits)
    requires rest == [] || !IsDigit(rest[0])
    ensures !JsSpace((sign + (digits + rest))[0])
    ensures ReadSigned(sign + (digits + rest)) ==
              Finite(if sign == "-" then 0 - DigitsValue(digits) else DigitsValue(digits))
  {
    var t := digits + rest;
    if sign == "" {
      assert sign + t == t by { assert |sign| == 0; }
      ReadUnsigned(digits, rest);
    } else {
      ReadAfterSign(sign, digits, rest);
    }
  }

  /** After one sign the run is read from the following character. */
  lemma ReadAfterSign(sign: string, digits: string, rest: string)
    requires sign == "+" || sign == "-"
    requires digits != [] && AllDigits(digits)
    requires rest == [] || !IsDigit(rest[0])
    ensures !JsSpace((sign + (digits + rest))[0])
    ensures ReadSigned(sign + (digits + rest)) ==
              Finite(if sign == "-" then 0 - DigitsValue(digits) else DigitsValue(digits))
  {
    if sign == "+" {
      PlusRun(digits, rest);
    } else {
      MinusRun(digits, rest);
    }
  }

  lemma PlusRun(digits: string, rest: string)
    requires digits != [] && AllDigits(digits)
    requires rest == [] || !IsDigit(rest[0])
    ensures !JsSpace(("+" + (digits + rest))[0])
    ensures ReadSigned("+" + (digits + rest)) == Finite(DigitsValue(digits))
  {
    DigitRunFirst(digits, rest);
    SignedTail("+", digits + rest);
    ReadPositive("+" + (digits + rest));
  }

  lemma MinusRun(digits: string, rest: string)
    requires digits != [] && AllDigits(digits)
    requires rest == [] || !IsDigit(rest[0])
    ensures !JsSpace(("-" + (digits + rest))[0])
    ensures ReadSigned("-" + (digits + rest)) == Finite(0 - DigitsValue(digits))
  {
    DigitRunFirst(digits, rest);
    SignedTail("-", digits + rest);
    ReadNegated("-" + (digits + rest));
  }

  lemma SignedTail(sign: string, t: string)
    requires |sign| == 1
    ensures |sign + t| > 0 && (sign + t)[0] == sign[0] && (sign + t)[1..] == t
  {
    assert (sign + t)[1..] == t;
  }

  /** An unsigned digit run is read as its value. */
  lemma ReadUnsigned(digits: string, rest: string)
    requires digits != [] && AllDigits(digits)
    requires rest == [] || !IsDigit(rest[0])
    ensures !JsSpace((digits + rest)[0])
    ensures ReadSigned(digits + rest) == Finite(DigitsValue(digits))
  {
    var t := digits + rest;
    DigitRunFirst(digits, rest);
    DigitNotSpace(t[0]);
  }

  /** After a plus sign the digit run is read as it is. */
  lemma ReadPositive(u: string)
    requires |u| > 0 && u[0] == '+'
    requires DigitPrefix(u[1..]) != []
    ensures ReadSigned(u) == Finite(DigitsValue(DigitPrefix(u[1..])))
  {
  }

  /** After a minus sign the digit run is read negated. */
  lemma ReadNegated(u: string)
    requires |u| > 0 && u[0] == '-'
    requires DigitPrefix(u[1..]) != []
    ensures ReadSigned(u) == Finite(0 - DigitsValue(DigitPrefix(u[1..])))
  {
  }

  /** After leading white space, `parseInt` reads from the first other character. */
  lemma ParseIntAfterSpace(space: string, t: string)
    requires Blank(space)
    requires t != [] && !JsSpace(t[0])
    ensures ParseInt(space + t) == ReadSigned(t)
  {
    SkipSpace(space, t);
  }

  /** White space followed by a non-space character is trimmed to exactly that character onwards. */
  lemma SkipSpace(space: string, t: string)
    requires Blank(space)
    requires t != [] && !JsSpace(t[0])
    ensures TrimStart(space + t) == t
  {
    var r := TrimStart(space + t);
    var s := space + t;
    assert s[|space|] == t[0];
    assert |s| - |r| <= |space|;
  }

  /** The digit run of a digit string followed by a non-digit is that digit string. */
  lemma DigitRunFirst(digits: string, rest: string)
    requires digits != [] && AllDigits(digits)
    requires rest == [] || !IsDigit(rest[0])
    ensures DigitPrefix(digits + rest) == digits
  {
    var s := digits + rest;
    var d := DigitPrefix(s);
    assert IsDigit(s[|digits| - 1]);
    if |digits| < |s| {
      assert !IsDigit(s[|digits|]);
    }
  }

  function LowerChar(c: char): char {
    if 'A' <= c <= 'Z' then (c as int + 32) as char else c
  }

  /** `toLowerCase` on the ASCII letters. */
  function Lower(s: string): (r: string)
    ensures |r| == |s|
    decreases |s|
  {
    if s == [] then [] else [LowerChar(s[0])] + Lower(s[1..])
  }

  predicate IsLowerLetter(c: char) {
    'a' <= c <= 'z'
  }

  predicate AllLowerLetters(s: string) {
    forall i :: 0 <= i < |s| ==> IsLowerLetter(s[i])
  }

  /** The two capture groups of `/^(\d+)([a-z]+)$/`. */
  datatype SizeParts = SizeParts(amount: string, unit: string)

  /** The regular-expression match: a run of digits followed by a run of lower-case letters, and nothing else. */
  function MatchSize(s: string): (m: Option<SizeParts>)
    ensures m.Some? ==> && s == m.value.amount + m.value.unit
                        && m.value.amount != [] && AllDigits(m.value.amount)
                        && m.value.unit != [] && AllLowerLetters(m.value.unit)
  {
    var d := DigitPrefix(s);
    var rest := s[|d|..];
    if d != [] && rest != [] && AllLowerLetters(rest) then Some(SizeParts(d, rest)) else None
  }

  /** Every string of the pattern's shape matches, with exactly these groups. */
  lemma {:induction false} MatchSizeComplete(amount: string, unit: string)
    requires amount != [] && AllDigits(amount)
    requires unit != [] && AllLowerLetters(unit)
    ensures MatchSize(amount + unit) == Some(SizeParts(amount, unit))
  {
    var s := amount + unit;
    var d := DigitPrefix(s);
    assert IsDigit(s[|amount| - 1]) && !IsDigit(s[|amount|]);
    assert d == amount;
    assert s[|d|..] == unit;
  }

  /** The byte multipliers, looked up as an object property; "constructor" finds a function. */
  function Multiplier(unit: string): (m: Number)
    ensures m.NaN? <==> unit == "constructor"
    ensures unit == "b" ==> m == Finite(1)
    ensures unit == "kb" ==> m == Finite(1024)
    ensures unit == "mb" ==> m == Finite(1024 * 1024)
    ensures unit == "gb" ==> m == Finite(1024 * 1024 * 1024)
    ensures unit != "b" && unit != "kb" && unit != "mb" && unit != "gb" && unit != "constructor" ==> m == Finite(1)
  {
    if unit == "b" then Finite(1)
    else if unit == "kb" then Finite(1024)
    else if unit == "mb" then Finite(1024 * 1024)
    else if unit == "gb" then Finite(1024 * 1024 * 1024)
    else if unit == "constructor" then NaN
    else Finite(1)
  }

  function Times(a: Number, b: Number): (r: Number)
    ensures r.Finite? <==> a.Finite? && b.Finite?
    ensures r.Finite? ==> r.value == a.value * b.value
  {
    if a.NaN? || b.NaN? then NaN else Finite(a.value * b.value)
  }

  /** `parseSize(size)`: a matching size is amount times unit; anything else is `parseInt` of the original text. */
  function ParseSize(size: string): (n: Number)
    ensures MatchSize(Lower(size)).None? ==> n == ParseInt(size)
    ensures MatchSize(Lower(size)).Some? ==>
              n == Times(Finite(DigitsValue(MatchSize(Lower(size)).value.amount)), Multiplier(MatchSize(Lower(size)).value.unit))
  {
    match MatchSize(Lower(size))
    case None => ParseInt(size)
    case Some(parts) =>
      ParseIntOfDigits(parts.amount);
      Times(ParseInt(parts.amount), Multiplier(parts.unit))
  }

  lemma {:induction false} LowerIdempotent(s: string)
    ensures Lower(Lower(s)) == Lower(s)
    decreases |s|
  {
    if s != [] {
      LowerIdempotent(s[1..]);
    }
  }

  /** Lower-casing moves only 'A'..'Z', none of which is a space, a sign or a digit. */
  lemma LowerCharKeeps(c: char)
    ensures JsSpace(LowerChar(c)) == JsSpace(c) && IsDigit(LowerChar(c)) == IsDigit(c)
    ensures (LowerChar(c) == '-') == (c == '-') && (LowerChar(c) == '+') == (c == '+')
    ensures IsDigit(c) ==> LowerChar(c) == c
  {
  }

  lemma {:induction false} TrimStartLower(s: string)
    ensures TrimStart(Lower(s)) == Lower(TrimStart(s))
    decreases |s|
  {
    if s != [] {
      LowerCharKeeps(s[0]);
      assert Lower(s) == [LowerChar(s[0])] + Lower(s[1..]);
      assert Lower(s)[0] == LowerChar(s[0]) && Lower(s)[1..] == Lower(s[1..]);
      if JsSpace(s[0]) {
        TrimStartLower(s[1..]);
      }
    }
  }

  lemma {:induction false} DigitPrefixLower(s: string)
    ensures DigitPrefix(Lower(s)) == DigitPrefix(s)
    decreases |s|
  {
    if s != [] {
      LowerCharKeeps(s[0]);
      assert Lower(s)[0] == LowerChar(s[0]) && Lower(s)[1..] == Lower(s[1..]);
      DigitPrefixLower(s[1..]);
    }
  }

  /** Lower-casing never changes what `parseInt` reads: spaces, signs and digits are not letters. */
  lemma ParseIntIgnoresCase(s: string)
    ensures ParseInt(Lower(s)) == ParseInt(s)
  {
    TrimStartLower(s);
    ReadSignedLower(TrimStart(s));
  }

  lemma ReadSignedLower(t: string)
    ensures ReadSigned(Lower(t)) == ReadSigned(t)
  {
    UnsignedLower(t);
    DigitPrefixLower(Unsigned(t));
    if |t| > 0 {
      LowerCharKeeps(t[0]);
      assert Lower(t)[0] == LowerChar(t[0]);
    }
  }

  lemma UnsignedLower(t: string)
    ensures Unsigned(Lower(t)) == Lower(Unsigned(t))
  {
    if |t| > 0 {
      LowerCharKeeps(t[0]);
      assert Lower(t)[0] == LowerChar(t[0]) && Lower(t)[1..] == Lower(t[1..]);
    }
  }

  /** Sizes are case-insensitive: "10MB" and "10mb" give the same limit. */
  lemma ParseSizeIgnoresCase(size: string)
    ensures ParseSize(Lower(size)) == ParseSize(size)
  {
    LowerIdempotent(size);
    ParseIntIgnoresCase(size);
  }

  /** "<digits><unit>" is the digits' value times the unit's multiplier; an unknown unit counts as bytes. */
  lemma SizeWithUnit(amount: string, unit: string)
    requires amount != [] && AllDigits(amount)
    requires unit != [] && AllLowerLetters(unit)
    ensures ParseSize(amount + unit) == Times(Finite(DigitsValue(amount)), Multiplier(unit))
    ensures unit !in {"b", "kb", "mb", "gb", "constructor"} ==> ParseSize(amount + unit) == Finite(DigitsValue(amount))
  {
    LowerOfShape(amount + unit);
    MatchSizeComplete(amount, unit);
  }

  /** Digits and lower-case letters are left alone by lower-casing. */
  lemma {:induction false} LowerOfShape(s: string)
    requires forall i :: 0 <= i < |s| ==> IsDigit(s[i]) || IsLowerLetter(s[i])
    ensures Lower(s) == s
    decreases |s|
  {
    if s != [] {
      LowerOfShape(s[1..]);
    }
  }

  /** A limit given as bare digits is that many bytes. */
  lemma DigitsOnlySize(size: string)
    requires size != [] && AllDigits(size)
    ensures ParseSize(size) == Finite(DigitsValue(size))
  {
    LowerOfShape(size);
    NoUnitNoMatch(size);
    ParseIntOfDigits(size);
  }

  /** Digits without a unit do not match the size pattern. */
  lemma NoUnitNoMatch(size: string)
    requires AllDigits(size)
    ensures MatchSize(size).None?
  {
    DigitPrefixAll(size);
  }

  /** The default limit "10mb" is ten mebibytes. */
  lemma DefaultLimit()
    ensures ParseSize(DefaultMaxSize) == Finite(10485760)
  {
    var amount, unit := "10", "mb";
    assert amount + unit == DefaultMaxSize;
    assert AllDigits(amount) && AllLowerLetters(unit);
    SizeWithUnit(amount, unit);
    TenValue();
  }

  lemma TenValue()
    ensures DigitsValue("10") == 10
  {
    assert "10"[..1] == "1";
  }

  const DefaultMaxSize := "10mb"
  const TooLargeMessage := "Request entity too large"

  /** Either `next()` or the 413 response, which echoes the configured limit. */
  datatype SizeDecision = Proceed | TooLarge(status: int, message: string, maxSize: string)

  /** JavaScript's `>`: false whenever either side is NaN. */
  predicate Exceeds(a: Number, b: Number) {
    a.Finite? && b.Finite? && a.value > b.value
  }

  /** `bodySizeLimit(maxSize)` for one request carrying the given Content-Length header, if any. */
  function BodySizeLimit(maxSize: string, contentLength: Option<string>): (d: SizeDecision)
    ensures d.TooLarge? <==>
              contentLength.Some? && contentLength.value != "" && Exceeds(ParseInt(contentLength.value), ParseSize(maxSize))
    ensures d.TooLarge? ==> d == TooLarge(413, TooLargeMessage, maxSize)
    ensures contentLength.None? ==> d == Proceed
  {
    if contentLength.Some? && contentLength.value != "" then
      if Exceeds(ParseInt(contentLength.value), ParseSize(maxSize)) then TooLarge(413, TooLargeMessage, maxSize)
      else Proceed
    else Proceed
  }

  /**
   * A well-formed Content-Length (one or more digits) is refused exactly when it is strictly
   * larger than a finite limit; a body of exactly the limit passes.
   */
  lemma ContentLengthAgainstLimit(maxSize: string, length: string)
    requires length != [] && AllDigits(length)
    ensures BodySizeLimit(maxSize, Some(length)).TooLarge? <==>
              ParseSize(maxSize).Finite? && DigitsValue(length) > ParseSize(maxSize).value
  {
    ParseIntOfDigits(length);
  }

  /** Under the default limit, 10485760 bytes pass and 10485761 bytes are refused. */
  lemma DefaultLimitBoundary(length: string)
    requires length != [] && AllDigits(length)
    ensures BodySizeLimit(DefaultMaxSize, Some(length)).TooLarge? <==> DigitsValue(length) > 10485760
  {
    DefaultLimit();
    ContentLengthAgainstLimit(DefaultMaxSize, length);
  }
}
