/**
 * The pieces of the .NET base library that the partner form relies on:
 * the white-space and digit character classes, `string.IsNullOrWhiteSpace`,
 * `string.Trim`, `int.TryParse` and `int.ToString`.
 */
module Text {
  import opened Nullable

  /**
   * `char.IsWhiteSpace`, which is also the regular-expression class `\s`:
   * U+0009..U+000D, U+0085, and the Unicode space, line and paragraph separators.
   */
  predicate IsWhiteSpace(c: char) {
    || ('\U{0009}' <= c <= '\U{000D}')
    || c == ' ' || c == '\U{0085}' || c == '\U{00A0}' || c == '\U{1680}'
    || ('\U{2000}' <= c <= '\U{200A}')
    || c == '\U{2028}' || c == '\U{2029}' || c == '\U{202F}' || c == '\U{205F}' || c == '\U{3000}'
  }

  /** `char.IsDigit`, restricted to the ASCII decimal digits. */
  predicate IsDigit(c: char) {
    '0' <= c <= '9'
  }

  predicate AllDigits(s: string) {
    forall i :: 0 <= i < |s| ==> IsDigit(s[i])
  }

  predicate NoWhiteSpace(s: string) {
    forall i :: 0 <= i < |s| ==> !IsWhiteSpace(s[i])
  }

  /** `string.IsNullOrWhiteSpace` of a text box's text (which is never null). */
  predicate IsBlank(s: string) {
    forall i :: 0 <= i < |s| ==> IsWhiteSpace(s[i])
  }

  /** Drops the leading characters that satisfy `white`. */
  function TrimStartBy(s: string, white: char -> bool): (r: string)
    ensures |r| <= |s| && r == s[|s| - |r|..]
    ensures forall i :: 0 <= i < |s| - |r| ==> white(s[i])
    ensures |r| > 0 ==> !white(r[0])
    ensures r == [] <==> forall i :: 0 <= i < |s| ==> white(s[i])
    decreases |s|
  {
    if |s| > 0 && white(s[0]) then TrimStartBy(s[1..], white) else s
  }

  /** Drops the trailing characters that satisfy `white`. */
  function TrimEndBy(s: string, white: char -> bool): (r: string)
    ensures |r| <= |s| && r == s[..|r|]
    ensures forall i :: |r| <= i < |s| ==> white(s[i])
    ensures |r| > 0 ==> !white(r[|r| - 1])
    ensures r == [] <==> forall i :: 0 <= i < |s| ==> white(s[i])
    decreases |s|
  {
    if |s| > 0 && white(s[|s| - 1]) then TrimEndBy(s[..|s| - 1], white) else s
  }

  function TrimBy(s: string, white: char -> bool): string {
    TrimEndBy(TrimStartBy(s, white), white)
  }

  /** `string.Trim()`: removes leading and trailing white space. */
  function Trim(s: string): string {
    TrimBy(s, IsWhiteSpace)
  }

  /** A trimmed string has no white space at either end, and it is empty exactly when the input is blank. */
  lemma TrimEnds(s: string)
    ensures |Trim(s)| > 0 ==> !IsWhiteSpace(Trim(s)[0]) && !IsWhiteSpace(Trim(s)[|Trim(s)| - 1])
    ensures Trim(s) == [] <==> IsBlank(s)
  {
    var u := TrimStartBy(s, IsWhiteSpace);
    var r := TrimEndBy(u, IsWhiteSpace);
    assert |r| > 0 ==> r[0] == u[0];
  }

  /** Trimming a string that has no white character at its ends changes nothing. */
  lemma {:induction false} TrimByUnchanged(s: string, white: char -> bool)
    requires |s| > 0 ==> !white(s[0]) && !white(s[|s| - 1])
    ensures TrimBy(s, white) == s
  {
    assert TrimStartBy(s, white) == s;
  }

  /** `TrimBy` removes white characters appended to a text whose ends are not white, and nothing else. */
  lemma TrimByDropsTrailing(c: string, w: string, white: char -> bool)
    requires |c| > 0 && !white(c[0]) && !white(c[|c| - 1])
    requires forall i :: 0 <= i < |w| ==> white(w[i])
    ensures TrimBy(c + w, white) == c
  {
    var s := c + w;
    assert s[0] == c[0];
    assert TrimStartBy(s, white) == s;
    var v := TrimEndBy(s, white);
    assert s[|c| - 1] == c[|c| - 1];
    forall i | |c| <= i < |s|
      ensures white(s[i])
    {
      assert s[i] == w[i - |c|];
    }
    assert |v| == |c|;
    assert s[..|c|] == c;
  }

  /** A string without any white space survives `Trim` unchanged. */
  lemma TrimNoWhiteSpace(s: string)
    requires NoWhiteSpace(s)
    ensures Trim(s) == s
  {
    TrimByUnchanged(s, IsWhiteSpace);
  }

  /** Trimming twice is trimming once. */
  lemma TrimIdempotent(s: string)
    ensures Trim(Trim(s)) == Trim(s)
  {
    TrimEnds(s);
    TrimByUnchanged(Trim(s), IsWhiteSpace);
  }

  // ---------------------------------------------------------------------
  // int.TryParse(string, out int) with the default NumberStyles.Integer

  const Int32Min: int := -0x8000_0000
  const Int32Max: int := 0x7FFF_FFFF

  /** The white space that number parsing skips: U+0009..U+000D and U+0020. */
  predicate IsParseWhite(c: char) {
    c == ' ' || '\U{0009}' <= c <= '\U{000D}'
  }

  function DigitValue(c: char): (v: nat)
    requires IsDigit(c)
    ensures v < 10
  {
    (c as int) - ('0' as int)
  }

  function DigitChar(d: nat): (c: char)
    requires d < 10
    ensures IsDigit(c) && DigitValue(c) == d
  {
    (('0' as int) + d) as char
  }

  /** The value of a string of decimal digits, most significant first. */
  function DigitsValue(s: string): nat
    requires AllDigits(s)
  {
    if s == [] then 0 else DigitsValue(s[..|s| - 1]) * 10 + DigitValue(s[|s| - 1])
  }

  /**
   * `int.TryParse`: optional white space, an optional sign, one or more
   * digits, optional white space; `None` when the text has another shape
   * or the value is outside the 32-bit range.
   */
  function TryParseInt32(s: string): (r: Option<int>)
    ensures r.Some? ==> Int32Min <= r.value <= Int32Max
  {
    ParseSignedDigits(TrimBy(s, IsParseWhite))
  }

  /** The part of `int.TryParse` after the surrounding white space is skipped. */
  function ParseSignedDigits(t: string): (r: Option<int>)
    ensures r.Some? ==> Int32Min <= r.value <= Int32Max
  {
    var signed := |t| > 0 && (t[0] == '-' || t[0] == '+');
    var digits := if signed then t[1..] else t;
    if digits == [] || !AllDigits(digits) then None
    else
      var magnitude: int := DigitsValue(digits);
      var v: int := if signed && t[0] == '-' then -magnitude else magnitude;
      if Int32Min <= v <= Int32Max then Some(v) else None
  }

  /** A non-empty string of digits whose value fits in 32 bits parses to that value. */
  lemma ParseDigits(s: string)
    requires |s| > 0 && AllDigits(s) && DigitsValue(s) <= Int32Max
    ensures TryParseInt32(s) == Some(DigitsValue(s))
  {
    assert IsDigit(s[0]) && IsDigit(s[|s| - 1]);
    TrimByUnchanged(s, IsParseWhite);
  }

  /** The decimal digits of a natural number, without leading zeros. */
  function NatToDigits(n: nat): (s: string)
    ensures |s| > 0 && AllDigits(s)
    ensures DigitsValue(s) == n
    decreases n
  {
    if n < 10 then [DigitChar(n)]
    else
      var init := NatToDigits(n / 10);
      var s := init + [DigitChar(n % 10)];
      assert s[..|s| - 1] == init;
      s
  }

  /** `int.ToString()` under a culture whose negative sign is "-". */
  function Int32ToString(n: int): (s: string)
    ensures |s| > 0
  {
    if n < 0 then "-" + NatToDigits(-n) else NatToDigits(n)
  }

  /** Printing a 32-bit integer and parsing the text back gives the same integer. */
  lemma ParseOfToString(n: int)
    requires Int32Min <= n <= Int32Max
    ensures TryParseInt32(Int32ToString(n)) == Some(n)
  {
    if n >= 0 {
      ParseDigits(NatToDigits(n));
    } else {
      ParseOfNegative(n);
    }
  }

  /** The negative half of `ParseOfToString`: a '-' followed by the digits of the magnitude. */
  lemma ParseOfNegative(n: int)
    requires Int32Min <= n < 0
    ensures TryParseInt32("-" + NatToDigits(-n)) == Some(n)
  {
    var d := NatToDigits(-n);
    var s := "-" + d;
    assert s[|s| - 1] == d[|d| - 1] && IsDigit(d[|d| - 1]);
    TrimByUnchanged(s, IsParseWhite);
    assert s[1..] == d;
  }

  /** A text in which some character other than a leading sign is not a digit does not parse. */
  lemma ParseRejectsNonDigit(s: string, i: nat)
    requires |s| > 0 && !IsParseWhite(s[0]) && !IsParseWhite(s[|s| - 1])
    requires i < |s| && !IsDigit(s[i]) && (i == 0 ==> s[0] != '-' && s[0] != '+')
    ensures TryParseInt32(s) == None
  {
    TrimByUnchanged(s, IsParseWhite);
    if s[0] == '-' || s[0] == '+' {
      assert s[1..][i - 1] == s[i];
    }
  }

  /** A text without any digit does not parse. */
  lemma ParseNeedsDigit(s: string)
    requires forall i :: 0 <= i < |s| ==> !IsDigit(s[i])
    ensures TryParseInt32(s) == None
  {
    var u := TrimStartBy(s, IsParseWhite);
    var t := TrimEndBy(u, IsParseWhite);
    NoDigitInSuffix(s, |s| - |u|);
    NoDigitInPrefix(u, |t|);
    SignedNeedsDigit(t);
  }

  lemma NoDigitInSuffix(s: string, k: nat)
    requires k <= |s| && forall i :: 0 <= i < |s| ==> !IsDigit(s[i])
    ensures forall j :: 0 <= j < |s| - k ==> !IsDigit(s[k..][j])
  {
    assert forall j :: 0 <= j < |s| - k ==> s[k..][j] == s[k + j];
  }

  lemma NoDigitInPrefix(s: string, k: nat)
    requires k <= |s| && forall i :: 0 <= i < |s| ==> !IsDigit(s[i])
    ensures forall j :: 0 <= j < k ==> !IsDigit(s[..k][j])
  {
  }

  /** Once the white space is skipped, a text without any digit does not parse. */
  lemma SignedNeedsDigit(t: string)
    requires forall j :: 0 <= j < |t| ==> !IsDigit(t[j])
    ensures ParseSignedDigits(t) == None
  {
    if |t| > 1 {
      assert t[1..][0] == t[1];
    }
  }

  /** Digits whose value exceeds the 32-bit range do not parse. */
  lemma ParseRejectsOverflow(s: string)
    requires |s| > 0 && AllDigits(s) && DigitsValue(s) > Int32Max
    ensures TryParseInt32(s) == None
  {
    assert IsDigit(s[0]) && IsDigit(s[|s| - 1]);
    TrimByUnchanged(s, IsParseWhite);
  }

  predicate AllParseWhite(w: string) {
    forall i :: 0 <= i < |w| ==> IsParseWhite(w[i])
  }

  /** White space put before a text is skipped along with the text's own leading white space. */
  lemma {:induction false} TrimStartSkips(w: string, x: string)
    requires AllParseWhite(w)
    ensures TrimStartBy(w + x, IsParseWhite) == TrimStartBy(x, IsParseWhite)
    decreases |w|
  {
    if w == [] {
      assert w + x == x;
    } else {
      assert (w + x)[0] == w[0] && IsParseWhite(w[0]);
      assert (w + x)[1..] == w[1..] + x;
      TrimStartSkips(w[1..], x);
    }
  }

  /** White space put after a text is skipped along with the text's own trailing white space. */
  lemma {:induction false} TrimEndSkips(x: string, w: string)
    requires AllParseWhite(w)
    ensures TrimEndBy(x + w, IsParseWhite) == TrimEndBy(x, IsParseWhite)
    decreases |w|
  {
    if w == [] {
      assert x + w == x;
    } else {
      var init := w[..|w| - 1];
      assert (x + w)[|x + w| - 1] == w[|w| - 1] && IsParseWhite(w[|w| - 1]);
      assert (x + w)[..|x + w| - 1] == x + init;
      TrimEndSkips(x, init);
    }
  }

  /** Skipping leading white space of `s + w` either consumes all of `s` or stops inside it. */
  lemma {:induction false} TrimStartOfAppend(s: string, w: string)
    ensures TrimStartBy(s, IsParseWhite) == [] ==> TrimStartBy(s + w, IsParseWhite) == TrimStartBy(w, IsParseWhite)
    ensures TrimStartBy(s, IsParseWhite) != [] ==> TrimStartBy(s + w, IsParseWhite) == TrimStartBy(s, IsParseWhite) + w
    decreases |s|
  {
    if s == [] {
      assert s + w == w;
    } else {
      assert (s + w)[0] == s[0];
      if IsParseWhite(s[0]) {
        assert (s + w)[1..] == s[1..] + w;
        TrimStartOfAppend(s[1..], w);
      }
    }
  }

  /** White space on either side of a text does not change what `int.TryParse` makes of it. */
  lemma ParseSkipsSpaces(w1: string, s: string, w2: string)
    requires AllParseWhite(w1) && AllParseWhite(w2)
    ensures TryParseInt32(w1 + s + w2) == TryParseInt32(s)
  {
    assert w1 + s + w2 == w1 + (s + w2);
    TrimStartSkips(w1, s + w2);
    TrimStartOfAppend(s, w2);
    var u := TrimStartBy(s, IsParseWhite);
    if u == [] {
      assert TrimStartBy(w2, IsParseWhite) == [];
    } else {
      TrimEndSkips(u, w2);
    }
  }

  /** The ten-digit value 2147483648, one past the largest 32-bit integer. */
  lemma DigitsValueOfOverflow()
    ensures AllDigits("2147483648") && DigitsValue("2147483648") == 2147483648
  {
    assert NatToDigits(2) == "2";
    assert NatToDigits(21) == "21";
    assert NatToDigits(214) == "214";
    assert NatToDigits(2147) == "2147";
    assert NatToDigits(21474) == "21474";
    assert NatToDigits(214748) == "214748";
    assert NatToDigits(2147483) == "2147483";
    assert NatToDigits(21474836) == "21474836";
    assert NatToDigits(214748364) == "214748364";
    assert NatToDigits(2147483648) == "2147483648";
  }

  /** Digit strings that `int.TryParse` accepts, with their values. */
  lemma TryParseAcceptsDigits()
    ensures TryParseInt32("42") == Some(42)
    ensures TryParseInt32("0") == Some(0)
  {
    assert Int32ToString(42) == "42" by { assert NatToDigits(4) == "4"; }
    ParseOfToString(42);
    assert Int32ToString(0) == "0";
    ParseOfToString(0);
  }

  /** `int.TryParse` accepts a negative number. */
  lemma TryParseAcceptsNegative()
    ensures TryParseInt32("-1") == Some(-1)
  {
    assert Int32ToString(-1) == "-1" by { assert NatToDigits(1) == "1"; }
    ParseOfToString(-1);
  }

  /** `int.TryParse` skips the spaces around a number. */
  lemma TryParseAcceptsSpaces()
    ensures TryParseInt32(" 7 ") == Some(7)
  {
    assert TryParseInt32("7") == Some(7) by {
      assert NatToDigits(7) == "7";
      ParseOfToString(7);
    }
    assert " 7 " == " " + "7" + " " && AllParseWhite(" ");
    ParseSkipsSpaces(" ", "7", " ");
  }

  /** Texts that `int.TryParse` refuses: a word, the empty text, a bare sign, an inner space, overflow. */
  lemma TryParseRejects()
    ensures TryParseInt32("abc") == None
    ensures TryParseInt32("") == None
    ensures TryParseInt32("-") == None
    ensures TryParseInt32("1 2") == None
    ensures TryParseInt32("2147483648") == None
  {
    ParseRejectsNonDigit("abc", 0);
    ParseNeedsDigit("");
    ParseNeedsDigit("-");
    ParseRejectsNonDigit("1 2", 1);
    DigitsValueOfOverflow();
    ParseRejectsOverflow("2147483648");
  }
}
