/** The JavaScript string built-ins the frontend relies on, as section 22.1.3 of ECMA-262
    (the ECMAScript Language Specification) defines them for `String.prototype.substring`,
    `String.prototype.trim` and `String.prototype.split` with the pattern /[\n,]/, and
    section 19.2.5 for the global `parseInt` without a radix. A JavaScript string is a
    sequence of UTF-16 code units; here it is a sequence of Dafny characters. */
module JsString {
  import opened Common

  /** ToIntegerOrInfinity followed by the clamp of `substring`: an index into [0, len]. */
  function Clamp(i: int, len: nat): (r: nat)
    ensures r <= len
    ensures 0 <= i <= len ==> r == i
    ensures i < 0 ==> r == 0
    ensures i > len ==> r == len
  {
    if i < 0 then 0 else if i > len then len else i
  }

  /** `s.substring(start, end)`: both bounds are clamped into the string, and swapped
      when the start lies after the end. */
  function Substring(s: string, start: int, end: int): (r: string)
    ensures |r| <= |s|
  {
    var a, b := Clamp(start, |s|), Clamp(end, |s|);
    if a <= b then s[a..b] else s[b..a]
  }

  /** WhiteSpace and LineTerminator of ECMA-262, sections 12.2 and 12.3: the characters
      `trim` removes and `parseInt` skips. The space separators are those of Unicode's Zs
      category. */
  predicate IsJsWhitespace(c: char) {
    || c == '\t' || c == '\U{000B}' || c == '\U{000C}' || c == ' ' || c == '\U{00A0}' || c == '\U{FEFF}'
    || c == '\U{1680}' || ('\U{2000}' <= c <= '\U{200A}') || c == '\U{202F}' || c == '\U{205F}' || c == '\U{3000}'
    || c == '\n' || c == '\r' || c == '\U{2028}' || c == '\U{2029}'
  }

  /** The string without its leading whitespace. */
  function TrimStart(s: string): (r: string)
    ensures |r| <= |s| && r == s[|s| - |r|..]
    ensures |r| > 0 ==> !IsJsWhitespace(r[0])
  {
    if |s| > 0 && IsJsWhitespace(s[0]) then TrimStart(s[1..]) else s
  }

  /** What TrimStart drops is whitespace. */
  lemma {:induction false} TrimStartDropsWhitespace(s: string)
    ensures forall k :: 0 <= k < |s| - |TrimStart(s)| ==> IsJsWhitespace(s[k])
  {
    if |s| > 0 && IsJsWhitespace(s[0]) {
      TrimStartDropsWhitespace(s[1..]);
      assert forall k :: 1 <= k < |s| ==> s[k] == s[1..][k - 1];
    }
  }

  /** The string without its trailing whitespace. */
  function TrimEnd(s: string): (r: string)
    ensures |r| <= |s| && r == s[..|r|]
    ensures |r| > 0 ==> !IsJsWhitespace(r[|r| - 1])
  {
    if |s| > 0 && IsJsWhitespace(s[|s| - 1]) then TrimEnd(s[..|s| - 1]) else s
  }

  /** What TrimEnd drops is whitespace. */
  lemma {:induction false} TrimEndDropsWhitespace(s: string)
    ensures forall k :: |TrimEnd(s)| <= k < |s| ==> IsJsWhitespace(s[k])
  {
    if |s| > 0 && IsJsWhitespace(s[|s| - 1]) {
      TrimEndDropsWhitespace(s[..|s| - 1]);
    }
  }

  /** `s.trim()`: the leading whitespace is skipped, then the trailing whitespace
      dropped; neither end of the result is whitespace. */
  function Trim(s: string): (r: string)
    ensures |r| <= |s|
    ensures |r| > 0 ==> !IsJsWhitespace(r[0]) && !IsJsWhitespace(r[|r| - 1])
  {
    if |s| > 0 && IsJsWhitespace(s[0]) then Trim(s[1..]) else TrimEnd(s)
  }

  /** Trim is TrimEnd after TrimStart; with their postconditions, the trimmed string is
      the piece of `s` between its leading and its trailing whitespace. */
  lemma {:induction false} TrimBothEnds(s: string)
    ensures Trim(s) == TrimEnd(TrimStart(s))
  {
    if |s| > 0 && IsJsWhitespace(s[0]) {
      TrimBothEnds(s[1..]);
    }
  }

  /** The trimmed string is empty exactly when `s` holds nothing but whitespace. */
  lemma TrimEmptyIffBlank(s: string)
    ensures Trim(s) == "" <==> forall k :: 0 <= k < |s| ==> IsJsWhitespace(s[k])
  {
    TrimBothEnds(s);
    var t := TrimStart(s);
    var i := |s| - |t|;
    if TrimEnd(t) == "" {
      TrimStartDropsWhitespace(s);
      TrimEndDropsWhitespace(t);
      assert |t| == 0;
    } else if |t| > 0 {
      assert t[0] == s[i];
    }
  }

  /** The separators of the pattern /[\n,]/. */
  predicate IsSeparator(c: char) {
    c == '\n' || c == ','
  }

  predicate NoSeparator(s: string) {
    forall k :: 0 <= k < |s| ==> !IsSeparator(s[k])
  }

  /** `s.split(/[\n,]/)`: the pieces between separators, in order. */
  function Split(s: string): (r: seq<string>)
    ensures |r| >= 1
  {
    if |s| == 0 then [""]
    else
      var rest := Split(s[1..]);
      if IsSeparator(s[0]) then [""] + rest
      else [[s[0]] + rest[0]] + rest[1..]
  }

  /** No piece holds a separator. */
  lemma {:induction false} SplitPiecesHaveNoSeparator(s: string)
    ensures forall i :: 0 <= i < |Split(s)| ==> NoSeparator(Split(s)[i])
  {
    if |s| > 0 {
      SplitPiecesHaveNoSeparator(s[1..]);
    }
  }

  /** A string without a separator is one piece. */
  lemma {:induction false} SplitNoSeparator(s: string)
    requires NoSeparator(s)
    ensures Split(s) == [s]
  {
    if |s| > 0 {
      SplitNoSeparator(s[1..]);
      assert [s[0]] + s[1..] == s;
    }
  }

  /** Splitting at a separator splits the two sides independently: the pieces of
      `a + [c] + b` are those of `a` followed by those of `b`. */
  lemma {:induction false} SplitAtSeparator(a: string, c: char, b: string)
    requires IsSeparator(c)
    ensures Split(a + [c] + b) == Split(a) + Split(b)
  {
    var s := a + [c] + b;
    if |a| == 0 {
      assert s[1..] == b;
    } else {
      var t := a[1..] + [c] + b;
      assert s == [a[0]] + t;
      assert a == [a[0]] + a[1..];
      SplitAtSeparator(a[1..], c, b);
      var pieces, tail := Split(a[1..]), Split(b);
      SplitCons(a[0], t, []);
      SplitCons(a[0], a[1..], tail);
      ConsPieces(pieces, tail);
    }
  }

  /** The first piece and the remaining pieces of a concatenation of piece lists. */
  lemma ConsPieces(pieces: seq<string>, tail: seq<string>)
    requires |pieces| >= 1
    ensures (pieces + tail)[0] == pieces[0]
    ensures (pieces + tail)[1..] + [] == pieces[1..] + tail
  {
    assert (pieces + tail)[1..] == pieces[1..] + tail;
  }

  /** One step of Split: the first character either starts a new piece or joins the
      first piece of the rest. Stated for pieces followed by any `more`. */
  lemma SplitCons(x: char, t: string, more: seq<string>)
    ensures Split([x] + t) + more ==
            if IsSeparator(x) then [""] + (Split(t) + more)
            else [[x] + Split(t)[0]] + (Split(t)[1..] + more)
  {
    assert ([x] + t)[0] == x;
    assert ([x] + t)[1..] == t;
  }

  /** The pieces kept by `.filter(line => line.trim())`. */
  function NonBlank(pieces: seq<string>): (r: seq<string>)
    ensures |r| <= |pieces|
  {
    if |pieces| == 0 then []
    else if Trim(pieces[0]) != "" then [pieces[0]] + NonBlank(pieces[1..])
    else NonBlank(pieces[1..])
  }

  /** Membership: every kept piece is a non-blank piece of the input, and every non-blank
      piece of the input is kept. Order and multiplicity are the two lemmas below. */
  lemma {:induction false} NonBlankKeepsExactly(pieces: seq<string>)
    ensures forall i :: 0 <= i < |NonBlank(pieces)| ==> Trim(NonBlank(pieces)[i]) != ""
    ensures forall i :: 0 <= i < |NonBlank(pieces)| ==> NonBlank(pieces)[i] in pieces
    ensures forall p :: p in pieces && Trim(p) != "" ==> p in NonBlank(pieces)
  {
    if |pieces| > 0 {
      NonBlankKeepsExactly(pieces[1..]);
      assert forall p :: p in pieces ==> p == pieces[0] || p in pieces[1..];
    }
  }

  /** A single piece is kept exactly when it is not blank. */
  lemma NonBlankSingle(p: string)
    ensures NonBlank([p]) == if Trim(p) != "" then [p] else []
  {
    assert [p][1..] == [];
  }

  /** The filter distributes over concatenation, so it keeps the non-blank pieces in their
      order and each as often as it occurs. */
  lemma {:induction false} NonBlankConcat(a: seq<string>, b: seq<string>)
    ensures NonBlank(a + b) == NonBlank(a) + NonBlank(b)
  {
    if |a| == 0 {
      assert a + b == b;
    } else {
      assert (a + b)[0] == a[0];
      assert (a + b)[1..] == a[1..] + b;
      NonBlankConcat(a[1..], b);
    }
  }

  // ---------------------------------------------------------------------------------
  // parseInt

  /** The value of a digit character in radix 36, or 36 for a non-digit. */
  function DigitValue(c: char): (v: nat)
    ensures v <= 36
    ensures '0' <= c <= '9' ==> v == c as int - '0' as int
  {
    if '0' <= c <= '9' then c as int - '0' as int
    else if 'a' <= c <= 'z' then c as int - 'a' as int + 10
    else if 'A' <= c <= 'Z' then c as int - 'A' as int + 10
    else 36
  }

  /** The longest prefix of `s` made of digits of the radix. */
  function DigitPrefix(s: string, radix: nat): (r: string)
    ensures |r| <= |s| && r == s[..|r|]
    ensures |r| > 0 ==> DigitValue(s[0]) < radix
  {
    if |s| == 0 || DigitValue(s[0]) >= radix then "" else [s[0]] + DigitPrefix(s[1..], radix)
  }

  /** DigitPrefix stops exactly at the first character that is not a digit. */
  lemma {:induction false} DigitPrefixIsLongest(s: string, radix: nat)
    ensures forall k :: 0 <= k < |DigitPrefix(s, radix)| ==> DigitValue(s[k]) < radix
    ensures |DigitPrefix(s, radix)| < |s| ==> DigitValue(s[|DigitPrefix(s, radix)|]) >= radix
  {
    if |s| > 0 && DigitValue(s[0]) < radix {
      DigitPrefixIsLongest(s[1..], radix);
    }
  }

  /** `b` to the power `e`. */
  function Power(b: nat, e: nat): nat {
    if e == 0 then 1 else Power(b, e - 1) * b
  }

  /** The number a string of digits denotes in the radix, most significant digit first.
      A string of n digits of the radix denotes a number below radix^n. */
  function DigitsValue(digits: string, radix: nat): (v: nat)
    ensures (forall k :: 0 <= k < |digits| ==> DigitValue(digits[k]) < radix) ==> v < Power(radix, |digits|)
  {
    if |digits| == 0 then 0
    else
      var n := |digits| - 1;
      var high := DigitsValue(digits[..n], radix);
      var low := DigitValue(digits[n]);
      assert forall k :: 0 <= k < n ==> digits[..n][k] == digits[k];
      AppendDigitBound(high, low, radix, Power(radix, n));
      high * radix + low
  }

  /** Appending a digit below the radix to a number below p gives a number below p * radix. */
  lemma AppendDigitBound(high: nat, low: nat, radix: nat, p: nat)
    ensures high < p && low < radix ==> high * radix + low < p * radix
  {
    if high < p && low < radix {
      assert high * radix <= (p - 1) * radix;
    }
  }

  /** The number after the sign: hexadecimal after "0x" or "0X", decimal otherwise, up to
      the first character that is not a digit; `None` when no digit is found. */
  function ParseUnsigned(u: string): (r: Option<nat>)
    ensures r.Some? ==> |u| > 0 && DigitValue(u[0]) < 10
  {
    var hex := |u| >= 2 && u[0] == '0' && (u[1] == 'x' || u[1] == 'X');
    var radix := if hex then 16 else 10;
    var digits := DigitPrefix(if hex then u[2..] else u, radix);
    if |digits| == 0 then None else Some(DigitsValue(digits, radix))
  }

  /** `parseInt(s)` with the radix left out: skip leading whitespace, take an optional sign,
      then read the number. `None` is NaN. */
  function ParseInt(s: string): (r: Option<int>)
    ensures (forall k :: 0 <= k < |s| ==> DigitValue(s[k]) >= 10) ==> r == None
  {
    if |s| > 0 && IsJsWhitespace(s[0]) then ParseInt(s[1..])
    else if |s| > 0 && (s[0] == '-' || s[0] == '+') then
      match ParseUnsigned(s[1..])
      case None => None
      case Some(v) => Some(if s[0] == '-' then -(v as int) else v)
    else
      match ParseUnsigned(s)
      case None => None
      case Some(v) => Some(v)
  }

  /** parseInt first trims the start of its argument. */
  lemma {:induction false} ParseIntTrimsStart(s: string)
    ensures ParseInt(s) == ParseInt(TrimStart(s))
  {
    if |s| > 0 && IsJsWhitespace(s[0]) {
      ParseIntTrimsStart(s[1..]);
    }
  }

  /** Leading whitespace does not change what parseInt reads. */
  lemma {:induction false} ParseIntSkipsPadding(padding: string, s: string)
    requires forall k :: 0 <= k < |padding| ==> IsJsWhitespace(padding[k])
    ensures ParseInt(padding + s) == ParseInt(s)
  {
    if |padding| > 0 {
      assert (padding + s)[0] == padding[0];
      assert (padding + s)[1..] == padding[1..] + s;
      ParseIntSkipsPadding(padding[1..], s);
    } else {
      assert padding + s == s;
    }
  }

  /** The decimal numeral of a natural number, without leading zeros. */
  function DecimalString(n: nat): (r: string)
    ensures |r| >= 1
    ensures forall k :: 0 <= k < |r| ==> '0' <= r[k] <= '9'
    ensures |r| > 1 ==> r[0] != '0'
  {
    var d := ['0' + (n % 10) as char];
    if n < 10 then d else DecimalString(n / 10) + d
  }

  lemma {:induction false} DecimalStringValue(n: nat)
    ensures DigitsValue(DecimalString(n), 10) == n
  {
    var r := DecimalString(n);
    if n >= 10 {
      DecimalStringValue(n / 10);
      assert r[..|r| - 1] == DecimalString(n / 10);
    }
  }

  lemma {:induction false} DigitPrefixOfDigits(s: string, radix: nat)
    requires forall k :: 0 <= k < |s| ==> DigitValue(s[k]) < radix
    ensures DigitPrefix(s, radix) == s
  {
    if |s| > 0 {
      DigitPrefixOfDigits(s[1..], radix);
      assert [s[0]] + s[1..] == s;
    }
  }

  /** `parseInt` reads back the numeral of every natural number, with or without a sign
      and leading whitespace. */
  lemma ParseIntDecimal(n: nat, padding: string, sign: string)
    requires forall k :: 0 <= k < |padding| ==> IsJsWhitespace(padding[k])
    requires sign == "" || sign == "+" || sign == "-"
    ensures ParseInt(padding + sign + DecimalString(n)) == Some(if sign == "-" then -(n as int) else n)
  {
    var rest := sign + DecimalString(n);
    assert padding + sign + DecimalString(n) == padding + rest;
    ParseIntSkipsPadding(padding, rest);
    if sign == "" {
      assert rest == DecimalString(n);
      ParseIntNumeral(n);
    } else {
      assert rest == [sign[0]] + DecimalString(n);
      ParseIntSignedNumeral(n, sign[0]);
    }
  }

  lemma ParseIntNumeral(n: nat)
    ensures ParseInt(DecimalString(n)) == Some(n)
  {
    var ds := DecimalString(n);
    assert '0' <= ds[0] <= '9';
    ParseUnsignedDecimal(n);
  }

  lemma ParseIntSignedNumeral(n: nat, sign: char)
    requires sign == '+' || sign == '-'
    ensures ParseInt([sign] + DecimalString(n)) == Some(if sign == '-' then -(n as int) else n)
  {
    var s := [sign] + DecimalString(n);
    assert s[0] == sign;
    assert s[1..] == DecimalString(n);
    ParseUnsignedDecimal(n);
  }

  lemma ParseUnsignedDecimal(n: nat)
    ensures ParseUnsigned(DecimalString(n)) == Some(n)
  {
    var ds := DecimalString(n);
    DigitPrefixOfDigits(ds, 10);
    DecimalStringValue(n);
  }
}
