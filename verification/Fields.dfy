/** Decimal numbers, and lines split at separators. */
module Fields {

  datatype Option<T> = None | Some(value: T)

  // ----- decimal numbers

  function Digit(d: int): char
    requires 0 <= d < 10
  {
    "0123456789"[d]
  }

  function Digits(n: nat): string { if n < 10 then [Digit(n)] else Digits(n / 10) + [Digit(n % 10)] }

  /** The text of a signed number. */
  function Decimal(n: int): string { if n < 0 then "-" + Digits(-n) else Digits(n) }

  predicate IsDigit(c: char) { '0' <= c <= '9' }

  predicate AllDigits(s: string) { forall i :: 0 <= i < |s| ==> IsDigit(s[i]) }

  /** An optional minus sign and at least one digit. */
  predicate IsInt(s: string) {
    var digits := if s != "" && s[0] == '-' then s[1..] else s;
    digits != "" && AllDigits(digits)
  }

  function DigitValue(c: char): nat
    requires IsDigit(c)
  {
    c as int - '0' as int
  }

  function ValueOf(digits: string): (n: nat)
    requires AllDigits(digits)
    decreases |digits|
  {
    if digits == "" then 0
    else
      ValueOf(digits[..|digits| - 1]) * 10 + DigitValue(digits[|digits| - 1])
  }

  predicate IsInt32(n: int) { -0x8000_0000 <= n < 0x8000_0000 }

  predicate IsBlank(c: char) { c == ' ' || '\t' <= c <= '\r' }

  function SkipBlanks(s: string): (r: string)
    ensures |r| <= |s|
  {
    if s != "" && IsBlank(s[0]) then SkipBlanks(s[1..]) else s
  }

  /** A number that fills the whole string after leading blanks and a sign, in 32 bits. */
  function StrictInt(s: string): Option<int> {
    var t := SkipBlanks(s);
    var negative := t != "" && t[0] == '-';
    var digits := if t != "" && (t[0] == '-' || t[0] == '+') then t[1..] else t;
    if digits == "" || !AllDigits(digits) then None
    else
      var v: int := ValueOf(digits);
      var n: int := if negative then -v else v;
      if IsInt32(n) then Some(n) else None
  }

  lemma {:induction false} DigitsAreDigits(n: nat)
    ensures Digits(n) != "" && AllDigits(Digits(n)) && ValueOf(Digits(n)) == n
    decreases n
  {
    var d := Digit(n % 10);
    assert IsDigit(d) && d as int - '0' as int == n % 10 by { DigitIsDigit(n % 10); }
    if n < 10 {
      assert ValueOf([]) == 0;
      assert [d][..0] == [];
    } else {
      DigitsAreDigits(n / 10);
      var front := Digits(n / 10);
      assert (front + [d])[..|front|] == front;
    }
  }

  lemma DigitIsDigit(d: int)
    requires 0 <= d < 10
    ensures IsDigit(Digit(d)) && Digit(d) as int - '0' as int == d
  {
  }

  /** Only digits and the minus sign appear in a number. */
  predicate IsNumeral(s: string) { s != "" && forall i :: 0 <= i < |s| ==> IsDigit(s[i]) || s[i] == '-' }

  lemma DecimalIsNumeral(n: int)
    ensures IsInt(Decimal(n)) && IsNumeral(Decimal(n))
  {
    hide Digits;
    DigitsAreDigits(if n < 0 then -n else n);
  }

  /** A printed 32-bit number is read back. */
  lemma StrictIntOfDecimal(n: int)
    requires IsInt32(n)
    ensures StrictInt(Decimal(n)) == Some(n)
  {
    hide Digits, ValueOf;
    var digits := Digits(if n < 0 then -n else n);
    DigitsAreDigits(if n < 0 then -n else n);
    assert IsDigit(digits[0]);
    if n < 0 { assert Decimal(n)[1..] == digits; }
  }

  // ----- splitting

  /** The pieces between the separators. */
  function Split(s: string, sep: string): (r: seq<string>)
    requires sep != ""
    ensures r != []
    decreases |s|
  {
    if s == "" then [""]
    else if sep <= s then [""] + Split(s[|sep|..], sep)
    else
      var rest := Split(s[1..], sep);
      [[s[0]] + rest[0]] + rest[1..]
  }

  function Join(parts: seq<string>, sep: string): string
    requires parts != []
  {
    if |parts| == 1 then parts[0] else parts[0] + sep + Join(parts[1..], sep)
  }

  lemma {:induction false} SplitPlain(s: string, sep: string)
    requires sep != "" && sep[0] !in s
    ensures Split(s, sep) == [s]
    decreases |s|
  {
    if s != "" {
      assert s[0] in s && s[0] != sep[0];
      SplitPlain(s[1..], sep);
      assert [s[0]] + s[1..] == s;
    }
  }

  lemma {:induction false} SplitFirst(part: string, rest: string, sep: string)
    requires sep != "" && sep[0] !in part
    ensures Split(part + sep + rest, sep) == [part] + Split(rest, sep)
    decreases |part|
  {
    var s := part + sep + rest;
    if part == "" {
      assert s == sep + rest;
      assert s[|sep|..] == rest;
    } else {
      assert s[0] == part[0] && s[1..] == part[1..] + sep + rest;
      assert !(sep <= s) by { assert s[0] != sep[0]; }
      SplitFirst(part[1..], rest, sep);
      assert [part[0]] + part[1..] == part;
    }
  }

  /** Splitting at a separator whose first character is in no part undoes joining. */
  lemma {:induction false} SplitOfJoin(parts: seq<string>, sep: string)
    requires sep != "" && parts != [] && forall i :: 0 <= i < |parts| ==> sep[0] !in parts[i]
    ensures Split(Join(parts, sep), sep) == parts
    decreases |parts|
  {
    if |parts| == 1 {
      SplitPlain(parts[0], sep);
    } else {
      SplitOfJoin(parts[1..], sep);
      SplitFirst(parts[0], Join(parts[1..], sep), sep);
    }
  }

  /** The first separator at or after a position, or the end. */
  method FindChar(s: string, c: char, start: nat) returns (pos: nat)
    requires start <= |s|
    ensures start <= pos <= |s| && c !in s[start..pos] && (pos < |s| ==> s[pos] == c)
  {
    pos := start;
    while pos < |s| && s[pos] != c
      invariant start <= pos <= |s| && c !in s[start..pos]
    {
      pos := pos + 1;
    }
  }

  method SplitChar(s: string, c: char) returns (parts: seq<string>)
    ensures parts == Split(s, [c])
  {
    hide Split;
    parts := [];
    var start := 0;
    assert s[0..] == s;
    while true
      invariant start <= |s| && Split(s, [c]) == parts + Split(s[start..], [c])
      decreases |s| - start
    {
      var pos := FindChar(s, c, start);
      var part := s[start..pos];
      if pos == |s| {
        assert s[start..] == part;
        SplitPlain(part, [c]);
        parts := parts + [part];
        return;
      }
      assert s[start..] == part + [c] + s[pos + 1..];
      SplitFirst(part, s[pos + 1..], [c]);
      parts := parts + [part];
      start := pos + 1;
    }
  }

  // ----- blank-separated words

  function Word(s: string): (w: string)
    ensures |w| <= |s| && w == s[..|w|]
  {
    if s == "" || IsSpace(s[0]) then "" else [s[0]] + Word(s[1..])
  }

  predicate IsSpace(c: char) { IsBlank(c) || '\U{1c}' <= c <= '\U{1f}' }

  /** The maximal runs of characters that are not white space. */
  function Words(s: string): seq<string>
    decreases |s|
  {
    if s == "" then []
    else if IsSpace(s[0]) then Words(s[1..])
    else
      var w := Word(s);
      [w] + Words(s[|w|..])
  }

  predicate IsToken(s: string) { s != "" && forall i :: 0 <= i < |s| ==> !IsSpace(s[i]) }

  lemma {:induction false} WordOfToken(t: string, rest: string)
    requires IsToken(t) && (rest == "" || IsSpace(rest[0]))
    ensures Word(t + rest) == t
  {
    var s := t + rest;
    assert s[0] == t[0] && s[1..] == t[1..] + rest;
    if |t| > 1 {
      WordOfToken(t[1..], rest);
    } else {
      assert s[1..] == rest;
    }
  }

  /** Words of tokens joined by spaces are the tokens. */
  lemma {:induction false} WordsOfJoin(tokens: seq<string>)
    requires tokens != [] && forall i :: 0 <= i < |tokens| ==> IsToken(tokens[i])
    ensures Words(Join(tokens, " ")) == tokens
    decreases |tokens|
  {
    hide Word;
    var t := tokens[0];
    if |tokens| == 1 {
      WordOfToken(t, "");
      assert t + "" == t && t[|t|..] == "";
    } else {
      var rest := Join(tokens[1..], " ");
      var s := t + " " + rest;
      WordOfToken(t, " " + rest);
      assert t + (" " + rest) == s;
      assert s[|t|..] == " " + rest && (" " + rest)[1..] == rest;
      WordsOfJoin(tokens[1..]);
    }
  }
}
