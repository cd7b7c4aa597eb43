/** The query tokenizer and the two encoders that feed it: `eatToken` and `encode` of
    the query interface, and the argument joining of the Python client. */
module Tokens {

  /** The text after its leading spaces. */
  function Strip(s: string): (r: string)
    ensures |r| <= |s|
    ensures r == "" || r[0] != ' '
  {
    if s != "" && s[0] == ' ' then Strip(s[1..]) else s
  }

  method StripPrefix(s: string) returns (r: string)
    ensures r == Strip(s)
  {
    var begin := 0;
    while begin < |s| && s[begin] == ' '
      invariant begin <= |s|
      invariant Strip(s[begin..]) == Strip(s)
    {
      begin := begin + 1;
    }
    r := s[begin..];
  }

  /** What one scan decodes from `s`, and the text it leaves unread. A backslash takes the
      next character literally, an unescaped quote toggles quoting, and a space ends the
      token only outside quotes. */
  function Scan(s: string, inQuotes: bool): (r: (string, string))
    ensures |r.1| <= |s|
    ensures s != "" && s[0] != ' ' ==> |r.1| < |s|
  {
    if s == "" then ("", "")
    else if s[0] == '\\' then
      if |s| == 1 then ("\\", "")
      else var (t, rest) := Scan(s[2..], inQuotes); ([s[1]] + t, rest)
    else if s[0] == '"' then Scan(s[1..], !inQuotes)
    else if s[0] == ' ' && !inQuotes then ("", s)
    else var (t, rest) := Scan(s[1..], inQuotes); ([s[0]] + t, rest)
  }

  function Eat(s: string): (r: (string, string))
    ensures |r.1| <= |s|
    ensures Strip(s) != "" ==> |r.1| < |s|
  {
    Scan(Strip(s), false)
  }

  lemma ScanStep(s: string, inQuotes: bool)
    requires s != ""
    ensures Scan(s, inQuotes) ==
      if s[0] == '\\' then
        if |s| == 1 then ("\\", "") else Prefix(s[1], Scan(s[2..], inQuotes))
      else if s[0] == '"' then Scan(s[1..], !inQuotes)
      else if s[0] == ' ' && !inQuotes then ("", s)
      else Prefix(s[0], Scan(s[1..], inQuotes))
  {
  }

  function Prefix(c: char, r: (string, string)): (string, string) { ([c] + r.0, r.1) }

  lemma ScanEnd(inQuotes: bool)
    ensures Scan("", inQuotes) == ("", "")
  {
  }

  method EatToken(s: string) returns (decoded: string, unread: string)
    ensures decoded == Eat(s).0 && unread == Eat(s).1
  {
    hide Scan;
    var input := StripPrefix(s);
    decoded := "";
    var inQuotes := false;
    var i := 0;
    assert input[0..] == input;
    while i < |input|
      invariant i <= |input|
      invariant Eat(s).0 == decoded + Scan(input[i..], inQuotes).0
      invariant Eat(s).1 == Scan(input[i..], inQuotes).1
    {
      var c := input[i];
      ScanStep(input[i..], inQuotes);
      assert input[i..][1..] == input[i + 1..];
      if c == '\\' {
        if i + 1 == |input| {
          ScanEnd(inQuotes);
          decoded := decoded + ['\\'];
          i := i + 1;
        } else {
          assert input[i..][2..] == input[i + 2..];
          decoded := decoded + [input[i + 1]];
          i := i + 2;
        }
      } else if c == '"' {
        inQuotes := !inQuotes;
        i := i + 1;
      } else if c == ' ' && !inQuotes {
        return decoded, input[i..];
      } else {
        decoded := decoded + [c];
        i := i + 1;
      }
    }
    ScanEnd(inQuotes);
    unread := "";
  }

  function Escape(s: string): string {
    if s == "" then ""
    else (if s[0] == '"' || s[0] == '\\' then ['\\', s[0]] else [s[0]]) + Escape(s[1..])
  }

  function Encoded(s: string): string { "\"" + Escape(s) + "\"" }

  predicate NeedsEncoding(s: string) { ' ' in s || '"' in s || '\\' in s }

  function EncodedIfNecessary(s: string): string {
    if NeedsEncoding(s) then Encoded(s) else s
  }

  method Encode(s: string) returns (out: string)
    ensures out == Encoded(s)
  {
    out := "\"";
    for i := 0 to |s|
      invariant Encoded(s) == out + Escape(s[i..]) + "\""
    {
      if s[i] == '"' || s[i] == '\\' {
        out := out + "\\";
      }
      out := out + [s[i]];
    }
    out := out + "\"";
  }

  function EncodedAll(args: seq<string>): (words: seq<string>)
    ensures |words| == |args|
    ensures forall i :: 0 <= i < |args| ==> words[i] == EncodedIfNecessary(args[i])
  {
    if args == [] then [] else [EncodedIfNecessary(args[0])] + EncodedAll(args[1..])
  }

  function SpaceJoined(words: seq<string>): string {
    if words == [] then ""
    else if |words| == 1 then words[0]
    else words[0] + " " + SpaceJoined(words[1..])
  }

  /** The line the client sends for its arguments: each encoded, joined by single spaces. */
  function Joined(args: seq<string>): string { SpaceJoined(EncodedAll(args)) }

  method JoinArguments(args: seq<string>) returns (query: string)
    ensures query == Joined(args)
  {
    var words := [];
    for i := 0 to |args|
      invariant |words| == i
      invariant forall j :: 0 <= j < i ==> words[j] == EncodedIfNecessary(args[j])
    {
      var word := args[i];
      if NeedsEncoding(word) { word := Encode(word); }
      words := words + [word];
    }
    assert words == EncodedAll(args);
    query := SpaceJoined(words);
  }

  /** Every token that repeated calls of `eatToken` take from a line. */
  function AllTokens(s: string): seq<string>
    decreases |s|
  {
    if Strip(s) == "" then [] else [Eat(s).0] + AllTokens(Eat(s).1)
  }

  function NonEmpty(args: seq<string>): seq<string> {
    if args == [] then []
    else (if args[0] == "" then [] else [args[0]]) + NonEmpty(args[1..])
  }

  // ----- round trips

  lemma ScanQuotedStep(c: char, tail: string)
    ensures Scan((if c == '"' || c == '\\' then ['\\', c] else [c]) + tail, true)
         == ([c] + Scan(tail, true).0, Scan(tail, true).1)
  {
    if c == '"' || c == '\\' {
      assert (['\\', c] + tail)[2..] == tail;
    } else {
      assert ([c] + tail)[1..] == tail;
    }
  }

  lemma EscapeNothing()
    ensures Escape("") == ""
  {
  }

  lemma EscapeStep(s: string)
    requires s != ""
    ensures Escape(s) == (if s[0] == '"' || s[0] == '\\' then ['\\', s[0]] else [s[0]]) + Escape(s[1..])
  {
  }

  lemma {:induction false} ScanEscaped(s: string, rest: string)
    ensures Scan(Escape(s) + rest, true).0 == s + Scan(rest, true).0
    ensures Scan(Escape(s) + rest, true).1 == Scan(rest, true).1
  {
    hide Scan, Escape;
    if s == "" {
      assert Escape("") == "" by { EscapeNothing(); }
      assert Escape(s) + rest == rest && s + Scan(rest, true).0 == Scan(rest, true).0;
    } else {
      var tail := Escape(s[1..]) + rest;
      ScanEscaped(s[1..], rest);
      ScanQuotedStep(s[0], tail);
      EscapeStep(s);
      var head := if s[0] == '"' || s[0] == '\\' then ['\\', s[0]] else [s[0]];
      assert Escape(s) + rest == head + tail;
      assert [s[0]] + (s[1..] + Scan(rest, true).0) == s + Scan(rest, true).0;
    }
  }

  /** `encode` round-trips every string, the empty one included, with the text after it left
      unread and intact, exactly when that text is empty or starts with a space. */
  lemma EncodeRoundTrip(s: string, rest: string)
    ensures Eat(Encoded(s) + rest) == (s, rest) <==> rest == "" || rest[0] == ' '
  {
    EatEncoded(s, rest);
    StopsAtSpace(s, rest);
  }

  /** Behind the closing quote the token goes on. */
  lemma EatEncoded(s: string, rest: string)
    ensures Eat(Encoded(s) + rest) == (s + Scan(rest, false).0, Scan(rest, false).1)
  {
    var text := Encoded(s) + rest;
    assert text[0] == '"';
    assert text[1..] == Escape(s) + ("\"" + rest);
    ScanEscaped(s, "\"" + rest);
    assert ("\"" + rest)[1..] == rest;
  }

  lemma StopsAtSpace(s: string, rest: string)
    ensures (s + Scan(rest, false).0, Scan(rest, false).1) == (s, rest) <==> rest == "" || rest[0] == ' '
  {
    if rest == "" || rest[0] == ' ' {
      assert Scan(rest, false) == ("", rest);
      assert s + "" == s;
    } else {
      assert |Scan(rest, false).1| < |rest|;
    }
  }

  /** Text right behind the closing quote becomes part of the token. */
  lemma TextBehindQuote()
    ensures Eat(Encoded("a") + "b") == ("ab", "")
  {
    EatEncoded("a", "b");
    ScanPlainMore("b", "");
    assert "b" + "" == "b" && Scan("", false) == ("", "") && "a" + "b" == "ab";
  }

  lemma {:induction false} ScanPlainMore(s: string, rest: string)
    requires !NeedsEncoding(s)
    ensures Scan(s + rest, false) == (s + Scan(rest, false).0, Scan(rest, false).1)
  {
    if s == "" {
      assert s + rest == rest && s + Scan(rest, false).0 == Scan(rest, false).0;
    } else {
      assert s[0] in s && !NeedsEncoding(s[1..]);
      ScanPlainMore(s[1..], rest);
      assert (s + rest)[1..] == s[1..] + rest;
      assert [s[0]] + (s[1..] + Scan(rest, false).0) == s + Scan(rest, false).0;
    }
  }

  lemma EncodeIfNecessaryRoundTrip(s: string, rest: string)
    requires s != ""
    ensures Eat(EncodedIfNecessary(s) + rest) == (s, rest) <==> rest == "" || rest[0] == ' '
    ensures Strip(EncodedIfNecessary(s) + rest) != ""
  {
    if NeedsEncoding(s) {
      EncodeRoundTrip(s, rest);
    } else {
      assert s[0] in s;
      ScanPlainMore(s, rest);
      assert Strip(s + rest) == s + rest;
      StopsAtSpace(s, rest);
    }
  }

  /** Whatever arguments the client is given, the server reads back exactly the non-empty
      ones, in order: an empty argument is lost, nothing else is. */
  lemma {:induction false} ArgumentsRoundTrip(args: seq<string>)
    ensures AllTokens(Joined(args)) == NonEmpty(args)
  {
    if args != [] {
      ArgumentsRoundTrip(args[1..]);
      var rest := if |args| == 1 then "" else " " + Joined(args[1..]);
      assert EncodedAll(args)[1..] == EncodedAll(args[1..]);
      assert Joined(args) == EncodedIfNecessary(args[0]) + rest;
      if |args| > 1 {
        assert rest[1..] == Joined(args[1..]);
        SpaceIsSkipped(Joined(args[1..]));
      }
      if args[0] == "" {
        assert Joined(args) == rest;
      } else {
        EncodeIfNecessaryRoundTrip(args[0], rest);
      }
    }
  }

  lemma SpaceIsSkipped(s: string)
    ensures AllTokens(" " + s) == AllTokens(s)
  {
    assert (" " + s)[1..] == s;
  }

  lemma {:induction false} NonEmptyIsIdentity(args: seq<string>)
    ensures |NonEmpty(args)| <= |args|
    ensures NonEmpty(args) == args <==> "" !in args
  {
    if args != [] {
      NonEmptyIsIdentity(args[1..]);
    }
  }

  /** The list itself survives the trip exactly when it holds no empty string. */
  lemma ArgumentsSurvive(args: seq<string>)
    ensures AllTokens(Joined(args)) == args <==> "" !in args
  {
    ArgumentsRoundTrip(args);
    NonEmptyIsIdentity(args);
  }

  /** An empty argument between two others is lost. */
  lemma EmptyArgumentIsLost()
    ensures AllTokens(Joined(["a", "", "b"])) == ["a", "b"]
  {
    ArgumentsRoundTrip(["a", "", "b"]);
    assert NonEmpty(["a", "", "b"]) == ["a"] + NonEmpty(["", "b"]);
    assert NonEmpty(["", "b"]) == NonEmpty(["b"]) == ["b"] + NonEmpty([]);
  }
}
