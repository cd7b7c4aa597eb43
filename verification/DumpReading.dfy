/** What a line of a coverage dump tells about the window behind it. */
module DumpReading {
  import opened Fields
  import opened HookSpec
  import opened CoverageDump
  import opened DumpValidator
  import HookCalls
  import HookCons

  // ----- numbers

  lemma {:induction false} DecimalTells(m: int, n: int)
    ensures Decimal(m) == Decimal(n) <==> m == n
  {
    hide Digits, ValueOf;
    DigitsAreDigits(if m < 0 then -m else m);
    DigitsAreDigits(if n < 0 then -n else n);
    if Decimal(m) == Decimal(n) {
      var a, b := Digits(if m < 0 then -m else m), Digits(if n < 0 then -n else n);
      assert IsDigit(a[0]) && IsDigit(b[0]);
      if m < 0 { assert Decimal(m)[0] == '-' && Decimal(m)[1..] == a; }
      if n < 0 { assert Decimal(n)[0] == '-' && Decimal(n)[1..] == b; }
    }
  }

  lemma DecimalsTell(u: seq<int>, v: seq<int>)
    ensures Decimals(u) == Decimals(v) <==> u == v
  {
    hide Decimal;
    if Decimals(u) == Decimals(v) {
      assert |Decimals(u)| == |u| && |Decimals(v)| == |v|;
      forall i | 0 <= i < |u| ensures u[i] == v[i] {
        assert Decimals(u)[i] == Decimals(v)[i];
        DecimalTells(u[i], v[i]);
      }
    }
  }

  lemma DecimalsAreTokens(u: seq<int>, i: nat)
    requires i < |u|
    ensures IsToken(Decimals(u)[i]) && Decimals(u)[i] != "}"
  {
    hide Decimal, Clean, IsInt;
    NumeralToken(u[i]);
    DecimalIsNumeral(u[i]);
    assert IsNumeral(Decimal(u[i])) && !IsNumeral("}") by { assert "}"[0] == '}'; }
  }

  /** A printed block window tells its ids. */
  lemma BlockLineTells(u: seq<int>, v: seq<int>)
    requires u != [] && v != []
    ensures BlockLine(u) == BlockLine(v) <==> u == v
  {
    hide Decimals, Join, Words, IsToken;
    LengthOfDecimals(u);
    LengthOfDecimals(v);
    forall i | 0 <= i < |u| ensures IsToken(Decimals(u)[i]) { DecimalsAreTokens(u, i); }
    forall i | 0 <= i < |v| ensures IsToken(Decimals(v)[i]) { DecimalsAreTokens(v, i); }
    WordsOfJoin(Decimals(u));
    WordsOfJoin(Decimals(v));
    DecimalsTell(u, v);
  }

  lemma LengthOfDecimals(u: seq<int>)
    ensures |Decimals(u)| == |u|
  {
  }

  // ----- arguments

  /** The same is printed of two arguments: their kind, and the ids of the types of pointers. */
  ghost predicate SameShown(a: ArgValue, b: ArgValue) {
    || (a.PosNum? && b.PosNum?) || (a.ZeroNum? && b.ZeroNum?) || (a.NegNum? && b.NegNum?) || (a.NullPtr? && b.NullPtr?)
    || (a.Ptr? && b.Ptr? && |a.types| == |b.types| && forall i :: 0 <= i < |a.types| ==> a.types[i].vid == b.types[i].vid)
  }

  lemma VidsTell(s: seq<PtrType>, t: seq<PtrType>)
    ensures TypeVids(s) == TypeVids(t) <==> |s| == |t| && forall i :: 0 <= i < |s| ==> s[i].vid == t[i].vid
  {
    var u, v := TypeVids(s), TypeVids(t);
    assert |u| == |s| && |v| == |t|;
    if u == v { forall i | 0 <= i < |s| ensures s[i].vid == t[i].vid { assert u[i] == v[i]; } }
  }

  /** How many tokens come before the closing brace. */
  function Inside(tokens: seq<string>): nat {
    if tokens == [] || tokens[0] == "}" then 0 else 1 + Inside(tokens[1..])
  }

  lemma {:induction false} InsideIs(a: seq<string>, x: seq<string>)
    requires "}" !in a
    ensures Inside(a + (["}"] + x)) == |a|
  {
    var all := a + (["}"] + x);
    if a == [] {
      assert all[0] == "}";
    } else {
      InsideIs(a[1..], x);
      assert all[0] == a[0] && all[1..] == a[1..] + (["}"] + x);
    }
  }

  lemma CutTokens(a: seq<string>, x: seq<string>, b: seq<string>, y: seq<string>)
    requires a + x == b + y && |a| == |b|
    ensures a == b && x == y
  {
    assert a == (a + x)[..|a|] && b == (b + y)[..|b|];
    assert x == (a + x)[|a|..] && y == (b + y)[|b|..];
  }

  lemma BracedTells(a: seq<string>, x: seq<string>, b: seq<string>, y: seq<string>)
    requires ["{"] + a + ["}"] + x == ["{"] + b + ["}"] + y
    requires "}" !in a && "}" !in b
    ensures a == b && x == y
  {
    hide Inside;
    Braced(a, x);
    Braced(b, y);
    CutTokens(["{"], a + (["}"] + x), ["{"], b + (["}"] + y));
    InsideIs(a, x);
    InsideIs(b, y);
    CutTokens(a, ["}"] + x, b, ["}"] + y);
    CutTokens(["}"], x, ["}"], y);
  }

  lemma Braced(a: seq<string>, x: seq<string>)
    ensures ["{"] + a + ["}"] + x == ["{"] + (a + (["}"] + x))
  {
  }

  lemma PointerTells(s: seq<PtrType>, x: seq<string>, t: seq<PtrType>, y: seq<string>)
    requires ArgTokens(Ptr(s)) + x == ArgTokens(Ptr(t)) + y
    ensures SameShown(Ptr(s), Ptr(t)) && x == y
  {
    hide Decimals, TypeVids;
    var u, v := TypeVids(s), TypeVids(t);
    NoBraceIn(u);
    NoBraceIn(v);
    BracedTells(Decimals(u), x, Decimals(v), y);
    DecimalsTell(u, v);
    VidsTell(s, t);
  }

  lemma NoBraceIn(u: seq<int>)
    ensures "}" !in Decimals(u)
  {
    hide Decimals, IsToken;
    LengthOfDecimals(u);
    forall i | 0 <= i < |u| ensures Decimals(u)[i] != "}" { DecimalsAreTokens(u, i); }
  }

  lemma ArgTells(a: ArgValue, x: seq<string>, b: ArgValue, y: seq<string>)
    requires ArgTokens(a) + x == ArgTokens(b) + y
    ensures SameShown(a, b) && x == y
  {
    var s, t := ArgTokens(a) + x, ArgTokens(b) + y;
    assert s[0] == ArgTokens(a)[0] && t[0] == ArgTokens(b)[0];
    if a.Ptr? && b.Ptr? {
      PointerTells(a.types, x, b.types, y);
    } else {
      CutTokens(ArgTokens(a), x, ArgTokens(b), y);
    }
  }

  ghost predicate SameArgs(args: seq<ArgValue>, brgs: seq<ArgValue>) {
    |args| == |brgs| && forall i :: 0 <= i < |args| ==> SameShown(args[i], brgs[i])
  }

  lemma ArgsFirst(args: seq<ArgValue>)
    requires args != []
    ensures AllArgTokens(args) == ArgTokens(args[0]) + AllArgTokens(args[1..]) && AllArgTokens(args) != []
  {
    assert ArgTokens(args[0]) != [];
  }

  lemma NoArgs()
    ensures AllArgTokens([]) == []
  {
  }

  lemma SameFirst(args: seq<ArgValue>, brgs: seq<ArgValue>)
    requires args != [] && brgs != []
    ensures SameArgs(args, brgs) <==> SameShown(args[0], brgs[0]) && SameArgs(args[1..], brgs[1..])
  {
    hide SameShown;
    if SameShown(args[0], brgs[0]) && SameArgs(args[1..], brgs[1..]) {
      forall i | 0 <= i < |args| ensures SameShown(args[i], brgs[i]) {
        if i > 0 { assert SameShown(args[1..][i - 1], brgs[1..][i - 1]); }
      }
    }
    if SameArgs(args, brgs) {
      forall i | 0 <= i < |args| - 1 ensures SameShown(args[1..][i], brgs[1..][i]) { assert SameShown(args[i + 1], brgs[i + 1]); }
    }
  }

  lemma SameTokens(a: ArgValue, b: ArgValue)
    requires SameShown(a, b)
    ensures ArgTokens(a) == ArgTokens(b)
  {
    hide Decimals;
    if a.Ptr? { VidsTell(a.types, b.types); }
  }

  lemma {:induction false} ArgsTell(args: seq<ArgValue>, brgs: seq<ArgValue>)
    ensures AllArgTokens(args) == AllArgTokens(brgs) <==> SameArgs(args, brgs)
  {
    hide AllArgTokens, ArgTokens, SameShown, SameArgs;
    NoArgs();
    if args != [] { ArgsFirst(args); }
    if brgs != [] { ArgsFirst(brgs); }
    if args != [] && brgs != [] {
      SameFirst(args, brgs);
      ArgsTell(args[1..], brgs[1..]);
      if AllArgTokens(args) == AllArgTokens(brgs) {
        ArgTells(args[0], AllArgTokens(args[1..]), brgs[0], AllArgTokens(brgs[1..]));
      }
      if SameShown(args[0], brgs[0]) { SameTokens(args[0], brgs[0]); }
    } else {
      SameLengths(args, brgs);
    }
  }

  lemma SameLengths(args: seq<ArgValue>, brgs: seq<ArgValue>)
    requires args == [] || brgs == []
    ensures SameArgs(args, brgs) <==> args == [] && brgs == []
  {
  }

  // ----- levels and windows

  ghost predicate SameLevel(l: Level, k: Level) { l.vid == k.vid && SameArgs(l.args, k.args) }

  lemma LevelTells(l: Level, k: Level)
    ensures LevelText(l) == LevelText(k) <==> SameLevel(l, k)
  {
    hide AllArgTokens, Decimal, Join, Words, IsToken, SameArgs;
    var a, b := LevelTokens(l), LevelTokens(k);
    TokensOfLevel(l);
    TokensOfLevel(k);
    WordsOfJoin(a);
    WordsOfJoin(b);
    ArgsTell(l.args, k.args);
    DecimalTells(l.vid, k.vid);
    if a == b {
      CutTokens([Decimal(l.vid)], AllArgTokens(l.args), [Decimal(k.vid)], AllArgTokens(k.args));
      assert [Decimal(l.vid)][0] == [Decimal(k.vid)][0];
    }
  }

  lemma TokensOfLevel(l: Level)
    ensures forall i :: 0 <= i < |LevelTokens(l)| ==> IsToken(LevelTokens(l)[i])
  {
    hide AllArgTokens, Decimal, IsToken, Clean, Ended, IsInt;
    AllArgTokensAre(l.args);
    NumeralToken(l.vid);
  }

  ghost predicate SameWindow(u: seq<Level>, v: seq<Level>) {
    |u| == |v| && forall i :: 0 <= i < |u| ==> SameLevel(u[i], v[i])
  }

  /** A printed call window tells the functions of its levels, the kinds of their arguments, and
      the type ids of pointers. */
  lemma CallLineTells(u: seq<Level>, v: seq<Level>)
    requires u != [] && v != []
    ensures CallLine(u) == CallLine(v) <==> SameWindow(u, v)
  {
    hide LevelText, Join, Split, SameLevel, CallRecord, Clean;
    var a, b := LevelTexts(u), LevelTexts(v);
    forall i | 0 <= i < |u| ensures ',' !in a[i] { LevelIsRecord(u[i]); }
    forall i | 0 <= i < |v| ensures ',' !in b[i] { LevelIsRecord(v[i]); }
    SplitOfJoin(a, ", ");
    SplitOfJoin(b, ", ");
    forall i | 0 <= i < |u| && i < |v| ensures a[i] == b[i] <==> SameLevel(u[i], v[i]) { LevelTells(u[i], v[i]); }
    if SameWindow(u, v) { assert a == b; }
    if a == b { assert |u| == |v|; }
  }

  /** The tokens printed of an argument, from the record that passed it. */
  lemma TokensOfRecord(before: seq<Record>, r: Record, v: ArgValue)
    requires HookCalls.Shows(before, r, v)
    ensures ArgTokens(v) ==
      if r.size == 1 && r.ptr == 0 then ["NULL"]
      else if r.size == 1 then
        ["{"] + Decimals(TypeVids(HookCons.Uncovered(HookCons.Constructions(before, r.ptr)))) + ["}"]
      else if HookCalls.Signed(r.ptr) > 0 then ["POS"]
      else if HookCalls.Signed(r.ptr) < 0 then ["NEG"]
      else ["ZERO"]
  {
    hide Decimals, HookCons.Uncovered, HookCons.Constructions;
  }
}
