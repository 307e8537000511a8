/** VersionLess of internal/git/refs.go: runs of digits compare as numbers, everything
    else byte by byte, and names that read the same fall back to plain order. */
module Versions {
  import opened Bytes
  import opened TextOrder

  predicate Digit(b: byte) {
    48 <= b <= 57
  }

  function RunLength(s: Text): (n: nat)
    ensures n <= |s|
    ensures forall i :: 0 <= i < n ==> Digit(s[i])
    ensures n < |s| ==> !Digit(s[n])
  {
    if s == [] || !Digit(s[0]) then 0 else 1 + RunLength(s[1..])
  }

  /** The run of digits `s` starts with. */
  method LeadingDigits(s: Text) returns (run: Text)
    ensures run == s[..RunLength(s)]
  {
    var i := 0;
    while i < |s| && Digit(s[i])
      invariant 0 <= i <= |s|
      invariant forall k :: 0 <= k < i ==> Digit(s[k])
    {
      i := i + 1;
    }
    RunIsMaximal(s, i);
    run := s[..i];
  }

  lemma RunIsMaximal(s: Text, n: nat)
    requires n <= |s| && (forall k :: 0 <= k < n ==> Digit(s[k])) && (n < |s| ==> !Digit(s[n]))
    ensures n == RunLength(s)
  {
  }

  /** strings.TrimLeft(d, "0") */
  function TrimZeros(d: Text): Text {
    if d != [] && d[0] == 48 then TrimZeros(d[1..]) else d
  }

  // ----- what a name reads as -----

  datatype Token = Number(value: nat) | Char(b: byte)

  function Pow10(n: nat): nat {
    if n == 0 then 1 else 10 * Pow10(n - 1)
  }

  ghost predicate Digits(d: Text) {
    forall i :: 0 <= i < |d| ==> Digit(d[i])
  }

  /** The number a run of digits denotes. */
  ghost function Value(d: Text): nat
    requires Digits(d)
  {
    if d == [] then 0 else (d[0] - 48) * Pow10(|d| - 1) + Value(d[1..])
  }

  ghost function Tokens(s: Text): seq<Token>
    decreases |s|
  {
    if s == [] then []
    else if Digit(s[0]) then [Number(Value(s[..RunLength(s)]))] + Tokens(s[RunLength(s)..])
    else [Char(s[0])] + Tokens(s[1..])
  }

  /** Numbers by value, bytes by code; numbers sit where the digits sit among the bytes. */
  predicate TokenLess(x: Token, y: Token) {
    match (x, y)
    case (Number(m), Number(n)) => m < n
    case (Char(a), Char(b)) => a < b
    case (Number(_), Char(b)) => 48 <= b
    case (Char(a), Number(_)) => a < 48
  }

  function Sign(n: int): int {
    if n < 0 then -1 else if n > 0 then 1 else 0
  }

  ghost function CompareTokens(x: seq<Token>, y: seq<Token>): int {
    if x == [] || y == [] then Sign(|x| - |y|)
    else if x[0] == y[0] then CompareTokens(x[1..], y[1..])
    else if TokenLess(x[0], y[0]) then -1 else 1
  }

  /** The order VersionLess decides: as read, then as spelled. */
  ghost predicate Before(a: Text, b: Text) {
    var c := CompareTokens(Tokens(a), Tokens(b));
    if c != 0 then c < 0 else Less(a, b)
  }

  // ----- digit runs -----

  lemma Scale(a: nat, b: nat, p: nat)
    requires a <= b
    ensures a * p <= b * p
  {
  }

  lemma {:induction false} ValueBound(d: Text)
    requires Digits(d)
    ensures Value(d) < Pow10(|d|)
    ensures d != [] && d[0] != 48 ==> Value(d) >= Pow10(|d| - 1)
  {
    if d != [] {
      ValueBound(d[1..]);
      Scale(d[0] - 48, 9, Pow10(|d| - 1));
      if d[0] != 48 {
        Scale(1, d[0] - 48, Pow10(|d| - 1));
      }
    }
  }

  lemma {:induction false} PowMonotone(m: nat, n: nat)
    requires m <= n
    ensures Pow10(m) <= Pow10(n)
    decreases n
  {
    if m < n {
      PowMonotone(m, n - 1);
    }
  }

  lemma {:induction false} TrimKeepsValue(d: Text)
    requires Digits(d)
    ensures Digits(TrimZeros(d)) && Value(TrimZeros(d)) == Value(d)
    ensures TrimZeros(d) == [] || TrimZeros(d)[0] != 48
  {
    if d != [] && d[0] == 48 {
      TrimKeepsValue(d[1..]);
    }
  }

  lemma LeadingDigitDecides(a: nat, b: nat, p: nat, x: nat, y: nat)
    requires a < b && x < p
    ensures a * p + x < b * p + y
  {
    Scale(a + 1, b, p);
    assert (a + 1) * p == a * p + p;
  }

  /** Of two runs of one length the smaller text is the smaller number. */
  lemma {:induction false} SameLength(d: Text, e: Text)
    requires Digits(d) && Digits(e) && |d| == |e|
    ensures Less(d, e) <==> Value(d) < Value(e)
    ensures d == e <==> Value(d) == Value(e)
  {
    if d != [] {
      var p := Pow10(|d| - 1);
      SameLength(d[1..], e[1..]);
      ValueBound(d[1..]);
      ValueBound(e[1..]);
      if d[0] < e[0] {
        LeadingDigitDecides(d[0] - 48, e[0] - 48, p, Value(d[1..]), Value(e[1..]));
      } else if e[0] < d[0] {
        LeadingDigitDecides(e[0] - 48, d[0] - 48, p, Value(e[1..]), Value(d[1..]));
      } else {
        assert d == [d[0]] + d[1..] && e == [e[0]] + e[1..];
      }
    }
  }

  /** Comparing trimmed runs by length and then by text is comparing their values. */
  lemma RunsCompareAsNumbers(d: Text, e: Text)
    requires Digits(d) && Digits(e)
    ensures var m, n := TrimZeros(d), TrimZeros(e);
            && (Value(d) < Value(e) <==> |m| < |n| || (|m| == |n| && Less(m, n)))
            && (Value(d) == Value(e) <==> m == n)
  {
    var m, n := TrimZeros(d), TrimZeros(e);
    TrimKeepsValue(d);
    TrimKeepsValue(e);
    ValueBound(m);
    ValueBound(n);
    if |m| == |n| {
      SameLength(m, n);
    } else if |m| < |n| {
      PowMonotone(|m|, |n| - 1);
    } else {
      PowMonotone(|n|, |m| - 1);
    }
  }

  // ----- the order -----

  lemma TokenLessIsStrictTotalOrder(x: Token, y: Token, z: Token)
    ensures !TokenLess(x, x)
    ensures TokenLess(x, y) && TokenLess(y, z) ==> TokenLess(x, z)
    ensures x != y ==> (TokenLess(x, y) <==> !TokenLess(y, x))
  {
  }

  lemma {:induction false} CompareReversed(x: seq<Token>, y: seq<Token>)
    ensures CompareTokens(x, y) == -CompareTokens(y, x)
    ensures CompareTokens(x, y) == 0 <==> x == y
    ensures -1 <= CompareTokens(x, y) <= 1
    decreases |x|
  {
    if x != [] && y != [] {
      TokenLessIsStrictTotalOrder(x[0], y[0], x[0]);
      if x[0] == y[0] {
        CompareReversed(x[1..], y[1..]);
        assert x == [x[0]] + x[1..] && y == [y[0]] + y[1..];
      }
    }
  }

  lemma {:induction false} CompareTransitive(x: seq<Token>, y: seq<Token>, z: seq<Token>)
    requires CompareTokens(x, y) < 0 && CompareTokens(y, z) < 0
    ensures CompareTokens(x, z) < 0
    decreases |x|
  {
    if x != [] && y != [] && z != [] {
      TokenLessIsStrictTotalOrder(x[0], y[0], z[0]);
      TokenLessIsStrictTotalOrder(x[0], z[0], x[0]);
      TokenLessIsStrictTotalOrder(y[0], z[0], y[0]);
      if x[0] == y[0] == z[0] {
        CompareTransitive(x[1..], y[1..], z[1..]);
      }
    }
  }

  /** Irreflexive, transitive, and total on distinct names. */
  lemma BeforeIsStrictTotalOrder(a: Text, b: Text, c: Text)
    ensures !Before(a, a)
    ensures Before(a, b) && Before(b, c) ==> Before(a, c)
    ensures a != b ==> (Before(a, b) <==> !Before(b, a))
  {
    var x, y, z := Tokens(a), Tokens(b), Tokens(c);
    LessTotal(a, a);
    LessTotal(a, b);
    CompareReversed(x, x);
    CompareReversed(x, y);
    CompareReversed(y, z);
    if Before(a, b) && Before(b, c) {
      if CompareTokens(x, y) < 0 && CompareTokens(y, z) < 0 {
        CompareTransitive(x, y, z);
      } else if x == y == z {
        LessTransitive(a, b, c);
      }
    }
  }

  // ----- what the order means for names -----

  lemma {:induction false} SameBeginning(p: seq<Token>, x: seq<Token>, y: seq<Token>)
    ensures CompareTokens(p + x, p + y) == CompareTokens(x, y)
  {
    if p == [] {
      assert p + x == x && p + y == y;
    } else {
      assert (p + x)[1..] == p[1..] + x && (p + y)[1..] == p[1..] + y;
      SameBeginning(p[1..], x, y);
    }
  }

  /** No run of digits crosses from one text into the next. */
  ghost predicate Boundary(p: Text, s: Text) {
    p == [] || s == [] || !Digit(p[|p| - 1]) || !Digit(s[0])
  }

  lemma RunOfBoth(p: Text, s: Text)
    requires p != [] && Boundary(p, s)
    ensures RunLength(p + s) == RunLength(p)
  {
    var n := RunLength(p);
    assert forall k :: 0 <= k < n ==> (p + s)[k] == p[k];
    RunIsMaximal(p + s, n);
  }

  /** How much of the text its first token takes. */
  ghost function FirstToken(s: Text): nat
    requires s != []
  {
    if Digit(s[0]) then RunLength(s) else 1
  }

  ghost function Read(run: Text): Token
    requires run != [] && (Digits(run) || |run| == 1)
  {
    if Digit(run[0]) then Number(Value(run)) else Char(run[0])
  }

  lemma TokensUnfold(s: Text, n: nat)
    requires s != [] && n == FirstToken(s)
    ensures 0 < n <= |s| && (Digits(s[..n]) || n == 1)
    ensures Tokens(s) == [Read(s[..n])] + Tokens(s[n..])
  {
  }

  /** The first token is the same with more text behind it. */
  lemma FirstOfBoth(p: Text, s: Text)
    requires p != [] && Boundary(p, s)
    ensures FirstToken(p + s) == FirstToken(p) <= |p|
    ensures (p + s)[..FirstToken(p)] == p[..FirstToken(p)] && (p + s)[FirstToken(p)..] == p[FirstToken(p)..] + s
  {
    RunOfBoth(p, s);
  }

  lemma Joined<T>(x: T, a: seq<T>, b: seq<T>)
    ensures [x] + (a + b) == ([x] + a) + b
  {
  }

  lemma {:induction false} TokensOfBoth(p: Text, s: Text)
    requires Boundary(p, s)
    ensures Tokens(p + s) == Tokens(p) + Tokens(s)
    decreases |p|
  {
    if p == [] {
      assert p + s == s && Tokens(p) == [];
    } else {
      var n := FirstToken(p);
      FirstOfBoth(p, s);
      TokensUnfold(p, n);
      TokensUnfold(p + s, n);
      BoundaryOfRest(p, s, n);
      TokensOfBoth(p[n..], s);
      Joined(Read(p[..n]), Tokens(p[n..]), Tokens(s));
    }
  }

  lemma BoundaryOfRest(p: Text, s: Text, n: nat)
    requires n <= |p| && Boundary(p, s)
    ensures Boundary(p[n..], s)
  {
  }

  /** Of two names that first differ in a number the one with the smaller number comes first. */
  lemma SmallerNumberFirst(p: Text, d: Text, x: Text, e: Text, y: Text)
    requires Digits(d) && Digits(e) && d != [] && e != [] && (p == [] || !Digit(p[|p| - 1]))
    requires Boundary(d, x) && Boundary(e, y) && Value(d) < Value(e)
    ensures Before(p + (d + x), p + (e + y))
  {
    TokensOfBoth(p, d + x);
    TokensOfBoth(p, e + y);
    NumberThen(d, x);
    NumberThen(e, y);
    SameBeginning(Tokens(p), Tokens(d + x), Tokens(e + y));
  }

  lemma NumberThen(d: Text, x: Text)
    requires Digits(d) && d != [] && Boundary(d, x)
    ensures Tokens(d + x) == [Number(Value(d))] + Tokens(x)
  {
    RunIsMaximal(d + x, |d|);
    assert (d + x)[..|d|] == d && (d + x)[|d|..] == x;
  }

  /** Of two names that first differ in a byte outside their numbers the one with the smaller
      byte comes first. */
  lemma SmallerByteFirst(p: Text, b: byte, x: Text, c: byte, y: Text)
    requires b < c && !(Digit(b) && Digit(c)) && (p == [] || !Digit(p[|p| - 1]))
    ensures Before(p + ([b] + x), p + ([c] + y))
  {
    TokensOfBoth(p, [b] + x);
    TokensOfBoth(p, [c] + y);
    SameBeginning(Tokens(p), Tokens([b] + x), Tokens([c] + y));
    ByteThen(b, x);
    ByteThen(c, y);
  }

  lemma ByteThen(b: byte, x: Text)
    ensures Tokens([b] + x) != []
    ensures if Digit(b) then Tokens([b] + x)[0].Number? else Tokens([b] + x)[0] == Char(b)
  {
  }

  /** A name comes before the names that go on after it. */
  lemma ShorterFirst(p: Text, x: Text)
    requires x != [] && Boundary(p, x)
    ensures Before(p, p + x)
  {
    TokensOfBoth(p, x);
    SameBeginning(Tokens(p), [], Tokens(x));
    assert Tokens(p) + [] == Tokens(p);
    ByteThen(x[0], x[1..]);
    assert [x[0]] + x[1..] == x;
  }

  /** Names that read the same, down to leading zeros, come in the order of their spelling. */
  lemma SameReadingBySpelling(p: Text, d: Text, e: Text, x: Text)
    requires Digits(d) && Digits(e) && d != [] && e != [] && (p == [] || !Digit(p[|p| - 1]))
    requires Boundary(d, x) && Boundary(e, x) && Value(d) == Value(e)
    ensures Before(p + (d + x), p + (e + x)) <==> SmallerAtFirstDifference(p + (d + x), p + (e + x))
  {
    TokensOfBoth(p, d + x);
    TokensOfBoth(p, e + x);
    NumberThen(d, x);
    NumberThen(e, x);
    CompareReversed(Tokens(p + (d + x)), Tokens(p + (e + x)));
    LessMeans(p + (d + x), p + (e + x));
  }

  // ----- the code -----

  function CompareInt(a: int, b: int): int {
    if a < b then -1 else if a > b then 1 else 0
  }

  lemma TokensOfRun(s: Text)
    requires s != [] && Digit(s[0])
    ensures RunLength(s) > 0
    ensures Tokens(s) == [Number(Value(s[..RunLength(s)]))] + Tokens(s[RunLength(s)..])
  {
  }

  method VersionCompare(a0: Text, b0: Text) returns (c: int)
    ensures c == CompareTokens(Tokens(a0), Tokens(b0))
  {
    var a, b := a0, b0;
    while a != [] && b != []
      invariant CompareTokens(Tokens(a0), Tokens(b0)) == CompareTokens(Tokens(a), Tokens(b))
      decreases |a|
    {
      var da := LeadingDigits(a);
      var db := LeadingDigits(b);
      if da != [] && db != [] {
        RunsCompareAsNumbers(da, db);
        TokensOfRun(a);
        TokensOfRun(b);
        var na, nb := TrimZeros(da), TrimZeros(db);
        LessTotal(na, nb);
        if |na| != |nb| {
          return CompareInt(|na|, |nb|);
        } else if na != nb {
          return if Less(na, nb) then -1 else 1;
        }
        a, b := a[|da|..], b[|db|..];
      } else {
        if a[0] != b[0] {
          return CompareInt(a[0], b[0]);
        }
        a, b := a[1..], b[1..];
      }
    }
    c := CompareInt(|a|, |b|);
  }

  method VersionLess(a: Text, b: Text) returns (less: bool)
    ensures less <==> Before(a, b)
  {
    var c := VersionCompare(a, b);
    if c != 0 {
      return c < 0;
    }
    return Less(a, b);
  }
}
