/** The pieces of Go's `strings`, `bytes` and `strconv` packages that the player gateway testing app
    relies on.  A Go string is a sequence of bytes; here it is a `string` whose characters stand for
    bytes.  Integers are Go's 64-bit `int`. */
module Text {

  datatype Option<+T> = None | Some(value: T)

  lemma {:induction false} SubsetSize<T>(a: set<T>, b: set<T>)
    requires a <= b
    ensures |a| <= |b|
  {
    if a != {} {
      var x :| x in a;
      SubsetSize(a - {x}, b - {x});
    }
  }

  const MAX_INT64: int := 0x7FFF_FFFF_FFFF_FFFF
  const MIN_INT64: int := -0x8000_0000_0000_0000

  predicate IsInt64(n: int) {
    MIN_INT64 <= n <= MAX_INT64
  }

  // ---------------------------------------------------------------- searching and splitting

  /** The first position of `c` in `s`, or -1. */
  function IndexByte(s: string, c: char): (i: int)
    ensures -1 <= i < |s|
  {
    if s == "" then -1
    else if s[0] == c then 0
    else
      var j := IndexByte(s[1..], c);
      if j == -1 then -1 else j + 1
  }

  lemma {:induction false} IndexByteIsFirst(s: string, c: char)
    ensures var i := IndexByte(s, c);
            if i == -1 then c !in s else s[i] == c && c !in s[..i]
  {
    if s != "" && s[0] != c {
      var t := s[1..];
      IndexByteIsFirst(t, c);
      var j := IndexByte(t, c);
      assert s == [s[0]] + t;
      assert j >= 0 ==> s[..j + 1] == [s[0]] + t[..j];
    }
  }

  /** The first position is the only one with no earlier occurrence. */
  lemma {:induction false} IndexByteAt(a: string, c: char, b: string)
    requires c !in a
    ensures IndexByte(a + [c] + b, c) == |a|
  {
    var s := a + [c] + b;
    if a != "" {
      assert s[1..] == a[1..] + [c] + b;
      IndexByteAt(a[1..], c, b);
    }
  }

  /** `strings.Cut`: what is before and after the first separator, and whether there is one. */
  function Cut(s: string, sep: char): (string, string, bool) {
    var i := IndexByte(s, sep);
    if i == -1 then (s, "", false) else (s[..i], s[i + 1..], true)
  }

  lemma CutIsFirst(s: string, sep: char)
    ensures var (a, b, found) := Cut(s, sep);
            if found then s == a + [sep] + b && sep !in a else sep !in s && a == s && b == ""
  {
    IndexByteIsFirst(s, sep);
  }

  lemma CutAt(a: string, sep: char, b: string)
    requires sep !in a
    ensures Cut(a + [sep] + b, sep) == (a, b, true)
  {
    IndexByteAt(a, sep, b);
    var s := a + [sep] + b;
    assert s[..|a|] == a && s[|a| + 1..] == b;
  }

  /** `strings.Split` for a one-byte separator. */
  function Split(s: string, sep: char): (parts: seq<string>)
    ensures |parts| >= 1
  {
    if s == "" then [""]
    else
      var rest := Split(s[1..], sep);
      if s[0] == sep then [""] + rest else [[s[0]] + rest[0]] + rest[1..]
  }

  function Join(parts: seq<string>, sep: char): string
    requires |parts| >= 1
  {
    if |parts| == 1 then parts[0] else parts[0] + [sep] + Join(parts[1..], sep)
  }

  /** Splitting loses nothing, and leaves no separator in any part. */
  lemma {:induction false} JoinSplit(s: string, sep: char)
    ensures Join(Split(s, sep), sep) == s
    ensures forall i | 0 <= i < |Split(s, sep)| :: sep !in Split(s, sep)[i]
  {
    if s != "" {
      var rest := Split(s[1..], sep);
      JoinSplit(s[1..], sep);
      if s[0] == sep {
        assert ([""] + rest)[1..] == rest;
      } else {
        JoinOnto(s[0], rest, sep);
      }
    }
  }

  lemma JoinOnto(c: char, parts: seq<string>, sep: char)
    requires |parts| >= 1
    ensures Join([[c] + parts[0]] + parts[1..], sep) == [c] + Join(parts, sep)
  {
    assert ([[c] + parts[0]] + parts[1..])[1..] == parts[1..];
  }

  // ---------------------------------------------------------------- decimal numbers

  function Digit(d: nat): (c: char)
    requires d < 10
    ensures IsDigit(c) && DigitValue(c) == d
  {
    '0' + d as char
  }

  predicate IsDigit(c: char) {
    '0' <= c <= '9'
  }

  function DigitValue(c: char): (d: nat)
    requires IsDigit(c)
    ensures d < 10
  {
    (c - '0') as nat
  }

  predicate AllDigits(s: string) {
    forall c :: c in s ==> IsDigit(c)
  }

  function Digits(n: nat): (s: string)
    ensures |s| >= 1 && AllDigits(s)
  {
    if n < 10 then [Digit(n)] else Digits(n / 10) + [Digit(n % 10)]
  }

  function DigitsValue(s: string): nat
    requires AllDigits(s)
  {
    if s == "" then 0 else 10 * DigitsValue(s[..|s| - 1]) + DigitValue(s[|s| - 1])
  }

  /** `strconv.Itoa`. */
  function Itoa(n: int): string {
    if n < 0 then ['-'] + Digits(-n) else Digits(n)
  }

  /** `strconv.Atoi` on a 64-bit platform: an optional sign, at least one digit, and in range. */
  function Atoi(s: string): (r: Option<int>)
    ensures r.Some? ==> IsInt64(r.value)
  {
    var signed := s != "" && (s[0] == '-' || s[0] == '+');
    var digits := if signed then s[1..] else s;
    if digits == "" || !AllDigits(digits) then None
    else
      var magnitude: int := DigitsValue(digits);
      var n := if signed && s[0] == '-' then -magnitude else magnitude;
      if IsInt64(n) then Some(n) else None
  }

  lemma {:induction false} DigitsRoundTrip(n: nat)
    ensures DigitsValue(Digits(n)) == n
  {
    if n >= 10 {
      DigitsRoundTrip(n / 10);
      var s := Digits(n);
      assert s[..|s| - 1] == Digits(n / 10);
    }
  }

  lemma AtoiDigits(s: string)
    requires s != "" && AllDigits(s)
    ensures var n: int := DigitsValue(s);
            (n <= MAX_INT64 ==> Atoi(s) == Some(n)) && (n <= -MIN_INT64 ==> Atoi(['-'] + s) == Some(-n))
  {
    assert IsDigit(s[0]);
    assert (['-'] + s)[1..] == s;
  }

  lemma FirstDigitStep(x: int, y: int, d: int, p: int, last: int)
    requires x == d * p + y
    ensures 10 * x + last == d * (10 * p) + (10 * y + last)
  {
  }

  /** A number is written with the most significant digit first. */
  lemma {:induction false} FirstDigitCounts(c: char, s: string)
    requires IsDigit(c) && AllDigits(s)
    ensures AllDigits([c] + s)
    ensures DigitsValue([c] + s) == (c as int - 48) * Pow10(|s|) + DigitsValue(s)
  {
    var t := [c] + s;
    if s != "" {
      var n := |s| - 1;
      assert t[..n + 1] == [c] + s[..n] && t[n + 1] == s[n];
      FirstDigitCounts(c, s[..n]);
      FirstDigitStep(DigitsValue([c] + s[..n]), DigitsValue(s[..n]), c as int - 48, Pow10(n), DigitValue(s[n]));
    } else {
      assert t[..0] == "";
    }
  }

  /** The text is a sign or none and at least one digit, and these are the digits of `n`. */
  predicate Denotes(s: string, sign: string, digits: string, n: int) {
    && s == sign + digits && sign in {"", "+", "-"} && digits != "" && AllDigits(digits)
    && var m: int := DigitsValue(digits); n == if sign == "-" then -m else m
  }

  /** Exactly such texts are read as numbers, if these fit 64 bits. */
  lemma AtoiIff(s: string, n: int)
    ensures Atoi(s) == Some(n) <==> IsInt64(n) && exists sign, digits :: Denotes(s, sign, digits, n)
  {
    if Atoi(s) == Some(n) {
      ReadDenotes(s, n);
    }
    forall sign, digits | IsInt64(n) && Denotes(s, sign, digits, n) ensures Atoi(s) == Some(n) {
      DenotedReads(s, sign, digits, n);
    }
    hide Atoi, Denotes;
  }

  lemma ReadDenotes(s: string, n: int)
    requires Atoi(s) == Some(n)
    ensures exists sign, digits :: Denotes(s, sign, digits, n)
  {
    hide DigitsValue;
    var signed := s != "" && (s[0] == '-' || s[0] == '+');
    var (head, tail) := (if signed then [s[0]] else "", if signed then s[1..] else s);
    assert s == head + tail;
    assert signed ==> (head == "-" <==> s[0] == '-') && (head == "+" <==> s[0] == '+');
    assert Denotes(s, head, tail, n);
  }

  lemma DenotedReads(s: string, sign: string, digits: string, n: int)
    requires IsInt64(n) && Denotes(s, sign, digits, n)
    ensures Atoi(s) == Some(n)
  {
    hide DigitsValue;
    assert digits[0] in digits;
    if sign == "" {
      assert s == digits;
    } else {
      assert s[0] == sign[0] && s[1..] == digits;
    }
  }

  /** Printing an `int` and parsing it back is the identity. */
  lemma AtoiItoa(n: int)
    requires IsInt64(n)
    ensures Atoi(Itoa(n)) == Some(n)
  {
    var magnitude := if n < 0 then -n else n;
    DigitsRoundTrip(magnitude);
    AtoiDigits(Digits(magnitude));
  }

  function Pow10(k: nat): (r: nat)
    ensures r >= 1
  {
    if k == 0 then 1 else 10 * Pow10(k - 1)
  }

  lemma {:induction false} DigitsLength(n: nat, k: nat)
    requires k >= 1 && n < Pow10(k)
    ensures |Digits(n)| <= k
  {
    if n >= 10 {
      assert k >= 2;
      DigitsLength(n / 10, k - 1);
    }
  }

  /** A non-negative 64-bit number prints as at most 19 digits. */
  lemma ItoaLength(n: int)
    requires 0 <= n <= MAX_INT64
    ensures 1 <= |Itoa(n)| <= 19 && AllDigits(Itoa(n))
  {
    assert Pow10(4) == 10000;
    assert Pow10(8) == 100000000;
    assert Pow10(12) == 1000000000000;
    assert Pow10(16) == 10000000000000000;
    assert Pow10(19) == 10000000000000000000;
    DigitsLength(n, 19);
  }

  // ---------------------------------------------------------------- strings.TrimSpace

  /** The ASCII bytes for which `unicode.IsSpace` holds. */
  predicate IsSpace(c: char) {
    c == ' ' || '\U{09}' <= c <= '\U{0D}'
  }

  function TrimLeft(s: string): (t: string)
    ensures |t| <= |s| && (t != "" ==> !IsSpace(t[0]))
  {
    if s == "" || !IsSpace(s[0]) then s else TrimLeft(s[1..])
  }

  function TrimRight(s: string): (t: string)
    ensures |t| <= |s| && (t != "" ==> !IsSpace(t[|t| - 1]))
  {
    if s == "" || !IsSpace(s[|s| - 1]) then s else TrimRight(s[..|s| - 1])
  }

  /** `strings.TrimSpace`. */
  function TrimSpace(s: string): string {
    TrimRight(TrimLeft(s))
  }

  lemma {:induction false} TrimRightOfCons(c: char, y: string)
    ensures TrimRight([c] + y) == if IsSpace(c) && TrimRight(y) == "" then "" else [c] + TrimRight(y)
  {
    var s := [c] + y;
    if y != "" {
      assert s[..|s| - 1] == [c] + y[..|y| - 1];
      TrimRightOfCons(c, y[..|y| - 1]);
    }
  }

  /** Trimming the two ends commutes. */
  lemma {:induction false} TrimCommutes(s: string)
    ensures TrimLeft(TrimRight(s)) == TrimRight(TrimLeft(s))
  {
    if s != "" {
      assert s == [s[0]] + s[1..];
      TrimRightOfCons(s[0], s[1..]);
      if IsSpace(s[0]) {
        TrimCommutes(s[1..]);
        assert ([s[0]] + TrimRight(s[1..]))[1..] == TrimRight(s[1..]);
      }
    }
  }

  lemma TrimOfTrimRight(s: string)
    ensures TrimSpace(TrimRight(s)) == TrimSpace(s)
  {
    TrimCommutes(s);
    TrimCommutes(TrimRight(s));
  }

  lemma TrimNothing(s: string)
    requires s != "" && !IsSpace(s[0]) && !IsSpace(s[|s| - 1])
    ensures TrimSpace(s) == s
  {
  }

  predicate Whitespace(s: string) {
    forall c | c in s :: c as int in {9, 10, 11, 12, 13, 32}
  }

  /** Trimming takes away the white space at both ends and nothing else. */
  lemma TrimSpaceIs(s: string) returns (i: nat, j: nat)
    ensures i <= j <= |s| && TrimSpace(s) == s[i..j] && Whitespace(s[..i]) && Whitespace(s[j..])
    ensures i < j ==> !Whitespace([s[i]]) && !Whitespace([s[j - 1]])
  {
    var t := TrimLeft(s);
    i := |s| - |t|;
    j := i + |TrimRight(t)|;
    TrimLeftCuts(s);
    TrimRightCuts(t);
    hide TrimLeft, TrimRight, Whitespace, IsSpace;
    SliceOfRest(s, i, j - i);
    if i < j {
      SpaceIff(s[i]);
      SpaceIff(s[j - 1]);
    }
  }

  lemma SliceOfRest(s: string, i: nat, k: nat)
    requires i + k <= |s|
    ensures s[i..][..k] == s[i..i + k] && s[i..][k..] == s[i + k..]
    ensures k > 0 ==> s[i..][k - 1] == s[i + k - 1]
  {
  }

  lemma SpaceIff(c: char)
    ensures Whitespace([c]) <==> IsSpace(c)
  {
    assert c in [c];
  }

  lemma {:induction false} TrimLeftCuts(s: string)
    ensures var k := |s| - |TrimLeft(s)|;
            && TrimLeft(s) == s[k..] && Whitespace(s[..k])
            && (TrimLeft(s) != "" ==> !IsSpace(s[k]))
  {
    if s != "" && IsSpace(s[0]) {
      TrimLeftCuts(s[1..]);
      var k := |s| - |TrimLeft(s)|;
      assert s[1..][k - 1..] == s[k..] && s[..k] == [s[0]] + s[1..][..k - 1];
    }
  }

  lemma {:induction false} TrimRightCuts(s: string)
    ensures var k := |TrimRight(s)|;
            && TrimRight(s) == s[..k] && Whitespace(s[k..])
            && (k > 0 ==> !IsSpace(s[k - 1]))
  {
    if s != "" && IsSpace(s[|s| - 1]) {
      var n := |s| - 1;
      TrimRightCuts(s[..n]);
      var k := |TrimRight(s)|;
      assert s[..n][..k] == s[..k] && s[k..] == s[..n][k..] + [s[n]];
    }
  }

  lemma DigitsAreNoSpace(s: string)
    requires s != "" && AllDigits(s)
    ensures !IsSpace(s[0]) && !IsSpace(s[|s| - 1])
  {
    assert s[0] in s && s[|s| - 1] in s;
  }

  // ---------------------------------------------------------------- trimming a comma-separated list

  function TrimAll(parts: seq<string>): (r: seq<string>)
    ensures |r| == |parts|
  {
    seq(|parts|, i requires 0 <= i < |parts| => TrimSpace(parts[i]))
  }

  lemma {:induction false} SplitTrimLeft(s: string)
    ensures Split(TrimLeft(s), ',') == [TrimLeft(Split(s, ',')[0])] + Split(s, ',')[1..]
  {
    if s != "" && IsSpace(s[0]) {
      var rest := Split(s[1..], ',');
      SplitTrimLeft(s[1..]);
      assert ([s[0]] + rest[0])[1..] == rest[0];
    }
  }

  /** A list with its last part trimmed on the right. */
  function LastTrimmed(parts: seq<string>): (r: seq<string>)
    requires |parts| >= 1
    ensures |r| == |parts|
  {
    if |parts| == 1 then [TrimRight(parts[0])] else [parts[0]] + LastTrimmed(parts[1..])
  }

  lemma LastTrimmedCons(p: string, parts: seq<string>)
    requires |parts| >= 1
    ensures LastTrimmed([p] + parts) == [p] + LastTrimmed(parts)
  {
    assert ([p] + parts)[1..] == parts;
  }

  lemma LastTrimmedOnto(c: char, parts: seq<string>)
    requires |parts| >= 1
    requires !(IsSpace(c) && |parts| == 1 && TrimRight(parts[0]) == "")
    ensures var r := LastTrimmed(parts);
            LastTrimmed([[c] + parts[0]] + parts[1..]) == [[c] + r[0]] + r[1..]
  {
    TrimRightOfCons(c, parts[0]);
    assert ([[c] + parts[0]] + parts[1..])[1..] == parts[1..];
  }

  /** Trimming the right end of a list trims its last part only. */
  lemma {:induction false} SplitTrimRight(s: string)
    ensures Split(TrimRight(s), ',') == LastTrimmed(Split(s, ','))
  {
    if s != "" {
      var c, y := s[0], s[1..];
      var rest := Split(y, ',');
      assert s == [c] + y;
      TrimRightOfCons(c, y);
      SplitTrimRight(y);
      if c == ',' {
        LastTrimmedCons("", rest);
        assert ([c] + TrimRight(y))[1..] == TrimRight(y);
      } else if IsSpace(c) && TrimRight(y) == "" {
        TrimRightOfCons(c, rest[0]);
      } else {
        NothingWhole(TrimRight(y));
        LastTrimmedOnto(c, rest);
        assert ([c] + TrimRight(y))[1..] == TrimRight(y);
      }
    }
  }

  lemma NothingWhole(s: string)
    ensures Split(s, ',') == [""] ==> s == ""
  {
    if s != "" && s[0] == ',' {
      assert |[""] + Split(s[1..], ',')| >= 2;
    }
  }

  /** Trimming a whole comma-separated list first makes no difference to its trimmed parts. */
  lemma SplitTrim(s: string)
    ensures TrimAll(Split(TrimSpace(s), ',')) == TrimAll(Split(s, ','))
  {
    var t := TrimLeft(s);
    SplitTrimLeft(s);
    SplitTrimRight(t);
    TrimAllLast(Split(t, ','));
    TrimAllFirst(Split(s, ','));
  }

  lemma TrimAllFirst(parts: seq<string>)
    requires |parts| >= 1
    ensures TrimAll([TrimLeft(parts[0])] + parts[1..]) == TrimAll(parts)
  {
  }

  lemma {:induction false} TrimAllLast(parts: seq<string>)
    requires |parts| >= 1
    ensures TrimAll(LastTrimmed(parts)) == TrimAll(parts)
  {
    if |parts| == 1 {
      TrimOfTrimRight(parts[0]);
    } else {
      TrimAllLast(parts[1..]);
      TrimAllCons(parts[0], parts[1..]);
      TrimAllCons(parts[0], LastTrimmed(parts[1..]));
      assert parts == [parts[0]] + parts[1..];
    }
  }

  lemma TrimAllCons(p: string, parts: seq<string>)
    ensures TrimAll([p] + parts) == [TrimSpace(p)] + TrimAll(parts)
  {
  }
}
