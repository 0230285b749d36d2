/** Go's `base64.StdEncoding`: the standard alphabet with mandatory padding (section 4 of RFC 4648).
    The decoder skips carriage returns and line feeds anywhere and does not insist that the unused
    bits before the padding are zero. */
module Base64 {
  import opened Text

  predicate IsByte(c: char) {
    c as int < 256
  }

  predicate IsBytes(s: string) {
    forall i | 0 <= i < |s| :: IsByte(s[i])
  }

  // ---------------------------------------------------------------- the alphabet

  /** The symbol for six bits. */
  function Symbol(v: int): char
    requires 0 <= v < 64
  {
    if v < 26 then 'A' + v as char
    else if v < 52 then 'a' + (v - 26) as char
    else if v < 62 then '0' + (v - 52) as char
    else if v == 62 then '+' else '/'
  }

  /** The six bits of a symbol, or -1. */
  function SymbolValue(c: char): (v: int)
    ensures -1 <= v < 64
  {
    if 'A' <= c <= 'Z' then (c - 'A') as int
    else if 'a' <= c <= 'z' then (c - 'a') as int + 26
    else if '0' <= c <= '9' then (c - '0') as int + 52
    else if c == '+' then 62
    else if c == '/' then 63 else -1
  }

  lemma SymbolRoundTrip(v: int)
    requires 0 <= v < 64
    ensures SymbolValue(Symbol(v)) == v
    ensures Symbol(v) != '=' && !IsNewline(Symbol(v))
  {
  }

  // ---------------------------------------------------------------- groups of three bytes

  /** The four six-bit digits of 24 bits, most significant first. */
  function Sextets(n: int): (int, int, int, int)
    requires 0 <= n < 0x100_0000
  {
    (n / 64 / 64 / 64, n / 64 / 64 % 64, n / 64 % 64, n % 64)
  }

  function FromSextets(a: int, b: int, c: int, d: int): int {
    ((a * 64 + b) * 64 + c) * 64 + d
  }

  function Octet(n: int): (c: char)
    requires 0 <= n < 256
    ensures c as int == n
  {
    n as char
  }

  lemma SextetsRoundTrip(n: int)
    requires 0 <= n < 0x100_0000
    ensures var (a, b, c, d) := Sextets(n);
            && 0 <= a < 64 && 0 <= b < 64 && 0 <= c < 64 && 0 <= d < 64
            && FromSextets(a, b, c, d) == n
  {
    var m := n / 64;
    var k := m / 64;
    assert n == m * 64 + n % 64 && m == k * 64 + m % 64 && k == k / 64 * 64 + k % 64;
  }

  /** The 24 bits of one to three bytes, padded with zero bits on the right. */
  function Group(s: string): (n: int)
    requires 1 <= |s| <= 3 && IsBytes(s)
    ensures 0 <= n < 0x100_0000
  {
    (s[0] as int * 0x100 + (if |s| > 1 then s[1] as int else 0)) * 0x100 + (if |s| > 2 then s[2] as int else 0)
  }

  /** The first `k` bytes of 24 bits. */
  function Ungroup(n: int, k: nat): (s: string)
    requires 0 <= n < 0x100_0000 && 1 <= k <= 3
    ensures |s| == k && IsBytes(s)
  {
    [Octet(n / 0x100 / 0x100)] + (if k > 1 then [Octet(n / 0x100 % 0x100)] else []) + (if k > 2 then [Octet(n % 0x100)] else [])
  }

  lemma GroupRoundTrip(s: string)
    requires 1 <= |s| <= 3 && IsBytes(s)
    ensures Ungroup(Group(s), |s|) == s
    ensures |s| == 1 ==> Group(s) / 64 % 64 == 0
    ensures |s| <= 2 ==> Group(s) % 64 == 0
  {
    var x := s[0] as int;
    var y := if |s| > 1 then s[1] as int else 0;
    var z := if |s| > 2 then s[2] as int else 0;
    assert Group(s) == (x * 0x100 + y) * 0x100 + z;
    assert Group(s) / 0x100 == x * 0x100 + y && Group(s) % 0x100 == z;
    assert |s| == 1 ==> Group(s) / 64 == x * 1024;
  }

  // ---------------------------------------------------------------- encoding

  function EncodeGroup(s: string): (r: string)
    requires 1 <= |s| <= 3 && IsBytes(s)
    ensures |r| == 4
  {
    var (a, b, c, d) := Sextets(Group(s));
    [Symbol(a), Symbol(b), if |s| > 1 then Symbol(c) else '=', if |s| > 2 then Symbol(d) else '=']
  }

  /** `EncodeToString`. */
  function Encode(s: string): string
    requires IsBytes(s)
    decreases |s|
  {
    if |s| == 0 then ""
    else if |s| <= 3 then EncodeGroup(s)
    else EncodeGroup(s[..3]) + Encode(s[3..])
  }

  lemma {:induction false} EncodeLength(s: string)
    requires IsBytes(s)
    ensures |Encode(s)| == 4 * ((|s| + 2) / 3)
    decreases |s|
  {
    hide EncodeGroup, IsByte;
    if |s| > 3 {
      var rest := s[3..];
      EncodeLength(rest);
      assert |s| == |rest| + 3;
      assert Encode(s) == EncodeGroup(s[..3]) + Encode(rest);
    }
  }

  /** The first symbol is the first six bits. */
  lemma EncodeFirst(s: string)
    requires IsBytes(s) && |s| > 3
    ensures |Encode(s)| > 0 && Encode(s)[0] == Symbol(s[0] as int / 4)
  {
    var n := Group(s[..3]);
    assert s[..3][0] == s[0];
    assert n / 64 / 64 / 64 == s[0] as int / 4;
    assert Encode(s) == EncodeGroup(s[..3]) + Encode(s[3..]);
    assert EncodeGroup(s[..3])[0] == Symbol(n / 64 / 64 / 64);
  }

  // ---------------------------------------------------------------- decoding

  predicate IsNewline(c: char) {
    c == '\n' || c == '\r'
  }

  function DropNewlines(s: string): string {
    if s == "" then "" else (if IsNewline(s[0]) then "" else [s[0]]) + DropNewlines(s[1..])
  }

  /** What four characters decode to.  Padding is possible only in the last four. */
  function DecodeQuad(q: string, last: bool): (r: Option<string>)
    requires |q| == 4
    ensures r.Some? ==> IsBytes(r.value) && 1 <= |r.value| <= 3
  {
    var (a, b, c, d) := (SymbolValue(q[0]), SymbolValue(q[1]), SymbolValue(q[2]), SymbolValue(q[3]));
    if a < 0 || b < 0 then None
    else if c >= 0 && d >= 0 then Some(Ungroup(FromSextets(a, b, c, d), 3))
    else if c >= 0 && q[3] == '=' && last then Some(Ungroup(FromSextets(a, b, c, 0), 2))
    else if q[2] == '=' && q[3] == '=' && last then Some(Ungroup(FromSextets(a, b, 0, 0), 1))
    else None
  }

  function DecodeQuads(s: string): (r: Option<string>)
    ensures r.Some? ==> IsBytes(r.value)
  {
    if s == "" then Some("")
    else if |s| < 4 then None
    else
      var head := DecodeQuad(s[..4], |s| == 4);
      if head.None? then None
      else
        var rest := DecodeQuads(s[4..]);
        if rest.None? then None else Some(head.value + rest.value)
  }

  /** `DecodeString`; `None` is any error. */
  function Decode(s: string): (r: Option<string>)
    ensures r.Some? ==> IsBytes(r.value)
  {
    DecodeQuads(DropNewlines(s))
  }

  lemma {:induction false} AllNewlines(s: string)
    ensures DropNewlines(s) == "" <==> forall c | c in s :: IsNewline(c)
  {
    if s != "" {
      assert s == [s[0]] + s[1..];
      AllNewlines(s[1..]);
    }
  }

  /** Only line breaks decode to nothing. */
  lemma DecodesToNothingIff(s: string)
    ensures Decode(s) == Some("") <==> forall c | c in s :: IsNewline(c)
  {
    AllNewlines(s);
    var t := DropNewlines(s);
    if |t| >= 4 {
      var head := DecodeQuad(t[..4], |t| == 4);
      assert head.Some? ==> |head.value| >= 1;
    }
  }

  // ---------------------------------------------------------------- round trip

  lemma DecodeEncodeGroup(s: string, last: bool)
    requires 1 <= |s| <= 3 && IsBytes(s) && (|s| == 3 || last)
    ensures DecodeQuad(EncodeGroup(s), last) == Some(s)
    ensures forall c :: c in EncodeGroup(s) ==> !IsNewline(c)
  {
    var n := Group(s);
    var (a, b, c, d) := Sextets(n);
    SextetsRoundTrip(n);
    GroupRoundTrip(s);
    SymbolRoundTrip(a);
    SymbolRoundTrip(b);
    SymbolRoundTrip(c);
    SymbolRoundTrip(d);
  }

  lemma {:induction false} DropNothing(s: string)
    requires forall c :: c in s ==> !IsNewline(c)
    ensures DropNewlines(s) == s
  {
    if s != "" {
      DropNothing(s[1..]);
    }
  }

  lemma DecodeQuadsCons(q: string, v: string, t: string, w: string)
    requires |q| == 4 && DecodeQuad(q, t == "") == Some(v) && DecodeQuads(t) == Some(w)
    ensures DecodeQuads(q + t) == Some(v + w)
  {
    assert (q + t)[..4] == q && (q + t)[4..] == t;
  }

  lemma {:induction false} DecodeQuadsEncode(s: string)
    requires IsBytes(s)
    ensures DecodeQuads(Encode(s)) == Some(s)
  {
    if |s| == 0 {
    } else if |s| <= 3 {
      DecodeEncodeGroup(s, true);
      DecodeQuadsCons(EncodeGroup(s), s, "", "");
      assert EncodeGroup(s) + "" == EncodeGroup(s) && s + "" == s;
    } else {
      var h, t := s[..3], s[3..];
      assert s == h + t;
      DecodeEncodeGroup(h, false);
      DecodeQuadsEncode(t);
      DecodeQuadsCons(EncodeGroup(h), h, Encode(t), t);
    }
  }

  lemma {:induction false} EncodeHasNoNewline(s: string)
    requires IsBytes(s)
    ensures forall c :: c in Encode(s) ==> !IsNewline(c)
  {
    if 1 <= |s| <= 3 {
      DecodeEncodeGroup(s, true);
    } else if |s| > 3 {
      DecodeEncodeGroup(s[..3], true);
      EncodeHasNoNewline(s[3..]);
    }
  }

  /** Decoding undoes encoding, for every byte string. */
  lemma DecodeEncode(s: string)
    requires IsBytes(s)
    ensures Decode(Encode(s)) == Some(s)
  {
    DecodeQuadsEncode(s);
    EncodeHasNoNewline(s);
    DropNothing(Encode(s));
  }

  // ---------------------------------------------------------------- which texts decode, and to what

  const UPPER: string := "ABCDEFGHIJKLMNOPQRSTUVWXYZ"
  const LOWER: string := "abcdefghijklmnopqrstuvwxyz"
  const REST: string := "0123456789+/"
  const ALPHABET: string := UPPER + LOWER + REST

  lemma Letters()
    ensures |UPPER| == |LOWER| == 26 && |REST| == 12
    ensures forall v | 0 <= v < 26 :: UPPER[v] as int == 65 + v && LOWER[v] as int == 97 + v
    ensures forall v | 0 <= v < 12 :: REST[v] == Symbol(v + 52)
  {
  }

  lemma SymbolAt(v: int)
    requires 0 <= v < 64
    ensures |ALPHABET| == 64 && ALPHABET[v] == Symbol(v)
  {
    Letters();
    hide UPPER, LOWER, REST;
    if v < 26 {
      assert ALPHABET[v] == UPPER[v];
    } else if v < 52 {
      assert ALPHABET[v] == LOWER[v - 26];
    } else {
      assert ALPHABET[v] == REST[v - 52];
    }
  }

  /** The symbols are the 64 of the alphabet in this order, and no other character is one. */
  lemma SymbolsAreAlphabet()
    ensures |ALPHABET| == 64
    ensures forall v | 0 <= v < 64 :: Symbol(v) == ALPHABET[v] && SymbolValue(ALPHABET[v]) == v
    ensures forall c :: SymbolValue(c) >= 0 <==> c in ALPHABET
    ensures forall c | c !in ALPHABET :: SymbolValue(c) == -1
  {
    forall v | 0 <= v < 64 ensures |ALPHABET| == 64 && ALPHABET[v] == Symbol(v) {
      SymbolAt(v);
    }
    SymbolAt(0);
    hide ALPHABET;
    forall c | SymbolValue(c) >= 0 ensures c in ALPHABET {
      assert Symbol(SymbolValue(c)) == c;
    }
  }

  predicate InAlphabet(s: string) {
    forall c | c in s :: c in ALPHABET
  }

  /** The text ends in `pads` times '=' and consists of symbols before that. */
  predicate Padded(t: string, pads: nat) {
    && pads <= |t| && InAlphabet(t[..|t| - pads])
    && forall i | |t| - pads <= i < |t| :: t[i] == '='
  }

  /** Base64 text: whole groups of four symbols, the last of which may end in one or two '='. */
  predicate WellFormed(t: string) {
    |t| % 4 == 0 && (Padded(t, 0) || Padded(t, 1) || Padded(t, 2))
  }

  /** The number that four symbols spell in base 64, '=' counting as 0. */
  function Spelled(q: string): int
    requires |q| == 4
  {
    262144 * Digit64(q[0]) + 4096 * Digit64(q[1]) + 64 * Digit64(q[2]) + Digit64(q[3])
  }

  function Digit64(c: char): int {
    if c == '=' then 0 else SymbolValue(c)
  }

  /** The number that up to three bytes spell in base 256, missing ones counting as 0. */
  function SpelledBytes(s: string): int
    requires |s| <= 3
  {
    65536 * (if |s| > 0 then s[0] as int else 0) + 256 * (if |s| > 1 then s[1] as int else 0) +
    (if |s| > 2 then s[2] as int else 0)
  }

  /** One group decodes exactly when it is well-formed, and without '=' if more groups follow; it gives one byte
      less for each '=', and these are the leading bytes of what it spells. */
  lemma QuadDecodesIff(q: string, last: bool)
    requires |q| == 4
    ensures DecodeQuad(q, last).Some? <==> Padded(q, 0) || (last && (Padded(q, 1) || Padded(q, 2)))
    ensures DecodeQuad(q, last).Some? ==>
              var v := DecodeQuad(q, last).value;
              && |v| == (if q[2] == '=' then 1 else if q[3] == '=' then 2 else 3)
              && 0 <= Spelled(q) - SpelledBytes(v) < (if |v| == 3 then 1 else if |v| == 2 then 256 else 65536)
  {
    SymbolsAreAlphabet();
    hide ALPHABET, SymbolValue;
    assert '=' !in ALPHABET by { EqualsIsNoSymbol(); }
    QuadShapes(q);
    if DecodeQuad(q, last).Some? {
      QuadValue(q, last);
    }
  }

  lemma EqualsIsNoSymbol()
    ensures '=' !in ALPHABET
  {
    SymbolsAreAlphabet();
    hide ALPHABET;
    assert SymbolValue('=') == -1;
  }

  lemma QuadShapes(q: string)
    requires |q| == 4
    ensures Padded(q, 0) <==> forall i | 0 <= i < 4 :: q[i] in ALPHABET
    ensures Padded(q, 1) <==> q[3] == '=' && forall i | 0 <= i < 3 :: q[i] in ALPHABET
    ensures Padded(q, 2) <==> q[2] == q[3] == '=' && forall i | 0 <= i < 2 :: q[i] in ALPHABET
  {
    hide ALPHABET;
    assert q[..4] == q;
    assert forall i | 0 <= i < 3 :: q[..3][i] == q[i];
    assert forall i | 0 <= i < 2 :: q[..2][i] == q[i];
  }

  lemma QuadValue(q: string, last: bool)
    requires |q| == 4 && DecodeQuad(q, last).Some?
    ensures var v := DecodeQuad(q, last).value;
            && |v| == (if q[2] == '=' then 1 else if q[3] == '=' then 2 else 3)
            && 0 <= Spelled(q) - SpelledBytes(v) < (if |v| == 3 then 1 else if |v| == 2 then 256 else 65536)
  {
    var n := FromSextets(Digit64(q[0]), Digit64(q[1]), Digit64(q[2]), Digit64(q[3]));
    assert n == Spelled(q);
    assert SymbolValue('=') == -1;
    hide SymbolValue;
    LeadingBytes(n);
  }

  lemma LeadingBytes(n: int)
    requires 0 <= n < 0x100_0000
    ensures SpelledBytes(Ungroup(n, 3)) == n
    ensures 0 <= n - SpelledBytes(Ungroup(n, 2)) < 256
    ensures 0 <= n - SpelledBytes(Ungroup(n, 1)) < 65536
  {
    var m := n / 0x100;
    assert n == m * 0x100 + n % 0x100 && m == m / 0x100 * 0x100 + m % 0x100;
  }

  /** How many '=' the text ends in. */
  function Pads(t: string): (k: nat)
    requires |t| % 4 == 0
    ensures k <= 2 && k <= |t|
  {
    if t == "" || t[|t| - 1] != '=' then 0 else if t[|t| - 2] != '=' then 1 else 2
  }

  lemma PaddedCons(q: string, rest: string, pads: nat)
    requires |q| == 4 && pads <= |rest|
    ensures Padded(q + rest, pads) <==> Padded(q, 0) && Padded(rest, pads)
  {
    hide ALPHABET;
    var t := q + rest;
    assert t[..|t| - pads] == q + rest[..|rest| - pads] && q[..4] == q;
    assert forall i | |rest| - pads <= i < |rest| :: rest[i] == t[i + 4];
  }

  /** The group's bytes, of which there may be less than three in the last group. */
  function BytesAt(v: string, i: nat): (r: string)
    requires 3 * i < |v|
    ensures 1 <= |r| <= 3
  {
    if 3 * i + 3 <= |v| then v[3 * i..3 * i + 3] else v[3 * i..]
  }

  ghost predicate SpellsAt(t: string, v: string, i: nat) {
    && 4 * i + 4 <= |t| && 3 * i < |v|
    && var (b, d) := (BytesAt(v, i), Spelled(t[4 * i..4 * i + 4]) - SpelledBytes(BytesAt(v, i)));
       0 <= d < (if |b| == 3 then 1 else if |b| == 2 then 256 else 65536)
  }

  /** Group by group the bytes are those that the symbols spell. */
  ghost predicate Spells(t: string, v: string) {
    && |t| % 4 == 0 && |v| == |t| / 4 * 3 - Pads(t)
    && forall i | 0 <= i < |t| / 4 :: SpellsAt(t, v, i)
  }

  lemma {:induction false} QuadsDecodeIff(t: string)
    ensures DecodeQuads(t).Some? <==> WellFormed(t)
    ensures DecodeQuads(t).Some? ==> Spells(t, DecodeQuads(t).value)
  {
    hide ALPHABET, DecodeQuad;
    if t == "" {
      assert Padded(t, 0);
    } else if |t| >= 4 {
      var (q, rest) := (t[..4], t[4..]);
      assert t == q + rest;
      QuadDecodesIff(q, rest == "");
      QuadsDecodeIff(rest);
      if rest == "" {
        assert t == q;
        OneGroup(t);
      } else {
        MoreGroups(q, rest);
      }
    }
  }

  lemma OneGroup(t: string)
    requires |t| == 4
    requires DecodeQuad(t, true).Some? <==> Padded(t, 0) || Padded(t, 1) || Padded(t, 2)
    requires DecodeQuad(t, true).Some? ==>
               var v := DecodeQuad(t, true).value;
               && |v| == (if t[2] == '=' then 1 else if t[3] == '=' then 2 else 3)
               && 0 <= Spelled(t) - SpelledBytes(v) < (if |v| == 3 then 1 else if |v| == 2 then 256 else 65536)
    ensures DecodeQuads(t).Some? <==> WellFormed(t)
    ensures DecodeQuads(t).Some? ==> Spells(t, DecodeQuads(t).value)
  {
    QuadShapes(t);
    EqualsIsNoSymbol();
    hide ALPHABET, DecodeQuad, Spelled, SpelledBytes, Padded;
    assert t[..4] == t && t[4..] == "" && t[0..4] == t;
    assert DecodeQuads(t[4..]) == Some("");
    var head := DecodeQuad(t, true);
    if head.Some? {
      var v := head.value;
      assert v + "" == v && DecodeQuads(t).value == v;
      assert BytesAt(v, 0) == v;
      assert SpellsAt(t, v, 0);
    }
  }

  lemma MoreGroups(q: string, rest: string)
    requires |q| == 4 && rest != ""
    requires DecodeQuad(q, false).Some? <==> Padded(q, 0)
    requires DecodeQuad(q, false).Some? ==>
               var v := DecodeQuad(q, false).value;
               && |v| == (if q[2] == '=' then 1 else if q[3] == '=' then 2 else 3)
               && 0 <= Spelled(q) - SpelledBytes(v) < (if |v| == 3 then 1 else if |v| == 2 then 256 else 65536)
    requires DecodeQuads(rest).Some? <==> WellFormed(rest)
    requires DecodeQuads(rest).Some? ==> Spells(rest, DecodeQuads(rest).value)
    ensures DecodeQuads(q + rest).Some? <==> WellFormed(q + rest)
    ensures DecodeQuads(q + rest).Some? ==> Spells(q + rest, DecodeQuads(q + rest).value)
  {
    hide ALPHABET, DecodeQuad, Padded, Spells, Spelled, SpelledBytes, WellFormed;
    QuadsCons(q, rest);
    WellFormedCons(q, rest);
    if Padded(q, 0) && DecodeQuads(rest).Some? {
      FullGroup(q);
      SpellsCons(q, rest, DecodeQuad(q, false).value, DecodeQuads(rest).value);
    }
  }

  lemma FullGroup(q: string)
    requires |q| == 4 && Padded(q, 0)
    ensures q[2] != '=' && q[3] != '='
  {
    QuadShapes(q);
    EqualsIsNoSymbol();
    hide ALPHABET;
  }

  lemma QuadsCons(q: string, rest: string)
    requires |q| == 4 && rest != ""
    ensures var (head, more) := (DecodeQuad(q, false), DecodeQuads(rest));
            DecodeQuads(q + rest) == if head.Some? && more.Some? then Some(head.value + more.value) else None
  {
    hide DecodeQuad;
    assert (q + rest)[..4] == q && (q + rest)[4..] == rest;
  }

  lemma WellFormedCons(q: string, rest: string)
    requires |q| == 4 && rest != ""
    ensures WellFormed(q + rest) <==> Padded(q, 0) && WellFormed(rest)
  {
    hide Padded;
    if |rest| >= 4 {
      PaddedCons(q, rest, 0);
      PaddedCons(q, rest, 1);
      PaddedCons(q, rest, 2);
    }
  }

  lemma SpellsCons(q: string, rest: string, v: string, w: string)
    requires |q| == 4 && |v| == 3 && Spelled(q) == SpelledBytes(v) && rest != "" && Spells(rest, w)
    ensures Spells(q + rest, v + w)
  {
    var (t, x) := (q + rest, v + w);
    assert Pads(t) == Pads(rest);
    FirstSpells(q, rest, v, w);
    hide SpellsAt, Spelled, SpelledBytes, Pads;
    forall i | 0 <= i < |t| / 4 ensures SpellsAt(t, x, i) {
      if i > 0 {
        assert SpellsAt(rest, w, i - 1);
        LaterSpells(q, rest, v, w, i);
      }
    }
  }

  lemma FirstSpells(q: string, rest: string, v: string, w: string)
    requires |q| == 4 && |v| == 3 && Spelled(q) == SpelledBytes(v)
    ensures SpellsAt(q + rest, v + w, 0)
  {
    hide Spelled, SpelledBytes;
    assert (q + rest)[0..4] == q && BytesAt(v + w, 0) == v;
  }

  lemma LaterSpells(q: string, rest: string, v: string, w: string, i: nat)
    requires |q| == 4 && |v| == 3 && i > 0 && SpellsAt(rest, w, i - 1)
    ensures SpellsAt(q + rest, v + w, i)
  {
    hide Spelled, SpelledBytes;
    assert (q + rest)[4 * i..4 * i + 4] == rest[4 * (i - 1)..4 * (i - 1) + 4];
    assert BytesAt(v + w, i) == BytesAt(w, i - 1);
  }

  /** Line breaks may stand anywhere, and are all that is skipped. */
  lemma {:induction false} LineBreaksAreSkipped(a: string, b: string)
    ensures DropNewlines(a + b) == DropNewlines(a) + DropNewlines(b)
    ensures |a| == 1 ==> DropNewlines(a) == if a[0] == '\n' || a[0] == '\r' then "" else a
  {
    if a == "" {
      assert a + b == b;
    } else {
      assert (a + b)[1..] == a[1..] + b;
      LineBreaksAreSkipped(a[1..], b);
    }
  }

  /** A text decodes exactly when, without its line breaks, it is well-formed; it then gives three bytes for each
      group less one for each '=', and these are the ones it spells. */
  lemma DecodesIff(s: string)
    ensures Decode(s).Some? <==> WellFormed(DropNewlines(s))
    ensures Decode(s).Some? ==> Spells(DropNewlines(s), Decode(s).value)
  {
    QuadsDecodeIff(DropNewlines(s));
  }

  /** Encoding spells the bytes, with zeros for what is missing in the last group. */
  lemma {:induction false} EncodeSpells(s: string)
    requires IsBytes(s)
    ensures WellFormed(Encode(s)) && |Encode(s)| == 4 * ((|s| + 2) / 3)
    ensures forall i | 0 <= i < (|s| + 2) / 3 :: Spelled(Encode(s)[4 * i..4 * i + 4]) == SpelledBytes(BytesAt(s, i))
  {
    DecodeEncode(s);
    EncodeHasNoNewline(s);
    DropNothing(Encode(s));
    DecodesIff(Encode(s));
    EncodeLength(s);
    forall i | 0 <= i < (|s| + 2) / 3
      ensures Spelled(Encode(s)[4 * i..4 * i + 4]) == SpelledBytes(BytesAt(s, i))
    {
      EncodesAt(s, i);
    }
  }

  lemma {:induction false} EncodesAt(s: string, i: nat)
    requires IsBytes(s) && i < (|s| + 2) / 3 && |Encode(s)| == 4 * ((|s| + 2) / 3)
    ensures Spelled(Encode(s)[4 * i..4 * i + 4]) == SpelledBytes(BytesAt(s, i))
    decreases |s|
  {
    hide EncodeGroup, Spelled, SpelledBytes, IsByte;
    if |s| <= 3 {
      assert Encode(s)[0..4] == EncodeGroup(s) && BytesAt(s, 0) == s;
      EncodeGroupSpells(s);
    } else {
      var (h, t) := (s[..3], s[3..]);
      EncodeLength(t);
      assert Encode(s) == EncodeGroup(h) + Encode(t);
      if i == 0 {
        assert Encode(s)[0..4] == EncodeGroup(h) && BytesAt(s, 0) == h;
        EncodeGroupSpells(h);
      } else {
        EncodesAt(t, i - 1);
        assert Encode(s)[4 * i..4 * i + 4] == Encode(t)[4 * (i - 1)..4 * (i - 1) + 4];
        assert BytesAt(s, i) == BytesAt(t, i - 1);
      }
    }
  }

  lemma EncodeGroupSpells(s: string)
    requires 1 <= |s| <= 3 && IsBytes(s)
    ensures Spelled(EncodeGroup(s)) == SpelledBytes(s)
  {
    var (a, b, c, d) := Sextets(Group(s));
    SextetsRoundTrip(Group(s));
    GroupRoundTrip(s);
    SymbolRoundTrip(a);
    SymbolRoundTrip(b);
    SymbolRoundTrip(c);
    SymbolRoundTrip(d);
    hide Symbol, SymbolValue, Sextets;
  }
}
