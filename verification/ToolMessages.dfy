/** What becomes of the command-line tools' messages at an endpoint, which reads no more than its buffer holds:
    the first two always fit, a list of players arrives whole exactly when what is cut off says nothing. */
module ToolMessages {
  import opened Text
  import opened Tokens
  import opened Commands
  import opened Connections
  import Base64
  import Ports

  // ---------------------------------------------------------------- messages that always fit

  lemma ReplaceMessageFits(player: int, port: int, random: string)
    requires Base64.IsBytes(random) && |random| == GENERATED_TOKEN_LENGTH / 2 && IsInt64(player)
    requires RunReplaceToken(player, port, random).Some?
    ensures Truncate(RunReplaceToken(player, port, random).value) == RunReplaceToken(player, port, random).value
  {
    hide Itoa;
    ItoaLength(player);
    GeneratedTokenShape(random);
    CommandNames();
    assert |PREFIX| == 14;
  }

  /** `replace-token`: the endpoint carries out exactly the replacement of that player's token by the generated
      one. */
  lemma ReplaceTokenRoundTrip(player: int, port: int, random: string, h: Handler, t: TokenTable, draw: int)
    requires Base64.IsBytes(random) && |random| == GENERATED_TOKEN_LENGTH / 2 && IsInt64(player)
    requires RunReplaceToken(player, port, random).Some? && |t.base64Tokens| == |t.decodedTokens|
    ensures var (h', t', r) := Preprocess(h, t, Truncate(RunReplaceToken(player, port, random).value), draw);
            var (replaced, err) := Replace(t, player, GenerateRandomToken(random));
            h' == h && t' == replaced && r == if err.None? then Command(GenericResult) else Invalid
  {
    hide Replace, ParseRequest, RunReplaceToken, GenerateRandomToken;
    ReplaceMessageFits(player, port, random);
    Commands.ReplaceTokenRoundTrip(player, port, random);
  }

  /** `set-degradation`: the endpoint's percentage becomes the printed one; clamping changes nothing. */
  lemma SetDegradationRoundTrip(percentage: int, port: int, h: Handler, t: TokenTable, draw: int)
    requires RunSetDegradation(percentage, port).Some? && |t.base64Tokens| == |t.decodedTokens|
    ensures Preprocess(h, t, Truncate(RunSetDegradation(percentage, port).value), draw) ==
            (h.(degradation := percentage), t, Command(DegradationResult(percentage)))
  {
    hide Preprocess, Itoa;
    ItoaLength(percentage);
    CommandNames();
    assert |PREFIX| == 14;
    Commands.SetDegradationRoundTrip(percentage, port, h, t, draw);
  }

  // ---------------------------------------------------------------- a list that is cut

  /** How many characters of the list the endpoint reads. */
  function Room(): nat {
    BUFFER_SIZE - |PREFIX + GET_DETAILS + [DELIMITER]|
  }

  function Kept(players: string): string {
    if |players| <= Room() then players else players[..Room()]
  }

  function CutOff(players: string): string {
    if |players| <= Room() then "" else players[Room()..]
  }

  lemma KeptAndCut(players: string)
    ensures players == Kept(players) + CutOff(players)
    ensures Truncate(PREFIX + GET_DETAILS + [DELIMITER] + players) == PREFIX + GET_DETAILS + [DELIMITER] + Kept(players)
  {
    var header := PREFIX + GET_DETAILS + [DELIMITER];
    assert |header + players| == |header| + |players|;
    if |players| > Room() {
      assert (header + players)[..BUFFER_SIZE] == header + players[..Room()];
    }
  }

  function Last(parts: seq<string>): string
    requires |parts| >= 1
  {
    parts[|parts| - 1]
  }

  predicate Blank(s: string) {
    forall c | c in s :: IsSpace(c)
  }

  /** What is cut off says nothing: it holds no comma, and either it is blank or it is the end of a number zero
      of which a digit arrives. */
  predicate NothingLost(kept: string, cut: string) {
    && ',' !in cut
    && (|| Blank(cut)
        || (Atoi(TrimSpace(Last(Split(kept + cut, ',')))) == Some(0) && Atoi(TrimSpace(Last(Split(kept, ',')))).Some?))
  }

  // ---------------------------------------------------------------- splitting two pieces

  lemma {:induction false} SplitCount(a: string, b: string)
    ensures |Split(a + b, ',')| == |Split(a, ',')| + |Split(b, ',')| - 1
  {
    if a == "" {
      assert a + b == b;
    } else {
      assert (a + b)[1..] == a[1..] + b;
      SplitCount(a[1..], b);
    }
  }

  lemma {:induction false} CommaSplits(s: string)
    requires ',' in s
    ensures |Split(s, ',')| >= 2
  {
    if s[0] != ',' {
      CommaSplits(s[1..]);
    }
  }

  lemma {:induction false} SplitAppend(a: string, b: string)
    requires ',' !in b
    ensures var (ps, n) := (Split(a, ','), |Split(a, ',')| - 1);
            Split(a + b, ',') == ps[..n] + [ps[n] + b]
  {
    if a == "" {
      assert a + b == b;
      SplitNone(b);
    } else {
      var rest := Split(a[1..], ',');
      assert (a + b)[1..] == a[1..] + b;
      SplitAppend(a[1..], b);
      if a[0] == ',' {
        BeforeFirst(rest, b);
      } else {
        OntoFirst(a[0], rest, b);
      }
    }
  }

  lemma BeforeFirst(rest: seq<string>, b: string)
    requires |rest| >= 1
    ensures var (n, more) := (|rest| - 1, [""] + rest);
            more[..n + 1] + [more[n + 1] + b] == [""] + (rest[..n] + [rest[n] + b])
  {
  }

  /** Putting a character before the first part and a text behind the last. */
  lemma OntoFirst(c: char, rest: seq<string>, b: string)
    requires |rest| >= 1
    ensures var n := |rest| - 1;
            var (more, longer) := ([[c] + rest[0]] + rest[1..], rest[..n] + [rest[n] + b]);
            more[..n] + [more[n] + b] == [[c] + longer[0]] + longer[1..]
  {
    var n := |rest| - 1;
    var (more, longer) := ([[c] + rest[0]] + rest[1..], rest[..n] + [rest[n] + b]);
    if n == 0 {
      assert [c] + (rest[0] + b) == [c] + rest[0] + b;
    }
  }

  lemma {:induction false} SplitNone(s: string)
    requires ',' !in s
    ensures Split(s, ',') == [s]
  {
    if s != "" {
      SplitNone(s[1..]);
      assert s == [s[0]] + s[1..];
    }
  }

  // ---------------------------------------------------------------- cutting a number

  lemma {:induction false} TrimRightBlank(a: string, b: string)
    requires Blank(b)
    ensures TrimRight(a + b) == TrimRight(a)
  {
    if b == "" {
      assert a + b == a;
    } else {
      var n := |b| - 1;
      assert (a + b)[..|a + b| - 1] == a + b[..n];
      assert b[n] in b && forall c | c in b[..n] :: c in b;
      TrimRightBlank(a, b[..n]);
    }
  }

  lemma TrimBlank(a: string, b: string)
    requires Blank(b)
    ensures TrimSpace(a + b) == TrimSpace(a)
  {
    TrimRightBlank(a, b);
    TrimCommutes(a + b);
    TrimCommutes(a);
  }

  lemma {:induction false} TrimLeftKeeps(a: string, b: string)
    requires TrimLeft(a) != ""
    ensures TrimLeft(a + b) == TrimLeft(a) + b
  {
    if IsSpace(a[0]) {
      assert (a + b)[1..] == a[1..] + b;
      TrimLeftKeeps(a[1..], b);
    }
  }

  lemma {:induction false} TrimRightKeeps(a: string, b: string)
    requires !Blank(b)
    ensures TrimRight(b) != "" && TrimRight(a + b) == a + TrimRight(b)
  {
    var n := |b| - 1;
    if IsSpace(b[n]) {
      assert (a + b)[..|a + b| - 1] == a + b[..n];
      assert b == b[..n] + [b[n]];
      TrimRightKeeps(a, b[..n]);
    }
  }

  lemma {:induction false} ValueGrows(u: string, b: string)
    requires AllDigits(u) && AllDigits(b) && b != ""
    ensures AllDigits(u + b) && DigitsValue(u + b) >= 10 * DigitsValue(u)
  {
    var n := |b| - 1;
    assert (u + b)[..|u + b| - 1] == u + b[..n];
    if n > 0 {
      ValueGrows(u, b[..n]);
    } else {
      assert u + b[..n] == u;
    }
  }

  /** A number that goes on with another digit keeps its value only if that is zero. */
  lemma LongerNumber(a: string, b: string)
    requires Atoi(a).Some? && b != "" && Atoi(a + b).Some?
    ensures Atoi(a) == Atoi(a + b) <==> Atoi(a + b) == Some(0)
  {
    var signed := a[0] == '-' || a[0] == '+';
    var u := if signed then a[1..] else a;
    var t := a + b;
    assert (if signed then t[1..] else t) == u + b;
    assert AllDigits(u + b);
    assert forall c | c in b :: c in u + b;
    ValueGrows(u, b);
  }

  /** Digits and a sign have no space at the end. */
  lemma NumberEnds(a: string, b: string)
    requires a != "" && Atoi(a + b).Some?
    ensures !IsSpace(a[|a| - 1])
  {
    var t := a + b;
    var signed := t[0] == '-' || t[0] == '+';
    var k := |a| - 1;
    if !signed {
      assert t[k] in t;
    } else if k > 0 {
      assert t[1..][k - 1] == a[k];
      assert t[1..][k - 1] in t[1..];
    }
  }

  /** Cutting a number off at the end leaves its value the same exactly when only blanks are cut, or the number
      is zero and something of it is left. */
  lemma CutNumber(a: string, b: string)
    requires IsNumber(a + b)
    ensures Atoi(TrimSpace(a)) == Atoi(TrimSpace(a + b)) <==>
            Blank(b) || (Atoi(TrimSpace(a + b)) == Some(0) && Atoi(TrimSpace(a)).Some?)
  {
    if Blank(b) {
      TrimBlank(a, b);
    } else if TrimLeft(a) == "" {
      assert TrimSpace(a) == "" && Atoi("").None?;
    } else {
      var (A, B) := (TrimLeft(a), TrimRight(b));
      TrimLeftKeeps(a, b);
      TrimRightKeeps(A, b);
      assert TrimSpace(a + b) == A + B;
      NumberEnds(A, B);
      assert TrimSpace(a) == A;
      if Atoi(A).Some? {
        LongerNumber(A, B);
      }
    }
  }

  // ---------------------------------------------------------------- what the endpoint reads

  lemma {:induction false} CollectShort(readings: seq<Option<int>>)
    ensures |Collect(readings)| <= |readings|
  {
    if readings != [] {
      CollectShort(readings[..|readings| - 1]);
    }
  }

  lemma CollectLast(parts: seq<string>, last: string)
    ensures NumbersOf(parts + [last]) ==
            NumbersOf(parts) + (if IsNumber(last) then [Atoi(TrimSpace(last)).value] else [])
  {
    assert Readings(parts + [last])[..|parts|] == Readings(parts);
  }

  /** The numbers of a list and of its beginning, all of the list being numbers. */
  lemma CutList(kept: string, cut: string)
    requires forall i | 0 <= i < |Split(kept + cut, ',')| :: IsNumber(Split(kept + cut, ',')[i])
    ensures NumbersOf(Split(kept, ',')) == NumbersOf(Split(kept + cut, ',')) <==> NothingLost(kept, cut)
  {
    hide NumbersOf, Split, NothingLost;
    if ',' in cut {
      CutWithComma(kept, cut);
    } else {
      CutInLast(kept, cut);
    }
  }

  lemma CutWithComma(kept: string, cut: string)
    requires ',' in cut
    requires forall i | 0 <= i < |Split(kept + cut, ',')| :: IsNumber(Split(kept + cut, ',')[i])
    ensures NumbersOf(Split(kept, ',')) != NumbersOf(Split(kept + cut, ',')) && !NothingLost(kept, cut)
  {
    hide Split, IsNumber;
    SplitCount(kept, cut);
    CommaSplits(cut);
    CollectShort(Readings(Split(kept, ',')));
    AllNumbers(Split(kept + cut, ','));
  }

  lemma CutInLast(kept: string, cut: string)
    requires ',' !in cut
    requires forall i | 0 <= i < |Split(kept + cut, ',')| :: IsNumber(Split(kept + cut, ',')[i])
    ensures NumbersOf(Split(kept, ',')) == NumbersOf(Split(kept + cut, ',')) <==> NothingLost(kept, cut)
  {
    hide Split, TrimSpace, Blank, Atoi, NumbersOf;
    var (short, long) := (Split(kept, ','), Split(kept + cut, ','));
    var n := |short| - 1;
    SplitAppend(kept, cut);
    assert short == short[..n] + [short[n]];
    CollectLast(short[..n], short[n]);
    CollectLast(short[..n], short[n] + cut);
    assert IsNumber(long[n]);
    CutNumber(short[n], cut);
    var (a, b) := (Atoi(TrimSpace(short[n])), Atoi(TrimSpace(short[n] + cut)));
    SameTail(NumbersOf(short[..n]), if a.Some? then [a.value] else [], [b.value]);
    assert a == b <==> (if a.Some? then [a.value] else []) == [b.value];
  }

  lemma SameTail(p: seq<int>, a: seq<int>, b: seq<int>)
    ensures p + a == p + b <==> a == b
  {
    assert (p + a)[|p|..] == a && (p + b)[|p|..] == b;
  }

  lemma CutListBlank(kept: string, cut: string)
    requires forall i | 0 <= i < |Split(kept + cut, ',')| :: IsNumber(Split(kept + cut, ',')[i])
    requires TrimSpace(kept) == ""
    ensures !NothingLost(kept, cut)
  {
    SplitTrim(kept);
    assert Split("", ',') == [""];
    assert TrimAll(Split(kept, ','))[0] == TrimAll([""])[0];
    assert NumbersOf(Split(kept, ',')) == NumbersOf([""]) by { SameNumbers(Split(kept, ','), [""]); }
    assert Readings([""]) == [None];
    CutList(kept, cut);
    AllNumbers(Split(kept + cut, ','));
  }

  lemma ListParts(players: string, port: int)
    requires RunGetDetails(players, port).Some?
    ensures RunGetDetails(players, port).value == PREFIX + GET_DETAILS + [DELIMITER] + players
    ensures forall i | 0 <= i < |Split(players, ',')| :: IsNumber(Split(players, ',')[i])
  {
  }

  /** What the endpoint reads of the tool's message is the request for exactly the list's numbers. */
  predicate Arrives(players: string, port: int)
    requires RunGetDetails(players, port).Some?
  {
    var message := Truncate(RunGetDetails(players, port).value);
    PREFIX <= message && ParseRequest(message) == GetDetails(NumbersOf(Split(players, ',')))
  }

  /** `get-player-connection-details`, for every list that the tool accepts: the endpoint, which reads at most
      its buffer's size of the message, reads exactly the numbers that the tool accepted, in order, exactly when
      what is cut off says nothing. */
  lemma GetDetailsArrivesIff(players: string, port: int)
    requires RunGetDetails(players, port).Some?
    ensures Arrives(players, port) <==> NothingLost(Kept(players), CutOff(players))
  {
    var (kept, cut) := (Kept(players), CutOff(players));
    ListParts(players, port);
    hide RunGetDetails, ParseRequest, NothingLost, Kept, CutOff, Split;
    CommandNames();
    KeptAndCut(players);
    ParseMessage(GET_DETAILS, kept);
    if TrimSpace(kept) == "" {
      CutListBlank(kept, cut);
    } else {
      SplitTrim(kept);
      SameNumbers(Split(kept, ','), Split(TrimSpace(kept), ','));
      CutList(kept, cut);
    }
  }

  /** In particular every message that fits arrives. */
  lemma GetDetailsRoundTrip(players: string, port: int)
    requires RunGetDetails(players, port).Some? && |RunGetDetails(players, port).value| <= BUFFER_SIZE
    ensures var message := Truncate(RunGetDetails(players, port).value);
            var numbers := NumbersOf(Split(players, ','));
            && PREFIX <= message && ParseRequest(message) == GetDetails(numbers)
            && |numbers| == |Split(players, ',')|
            && forall i | 0 <= i < |numbers| :: Some(numbers[i]) == Readings(Split(players, ','))[i]
  {
    hide RunGetDetails, ParseRequest;
    WholeListReads(players, port);
  }

  // ---------------------------------------------------------------- a list that does not arrive

  /** "1,1,...,1" of `n` ones. */
  function Ones(n: nat): (s: string)
    requires n >= 1
    ensures |s| == 2 * n - 1
    ensures forall i | 0 <= i < |s| :: s[i] == if i % 2 == 0 then '1' else ','
  {
    if n == 1 then "1" else "1," + Ones(n - 1)
  }

  lemma {:induction false} OnesParts(n: nat)
    requires n >= 1
    ensures |Split(Ones(n), ',')| == n && forall i | 0 <= i < n :: Split(Ones(n), ',')[i] == "1"
  {
    if n == 1 {
      SplitNone("1");
    } else {
      OnesParts(n - 1);
      var s := Ones(n);
      assert s[1..][1..] == Ones(n - 1);
      assert Split(s[1..], ',') == [""] + Split(Ones(n - 1), ',');
    }
  }

  /** A list of 9000 ones is accepted by the tool and does not arrive. */
  lemma LongListIsLost(port: int)
    requires Ports.WithinBounds(port, Ports.MIN_PORT, Ports.MAX_PORT)
    ensures RunGetDetails(Ones(9000), port).Some? && !Arrives(Ones(9000), port)
  {
    hide Arrives, Kept, CutOff, RunGetDetails, NothingLost;
    OnesAccepted(9000, port);
    OnesCut(9000);
    GetDetailsArrivesIff(Ones(9000), port);
  }

  lemma OnesAccepted(n: nat, port: int)
    requires n >= 1 && Ports.WithinBounds(port, Ports.MIN_PORT, Ports.MAX_PORT)
    ensures RunGetDetails(Ones(n), port).Some?
  {
    OnesParts(n);
    OneIsNumber();
    hide Ones, Split, IsNumber;
    assert Split(Ones(n), ',')[0] == "1";
  }

  lemma OnesCut(n: nat)
    requires n >= 4077
    ensures !NothingLost(Kept(Ones(n)), CutOff(Ones(n)))
  {
    hide Ones;
    CommandNames();
    assert |PREFIX| == 14;
    assert Room() == 8151;
    var players := Ones(n);
    assert players[8151] == ',' && CutOff(players)[0] == players[8151];
    hide Blank, Split;
  }

  lemma OneIsNumber()
    ensures IsNumber("1")
  {
    assert Itoa(1) == "1";
    AtoiItoa(1);
    TrimNothing("1");
  }
}
