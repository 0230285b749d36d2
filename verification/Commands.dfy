/** The traffic handler of a client-side endpoint: configuration commands sent as packets, degradation,
    and the token check; and the command-line tools that print those commands. */
module Commands {
  import opened Text
  import Base64
  import Ports
  import opened Tokens

  const PREFIX: string := "PlayerGateway:"
  const DELIMITER: char := ':'
  const SET_DEGRADATION: string := "SetDegradation"
  const REPLACE_TOKEN: string := "ReplaceToken"
  const LIST_TOKENS: string := "ListTokens"
  const GET_DETAILS: string := "GetPlayerConnectionDetails"
  const MIN_DEGRADATION: int := 0
  const MAX_DEGRADATION: int := 100

  /** The state of one endpoint's handler. */
  datatype Handler = Handler(expectedPlayer: int, degradation: int, requested: seq<int>)

  datatype CommandResult =
    | DegradationResult(percentage: int)
    | DetailsResult(players: seq<int>)
    | GenericResult

  /** What the handler makes of a packet.  `Invalid` is any error but a degradation drop; `Crash` is the
      panic of the token check. */
  datatype Preprocessed =
    | Command(result: CommandResult)
    | Degraded
    | Invalid
    | Traffic(player: int, data: string)
    | Crash

  // ---------------------------------------------------------------- commands

  function Clamp(n: int): (r: int)
    ensures MIN_DEGRADATION <= r <= MAX_DEGRADATION
    ensures MIN_DEGRADATION <= n <= MAX_DEGRADATION ==> r == n
    ensures n < 0 ==> r == 0
    ensures n > 100 ==> r == 100
  {
    if n < MIN_DEGRADATION then MIN_DEGRADATION else if n > MAX_DEGRADATION then MAX_DEGRADATION else n
  }

  /** What each part of a list reads as, spaces around it aside. */
  function Readings(parts: seq<string>): (r: seq<Option<int>>)
    ensures |r| == |parts|
  {
    seq(|parts|, i requires 0 <= i < |parts| => Atoi(TrimSpace(parts[i])))
  }

  function Collect(readings: seq<Option<int>>): seq<int> {
    if readings == [] then []
    else
      var n := |readings| - 1;
      Collect(readings[..n]) + (if readings[n].Some? then [readings[n].value] else [])
  }

  /** The numbers in a list of parts; what is not a number is skipped. */
  function NumbersOf(parts: seq<string>): seq<int> {
    Collect(Readings(parts))
  }

  lemma {:induction false} CollectAppend(a: seq<Option<int>>, b: seq<Option<int>>)
    ensures Collect(a + b) == Collect(a) + Collect(b)
  {
    if b == [] {
      assert a + b == a;
    } else {
      var n := |b| - 1;
      assert (a + b)[..|a| + n] == a + b[..n];
      CollectAppend(a, b[..n]);
    }
  }

  /** The parts are read one by one, wherever they stand: a number is kept, anything else is left out. */
  lemma NumbersOfParts(before: seq<string>, part: string, after: seq<string>)
    ensures NumbersOf([]) == []
    ensures NumbersOf(before + [part] + after) ==
            NumbersOf(before) + (if Atoi(TrimSpace(part)).Some? then [Atoi(TrimSpace(part)).value] else []) +
            NumbersOf(after)
  {
    hide Atoi, TrimSpace;
    assert Readings(before + [part] + after) == Readings(before) + Readings([part]) + Readings(after);
    CollectAppend(Readings(before) + Readings([part]), Readings(after));
    CollectAppend(Readings(before), Readings([part]));
    assert Readings([part]) == [Atoi(TrimSpace(part))];
  }

  predicate NeedsParameter(name: string) {
    name == SET_DEGRADATION || name == REPLACE_TOKEN || name == GET_DETAILS
  }

  /** A command after it has been taken apart. */
  datatype Request =
    | SetDegradation(percentage: int)
    | ReplaceToken(player: int, base64Token: string)
    | ListTokens
    | GetDetails(players: seq<int>)
    | Malformed

  function RequestOf(name: string, parameter: string): Request {
    if parameter == "" && NeedsParameter(name) then Malformed
    else if name == SET_DEGRADATION then
      var n := Atoi(parameter);
      if n.None? then Malformed else SetDegradation(n.value)
    else if name == REPLACE_TOKEN then
      var (number, token, found) := Cut(parameter, DELIMITER);
      var player := Atoi(number);
      if !found || player.None? then Malformed else ReplaceToken(player.value, token)
    else if name == GET_DETAILS then GetDetails(NumbersOf(Split(parameter, ',')))
    else if name == LIST_TOKENS then ListTokens
    else Malformed
  }

  /** Which name and parameter are which request; all others are malformed. */
  lemma RequestIff(name: string, parameter: string)
    ensures forall n :: RequestOf(name, parameter) == SetDegradation(n) <==>
                        name == "SetDegradation" && Atoi(parameter) == Some(n)
    ensures forall p, token :: RequestOf(name, parameter) == ReplaceToken(p, token) <==>
                               name == "ReplaceToken" && NumberAndText(parameter, p, token)
    ensures forall players :: RequestOf(name, parameter) == GetDetails(players) <==>
                              name == "GetPlayerConnectionDetails" && parameter != "" &&
                              players == NumbersOf(Split(parameter, ','))
    ensures RequestOf(name, parameter) == ListTokens <==> name == "ListTokens"
  {
    forall p, token
      ensures RequestOf(name, parameter) == ReplaceToken(p, token) <==>
              name == "ReplaceToken" && NumberAndText(parameter, p, token)
    {
      ReplaceRequestIff(name, parameter, p, token);
    }
    hide NumbersOf, Cut, NumberAndText;
    assert Atoi("").None?;
    hide Atoi;
  }

  /** The text is a number, the first colon, and the token. */
  ghost predicate NumberAndText(parameter: string, p: int, token: string) {
    exists number :: parameter == number + ":" + token && ':' !in number && Atoi(number) == Some(p)
  }

  lemma ReplaceRequestIff(name: string, parameter: string, p: int, token: string)
    ensures RequestOf(name, parameter) == ReplaceToken(p, token) <==>
            name == "ReplaceToken" && NumberAndText(parameter, p, token)
  {
    hide NumbersOf;
    CutIsFirst(parameter, DELIMITER);
    if NumberAndText(parameter, p, token) {
      var number :| parameter == number + ":" + token && ':' !in number && Atoi(number) == Some(p);
      CutAt(number, DELIMITER, token);
    }
    if RequestOf(name, parameter) == ReplaceToken(p, token) {
      var (number, rest, found) := Cut(parameter, DELIMITER);
      assert parameter == number + ":" + token;
    }
  }

  function ParseRequest(data: string): Request
    requires PREFIX <= data
  {
    var rest := data[|PREFIX|..];
    if rest == "" then Malformed
    else
      var (name, parameter, _) := Cut(rest, DELIMITER);
      RequestOf(TrimSpace(name), TrimSpace(parameter))
  }

  /** A command text is a name up to the first colon, and behind that a parameter, white space around both
      aside; without a colon there is no parameter. */
  lemma CommandText(name: string, parameter: string)
    requires ':' !in name && name != ""
    ensures PREFIX <= "PlayerGateway:" + name + ":" + parameter && PREFIX <= "PlayerGateway:" + name
    ensures ParseRequest("PlayerGateway:" + name + ":" + parameter) == RequestOf(TrimSpace(name), TrimSpace(parameter))
    ensures ParseRequest("PlayerGateway:" + name) == RequestOf(TrimSpace(name), "")
    ensures PREFIX <= "PlayerGateway:" && ParseRequest("PlayerGateway:") == Malformed
  {
    var (data, short) := (PREFIX + name + ":" + parameter, PREFIX + name);
    assert data[|PREFIX|..] == name + [DELIMITER] + parameter && short[|PREFIX|..] == name;
    CutAt(name, DELIMITER, parameter);
    CutIsFirst(name, DELIMITER);
    assert TrimSpace("") == "";
  }

  /** Carrying out a request: the handler and the token table afterwards, and the outcome. */
  function Execute(h: Handler, t: TokenTable, r: Request): (Handler, TokenTable, Preprocessed)
    requires |t.base64Tokens| == |t.decodedTokens|
  {
    match r
    case SetDegradation(n) => (h.(degradation := Clamp(n)), t, Command(DegradationResult(Clamp(n))))
    case ReplaceToken(player, token) =>
      var (t', err) := Replace(t, player, token);
      (h, t', if err.None? then Command(GenericResult) else Invalid)
    case ListTokens => (h, t, Command(GenericResult))
    case GetDetails(players) => (h.(requested := players), t, Command(DetailsResult(players)))
    case Malformed => (h, t, Invalid)
  }

  /** What each command changes, and its answer.  A percentage outside 0 to 100 counts as the nearer bound. */
  lemma CommandEffects(h: Handler, t: TokenTable, r: Request)
    requires |t.base64Tokens| == |t.decodedTokens|
    ensures var (h', t', answer) := Execute(h, t, r);
            && h'.expectedPlayer == h.expectedPlayer
            && h'.degradation == (if !r.SetDegradation? then h.degradation
                                  else if r.percentage < 0 then 0
                                  else if r.percentage > 100 then 100 else r.percentage)
            && h'.requested == (if r.GetDetails? then r.players else h.requested)
            && t' == (if r.ReplaceToken? then Replace(t, r.player, r.base64Token).0 else t)
            && (answer == Invalid <==>
                  r.Malformed? || (r.ReplaceToken? && Replace(t, r.player, r.base64Token).1.Some?))
            && (answer != Invalid ==> answer.Command?)
            && (r.SetDegradation? ==> answer == Command(DegradationResult(h'.degradation)))
            && (r.GetDetails? ==> answer == Command(DetailsResult(r.players)))
  {
    hide Replace;
  }

  // ---------------------------------------------------------------- packets

  /** `draw` is the random number below 100 that is compared with the percentage. */
  predicate ShouldDrop(degradation: int, draw: int) {
    degradation != MIN_DEGRADATION && (degradation == MAX_DEGRADATION || draw < degradation)
  }

  function Below(n: nat): (r: set<int>)
    ensures |r| == n && forall d :: d in r <==> 0 <= d < n
  {
    if n == 0 then {} else Below(n - 1) + {n - 1}
  }

  /** Of the hundred numbers that can be drawn, as many drop a packet as the percentage says; and what is dropped
      at one percentage is dropped at every higher one. */
  lemma DropsItsPercentage(percentage: int, higher: int)
    requires 0 <= percentage <= higher <= 100
    ensures |set d | 0 <= d < 100 && ShouldDrop(percentage, d)| == percentage
    ensures forall d | 0 <= d < 100 && ShouldDrop(percentage, d) :: ShouldDrop(higher, d)
  {
    assert (set d | 0 <= d < 100 && ShouldDrop(percentage, d)) == Below(percentage);
  }

  function TrafficOf(expectedPlayer: int, t: TokenTable, data: string): Preprocessed {
    match ParseClientSideToken(t, data)
    case Accepted(player, modified) => if player == expectedPlayer then Traffic(player, modified) else Invalid
    case Rejected(_) => Invalid
    case Fault => Crash
  }

  /** `PreprocessServerBoundTraffic` of a client-side endpoint. */
  function Preprocess(h: Handler, t: TokenTable, data: string, draw: int): (Handler, TokenTable, Preprocessed)
    requires |t.base64Tokens| == |t.decodedTokens|
  {
    if PREFIX <= data then Execute(h, t, ParseRequest(data))
    else if ShouldDrop(h.degradation, draw) then (h, t, Degraded)
    else (h, t, TrafficOf(h.expectedPlayer, t, data))
  }

  /** An endpoint lets through exactly the packets, not dropped and not commands, that start with the
      current token of its own player; it passes on the player number, the delimiter and the rest. */
  lemma TrafficIff(h: Handler, t: TokenTable, data: string, draw: int)
    requires t.Inverse()
    ensures var r := Preprocess(h, t, data, draw);
            && (r.2.Traffic? <==>
                  && !(PREFIX <= data) && !ShouldDrop(h.degradation, draw)
                  && t.HasPlayer(h.expectedPlayer) && |data| >= GENERATED_TOKEN_LENGTH
                  && data[..GENERATED_TOKEN_LENGTH] == t.decodedTokens[h.expectedPlayer - 1])
            && (r.2.Traffic? ==>
                  && r.0 == h && r.1 == t && r.2.player == h.expectedPlayer
                  && ParseServerSideToken(r.2.data) == Some((h.expectedPlayer, data[GENERATED_TOKEN_LENGTH..]))
                  && |r.2.data| < |data|)
  {
    AcceptedIff(t, data, h.expectedPlayer);
    if ParseClientSideToken(t, data).Accepted? {
      TwoHopRoundTrip(t, data);
    }
  }

  /** An endpoint drops the percentage it is set to of the packets that are no commands. */
  lemma DegradesItsPercentage(h: Handler, t: TokenTable, data: string)
    requires |t.base64Tokens| == |t.decodedTokens| && !(PREFIX <= data) && 0 <= h.degradation <= 100
    ensures |set draw | 0 <= draw < 100 && Preprocess(h, t, data, draw).2.Degraded?| == h.degradation
    ensures forall draw :: Preprocess(h, t, data, draw).0 == h && Preprocess(h, t, data, draw).1 == t
  {
    hide ShouldDrop, ParseClientSideToken;
    DropsItsPercentage(h.degradation, h.degradation);
    assert (set draw | 0 <= draw < 100 && Preprocess(h, t, data, draw).2.Degraded?) ==
           set d | 0 <= d < 100 && ShouldDrop(h.degradation, d);
  }

  /** Whatever packet arrives, the token table stays sound and the degradation within its bounds. */
  lemma PreprocessKeeps(h: Handler, t: TokenTable, data: string, draw: int)
    requires t.Inverse() && t.Matching() && MIN_DEGRADATION <= h.degradation <= MAX_DEGRADATION
    ensures var (h', t', _) := Preprocess(h, t, data, draw);
            && t'.Inverse() && t'.Matching() && t'.PlayerCount() == t.PlayerCount()
            && h'.expectedPlayer == h.expectedPlayer
            && MIN_DEGRADATION <= h'.degradation <= MAX_DEGRADATION
  {
    if PREFIX <= data {
      var r := ParseRequest(data);
      if r.ReplaceToken? {
        ReplaceKeepsTable(t, r.player, r.base64Token);
      }
    }
  }

  /** When all installed tokens are generated, a packet that starts with a token, plain or base64, is
      never taken for a command. */
  lemma TokenPacketIsNoCommand(t: TokenTable, i: nat, rest: string)
    requires t.Inverse() && t.Matching() && AllGenerated(t) && i < |t.base64Tokens|
    ensures !(PREFIX <= t.decodedTokens[i] + rest) && !(PREFIX <= t.base64Tokens[i] + rest)
  {
    var hex, b64 := t.decodedTokens[i], t.base64Tokens[i];
    GeneratedTokensAreLong(t);
    InstalledTokensAreHex(t);
    HexTokenFirstSymbol(hex);
    assert IsGenerated(b64);
    assert (hex + rest)[0] == hex[0] && (b64 + rest)[0] == b64[0] && PREFIX[0] == 'P';
  }

  // ---------------------------------------------------------------- what a packet can install

  /** The token in a parsed command is empty or does not end in white space. */
  lemma ParsedTokenEnds(data: string)
    requires PREFIX <= data && ParseRequest(data).ReplaceToken?
    ensures var b := ParseRequest(data).base64Token; b != "" ==> !IsSpace(b[|b| - 1])
  {
    hide Cut, TrimSpace, Atoi;
    var (name, parameter, _) := Cut(data[|PREFIX|..], DELIMITER);
    TrimmedEnds(parameter);
    RequestedTokenEnds(TrimSpace(name), TrimSpace(parameter));
  }

  lemma RequestedTokenEnds(name: string, parameter: string)
    requires parameter != "" ==> !IsSpace(parameter[|parameter| - 1])
    requires RequestOf(name, parameter).ReplaceToken?
    ensures var b := RequestOf(name, parameter).base64Token; b != "" ==> !IsSpace(b[|b| - 1])
  {
    hide Cut, Atoi, IsSpace, NumbersOf;
    CutIsFirst(parameter, DELIMITER);
    var (number, token, found) := Cut(parameter, DELIMITER);
    assert found ==> parameter == number + [DELIMITER] + token;
  }

  lemma TrimmedEnds(s: string)
    ensures var t := TrimSpace(s); t != "" ==> !IsSpace(t[|t| - 1])
  {
  }

  /** So no packet gives a player the empty token, although a direct call of `ReplaceToken` can. */
  lemma NoPacketInstallsEmptyToken(h: Handler, t: TokenTable, data: string, draw: int)
    requires |t.base64Tokens| == |t.decodedTokens| && "" !in t.decodedTokens
    ensures "" !in Preprocess(h, t, data, draw).1.decodedTokens
  {
    hide ParseRequest, Base64.Decode, TrafficOf;
    if PREFIX <= data && ParseRequest(data).ReplaceToken? {
      ParsedTokenEnds(data);
      NoEmptyToken(t, ParseRequest(data).player, ParseRequest(data).base64Token);
    }
  }

  lemma NoEmptyToken(t: TokenTable, player: int, base64Token: string)
    requires |t.base64Tokens| == |t.decodedTokens| && "" !in t.decodedTokens
    requires base64Token != "" ==> !IsSpace(base64Token[|base64Token| - 1])
    ensures "" !in Replace(t, player, base64Token).0.decodedTokens
  {
    if base64Token != "" {
      Base64.DecodesToNothingIff(base64Token);
      assert base64Token[|base64Token| - 1] in base64Token;
    }
  }

  // ---------------------------------------------------------------- the command-line tools

  /** The message `replace-token` sends, if it accepts its flags. */
  function RunReplaceToken(player: int, port: int, random: string): Option<string>
    requires Base64.IsBytes(random) && |random| == GENERATED_TOKEN_LENGTH / 2
  {
    if player < 1 || !Ports.WithinBounds(port, Ports.MIN_PORT, Ports.MAX_PORT) then None
    else Some(PREFIX + REPLACE_TOKEN + [DELIMITER] + Itoa(player) + [DELIMITER] + GenerateRandomToken(random))
  }

  /** The message `set-degradation` sends, if it accepts its flags. */
  function RunSetDegradation(percentage: int, port: int): Option<string> {
    if || !Ports.WithinBounds(percentage, MIN_DEGRADATION, MAX_DEGRADATION)
       || !Ports.WithinBounds(port, Ports.MIN_PORT, Ports.MAX_PORT) then None
    else Some(PREFIX + SET_DEGRADATION + [DELIMITER] + Itoa(percentage))
  }

  predicate IsNumber(part: string) {
    Atoi(TrimSpace(part)).Some?
  }

  /** The message `get-player-connection-details` sends, if it accepts its flags. */
  function RunGetDetails(players: string, port: int): Option<string> {
    var parts := Split(players, ',');
    if || !Ports.WithinBounds(port, Ports.MIN_PORT, Ports.MAX_PORT)
       || parts == [""] || (exists i | 0 <= i < |parts| :: !IsNumber(parts[i]))
    then None
    else Some(PREFIX + GET_DETAILS + [DELIMITER] + players)
  }

  /** When `replace-token` accepts its flags, and what it then sends. */
  lemma ReplaceTokenAcceptsIff(player: int, port: int, random: string)
    requires Base64.IsBytes(random) && |random| == GENERATED_TOKEN_LENGTH / 2
    ensures RunReplaceToken(player, port, random) ==
            if player >= 1 && 1 <= port <= 65535
            then Some("PlayerGateway:" + "ReplaceToken" + ":" + Itoa(player) + ":" + GenerateRandomToken(random)) else None
  {
    hide Itoa, GenerateRandomToken;
  }

  /** The same for `set-degradation`. */
  lemma SetDegradationAcceptsIff(percentage: int, port: int)
    ensures RunSetDegradation(percentage, port) ==
            if 0 <= percentage <= 100 && 1 <= port <= 65535
            then Some("PlayerGateway:" + "SetDegradation" + ":" + Itoa(percentage)) else None
  {
    hide Itoa;
  }

  /** And for `get-player-connection-details`. */
  lemma GetDetailsAcceptsIff(players: string, port: int)
    ensures RunGetDetails(players, port) ==
            if 1 <= port <= 65535 && forall i | 0 <= i < |Split(players, ',')| :: Atoi(TrimSpace(Split(players, ',')[i])).Some?
            then Some("PlayerGateway:" + "GetPlayerConnectionDetails" + ":" + players) else None
  {
    assert !IsNumber("");
    hide TrimSpace, Atoi, Split;
    forall i | 0 <= i < |Split(players, ',')|
      ensures IsNumber(Split(players, ',')[i]) <==> Atoi(TrimSpace(Split(players, ',')[i])).Some? {}
    assert Split(players, ',') == [""] ==> !IsNumber(Split(players, ',')[0]);
  }

  /** A message made of the prefix, a command name and a parameter is taken apart again. */
  lemma ParseMessage(name: string, parameter: string)
    requires DELIMITER !in name && name != "" && TrimSpace(name) == name
    ensures PREFIX <= PREFIX + name + [DELIMITER] + parameter
    ensures ParseRequest(PREFIX + name + [DELIMITER] + parameter) == RequestOf(name, TrimSpace(parameter))
  {
    var data := PREFIX + name + [DELIMITER] + parameter;
    assert data[|PREFIX|..] == name + [DELIMITER] + parameter;
    CutAt(name, DELIMITER, parameter);
  }

  lemma CommandNames()
    ensures DELIMITER !in SET_DEGRADATION && TrimSpace(SET_DEGRADATION) == SET_DEGRADATION
    ensures DELIMITER !in REPLACE_TOKEN && TrimSpace(REPLACE_TOKEN) == REPLACE_TOKEN
    ensures DELIMITER !in GET_DETAILS && TrimSpace(GET_DETAILS) == GET_DETAILS
    ensures |SET_DEGRADATION| == 14 && |REPLACE_TOKEN| == 12 && |GET_DETAILS| == 26
  {
    TrimNothing(SET_DEGRADATION);
    TrimNothing(REPLACE_TOKEN);
    TrimNothing(GET_DETAILS);
  }

  lemma EncodedEnds(s: string)
    requires Base64.IsBytes(s) && s != ""
    ensures var e := Base64.Encode(s); e != "" && !IsSpace(e[|e| - 1])
    decreases |s|
  {
    if |s| > 3 {
      EncodedEnds(s[3..]);
      assert Base64.Encode(s)[4..] == Base64.Encode(s[3..]);
    } else {
      Base64.SymbolRoundTrip(Base64.Group(s) % 64);
      EncodedGroupEnds(s);
    }
  }

  lemma EncodedGroupEnds(s: string)
    requires 1 <= |s| <= 3 && Base64.IsBytes(s)
    ensures !IsSpace(Base64.EncodeGroup(s)[3])
  {
  }

  /** `replace-token`: the endpoint installs exactly the printed token for exactly that player. */
  lemma ReplaceTokenRoundTrip(player: int, port: int, random: string)
    requires Base64.IsBytes(random) && |random| == GENERATED_TOKEN_LENGTH / 2 && IsInt64(player)
    requires RunReplaceToken(player, port, random).Some?
    ensures var message := RunReplaceToken(player, port, random).value;
            PREFIX <= message && ParseRequest(message) == ReplaceToken(player, GenerateRandomToken(random))
  {
    var number, token := Itoa(player), GenerateRandomToken(random);
    ItoaLength(player);
    AtoiItoa(player);
    EncodedEnds(HexEncode(random));
    ReplaceMessage(number, token, player);
  }

  lemma ReplaceMessage(number: string, token: string, player: int)
    requires number != "" && AllDigits(number) && Atoi(number) == Some(player)
    requires token != "" && !IsSpace(token[|token| - 1])
    ensures var message := PREFIX + REPLACE_TOKEN + [DELIMITER] + number + [DELIMITER] + token;
            PREFIX <= message && ParseRequest(message) == ReplaceToken(player, token)
  {
    CommandNames();
    ReplaceParameter(number, token, player);
    ParseMessage(REPLACE_TOKEN, number + [DELIMITER] + token);
    Regroup(PREFIX + REPLACE_TOKEN, number, token);
  }

  lemma Regroup(command: string, number: string, token: string)
    ensures command + [DELIMITER] + number + [DELIMITER] + token == command + [DELIMITER] + (number + [DELIMITER] + token)
  {
  }

  lemma ReplaceParameter(number: string, token: string, player: int)
    requires number != "" && AllDigits(number) && Atoi(number) == Some(player)
    requires token != "" && !IsSpace(token[|token| - 1])
    ensures var parameter := number + [DELIMITER] + token;
            TrimSpace(parameter) == parameter && RequestOf(REPLACE_TOKEN, parameter) == ReplaceToken(player, token)
  {
    DigitsAreNoSpace(number);
    TrimNothing(number + [DELIMITER] + token);
    CutAt(number, DELIMITER, token);
  }

  /** `set-degradation`: the endpoint's percentage becomes the printed one; clamping changes nothing. */
  lemma SetDegradationRoundTrip(percentage: int, port: int, h: Handler, t: TokenTable, draw: int)
    requires RunSetDegradation(percentage, port).Some? && |t.base64Tokens| == |t.decodedTokens|
    ensures Preprocess(h, t, RunSetDegradation(percentage, port).value, draw) ==
            (h.(degradation := percentage), t, Command(DegradationResult(percentage)))
  {
    CommandNames();
    ItoaLength(percentage);
    AtoiItoa(percentage);
    DigitsAreNoSpace(Itoa(percentage));
    TrimNothing(Itoa(percentage));
    ParseMessage(SET_DEGRADATION, Itoa(percentage));
  }

  /** `get-player-connection-details`, if the message is read whole: it is taken for exactly the numbers the
      tool accepted, in order, wherever there are spaces around them. */
  lemma WholeListReads(players: string, port: int)
    requires RunGetDetails(players, port).Some?
    ensures var message := RunGetDetails(players, port).value;
            var numbers := NumbersOf(Split(players, ','));
            && PREFIX <= message && ParseRequest(message) == GetDetails(numbers)
            && |numbers| == |Split(players, ',')|
            && forall i | 0 <= i < |numbers| :: Some(numbers[i]) == Readings(Split(players, ','))[i]
  {
    var parts := Split(players, ',');
    CommandNames();
    AllNumbers(parts);
    ParseMessage(GET_DETAILS, players);
    SplitTrim(players);
    SameNumbers(parts, Split(TrimSpace(players), ','));
    ListNotBlank(players);
  }

  lemma ListNotBlank(players: string)
    requires IsNumber(Split(players, ',')[0])
    ensures TrimSpace(players) != ""
  {
    SplitTrim(players);
    var trimmed := Split(TrimSpace(players), ',');
    assert TrimAll(trimmed)[0] == TrimAll(Split(players, ','))[0];
    assert Split("", ',') == [""] && Atoi(TrimSpace("")).None?;
  }

  lemma {:induction false} CollectAll(readings: seq<Option<int>>)
    requires forall i | 0 <= i < |readings| :: readings[i].Some?
    ensures |Collect(readings)| == |readings|
    ensures forall i | 0 <= i < |readings| :: Some(Collect(readings)[i]) == readings[i]
  {
    if readings != [] {
      CollectAll(readings[..|readings| - 1]);
    }
  }

  lemma AllNumbers(parts: seq<string>)
    requires forall i | 0 <= i < |parts| :: IsNumber(parts[i])
    ensures |NumbersOf(parts)| == |parts|
    ensures forall i | 0 <= i < |parts| :: Some(NumbersOf(parts)[i]) == Readings(parts)[i]
  {
    forall i | 0 <= i < |parts| ensures Readings(parts)[i].Some? {
      assert IsNumber(parts[i]);
    }
    CollectAll(Readings(parts));
  }

  lemma SameNumbers(a: seq<string>, b: seq<string>)
    requires TrimAll(a) == TrimAll(b)
    ensures NumbersOf(a) == NumbersOf(b)
  {
    assert |a| == |TrimAll(a)| == |b|;
    forall i | 0 <= i < |a| ensures Readings(a)[i] == Readings(b)[i] {
      assert TrimAll(a)[i] == TrimAll(b)[i];
    }
    assert Readings(a) == Readings(b);
  }

  // ---------------------------------------------------------------- the handler in place

  class ClientSideProxyTrafficHandler {
    const tokenManager: TokenManager
    const expectedPlayerNumber: int
    var degradationPercentage: int
    var requestedPlayerNumbers: seq<int>

    function View(): Handler
      reads this
    {
      Handler(expectedPlayerNumber, degradationPercentage, requestedPlayerNumbers)
    }

    constructor (tokenManager: TokenManager, expectedPlayerNumber: int)
      ensures this.tokenManager == tokenManager
      ensures View() == Handler(expectedPlayerNumber, 0, [])
    {
      this.tokenManager := tokenManager;
      this.expectedPlayerNumber := expectedPlayerNumber;
      degradationPercentage := 0;
      requestedPlayerNumbers := [];
    }

    method PreprocessServerBoundTraffic(data: string, draw: int) returns (result: Preprocessed)
      requires tokenManager.Valid()
      modifies this, tokenManager
      ensures tokenManager.Valid()
      ensures (View(), tokenManager.View(), result) == Preprocess(old(View()), old(tokenManager.View()), data, draw)
    {
      if PREFIX <= data {
        result := ParseConfigCommand(data);
        return;
      }
      if ShouldDrop(degradationPercentage, draw) {
        return Degraded;
      }
      match ParseClientSideToken(tokenManager.View(), data) {
        case Fault => return Crash;
        case Rejected(_) => return Invalid;
        case Accepted(player, modified) =>
          if player != expectedPlayerNumber {
            return Invalid;
          }
          return Traffic(player, modified);
      }
    }

    method ParseConfigCommand(data: string) returns (result: Preprocessed)
      requires tokenManager.Valid() && PREFIX <= data
      modifies this, tokenManager
      ensures tokenManager.Valid()
      ensures (View(), tokenManager.View(), result) ==
              Execute(old(View()), old(tokenManager.View()), ParseRequest(data))
    {
      var rest := data[|PREFIX|..];
      if rest == "" {
        return Invalid;
      }
      var (name, parameter, _) := Cut(rest, DELIMITER);
      result := RunCommand(TrimSpace(name), TrimSpace(parameter));
    }

    method RunCommand(name: string, parameter: string) returns (result: Preprocessed)
      requires tokenManager.Valid()
      modifies this, tokenManager
      ensures tokenManager.Valid()
      ensures (View(), tokenManager.View(), result) ==
              Execute(old(View()), old(tokenManager.View()), RequestOf(name, parameter))
    {
      if parameter == "" && NeedsParameter(name) {
        return Invalid;
      }
      if name == SET_DEGRADATION {
        result := SetDegradationTo(parameter);
      } else if name == REPLACE_TOKEN {
        result := ReplaceTokenWith(parameter);
      } else if name == GET_DETAILS {
        ParsePlayerNumbers(parameter);
        result := Command(DetailsResult(requestedPlayerNumbers));
      } else if name == LIST_TOKENS {
        result := Command(GenericResult);
      } else {
        result := Invalid;
      }
    }

    method SetDegradationTo(parameter: string) returns (result: Preprocessed)
      requires parameter != "" && tokenManager.Valid()
      modifies this`degradationPercentage
      ensures (View(), tokenManager.View(), result) ==
              Execute(old(View()), old(tokenManager.View()), RequestOf(SET_DEGRADATION, parameter))
    {
      var percentage := Atoi(parameter);
      if percentage.None? {
        return Invalid;
      }
      degradationPercentage := Clamp(percentage.value);
      result := Command(DegradationResult(degradationPercentage));
    }

    method ReplaceTokenWith(parameter: string) returns (result: Preprocessed)
      requires parameter != "" && tokenManager.Valid()
      modifies tokenManager
      ensures tokenManager.Valid()
      ensures (View(), tokenManager.View(), result) ==
              Execute(old(View()), old(tokenManager.View()), RequestOf(REPLACE_TOKEN, parameter))
    {
      var (number, token, found) := Cut(parameter, DELIMITER);
      if !found {
        return Invalid;
      }
      var player := Atoi(number);
      if player.None? {
        return Invalid;
      }
      var err := tokenManager.ReplaceToken(player.value, token);
      result := if err.None? then Command(GenericResult) else Invalid;
    }

    method ParsePlayerNumbers(parameter: string)
      modifies this`requestedPlayerNumbers
      ensures requestedPlayerNumbers == NumbersOf(Split(parameter, ','))
    {
      requestedPlayerNumbers := [];
      var parts := Split(parameter, ',');
      for i := 0 to |parts|
        invariant requestedPlayerNumbers == Collect(Readings(parts)[..i])
      {
        assert Readings(parts)[..i + 1][..i] == Readings(parts)[..i];
        var n := Atoi(TrimSpace(parts[i]));
        if n.Some? {
          requestedPlayerNumbers := requestedPlayerNumbers + [n.value];
        }
      }
      assert Readings(parts)[..|parts|] == Readings(parts);
    }
  }
}
