/** The token table of the player gateway testing app: which decoded token belongs to which player,
    how a token is replaced, and how the two hops of the relay parse their packets. */
module Tokens {
  import opened Text
  import opened Base64

  const TOKEN_DELIMITER: char := '|'
  const GENERATED_TOKEN_LENGTH: nat := 28

  datatype TokenError =
    | MissingDelimiter
    | HashMismatch
    | PacketTooShort
    | InvalidBase64
    | Base64TokenInPacket
    | ZeroLengthToken
    | TokenAlreadyExists
    | InvalidPlayerNumber

  /** Players are numbered from 1; the token of player p is at position p - 1. */
  datatype TokenTable = TokenTable(
    tokenToPlayer: map<string, int>,
    base64Tokens: seq<string>,
    decodedTokens: seq<string>)
  {
    function PlayerCount(): nat {
      |base64Tokens|
    }

    predicate HasPlayer(p: int) {
      1 <= p <= PlayerCount() && PlayerCount() == |decodedTokens|
    }

    /** Every decoded token is what its base64 form decodes to. */
    ghost predicate Matching() {
      && |base64Tokens| == |decodedTokens|
      && forall i | 0 <= i < |base64Tokens| :: Decode(base64Tokens[i]) == Some(decodedTokens[i])
    }

    /** The lookup map and the list of decoded tokens are inverse to each other. */
    ghost predicate Inverse() {
      |base64Tokens| == |decodedTokens| <= MAX_INT64 && ListToMap() && MapToList()
    }

    ghost predicate ListToMap() {
      forall i | 0 <= i < |decodedTokens| ::
        decodedTokens[i] in tokenToPlayer && tokenToPlayer[decodedTokens[i]] == i + 1
    }

    ghost predicate MapToList() {
      forall t | t in tokenToPlayer ::
        1 <= tokenToPlayer[t] <= |decodedTokens| && decodedTokens[tokenToPlayer[t] - 1] == t
    }
  }

  // ---------------------------------------------------------------- building the table

  /** The decoded form of a token; the error is ignored and leaves the empty string. */
  function Decoded(base64Token: string): string {
    var d := Decode(base64Token);
    if d.Some? then d.value else ""
  }

  function DecodedAll(tokens: seq<string>): (r: seq<string>)
    ensures |r| == |tokens|
  {
    seq(|tokens|, i requires 0 <= i < |tokens| => Decoded(tokens[i]))
  }

  /** Position + 1 of the last occurrence of every string in the list. */
  function LastPlayer(decoded: seq<string>): map<string, int> {
    if decoded == [] then map[]
    else LastPlayer(decoded[..|decoded| - 1])[decoded[|decoded| - 1] := |decoded|]
  }

  function NewTable(tokens: seq<string>): TokenTable {
    TokenTable(LastPlayer(DecodedAll(tokens)), tokens, DecodedAll(tokens))
  }

  ghost predicate Distinct(s: seq<string>) {
    forall i, j | 0 <= i < j < |s| :: s[i] != s[j]
  }

  lemma {:induction false} LastPlayerIsLast(s: seq<string>)
    ensures forall t :: t in LastPlayer(s) <==> t in s
    ensures forall t | t in LastPlayer(s) :: 1 <= LastPlayer(s)[t] <= |s| && s[LastPlayer(s)[t] - 1] == t
    ensures forall i | 0 <= i < |s| :: i + 1 <= LastPlayer(s)[s[i]]
  {
    if s != [] {
      var n := |s| - 1;
      LastPlayerIsLast(s[..n]);
      assert s == s[..n] + [s[n]];
    }
  }

  /** The table starts out with inverse maps exactly when no two drawn tokens decode to the same
      string. */
  lemma NewTableInverse(tokens: seq<string>)
    requires |tokens| <= MAX_INT64
    ensures NewTable(tokens).Inverse() <==> Distinct(DecodedAll(tokens))
  {
    hide DecodedAll, LastPlayer, Distinct;
    LastPlayerInverse(DecodedAll(tokens));
  }

  lemma LastPlayerInverse(d: seq<string>)
    ensures Distinct(d) <==> forall i | 0 <= i < |d| :: d[i] in LastPlayer(d) && LastPlayer(d)[d[i]] == i + 1
    ensures forall t | t in LastPlayer(d) :: 1 <= LastPlayer(d)[t] <= |d| && d[LastPlayer(d)[t] - 1] == t
  {
    var m := LastPlayer(d);
    LastPlayerIsLast(d);
    hide LastPlayer;
    forall i | 0 <= i < |d| ensures d[i] in m && d[m[d[i]] - 1] == d[i] {
      assert d[i] in d;
    }
  }

  lemma NewTableMatching(tokens: seq<string>)
    requires forall i | 0 <= i < |tokens| :: Decode(tokens[i]).Some?
    ensures NewTable(tokens).Matching()
  {
  }

  // ---------------------------------------------------------------- replacing a token

  /** `ReplaceToken`, given what the token decodes to: the table afterwards, and the error if there
      is one. */
  function Install(t: TokenTable, player: int, base64Token: string, decoded: Option<string>)
    : (TokenTable, Option<TokenError>)
    requires |t.base64Tokens| == |t.decodedTokens|
  {
    if base64Token == "" then (t, Some(ZeroLengthToken))
    else if decoded.None? then (t, Some(InvalidBase64))
    else if !t.HasPlayer(player) then (t, Some(InvalidPlayerNumber))
    else if decoded.value in t.tokenToPlayer && t.tokenToPlayer[decoded.value] != player then
      (t, Some(TokenAlreadyExists))
    else
      var previous := t.decodedTokens[player - 1];
      (TokenTable((t.tokenToPlayer - {previous})[decoded.value := player],
                  t.base64Tokens[player - 1 := base64Token],
                  t.decodedTokens[player - 1 := decoded.value]), None)
  }

  function Replace(t: TokenTable, player: int, base64Token: string): (TokenTable, Option<TokenError>)
    requires |t.base64Tokens| == |t.decodedTokens|
  {
    Install(t, player, base64Token, Decode(base64Token))
  }

  lemma InstallKeepsInverse(t: TokenTable, player: int, base64Token: string, decoded: Option<string>)
    requires t.Inverse()
    ensures Install(t, player, base64Token, decoded).0.Inverse()
  {
    if Install(t, player, base64Token, decoded).1.None? {
      InstallListToMap(t, player, base64Token, decoded.value);
      InstallMapToList(t, player, base64Token, decoded.value);
    }
  }

  lemma InstallListToMap(t: TokenTable, player: int, base64Token: string, token: string)
    requires t.Inverse() && Install(t, player, base64Token, Some(token)).1.None?
    ensures Install(t, player, base64Token, Some(token)).0.ListToMap()
  {
    var t' := Install(t, player, base64Token, Some(token)).0;
    forall i | 0 <= i < |t.decodedTokens|
      ensures t'.decodedTokens[i] in t'.tokenToPlayer && t'.tokenToPlayer[t'.decodedTokens[i]] == i + 1
    {
      assert i != player - 1 ==> t.tokenToPlayer[t.decodedTokens[i]] == i + 1;
    }
  }

  lemma InstallMapToList(t: TokenTable, player: int, base64Token: string, token: string)
    requires t.Inverse() && Install(t, player, base64Token, Some(token)).1.None?
    ensures Install(t, player, base64Token, Some(token)).0.MapToList()
  {
  }

  /** One replacement keeps the maps inverse and every token matched with its base64 form.  If it fails
      nothing changes; if it succeeds that player has exactly that token, every other player keeps
      theirs, and the previous token is accepted for nobody. */
  lemma ReplaceKeepsTable(t: TokenTable, player: int, base64Token: string)
    requires t.Inverse() && t.Matching()
    ensures var (t', e) := Replace(t, player, base64Token);
            && t'.Inverse() && t'.Matching() && t'.PlayerCount() == t.PlayerCount()
            && (e.Some? ==> t' == t)
            && (e.None? ==>
                  && t.HasPlayer(player)
                  && Decode(base64Token) == Some(t'.decodedTokens[player - 1])
                  && (forall i | 0 <= i < t.PlayerCount() && i != player - 1 ::
                        t'.decodedTokens[i] == t.decodedTokens[i] && t'.base64Tokens[i] == t.base64Tokens[i])
                  && (t.decodedTokens[player - 1] != t'.decodedTokens[player - 1] ==>
                        t.decodedTokens[player - 1] !in t'.tokenToPlayer))
  {
    hide Decode, TokenTable.ListToMap, TokenTable.MapToList;
    InstallKeepsInverse(t, player, base64Token, Decode(base64Token));
  }

  /** Some other player holds the token that the text decodes to. */
  ghost predicate HeldByAnother(t: TokenTable, player: int, decoded: Option<string>) {
    exists p :: t.HasPlayer(p) && p != player && Some(t.decodedTokens[p - 1]) == decoded
  }

  /** The answer in every case, in the order of the checks: no text, no base64 text, no such player, another
      player's token. */
  lemma ReplaceAnswers(t: TokenTable, player: int, base64Token: string)
    requires t.Inverse()
    ensures Replace(t, player, base64Token).1 ==
            if base64Token == "" then Some(ZeroLengthToken)
            else if !WellFormed(DropNewlines(base64Token)) then Some(InvalidBase64)
            else if player < 1 || player > t.PlayerCount() then Some(InvalidPlayerNumber)
            else if HeldByAnother(t, player, Decode(base64Token)) then Some(TokenAlreadyExists)
            else None
  {
    DecodesIff(base64Token);
    hide WellFormed, DropNewlines, Spells;
    var d := Decode(base64Token);
    if d.Some? {
      HolderIs(t, player, d.value);
    }
  }

  lemma HolderIs(t: TokenTable, player: int, token: string)
    requires t.Inverse()
    ensures token in t.tokenToPlayer && t.tokenToPlayer[token] != player <==> HeldByAnother(t, player, Some(token))
  {
    if token in t.tokenToPlayer && t.tokenToPlayer[token] != player {
      var q := t.tokenToPlayer[token];
      assert t.HasPlayer(q) && t.decodedTokens[q - 1] == token;
    }
    if HeldByAnother(t, player, Some(token)) {
      var p :| t.HasPlayer(p) && p != player && t.decodedTokens[p - 1] == token;
      assert t.tokenToPlayer[t.decodedTokens[p - 1]] == p;
    }
  }

  /** So a replacement succeeds exactly for a text of well-formed base64 with an existing player, which no other
      player's token is. */
  lemma ReplaceSucceedsIff(t: TokenTable, player: int, base64Token: string)
    requires t.Inverse()
    ensures Replace(t, player, base64Token).1.None? <==>
            && base64Token != "" && WellFormed(DropNewlines(base64Token)) && t.HasPlayer(player)
            && !HeldByAnother(t, player, Decode(base64Token))
  {
    ReplaceAnswers(t, player, base64Token);
    DecodesIff(base64Token);
    hide WellFormed, DropNewlines, Spells;
  }

  datatype Replacement = Replacement(player: int, base64Token: string)

  function ReplaceAll(t: TokenTable, rs: seq<Replacement>): (r: TokenTable)
    requires |t.base64Tokens| == |t.decodedTokens|
    ensures |r.base64Tokens| == |r.decodedTokens|
    decreases |rs|
  {
    if rs == [] then t
    else ReplaceAll(Replace(t, rs[0].player, rs[0].base64Token).0, rs[1..])
  }

  /** After any sequence of successful and failed replacements the maps are still inverse. */
  lemma {:induction false} InverseForever(t: TokenTable, rs: seq<Replacement>)
    requires t.Inverse() && t.Matching()
    ensures ReplaceAll(t, rs).Inverse() && ReplaceAll(t, rs).Matching()
    ensures ReplaceAll(t, rs).PlayerCount() == t.PlayerCount()
    decreases |rs|
  {
    if rs != [] {
      ReplaceKeepsTable(t, rs[0].player, rs[0].base64Token);
      InverseForever(Replace(t, rs[0].player, rs[0].base64Token).0, rs[1..]);
    }
  }

  lemma InstallKeepsAbsent(t: TokenTable, player: int, base64Token: string, decoded: Option<string>, token: string)
    requires |t.base64Tokens| == |t.decodedTokens| && token !in t.tokenToPlayer && decoded != Some(token)
    ensures token !in Install(t, player, base64Token, decoded).0.tokenToPlayer
  {
  }

  /** A token nobody holds stays unusable for as long as nobody installs it again. */
  lemma {:induction false} AbsentUntilReinstalled(t: TokenTable, rs: seq<Replacement>, token: string)
    requires |t.base64Tokens| == |t.decodedTokens| && token !in t.tokenToPlayer
    requires forall i | 0 <= i < |rs| :: Decode(rs[i].base64Token) != Some(token)
    ensures token !in ReplaceAll(t, rs).tokenToPlayer
    decreases |rs|
  {
    if rs != [] {
      InstallKeepsAbsent(t, rs[0].player, rs[0].base64Token, Decode(rs[0].base64Token), token);
      AbsentUntilReinstalled(Replace(t, rs[0].player, rs[0].base64Token).0, rs[1..], token);
    }
  }

  // ---------------------------------------------------------------- parsing on the first hop

  /** `Fault` is the run-time panic of slicing a stored base64 token that is too short. */
  datatype ClientParse =
    | Accepted(player: int, data: string)
    | Rejected(error: TokenError)
    | Fault

  /** The search for a stored base64 token that starts with the packet's first 28 bytes. */
  function ScanBase64(tokens: seq<string>, hash: string): ClientParse
    requires |hash| == GENERATED_TOKEN_LENGTH
  {
    if tokens == [] then Rejected(HashMismatch)
    else if |tokens[0]| < GENERATED_TOKEN_LENGTH then Fault
    else if hash == tokens[0][..GENERATED_TOKEN_LENGTH] then Rejected(Base64TokenInPacket)
    else ScanBase64(tokens[1..], hash)
  }

  /** `ParseClientSideToken`. */
  function ParseClientSideToken(t: TokenTable, data: string): ClientParse {
    if |data| < GENERATED_TOKEN_LENGTH then Rejected(PacketTooShort)
    else
      var hash := data[..GENERATED_TOKEN_LENGTH];
      if hash in t.tokenToPlayer then
        var player := t.tokenToPlayer[hash];
        Accepted(player, Itoa(player) + [TOKEN_DELIMITER] + data[GENERATED_TOKEN_LENGTH..])
      else ScanBase64(t.base64Tokens, hash)
  }

  /** `ParseServerSideToken`: the player and the game data, or an error. */
  function ParseServerSideToken(data: string): Option<(int, string)> {
    if |data| < 2 then None
    else
      var (number, gameData, found) := Cut(data, TOKEN_DELIMITER);
      if !found then None
      else
        var player := Atoi(number);
        if player.None? then None else Some((player.value, gameData))
  }

  predicate PassedOver(base64Token: string, hash: string) {
    |base64Token| >= GENERATED_TOKEN_LENGTH && base64Token[..GENERATED_TOKEN_LENGTH] != hash
  }

  /** The search stops at the first token that is too short or matches, and says which; if there is none the
      packet is a mismatch. */
  lemma {:induction false} ScanStops(tokens: seq<string>, hash: string) returns (i: nat)
    requires |hash| == GENERATED_TOKEN_LENGTH
    ensures i <= |tokens| && forall j | 0 <= j < i :: PassedOver(tokens[j], hash)
    ensures i < |tokens| ==> !PassedOver(tokens[i], hash)
    ensures ScanBase64(tokens, hash) ==
            if i == |tokens| then Rejected(HashMismatch)
            else if |tokens[i]| < GENERATED_TOKEN_LENGTH then Fault
            else Rejected(Base64TokenInPacket)
  {
    i := 0;
    if tokens != [] && PassedOver(tokens[0], hash) {
      var k := ScanStops(tokens[1..], hash);
      i := k + 1;
      assert forall j | 1 <= j < i :: tokens[j] == tokens[1..][j - 1];
    }
  }

  /** The search comes to a token that is too short before it comes to one that the packet starts with. */
  ghost predicate MeetsShort(tokens: seq<string>, hash: string) {
    exists i :: 0 <= i < |tokens| && |tokens[i]| < GENERATED_TOKEN_LENGTH &&
      forall j | 0 <= j < i :: PassedOver(tokens[j], hash)
  }

  lemma ScanMeetsShort(tokens: seq<string>, hash: string)
    requires |hash| == GENERATED_TOKEN_LENGTH
    ensures ScanBase64(tokens, hash).Fault? <==> MeetsShort(tokens, hash)
  {
    var i := ScanStops(tokens, hash);
    if MeetsShort(tokens, hash) {
      var k :| 0 <= k < |tokens| && |tokens[k]| < GENERATED_TOKEN_LENGTH && forall j | 0 <= j < k :: PassedOver(tokens[j], hash);
      assert !PassedOver(tokens[k], hash);
      assert i == k;
    }
  }

  /** A packet is accepted for a player exactly when it starts with that player's current token, and
      it is then rewritten to that player's number, the delimiter and the remaining bytes. */
  lemma AcceptedIff(t: TokenTable, data: string, p: int)
    requires t.Inverse()
    ensures ParseClientSideToken(t, data).Accepted? && ParseClientSideToken(t, data).player == p <==>
            t.HasPlayer(p) && |data| >= GENERATED_TOKEN_LENGTH &&
            data[..GENERATED_TOKEN_LENGTH] == t.decodedTokens[p - 1]
  {
    if |data| >= GENERATED_TOKEN_LENGTH {
      var _ := ScanStops(t.base64Tokens, data[..GENERATED_TOKEN_LENGTH]);
    }
  }

  /** Two-hop round trip: the rewritten packet parses back to the player and exactly the game data the
      client sent, whatever bytes that holds, and is shorter than the packet it came from. */
  lemma TwoHopRoundTrip(t: TokenTable, data: string)
    requires t.Inverse() && ParseClientSideToken(t, data).Accepted?
    ensures var a := ParseClientSideToken(t, data);
            && ParseServerSideToken(a.data) == Some((a.player, data[GENERATED_TOKEN_LENGTH..]))
            && |a.data| < |data|
  {
    var a := ParseClientSideToken(t, data);
    var _ := ScanStops(t.base64Tokens, data[..GENERATED_TOKEN_LENGTH]);
    ItoaLength(a.player);
    AtoiItoa(a.player);
    assert TOKEN_DELIMITER !in Itoa(a.player);
    CutAt(Itoa(a.player), TOKEN_DELIMITER, data[GENERATED_TOKEN_LENGTH..]);
  }

  /** What the second hop makes of any text: it is a number, the first bar, and game data. */
  lemma ServerSideIff(data: string, p: int, gameData: string)
    ensures ParseServerSideToken(data) == Some((p, gameData)) <==>
            exists number :: data == number + "|" + gameData && '|' !in number && Atoi(number) == Some(p)
  {
    CutIsFirst(data, TOKEN_DELIMITER);
    if number :| data == number + "|" + gameData && '|' !in number && Atoi(number) == Some(p) {
      CutAt(number, TOKEN_DELIMITER, gameData);
      assert number != "";
    }
    if ParseServerSideToken(data) == Some((p, gameData)) {
      var (number, rest, found) := Cut(data, TOKEN_DELIMITER);
      assert data == number + "|" + gameData;
    }
  }

  /** A packet is rewritten to the player's number, a bar and its game data. */
  lemma RewrittenIs(t: TokenTable, data: string)
    requires t.Inverse() && ParseClientSideToken(t, data).Accepted?
    ensures var a := ParseClientSideToken(t, data);
            |data| >= 28 && a.data == Itoa(a.player) + "|" + data[28..]
  {
    var _ := ScanStops(t.base64Tokens, data[..GENERATED_TOKEN_LENGTH]);
  }

  /** Why a packet is rejected: it is shorter than a token, or it starts with a stored base64 token, or with
      nothing that is known. */
  lemma RejectedBecause(t: TokenTable, data: string)
    requires ParseClientSideToken(t, data).Rejected?
    ensures ParseClientSideToken(t, data).error ==
            if |data| < 28 then PacketTooShort
            else if exists i :: 0 <= i < |t.base64Tokens| && data[..28] <= t.base64Tokens[i] then Base64TokenInPacket
            else HashMismatch
  {
    if |data| >= GENERATED_TOKEN_LENGTH {
      var hash := data[..GENERATED_TOKEN_LENGTH];
      var i := ScanStops(t.base64Tokens, hash);
      if i < |t.base64Tokens| {
        assert hash <= t.base64Tokens[i];
      } else {
        forall j | 0 <= j < i ensures !(hash <= t.base64Tokens[j]) {
          assert PassedOver(t.base64Tokens[j], hash);
        }
      }
    }
  }

  // ---------------------------------------------------------------- when the first hop faults

  ghost predicate HasShortToken(t: TokenTable) {
    exists i :: 0 <= i < |t.base64Tokens| && |t.base64Tokens[i]| < GENERATED_TOKEN_LENGTH
  }

  function Zeros(n: nat): (s: string)
    ensures |s| == n && AllDigits(s)
  {
    if n == 0 then "" else ['0'] + Zeros(n - 1)
  }

  lemma {:induction false} ZerosValue(n: nat, s: string)
    requires AllDigits(s)
    ensures AllDigits(Zeros(n) + s) && DigitsValue(Zeros(n) + s) == DigitsValue(s)
  {
    var z := Zeros(n) + s;
    if s != "" {
      assert z[..|z| - 1] == Zeros(n) + s[..|s| - 1];
      ZerosValue(n, s[..|s| - 1]);
    } else {
      assert z == Zeros(n);
      ZerosAreZero(n);
    }
  }

  lemma {:induction false} ZerosAreZero(n: nat)
    ensures forall i | 0 <= i < n :: Zeros(n)[i] == '0'
    ensures DigitsValue(Zeros(n)) == 0
  {
    if n > 0 {
      ZerosAreZero(n - 1);
      var z := Zeros(n);
      assert z[..n - 1] == Zeros(n - 1);
    }
  }

  /** A 28-byte string for every number below 2^64, no two of them equal. */
  function Probe(k: nat): (s: string)
    requires k < 0x1_0000_0000_0000_0000
    ensures |s| == GENERATED_TOKEN_LENGTH && AllDigits(s) && DigitsValue(s) == k
  {
    assert |Digits(k)| <= 20 by { DigitsOf64Bits(k); }
    DigitsRoundTrip(k);
    ZerosValue(GENERATED_TOKEN_LENGTH - |Digits(k)|, Digits(k));
    Zeros(GENERATED_TOKEN_LENGTH - |Digits(k)|) + Digits(k)
  }

  lemma DigitsOf64Bits(k: nat)
    requires k < 0x1_0000_0000_0000_0000
    ensures |Digits(k)| <= 20
  {
    assert Pow10(4) == 10000;
    assert Pow10(8) == 100000000;
    assert Pow10(12) == 1000000000000;
    assert Pow10(16) == 10000000000000000;
    assert Pow10(20) == 100000000000000000000;
    DigitsLength(k, 20);
  }

  /** Among more 28-byte strings than there are in `taken`, one is not taken. */
  lemma {:induction false} FreeProbe(taken: set<string>, n: nat) returns (hash: string)
    requires |taken| < n <= 0x1_0000_0000_0000_0000
    ensures |hash| == GENERATED_TOKEN_LENGTH && hash !in taken && AllDigits(hash) && DigitsValue(hash) < n
    decreases n
  {
    hash := Probe(n - 1);
    if hash in taken {
      hash := FreeProbe(taken - {hash}, n - 1);
    }
  }

  /** The first 28 bytes of the stored base64 tokens that have that many. */
  function Prefixes(tokens: seq<string>): (r: set<string>)
    ensures |r| <= |tokens|
    ensures forall i | 0 <= i < |tokens| && |tokens[i]| >= GENERATED_TOKEN_LENGTH :: tokens[i][..GENERATED_TOKEN_LENGTH] in r
  {
    if tokens == [] then {}
    else
      var rest := Prefixes(tokens[1..]);
      assert forall i | 0 < i < |tokens| :: tokens[i] == tokens[1..][i - 1];
      if |tokens[0]| < GENERATED_TOKEN_LENGTH then rest else rest + {tokens[0][..GENERATED_TOKEN_LENGTH]}
  }

  lemma ScanFaults(tokens: seq<string>, i: nat, hash: string)
    requires |hash| == GENERATED_TOKEN_LENGTH && hash !in Prefixes(tokens)
    requires i < |tokens| && |tokens[i]| < GENERATED_TOKEN_LENGTH
    ensures ScanBase64(tokens, hash).Fault?
    decreases i
  {
    if |tokens[0]| >= GENERATED_TOKEN_LENGTH {
      assert tokens[1..][i - 1] == tokens[i];
      ScanFaults(tokens[1..], i - 1, hash);
    }
  }

  /** Some packet makes the first hop panic exactly when some installed base64 token is shorter than
      28 characters.  Nothing in `Replace` rules such a token out. */
  lemma FaultReachableIff(t: TokenTable)
    requires |t.base64Tokens| <= MAX_INT64 && |t.tokenToPlayer| <= MAX_INT64
    ensures (exists data :: ParseClientSideToken(t, data).Fault?) <==> HasShortToken(t)
  {
    if HasShortToken(t) {
      var i :| 0 <= i < |t.base64Tokens| && |t.base64Tokens[i]| < GENERATED_TOKEN_LENGTH;
      var taken := t.tokenToPlayer.Keys + Prefixes(t.base64Tokens);
      UnionSize(t.tokenToPlayer.Keys, Prefixes(t.base64Tokens));
      var hash := FreeProbe(taken, 0x1_0000_0000_0000_0000);
      ScanFaults(t.base64Tokens, i, hash);
      assert hash[..GENERATED_TOKEN_LENGTH] == hash;
      assert ParseClientSideToken(t, hash).Fault?;
    } else {
      forall data ensures !ParseClientSideToken(t, data).Fault? {
        if |data| >= GENERATED_TOKEN_LENGTH {
          ScanMeetsShort(t.base64Tokens, data[..GENERATED_TOKEN_LENGTH]);
        }
      }
    }
  }

  lemma UnionSize(a: set<string>, b: set<string>)
    ensures |a + b| <= |a| + |b|
  {
    assert a + b == a + (b - a);
    assert |b - a| <= |b| by { SubsetSize(b - a, b); }
  }

  /** What would have to be checked before a replacement: afterwards some token is short exactly when the new
      one is or another player's is. */
  lemma ShortAfterReplaceIff(t: TokenTable, player: int, base64Token: string)
    requires |t.base64Tokens| == |t.decodedTokens| && Replace(t, player, base64Token).1.None?
    ensures HasShortToken(Replace(t, player, base64Token).0) <==>
            || |base64Token| < GENERATED_TOKEN_LENGTH
            || exists i :: 0 <= i < |t.base64Tokens| && i != player - 1 && |t.base64Tokens[i]| < GENERATED_TOKEN_LENGTH
  {
    hide Decode;
    var after := Replace(t, player, base64Token).0.base64Tokens;
    assert after == t.base64Tokens[player - 1 := base64Token];
    assert |base64Token| < GENERATED_TOKEN_LENGTH ==> |after[player - 1]| < GENERATED_TOKEN_LENGTH;
    forall i | 0 <= i < |after| && i != player - 1 ensures after[i] == t.base64Tokens[i] {}
  }

  /** Called directly, `ReplaceToken` looks at the text for its zero-length check, not at the token: a text of
      line breaks alone passes and gives the player the empty token.  No packet can carry such a text. */
  lemma EmptyTokenInstalledIff(t: TokenTable, p: int, base64Token: string)
    requires t.Inverse() && t.HasPlayer(p)
    requires forall q | t.HasPlayer(q) :: t.decodedTokens[q - 1] != ""
    ensures var (t', e) := Replace(t, p, base64Token);
            e.None? && t'.decodedTokens[p - 1] == "" <==>
            base64Token != "" && forall c | c in base64Token :: c == '\n' || c == '\r'
  {
    DecodesToNothingIff(base64Token);
    ReplaceSucceedsIff(t, p, base64Token);
  }

  /** A token that does not decode to 28 bytes can be installed but is then accepted for nobody. */
  lemma OddLengthTokenUnusable(t: TokenTable, p: int, data: string)
    requires t.Inverse() && t.HasPlayer(p) && |t.decodedTokens[p - 1]| != GENERATED_TOKEN_LENGTH
    ensures var a := ParseClientSideToken(t, data); a.Accepted? ==> a.player != p
  {
    AcceptedIff(t, data, p);
  }

  // ---------------------------------------------------------------- generated tokens

  predicate IsLowerHex(c: char) {
    '0' <= c <= '9' || 'a' <= c <= 'f'
  }

  predicate IsHexToken(h: string) {
    |h| == GENERATED_TOKEN_LENGTH && forall i | 0 <= i < |h| :: IsLowerHex(h[i])
  }

  function HexDigit(v: int): (c: char)
    requires 0 <= v < 16
    ensures IsLowerHex(c)
  {
    if v < 10 then '0' + v as char else 'a' + (v - 10) as char
  }

  /** `hex.EncodeToString`. */
  function HexEncode(bytes: string): (h: string)
    requires IsBytes(bytes)
    ensures |h| == 2 * |bytes| && forall i | 0 <= i < |h| :: IsLowerHex(h[i])
  {
    if bytes == "" then ""
    else
      var b := bytes[0] as int;
      [HexDigit(b / 16), HexDigit(b % 16)] + HexEncode(bytes[1..])
  }

  /** Each byte gives its two hexadecimal digits. */
  lemma {:induction false} HexDigitsOf(bytes: string, i: nat)
    requires IsBytes(bytes) && i < |bytes|
    ensures HexEncode(bytes)[2 * i] == "0123456789abcdef"[bytes[i] as int / 16]
    ensures HexEncode(bytes)[2 * i + 1] == "0123456789abcdef"[bytes[i] as int % 16]
  {
    if i > 0 {
      HexDigitsOf(bytes[1..], i - 1);
      assert HexEncode(bytes)[2..] == HexEncode(bytes[1..]);
    }
  }

  /** `GenerateRandomToken` on the bytes that were drawn. */
  function GenerateRandomToken(random: string): string
    requires IsBytes(random) && |random| == GENERATED_TOKEN_LENGTH / 2
  {
    Encode(HexEncode(random))
  }

  predicate IsGenerated(base64Token: string) {
    && Decode(base64Token).Some?
    && IsHexToken(Decode(base64Token).value)
    && base64Token == Encode(Decode(base64Token).value)
  }

  /** Every generated token is 40 characters long and decodes, without error, to 28 hex digits. */
  lemma GeneratedTokenShape(random: string)
    requires IsBytes(random) && |random| == GENERATED_TOKEN_LENGTH / 2
    ensures var b64 := GenerateRandomToken(random);
            IsGenerated(b64) && |b64| == 40 && Decode(b64) == Some(HexEncode(random)) && |Decoded(b64)| == 28
  {
    hide Encode, Decode;
    DecodeEncode(HexEncode(random));
    EncodeLength(HexEncode(random));
  }

  /** The base64 form of hex digits starts with one of five capital letters. */
  lemma HexTokenFirstSymbol(h: string)
    requires IsHexToken(h)
    ensures Encode(h)[0] in "MNOYZ"
  {
    hide Encode;
    EncodeFirst(h);
    assert IsLowerHex(h[0]);
  }

  ghost predicate AllGenerated(t: TokenTable) {
    forall i | 0 <= i < |t.base64Tokens| :: IsGenerated(t.base64Tokens[i])
  }

  ghost predicate AreDraws(draws: seq<string>) {
    forall i | 0 <= i < |draws| :: IsBytes(draws[i]) && |draws[i]| == GENERATED_TOKEN_LENGTH / 2
  }

  /** One token for each player, from the bytes that were drawn for each. */
  ghost function GenerateTokens(draws: seq<string>): (tokens: seq<string>)
    requires AreDraws(draws)
    ensures |tokens| == |draws|
  {
    seq(|draws|, i requires 0 <= i < |draws| => GenerateRandomToken(draws[i]))
  }

  lemma {:induction false} HexEncodeInjective(a: string, b: string)
    requires IsBytes(a) && IsBytes(b) && HexEncode(a) == HexEncode(b)
    ensures a == b
  {
    if a != "" && b != "" {
      var (x, y) := (a[0] as int, b[0] as int);
      var (h, g) := (HexEncode(a), HexEncode(b));
      assert h[0] == HexDigit(x / 16) && h[1] == HexDigit(x % 16) && h[2..] == HexEncode(a[1..]);
      assert g[0] == HexDigit(y / 16) && g[1] == HexDigit(y % 16) && g[2..] == HexEncode(b[1..]);
      HexDigitInjective(x / 16, y / 16);
      HexDigitInjective(x % 16, y % 16);
      assert x == y;
      HexEncodeInjective(a[1..], b[1..]);
      assert a == [a[0]] + a[1..] && b == [b[0]] + b[1..];
    }
  }

  lemma HexDigitInjective(v: int, w: int)
    requires 0 <= v < 16 && 0 <= w < 16 && HexDigit(v) == HexDigit(w)
    ensures v == w
  {
  }

  /** The table of a new token manager is sound, its tokens generated and 28 bytes long, exactly when no two
      players were drawn the same bytes.  Each token matches its base64 form in any case. */
  lemma GeneratedTableIff(draws: seq<string>)
    requires AreDraws(draws) && |draws| <= MAX_INT64
    ensures var t := NewTable(GenerateTokens(draws));
            && t.Matching() && AllGenerated(t)
            && (forall i | 0 <= i < |draws| :: t.decodedTokens[i] == HexEncode(draws[i]))
            && (t.Inverse() <==> Distinct(draws))
  {
    var tokens := GenerateTokens(draws);
    forall i | 0 <= i < |draws|
      ensures IsGenerated(tokens[i]) && Decode(tokens[i]) == Some(HexEncode(draws[i]))
    {
      GeneratedTokenShape(draws[i]);
    }
    NewTableMatching(tokens);
    NewTableInverse(tokens);
    DistinctTokens(draws, DecodedAll(tokens));
  }

  lemma DistinctTokens(draws: seq<string>, decoded: seq<string>)
    requires AreDraws(draws) && |decoded| == |draws|
    requires forall i | 0 <= i < |draws| :: decoded[i] == HexEncode(draws[i])
    ensures Distinct(decoded) <==> Distinct(draws)
  {
    hide HexEncode;
    forall i, j | 0 <= i < j < |draws| && decoded[i] == decoded[j] ensures draws[i] == draws[j] {
      HexEncodeInjective(draws[i], draws[j]);
    }
  }

  /** When all installed tokens are generated, a packet that starts with the base64 form of any
      player's token is told so: it is never accepted, never a plain mismatch and never a fault. */
  lemma Base64PacketAnswered(t: TokenTable, i: nat, rest: string)
    requires t.Inverse() && t.Matching() && AllGenerated(t) && i < |t.base64Tokens|
    ensures ParseClientSideToken(t, t.base64Tokens[i] + rest) == Rejected(Base64TokenInPacket)
  {
    hide Encode, Decode, ScanBase64, TokenTable.ListToMap, TokenTable.MapToList;
    GeneratedTokensAreLong(t);
    var b64 := t.base64Tokens[i];
    var data := b64 + rest;
    var hash := data[..GENERATED_TOKEN_LENGTH];
    HexTokenFirstSymbol(t.decodedTokens[i]);
    assert hash == b64[..GENERATED_TOKEN_LENGTH] && hash[0] == b64[0];
    InstalledTokensAreHex(t);
    ScanFinds(t.base64Tokens, i, hash);
  }

  lemma GeneratedTokensAreLong(t: TokenTable)
    requires AllGenerated(t)
    ensures forall j | 0 <= j < |t.base64Tokens| :: |t.base64Tokens[j]| == 40
  {
    hide Encode, Decode;
    forall j | 0 <= j < |t.base64Tokens| ensures |t.base64Tokens[j]| == 40 {
      assert IsGenerated(t.base64Tokens[j]);
      EncodeLength(Decode(t.base64Tokens[j]).value);
    }
  }

  lemma InstalledTokensAreHex(t: TokenTable)
    requires t.Inverse() && t.Matching() && AllGenerated(t)
    ensures forall h | h in t.tokenToPlayer :: IsHexToken(h)
  {
    forall h | h in t.tokenToPlayer ensures IsHexToken(h) {
      var p := t.tokenToPlayer[h];
      assert IsGenerated(t.base64Tokens[p - 1]);
    }
  }

  lemma {:induction false} ScanFinds(tokens: seq<string>, i: nat, hash: string)
    requires |hash| == GENERATED_TOKEN_LENGTH && i < |tokens|
    requires forall j | 0 <= j < |tokens| :: |tokens[j]| >= GENERATED_TOKEN_LENGTH
    requires tokens[i][..GENERATED_TOKEN_LENGTH] == hash
    ensures ScanBase64(tokens, hash) == Rejected(Base64TokenInPacket)
  {
    if hash != tokens[0][..GENERATED_TOKEN_LENGTH] {
      ScanFinds(tokens[1..], i - 1, hash);
    }
  }

  // ---------------------------------------------------------------- the token manager

  /** The mutex of the original makes every method one atomic step. */
  class TokenManager {
    var tokenToPlayer: map<string, int>
    var base64Tokens: seq<string>
    var decodedTokens: seq<string>
    const playerCount: nat

    ghost predicate Valid()
      reads this
    {
      |base64Tokens| == |decodedTokens| == playerCount
    }

    function View(): TokenTable
      reads this
    {
      TokenTable(tokenToPlayer, base64Tokens, decodedTokens)
    }

    /** `NewTokenManager`, on the tokens that were drawn, one for each player. */
    constructor (generated: seq<string>)
      ensures Valid() && playerCount == |generated|
      ensures View() == NewTable(generated)
    {
      playerCount := |generated|;
      tokenToPlayer := map[];
      base64Tokens := seq(|generated|, i => "");
      decodedTokens := seq(|generated|, i => "");
      new;
      ghost var all := DecodedAll(generated);
      for i := 0 to playerCount
        invariant Valid()
        invariant forall j | 0 <= j < i :: base64Tokens[j] == generated[j] && decodedTokens[j] == all[j]
        invariant tokenToPlayer == LastPlayer(all[..i])
      {
        var decoded := Decoded(generated[i]);
        assert decoded == all[i] && all[..i + 1][..i] == all[..i];
        tokenToPlayer := tokenToPlayer[decoded := i + 1];
        base64Tokens := base64Tokens[i := generated[i]];
        decodedTokens := decodedTokens[i := decoded];
      }
      assert decodedTokens == all == all[..playerCount] && base64Tokens == generated;
    }

    method ReplaceToken(playerNumber: int, base64Token: string) returns (err: Option<TokenError>)
      requires Valid()
      modifies this
      ensures Valid()
      ensures (View(), err) == Replace(old(View()), playerNumber, base64Token)
    {
      hide Decode;
      if base64Token == "" {
        return Some(ZeroLengthToken);
      }
      var decoded := Decode(base64Token);
      if decoded.None? {
        return Some(InvalidBase64);
      }
      if playerNumber < 1 || playerNumber > playerCount {
        return Some(InvalidPlayerNumber);
      }
      if decoded.value in tokenToPlayer && tokenToPlayer[decoded.value] != playerNumber {
        return Some(TokenAlreadyExists);
      }
      var idx := playerNumber - 1;
      var oldDecoded := decodedTokens[idx];
      tokenToPlayer := tokenToPlayer - {oldDecoded};
      tokenToPlayer := tokenToPlayer[decoded.value := playerNumber];
      base64Tokens := base64Tokens[idx := base64Token];
      decodedTokens := decodedTokens[idx := decoded.value];
      return None;
    }
  }
}
