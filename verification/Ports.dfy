/** Which ports the client-side endpoints get: parsing and checking the configured range, searching for
    a free one, opening the endpoints, and the list that is shown to players. */
module Ports {
  import opened Text

  const MIN_PORT: int := 1
  const MAX_PORT: int := 65535

  /** Two's complement 64-bit wrap-around. */
  function Wrap64(x: int): (r: int)
    ensures IsInt64(r) && (x - r) % 0x1_0000_0000_0000_0000 == 0
  {
    (x + 0x8000_0000_0000_0000) % 0x1_0000_0000_0000_0000 - 0x8000_0000_0000_0000
  }

  // ---------------------------------------------------------------- the layout

  /** The ports of player `p`, with `e` endpoints for each player. */
  function Block(start: int, e: int, p: int): (r: seq<int>)
    ensures e > 0 ==> |r| == e
  {
    if e <= 0 then [] else seq(e, i => start + (p - 1) * e + i)
  }

  /** Port `q` belongs to player `p`. */
  predicate Owns(start: int, e: int, p: int, q: int) {
    start + (p - 1) * e <= q < start + p * e
  }

  lemma BlockIsRange(start: int, e: int, p: int, q: int)
    requires e > 0
    ensures q in Block(start, e, p) <==> Owns(start, e, p, q)
  {
    var b := Block(start, e, p);
    assert p * e == (p - 1) * e + e;
    if Owns(start, e, p, q) {
      assert b[q - start - (p - 1) * e] == q;
    }
  }

  /** The player a port belongs to. */
  function OwnerAt(start: int, e: int, q: int): int
    requires e > 0
  {
    1 + (q - start) / e
  }

  /** The blocks tile the range: every port belongs to one player and no other, and the ports from
      `start` up to `start + e * n` are those of players 1 to n. */
  lemma BlocksTile(start: int, e: int, n: nat, p: int, q: int)
    requires e > 0
    ensures Owns(start, e, p, q) <==> p == OwnerAt(start, e, q)
    ensures start <= q < start + e * n <==> 1 <= OwnerAt(start, e, q) <= n
  {
    var d := q - start;
    assert d == e * (d / e) + d % e;
    var k := OwnerAt(start, e, q) - 1;
    SameBlock(d, e, k, p - 1);
    InRange(d, e, k, n);
    assert p * e == (p - 1) * e + e;
  }

  lemma SameBlock(d: int, e: int, k: int, p: int)
    requires e > 0 && e * k <= d < e * k + e
    ensures p * e <= d < p * e + e <==> p == k
  {
    if p < k {
      assert (p + 1) * e <= k * e;
    } else if p > k {
      assert (k + 1) * e <= p * e;
    }
  }

  lemma InRange(d: int, e: int, k: int, n: nat)
    requires e > 0 && e * k <= d < e * k + e
    ensures 0 <= d < e * n <==> 0 <= k < n
  {
    if k < 0 {
      assert e * (k + 1) <= 0;
    } else if k >= n {
      assert e * k >= e * n;
    } else {
      assert e * (k + 1) <= e * n;
    }
  }

  /** The endpoints in the order in which they are opened: port and player. */
  function Endpoint(start: int, e: int, k: int): (int, int)
    requires e > 0
  {
    (start + k, 1 + k / e)
  }

  lemma EndpointAt(start: int, e: int, p: int, i: int)
    requires e > 0 && 0 <= i < e
    ensures Endpoint(start, e, (p - 1) * e + i) == (start + (p - 1) * e + i, p)
  {
    var k := (p - 1) * e + i;
    BlocksTile(start, e, 0, p, start + k);
    assert p * e == (p - 1) * e + e;
  }

  /** `createClientSideProxies`: opens one socket for each endpoint of each player.  `canBind` tells
      which ports can be opened; the first that cannot ends it. */
  method CreateClientSideProxies(start: int, endpointCount: int, playerCount: int, canBind: int -> bool)
    returns (endpoints: seq<(int, int)>, ok: bool)
    ensures endpointCount > 0 ==> forall k | 0 <= k < |endpoints| :: endpoints[k] == Endpoint(start, endpointCount, k)
    ensures forall q | start <= q < start + |endpoints| :: canBind(q)
    ensures ok ==> |endpoints| == if endpointCount > 0 && playerCount > 0 then endpointCount * playerCount else 0
    ensures !ok ==> endpointCount > 0 && |endpoints| < endpointCount * playerCount && !canBind(start + |endpoints|)
  {
    endpoints, ok := [], true;
    var port := start;
    var playerNum := 1;
    while playerNum <= playerCount
      invariant 1 <= playerNum && (playerCount >= 1 ==> playerNum <= playerCount + 1) && (playerCount < 1 ==> playerNum == 1)
      invariant |endpoints| == if endpointCount > 0 then (playerNum - 1) * endpointCount else 0
      invariant port == start + |endpoints|
      invariant endpointCount > 0 ==> forall k | 0 <= k < |endpoints| :: endpoints[k] == Endpoint(start, endpointCount, k)
      invariant forall q | start <= q < start + |endpoints| :: canBind(q)
    {
      var i := 0;
      while i < endpointCount
        invariant 0 <= i && (endpointCount > 0 ==> i <= endpointCount) && (endpointCount <= 0 ==> i == 0)
        invariant |endpoints| == (if endpointCount > 0 then (playerNum - 1) * endpointCount else 0) + i
        invariant port == start + |endpoints|
        invariant endpointCount > 0 ==> forall k | 0 <= k < |endpoints| :: endpoints[k] == Endpoint(start, endpointCount, k)
        invariant forall q | start <= q < start + |endpoints| :: canBind(q)
      {
        if !canBind(port) {
          ok := false;
          Fits(endpointCount, playerCount, playerNum - 1, i);
          return;
        }
        EndpointAt(start, endpointCount, playerNum, i);
        endpoints := endpoints + [(port, playerNum)];
        port := port + 1;
        i := i + 1;
      }
      playerNum := playerNum + 1;
    }
  }

  lemma Fits(e: int, n: int, k: int, i: int)
    requires 0 <= i < e && 0 <= k < n
    ensures k * e + i < e * n
  {
    assert (k + 1) * e <= n * e;
  }

  // ---------------------------------------------------------------- the collector's list

  datatype ProxyStats = ProxyStats(port: int, validPackets: nat, malformedPackets: nat, degradation: int)

  ghost predicate Unused(endpointStats: map<int, ProxyStats>, start: int, end: int) {
    && (forall q :: q in endpointStats <==> start <= q < end)
    && (forall q | q in endpointStats :: endpointStats[q] == ProxyStats(q, 0, 0, 0))
  }

  ghost predicate Listed(playerEndpoints: map<int, seq<int>>, start: int, e: int, n: int) {
    && (forall p :: p in playerEndpoints <==> 1 <= p <= n && e > 0)
    && (forall p | p in playerEndpoints :: playerEndpoints[p] == Block(start, e, p))
  }

  lemma NextBlock(e: int, p: int)
    ensures (p - 1) * e + e == p * e
  {
  }

  /** The inner loop: one player's endpoints. */
  method ListPlayer(start: int, endpointCount: int, playerNum: int, startPort: int,
                    stats: map<int, ProxyStats>, listed: map<int, seq<int>>)
    returns (endpointStats: map<int, ProxyStats>, playerEndpoints: map<int, seq<int>>, port: int)
    requires playerNum !in listed && Unused(stats, start, startPort) && start <= startPort
    requires endpointCount > 0 ==> startPort == start + (playerNum - 1) * endpointCount
    ensures port == if endpointCount > 0 then startPort + endpointCount else startPort
    ensures playerEndpoints ==
            if endpointCount > 0 then listed[playerNum := Block(start, endpointCount, playerNum)] else listed
    ensures Unused(endpointStats, start, port)
  {
    endpointStats, playerEndpoints, port := stats, listed, startPort;
    var i := 0;
    while i < endpointCount
      invariant 0 <= i && (endpointCount > 0 ==> i <= endpointCount) && (endpointCount <= 0 ==> i == 0)
      invariant port == startPort + i
      invariant playerEndpoints == if i > 0 then listed[playerNum := Block(start, endpointCount, playerNum)[..i]] else listed
      invariant Unused(endpointStats, start, port)
    {
      endpointStats := endpointStats[port := ProxyStats(port, 0, 0, 0)];
      var ports := if playerNum in playerEndpoints then playerEndpoints[playerNum] else [];
      playerEndpoints := playerEndpoints[playerNum := ports + [port]];
      assert ports + [port] == Block(start, endpointCount, playerNum)[..i + 1];
      port := port + 1;
      i := i + 1;
    }
    assert endpointCount > 0 ==> Block(start, endpointCount, playerNum)[..i] == Block(start, endpointCount, playerNum);
  }

  /** The two maps that `NewStatsCollector` fills: fresh statistics for every port, and every player's
      ports. */
  method NewStatsCollector(start: int, endpointCount: int, playerCount: int)
    returns (endpointStats: map<int, ProxyStats>, playerEndpoints: map<int, seq<int>>)
    ensures Listed(playerEndpoints, start, endpointCount, playerCount)
    ensures Unused(endpointStats, start, if endpointCount > 0 then start + endpointCount * playerCount else start)
  {
    endpointStats, playerEndpoints := map[], map[];
    var port := start;
    var playerNum := 1;
    while playerNum <= playerCount
      invariant 1 <= playerNum && (playerCount >= 1 ==> playerNum <= playerCount + 1) && (playerCount < 1 ==> playerNum == 1)
      invariant start <= port == if endpointCount > 0 then start + (playerNum - 1) * endpointCount else start
      invariant Listed(playerEndpoints, start, endpointCount, playerNum - 1)
      invariant Unused(endpointStats, start, port)
    {
      endpointStats, playerEndpoints, port :=
        ListPlayer(start, endpointCount, playerNum, port, endpointStats, playerEndpoints);
      NextBlock(endpointCount, playerNum);
      playerNum := playerNum + 1;
    }
    NoPlayers(endpointCount, playerCount);
    assert endpointCount > 0 && playerCount >= 1 ==> (playerNum - 1) * endpointCount == endpointCount * playerCount;
  }

  lemma NoPlayers(e: int, n: int)
    ensures e > 0 && n < 1 ==> e * n <= 0
  {
  }

  /** The two separate loops agree: an endpoint on port `q` is opened for player `p` exactly when `q` is
      listed for `p`, which is exactly when `q` lies in `p`'s block. */
  lemma LoopsAgree(start: int, e: int, n: nat, endpoints: seq<(int, int)>, playerEndpoints: map<int, seq<int>>, p: int, q: int)
    requires e > 0 && |endpoints| == e * n
    requires forall k | 0 <= k < |endpoints| :: endpoints[k] == Endpoint(start, e, k)
    requires Listed(playerEndpoints, start, e, n)
    ensures (q, p) in endpoints <==> p in playerEndpoints && q in playerEndpoints[p]
    ensures (q, p) in endpoints <==> 1 <= p <= n && Owns(start, e, p, q)
  {
    BlocksTile(start, e, n, p, q);
    BlockIsRange(start, e, p, q);
    if 1 <= p <= n && Owns(start, e, p, q) {
      assert endpoints[q - start] == (q, p);
    }
    if (q, p) in endpoints {
      var k :| 0 <= k < |endpoints| && endpoints[k] == (q, p);
      assert Endpoint(start, e, k) == (q, p);
    }
  }

  // ---------------------------------------------------------------- the configured range

  predicate IsPortNumber(s: string) {
    1 <= |s| <= 5 && AllDigits(s)
  }

  /** `ParsePortRange`. */
  function ParsePortRange(portRange: string): Option<(int, int)> {
    var (first, second, found) := Cut(portRange, '-');
    if !found || !IsPortNumber(first) || !IsPortNumber(second) then None
    else
      var a, b := Atoi(first), Atoi(second);
      if a.None? || b.None? then None else Some((a.value, b.value))
  }

  /** The text is two numbers of one to five digits with a hyphen between them. */
  predicate IsRangeText(text: string, first: string, second: string) {
    && text == first + "-" + second
    && 1 <= |first| <= 5 && 1 <= |second| <= 5 && AllDigits(first) && AllDigits(second)
  }

  /** Exactly such texts are read as ranges, each number for what its digits say. */
  lemma RangeTextIff(text: string)
    ensures ParsePortRange(text).Some? <==> exists first, second :: IsRangeText(text, first, second)
    ensures forall first, second | IsRangeText(text, first, second) ::
              ParsePortRange(text) == Some((DigitsValue(first) as int, DigitsValue(second) as int))
  {
    CutIsFirst(text, '-');
    forall first, second | IsRangeText(text, first, second)
      ensures ParsePortRange(text) == Some((DigitsValue(first) as int, DigitsValue(second) as int))
    {
      RangeTextReads(text, first, second);
    }
    if ParsePortRange(text).Some? {
      var (first, second, found) := Cut(text, '-');
      assert IsRangeText(text, first, second);
    }
  }

  lemma RangeTextReads(text: string, first: string, second: string)
    requires IsRangeText(text, first, second)
    ensures ParsePortRange(text) == Some((DigitsValue(first) as int, DigitsValue(second) as int))
  {
    assert !IsDigit('-');
    CutAt(first, '-', second);
    FiveDigitsFit(first);
    FiveDigitsFit(second);
    AtoiDigits(first);
    AtoiDigits(second);
    hide DigitsValue, Atoi, Cut;
  }

  lemma FiveDigitsFit(s: string)
    requires |s| <= 5 && AllDigits(s)
    ensures DigitsValue(s) <= 99999
  {
    assert Pow10(5) == 100000;
    BelowPow10(s, 5);
  }

  lemma {:induction false} BelowPow10(s: string, k: nat)
    requires |s| <= k && AllDigits(s)
    ensures DigitsValue(s) < Pow10(k)
  {
    if s != "" {
      BelowPow10(s[..|s| - 1], k - 1);
    }
  }

  lemma ParsePrintedRange(a: int, b: int)
    requires 0 <= a <= 99999 && 0 <= b <= 99999
    ensures ParsePortRange(Itoa(a) + ['-'] + Itoa(b)) == Some((a, b))
  {
    FiveDigits(a);
    FiveDigits(b);
    AtoiItoa(a);
    AtoiItoa(b);
    CutAt(Itoa(a), '-', Itoa(b));
  }

  lemma FiveDigits(a: int)
    requires 0 <= a <= 99999
    ensures IsPortNumber(Itoa(a)) && '-' !in Itoa(a)
  {
    assert Pow10(5) == 100000;
    DigitsLength(a, 5);
  }

  /** `validatePortRange`.  The number of ports needed is a 64-bit product. */
  predicate ValidatePortRange(portRange: string, endpointCount: int, playerCount: int) {
    portRange == "" ||
    (var r := ParsePortRange(portRange);
     && r.Some?
     && r.value.0 <= r.value.1
     && WithinBounds(r.value.0, MIN_PORT, MAX_PORT)
     && WithinBounds(r.value.1, MIN_PORT, MAX_PORT)
     && Wrap64(endpointCount * playerCount) <= r.value.1 - r.value.0 + 1)
  }

  /** A printed range is accepted exactly when it lies between the port numbers 1 and 65535 and has room for every
      endpoint, provided their number does not overflow. */
  lemma PrintedRangeAcceptedIff(low: int, high: int, e: int, n: int)
    requires 0 <= low <= 99999 && 0 <= high <= 99999 && e >= 1 && n >= 1 && e * n <= MAX_INT64
    ensures ValidatePortRange(Itoa(low) + "-" + Itoa(high), e, n) <==>
            1 <= low && high <= 65535 && low + e * n - 1 <= high
  {
    ParsePrintedRange(low, high);
    assert e * n >= 1;
    assert Wrap64(e * n) == e * n;
    hide ParsePortRange, Itoa;
    assert Itoa(low) + "-" + Itoa(high) != "";
  }

  /** In general, whatever the numbers of endpoints and players are: no text at all is accepted, other text only if
      it is a range, and then by the 64-bit product. */
  lemma RangeAcceptedIff(text: string, e: int, n: int)
    ensures ValidatePortRange("", e, n)
    ensures text != "" && ValidatePortRange(text, e, n) ==> exists first, second :: IsRangeText(text, first, second)
    ensures forall first, second | IsRangeText(text, first, second) ::
              (ValidatePortRange(text, e, n) <==>
               var (low, high) := (DigitsValue(first) as int, DigitsValue(second) as int);
               1 <= low <= high <= 65535 && Wrap64(e * n) <= high - low + 1)
  {
    RangeTextIff(text);
    hide ParsePortRange, DigitsValue, Wrap64;
  }

  predicate WithinBounds(value: int, minimum: int, maximum: int) {
    minimum <= value <= maximum
  }

  ghost predicate BlockWithin(start: int, count: int, low: int, high: int) {
    forall q | start <= q < start + count :: WithinBounds(q, low, high)
  }

  /** When an accepted range really holds every endpoint's port, between 1 and 65535: exactly when the
      number of endpoints needed does not overflow a 64-bit integer. */
  lemma AcceptedRangeHoldsAllIff(portRange: string, e: int, n: int)
    requires portRange != "" && e >= 1 && n >= 1 && ValidatePortRange(portRange, e, n)
    ensures var (low, high) := ParsePortRange(portRange).value;
            && MIN_PORT <= low <= high <= MAX_PORT
            && (BlockWithin(low, e * n, low, high) <==> e * n <= MAX_INT64)
  {
    var (low, high) := ParsePortRange(portRange).value;
    assert e * n >= 1;
    if e * n <= MAX_INT64 {
      assert Wrap64(e * n) == e * n;
    } else {
      assert !WithinBounds(high + 1, low, high);
    }
  }

  /** Every range, even of one port, is accepted for four endpoints of 2^62 players each. */
  lemma OverflowAccepted(low: int, high: int)
    requires MIN_PORT <= low <= high <= MAX_PORT
    ensures ValidatePortRange(Itoa(low) + ['-'] + Itoa(high), 4, 0x4000_0000_0000_0000)
    ensures !BlockWithin(low, 4 * 0x4000_0000_0000_0000, low, high)
  {
    hide ParsePortRange;
    ParsePrintedRange(low, high);
    assert !WithinBounds(high + 1, low, high);
  }

  // ---------------------------------------------------------------- the automatic search

  ghost predicate AllFree(free: int -> bool, start: int, count: int) {
    forall q | start <= q < start + count :: free(q)
  }

  /** `FindAvailablePortRange`: the least start whose whole block is free; nothing only if there is none. */
  method FindAvailablePortRange(startSearch: int, count: int, maxSearch: int, free: int -> bool)
    returns (found: Option<int>)
    ensures found.Some? ==>
              && startSearch <= found.value && found.value + count - 1 <= maxSearch
              && AllFree(free, found.value, count)
              && forall s | startSearch <= s < found.value :: !AllFree(free, s, count)
    ensures found.None? ==>
              forall s | startSearch <= s && s + count - 1 <= maxSearch :: !AllFree(free, s, count)
  {
    var startPort := startSearch;
    while startPort + count - 1 <= maxSearch
      invariant startSearch <= startPort
      invariant forall s | startSearch <= s < startPort :: !AllFree(free, s, count)
    {
      var allAvailable := true;
      var i := 0;
      while i < count
        invariant 0 <= i && (count >= 0 ==> i <= count) && (count < 0 ==> i == 0)
        invariant allAvailable
        invariant AllFree(free, startPort, i)
      {
        var port := startPort + i;
        if !free(port) {
          allAvailable := false;
          break;
        }
        i := i + 1;
      }
      if allAvailable {
        return Some(startPort);
      }
      assert startPort <= startPort + i < startPort + count && !free(startPort + i);
      startPort := startPort + 1;
    }
    return None;
  }
}
