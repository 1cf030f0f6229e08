/**
 Two pieces of the token-creation sniper (backrunner/snipers.py): the Borsh parser that finds a
 creator's key in instruction data, and the sliding-window limit on its REST calls.
 */
module Sniper {
  import opened Wrappers
  import opened Window
  import opened Bytes
  import opened Solana

  const CREATE: seq<byte> := [24, 30, 200, 40, 5, 28, 7, 119]
  const CREATE_V2: seq<byte> := [214, 144, 76, 236, 95, 139, 49, 180]

  datatype ParseError = TooShort

  datatype Parsed = Parsed(value: seq<byte>, next: nat)

  /** Slicing as the source's language does it: out-of-range bounds are silently clipped. */
  function Slice(data: seq<byte>, start: nat, to: nat): seq<byte>
    requires start <= to
  {
    if start >= |data| then [] else if to >= |data| then data[start..] else data[start..to]
  }

  /** A length-prefixed string; only a missing length is an error, a short body is not. */
  function ParseString(data: seq<byte>, offset: nat): Result<Parsed, ParseError> {
    if offset + 4 > |data| then Err(TooShort)
    else
      var length := U32At(data, offset);
      Ok(Parsed(Slice(data, offset + 4, offset + 4 + length), offset + 4 + length))
  }

  function ParseStrings(data: seq<byte>): Result<nat, ParseError> {
    var name :- ParseString(data, 8);
    var symbol :- ParseString(data, name.next);
    var uri :- ParseString(data, symbol.next);
    Ok(uri.next)
  }

  function ParseCreator(data: seq<byte>): Option<Pubkey> {
    if |data| < 8 || (data[..8] != CREATE && data[..8] != CREATE_V2) then None
    else
      var offset := ParseStrings(data);
      if offset.Err? || offset.value + 32 > |data| then None
      else Some(data[offset.value..offset.value + 32])
  }

  datatype Creation = Creation(
    discriminator: seq<byte>, name: seq<byte>, symbol: seq<byte>, uri: seq<byte>, creator: Pubkey, rest: seq<byte>)
  {
    predicate Encodable() {
      && (discriminator == CREATE || discriminator == CREATE_V2)
      && |name| < 0x1_0000_0000 && |symbol| < 0x1_0000_0000 && |uri| < 0x1_0000_0000
    }
  }

  function EncodeString(s: seq<byte>): (b: seq<byte>)
    requires |s| < 0x1_0000_0000
    ensures |b| == 4 + |s|
  {
    ToLe(|s|, 4) + s
  }

  function Encode(c: Creation): seq<byte>
    requires c.Encodable()
  {
    c.discriminator + EncodeString(c.name) + EncodeString(c.symbol) + EncodeString(c.uri) + c.creator + c.rest
  }

  lemma ParseStringOfEncoded(data: seq<byte>, offset: nat, s: seq<byte>)
    requires |s| < 0x1_0000_0000 && offset + 4 + |s| <= |data|
    requires data[offset..offset + 4 + |s|] == EncodeString(s)
    ensures ParseString(data, offset) == Ok(Parsed(s, offset + 4 + |s|))
  {
    hide ToLe, FromLe;
    var part := data[offset..offset + 4 + |s|];
    assert part[..4] == ToLe(|s|, 4) && part[4..] == s;
    assert data[offset..offset + 4] == part[..4];
    U32AtToLe(data, offset, |s|);
    assert data[offset + 4..offset + 4 + |s|] == part[4..];
    assert offset + 4 + |s| == |data| ==> data[offset + 4..] == data[offset + 4..offset + 4 + |s|];
  }

  /** A parsed string that ends inside the data was there in full. */
  lemma EncodedOfParseString(data: seq<byte>, offset: nat)
    requires ParseString(data, offset).Ok? && ParseString(data, offset).value.next <= |data|
    ensures var p := ParseString(data, offset).value;
            && |p.value| < 0x1_0000_0000 && p.next == offset + 4 + |p.value|
            && data[offset..p.next] == EncodeString(p.value)
  {
    hide ToLe, FromLe;
    var p := ParseString(data, offset).value;
    assert data[offset..p.next] == data[offset..offset + 4] + data[offset + 4..p.next];
  }

  lemma Appended(p: seq<byte>, q: seq<byte>, from: nat, to: nat)
    requires from <= to <= |p|
    ensures (p + q)[from..to] == p[from..to]
    ensures (p + q)[|p|..|p| + |q|] == q
  {
  }

  lemma ConcatParts(h: seq<byte>, x: seq<byte>, y: seq<byte>, z: seq<byte>, k: seq<byte>, rest: seq<byte>)
    ensures var data := h + x + y + z + k + rest;
            var a := |h| + |x|;
            var b := a + |y|;
            var d := b + |z|;
            && data[..|h|] == h && data[|h|..a] == x && data[a..b] == y && data[b..d] == z && data[d..d + |k|] == k
  {
    var hx := h + x;
    var hxy := hx + y;
    var hxyz := hxy + z;
    Appended(h, x, 0, |h|);
    SliceStays(hx, y, z, k, rest, 0, |h|);
    SliceStays(hx, y, z, k, rest, |h|, |hx|);
    Appended(hx, y, 0, |hx|);
    SliceStays(hxy, z, k, rest, [], |hx|, |hxy|);
    assert hxy + z + k + rest + [] == hxy + z + k + rest;
    Appended(hxy, z, 0, |hxy|);
    SliceStays(hxyz, k, rest, [], [], |hxy|, |hxyz|);
    assert hxyz + k + rest + [] + [] == hxyz + k + rest;
    Appended(hxyz, k, 0, |hxyz|);
    Appended(hxyz + k, rest, |hxyz|, |hxyz + k|);
  }

  lemma SliceStays(p: seq<byte>, a: seq<byte>, b: seq<byte>, c: seq<byte>, d: seq<byte>, from: nat, to: nat)
    requires from <= to <= |p|
    ensures (p + a + b + c + d)[from..to] == p[from..to]
  {
    Appended(p, a, from, to);
    Appended(p + a, b, from, to);
    Appended(p + a + b, c, from, to);
    Appended(p + a + b + c, d, from, to);
  }

  /** Encoding any creation, with anything after it, and parsing gives back its creator. */
  lemma ParseOfEncode(c: Creation)
    requires c.Encodable()
    ensures ParseCreator(Encode(c)) == Some(c.creator)
  {
    hide EncodeString, ParseString;
    ConcatParts(c.discriminator, EncodeString(c.name), EncodeString(c.symbol), EncodeString(c.uri), c.creator, c.rest);
    var data := Encode(c);
    var a := 8 + 4 + |c.name|;
    var b := a + 4 + |c.symbol|;
    ParseStringOfEncoded(data, 8, c.name);
    ParseStringOfEncoded(data, a, c.symbol);
    ParseStringOfEncoded(data, b, c.uri);
  }

  lemma SixParts(data: seq<byte>, a: nat, b: nat, d: nat)
    requires 8 <= a <= b <= d && d + 32 <= |data|
    ensures data == data[..8] + data[8..a] + data[a..b] + data[b..d] + data[d..d + 32] + data[d + 32..]
  {
    assert data == data[..d + 32] + data[d + 32..];
    assert data[..d + 32] == data[..d] + data[d..d + 32];
    assert data[..d] == data[..b] + data[b..d];
    assert data[..b] == data[..a] + data[a..b];
  }

  /** Despite clipped slices, whatever is accepted holds three whole strings and a whole key. */
  lemma AcceptedIsEncoded(data: seq<byte>) returns (c: Creation)
    requires ParseCreator(data).Some?
    ensures c.Encodable() && data == Encode(c) && c.creator == ParseCreator(data).value
  {
    hide ToLe, FromLe, EncodeString;
    var name := ParseString(data, 8).value;
    var symbol := ParseString(data, name.next).value;
    var uri := ParseString(data, symbol.next).value;
    EncodedOfParseString(data, 8);
    EncodedOfParseString(data, name.next);
    EncodedOfParseString(data, symbol.next);
    SixParts(data, name.next, symbol.next, uri.next);
    c := Creation(data[..8], name.value, symbol.value, uri.value,
                  data[uri.next..uri.next + 32], data[uri.next + 32..]);
  }

  /** Discriminator, three strings each behind its length in four bytes, key and anything after. */
  predicate IsCreation(data: seq<byte>, c: Creation) {
    && (c.discriminator == [24, 30, 200, 40, 5, 28, 7, 119] || c.discriminator == [214, 144, 76, 236, 95, 139, 49, 180])
    && |c.name| < 4294967296 && |c.symbol| < 4294967296 && |c.uri| < 4294967296
    && data == c.discriminator + ToLe(|c.name|, 4) + c.name + ToLe(|c.symbol|, 4) + c.symbol
               + ToLe(|c.uri|, 4) + c.uri + c.creator + c.rest
  }

  lemma EncodesExactly(data: seq<byte>, c: Creation)
    ensures IsCreation(data, c) <==> c.Encodable() && data == Encode(c)
  {
    hide ToLe;
    if c.Encodable() {
      assert Encode(c) == c.discriminator + ToLe(|c.name|, 4) + c.name + ToLe(|c.symbol|, 4) + c.symbol
                          + ToLe(|c.uri|, 4) + c.uri + c.creator + c.rest;
    }
  }

  /** The parser accepts exactly the creations, and finds their creator. */
  lemma ParserIsExact(data: seq<byte>, key: Pubkey)
    ensures ParseCreator(data) == Some(key) <==>
            exists c: Creation :: IsCreation(data, c) && c.creator == key
  {
    hide ParseCreator, Encode, IsCreation;
    if ParseCreator(data) == Some(key) {
      var c := AcceptedIsEncoded(data);
      EncodesExactly(data, c);
    }
    forall c: Creation | IsCreation(data, c) && c.creator == key
      ensures ParseCreator(data) == Some(key)
    {
      EncodesExactly(data, c);
      ParseOfEncode(c);
    }
  }

  // ---- The REST limiter

  const MAX_SEEN: nat := 5000
  const WINDOW: real := 60.0

  datatype Limiter = Limiter(seen: set<string>, calls: seq<real>)

  datatype Request = Request(signature: string, now: real)

  function Within(now: real): real -> bool {
    (call: real) => now - call < WINDOW
  }

  function Recent(calls: seq<real>, now: real): seq<real> {
    Keep(calls, Within(now))
  }

  /** A call is kept for less than sixty seconds, and calls stay in order. */
  lemma RecentExactly(calls: seq<real>, call: real, now: real)
    ensures Recent([], now) == []
    ensures Recent(calls + [call], now) == Recent(calls, now) + if now < call + 60.0 then [call] else []
  {
    KeepConcat(calls, [call], Within(now));
    KeepOne(call, Within(now));
  }

  predicate Grants(maxPerMinute: int, l: Limiter, r: Request) {
    r.signature !in l.seen && |Recent(l.calls, r.now)| < maxPerMinute * 3
  }

  function Stepped(maxPerMinute: int, l: Limiter, r: Request): Limiter {
    if r.signature in l.seen then l
    else
      var seen := l.seen + {r.signature};
      var recent := Recent(l.calls, r.now);
      Limiter(if |seen| > MAX_SEEN then {} else seen,
              if Grants(maxPerMinute, l, r) then recent + [r.now] else recent)
  }

  class PumpSniper {
    const maxPerMinute: int
    var seenSignatures: set<string>
    var restCalls: seq<real>

    constructor (maxPerMinute: int)
      ensures this.maxPerMinute == maxPerMinute && State() == Limiter({}, [])
    {
      this.maxPerMinute := maxPerMinute;
      seenSignatures, restCalls := {}, [];
    }

    function State(): Limiter
      reads this
    {
      Limiter(seenSignatures, restCalls)
    }

    /** The head of `_check_tx`: whether the call for this signature may be made. */
    method CheckTx(signature: string, now: real) returns (granted: bool)
      modifies this
      ensures granted == Grants(maxPerMinute, old(State()), Request(signature, now))
      ensures State() == Stepped(maxPerMinute, old(State()), Request(signature, now))
    {
      if signature in seenSignatures {
        return false;
      }
      seenSignatures := seenSignatures + {signature};
      if |seenSignatures| > MAX_SEEN {
        seenSignatures := {};
      }
      var recent: seq<real> := [];
      for i := 0 to |restCalls|
        invariant recent == Recent(restCalls[..i], now)
      {
        assert restCalls[..i + 1][..i] == restCalls[..i];
        if now - restCalls[i] < WINDOW {
          recent := recent + [restCalls[i]];
        }
      }
      assert restCalls[..|restCalls|] == restCalls;
      restCalls := recent;
      if |restCalls| >= maxPerMinute * 3 {
        return false;
      }
      restCalls := restCalls + [now];
      return true;
    }
  }

  function Run(maxPerMinute: int, requests: seq<Request>): Limiter {
    if requests == [] then Limiter({}, [])
    else Stepped(maxPerMinute, Run(maxPerMinute, requests[..|requests| - 1]), requests[|requests| - 1])
  }

  /** The times of all calls ever granted. */
  function Granted(maxPerMinute: int, requests: seq<Request>): seq<real> {
    if requests == [] then []
    else
      var init, last := requests[..|requests| - 1], requests[|requests| - 1];
      if Grants(maxPerMinute, Run(maxPerMinute, init), last) then Granted(maxPerMinute, init) + [last.now]
      else Granted(maxPerMinute, init)
  }

  predicate Clocked(requests: seq<Request>) {
    forall i, j :: 0 <= i <= j < |requests| ==> requests[i].now <= requests[j].now
  }

  /** The kept calls show, now and later, the same window as all calls granted. */
  lemma {:induction false} KeptCallsSuffice(maxPerMinute: int, requests: seq<Request>, now: real)
    requires Clocked(requests) && (requests != [] ==> requests[|requests| - 1].now <= now)
    ensures Recent(Run(maxPerMinute, requests).calls, now) == Recent(Granted(maxPerMinute, requests), now)
    decreases |requests|
  {
    if requests != [] {
      var init, last := requests[..|requests| - 1], requests[|requests| - 1];
      assert init != [] ==> requests[|init| - 1].now <= last.now;
      KeptCallsSuffice(maxPerMinute, init, now);
      KeptCallsSuffice(maxPerMinute, init, last.now);
      var kept, all := Run(maxPerMinute, init).calls, Granted(maxPerMinute, init);
      KeepTwice(kept, Within(last.now), Within(now));
      KeepTwice(all, Within(last.now), Within(now));
      KeepConcat(Recent(kept, last.now), [last.now], Within(now));
      KeepConcat(all, [last.now], Within(now));
      KeepOne(last.now, Within(now));
    }
  }

  lemma {:induction false} RecentKeepsTail(calls: seq<real>, i: nat, now: real)
    requires i <= |calls| && forall k :: i <= k < |calls| ==> now - calls[k] < WINDOW
    ensures |Recent(calls, now)| >= |calls| - i
    decreases |calls|
  {
    if i < |calls| {
      RecentKeepsTail(calls[..|calls| - 1], i, now);
    }
  }

  lemma {:induction false} GrantedBefore(maxPerMinute: int, requests: seq<Request>, now: real)
    requires forall k :: 0 <= k < |requests| ==> requests[k].now <= now
    ensures forall k :: 0 <= k < |Granted(maxPerMinute, requests)| ==> Granted(maxPerMinute, requests)[k] <= now
    decreases |requests|
  {
    if requests != [] {
      GrantedBefore(maxPerMinute, requests[..|requests| - 1], now);
    }
  }

  predicate Sorted(calls: seq<real>) {
    forall k, m :: 0 <= k <= m < |calls| ==> calls[k] <= calls[m]
  }

  lemma {:induction false} GrantedIsSorted(maxPerMinute: int, requests: seq<Request>)
    requires Clocked(requests)
    ensures Sorted(Granted(maxPerMinute, requests))
    decreases |requests|
  {
    if requests != [] {
      var init, last := requests[..|requests| - 1], requests[|requests| - 1];
      GrantedIsSorted(maxPerMinute, init);
      GrantedBefore(maxPerMinute, init, last.now);
    }
  }

  /** Calls granted within less than sixty seconds of each other never exceed three times the rate. */
  lemma {:induction false} WindowLimit(maxPerMinute: int, requests: seq<Request>, i: nat, j: nat)
    requires Clocked(requests) && i <= j < |Granted(maxPerMinute, requests)|
    requires Granted(maxPerMinute, requests)[j] - Granted(maxPerMinute, requests)[i] < 60.0
    ensures j - i + 1 <= 3 * maxPerMinute
    decreases |requests|
  {
    var init, last := requests[..|requests| - 1], requests[|requests| - 1];
    var before := Granted(maxPerMinute, init);
    if j < |before| {
      WindowLimit(maxPerMinute, init, i, j);
    } else {
      assert init != [] ==> requests[|init| - 1].now <= last.now;
      KeptCallsSuffice(maxPerMinute, init, last.now);
      GrantedIsSorted(maxPerMinute, init);
      RecentKeepsTail(before, i, last.now);
    }
  }

  predicate GrantedAt(maxPerMinute: int, requests: seq<Request>, i: nat)
    requires i < |requests|
  {
    Grants(maxPerMinute, Run(maxPerMinute, requests[..i]), requests[i])
  }

  /** The record of signatures was never empty after request `i`: it has not been cleared since. */
  predicate NoClearSince(maxPerMinute: int, requests: seq<Request>, i: nat) {
    forall k :: i < k <= |requests| ==> Run(maxPerMinute, requests[..k]).seen != {}
  }

  predicate AskedAt(maxPerMinute: int, requests: seq<Request>, i: nat, signature: string)
    requires i < |requests|
  {
    requests[i].signature == signature && NoClearSince(maxPerMinute, requests, i)
  }

  lemma NoClearSinceSnoc(maxPerMinute: int, requests: seq<Request>, i: nat)
    requires i < |requests|
    ensures var n := |requests| - 1;
            NoClearSince(maxPerMinute, requests, i) <==>
            Run(maxPerMinute, requests).seen != {} && (i < n ==> NoClearSince(maxPerMinute, requests[..n], i))
  {
    var n := |requests| - 1;
    hide Run;
    assert requests[..n + 1] == requests;
    assert forall k :: 0 <= k <= n ==> requests[..n][..k] == requests[..k];
  }

  /** A signature is remembered exactly when it was asked about and the record has not been cleared since. */
  lemma {:induction false} SeenExactly(maxPerMinute: int, requests: seq<Request>, signature: string)
    ensures signature in Run(maxPerMinute, requests).seen <==>
            exists i :: 0 <= i < |requests| && AskedAt(maxPerMinute, requests, i, signature)
    decreases |requests|
  {
    if requests != [] {
      var n := |requests| - 1;
      var init := requests[..n];
      SeenExactly(maxPerMinute, init, signature);
      SeenStep(maxPerMinute, Run(maxPerMinute, init), requests[n], signature);
      hide Run, Stepped, NoClearSince;
      forall i | 0 <= i < n
        ensures AskedAt(maxPerMinute, requests, i, signature) <==>
                Run(maxPerMinute, requests).seen != {} && AskedAt(maxPerMinute, init, i, signature)
      {
        NoClearSinceSnoc(maxPerMinute, requests, i);
      }
      NoClearSinceSnoc(maxPerMinute, requests, n);
      assert AskedAt(maxPerMinute, requests, n, signature) <==>
          Run(maxPerMinute, requests).seen != {} && requests[n].signature == signature;
    }
  }

  lemma SeenStep(maxPerMinute: int, l: Limiter, r: Request, signature: string)
    ensures var seen := Stepped(maxPerMinute, l, r).seen;
            signature in seen <==> seen != {} && (signature in l.seen || r.signature == signature)
  {
  }

  /** Until the record is cleared, a signature once asked about is remembered. */
  lemma AskedIsRemembered(maxPerMinute: int, requests: seq<Request>, i: nat)
    requires i < |requests| && NoClearSince(maxPerMinute, requests, i)
    ensures requests[i].signature in Run(maxPerMinute, requests).seen
  {
    SeenExactly(maxPerMinute, requests, requests[i].signature);
    assert AskedAt(maxPerMinute, requests, i, requests[i].signature);
  }

  /**
   What a request is granted on: its signature was not asked about since the last clear, and fewer calls
   than three times the rate were granted, over the whole run, within the last sixty seconds.
   */
  lemma GrantedExactly(maxPerMinute: int, requests: seq<Request>, j: nat)
    requires Clocked(requests) && j < |requests|
    ensures var before, r := requests[..j], requests[j];
            GrantedAt(maxPerMinute, requests, j) <==>
            && !(exists i :: 0 <= i < j && AskedAt(maxPerMinute, before, i, r.signature))
            && |Recent(Granted(maxPerMinute, before), r.now)| < 3 * maxPerMinute
  {
    hide AskedAt, Run, Granted, Recent;
    SeenExactly(maxPerMinute, requests[..j], requests[j].signature);
    KeptCallsSuffice(maxPerMinute, requests[..j], requests[j].now);
  }

  /** So no signature is fetched twice unless the record was cleared in between. */
  lemma RepeatNeedsAClear(maxPerMinute: int, requests: seq<Request>, i: nat, j: nat)
    requires i < j < |requests| && requests[i].signature == requests[j].signature
    requires GrantedAt(maxPerMinute, requests, j)
    ensures exists k :: i < k <= j && Run(maxPerMinute, requests[..k]).seen == {}
  {
    SeenExactly(maxPerMinute, requests[..j], requests[j].signature);
    assert !AskedAt(maxPerMinute, requests[..j], i, requests[j].signature);
    var k :| i < k <= j && Run(maxPerMinute, requests[..j][..k]).seen == {};
    assert requests[..j][..k] == requests[..k];
  }

  // ---- Runs that ask about no more signatures than the record holds

  /** The signatures a run asked about. */
  function Asked(requests: seq<Request>): set<string> {
    set i | 0 <= i < |requests| :: requests[i].signature
  }

  lemma AskedSnoc(requests: seq<Request>)
    requires requests != []
    ensures var n := |requests| - 1; Asked(requests) == Asked(requests[..n]) + {requests[n].signature}
  {
    var n := |requests| - 1;
    assert forall i :: 0 <= i < n ==> requests[..n][i] == requests[i];
    assert requests[n].signature in Asked(requests);
    assert forall i :: 0 <= i < n ==> requests[i].signature in Asked(requests);
  }

  lemma SeenGrows(maxPerMinute: int, l: Limiter, r: Request)
    requires |l.seen + {r.signature}| <= MAX_SEEN
    ensures Stepped(maxPerMinute, l, r).seen == l.seen + {r.signature}
  {
    if r.signature in l.seen {
      assert l.seen + {r.signature} == l.seen;
    }
  }

  lemma FewerAsked(a: set<string>, s: string)
    ensures |a| <= |a + {s}|
  {
    if s in a {
      assert a + {s} == a;
    }
  }

  /** With no more signatures than the record holds, it holds exactly those asked about: it is never cleared. */
  lemma {:induction false} SeenIsAsked(maxPerMinute: int, requests: seq<Request>)
    requires |Asked(requests)| <= MAX_SEEN
    ensures Run(maxPerMinute, requests).seen == Asked(requests)
    decreases |requests|
  {
    if requests == [] {
      return;
    }
    hide Stepped, MAX_SEEN, Asked;
    var n := |requests| - 1;
    AskedSnoc(requests);
    FewerAsked(Asked(requests[..n]), requests[n].signature);
    SeenIsAsked(maxPerMinute, requests[..n]);
    SeenGrows(maxPerMinute, Run(maxPerMinute, requests[..n]), requests[n]);
  }

  lemma {:induction false} AskedOfPrefix(requests: seq<Request>, j: nat)
    requires j <= |requests|
    ensures |Asked(requests[..j])| <= |Asked(requests)|
    decreases |requests|
  {
    hide Asked;
    if j == |requests| {
      assert requests[..j] == requests;
    } else {
      var n := |requests| - 1;
      AskedSnoc(requests);
      FewerAsked(Asked(requests[..n]), requests[n].signature);
      AskedOfPrefix(requests[..n], j);
      assert requests[..n][..j] == requests[..j];
    }
  }

  /** No signature is fetched twice in the run. */
  predicate FetchesOnce(maxPerMinute: int, requests: seq<Request>) {
    forall i, j :: 0 <= i < j < |requests| && requests[i].signature == requests[j].signature ==>
                     !(GrantedAt(maxPerMinute, requests, i) && GrantedAt(maxPerMinute, requests, j))
  }

  lemma FewSignaturesFetchOnce(maxPerMinute: int, requests: seq<Request>)
    requires |Asked(requests)| <= MAX_SEEN
    ensures FetchesOnce(maxPerMinute, requests)
  {
    hide MAX_SEEN, Run, Recent;
    forall i, j | 0 <= i < j < |requests| && requests[i].signature == requests[j].signature
      ensures !GrantedAt(maxPerMinute, requests, j)
    {
      AskedOfPrefix(requests, j);
      SeenIsAsked(maxPerMinute, requests[..j]);
      assert requests[..j][i] == requests[i];
    }
  }

  /** Every run that asks about at most `n` signatures, in the order of time, fetches each at most once. */
  ghost predicate BoundSuffices(maxPerMinute: int, n: nat) {
    forall requests: seq<Request> ::
      Clocked(requests) && |Asked(requests)| <= n ==> FetchesOnce(maxPerMinute, requests)
  }

  /** The record's size is exactly how many signatures are safe. */
  lemma RecordSizeIsTheBound(maxPerMinute: int, n: nat)
    requires maxPerMinute > 0
    ensures BoundSuffices(maxPerMinute, n) <==> n <= 5000
  {
    hide FetchesOnce, Asked, Clocked;
    if n <= MAX_SEEN {
      forall requests: seq<Request> | Clocked(requests) && |Asked(requests)| <= n
        ensures FetchesOnce(maxPerMinute, requests)
      {
        FewSignaturesFetchOnce(maxPerMinute, requests);
      }
    } else {
      var requests := Flood(MAX_SEEN + 1) + [Request(Sig(0), WINDOW)];
      OverflowFetchesAgain(maxPerMinute);
      OverflowAsks();
      OverflowRepeats(maxPerMinute);
    }
  }

  lemma OverflowRepeats(maxPerMinute: int)
    requires maxPerMinute > 0
    ensures !FetchesOnce(maxPerMinute, Flood(MAX_SEEN + 1) + [Request(Sig(0), WINDOW)])
  {
    hide Flood, Sig, GrantedAt;
    OverflowFetchesAgain(maxPerMinute);
  }

  // ---- A run that fetches one signature twice

  function Sig(n: nat): string {
    seq(n, i => 'x')
  }

  /** `n` requests at time zero for `n` different signatures. */
  function Flood(n: nat): seq<Request> {
    if n == 0 then [] else Flood(n - 1) + [Request(Sig(n - 1), 0.0)]
  }

  lemma {:induction false} FloodAt(n: nat)
    ensures |Flood(n)| == n && forall i :: 0 <= i < n ==> Flood(n)[i] == Request(Sig(i), 0.0)
  {
    if n > 0 {
      FloodAt(n - 1);
    }
  }

  lemma NewSignature(maxPerMinute: int, l: Limiter, r: Request)
    requires r.signature !in l.seen && |l.seen| < MAX_SEEN
    ensures Stepped(maxPerMinute, l, r).seen == l.seen + {r.signature}
  {
  }

  lemma SigLength(n: nat)
    ensures |Sig(n)| == n
  {
  }

  lemma FloodStep(maxPerMinute: int, n: nat)
    requires n > 0
    ensures Run(maxPerMinute, Flood(n))
            == Stepped(maxPerMinute, Run(maxPerMinute, Flood(n - 1)), Request(Sig(n - 1), 0.0))
  {
    hide Stepped, Sig;
    assert Flood(n)[..|Flood(n)| - 1] == Flood(n - 1);
  }

  predicate AllShorter(seen: set<string>, n: nat) {
    forall s :: s in seen ==> |s| < n
  }

  lemma AddLonger(seen: set<string>, n: nat, s: string)
    requires AllShorter(seen, n) && |s| == n
    ensures s !in seen && |seen + {s}| == |seen| + 1 && AllShorter(seen + {s}, n + 1)
  {
  }

  lemma {:induction false} FloodFills(maxPerMinute: int, n: nat)
    requires n <= MAX_SEEN
    ensures var l := Run(maxPerMinute, Flood(n));
            |l.seen| == n && AllShorter(l.seen, n)
  {
    hide Stepped, Sig, MAX_SEEN, AllShorter, Run, Flood;
    if n == 0 {
      NothingSeen(maxPerMinute);
    } else {
      var before := Run(maxPerMinute, Flood(n - 1));
      FloodFills(maxPerMinute, n - 1);
      FloodStep(maxPerMinute, n);
      SigLength(n - 1);
      AddLonger(before.seen, n - 1, Sig(n - 1));
      NewSignature(maxPerMinute, before, Request(Sig(n - 1), 0.0));
    }
  }

  lemma NothingSeen(maxPerMinute: int)
    ensures Run(maxPerMinute, Flood(0)).seen == {} && AllShorter({}, 0)
  {
  }

  predicate AllAtZero(calls: seq<real>) {
    forall i :: 0 <= i < |calls| ==> calls[i] == 0.0
  }

  lemma {:induction false} RecentAtZero(calls: seq<real>)
    requires AllAtZero(calls)
    ensures AllAtZero(Recent(calls, 0.0)) && Recent(calls, WINDOW) == []
    decreases |calls|
  {
    if calls != [] {
      RecentAtZero(calls[..|calls| - 1]);
    }
  }

  lemma StepAtZero(maxPerMinute: int, l: Limiter, r: Request)
    requires AllAtZero(l.calls) && r.now == 0.0
    ensures AllAtZero(Stepped(maxPerMinute, l, r).calls)
  {
    hide Recent, MAX_SEEN;
    RecentAtZero(l.calls);
  }

  lemma {:induction false} FloodCallsAreOld(maxPerMinute: int, n: nat)
    ensures AllAtZero(Run(maxPerMinute, Flood(n)).calls)
  {
    if n == 0 {
      return;
    }
    hide Run, Flood, Sig, Stepped, AllAtZero;
    FloodCallsAreOld(maxPerMinute, n - 1);
    FloodStep(maxPerMinute, n);
    StepAtZero(maxPerMinute, Run(maxPerMinute, Flood(n - 1)), Request(Sig(n - 1), 0.0));
  }

  /** One signature more than fit, then the first again a minute later: it is fetched both times. */
  lemma OverflowFetchesAgain(maxPerMinute: int)
    requires maxPerMinute > 0
    ensures var requests := Flood(MAX_SEEN + 1) + [Request(Sig(0), WINDOW)];
            && |requests| == MAX_SEEN + 2 && Clocked(requests)
            && requests[0].signature == requests[MAX_SEEN + 1].signature
            && GrantedAt(maxPerMinute, requests, 0) && GrantedAt(maxPerMinute, requests, MAX_SEEN + 1)
  {
    var flood := Flood(MAX_SEEN + 1);
    var requests := flood + [Request(Sig(0), WINDOW)];
    FloodAt(MAX_SEEN + 1);
    assert requests[..0] == [] && requests[..MAX_SEEN + 1] == flood;
    FloodOverflows(maxPerMinute);
    FloodCallsAreOld(maxPerMinute, MAX_SEEN + 1);
    var calls := Run(maxPerMinute, flood).calls;
    RecentAtZero(calls);
    FirstIsGranted(maxPerMinute, requests[0]);
    hide Run, Flood, Sig, MAX_SEEN;
  }

  lemma FirstIsGranted(maxPerMinute: int, r: Request)
    requires maxPerMinute > 0
    ensures Grants(maxPerMinute, Run(maxPerMinute, []), r)
  {
  }

  lemma {:induction false} FloodAsks(n: nat)
    ensures |Asked(Flood(n))| <= n
  {
    if n > 0 {
      FloodAsks(n - 1);
      AskedSnoc(Flood(n));
      assert Flood(n)[..|Flood(n)| - 1] == Flood(n - 1);
    }
  }

  lemma OverflowAsks()
    ensures |Asked(Flood(MAX_SEEN + 1) + [Request(Sig(0), WINDOW)])| <= MAX_SEEN + 1
  {
    var flood, r := Flood(MAX_SEEN + 1), Request(Sig(0), WINDOW);
    FloodAsks(MAX_SEEN + 1);
    FloodAt(MAX_SEEN + 1);
    assert (flood + [r])[..|flood|] == flood;
    AskedSnoc(flood + [r]);
    hide Flood, Sig;
    assert flood[0].signature in Asked(flood);
    assert Asked(flood) + {r.signature} == Asked(flood);
  }

  lemma FloodOverflows(maxPerMinute: int)
    ensures Run(maxPerMinute, Flood(MAX_SEEN + 1)).seen == {}
  {
    hide Sig, Stepped, Run, Flood;
    var before, r := Run(maxPerMinute, Flood(MAX_SEEN)), Request(Sig(MAX_SEEN), 0.0);
    FloodFills(maxPerMinute, MAX_SEEN);
    FloodStep(maxPerMinute, MAX_SEEN + 1);
    SigLength(MAX_SEEN);
    OneTooMany(maxPerMinute, before, r);
  }

  lemma OneTooMany(maxPerMinute: int, l: Limiter, r: Request)
    requires r.signature !in l.seen && |l.seen| == MAX_SEEN
    ensures Stepped(maxPerMinute, l, r).seen == {}
  {
    assert |l.seen + {r.signature}| == MAX_SEEN + 1;
  }
}
