/**
 The executor's wire format (programs/atomic-executor/src/lib.rs).
 `Parse` is the on-chain parser; `Serialize` is the byte layout the client writes.
 The two are proved mutually inverse, so parsing is total, canonical and injective.
 */
module Codec {
  import opened Wrappers
  import opened Bytes

  datatype ExecutorError =
    | InvalidInstruction
    | InvalidAmountOffset
    | InvalidProgramPair
    | InvalidTokenAccount
    | InvalidAuthority
    | ExistingInventory
    | NoIntermediateOutput
    | ResidualInventory
    | ProfitFloorNotMet
    | Expired
    | PrivilegeEscalation
    | UnexpectedUserTokenAccount
      // An error raised by the runtime or by a venue during a cross-program call.
    | CallFailed

  const MAGIC: seq<byte> := [87, 65, 66, 82] // "WABR"
  const VERSION: byte := 1
  const HEADER_LEN: nat := 33

  /** One account of a leg: an index into the merged table, and flag bits 1 (signer) and 2 (writable). */
  datatype AccountRef = AccountRef(index: byte, flags: byte) {
    predicate Signer() { flags % 2 == 1 }

    predicate Writable() { flags / 2 % 2 == 1 }

    // No bit outside FLAG_SIGNER | FLAG_WRITABLE is set.
    predicate Known() { flags < 4 }
  }

  datatype Config = Config(
    firstProgramIndex: byte,
    secondProgramIndex: byte,
    quoteIndex: byte,
    intermediateIndex: byte,
    secondAmountOffset: nat,
    minimumProfit: u64,
    validUntilSlot: u64,
    firstRefs: seq<AccountRef>,
    secondRefs: seq<AccountRef>,
    firstData: seq<byte>,
    secondData: seq<byte>)

  function ParseRefs(data: seq<byte>, start: nat, count: nat): Result<seq<AccountRef>, ExecutorError>
    requires start + 2 * count <= |data|
    decreases count
  {
    if count == 0 then Ok([])
    else if data[start + 1] >= 4 then Err(InvalidInstruction)
    else
      var rest :- ParseRefs(data, start + 2, count - 1);
      Ok([AccountRef(data[start], data[start + 1])] + rest)
  }

  // Reads below HEADER_LEN cannot fail once the length check has passed.
  function Parse(data: seq<byte>): Result<Config, ExecutorError> {
    if |data| < HEADER_LEN || data[..4] != MAGIC || data[4] != VERSION then Err(InvalidInstruction)
    else
      var firstCount: nat, secondCount: nat := data[9], data[10];
      var secondAmountOffset := U16At(data, 11);
      var minimumProfit := U64At(data, 13);
      var validUntilSlot := U64At(data, 21);
      var firstLen := U16At(data, 29);
      var secondLen := U16At(data, 31);
      var firstStart := HEADER_LEN + (firstCount + secondCount) * 2;
      var secondStart := firstStart + firstLen;
      var end := secondStart + secondLen;
      if end != |data| || secondAmountOffset + 8 > secondLen then Err(InvalidInstruction)
      else
        var firstRefs :- ParseRefs(data, HEADER_LEN, firstCount);
        var secondRefs :- ParseRefs(data, HEADER_LEN + firstCount * 2, secondCount);
        Ok(Config(data[5], data[6], data[7], data[8], secondAmountOffset, minimumProfit, validUntilSlot,
                  firstRefs, secondRefs, data[firstStart..secondStart], data[secondStart..end]))
  }

  predicate KnownRefs(refs: seq<AccountRef>) {
    forall i :: 0 <= i < |refs| ==> refs[i].Known()
  }

  /** What every configuration the format can carry satisfies. */
  predicate Encodable(c: Config) {
    && |c.firstRefs| < 256 && |c.secondRefs| < 256
    && |c.firstData| < 0x1_0000 && |c.secondData| < 0x1_0000
    && c.secondAmountOffset + 8 <= |c.secondData|
    && KnownRefs(c.firstRefs) && KnownRefs(c.secondRefs)
  }

  function SerializeRefs(refs: seq<AccountRef>): (b: seq<byte>)
    ensures |b| == 2 * |refs|
  {
    if refs == [] then [] else [refs[0].index, refs[0].flags] + SerializeRefs(refs[1..])
  }

  function Header(c: Config): (h: seq<byte>)
    requires Encodable(c)
    ensures |h| == HEADER_LEN
  {
    MAGIC
    + [VERSION, c.firstProgramIndex, c.secondProgramIndex, c.quoteIndex, c.intermediateIndex,
       |c.firstRefs|, |c.secondRefs|]
    + ToLe(c.secondAmountOffset, 2)
    + ToLe(c.minimumProfit, 8)
    + ToLe(c.validUntilSlot, 8)
    + ToLe(|c.firstData|, 2)
    + ToLe(|c.secondData|, 2)
  }

  function Serialize(c: Config): seq<byte>
    requires Encodable(c)
  {
    Header(c) + SerializeRefs(c.firstRefs) + SerializeRefs(c.secondRefs) + c.firstData + c.secondData
  }

  lemma {:induction false} SerializeRefsConcat(a: seq<AccountRef>, b: seq<AccountRef>)
    ensures SerializeRefs(a + b) == SerializeRefs(a) + SerializeRefs(b)
  {
    if a == [] {
      assert a + b == b;
    } else {
      assert (a + b)[1..] == a[1..] + b;
      SerializeRefsConcat(a[1..], b);
    }
  }

  lemma {:induction false} ParseRefsOfSerialized(data: seq<byte>, start: nat, refs: seq<AccountRef>)
    requires start + 2 * |refs| <= |data|
    requires data[start..start + 2 * |refs|] == SerializeRefs(refs)
    requires KnownRefs(refs)
    ensures ParseRefs(data, start, |refs|) == Ok(refs)
    decreases |refs|
  {
    if refs != [] {
      var bytes := data[start..start + 2 * |refs|];
      assert data[start] == bytes[0] && data[start + 1] == bytes[1];
      assert refs[0].Known() && refs == [refs[0]] + refs[1..];
      assert data[start + 2..start + 2 * |refs|] == bytes[2..] == SerializeRefs(refs[1..]);
      ParseRefsOfSerialized(data, start + 2, refs[1..]);
    }
  }

  lemma {:induction false} SerializedOfParseRefs(data: seq<byte>, start: nat, count: nat)
    requires start + 2 * count <= |data|
    requires ParseRefs(data, start, count).Ok?
    ensures var refs := ParseRefs(data, start, count).value;
            |refs| == count && KnownRefs(refs) && SerializeRefs(refs) == data[start..start + 2 * count]
    decreases count
  {
    if count > 0 {
      SerializedOfParseRefs(data, start + 2, count - 1);
      var refs := ParseRefs(data, start, count).value;
      assert refs[1..] == ParseRefs(data, start + 2, count - 1).value;
      assert data[start..start + 2 * count]
          == [data[start], data[start + 1]] + data[start + 2..start + 2 * count];
    }
  }

  /** The fixed fields of a header, read back at the offsets the parser uses. */
  lemma HeaderFields(c: Config, data: seq<byte>)
    requires Encodable(c)
    requires |data| >= HEADER_LEN && data[..HEADER_LEN] == Header(c)
    ensures data[..4] == MAGIC && data[4] == VERSION
    ensures data[5] == c.firstProgramIndex && data[6] == c.secondProgramIndex
    ensures data[7] == c.quoteIndex && data[8] == c.intermediateIndex
    ensures data[9] == |c.firstRefs| && data[10] == |c.secondRefs|
    ensures U16At(data, 11) == c.secondAmountOffset
    ensures U64At(data, 13) == c.minimumProfit && U64At(data, 21) == c.validUntilSlot
    ensures U16At(data, 29) == |c.firstData| && U16At(data, 31) == |c.secondData|
  {
    hide ToLe, FromLe;
    var h := Header(c);
    assert forall i :: 0 <= i < HEADER_LEN ==> data[i] == h[i];
    assert data[..4] == h[..4] == MAGIC;
    assert data[11..13] == h[11..13] == ToLe(c.secondAmountOffset, 2);
    U16AtToLe(data, 11, c.secondAmountOffset);
    assert data[13..21] == h[13..21] == ToLe(c.minimumProfit, 8);
    U64AtToLe(data, 13, c.minimumProfit);
    assert data[21..29] == h[21..29] == ToLe(c.validUntilSlot, 8);
    U64AtToLe(data, 21, c.validUntilSlot);
    assert data[29..31] == h[29..31] == ToLe(|c.firstData|, 2);
    U16AtToLe(data, 29, |c.firstData|);
    assert data[31..33] == h[31..33] == ToLe(|c.secondData|, 2);
    U16AtToLe(data, 31, |c.secondData|);
  }

  /** `data` is laid out as the header, the two reference lists and the two instruction payloads of `c`. */
  predicate LaidOut(c: Config, data: seq<byte>)
    requires Encodable(c)
  {
    var s1 := HEADER_LEN + 2 * |c.firstRefs|;
    var s2 := s1 + 2 * |c.secondRefs|;
    var s3 := s2 + |c.firstData|;
    && |data| == s3 + |c.secondData|
    && data[..HEADER_LEN] == Header(c)
    && data[HEADER_LEN..s1] == SerializeRefs(c.firstRefs)
    && data[s1..s2] == SerializeRefs(c.secondRefs)
    && data[s2..s3] == c.firstData
    && data[s3..|data|] == c.secondData
  }

  lemma ParseOfLaidOut(c: Config, data: seq<byte>)
    requires Encodable(c) && LaidOut(c, data)
    ensures Parse(data) == Ok(c)
  {
    hide ToLe, FromLe, Header, SerializeRefs, ParseRefs, U16At, U64At, KnownRefs;
    HeaderFields(c, data);
    ParseRefsOfSerialized(data, HEADER_LEN, c.firstRefs);
    ParseRefsOfSerialized(data, HEADER_LEN + 2 * |c.firstRefs|, c.secondRefs);
  }

  /** Parsing what was serialized gives it back. */
  lemma ParseOfSerialize(c: Config)
    requires Encodable(c)
    ensures Parse(Serialize(c)) == Ok(c)
  {
    hide ToLe, Header, SerializeRefs, Parse;
    assert LaidOut(c, Serialize(c));
    ParseOfLaidOut(c, Serialize(c));
  }

  lemma HeaderOfFields(c: Config, data: seq<byte>)
    requires Encodable(c) && |data| >= HEADER_LEN
    requires data[..4] == MAGIC && data[4] == VERSION
    requires data[5] == c.firstProgramIndex && data[6] == c.secondProgramIndex
    requires data[7] == c.quoteIndex && data[8] == c.intermediateIndex
    requires data[9] == |c.firstRefs| && data[10] == |c.secondRefs|
    requires U16At(data, 11) == c.secondAmountOffset
    requires U64At(data, 13) == c.minimumProfit && U64At(data, 21) == c.validUntilSlot
    requires U16At(data, 29) == |c.firstData| && U16At(data, 31) == |c.secondData|
    ensures Header(c) == data[..HEADER_LEN]
  {
    var plain := [VERSION, c.firstProgramIndex, c.secondProgramIndex, c.quoteIndex, c.intermediateIndex,
                  |c.firstRefs|, |c.secondRefs|];
    assert data[4..11] == plain;
    assert data[..HEADER_LEN] == data[..4] + data[4..11] + data[11..13] + data[13..21] + data[21..29]
                                 + data[29..31] + data[31..33];
  }

  lemma LaidOutOfParse(data: seq<byte>)
    requires Parse(data).Ok?
    ensures Encodable(Parse(data).value) && LaidOut(Parse(data).value, data)
  {
    hide ToLe, FromLe, Header, SerializeRefs;
    var c := Parse(data).value;
    var firstCount: nat, secondCount: nat := data[9], data[10];
    SerializedOfParseRefs(data, HEADER_LEN, firstCount);
    SerializedOfParseRefs(data, HEADER_LEN + 2 * firstCount, secondCount);
    HeaderOfFields(c, data);
  }

  lemma FiveParts(data: seq<byte>, a: nat, b: nat, c: nat, d: nat)
    requires a <= b <= c <= d <= |data|
    ensures data == data[..a] + data[a..b] + data[b..c] + data[c..d] + data[d..|data|]
  {
    assert data == data[..d] + data[d..];
    assert data[..d] == data[..c] + data[c..d];
    assert data[..c] == data[..b] + data[b..c];
    assert data[..b] == data[..a] + data[a..b];
  }

  lemma SerializeOfLaidOut(c: Config, data: seq<byte>)
    requires Encodable(c) && LaidOut(c, data)
    ensures Serialize(c) == data
  {
    hide Header, SerializeRefs;
    var s1 := HEADER_LEN + 2 * |c.firstRefs|;
    var s2 := s1 + 2 * |c.secondRefs|;
    FiveParts(data, HEADER_LEN, s1, s2, s2 + |c.firstData|);
  }

  /** Every accepted byte string is the serialization of what was parsed: no byte is ignored. */
  lemma SerializeOfParse(data: seq<byte>)
    requires Parse(data).Ok?
    ensures Encodable(Parse(data).value)
    ensures Serialize(Parse(data).value) == data
  {
    LaidOutOfParse(data);
    SerializeOfLaidOut(Parse(data).value, data);
  }

  /** The accepted language is exactly the set of serializations, and parsing is injective on it. */
  lemma ParseIsCanonical(a: seq<byte>)
    ensures Parse(a).Ok? <==> exists c :: Encodable(c) && a == Serialize(c)
    ensures forall b :: Parse(a).Ok? && Parse(b) == Parse(a) ==> a == b
  {
    if Parse(a).Ok? {
      SerializeOfParse(a);
      forall b | Parse(b) == Parse(a)
        ensures a == b
      {
        SerializeOfParse(b);
      }
    }
    forall c | Encodable(c) && a == Serialize(c)
      ensures Parse(a).Ok?
    {
      ParseOfSerialize(c);
    }
  }

  // ---- The wire format, field by field

  /** The references of one leg are two bytes each from `start`: an index, and flags of which only two bits exist. */
  predicate RefsAt(data: seq<byte>, start: nat, refs: seq<AccountRef>) {
    start + 2 * |refs| <= |data| &&
    forall i :: 0 <= i < |refs| ==>
                  && refs[i].index == data[start + 2 * i]
                  && refs[i].flags == data[start + 2 * i + 1] && refs[i].flags <= 3
  }

  /** The offsets at which each field of `c` stands in `data`, and the two lengths that must add up. */
  predicate WireForm(data: seq<byte>, c: Config) {
    && |data| == 33 + 2 * |c.firstRefs| + 2 * |c.secondRefs| + |c.firstData| + |c.secondData|
    && data[0] == 87 && data[1] == 65 && data[2] == 66 && data[3] == 82 && data[4] == 1
    && data[5] == c.firstProgramIndex && data[6] == c.secondProgramIndex
    && data[7] == c.quoteIndex && data[8] == c.intermediateIndex
    && data[9] == |c.firstRefs| && data[10] == |c.secondRefs|
    && U16At(data, 11) == c.secondAmountOffset <= |c.secondData| - 8
    && U64At(data, 13) == c.minimumProfit && U64At(data, 21) == c.validUntilSlot
    && U16At(data, 29) == |c.firstData| && U16At(data, 31) == |c.secondData|
    && RefsAt(data, 33, c.firstRefs) && RefsAt(data, 33 + 2 * |c.firstRefs|, c.secondRefs)
    && var start := 33 + 2 * |c.firstRefs| + 2 * |c.secondRefs|;
    c.firstData == data[start..start + |c.firstData|] && c.secondData == data[start + |c.firstData|..]
  }

  lemma RefsAtCons(data: seq<byte>, start: nat, refs: seq<AccountRef>)
    requires refs != []
    ensures RefsAt(data, start, refs) <==>
            start + 2 * |refs| <= |data| && refs[0].index == data[start] && refs[0].flags == data[start + 1] <= 3
            && RefsAt(data, start + 2, refs[1..])
  {
    var rest := refs[1..];
    if start + 2 * |refs| <= |data| && RefsAt(data, start + 2, rest)
       && refs[0].index == data[start] && refs[0].flags == data[start + 1] <= 3 {
      forall i | 0 <= i < |refs|
        ensures refs[i].index == data[start + 2 * i] && refs[i].flags == data[start + 2 * i + 1] <= 3
      {
        if i > 0 {
          assert refs[i] == rest[i - 1];
          assert start + 2 + 2 * (i - 1) == start + 2 * i;
        }
      }
    }
    if RefsAt(data, start, refs) {
      forall i | 0 <= i < |rest|
        ensures rest[i].index == data[start + 2 + 2 * i] && rest[i].flags == data[start + 2 + 2 * i + 1] <= 3
      {
        assert rest[i] == refs[i + 1];
        assert start + 2 * (i + 1) == start + 2 + 2 * i;
      }
    }
  }

  lemma {:induction false} ParsesRefsExactly(data: seq<byte>, start: nat, count: nat, refs: seq<AccountRef>)
    requires start + 2 * count <= |data|
    ensures ParseRefs(data, start, count) == Ok(refs) <==> |refs| == count && RefsAt(data, start, refs)
    decreases count
  {
    if count == 0 || refs == [] {
      return;
    }
    hide RefsAt;
    RefsAtCons(data, start, refs);
    ParsesRefsExactly(data, start + 2, count - 1, refs[1..]);
    assert refs == [refs[0]] + refs[1..];
  }

  lemma WireFormParses(data: seq<byte>, c: Config)
    requires WireForm(data, c)
    ensures Parse(data) == Ok(c)
  {
    hide ToLe, FromLe, U16At, U64At, ParseRefs, RefsAt;
    assert data[..4] == [data[0], data[1], data[2], data[3]];
    ParsesRefsExactly(data, 33, |c.firstRefs|, c.firstRefs);
    ParsesRefsExactly(data, 33 + 2 * |c.firstRefs|, |c.secondRefs|, c.secondRefs);
    var start := 33 + 2 * |c.firstRefs| + 2 * |c.secondRefs|;
    assert data[start + |c.firstData|..] == data[start + |c.firstData|..|data|];
    var m: nat, n: nat := data[9], data[10];
    assert ParseRefs(data, 33 + m * 2, n) == Ok(c.secondRefs);
    assert Parse(data).Ok?;
  }

  lemma ParsedHasWireForm(data: seq<byte>)
    requires Parse(data).Ok?
    ensures WireForm(data, Parse(data).value)
  {
    hide ToLe, FromLe, U16At, U64At, ParseRefs, RefsAt;
    var c := Parse(data).value;
    var m: nat, n: nat := data[9], data[10];
    assert data[..4] == [data[0], data[1], data[2], data[3]];
    ParsesRefsExactly(data, 33, m, c.firstRefs);
    ParsesRefsExactly(data, 33 + 2 * m, n, c.secondRefs);
  }

  /** The parser accepts exactly the byte strings in this form, and reads from each the configuration in it. */
  lemma ParsesExactly(data: seq<byte>, c: Config)
    ensures Parse(data) == Ok(c) <==> WireForm(data, c)
    ensures Parse(data).Err? ==> Parse(data).error == InvalidInstruction
  {
    if Parse(data).Ok? {
      ParsedHasWireForm(data);
    }
    if WireForm(data, c) {
      WireFormParses(data, c);
    }
    ParseErrors(data);
  }

  lemma ParseErrors(data: seq<byte>)
    ensures Parse(data).Err? ==> Parse(data).error == InvalidInstruction
  {
    hide ToLe, FromLe, U16At, U64At, ParseRefs;
    if |data| >= 33 {
      var m: nat, n: nat := data[9], data[10];
      if 33 + 2 * (m + n) <= |data| {
        RefErrors(data, 33, m);
        RefErrors(data, 33 + 2 * m, n);
      }
    }
  }

  lemma {:induction false} RefErrors(data: seq<byte>, start: nat, count: nat)
    requires start + 2 * count <= |data|
    ensures ParseRefs(data, start, count).Err? ==> ParseRefs(data, start, count).error == InvalidInstruction
    decreases count
  {
    if count > 0 {
      RefErrors(data, start + 2, count - 1);
    }
  }

  /** The two flag bits: one for the signer right, two for the writable one. */
  lemma FlagBits(index: byte)
    ensures !AccountRef(index, 0).Signer() && !AccountRef(index, 0).Writable()
    ensures AccountRef(index, 1).Signer() && !AccountRef(index, 1).Writable()
    ensures !AccountRef(index, 2).Signer() && AccountRef(index, 2).Writable()
    ensures AccountRef(index, 3).Signer() && AccountRef(index, 3).Writable()
  {
  }

  /** `data` with the eight bytes at `offset` replaced by `value`, little-endian. */
  function Patched(data: seq<byte>, offset: nat, value: u64): (r: seq<byte>)
    requires offset + 8 <= |data|
    ensures |r| == |data|
    ensures U64At(r, offset) == value
    ensures forall i :: 0 <= i < |data| && !(offset <= i < offset + 8) ==> r[i] == data[i]
  {
    var r := data[..offset] + ToLe(value, 8) + data[offset + 8..];
    assert r[offset..offset + 8] == ToLe(value, 8);
    U64AtToLe(r, offset, value);
    r
  }

  /** `patch_u64_le`: fails, changing nothing, exactly when the eight bytes do not fit. */
  method PatchU64Le(data: array<byte>, offset: nat, value: u64) returns (r: Outcome<ExecutorError>)
    modifies data
    ensures r == (if offset + 8 <= data.Length then Pass else Fail(InvalidAmountOffset))
    ensures r.Fail? ==> data[..] == old(data[..])
    ensures r.Pass? ==> data[..] == Patched(old(data[..]), offset, value)
  {
    if offset + 8 > data.Length {
      return Fail(InvalidAmountOffset);
    }
    var bytes := ToLe(value, 8);
    for i := 0 to 8
      invariant forall k :: 0 <= k < i ==> data[offset + k] == bytes[k]
      invariant forall k :: 0 <= k < data.Length && !(offset <= k < offset + i) ==> data[k] == old(data[k])
    {
      data[offset + i] := bytes[i];
    }
    assert data[..] == old(data[..])[..offset] + bytes + old(data[..])[offset + 8..];
    return Pass;
  }
}
