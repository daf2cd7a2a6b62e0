/** Allowlist leaf, version 1: which leaves are valid, how they look on the wire, and how the wire is read back. */
module AllowlistLeaf {
  import opened Common
  import opened LittleEndian

  type bytes = seq<byte>

  datatype Network = Bitcoin | Testnet | Signet | Regtest

  datatype PaymentAsset = BitcoinAsset | Alkane(block: int, transaction: int)

  datatype Leaf = Leaf(
    network: Network,
    launchCommitment: bytes,
    phaseId: bytes,
    snapshotVersion: int,
    scriptPubKey: bytes,
    maxAllocation: int,
    paymentAsset: PaymentAsset,
    priceOverride: Option<int>,
    validFrom: Option<int>,
    validUntil: Option<int>)

  datatype CodecError =
    | Truncated
    | InvalidDomain
    | InvalidNetwork
    | InvalidPaymentAsset
    | InvalidOptionalTag
    | TrailingBytes
    | InvalidLeaf
    | InvalidSnapshotVersion
    | InvalidScriptLength
    | InvalidAllocation
    | InvalidValidityBounds

  const MAXIMUM_UINT32 := 4_294_967_295
  const MAXIMUM_UINT64 := 18_446_744_073_709_551_615
  const MAXIMUM_UINT128 := 340_282_366_920_938_463_463_374_607_431_768_211_455
  const MINIMUM_SCRIPT_BYTE_LENGTH := 1
  const MAXIMUM_SCRIPT_BYTE_LENGTH := 10_000

  predicate IsUint128(n: int) {
    0 <= n <= MAXIMUM_UINT128
  }

  predicate OptionalWithin(n: Option<int>, maximum: int) {
    n.Some? ==> 0 <= n.value <= maximum
  }

  predicate BoundsOrdered(leaf: Leaf) {
    leaf.validFrom.Some? && leaf.validUntil.Some? ==> leaf.validFrom.value <= leaf.validUntil.value
  }

  /** The leaf schema. */
  predicate ValidLeaf(leaf: Leaf) {
    && |leaf.launchCommitment| == 32
    && 1 <= leaf.maxAllocation <= MAXIMUM_UINT128
    && (leaf.paymentAsset.Alkane? ==> IsUint128(leaf.paymentAsset.block) && IsUint128(leaf.paymentAsset.transaction))
    && |leaf.phaseId| == 16
    && OptionalWithin(leaf.priceOverride, MAXIMUM_UINT128)
    && MINIMUM_SCRIPT_BYTE_LENGTH <= |leaf.scriptPubKey| <= MAXIMUM_SCRIPT_BYTE_LENGTH
    && 1 <= leaf.snapshotVersion <= MAXIMUM_UINT32
    && OptionalWithin(leaf.validFrom, MAXIMUM_UINT64)
    && OptionalWithin(leaf.validUntil, MAXIMUM_UINT64)
    && BoundsOrdered(leaf)
  }

  /** Leaves whose fields fit the widths of the wire format, valid or not. */
  predicate FitsWire(leaf: Leaf) {
    && |leaf.launchCommitment| == 32
    && |leaf.phaseId| == 16
    && 0 <= leaf.snapshotVersion < Pow256(4)
    && |leaf.scriptPubKey| < Pow256(2)
    && 0 <= leaf.maxAllocation < Pow256(16)
    && (leaf.paymentAsset.Alkane? ==>
          0 <= leaf.paymentAsset.block < Pow256(16) && 0 <= leaf.paymentAsset.transaction < Pow256(16))
    && (leaf.priceOverride.Some? ==> 0 <= leaf.priceOverride.value < Pow256(16))
    && (leaf.validFrom.Some? ==> 0 <= leaf.validFrom.value < Pow256(8))
    && (leaf.validUntil.Some? ==> 0 <= leaf.validUntil.value < Pow256(8))
  }

  lemma ValidLeavesFit(leaf: Leaf)
    requires ValidLeaf(leaf)
    ensures FitsWire(leaf)
  {
    Widths();
  }

  // ----- The wire format -----

  /** "ADOR_ALLOWLIST_LEAF_V1" in ASCII. */
  const DOMAIN: bytes := [65, 68, 79, 82, 95, 65, 76, 76, 79, 87, 76, 73, 83, 84, 95, 76, 69, 65, 70, 95, 86, 49]

  function NetworkTag(network: Network): byte {
    match network
    case Bitcoin => 0
    case Testnet => 1
    case Signet => 2
    case Regtest => 3
  }

  function OptionalBytes(n: Option<int>, width: nat): bytes
    requires n.Some? ==> 0 <= n.value
  {
    match n
    case None => [0]
    case Some(value) => [1] + ToBytes(value, width)
  }

  function AssetBytes(asset: PaymentAsset): bytes
    requires asset.Alkane? ==> 0 <= asset.block && 0 <= asset.transaction
  {
    match asset
    case BitcoinAsset => [0]
    case Alkane(block, transaction) => [1] + (ToBytes(block, 16) + ToBytes(transaction, 16))
  }

  function Parts(leaf: Leaf): seq<bytes>
    requires FitsWire(leaf)
  {
    [ DOMAIN,
      [NetworkTag(leaf.network)],
      leaf.launchCommitment,
      leaf.phaseId,
      ToBytes(leaf.snapshotVersion, 4),
      ToBytes(|leaf.scriptPubKey|, 2),
      leaf.scriptPubKey,
      ToBytes(leaf.maxAllocation, 16),
      AssetBytes(leaf.paymentAsset),
      OptionalBytes(leaf.priceOverride, 16),
      OptionalBytes(leaf.validFrom, 8),
      OptionalBytes(leaf.validUntil, 8) ]
  }

  function Flatten(parts: seq<bytes>): bytes {
    if parts == [] then [] else parts[0] + Flatten(parts[1..])
  }

  function Wire(leaf: Leaf): bytes
    requires FitsWire(leaf)
  {
    Flatten(Parts(leaf))
  }

  // ----- Reading -----

  /** What a read yields: a value and the bytes after it, or why there is none. */
  datatype Parsed<+T> = Failed(error: CodecError) | Parsed(value: T, rest: bytes) {
    predicate IsFailure() {
      Failed?
    }

    function PropagateFailure<U>(): Parsed<U>
      requires Failed?
    {
      Failed(error)
    }

    function Extract(): (T, bytes)
      requires Parsed?
    {
      (value, rest)
    }
  }

  /** A reader that returned `r` and has `rest` left did what `p` says. */
  ghost predicate Follows<T>(p: Parsed<T>, r: Result<T, CodecError>, rest: bytes) {
    match p
    case Failed(e) => r == Err(e)
    case Parsed(value, after) => r == Ok(value) && rest == after
  }

  function Take(b: bytes, length: int): Parsed<bytes> {
    if length < 0 || length > |b| then Failed(Truncated) else Parsed(b[..length], b[length..])
  }

  function TakeByte(b: bytes): Parsed<byte> {
    if b == [] then Failed(Truncated) else Parsed(b[0], b[1..])
  }

  function TakeUnsigned(b: bytes, width: nat): Parsed<nat> {
    var (taken, rest) :- Take(b, width);
    Parsed(FromBytes(taken), rest)
  }

  function TakeOptional(b: bytes, width: nat): Parsed<Option<int>> {
    var (tag, rest) :- TakeByte(b);
    if tag == 0 then Parsed(None, rest)
    else if tag != 1 then Failed(InvalidOptionalTag)
    else
      var (value, rest) :- TakeUnsigned(rest, width);
      Parsed(Some(value), rest)
  }

  function TakeNetwork(b: bytes): Parsed<Network> {
    var (tag, rest) :- TakeByte(b);
    match tag
    case 0 => Parsed(Bitcoin, rest)
    case 1 => Parsed(Testnet, rest)
    case 2 => Parsed(Signet, rest)
    case 3 => Parsed(Regtest, rest)
    case _ => Failed(InvalidNetwork)
  }

  function TakeAsset(b: bytes): Parsed<PaymentAsset> {
    var (tag, rest) :- TakeByte(b);
    if tag == 0 then Parsed(BitcoinAsset, rest)
    else if tag != 1 then Failed(InvalidPaymentAsset)
    else
      var (block, rest) :- TakeUnsigned(rest, 16);
      var (transaction, rest) :- TakeUnsigned(rest, 16);
      Parsed(Alkane(block, transaction), rest)
  }

  function TakeDomain(b: bytes): Parsed<bytes> {
    var (domain, rest) :- Take(b, |DOMAIN|);
    if domain != DOMAIN then Failed(InvalidDomain) else Parsed(domain, rest)
  }

  /** All fields in wire order, with no check on their values. */
  function TakeFields(b: bytes): Parsed<Leaf> {
    var (_, b) :- TakeDomain(b);
    var (network, b) :- TakeNetwork(b);
    var (launchCommitment, b) :- Take(b, 32);
    var (phaseId, b) :- Take(b, 16);
    var (snapshotVersion, b) :- TakeUnsigned(b, 4);
    var (scriptLength, b) :- TakeUnsigned(b, 2);
    var (scriptPubKey, b) :- Take(b, scriptLength);
    var (maxAllocation, b) :- TakeUnsigned(b, 16);
    var (paymentAsset, b) :- TakeAsset(b);
    var (priceOverride, b) :- TakeOptional(b, 16);
    var (validFrom, b) :- TakeOptional(b, 8);
    var (validUntil, b) :- TakeOptional(b, 8);
    Parsed(Leaf(network, launchCommitment, phaseId, snapshotVersion, scriptPubKey, maxAllocation, paymentAsset,
                priceOverride, validFrom, validUntil), b)
  }

  // ----- Each read undoes the write of its part -----

  lemma TakeOfPart(part: bytes, rest: bytes)
    ensures Take(part + rest, |part|) == Parsed(part, rest)
  {
  }

  lemma TakeUnsignedOfPart(n: int, width: nat, rest: bytes)
    requires 0 <= n < Pow256(width)
    ensures TakeUnsigned(ToBytes(n, width) + rest, width) == Parsed(n, rest)
  {
    TakeOfPart(ToBytes(n, width), rest);
    FromToBytes(n, width);
  }

  lemma TakeByteOfPart(tag: byte, rest: bytes)
    ensures TakeByte([tag] + rest) == Parsed(tag, rest)
  {
  }

  lemma TakeOptionalOfPart(n: Option<int>, width: nat, rest: bytes)
    requires n.Some? ==> 0 <= n.value < Pow256(width)
    ensures TakeOptional(OptionalBytes(n, width) + rest, width) == Parsed(n, rest)
  {
    hide Pow256, ToBytes, TakeByte, TakeUnsigned;
    if n.Some? {
      var part := ToBytes(n.value, width);
      assert [1] + part + rest == [1] + (part + rest);
      TakeByteOfPart(1, part + rest);
      TakeUnsignedOfPart(n.value, width, rest);
    } else {
      TakeByteOfPart(0, rest);
    }
  }

  lemma TakeNetworkOfPart(network: Network, rest: bytes)
    ensures TakeNetwork([NetworkTag(network)] + rest) == Parsed(network, rest)
  {
  }

  lemma TakeAssetOfPart(asset: PaymentAsset, rest: bytes)
    requires asset.Alkane? ==> 0 <= asset.block < Pow256(16) && 0 <= asset.transaction < Pow256(16)
    ensures TakeAsset(AssetBytes(asset) + rest) == Parsed(asset, rest)
  {
    hide Pow256, ToBytes, TakeByte, TakeUnsigned;
    if asset.Alkane? {
      var block, transaction := ToBytes(asset.block, 16), ToBytes(asset.transaction, 16);
      assert [1] + (block + transaction) + rest == [1] + (block + (transaction + rest));
      TakeByteOfPart(1, block + (transaction + rest));
      TakeUnsignedOfPart(asset.block, 16, transaction + rest);
      TakeUnsignedOfPart(asset.transaction, 16, rest);
    } else {
      TakeByteOfPart(0, rest);
    }
  }

  // ----- Each part is determined by its read -----

  lemma PartOfTakeUnsigned(b: bytes, width: nat)
    requires TakeUnsigned(b, width).Parsed?
    ensures var p := TakeUnsigned(b, width);
            0 <= p.value < Pow256(width) && b == ToBytes(p.value, width) + p.rest
  {
    ToFromBytes(b[..width]);
  }

  lemma PartOfTakeByte(b: bytes)
    requires TakeByte(b).Parsed?
    ensures b == [TakeByte(b).value] + TakeByte(b).rest
  {
  }

  lemma PartOfTakeOptional(b: bytes, width: nat)
    requires TakeOptional(b, width).Parsed?
    ensures var p := TakeOptional(b, width);
            && (p.value.Some? ==> 0 <= p.value.value < Pow256(width))
            && b == OptionalBytes(p.value, width) + p.rest
  {
    hide Pow256, ToBytes, TakeByte, TakeUnsigned;
    PartOfTakeByte(b);
    if TakeByte(b).value == 1 {
      PartOfTakeUnsigned(TakeByte(b).rest, width);
      var p := TakeOptional(b, width);
      assert [1] + (ToBytes(p.value.value, width) + p.rest) == [1] + ToBytes(p.value.value, width) + p.rest;
    }
  }

  lemma PartOfTakeAsset(b: bytes)
    requires TakeAsset(b).Parsed?
    ensures var p := TakeAsset(b);
            && (p.value.Alkane? ==> 0 <= p.value.block < Pow256(16) && 0 <= p.value.transaction < Pow256(16))
            && b == AssetBytes(p.value) + p.rest
  {
    hide Pow256, ToBytes, TakeByte, TakeUnsigned;
    PartOfTakeByte(b);
    if TakeByte(b).value == 1 {
      var first := TakeUnsigned(TakeByte(b).rest, 16);
      PartOfTakeUnsigned(TakeByte(b).rest, 16);
      PartOfTakeUnsigned(first.rest, 16);
      AlkaneParts(ToBytes(first.value, 16), ToBytes(TakeUnsigned(first.rest, 16).value, 16),
                  TakeUnsigned(first.rest, 16).rest);
    }
  }

  lemma AlkaneParts(block: bytes, transaction: bytes, rest: bytes)
    ensures [1] + (block + (transaction + rest)) == [1] + (block + transaction) + rest
  {
  }

  // ----- Whole leaves -----

  /** The first of several parts, then the others, then whatever follows. */
  lemma FlattenStep(parts: seq<bytes>, k: nat, rest: bytes)
    requires k < |parts|
    ensures Flatten(parts[k..]) + rest == parts[k] + (Flatten(parts[k + 1..]) + rest)
  {
    assert parts[k..][1..] == parts[k + 1..];
    assert parts[k] + Flatten(parts[k + 1..]) + rest == parts[k] + (Flatten(parts[k + 1..]) + rest);
  }

  ghost function Remaining(leaf: Leaf, k: nat, rest: bytes): bytes
    requires FitsWire(leaf) && k <= 12
  {
    Flatten(Parts(leaf)[k..]) + rest
  }

  lemma RemainingSteps(leaf: Leaf, rest: bytes)
    requires FitsWire(leaf)
    ensures forall k | 0 <= k < 12 :: Remaining(leaf, k, rest) == Parts(leaf)[k] + Remaining(leaf, k + 1, rest)
    ensures Remaining(leaf, 12, rest) == rest
    ensures Remaining(leaf, 0, rest) == Wire(leaf) + rest
  {
    hide Flatten;
    forall k | 0 <= k < 12
      ensures Remaining(leaf, k, rest) == Parts(leaf)[k] + Remaining(leaf, k + 1, rest)
    {
      FlattenStep(Parts(leaf), k, rest);
    }
    FlattenNone();
    assert Parts(leaf)[12..] == [] && Parts(leaf)[0..] == Parts(leaf);
  }

  lemma FlattenNone()
    ensures Flatten([]) == []
  {
  }

  /** Reading the encoding of a leaf gives the leaf back, whatever follows it. */
  lemma TakeFieldsOfWire(leaf: Leaf, rest: bytes)
    requires FitsWire(leaf)
    ensures TakeFields(Wire(leaf) + rest) == Parsed(leaf, rest)
  {
    hide Flatten, Wire, Remaining, Pow256, ToBytes, FromBytes, TakeNetwork, TakeAsset, TakeOptional, TakeUnsigned;
    RemainingSteps(leaf, rest);
    TakeOfPart(DOMAIN, Remaining(leaf, 1, rest));
    TakeNetworkOfPart(leaf.network, Remaining(leaf, 2, rest));
    TakeOfPart(leaf.launchCommitment, Remaining(leaf, 3, rest));
    TakeOfPart(leaf.phaseId, Remaining(leaf, 4, rest));
    TakeUnsignedOfPart(leaf.snapshotVersion, 4, Remaining(leaf, 5, rest));
    TakeUnsignedOfPart(|leaf.scriptPubKey|, 2, Remaining(leaf, 6, rest));
    TakeOfPart(leaf.scriptPubKey, Remaining(leaf, 7, rest));
    TakeUnsignedOfPart(leaf.maxAllocation, 16, Remaining(leaf, 8, rest));
    TakeAssetOfPart(leaf.paymentAsset, Remaining(leaf, 9, rest));
    TakeOptionalOfPart(leaf.priceOverride, 16, Remaining(leaf, 10, rest));
    TakeOptionalOfPart(leaf.validFrom, 8, Remaining(leaf, 11, rest));
    TakeOptionalOfPart(leaf.validUntil, 8, Remaining(leaf, 12, rest));
  }

  lemma PartOfTake(b: bytes, length: int)
    requires Take(b, length).Parsed?
    ensures var p := Take(b, length); |p.value| == length && b == p.value + p.rest
  {
  }

  lemma PartOfTakeNetwork(b: bytes)
    requires TakeNetwork(b).Parsed?
    ensures var p := TakeNetwork(b); b == [NetworkTag(p.value)] + p.rest
  {
  }

  /** What is left of the bytes after each field. */
  lemma TailsOfTakeFields(b: bytes)
    returns (b1: bytes, b2: bytes, b3: bytes, b4: bytes, b5: bytes, b6: bytes, b7: bytes, b8: bytes, b9: bytes, b10: bytes,
             b11: bytes)
    requires TakeFields(b).Parsed?
    ensures var (leaf, rest) := (TakeFields(b).value, TakeFields(b).rest);
            && FitsWire(leaf)
            && b == DOMAIN + b1
            && b1 == [NetworkTag(leaf.network)] + b2
            && b2 == leaf.launchCommitment + b3
            && b3 == leaf.phaseId + b4
            && b4 == ToBytes(leaf.snapshotVersion, 4) + b5
            && b5 == ToBytes(|leaf.scriptPubKey|, 2) + b6
            && b6 == leaf.scriptPubKey + b7
            && b7 == ToBytes(leaf.maxAllocation, 16) + b8
            && b8 == AssetBytes(leaf.paymentAsset) + b9
            && b9 == OptionalBytes(leaf.priceOverride, 16) + b10
            && b10 == OptionalBytes(leaf.validFrom, 8) + b11
            && b11 == OptionalBytes(leaf.validUntil, 8) + rest
  {
    hide Pow256, ToBytes, FromBytes, Take, TakeNetwork, TakeAsset, TakeOptional, TakeUnsigned;
    PartOfTake(b, |DOMAIN|);
    b1 := Take(b, |DOMAIN|).rest;
    PartOfTakeNetwork(b1);
    b2 := TakeNetwork(b1).rest;
    PartOfTake(b2, 32);
    b3 := Take(b2, 32).rest;
    PartOfTake(b3, 16);
    b4 := Take(b3, 16).rest;
    PartOfTakeUnsigned(b4, 4);
    b5 := TakeUnsigned(b4, 4).rest;
    PartOfTakeUnsigned(b5, 2);
    b6 := TakeUnsigned(b5, 2).rest;
    PartOfTake(b6, TakeUnsigned(b5, 2).value);
    b7 := Take(b6, TakeUnsigned(b5, 2).value).rest;
    PartOfTakeUnsigned(b7, 16);
    b8 := TakeUnsigned(b7, 16).rest;
    PartOfTakeAsset(b8);
    b9 := TakeAsset(b8).rest;
    PartOfTakeOptional(b9, 16);
    b10 := TakeOptional(b9, 16).rest;
    PartOfTakeOptional(b10, 8);
    b11 := TakeOptional(b10, 8).rest;
    PartOfTakeOptional(b11, 8);
  }

  /** Tails that lose the parts of a leaf one after the other are those of its encoding. */
  lemma TailsOfWire(leaf: Leaf, b: bytes, b1: bytes, b2: bytes, b3: bytes, b4: bytes, b5: bytes, b6: bytes, b7: bytes,
                    b8: bytes, b9: bytes, b10: bytes, b11: bytes, rest: bytes)
    requires FitsWire(leaf)
    requires && b == DOMAIN + b1
             && b1 == [NetworkTag(leaf.network)] + b2
             && b2 == leaf.launchCommitment + b3
             && b3 == leaf.phaseId + b4
             && b4 == ToBytes(leaf.snapshotVersion, 4) + b5
             && b5 == ToBytes(|leaf.scriptPubKey|, 2) + b6
             && b6 == leaf.scriptPubKey + b7
             && b7 == ToBytes(leaf.maxAllocation, 16) + b8
             && b8 == AssetBytes(leaf.paymentAsset) + b9
             && b9 == OptionalBytes(leaf.priceOverride, 16) + b10
             && b10 == OptionalBytes(leaf.validFrom, 8) + b11
             && b11 == OptionalBytes(leaf.validUntil, 8) + rest
    ensures b == Wire(leaf) + rest
  {
    hide Flatten, Wire, Remaining, Pow256, ToBytes, AssetBytes, OptionalBytes, NetworkTag;
    RemainingSteps(leaf, rest);
    assert b11 == Remaining(leaf, 11, rest);
    assert b10 == Remaining(leaf, 10, rest);
    assert b9 == Remaining(leaf, 9, rest);
    assert b8 == Remaining(leaf, 8, rest);
    assert b7 == Remaining(leaf, 7, rest);
    assert b6 == Remaining(leaf, 6, rest);
    assert b5 == Remaining(leaf, 5, rest);
    assert b4 == Remaining(leaf, 4, rest);
    assert b3 == Remaining(leaf, 3, rest);
    assert b2 == Remaining(leaf, 2, rest);
    assert b1 == Remaining(leaf, 1, rest);
  }

  /** Whatever bytes are read as a leaf are that leaf's encoding, followed by the bytes left over. */
  lemma WireOfTakeFields(b: bytes)
    requires TakeFields(b).Parsed?
    ensures FitsWire(TakeFields(b).value)
    ensures b == Wire(TakeFields(b).value) + TakeFields(b).rest
  {
    hide TakeFields, Wire, ToBytes, AssetBytes, OptionalBytes, NetworkTag, Pow256;
    var b1, b2, b3, b4, b5, b6, b7, b8, b9, b10, b11 := TailsOfTakeFields(b);
    TailsOfWire(TakeFields(b).value, b, b1, b2, b3, b4, b5, b6, b7, b8, b9, b10, b11, TakeFields(b).rest);
  }

  lemma {:induction false} FlattenLength(parts: seq<bytes>)
    ensures |Flatten(parts)| == TotalLength(parts)
  {
    if parts != [] {
      FlattenLength(parts[1..]);
    }
  }

  function TotalLength(parts: seq<bytes>): nat {
    if parts == [] then 0 else |parts[0]| + TotalLength(parts[1..])
  }

  /** No valid leaf is encoded in fewer than 98 bytes. */
  lemma MinimumEncodingLength(leaf: Leaf)
    requires ValidLeaf(leaf)
    ensures FitsWire(leaf) && |Wire(leaf)| >= 98
  {
    hide Flatten, Wire, Remaining, Pow256, ToBytes;
    ValidLeavesFit(leaf);
    RemainingSteps(leaf, []);
    var parts := Parts(leaf);
    assert |parts[0]| == 22 && |parts[6]| >= 1 && |parts[8]| >= 1 && |parts[9]| >= 1 && |parts[10]| >= 1 && |parts[11]| >= 1;
    assert forall k | 0 <= k < 12 :: |Remaining(leaf, k, [])| == |parts[k]| + |Remaining(leaf, k + 1, [])|;
    assert |Remaining(leaf, 8, [])| >= 4 by {
      assert |Remaining(leaf, 11, [])| >= 1;
      assert |Remaining(leaf, 10, [])| >= 2;
      assert |Remaining(leaf, 9, [])| >= 3;
    }
    assert |Remaining(leaf, 7, [])| >= 20;
    assert |Remaining(leaf, 6, [])| >= 21;
    assert |Remaining(leaf, 5, [])| >= 23;
    assert |Remaining(leaf, 4, [])| >= 27;
    assert |Remaining(leaf, 3, [])| >= 43;
    assert |Remaining(leaf, 2, [])| >= 75;
    assert |Remaining(leaf, 1, [])| >= 76;
    assert |Remaining(leaf, 0, [])| >= 98;
  }
}
