/**
 Where each field of an allowlist leaf stands in its encoding, when either decoder answers which error, when a proof is
 refused, and which of two hashes a Merkle node begins with.
 */
module AllowlistLaws {
  import opened Common
  import opened LittleEndian
  import opened AllowlistLeaf
  import opened TypeScriptCodec
  import opened AllowlistMerkle
  import RustCodec

  // ----- Digits -----

  /** Little-endian: byte `k` is the digit of 256 to the power of `k`. */
  lemma {:induction false} DigitAt(value: nat, width: nat, k: nat)
    requires k < width
    ensures ToBytes(value, width)[k] == value / Pow256(k) % 256
  {
    if k > 0 {
      DigitAt(value / 256, width - 1, k - 1);
      DividedTwice(value, Pow256(k - 1));
    }
  }

  lemma DividedTwice(value: nat, p: nat)
    requires p > 0
    ensures value / 256 / p == value / (256 * p)
  {
    var q := value / 256 / p;
    var r := value / 256 - q * p;
    assert 0 <= r < p;
    var s := value - 256 * (q * p + r);
    assert value == 256 * p * q + (256 * r + s) by {
      assert 256 * (q * p + r) == 256 * p * q + 256 * r;
    }
    QuotientIs(value, 256 * p, q, 256 * r + s);
  }

  lemma QuotientIs(value: nat, d: nat, q: nat, r: nat)
    requires d > 0 && value == d * q + r && r < d
    ensures value / d == q
  {
    Multiplied(d, value / d, q);
    Multiplied(d, q, value / d);
  }

  lemma Multiplied(d: nat, a: int, b: int)
    ensures a < b ==> d * (a + 1) <= d * b
  {
  }

  // ----- Where the fields stand -----

  const DOMAIN_TEXT := "ADOR_ALLOWLIST_LEAF_V1"

  predicate HasDomain(b: bytes) {
    |b| >= 22 && forall k | 0 <= k < 22 :: b[k] == DOMAIN_TEXT[k] as int
  }

  predicate HasNumber(b: bytes, at: nat, width: nat, value: int) {
    |b| >= at + width && FromBytes(b[at..at + width]) == value
  }

  predicate HasBytes(b: bytes, at: nat, content: bytes) {
    |b| >= at + |content| && b[at..at + |content|] == content
  }

  predicate HasOptional(b: bytes, at: nat, width: nat, value: Option<int>) {
    && |b| > at
    && match value
       case None => b[at] == 0
       case Some(n) => b[at] == 1 && HasNumber(b, at + 1, width, n)
  }

  predicate HasAsset(b: bytes, at: nat, asset: PaymentAsset) {
    && |b| > at
    && match asset
       case BitcoinAsset => b[at] == 0
       case Alkane(block, transaction) =>
         b[at] == 1 && HasNumber(b, at + 1, 16, block) && HasNumber(b, at + 17, 16, transaction)
  }

  function AfterOptional(at: nat, width: nat, value: Option<int>): nat {
    if value == None then at + 1 else at + 1 + width
  }

  predicate HasTag(b: bytes, at: nat, network: Network) {
    && |b| > at
    && b[at] == if network == Bitcoin then 0 else if network == Testnet then 1 else if network == Signet then 2 else 3
  }

  /** The fields of an encoding whose offsets are always the same. */
  ghost predicate FixedFields(b: bytes, leaf: Leaf) {
    && HasDomain(b)
    && HasTag(b, 22, leaf.network)
    && HasBytes(b, 23, leaf.launchCommitment)
    && HasBytes(b, 55, leaf.phaseId)
    && HasNumber(b, 71, 4, leaf.snapshotVersion)
    && HasNumber(b, 75, 2, |leaf.scriptPubKey|)
    && HasBytes(b, 77, leaf.scriptPubKey)
  }

  /** The others: the allocation after the script, the asset, the price override at `p`, and the two bounds after it. */
  ghost predicate OtherFields(b: bytes, leaf: Leaf) {
    var n := 77 + |leaf.scriptPubKey|;
    var p := n + if leaf.paymentAsset.BitcoinAsset? then 17 else 49;
    var from := AfterOptional(p, 16, leaf.priceOverride);
    var until := AfterOptional(from, 8, leaf.validFrom);
    && HasNumber(b, n, 16, leaf.maxAllocation)
    && HasAsset(b, n + 16, leaf.paymentAsset)
    && HasOptional(b, p, 16, leaf.priceOverride)
    && HasOptional(b, from, 8, leaf.validFrom)
    && HasOptional(b, until, 8, leaf.validUntil)
    && |b| == AfterOptional(until, 8, leaf.validUntil)
  }

  lemma PartStands(before: bytes, part: bytes, after: bytes)
    ensures HasBytes(before + (part + after), |before|, part)
  {
    var b := before + (part + after);
    assert b[|before|..|before| + |part|] == part;
  }

  lemma NumberStands(b: bytes, at: nat, value: nat, width: nat)
    requires value < Pow256(width) && HasBytes(b, at, ToBytes(value, width))
    ensures HasNumber(b, at, width, value)
  {
    FromToBytes(value, width);
  }

  lemma OptionalStands(b: bytes, at: nat, value: Option<int>, width: nat)
    requires value.Some? ==> 0 <= value.value < Pow256(width)
    requires HasBytes(b, at, OptionalBytes(value, width))
    ensures HasOptional(b, at, width, value)
  {
    var part := OptionalBytes(value, width);
    assert b[at] == b[at..at + |part|][0];
    if value.Some? {
      var digits := ToBytes(value.value, width);
      assert b[at + 1..at + 1 + width] == b[at..at + |part|][1..] == digits;
      NumberStands(b, at + 1, value.value, width);
    }
  }

  lemma AssetStands(b: bytes, at: nat, asset: PaymentAsset)
    requires asset.Alkane? ==> 0 <= asset.block < Pow256(16) && 0 <= asset.transaction < Pow256(16)
    requires HasBytes(b, at, AssetBytes(asset))
    ensures HasAsset(b, at, asset)
  {
    hide Pow256, ToBytes, FromBytes, HasNumber;
    match asset {
      case BitcoinAsset => assert b[at] == b[at..at + 1][0];
      case Alkane(block, transaction) =>
        ThreePieces(b, at, ToBytes(block, 16), ToBytes(transaction, 16));
        hide HasBytes;
        NumberStands(b, at + 1, block, 16);
        NumberStands(b, at + 17, transaction, 16);
    }
  }

  lemma ThreePieces(b: bytes, at: nat, one: bytes, other: bytes)
    requires |one| == |other| == 16 && HasBytes(b, at, [1] + (one + other))
    ensures |b| >= at + 33 && b[at] == 1 && HasBytes(b, at + 1, one) && HasBytes(b, at + 17, other)
  {
    var piece := b[at..at + 33];
    assert piece[0] == 1 && piece[1..17] == one && piece[17..33] == other;
    assert b[at] == piece[0] && b[at + 1..at + 17] == piece[1..17] && b[at + 17..at + 33] == piece[17..33];
  }

  lemma {:induction false} PartsStand(parts: seq<bytes>, k: nat)
    requires k < |parts|
    ensures HasBytes(Flatten(parts), TotalLength(parts[..k]), parts[k])
  {
    if k == 0 {
      PartStands([], parts[0], Flatten(parts[1..]));
    } else {
      PartsStand(parts[1..], k - 1);
      assert parts[1..][..k - 1] == parts[..k][1..];
      var (b, at, part) := (Flatten(parts[1..]), TotalLength(parts[1..][..k - 1]), parts[k]);
      assert Flatten(parts)[|parts[0]| + at..|parts[0]| + at + |part|] == b[at..at + |part|];
    }
  }

  lemma NextOffset(parts: seq<bytes>, k: nat)
    requires k < |parts|
    ensures TotalLength(parts[..k + 1]) == TotalLength(parts[..k]) + |parts[k]|
  {
    TotalLengthSplit(parts[..k + 1], k);
    assert parts[..k + 1][..k] == parts[..k] && parts[..k + 1][k..] == [parts[k]];
  }

  ghost function Offset(parts: seq<bytes>, k: nat): nat
    requires k <= |parts|
  {
    TotalLength(parts[..k])
  }

  lemma Offsets(parts: seq<bytes>)
    requires |parts| == 12
    ensures Offset(parts, 0) == 0 && Offset(parts, 12) == |Flatten(parts)|
    ensures forall k | 0 <= k < 12 :: Offset(parts, k + 1) == Offset(parts, k) + |parts[k]|
    ensures forall k | 0 <= k < 12 :: HasBytes(Flatten(parts), Offset(parts, k), parts[k])
  {
    forall k | 0 <= k < 12
      ensures Offset(parts, k + 1) == Offset(parts, k) + |parts[k]|
      ensures HasBytes(Flatten(parts), Offset(parts, k), parts[k])
    {
      NextOffset(parts, k);
      PartsStand(parts, k);
    }
    FlattenLength(parts);
    assert parts[..12] == parts && parts[..0] == [];
  }

  /** The parts of a leaf, at the offsets that the lengths before them add up to. */
  lemma FirstPartsStand(leaf: Leaf)
    requires FitsWire(leaf)
    ensures var b := Wire(leaf);
            && HasBytes(b, 0, DOMAIN) && HasBytes(b, 22, [NetworkTag(leaf.network)])
            && HasBytes(b, 23, leaf.launchCommitment) && HasBytes(b, 55, leaf.phaseId)
            && HasBytes(b, 71, ToBytes(leaf.snapshotVersion, 4)) && HasBytes(b, 75, ToBytes(|leaf.scriptPubKey|, 2))
            && HasBytes(b, 77, leaf.scriptPubKey)
    ensures Offset(Parts(leaf), 7) == 77 + |leaf.scriptPubKey|
  {
    var parts := Parts(leaf);
    Offsets(parts);
    hide Flatten, Offset, ToBytes, Pow256, AssetBytes, OptionalBytes, HasBytes, NetworkTag;
    assert Offset(parts, 0) == 0 && Offset(parts, 1) == 22 && Offset(parts, 2) == 23 && Offset(parts, 3) == 55;
    assert Offset(parts, 4) == 71 && Offset(parts, 5) == 75 && Offset(parts, 6) == 77;
  }

  /** Where the parts of varying length stand. */
  lemma LastOffsets(leaf: Leaf)
    requires FitsWire(leaf)
    ensures var parts, n := Parts(leaf), 77 + |leaf.scriptPubKey|;
            && Offset(parts, 7) == n && Offset(parts, 8) == n + 16
            && Offset(parts, 9) == n + (if leaf.paymentAsset.BitcoinAsset? then 17 else 49)
            && Offset(parts, 10) == AfterOptional(Offset(parts, 9), 16, leaf.priceOverride)
            && Offset(parts, 11) == AfterOptional(Offset(parts, 10), 8, leaf.validFrom)
            && |Wire(leaf)| == AfterOptional(Offset(parts, 11), 8, leaf.validUntil)
  {
    var parts := Parts(leaf);
    FirstPartsStand(leaf);
    AssetLength(leaf.paymentAsset);
    OptionalLength(leaf.priceOverride, 16);
    OptionalLength(leaf.validFrom, 8);
    OptionalLength(leaf.validUntil, 8);
    Offsets(parts);
    hide Flatten, Offset, ToBytes, Pow256, AssetBytes, OptionalBytes, HasBytes, NetworkTag;
    assert Offset(parts, 8) == Offset(parts, 7) + 16;
    assert Offset(parts, 9) == Offset(parts, 8) + |parts[8]|;
    assert Offset(parts, 10) == Offset(parts, 9) + |parts[9]|;
    assert Offset(parts, 11) == Offset(parts, 10) + |parts[10]|;
    assert Offset(parts, 12) == Offset(parts, 11) + |parts[11]|;
  }

  lemma LastPartsStand(leaf: Leaf)
    requires FitsWire(leaf)
    ensures var b, parts := Wire(leaf), Parts(leaf);
            && HasBytes(b, Offset(parts, 7), ToBytes(leaf.maxAllocation, 16))
            && HasBytes(b, Offset(parts, 8), AssetBytes(leaf.paymentAsset))
            && HasBytes(b, Offset(parts, 9), OptionalBytes(leaf.priceOverride, 16))
            && HasBytes(b, Offset(parts, 10), OptionalBytes(leaf.validFrom, 8))
            && HasBytes(b, Offset(parts, 11), OptionalBytes(leaf.validUntil, 8))
  {
    var parts := Parts(leaf);
    Offsets(parts);
    hide Flatten, Offset, ToBytes, Pow256, AssetBytes, OptionalBytes, HasBytes, NetworkTag;
    assert HasBytes(Flatten(parts), Offset(parts, 7), parts[7]) && HasBytes(Flatten(parts), Offset(parts, 8), parts[8]);
    assert HasBytes(Flatten(parts), Offset(parts, 9), parts[9]) && HasBytes(Flatten(parts), Offset(parts, 10), parts[10]);
    assert HasBytes(Flatten(parts), Offset(parts, 11), parts[11]);
  }

  lemma FixedFieldsStand(leaf: Leaf)
    requires FitsWire(leaf)
    ensures FixedFields(Wire(leaf), leaf)
  {
    FirstPartsStand(leaf);
    var b := Wire(leaf);
    hide Wire, Offset, ToBytes, Pow256, HasNumber, HasDomain, HasTag, HasBytes, NetworkTag;
    DomainStands(b);
    TagStands(b, 22, leaf.network);
    NumberStands(b, 71, leaf.snapshotVersion, 4);
    NumberStands(b, 75, |leaf.scriptPubKey|, 2);
  }

  lemma OtherFieldsStand(leaf: Leaf)
    requires FitsWire(leaf)
    ensures OtherFields(Wire(leaf), leaf)
  {
    LastPartsStand(leaf);
    LastOffsets(leaf);
    var b, parts := Wire(leaf), Parts(leaf);
    hide Wire, Parts, Offset, ToBytes, Pow256, AssetBytes, OptionalBytes, HasAsset, HasOptional, HasNumber, HasBytes,
         AfterOptional;
    NumberStands(b, Offset(parts, 7), leaf.maxAllocation, 16);
    AssetStands(b, Offset(parts, 8), leaf.paymentAsset);
    OptionalStands(b, Offset(parts, 9), leaf.priceOverride, 16);
    OptionalStands(b, Offset(parts, 10), leaf.validFrom, 8);
    OptionalStands(b, Offset(parts, 11), leaf.validUntil, 8);
  }

  /** Every field of a leaf stands in its encoding where the format puts it, and nothing follows the last. */
  lemma EncodingIsLaidOut(leaf: Leaf)
    requires ValidLeaf(leaf)
    ensures Encoded(leaf).Ok? && FixedFields(Encoded(leaf).value, leaf) && OtherFields(Encoded(leaf).value, leaf)
  {
    ValidLeavesFit(leaf);
    FixedFieldsStand(leaf);
    OtherFieldsStand(leaf);
    hide FixedFields, OtherFields, Wire, FitsWire, ValidLeaf;
  }

  lemma TagStands(b: bytes, at: nat, network: Network)
    requires HasBytes(b, at, [NetworkTag(network)])
    ensures HasTag(b, at, network)
  {
    assert b[at] == b[at..at + 1][0];
  }

  lemma DomainStands(b: bytes)
    requires HasBytes(b, 0, DOMAIN)
    ensures HasDomain(b)
  {
    assert b[..22] == DOMAIN;
    assert forall k | 0 <= k < 22 :: b[k] == b[..22][k];
    assert forall k | 0 <= k < 22 :: DOMAIN[k] == DOMAIN_TEXT[k] as int;
  }

  lemma AssetLength(asset: PaymentAsset)
    requires asset.Alkane? ==> 0 <= asset.block && 0 <= asset.transaction
    ensures |AssetBytes(asset)| == if asset.BitcoinAsset? then 1 else 33
  {
  }

  lemma OptionalLength(n: Option<int>, width: nat)
    requires n.Some? ==> 0 <= n.value
    ensures |OptionalBytes(n, width)| == if n == None then 1 else 1 + width
  {
  }

  /** The leaves that have an encoding, with every bound in figures. */
  lemma EncodesIff(leaf: Leaf)
    ensures Encoded(leaf).Ok? <==>
            && |leaf.launchCommitment| == 32 && |leaf.phaseId| == 16
            && 1 <= leaf.snapshotVersion && leaf.snapshotVersion < 0x1_0000_0000
            && 1 <= |leaf.scriptPubKey| && |leaf.scriptPubKey| <= 10_000
            && 1 <= leaf.maxAllocation && leaf.maxAllocation < 0x1_0000_0000_0000_0000_0000_0000_0000_0000
            && (leaf.paymentAsset.Alkane? ==>
                  && 0 <= leaf.paymentAsset.block && leaf.paymentAsset.block < 0x1_0000_0000_0000_0000_0000_0000_0000_0000
                  && 0 <= leaf.paymentAsset.transaction
                  && leaf.paymentAsset.transaction < 0x1_0000_0000_0000_0000_0000_0000_0000_0000)
            && (leaf.priceOverride.Some? ==>
                  0 <= leaf.priceOverride.value && leaf.priceOverride.value < 0x1_0000_0000_0000_0000_0000_0000_0000_0000)
            && (leaf.validFrom.Some? ==> 0 <= leaf.validFrom.value && leaf.validFrom.value < 0x1_0000_0000_0000_0000)
            && (leaf.validUntil.Some? ==> 0 <= leaf.validUntil.value && leaf.validUntil.value < 0x1_0000_0000_0000_0000)
            && (leaf.validFrom.Some? && leaf.validUntil.Some? ==> leaf.validFrom.value <= leaf.validUntil.value)
    ensures Encoded(leaf).Err? ==> Encoded(leaf).error == InvalidLeaf
  {
    hide Wire, Pow256;
  }

  // ----- What the decoder finds wrong -----

  /** What precedes the asset is all there, under the domain and a known network. */
  predicate ReachesAsset(b: bytes) {
    HasDomain(b) && |b| >= 77 && b[22] <= 3 && |b| >= 93 + FromBytes(b[75..77])
  }

  function AssetOffset(b: bytes): nat
    requires |b| >= 77
  {
    93 + FromBytes(b[75..77])
  }

  /** The tag at this offset stands for no value or for one. */
  predicate Tagged(b: bytes, at: nat) {
    |b| > at && b[at] <= 1
  }

  predicate Mistagged(b: bytes, at: nat) {
    |b| > at && b[at] > 1
  }

  /** Behind a tag and the value, if any, that it announces. */
  function AfterTagged(b: bytes, at: nat, width: nat): nat
    requires Tagged(b, at)
  {
    if b[at] == 0 then at + 1 else at + 1 + width
  }

  predicate Passes(b: bytes, at: nat, width: nat) {
    Tagged(b, at) && |b| >= AfterTagged(b, at, width)
  }

  lemma TakeAt(b: bytes, at: nat, length: nat)
    requires at <= |b|
    ensures Take(b[at..], length) ==
            if |b| >= at + length then Parsed(b[at..at + length], b[at + length..]) else Failed(Truncated)
  {
    if |b| >= at + length {
      assert b[at..][..length] == b[at..at + length] && b[at..][length..] == b[at + length..];
    }
  }

  lemma TakeUnsignedAt(b: bytes, at: nat, width: nat)
    requires at <= |b|
    ensures TakeUnsigned(b[at..], width) ==
            if |b| >= at + width then Parsed(FromBytes(b[at..at + width]), b[at + width..]) else Failed(Truncated)
  {
    TakeAt(b, at, width);
    hide Take, FromBytes;
  }

  lemma TakeByteAt(b: bytes, at: nat)
    requires at <= |b|
    ensures TakeByte(b[at..]) == if |b| > at then Parsed(b[at], b[at + 1..]) else Failed(Truncated)
  {
    if |b| > at {
      assert b[at..][1..] == b[at + 1..];
    }
  }

  lemma TakeOptionalAt(b: bytes, at: nat, width: nat)
    requires at <= |b|
    ensures var p := TakeOptional(b[at..], width);
            if Mistagged(b, at) then p == Failed(InvalidOptionalTag)
            else if !Passes(b, at, width) then p == Failed(Truncated)
            else p.Parsed? && p.rest == b[AfterTagged(b, at, width)..]
  {
    TakeByteAt(b, at);
    if |b| > at {
      TakeUnsignedAt(b, at + 1, width);
    }
    hide TakeByte, TakeUnsigned, FromBytes;
  }

  lemma TakeAssetAt(b: bytes, at: nat)
    requires at <= |b|
    ensures var p := TakeAsset(b[at..]);
            if Mistagged(b, at) then p == Failed(InvalidPaymentAsset)
            else if !Passes(b, at, 32) then p == Failed(Truncated)
            else p.Parsed? && p.rest == b[AfterTagged(b, at, 32)..]
  {
    TakeByteAt(b, at);
    if |b| > at {
      TakeUnsignedAt(b, at + 1, 16);
      if |b| >= at + 17 {
        TakeUnsignedAt(b, at + 17, 16);
      }
    }
    hide TakeByte, TakeUnsigned, FromBytes;
  }

  lemma TakeDomainAt(b: bytes)
    ensures var p := TakeDomain(b);
            if |b| < 22 then p == Failed(Truncated)
            else if !HasDomain(b) then p == Failed(InvalidDomain)
            else p.Parsed? && p.rest == b[22..]
  {
    assert forall k | 0 <= k < 22 :: DOMAIN[k] == DOMAIN_TEXT[k] as int;
    if |b| >= 22 {
      assert forall k | 0 <= k < 22 :: b[k] == b[..22][k];
      if HasDomain(b) {
        assert b[..22] == DOMAIN;
      }
    }
  }

  lemma TakeNetworkAt(b: bytes)
    requires |b| >= 22
    ensures var p := TakeNetwork(b[22..]);
            if |b| == 22 then p == Failed(Truncated)
            else if b[22] > 3 then p == Failed(InvalidNetwork)
            else p.Parsed? && p.rest == b[23..]
  {
    TakeByteAt(b, 22);
    hide TakeByte;
  }

  /** Up to the asset: which error is found, or that none is. */
  lemma TakeFirstFields(b: bytes)
    requires |b| >= 22
    ensures !HasDomain(b) ==> TakeFields(b) == Failed(InvalidDomain)
    ensures HasDomain(b) && |b| > 22 && b[22] > 3 ==> TakeFields(b) == Failed(InvalidNetwork)
    ensures HasDomain(b) && (|b| > 22 ==> b[22] <= 3) && !ReachesAsset(b) ==> TakeFields(b) == Failed(Truncated)
  {
    TakeDomainAt(b);
    TakeNetworkAt(b);
    if |b| >= 23 {
      TakeAt(b, 23, 32);
    }
    if |b| >= 55 {
      TakeAt(b, 55, 16);
    }
    if |b| >= 71 {
      TakeUnsignedAt(b, 71, 4);
    }
    if |b| >= 75 {
      TakeUnsignedAt(b, 75, 2);
    }
    if |b| >= 77 {
      var n := FromBytes(b[75..77]);
      TakeAt(b, 77, n);
      if |b| >= 77 + n {
        TakeUnsignedAt(b, 77 + n, 16);
      }
    }
    hide TakeDomain, TakeNetwork, Take, TakeUnsigned, TakeAsset, TakeOptional, HasDomain, FromBytes;
  }

  predicate ReachesOptionals(b: bytes) {
    ReachesAsset(b) && Passes(b, AssetOffset(b), 32)
  }

  /** One of the three optional fields has a tag that stands for nothing, and those before it are there. */
  predicate OptionalMistagged(b: bytes) {
    && ReachesOptionals(b)
    && var price := AfterTagged(b, AssetOffset(b), 32);
    || Mistagged(b, price)
    || (Passes(b, price, 16) &&
        var from := AfterTagged(b, price, 16);
        || Mistagged(b, from)
        || (Passes(b, from, 8) && Mistagged(b, AfterTagged(b, from, 8))))
  }

  /** All fields are there, whatever their values. */
  predicate HasAllFields(b: bytes) {
    && ReachesOptionals(b)
    && var price := AfterTagged(b, AssetOffset(b), 32);
    && Passes(b, price, 16)
    && var from := AfterTagged(b, price, 16);
    && Passes(b, from, 8)
    && Passes(b, AfterTagged(b, from, 8), 8)
  }

  /** The fields from the asset on. */
  function TakeOthers(b: bytes): Parsed<()> {
    var (_, b) :- TakeAsset(b);
    var (_, b) :- TakeOptional(b, 16);
    var (_, b) :- TakeOptional(b, 8);
    var (_, b) :- TakeOptional(b, 8);
    Parsed((), b)
  }

  lemma TakeOthersAt(b: bytes)
    requires ReachesAsset(b)
    ensures var p := TakeOthers(b[AssetOffset(b)..]);
            && (Mistagged(b, AssetOffset(b)) <==> p == Failed(InvalidPaymentAsset))
            && (OptionalMistagged(b) <==> p == Failed(InvalidOptionalTag))
            && (HasAllFields(b) <==> p.Parsed?)
            && (p.Failed? ==> p.error in {InvalidPaymentAsset, InvalidOptionalTag, Truncated})
  {
    var at := AssetOffset(b);
    TakeAssetAt(b, at);
    if Passes(b, at, 32) {
      var price := AfterTagged(b, at, 32);
      TakeOptionalAt(b, price, 16);
      if Passes(b, price, 16) {
        var from := AfterTagged(b, price, 16);
        TakeOptionalAt(b, from, 8);
        if Passes(b, from, 8) {
          TakeOptionalAt(b, AfterTagged(b, from, 8), 8);
        }
      }
    }
    hide TakeAsset, TakeOptional, HasDomain, FromBytes, AssetOffset;
  }

  /** Reads that succeed one after the other, up to the asset. */
  lemma ReadsInARow(b: bytes, b1: bytes, b2: bytes, b3: bytes, b4: bytes, b5: bytes, b6: bytes, b7: bytes, b8: bytes, n: nat)
    requires TakeDomain(b).Parsed? && TakeDomain(b).rest == b1
    requires TakeNetwork(b1).Parsed? && TakeNetwork(b1).rest == b2
    requires Take(b2, 32).Parsed? && Take(b2, 32).rest == b3
    requires Take(b3, 16).Parsed? && Take(b3, 16).rest == b4
    requires TakeUnsigned(b4, 4).Parsed? && TakeUnsigned(b4, 4).rest == b5
    requires TakeUnsigned(b5, 2) == Parsed(n, b6)
    requires Take(b6, n).Parsed? && Take(b6, n).rest == b7
    requires TakeUnsigned(b7, 16).Parsed? && TakeUnsigned(b7, 16).rest == b8
    ensures var (p, others) := (TakeFields(b), TakeOthers(b8));
            && (p.Failed? <==> others.Failed?) && (p.Failed? ==> p.error == others.error)
  {
    hide TakeDomain, TakeNetwork, Take, TakeUnsigned, TakeAsset, TakeOptional;
  }

  lemma AssetIsReached(b: bytes)
    requires ReachesAsset(b)
    ensures HasDomain(b) && |b| >= 77 && b[22] <= 3 && |b| >= AssetOffset(b) == 93 + FromBytes(b[75..77])
  {
    hide HasDomain, FromBytes;
  }

  lemma TakeFieldsTakesOthers(b: bytes)
    requires ReachesAsset(b)
    ensures var (p, others) := (TakeFields(b), TakeOthers(b[AssetOffset(b)..]));
            && (p.Failed? <==> others.Failed?) && (p.Failed? ==> p.error == others.error)
  {
    hide *;
    AssetIsReached(b);
    var n := FromBytes(b[75..77]);
    TakeDomainAt(b);
    TakeNetworkAt(b);
    TakeAt(b, 23, 32);
    TakeAt(b, 55, 16);
    TakeUnsignedAt(b, 71, 4);
    TakeUnsignedAt(b, 75, 2);
    TakeAt(b, 77, n);
    TakeUnsignedAt(b, 77 + n, 16);
    ReadsInARow(b, b[22..], b[23..], b[55..], b[71..], b[75..], b[77..], b[77 + n..], b[93 + n..], n);
  }

  /**
   Which error the decoder answers: the first fault in the order of the fields; then a leaf that is not valid; then bytes
   that follow.
   */
  lemma DecoderFindsTheFirstFault(b: bytes)
    ensures var r := Decoded(b);
            && (r == Err(InvalidDomain) <==> |b| >= 22 && !HasDomain(b))
            && (r == Err(InvalidNetwork) <==> HasDomain(b) && NetworkMistagged(b))
            && (r == Err(InvalidPaymentAsset) <==> ReachesAsset(b) && Mistagged(b, AssetOffset(b)))
            && (r == Err(InvalidOptionalTag) <==> OptionalMistagged(b))
            && (r == Err(Truncated) <==>
                  && (|b| < 22 || HasDomain(b)) && !NetworkMistagged(b)
                  && (ReachesAsset(b) ==> !Mistagged(b, AssetOffset(b))) && !OptionalMistagged(b) && !HasAllFields(b))
            && (r == Err(InvalidLeaf) <==> exists leaf, rest :: Begins(b, leaf, rest) && !ValidLeaf(leaf))
            && (r == Err(TrailingBytes) <==>
                  exists leaf, rest :: Begins(b, leaf, rest) && ValidLeaf(leaf) && rest != [])
  {
    ReadFaults(b);
    ReadLeaves(b);
    hide HasDomain, NetworkMistagged, Mistagged, ReachesAsset, OptionalMistagged, HasAllFields;
    hide TakeFields, Begins, ValidLeaf;
  }

  /** There is a network tag, and it stands for no network. */
  predicate NetworkMistagged(b: bytes) {
    |b| > 22 && b[22] > 3
  }

  lemma ReadFaults(b: bytes)
    ensures var p := TakeFields(b);
            && (p == Failed(InvalidDomain) <==> |b| >= 22 && !HasDomain(b))
            && (p == Failed(InvalidNetwork) <==> HasDomain(b) && NetworkMistagged(b))
            && (p == Failed(InvalidPaymentAsset) <==> ReachesAsset(b) && Mistagged(b, AssetOffset(b)))
            && (p == Failed(InvalidOptionalTag) <==> OptionalMistagged(b))
            && (p == Failed(Truncated) <==>
                  && (|b| < 22 || HasDomain(b)) && !NetworkMistagged(b)
                  && (ReachesAsset(b) ==> !Mistagged(b, AssetOffset(b))) && !OptionalMistagged(b) && !HasAllFields(b))
            && (p.Parsed? <==> HasAllFields(b))
            && (p.Failed? ==> p.error in {Truncated, InvalidDomain, InvalidNetwork, InvalidPaymentAsset, InvalidOptionalTag})
  {
    if |b| < 22 {
      TakeDomainAt(b);
    } else {
      TakeFirstFields(b);
      if ReachesAsset(b) {
        TakeOthersAt(b);
        TakeFieldsTakesOthers(b);
      }
    }
    hide TakeFields, TakeOthers, HasDomain, Mistagged, Passes, FromBytes;
  }

  /** The bytes are the encoding of this leaf, valid or not, and then these. */
  ghost predicate Begins(b: bytes, leaf: Leaf, rest: bytes) {
    FitsWire(leaf) && b == Wire(leaf) + rest
  }

  /** What was read as a leaf is one leaf only. */
  lemma ReadLeaves(b: bytes)
    ensures forall leaf, rest | Begins(b, leaf, rest) :: TakeFields(b) == Parsed(leaf, rest)
    ensures TakeFields(b).Parsed? ==> Begins(b, TakeFields(b).value, TakeFields(b).rest)
  {
    hide TakeFields, Wire, FitsWire;
    forall leaf, rest | Begins(b, leaf, rest)
      ensures TakeFields(b) == Parsed(leaf, rest)
    {
      TakeFieldsOfWire(leaf, rest);
    }
    if TakeFields(b).Parsed? {
      WireOfTakeFields(b);
    }
  }

  /**
   Which error the Rust decoder answers once all fields are there: bytes that follow first, and then the first value that is
   wrong.
   */
  lemma RustDecoderChecksTheEndFirst(b: bytes)
    ensures var r := RustCodec.Decoded(b);
            && (r == Err(TrailingBytes) <==> exists leaf, rest :: Begins(b, leaf, rest) && rest != [])
            && (r == Err(InvalidSnapshotVersion) <==> exists leaf :: Begins(b, leaf, []) && leaf.snapshotVersion == 0)
            && (r == Err(InvalidScriptLength) <==>
                  exists leaf :: Begins(b, leaf, []) && leaf.snapshotVersion != 0 && !ScriptFits(leaf))
            && (r == Err(InvalidAllocation) <==>
                  exists leaf :: Begins(b, leaf, []) && Sized(leaf) && leaf.maxAllocation == 0)
            && (r == Err(InvalidValidityBounds) <==>
                  exists leaf :: Begins(b, leaf, []) && Sized(leaf) && leaf.maxAllocation != 0 && Reversed(leaf))
            && (r.Ok? <==>
                  exists leaf :: Begins(b, leaf, []) && Sized(leaf) && leaf.maxAllocation != 0 && !Reversed(leaf))
            && r != Err(InvalidLeaf)
  {
    ReadLeaves(b);
    ReadFaults(b);
    RefusalIff();
    hide TakeFields, Begins, FitsWire, Wire, HasDomain, NetworkMistagged, ReachesAsset, OptionalMistagged, HasAllFields;
    hide Mistagged, RustCodec.Validated;
  }

  predicate ScriptFits(leaf: Leaf) {
    1 <= |leaf.scriptPubKey| && |leaf.scriptPubKey| <= 10_000
  }

  predicate Sized(leaf: Leaf) {
    leaf.snapshotVersion != 0 && ScriptFits(leaf)
  }

  predicate Reversed(leaf: Leaf) {
    leaf.validFrom.Some? && leaf.validUntil.Some? && leaf.validUntil.value < leaf.validFrom.value
  }

  lemma RefusalIff()
    ensures forall leaf ::
              var r := RustCodec.Validated(leaf);
              && (r == Err(InvalidSnapshotVersion) <==> leaf.snapshotVersion == 0)
              && (r == Err(InvalidScriptLength) <==> leaf.snapshotVersion != 0 && !ScriptFits(leaf))
              && (r == Err(InvalidAllocation) <==> leaf.snapshotVersion != 0 && ScriptFits(leaf) && leaf.maxAllocation == 0)
              && (r == Err(InvalidValidityBounds) <==>
                    leaf.snapshotVersion != 0 && ScriptFits(leaf) && leaf.maxAllocation != 0 && Reversed(leaf))
              && (r.Ok? <==> leaf.snapshotVersion != 0 && ScriptFits(leaf) && leaf.maxAllocation != 0 && !Reversed(leaf))
              && r != Err(InvalidLeaf) && r != Err(TrailingBytes)
  {
  }

  // ----- Proofs -----

  /** Which error refuses a proof: the bound itself, then the length of the proof, then a sibling that is no hash. */
  lemma ProofIsRefusedIff(h: Hash, content: bytes, siblings: seq<bytes>, maximumDepth: int)
    requires IsHash(h)
    ensures var r := AllowlistRoot(h, content, siblings, maximumDepth);
            var bounded := 1 <= maximumDepth && maximumDepth <= 9_007_199_254_740_991;
            var fits := |siblings| >= 1 && |siblings| <= maximumDepth;
            && (r == Err(InvalidMaximumDepth) <==> !bounded)
            && (r == Err(InvalidDepth) <==> bounded && !fits)
            && (r == Err(InvalidSibling) <==> bounded && fits && exists i :: 0 <= i < |siblings| && |siblings[i]| != 32)
            && (r.Ok? <==> bounded && fits && forall i | 0 <= i < |siblings| :: |siblings[i]| == 32)
  {
    FoldOkIff(h, h(content), siblings);
    assert forall i | 0 <= i < |siblings| :: siblings[i] in siblings;
  }

  // ----- Nodes -----

  /** `left` comes first: at the first byte where they differ it has the smaller one. */
  ghost predicate SmallerFirst(left: bytes, right: bytes) {
    exists k :: 0 <= k < |left| && k < |right| && left[..k] == right[..k] && left[k] < right[k]
  }

  lemma {:induction false} CompareIsLexicographic(left: bytes, right: bytes)
    requires |left| == |right|
    ensures Compare(left, right) < 0 <==> SmallerFirst(left, right)
  {
    if left != [] && left[0] == right[0] {
      CompareIsLexicographic(left[1..], right[1..]);
      if SmallerFirst(left[1..], right[1..]) {
        var (l, r) := (left[1..], right[1..]);
        var k :| 0 <= k < |l| && k < |r| && l[..k] == r[..k] && l[k] < r[k];
        assert left[..k + 1] == [left[0]] + l[..k] && right[..k + 1] == [right[0]] + r[..k];
        assert left[k + 1] < right[k + 1];
      }
      if SmallerFirst(left, right) {
        var k :| 0 <= k < |left| && k < |right| && left[..k] == right[..k] && left[k] < right[k];
        assert left[1..][..k - 1] == left[..k][1..] && right[1..][..k - 1] == right[..k][1..];
        assert left[1..][k - 1] < right[1..][k - 1];
      }
    } else if left != [] {
      assert left[..0] == right[..0];
      if SmallerFirst(left, right) {
        var k :| 0 <= k < |left| && k < |right| && left[..k] == right[..k] && left[k] < right[k];
        HeadsAgree(left, right, k);
      }
    }
  }

  lemma HeadsAgree(left: bytes, right: bytes, k: nat)
    requires k <= |left| && k <= |right| && left[..k] == right[..k]
    ensures k > 0 ==> left[0] == right[0]
  {
    assert k > 0 ==> left[..k][0] == left[0] && right[..k][0] == right[0];
  }

  /** A node hashes 64 bytes: of its two hashes the lexicographically smaller one, then the other. */
  lemma NodeBeginsWithTheSmaller(left: bytes, right: bytes)
    requires |left| == |right|
    ensures NodePreimage(left, right) == if SmallerFirst(right, left) then right + left else left + right
  {
    CompareIsLexicographic(right, left);
    CompareIsAntisymmetric(left, right);
  }
}
