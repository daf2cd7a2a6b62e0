/** The Rust encoder and decoder of allowlist leaves, and their agreement with the TypeScript ones. */
module RustCodec {
  import opened Common
  import opened LittleEndian
  import opened AllowlistLeaf
  import TypeScriptCodec

  /** The values that the Rust struct can hold: fixed arrays and integer widths, a script of any length. */
  predicate RustTyped(leaf: Leaf) {
    && |leaf.launchCommitment| == 32
    && |leaf.phaseId| == 16
    && 0 <= leaf.snapshotVersion <= MAXIMUM_UINT32
    && IsUint128(leaf.maxAllocation)
    && (leaf.paymentAsset.Alkane? ==> IsUint128(leaf.paymentAsset.block) && IsUint128(leaf.paymentAsset.transaction))
    && OptionalWithin(leaf.priceOverride, MAXIMUM_UINT128)
    && OptionalWithin(leaf.validFrom, MAXIMUM_UINT64)
    && OptionalWithin(leaf.validUntil, MAXIMUM_UINT64)
  }

  function Validated(leaf: Leaf): Result<(), CodecError> {
    if leaf.snapshotVersion == 0 then Err(InvalidSnapshotVersion)
    else if leaf.scriptPubKey == [] || |leaf.scriptPubKey| > MAXIMUM_SCRIPT_BYTE_LENGTH then Err(InvalidScriptLength)
    else if leaf.maxAllocation == 0 then Err(InvalidAllocation)
    else if leaf.validFrom.Some? && leaf.validUntil.Some? && leaf.validFrom.value > leaf.validUntil.value then Err(InvalidValidityBounds)
    else Ok(())
  }

  /** Read every field, then look for trailing bytes, and only then check the values. */
  function Decoded(b: bytes): Result<Leaf, CodecError> {
    match TakeFields(b)
    case Failed(e) => Err(e)
    case Parsed(leaf, rest) =>
      if rest != [] then Err(TrailingBytes)
      else if Validated(leaf).Err? then Err(Validated(leaf).error)
      else Ok(leaf)
  }

  // ----- The encoder -----

  /** `n.to_le_bytes()` of an unsigned integer of `width` bytes; a wider value is cut by `as`. */
  function ToLeBytes(n: nat, width: nat): bytes {
    ToBytes(n % Pow256(width), width)
  }

  lemma ToLeBytesOfFitting(n: nat, width: nat)
    requires n < Pow256(width)
    ensures ToLeBytes(n, width) == ToBytes(n, width)
  {
    hide Pow256;
    SmallRemainder(n, Pow256(width));
  }

  lemma SmallRemainder(n: nat, m: nat)
    requires n < m
    ensures n % m == n
  {
  }

  /** The value is widened to 128 bits, and only the low bytes of its own type are kept. */
  method EncodeOptional(value: Option<int>, width: nat, output: bytes) returns (extended: bytes)
    requires width == 8 || width == 16
    requires value.Some? ==> 0 <= value.value < Pow256(width)
    ensures extended == output + OptionalBytes(value, width)
  {
    hide Pow256;
    match value {
      case None => return output + [0];
      case Some(n) =>
        WidthsGrow(width);
        ToLeBytesOfFitting(n, 16);
        TruncatedWide(n, width, 16);
        var encoded := ToLeBytes(n, 16);
        extended := (output + [1]) + encoded[..width];
        assert extended == output + ([1] + encoded[..width]);
    }
  }

  lemma WidthsGrow(width: nat)
    requires width == 8 || width == 16
    ensures Pow256(width) <= Pow256(16)
  {
    Widths();
  }

  lemma TypedAndValidatedIsValid(leaf: Leaf)
    requires RustTyped(leaf)
    ensures Validated(leaf).Ok? <==> ValidLeaf(leaf)
  {
  }

  /** The output after the first `k` parts. */
  ghost function Written(leaf: Leaf, k: nat): bytes
    requires FitsWire(leaf) && k <= 12
  {
    Flatten(Parts(leaf)[..k])
  }

  lemma WrittenSteps(leaf: Leaf)
    requires FitsWire(leaf)
    ensures forall k | 0 <= k < 12 :: Written(leaf, k + 1) == Written(leaf, k) + Parts(leaf)[k]
    ensures Written(leaf, 0) == []
    ensures Written(leaf, 12) == Wire(leaf)
  {
    hide Flatten;
    FlattenNone();
    forall k | 0 <= k < 12
      ensures Written(leaf, k + 1) == Written(leaf, k) + Parts(leaf)[k]
    {
      assert Parts(leaf)[..k + 1] == Parts(leaf)[..k] + [Parts(leaf)[k]];
      TypeScriptCodec.FlattenSnoc(Parts(leaf)[..k], Parts(leaf)[k]);
    }
    assert Parts(leaf)[..12] == Parts(leaf);
  }

  lemma FieldsFitTheirWidths(leaf: Leaf)
    requires ValidLeaf(leaf)
    ensures FitsWire(leaf)
    ensures ToLeBytes(leaf.snapshotVersion, 4) == ToBytes(leaf.snapshotVersion, 4)
    ensures ToLeBytes(|leaf.scriptPubKey|, 2) == ToBytes(|leaf.scriptPubKey|, 2)
    ensures ToLeBytes(leaf.maxAllocation, 16) == ToBytes(leaf.maxAllocation, 16)
    ensures leaf.paymentAsset.Alkane? ==>
              && ToLeBytes(leaf.paymentAsset.block, 16) == ToBytes(leaf.paymentAsset.block, 16)
              && ToLeBytes(leaf.paymentAsset.transaction, 16) == ToBytes(leaf.paymentAsset.transaction, 16)
  {
    ValidLeavesFit(leaf);
    hide Pow256, ToLeBytes;
    ToLeBytesOfFitting(leaf.snapshotVersion, 4);
    ToLeBytesOfFitting(|leaf.scriptPubKey|, 2);
    ToLeBytesOfFitting(leaf.maxAllocation, 16);
    if leaf.paymentAsset.Alkane? {
      ToLeBytesOfFitting(leaf.paymentAsset.block, 16);
      ToLeBytesOfFitting(leaf.paymentAsset.transaction, 16);
    }
  }

  /** The Rust encoder writes what the TypeScript encoder writes, and refuses the same leaves. */
  method Encode(leaf: Leaf) returns (r: Result<bytes, CodecError>)
    requires RustTyped(leaf)
    ensures Validated(leaf).Err? ==> r == Err(Validated(leaf).error)
    ensures r.Ok? <==> TypeScriptCodec.Encoded(leaf).Ok?
    ensures r.Ok? ==> r == TypeScriptCodec.Encoded(leaf)
  {
    hide Flatten, Written, Wire, Pow256, ToBytes, ToLeBytes;
    TypedAndValidatedIsValid(leaf);
    var checked := Validated(leaf);
    if checked.Err? {
      return Err(checked.error);
    }
    FieldsFitTheirWidths(leaf);
    WrittenSteps(leaf);
    var output := [];
    output := output + DOMAIN;
    assert output == Written(leaf, 0) + DOMAIN == Written(leaf, 1);
    output := output + [NetworkTag(leaf.network)];
    assert output == Written(leaf, 2);
    output := output + leaf.launchCommitment;
    assert output == Written(leaf, 3);
    output := output + leaf.phaseId;
    assert output == Written(leaf, 4);
    output := output + ToLeBytes(leaf.snapshotVersion, 4);
    assert output == Written(leaf, 5);
    output := output + ToLeBytes(|leaf.scriptPubKey|, 2);
    assert output == Written(leaf, 6);
    output := output + leaf.scriptPubKey;
    assert output == Written(leaf, 7);
    output := output + ToLeBytes(leaf.maxAllocation, 16);
    assert output == Written(leaf, 8);
    match leaf.paymentAsset {
      case BitcoinAsset =>
        output := output + [0];
      case Alkane(block, transaction) =>
        output := output + [1];
        output := output + ToLeBytes(block, 16);
        output := output + ToLeBytes(transaction, 16);
        assert output == Written(leaf, 8) + ([1] + (ToLeBytes(block, 16) + ToLeBytes(transaction, 16)));
    }
    assert output == Written(leaf, 9);
    output := EncodeOptional(leaf.priceOverride, 16, output);
    assert output == Written(leaf, 10);
    output := EncodeOptional(leaf.validFrom, 8, output);
    assert output == Written(leaf, 11);
    output := EncodeOptional(leaf.validUntil, 8, output);
    assert output == Written(leaf, 12);
    return Ok(output);
  }

  // ----- The decoder -----

  class Reader {
    const input: bytes
    var offset: nat

    ghost predicate Valid()
      reads this
    {
      offset <= |input|
    }

    ghost function Rest(): bytes
      requires Valid()
      reads this
    {
      input[offset..]
    }

    constructor (input: bytes)
      ensures Valid() && Rest() == input
    {
      this.input := input;
      this.offset := 0;
    }

    method Done() returns (done: bool)
      requires Valid()
      ensures done <==> Rest() == []
    {
      return offset == |input|;
    }

    /** Both `read::<LENGTH>` and `read_vec`. */
    method Read(length: nat) returns (r: Result<bytes, CodecError>)
      requires Valid()
      modifies this
      ensures Valid() && Follows(Take(old(Rest()), length), r, Rest())
    {
      var end := offset + length;
      if end > |input| {
        return Err(Truncated);
      }
      var value := input[offset..end];
      assert input[offset..][..length] == value && input[offset..][length..] == input[end..];
      offset := end;
      return Ok(value);
    }

    method ReadU8() returns (r: Result<byte, CodecError>)
      requires Valid()
      modifies this
      ensures Valid() && Follows(TakeByte(old(Rest())), r, Rest())
    {
      var value :- Read(1);
      return Ok(value[0]);
    }

    /** `uN::from_le_bytes(reader.read()?)` */
    method ReadLe(width: nat) returns (r: Result<nat, CodecError>)
      requires Valid()
      modifies this
      ensures Valid() && Follows(TakeUnsigned(old(Rest()), width), r, Rest())
    {
      var value :- Read(width);
      return Ok(FromBytes(value));
    }

    method ReadOptionalU128() returns (r: Result<Option<int>, CodecError>)
      requires Valid()
      modifies this
      ensures Valid() && Follows(TakeOptional(old(Rest()), 16), r, Rest())
    {
      var tag :- ReadU8();
      match tag {
        case 0 => return Ok(None);
        case 1 =>
          var value :- ReadLe(16);
          return Ok(Some(value));
        case _ => return Err(InvalidOptionalTag);
      }
    }

    method ReadOptionalU64() returns (r: Result<Option<int>, CodecError>)
      requires Valid()
      modifies this
      ensures Valid() && Follows(TakeOptional(old(Rest()), 8), r, Rest())
    {
      var tag :- ReadU8();
      match tag {
        case 0 => return Ok(None);
        case 1 =>
          var value :- ReadLe(8);
          return Ok(Some(value));
        case _ => return Err(InvalidOptionalTag);
      }
    }
  }

  method Decode(b: bytes) returns (r: Result<Leaf, CodecError>)
    ensures r == Decoded(b)
  {
    hide Validated, Take, TakeByte, TakeUnsigned, TakeOptional, FromBytes;
    var reader := new Reader(b);
    var domain :- reader.Read(|DOMAIN|);
    if domain != DOMAIN {
      return Err(InvalidDomain);
    }
    var networkTag :- reader.ReadU8();
    var network;
    match networkTag {
      case 0 => network := Bitcoin;
      case 1 => network := Testnet;
      case 2 => network := Signet;
      case 3 => network := Regtest;
      case _ => return Err(InvalidNetwork);
    }
    var launchCommitment :- reader.Read(32);
    var phaseId :- reader.Read(16);
    var snapshotVersion :- reader.ReadLe(4);
    var scriptLength :- reader.ReadLe(2);
    var scriptPubKey :- reader.Read(scriptLength);
    var maxAllocation :- reader.ReadLe(16);
    var paymentTag :- reader.ReadU8();
    var paymentAsset;
    match paymentTag {
      case 0 => paymentAsset := BitcoinAsset;
      case 1 =>
        var block :- reader.ReadLe(16);
        var transaction :- reader.ReadLe(16);
        paymentAsset := Alkane(block, transaction);
      case _ => return Err(InvalidPaymentAsset);
    }
    var priceOverride :- reader.ReadOptionalU128();
    var validFrom :- reader.ReadOptionalU64();
    var validUntil :- reader.ReadOptionalU64();
    var leaf := Leaf(network, launchCommitment, phaseId, snapshotVersion, scriptPubKey, maxAllocation, paymentAsset,
                     priceOverride, validFrom, validUntil);
    var done := reader.Done();
    if !done {
      return Err(TrailingBytes);
    }
    var checked := Validated(leaf);
    if checked.Err? {
      return Err(checked.error);
    }
    return Ok(leaf);
  }

  // ----- Agreement -----

  lemma FieldsAreRustTyped(b: bytes)
    requires TakeFields(b).Parsed?
    ensures RustTyped(TakeFields(b).value)
  {
    hide TakeFields;
    WireOfTakeFields(b);
    Widths();
  }

  /** Both decoders accept the same byte strings, and read the same leaf from each. */
  lemma DecodersAgree(b: bytes, leaf: Leaf)
    ensures Decoded(b) == Ok(leaf) <==> TypeScriptCodec.Decoded(b) == Ok(leaf)
  {
    hide TakeFields, Validated, ValidLeaf;
    if TakeFields(b).Parsed? {
      FieldsAreRustTyped(b);
      TypedAndValidatedIsValid(TakeFields(b).value);
    }
  }

  /** The one schema error of the TypeScript decoder stands for four errors of the Rust one. */
  function Coarse(e: CodecError): CodecError {
    match e
    case InvalidSnapshotVersion | InvalidScriptLength | InvalidAllocation | InvalidValidityBounds => InvalidLeaf
    case _ => e
  }

  predicate IsReadError(e: CodecError) {
    e == Truncated || e == InvalidDomain || e == InvalidNetwork || e == InvalidPaymentAsset || e == InvalidOptionalTag
  }

  lemma PartReadErrors()
    ensures forall b, n :: Take(b, n).Failed? ==> IsReadError(Take(b, n).error)
    ensures forall b, n :: TakeUnsigned(b, n).Failed? ==> IsReadError(TakeUnsigned(b, n).error)
    ensures forall b, n :: TakeOptional(b, n).Failed? ==> IsReadError(TakeOptional(b, n).error)
    ensures forall b :: TakeDomain(b).Failed? ==> IsReadError(TakeDomain(b).error)
    ensures forall b :: TakeNetwork(b).Failed? ==> IsReadError(TakeNetwork(b).error)
    ensures forall b :: TakeAsset(b).Failed? ==> IsReadError(TakeAsset(b).error)
  {
    hide FromBytes;
  }

  lemma ReadErrorsAreCoarse(b: bytes)
    ensures TakeFields(b).Failed? ==> Coarse(TakeFields(b).error) == TakeFields(b).error
  {
    hide FromBytes, Take, TakeUnsigned, TakeOptional, TakeDomain, TakeNetwork, TakeAsset;
    PartReadErrors();
  }

  /**
   On a refused byte string the two decoders report the same error, except in one case: the fields can be read,
   they make an invalid leaf, and bytes are left over. There TypeScript reports the leaf and Rust the bytes.
   */
  lemma ErrorsAgreeExactly(b: bytes)
    requires Decoded(b).Err?
    ensures TypeScriptCodec.Decoded(b).Err?
    ensures TypeScriptCodec.Decoded(b).error == Coarse(Decoded(b).error) <==>
            !(TakeFields(b).Parsed? && !ValidLeaf(TakeFields(b).value) && TakeFields(b).rest != [])
  {
    ReadErrorsAreCoarse(b);
    hide TakeFields, ValidLeaf;
    if TakeFields(b).Parsed? {
      FieldsAreRustTyped(b);
      TypedAndValidatedIsValid(TakeFields(b).value);
    }
  }
}
