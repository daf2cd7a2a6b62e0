/** The TypeScript encoder and decoder of allowlist leaves. */
module TypeScriptCodec {
  import opened Common
  import opened LittleEndian
  import opened AllowlistLeaf

  /** What the decoder must return: read every field, check the schema, and only then look for trailing bytes. */
  function Decoded(b: bytes): Result<Leaf, CodecError> {
    match TakeFields(b)
    case Failed(e) => Err(e)
    case Parsed(leaf, rest) =>
      if !ValidLeaf(leaf) then Err(InvalidLeaf)
      else if rest != [] then Err(TrailingBytes)
      else Ok(leaf)
  }

  function Encoded(leaf: Leaf): Result<bytes, CodecError> {
    if ValidLeaf(leaf) then ValidLeavesFit(leaf); Ok(Wire(leaf)) else Err(InvalidLeaf)
  }

  // ----- The encoder -----

  method EncodeUnsigned(value: nat, byteLength: nat) returns (b: bytes)
    ensures b == ToBytes(value, byteLength)
  {
    var buffer := new byte[byteLength];
    var remaining := value;
    for index := 0 to byteLength
      invariant remaining >= 0
      invariant buffer[..index] + ToBytes(remaining, byteLength - index) == ToBytes(value, byteLength)
    {
      buffer[index] := remaining % 256;
      assert buffer[..index + 1] == buffer[..index] + [remaining % 256];
      remaining := remaining / 256;
    }
    assert buffer[..] == buffer[..byteLength];
    return buffer[..];
  }

  lemma {:induction false} FlattenSnoc(parts: seq<bytes>, last: bytes)
    ensures Flatten(parts + [last]) == Flatten(parts) + last
  {
    if parts == [] {
      assert Flatten([last][1..]) == [];
    } else {
      FlattenSnoc(parts[1..], last);
      assert (parts + [last])[1..] == parts[1..] + [last];
    }
  }

  lemma {:induction false} TotalLengthSplit(parts: seq<bytes>, k: nat)
    requires k <= |parts|
    ensures TotalLength(parts) == TotalLength(parts[..k]) + TotalLength(parts[k..])
  {
    if k > 0 {
      TotalLengthSplit(parts[1..], k - 1);
      assert parts[..k][1..] == parts[1..][..k - 1] && parts[1..][k - 1..] == parts[k..];
    }
  }

  method Concatenate(parts: seq<bytes>) returns (b: bytes)
    ensures b == Flatten(parts)
  {
    var result := new byte[TotalLength(parts)];
    var offset := 0;
    for k := 0 to |parts|
      invariant offset == TotalLength(parts[..k]) <= result.Length
      invariant result[..offset] == Flatten(parts[..k])
    {
      ghost var written := result[..offset];
      TotalLengthSplit(parts, k);
      TotalLengthSplit(parts[..k + 1], k);
      assert parts[..k + 1][..k] == parts[..k] && parts[..k + 1][k..] == [parts[k]];
      assert parts[k..][0] == parts[k] && parts[k..] != [];
      forall i | 0 <= i < |parts[k]| {
        result[offset + i] := parts[k][i];
      }
      FlattenSnoc(parts[..k], parts[k]);
      assert parts[..k + 1] == parts[..k] + [parts[k]];
      assert result[..offset] == written;
      offset := offset + |parts[k]|;
      assert result[..offset] == written + parts[k];
    }
    assert parts[..|parts|] == parts;
    return result[..];
  }

  method EncodeOptionalUnsigned(value: Option<int>, byteLength: nat) returns (b: bytes)
    requires value.Some? ==> 0 <= value.value
    ensures b == OptionalBytes(value, byteLength)
  {
    match value {
      case None => return [0];
      case Some(n) =>
        var encoded := EncodeUnsigned(n, byteLength);
        b := Concatenate([[1], encoded]);
        FlattenOfTwo([1], encoded);
    }
  }

  lemma FlattenOfTwo(one: bytes, two: bytes)
    ensures Flatten([one, two]) == one + two
  {
    assert [one, two][1..] == [two] && [two][1..] == [];
    assert Flatten([two]) == two;
  }

  lemma FlattenOfThree(one: bytes, two: bytes, three: bytes)
    ensures Flatten([one, two, three]) == one + (two + three)
  {
    assert [one, two, three][1..] == [two, three];
    FlattenOfTwo(two, three);
  }

  method EncodePaymentAsset(asset: PaymentAsset) returns (b: bytes)
    requires asset.Alkane? ==> 0 <= asset.block && 0 <= asset.transaction
    ensures b == AssetBytes(asset)
  {
    match asset {
      case BitcoinAsset => return [0];
      case Alkane(block, transaction) =>
        var encodedBlock := EncodeUnsigned(block, 16);
        var encodedTransaction := EncodeUnsigned(transaction, 16);
        b := Concatenate([[1], encodedBlock, encodedTransaction]);
        FlattenOfThree([1], encodedBlock, encodedTransaction);
    }
  }

  method EncodeAllowlistLeafV1(leaf: Leaf) returns (r: Result<bytes, CodecError>)
    ensures r == Encoded(leaf)
  {
    hide Flatten, Pow256, ToBytes;
    if !ValidLeaf(leaf) {
      return Err(InvalidLeaf);
    }
    ValidLeavesFit(leaf);
    var snapshotVersion := EncodeUnsigned(leaf.snapshotVersion, 4);
    var scriptLength := EncodeUnsigned(|leaf.scriptPubKey|, 2);
    var maxAllocation := EncodeUnsigned(leaf.maxAllocation, 16);
    var paymentAsset := EncodePaymentAsset(leaf.paymentAsset);
    var priceOverride := EncodeOptionalUnsigned(leaf.priceOverride, 16);
    var validFrom := EncodeOptionalUnsigned(leaf.validFrom, 8);
    var validUntil := EncodeOptionalUnsigned(leaf.validUntil, 8);
    var encoded := Concatenate(
      [ DOMAIN, [NetworkTag(leaf.network)], leaf.launchCommitment, leaf.phaseId, snapshotVersion, scriptLength,
        leaf.scriptPubKey, maxAllocation, paymentAsset, priceOverride, validFrom, validUntil ]);
    return Ok(encoded);
  }

  // ----- The decoder -----

  /** A cursor over a byte string. `Rest` is what it has not read. */
  class ByteReader {
    const input: bytes
    var offset: nat

    ghost predicate Valid()
      reads this
    {
      offset <= |input|
    }

    ghost function Rest(): bytes
      requires Valid()
      reads this
    {
      input[offset..]
    }

    constructor (input: bytes)
      ensures Valid() && Rest() == input
    {
      this.input := input;
      this.offset := 0;
    }

    method Done() returns (done: bool)
      requires Valid()
      ensures done <==> Rest() == []
    {
      return offset == |input|;
    }

    method Read(length: int) returns (r: Result<bytes, CodecError>)
      requires Valid()
      modifies this
      ensures Valid() && Follows(Take(old(Rest()), length), r, Rest())
    {
      var end := offset + length;
      if length < 0 || end > |input| {
        return Err(Truncated);
      }
      var value := input[offset..end];
      assert input[offset..][..length] == value && input[offset..][length..] == input[end..];
      offset := end;
      return Ok(value);
    }

    method ReadByte() returns (r: Result<byte, CodecError>)
      requires Valid()
      modifies this
      ensures Valid() && Follows(TakeByte(old(Rest())), r, Rest())
    {
      var taken :- Read(1);
      return Ok(taken[0]);
    }

    method ReadUnsigned(byteLength: nat) returns (r: Result<nat, CodecError>)
      requires Valid()
      modifies this
      ensures Valid() && Follows(TakeUnsigned(old(Rest()), byteLength), r, Rest())
    {
      var taken :- Read(byteLength);
      var value: nat := 0;
      var index := |taken|;
      while index > 0
        invariant 0 <= index <= |taken| && value == FromBytes(taken[index..])
      {
        index := index - 1;
        assert taken[index..][1..] == taken[index + 1..];
        value := 256 * value + taken[index];
      }
      return Ok(value);
    }

    method ReadOptionalUnsigned(byteLength: nat) returns (r: Result<Option<int>, CodecError>)
      requires Valid()
      modifies this
      ensures Valid() && Follows(TakeOptional(old(Rest()), byteLength), r, Rest())
    {
      var tag :- ReadByte();
      if tag == 0 {
        return Ok(None);
      }
      if tag != 1 {
        return Err(InvalidOptionalTag);
      }
      var value :- ReadUnsigned(byteLength);
      return Ok(Some(value));
    }
  }

  const NETWORKS_BY_TAG := [Bitcoin, Testnet, Signet, Regtest]

  method DecodeAllowlistLeafV1(b: bytes) returns (r: Result<Leaf, CodecError>)
    ensures r == Decoded(b)
  {
    hide ValidLeaf, Take, TakeByte, TakeUnsigned, TakeOptional, FromBytes;
    var reader := new ByteReader(b);
    var domain :- reader.Read(|DOMAIN|);
    if domain != DOMAIN {
      return Err(InvalidDomain);
    }
    var networkTag :- reader.ReadByte();
    if networkTag >= |NETWORKS_BY_TAG| {
      return Err(InvalidNetwork);
    }
    var network := NETWORKS_BY_TAG[networkTag];
    var launchCommitment :- reader.Read(32);
    var phaseId :- reader.Read(16);
    var snapshotVersion :- reader.ReadUnsigned(4);
    var scriptLength :- reader.ReadUnsigned(2);
    var scriptPubKey :- reader.Read(scriptLength);
    var maxAllocation :- reader.ReadUnsigned(16);
    var paymentTag :- reader.ReadByte();
    var paymentAsset := BitcoinAsset;
    if paymentTag == 1 {
      var block :- reader.ReadUnsigned(16);
      var transaction :- reader.ReadUnsigned(16);
      paymentAsset := Alkane(block, transaction);
    } else if paymentTag != 0 {
      return Err(InvalidPaymentAsset);
    }
    var priceOverride :- reader.ReadOptionalUnsigned(16);
    var validFrom :- reader.ReadOptionalUnsigned(8);
    var validUntil :- reader.ReadOptionalUnsigned(8);
    var leaf := Leaf(network, launchCommitment, phaseId, snapshotVersion, scriptPubKey, maxAllocation, paymentAsset,
                     priceOverride, validFrom, validUntil);
    if !ValidLeaf(leaf) {
      return Err(InvalidLeaf);
    }
    var done := reader.Done();
    if !done {
      return Err(TrailingBytes);
    }
    return Ok(leaf);
  }

  // ----- Canonical in both directions -----

  /**
   The decoder accepts exactly the encodings of valid leaves, and gives back the leaf encoded: decode undoes encode,
   encode undoes decode, and no leaf has a second encoding.
   */
  lemma DecodeIffEncoding(b: bytes, leaf: Leaf)
    ensures Decoded(b) == Ok(leaf) <==> Encoded(leaf) == Ok(b)
  {
    hide ValidLeaf, TakeFields, Wire;
    if ValidLeaf(leaf) {
      ValidLeavesFit(leaf);
      TakeFieldsOfWire(leaf, []);
      assert Wire(leaf) + [] == Wire(leaf);
    }
    if TakeFields(b).Parsed? {
      WireOfTakeFields(b);
    }
  }

  /** No accepted byte string is a proper prefix of another. */
  lemma AcceptedStringsArePrefixFree(b: bytes, more: bytes)
    requires Decoded(b).Ok? && Decoded(b + more).Ok?
    ensures more == []
  {
    hide ValidLeaf, TakeFields, Wire;
    WireOfTakeFields(b);
    TakeFieldsOfWire(Decoded(b).value, more);
    assert b == Wire(Decoded(b).value) + [] == Wire(Decoded(b).value);
  }

  /** Different valid leaves have different encodings. */
  lemma EncodingIsInjective(one: Leaf, other: Leaf)
    requires Encoded(one).Ok? && Encoded(one) == Encoded(other)
    ensures one == other
  {
    hide ValidLeaf, TakeFields, Wire;
    DecodeIffEncoding(Encoded(one).value, one);
    DecodeIffEncoding(Encoded(one).value, other);
  }
}
