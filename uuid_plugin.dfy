/**
 * `UUIDPlugin`: `primitiveMakeUUID` fills a 16-byte receiver with random
 * bytes and then sets the version and variant fields of a version-4 UUID
 * (RFC 4122, section 4.4): the high nibble of byte 6 becomes 4 (the version,
 * section 4.1.3) and the top two bits of byte 8 become `10` (the variant,
 * section 4.1.1). The random bytes are an input.
 */
module UUIDPlugin {
  import opened Wrappers

  const UUID_SIZE: nat := 16
  const VERSION_BYTE: nat := 6
  const VARIANT_BYTE: nat := 8

  /** The primitive's guard was not met, so the primitive fails. */
  datatype PrimitiveError = PrimitiveFailed

  class NativeObject {
    const isByteType: bool
    const storage: array<bv8>

    constructor(isByteType: bool, storage: array<bv8>)
      ensures this.isByteType == isByteType && this.storage == storage
    {
      this.isByteType := isByteType;
      this.storage := storage;
    }
  }

  /** Byte 6 of a version-4 UUID: the random low nibble under version 4. */
  function VersionByte(b: bv8): bv8 {
    (b & 0x0F) | 0x40
  }

  /** Byte 8 of a version-4 UUID: the random low six bits under the variant `10`. */
  function VariantByte(b: bv8): bv8 {
    (b & 0x3F) | 0x80
  }

  /** The bytes after stamping version and variant into `bytes`. */
  function Stamp(bytes: seq<bv8>): (r: seq<bv8>)
    requires |bytes| == UUID_SIZE
    ensures |r| == UUID_SIZE
  {
    bytes[VERSION_BYTE := VersionByte(bytes[VERSION_BYTE])][VARIANT_BYTE := VariantByte(bytes[VARIANT_BYTE])]
  }

  /**
   * A stamped UUID has version 4 and the RFC 4122 variant; the low nibble
   * of byte 6, the low six bits of byte 8 and every other byte keep their
   * random values.
   */
  lemma StampFields(bytes: seq<bv8>)
    requires |bytes| == UUID_SIZE
    ensures Stamp(bytes)[VERSION_BYTE] >> 4 == 4
    ensures Stamp(bytes)[VARIANT_BYTE] >> 6 == 2
    ensures Stamp(bytes)[VERSION_BYTE] & 0x0F == bytes[VERSION_BYTE] & 0x0F
    ensures Stamp(bytes)[VARIANT_BYTE] & 0x3F == bytes[VARIANT_BYTE] & 0x3F
    ensures forall i :: 0 <= i < UUID_SIZE && i != VERSION_BYTE && i != VARIANT_BYTE ==> Stamp(bytes)[i] == bytes[i]
  {
    var v := bytes[VERSION_BYTE];
    var w := bytes[VARIANT_BYTE];
    assert ((v & 0x0F) | 0x40) >> 4 == 4;
    assert ((w & 0x3F) | 0x80) >> 6 == 2;
  }

  /** Stamping a stamped UUID changes nothing. */
  lemma StampIdempotent(bytes: seq<bv8>)
    requires |bytes| == UUID_SIZE
    ensures Stamp(Stamp(bytes)) == Stamp(bytes)
  {
    var v := bytes[VERSION_BYTE];
    var w := bytes[VARIANT_BYTE];
    assert VersionByte(VersionByte(v)) == VersionByte(v);
    assert VariantByte(VariantByte(w)) == VariantByte(w);
  }

  /** A byte is its own version byte exactly when its high nibble is 4. */
  lemma VersionByteFixed(v: bv8)
    ensures VersionByte(v) == v <==> v >> 4 == 4
  {
  }

  /** A byte is its own variant byte exactly when its top two bits are `10`. */
  lemma VariantByteFixed(w: bv8)
    ensures VariantByte(w) == w <==> w >> 6 == 2
  {
  }

  /** A byte sequence is a version-4 UUID exactly when stamping leaves it alone. */
  lemma StampedIffFixed(bytes: seq<bv8>)
    requires |bytes| == UUID_SIZE
    ensures Stamp(bytes) == bytes <==> bytes[VERSION_BYTE] >> 4 == 4 && bytes[VARIANT_BYTE] >> 6 == 2
  {
    var v := bytes[VERSION_BYTE];
    var w := bytes[VARIANT_BYTE];
    VersionByteFixed(v);
    VariantByteFixed(w);
    if Stamp(bytes) == bytes {
      assert Stamp(bytes)[VERSION_BYTE] == VersionByte(v);
      assert Stamp(bytes)[VARIANT_BYTE] == VariantByte(w);
    }
    if VersionByte(v) == v && VariantByte(w) == w {
      assert bytes[VERSION_BYTE := v][VARIANT_BYTE := w] == bytes;
    }
  }

  /**
   * `doUUID`: for a 16-byte byte-type receiver, its storage is filled with
   * `random` and stamped in place, and the receiver is returned; any other
   * receiver fails the primitive and is left alone.
   */
  method MakeUUID(receiver: NativeObject, random: seq<bv8>) returns (r: Result<NativeObject, PrimitiveError>)
    requires |random| == UUID_SIZE
    modifies receiver.storage
    ensures !(receiver.isByteType && receiver.storage.Length == UUID_SIZE) ==>
      r == Failure(PrimitiveFailed) && unchanged(receiver.storage)
    ensures receiver.isByteType && receiver.storage.Length == UUID_SIZE ==>
      r == Success(receiver) && receiver.storage[..] == Stamp(random)
  {
    if !(receiver.isByteType && receiver.storage.Length == UUID_SIZE) {
      return Failure(PrimitiveFailed);
    }
    var bytes := receiver.storage;
    for i := 0 to UUID_SIZE
      invariant bytes[..i] == random[..i]
    {
      bytes[i] := random[i];
    }
    assert bytes[..] == random;
    bytes[VERSION_BYTE] := VersionByte(bytes[VERSION_BYTE]);
    bytes[VARIANT_BYTE] := VariantByte(bytes[VARIANT_BYTE]);
    return Success(receiver);
  }
}
