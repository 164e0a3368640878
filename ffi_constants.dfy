/**
 * `FFIConstants`: the FFI type codes, their names in the `FFI_TYPES` table,
 * and the flag bits of a type specification. `fromString` and `fromInteger`
 * search the table in declaration order.
 */
module FFIConstants {
  import opened Wrappers

  // FFI_TYPE codes
  const VOID: int := 0
  const BOOL: int := 1
  const UNSIGNED_BYTE: int := 2
  const SIGNED_BYTE: int := 3
  const UNSIGNED_SHORT: int := 4
  const SIGNED_SHORT: int := 5
  const UNSIGNED_INT: int := 6
  const SIGNED_INT: int := 7
  const UNSIGNED_LONG_LONG: int := 8
  const SIGNED_LONG_LONG: int := 9
  const UNSIGNED_CHAR: int := 10
  const SIGNED_CHAR: int := 11
  const SINGLE_FLOAT: int := 12
  const DOUBLE_FLOAT: int := 13

  // FFI_TYPE flags
  const FLAG_ATOMIC: bv32 := 0x40000
  const FLAG_POINTER: bv32 := 0x20000
  const FLAG_STRUCTURE: bv32 := 0x10000
  const STRUCT_SIZE_MASK: bv32 := 0xFFFF
  const ATOMIC_TYPE_MASK: bv32 := 0x0F00_0000
  const ATOMIC_TYPE_SHIFT: int := 24

  /** An `FFI_TYPES` constant: its key and its name. */
  datatype FFIType = FFIType(key: int, name: string)

  /** `FFI_TYPES.values()`, in declaration order. */
  const FFI_TYPES: seq<FFIType> := [
    FFIType(0, "void"), FFIType(1, "bool"),
    FFIType(2, "byte"), FFIType(3, "sbyte"), FFIType(4, "ushort"), FFIType(5, "short"),
    FFIType(6, "ulong"), FFIType(7, "long"),
    FFIType(8, "ulonglong"), FFIType(9, "longlong"),
    FFIType(10, "char"), FFIType(11, "schar"),
    FFIType(12, "float"), FFIType(13, "double")]

  /** The first type in `types` named `name`. */
  function TypeNamed(types: seq<FFIType>, name: string): (r: Option<FFIType>)
    ensures r.Some? ==> r.value in types && r.value.name == name
    ensures r.None? <==> forall i :: 0 <= i < |types| ==> types[i].name != name
  {
    if types == [] then None
    else if types[0].name == name then Some(types[0])
    else TypeNamed(types[1..], name)
  }

  /** The name of the first type in `types` whose key is `key`. */
  function NameOfKey(types: seq<FFIType>, key: int): (r: Option<string>)
    ensures r.None? <==> forall i :: 0 <= i < |types| ==> types[i].key != key
    ensures r.Some? ==> exists i :: 0 <= i < |types| && types[i].key == key && types[i].name == r.value
  {
    if types == [] then None
    else if types[0].key == key then Some(types[0].name)
    else NameOfKey(types[1..], key)
  }

  /** `fromString`: the table entry whose name is `typeValue`, or `null`. */
  method FromString(typeValue: string) returns (r: Option<FFIType>)
    ensures r == TypeNamed(FFI_TYPES, typeValue)
  {
    var i := 0;
    while i < |FFI_TYPES|
      invariant 0 <= i <= |FFI_TYPES|
      invariant TypeNamed(FFI_TYPES, typeValue) == TypeNamed(FFI_TYPES[i..], typeValue)
    {
      if FFI_TYPES[i].name == typeValue {
        return Some(FFI_TYPES[i]);
      }
      assert FFI_TYPES[i..][1..] == FFI_TYPES[i + 1..];
      i := i + 1;
    }
    return None;
  }

  /** `fromInteger`: the name of the table entry whose key is `keyValue`, or `null`. */
  method FromInteger(keyValue: int) returns (r: Option<string>)
    ensures r == NameOfKey(FFI_TYPES, keyValue)
  {
    var i := 0;
    while i < |FFI_TYPES|
      invariant 0 <= i <= |FFI_TYPES|
      invariant NameOfKey(FFI_TYPES, keyValue) == NameOfKey(FFI_TYPES[i..], keyValue)
    {
      if FFI_TYPES[i].key == keyValue {
        return Some(FFI_TYPES[i].name);
      }
      assert FFI_TYPES[i..][1..] == FFI_TYPES[i + 1..];
      i := i + 1;
    }
    return None;
  }

  /** Entry `k` of the table has key `k`, so the keys are exactly 0..13. */
  lemma KeysArePositions()
    ensures |FFI_TYPES| == 14
    ensures forall k :: 0 <= k < |FFI_TYPES| ==> FFI_TYPES[k].key == k
  {
  }

  /** In a table whose entry `k` has key `k`, looking up key `k` finds entry `k`. */
  lemma {:induction false} NameOfPositionalKey(types: seq<FFIType>, offset: int, k: int)
    requires forall i :: 0 <= i < |types| ==> types[i].key == offset + i
    requires 0 <= k - offset < |types|
    ensures NameOfKey(types, k) == Some(types[k - offset].name)
  {
    if types[0].key != k {
      NameOfPositionalKey(types[1..], offset + 1, k);
    }
  }

  /** `fromInteger(k)` is the name of entry `k` for k in 0..13, and `null` for every other k. */
  lemma FromIntegerTable(k: int)
    ensures 0 <= k < 14 ==> NameOfKey(FFI_TYPES, k) == Some(FFI_TYPES[k].name)
    ensures !(0 <= k < 14) ==> NameOfKey(FFI_TYPES, k) == None
  {
    KeysArePositions();
    if 0 <= k < 14 {
      NameOfPositionalKey(FFI_TYPES, 0, k);
    }
  }

  /** No two entries share a name. */
  lemma NamesDistinct()
    ensures forall a, b :: 0 <= a < b < |FFI_TYPES| ==> FFI_TYPES[a].name != FFI_TYPES[b].name
  {
  }

  /** In a table with distinct names, looking up an entry's name finds that entry. */
  lemma {:induction false} TypeNamedFindsEntry(types: seq<FFIType>, j: int)
    requires forall a, b :: 0 <= a < b < |types| ==> types[a].name != types[b].name
    requires 0 <= j < |types|
    ensures TypeNamed(types, types[j].name) == Some(types[j])
  {
    if j > 0 {
      assert types[0].name != types[j].name;
      assert types[1..][j - 1] == types[j];
      TypeNamedFindsEntry(types[1..], j - 1);
    }
  }

  /** `fromString(fromInteger(k)).key == k` for every k in 0..13. */
  lemma NameKeyRoundTrip(k: int)
    requires 0 <= k < 14
    ensures NameOfKey(FFI_TYPES, k).Some?
    ensures TypeNamed(FFI_TYPES, NameOfKey(FFI_TYPES, k).value) == Some(FFI_TYPES[k])
    ensures TypeNamed(FFI_TYPES, NameOfKey(FFI_TYPES, k).value).value.key == k
  {
    FromIntegerTable(k);
    NamesDistinct();
    TypeNamedFindsEntry(FFI_TYPES, k);
    KeysArePositions();
  }

  /** A name that is not in the table is found by neither direction. */
  lemma UnknownName(name: string)
    requires forall k :: 0 <= k < |FFI_TYPES| ==> FFI_TYPES[k].name != name
    ensures TypeNamed(FFI_TYPES, name) == None
  {
  }

  /** The signed integer types, by name. */
  predicate SignedName(name: string) {
    name == "sbyte" || name == "short" || name == "long" || name == "longlong" || name == "schar"
  }

  /** For the integer types 2..11 the type is signed exactly when its code is odd. */
  lemma SignedIffOdd(k: int)
    requires UNSIGNED_BYTE <= k <= SIGNED_CHAR
    ensures SignedName(FFI_TYPES[k].name) <==> k % 2 == 1
  {
  }

  /** The enum's keys are the `FFI_TYPE` codes of the same names. */
  lemma EnumKeysMatchCodes()
    ensures FFI_TYPES == [
      FFIType(VOID, "void"), FFIType(BOOL, "bool"),
      FFIType(UNSIGNED_BYTE, "byte"), FFIType(SIGNED_BYTE, "sbyte"),
      FFIType(UNSIGNED_SHORT, "ushort"), FFIType(SIGNED_SHORT, "short"),
      FFIType(UNSIGNED_INT, "ulong"), FFIType(SIGNED_INT, "long"),
      FFIType(UNSIGNED_LONG_LONG, "ulonglong"), FFIType(SIGNED_LONG_LONG, "longlong"),
      FFIType(UNSIGNED_CHAR, "char"), FFIType(SIGNED_CHAR, "schar"),
      FFIType(SINGLE_FLOAT, "float"), FFIType(DOUBLE_FLOAT, "double")]
  {
  }

  /** The type flags and the structure size mask occupy pairwise disjoint bits. */
  lemma FlagsDisjoint()
    ensures FLAG_ATOMIC & FLAG_POINTER == 0 && FLAG_ATOMIC & FLAG_STRUCTURE == 0 && FLAG_POINTER & FLAG_STRUCTURE == 0
    ensures (FLAG_ATOMIC | FLAG_POINTER | FLAG_STRUCTURE) & STRUCT_SIZE_MASK == 0
    ensures (FLAG_ATOMIC | FLAG_POINTER | FLAG_STRUCTURE | STRUCT_SIZE_MASK) & ATOMIC_TYPE_MASK == 0
  {
  }
}
