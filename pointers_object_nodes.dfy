/**
 * Field access for objects whose named fields are stored through an object
 * layout (`AbstractPointersObjectNodes`).
 *
 * A layout assigns each named field a storage location. A location is
 * uninitialised (it reads as nil and stores nothing), primitive (it stores
 * values of one primitive kind, and nil while unset) or generic (it stores
 * anything). Objects of a class share the class's current layout; when one
 * object needs a more general location, the class's layout evolves and every
 * object still on the old layout sees its layout become invalid. Validity is
 * therefore modelled as "equals the class's current layout".
 */
module PointersObjectNodes {
  import opened Wrappers

  datatype PrimitiveKind = LongKind | DoubleKind | BooleanKind | CharacterKind

  datatype Value =
    | Nil
    | Long(n: int)
    | Double(bits: int)
    | Boolean(b: bool)
    | Character(c: char)
    | Ref(obj: AbstractPointersObject)   // a pointers object
    | Other(id: nat)                     // any other object

  function KindOf(v: Value): Option<PrimitiveKind> {
    match v
    case Long(_) => Some(LongKind)
    case Double(_) => Some(DoubleKind)
    case Boolean(_) => Some(BooleanKind)
    case Character(_) => Some(CharacterKind)
    case _ => None
  }

  datatype Location = Uninitialized | Primitive(kind: PrimitiveKind) | Generic

  /** `location.canStore(value)`. */
  predicate CanStore(loc: Location, v: Value) {
    match loc
    case Uninitialized => false
    case Primitive(k) => KindOf(v) == Some(k)
    case Generic => true
  }

  /** The field value `v` is representable while the field sits at `loc`. */
  predicate Holds(loc: Location, v: Value) {
    match loc
    case Uninitialized => v == Nil
    case Primitive(k) => v == Nil || KindOf(v) == Some(k)
    case Generic => true
  }

  /** `b` is `a` or a generalisation of it. */
  predicate AtLeastAsGeneral(b: Location, a: Location) {
    a == b || a == Uninitialized || b == Generic
  }

  /** The location a field moves to so that it can store `v`. */
  function Evolve(loc: Location, v: Value): (r: Location)
    ensures CanStore(r, v) && AtLeastAsGeneral(r, loc)
    ensures CanStore(loc, v) ==> r == loc
  {
    if CanStore(loc, v) then loc
    else if loc.Uninitialized? && KindOf(v).Some? then Primitive(KindOf(v).value)
    else Generic
  }

  /** A location reads the value it stores; an uninitialised one reads nil. */
  function ReadLocation(loc: Location, stored: Value): (r: Value)
    ensures Holds(loc, stored) ==> r == stored
  {
    if loc.Uninitialized? then Nil else stored
  }

  lemma StoreHolds(loc: Location, v: Value)
    requires CanStore(loc, v)
    ensures Holds(loc, v)
  {
  }

  /** Moving a field to a more general location keeps its value representable. */
  lemma HoldsUnderGeneralisation(a: Location, b: Location, v: Value)
    requires Holds(a, v) && AtLeastAsGeneral(b, a)
    ensures Holds(b, v)
  {
  }

  /** `newer` generalises `older` field by field. */
  predicate LayoutGeneralises(newer: seq<Location>, older: seq<Location>) {
    |newer| == |older| && forall i :: 0 <= i < |older| ==> AtLeastAsGeneral(newer[i], older[i])
  }

  lemma LayoutGeneralisesTransitive(c: seq<Location>, b: seq<Location>, a: seq<Location>)
    requires LayoutGeneralises(c, b) && LayoutGeneralises(b, a)
    ensures LayoutGeneralises(c, a)
  {
  }

  /** The layout a Smalltalk class currently hands to its instances. */
  class ClassLayout {
    var layout: seq<Location>

    constructor(instSize: nat)
      ensures layout == seq(instSize, _ => Uninitialized)
    {
      layout := seq(instSize, _ => Uninitialized);
    }
  }

  /** An object with named fields stored through a layout. */
  class AbstractPointersObject {
    const squeakClass: ClassLayout
    var layout: seq<Location>
    /** The value each named field holds, whatever its location. */
    var values: seq<Value>

    /** A new instance: it takes its class's layout and all its fields are nil. */
    constructor(squeakClass: ClassLayout)
      ensures this.squeakClass == squeakClass && layout == squeakClass.layout
      ensures values == seq(|squeakClass.layout|, _ => Nil)
      ensures Valid() && LayoutIsValid()
    {
      this.squeakClass := squeakClass;
      layout := squeakClass.layout;
      values := seq(|squeakClass.layout|, _ => Nil);
    }

    /** The copy constructor used by `shallowCopy`: same class, layout and field values. */
    constructor CopyOf(original: AbstractPointersObject)
      requires original.Valid()
      ensures squeakClass == original.squeakClass && layout == original.layout && values == original.values
      ensures Valid()
    {
      squeakClass := original.squeakClass;
      layout := original.layout;
      values := original.values;
    }

    /** Every field is representable in its location, and the class's layout is at least as general. */
    ghost predicate Valid()
      reads this, squeakClass
    {
      |values| == |layout| && LayoutGeneralises(squeakClass.layout, layout) &&
      forall i :: 0 <= i < |layout| ==> Holds(layout[i], values[i])
    }

    /** `getLayout().isValid()`. */
    predicate LayoutIsValid()
      reads this, squeakClass
    {
      layout == squeakClass.layout
    }

    /** `instsize()`. */
    function InstSize(): (r: nat)
      reads this
    {
      |layout|
    }

    /** `updateLayout()`: migrates the object to its class's current layout, keeping every value. */
    method UpdateLayout()
      requires Valid()
      modifies this
      ensures Valid() && LayoutIsValid()
      ensures values == old(values)
    {
      forall i | 0 <= i < |layout|
        ensures Holds(squeakClass.layout[i], values[i])
      {
        HoldsUnderGeneralisation(layout[i], squeakClass.layout[i], values[i]);
      }
      layout := squeakClass.layout;
    }

    /**
     * `updateLayout(index, value)`: the class's layout gets a location at
     * `index` that can store `value`, and the object migrates to it.
     */
    method UpdateLayoutFor(index: int, value: Value)
      requires Valid() && 0 <= index < |layout|
      modifies this, squeakClass
      ensures Valid() && LayoutIsValid()
      ensures values == old(values)
      ensures squeakClass.layout == old(squeakClass.layout)[index := Evolve(old(squeakClass.layout)[index], value)]
      ensures CanStore(layout[index], value)
    {
      UpdateLayout();
      squeakClass.layout := squeakClass.layout[index := Evolve(squeakClass.layout[index], value)];
      forall i | 0 <= i < |layout|
        ensures Holds(squeakClass.layout[i], values[i])
      {
        HoldsUnderGeneralisation(layout[i], squeakClass.layout[i], values[i]);
      }
      layout := squeakClass.layout;
    }

    /** `location.write(object, value)`, which succeeds only when the location can store the value. */
    method WriteLocation(index: int, value: Value)
      requires Valid() && 0 <= index < |layout| && CanStore(layout[index], value)
      modifies this
      ensures Valid() && layout == old(layout)
      ensures values == old(values)[index := value]
    {
      StoreHolds(layout[index], value);
      values := values[index := value];
    }
  }

  // ---------------------------------------------------------------------
  // AbstractPointersObjectReadNode / AbstractPointersObjectWriteNode

  /**
   * The read node: an invalid layout is refreshed first; the value comes
   * from the location for `index`. A valid layout is left unchanged.
   */
  method Read(obj: AbstractPointersObject, index: int) returns (v: Value)
    requires obj.Valid() && 0 <= index < obj.InstSize()
    modifies obj
    ensures obj.Valid() && obj.LayoutIsValid()
    ensures v == obj.values[index] && obj.values == old(obj.values)
    ensures old(obj.LayoutIsValid()) ==> obj.layout == old(obj.layout)
  {
    if !obj.LayoutIsValid() {
      obj.UpdateLayout();
    }
    v := ReadLocation(obj.layout[index], obj.values[index]);
  }

  /**
   * The write node: an invalid layout is refreshed first; if the location
   * for `index` cannot store `value`, the layout evolves and the write is
   * retried on the new location. The class's layout changes exactly when
   * its location for `index` could not store the value.
   */
  method Write(obj: AbstractPointersObject, index: int, value: Value)
    requires obj.Valid() && 0 <= index < obj.InstSize()
    modifies obj, obj.squeakClass
    ensures obj.Valid() && obj.LayoutIsValid() && obj.InstSize() == old(obj.InstSize())
    ensures obj.values == old(obj.values)[index := value]
    ensures CanStore(obj.layout[index], value)
    ensures obj.squeakClass.layout ==
      old(obj.squeakClass.layout)[index := Evolve(old(obj.squeakClass.layout)[index], value)]
  {
    if !obj.LayoutIsValid() {
      obj.UpdateLayout();
    }
    if CanStore(obj.layout[index], value) {
      obj.WriteLocation(index, value);
    } else {
      obj.UpdateLayoutFor(index, value);
      obj.WriteLocation(index, value);
    }
  }

  /** A write the current location accepts changes no layout. */
  lemma WriteKeepsLayoutWhenStorable(classLayout: seq<Location>, index: int, value: Value)
    requires 0 <= index < |classLayout| && CanStore(classLayout[index], value)
    ensures classLayout[index := Evolve(classLayout[index], value)] == classLayout
  {
  }

  /** A write into an uninitialised location always migrates the class to a new layout. */
  lemma WriteIntoUninitializedEvolves(classLayout: seq<Location>, index: int, value: Value)
    requires 0 <= index < |classLayout| && classLayout[index] == Uninitialized
    ensures classLayout[index := Evolve(classLayout[index], value)] != classLayout
    ensures LayoutGeneralises(classLayout[index := Evolve(classLayout[index], value)], classLayout)
  {
    assert classLayout[index := Evolve(classLayout[index], value)][index] != classLayout[index];
  }

  // ---------------------------------------------------------------------
  // Variable pointers objects: named fields, then a variable part

  class VariablePointersObject {
    /** The named fields. */
    const named: AbstractPointersObject
    var variablePart: seq<Value>

    constructor(named: AbstractPointersObject, variablePart: seq<Value>)
      ensures this.named == named && this.variablePart == variablePart
    {
      this.named := named;
      this.variablePart := variablePart;
    }

    function InstSize(): nat
      reads this, named
    {
      named.InstSize()
    }
  }

  /** The variable read node: indices below `instsize` are named fields, the rest index the variable part. */
  method VariableRead(obj: VariablePointersObject, index: int) returns (v: Value)
    requires obj.named.Valid() && 0 <= index < obj.InstSize() + |obj.variablePart|
    modifies obj.named
    ensures obj.named.Valid() && obj.named.values == old(obj.named.values)
    ensures index < old(obj.InstSize()) ==> v == obj.named.values[index]
    ensures index >= old(obj.InstSize()) ==> v == obj.variablePart[index - old(obj.InstSize())]
  {
    if index < obj.InstSize() {
      v := Read(obj.named, index);
    } else {
      v := obj.variablePart[index - obj.InstSize()];
    }
  }

  /** The variable write node. */
  method VariableWrite(obj: VariablePointersObject, index: int, value: Value)
    requires obj.named.Valid() && 0 <= index < obj.InstSize() + |obj.variablePart|
    modifies obj, obj.named, obj.named.squeakClass
    ensures obj.named.Valid()
    ensures index < old(obj.InstSize()) ==>
      obj.named.values == old(obj.named.values)[index := value] && obj.variablePart == old(obj.variablePart)
    ensures index >= old(obj.InstSize()) ==>
      obj.variablePart == old(obj.variablePart)[index - old(obj.InstSize()) := value] &&
      obj.named.values == old(obj.named.values) && obj.named.layout == old(obj.named.layout)
  {
    if index < obj.InstSize() {
      Write(obj.named, index, value);
    } else {
      obj.variablePart := obj.variablePart[index - obj.InstSize() := value];
    }
  }
}
