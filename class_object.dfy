/**
 * Class metadata of a Smalltalk class (`ClassObject`): the instance format
 * word and its classification, the named class-description fields with
 * their per-field stability tokens, `become`, index routing for reads and
 * writes, and the method listing along the superclass chain.
 *
 * A Truffle `CyclicAssumption` is modelled as an epoch counter: invalidating
 * it increments the counter.
 */
module ClassObjects {
  import opened Wrappers

  // Named field indices of a class description.
  const SUPERCLASS: int := 0
  const METHOD_DICT: int := 1
  const FORMAT: int := 2
  const INSTANCE_VARIABLES: int := 3
  const ORGANIZATION: int := 4
  const SIZE: int := 5
  /** First selector slot of a method dictionary. */
  const NAMES: int := 2

  /** The values that reach a class through `at0`/`atput0`. */
  datatype Value =
    | Nil                     // the Smalltalk nil object
    | Null                    // a Java null (a method dictionary not yet filled in)
    | Long(n: int)            // a boxed Java long
    | Pointers(id: nat)       // a PointersObject
    | Array(id: nat)          // an ArrayObject
    | Class(c: ClassObject)   // another class
    | Other(id: nat)          // any other object

  datatype AccessError = IndexOutOfBounds | NoSpecialization | NullPointer

  /** The class-description state `become` exchanges. */
  datatype Fields = Fields(superclass: ClassObject?, methodDict: Option<nat>, format: int,
                           instanceVariables: Option<nat>, organization: Option<nat>, pointers: seq<Value>)

  // ---------------------------------------------------------------------
  // The format word

  /** `(int) (format & 0xffff)`. */
  function BasicInstanceSizeOf(format: int): (r: int)
    ensures 0 <= r < 0x1_0000
  {
    format % 0x1_0000
  }

  /** `(int) (format >> 16 & 0x1f)`: Java's `>>` on a long rounds down, as Dafny's `/` does. */
  function InstanceSpecificationOf(format: int): (r: int)
    ensures 0 <= r < 32
  {
    (format / 0x1_0000) % 32
  }

  /** A format word with the given instance specification and basic size in its low 21 bits. */
  function FormatWord(high: int, spec: int, size: int): int {
    high * 0x20_0000 + spec * 0x1_0000 + size
  }

  /** The size and specification are exactly bits 0..15 and 16..20 of the format word. */
  lemma FormatFields(format: int)
    ensures format == FormatWord(format / 0x20_0000, InstanceSpecificationOf(format), BasicInstanceSizeOf(format))
  {
    var q := format / 0x1_0000;
    assert format == q * 0x1_0000 + format % 0x1_0000;
    assert q == (q / 32) * 32 + q % 32;
    assert format / 0x20_0000 == q / 32;
  }

  /** Encoding a specification and a size and decoding them again gives them back. */
  lemma FormatRoundTrip(high: int, spec: int, size: int)
    requires 0 <= spec < 32 && 0 <= size < 0x1_0000
    ensures InstanceSpecificationOf(FormatWord(high, spec, size)) == spec
    ensures BasicInstanceSizeOf(FormatWord(high, spec, size)) == size
  {
    var f := FormatWord(high, spec, size);
    assert f == (high * 32 + spec) * 0x1_0000 + size;
    assert f / 0x1_0000 == high * 32 + spec;
  }

  // ---------------------------------------------------------------------
  // Index routing, as static guards

  predicate IsSuperclassIndex(index: int) { index == SUPERCLASS }
  predicate IsMethodDictIndex(index: int) { index == METHOD_DICT }
  predicate IsFormatIndex(index: int) { index == FORMAT }
  predicate IsInstanceVariablesIndex(index: int) { index == INSTANCE_VARIABLES }
  predicate IsOrganizationIndex(index: int) { index == ORGANIZATION }
  predicate IsOtherIndex(index: int) { index >= SIZE }

  class ClassObject {
    // Stability tokens (epochs of the three cyclic assumptions).
    var classHierarchyStable: nat
    var methodDictStable: nat
    var classFormatStable: nat

    var instancesAreClasses: bool

    var superclass: ClassObject?
    var methodDict: Option<nat>
    var format: int
    var instanceVariables: Option<nat>
    var organization: Option<nat>
    var pointers: seq<Value>

    /** `new ClassObject(image, classObject, size)`; `classIsMeta` is `classObject.isMetaClass()`. */
    constructor(size: int, classIsMeta: bool)
      ensures superclass == null && methodDict == None && format == -1
      ensures instanceVariables == None && organization == None
      ensures pointers == seq(if size - SIZE > 0 then size - SIZE else 0, _ => Nil)
      ensures instancesAreClasses == classIsMeta
      ensures classHierarchyStable == 0 && methodDictStable == 0 && classFormatStable == 0
    {
      var n := if size - SIZE > 0 then size - SIZE else 0;
      pointers := seq(n, _ => Nil);
      instancesAreClasses := classIsMeta;
      superclass := null;
      methodDict := None;
      format := -1;
      instanceVariables := None;
      organization := None;
      classHierarchyStable, methodDictStable, classFormatStable := 0, 0, 0;
    }

    function State(): Fields
      reads this
    {
      Fields(superclass, methodDict, format, instanceVariables, organization, pointers)
    }

    function BasicInstanceSize(): (r: int)
      reads this
      ensures 0 <= r < 0x1_0000
    {
      BasicInstanceSizeOf(format)
    }

    function InstanceSpecification(): (r: int)
      reads this
      ensures 0 <= r < 32
    {
      InstanceSpecificationOf(format)
    }

    predicate IsBits() reads this { InstanceSpecification() >= 7 }
    predicate IsBytes() reads this { InstanceSpecification() >= 16 }
    predicate IsCompiledMethodClassType() reads this { InstanceSpecification() >= 24 }
    predicate IsEphemeronClassType() reads this { InstanceSpecification() == 5 }
    predicate IsFixed() reads this { !IsVariable() }
    predicate IsImmediateClassType() reads this { InstanceSpecification() == 7 }
    predicate IsIndexableWithInstVars() reads this { InstanceSpecification() == 3 }
    predicate IsIndexableWithNoInstVars() reads this { InstanceSpecification() == 2 }
    predicate IsNonIndexableWithInstVars() reads this { InstanceSpecification() == 1 }
    predicate IsLongs() reads this { InstanceSpecification() == 9 }
    predicate IsPointers() reads this { !IsBits() }
    predicate IsShorts() reads this { InstanceSpecification() == 12 }
    predicate IsVariable() reads this {
      var instSpec := InstanceSpecification();
      instSpec >= 2 && (instSpec <= 4 || instSpec >= 9)
    }
    predicate IsWeak() reads this { InstanceSpecification() == 4 }
    predicate IsWords() reads this { InstanceSpecification() == 10 }
    predicate IsZeroSized() reads this { InstanceSpecification() == 0 }

    /** `CLASS_DESCRIPTION.SIZE + pointers.length`. */
    function Size(): (r: int)
      reads this
      ensures r >= SIZE && r - SIZE == |pointers|
    {
      SIZE + |pointers|
    }

    /** `getOtherPointer`: slot `index` of the class lives at `pointers[index - SIZE]`. */
    function GetOtherPointer(index: int): (r: Result<Value, AccessError>)
      reads this
      ensures r.Success? <==> 0 <= index - SIZE < |pointers|
      ensures r.Success? ==> r.value == pointers[index - SIZE]
      ensures r.Failure? ==> r.error == IndexOutOfBounds
    {
      if 0 <= index - SIZE < |pointers| then Success(pointers[index - SIZE]) else Failure(IndexOutOfBounds)
    }

    /** `At0`: the value of field `index`; a null superclass, instance-variable array or organization reads as nil. */
    function At0(index: int): (r: Result<Value, AccessError>)
      reads this
      ensures index < 0 ==> r == Failure(NoSpecialization)
      ensures index == SUPERCLASS ==> r == Success(if superclass == null then Nil else Class(superclass))
      ensures index == FORMAT ==> r == Success(Long(format))
      ensures index >= SIZE ==> r == GetOtherPointer(index)
      ensures r.Success? <==> 0 <= index < Size()
    {
      if IsSuperclassIndex(index) then Success(if superclass == null then Nil else Class(superclass))
      else if IsMethodDictIndex(index) then Success(if methodDict.None? then Null else Pointers(methodDict.value))
      else if IsFormatIndex(index) then Success(Long(format))
      else if IsInstanceVariablesIndex(index) then Success(if instanceVariables.None? then Nil else Array(instanceVariables.value))
      else if IsOrganizationIndex(index) then Success(if organization.None? then Nil else Pointers(organization.value))
      else if IsOtherIndex(index) then GetOtherPointer(index)
      else Failure(NoSpecialization)
    }

    /** The values `Atput0` accepts at `index` (its specialisations). */
    predicate Storable(index: int, value: Value)
      reads this
    {
      if IsSuperclassIndex(index) then value.Class? || value.Nil?
      else if IsMethodDictIndex(index) then value.Pointers?
      else if IsFormatIndex(index) then value.Long?
      else if IsInstanceVariablesIndex(index) then value.Array? || value.Nil?
      else if IsOrganizationIndex(index) then value.Pointers? || value.Nil?
      else IsOtherIndex(index) && index - SIZE < |pointers|
    }

    method SetFormat(newFormat: int)
      modifies this
      ensures State() == old(State()).(format := newFormat)
      ensures classFormatStable == old(classFormatStable) + 1
      ensures classHierarchyStable == old(classHierarchyStable) && methodDictStable == old(methodDictStable)
      ensures instancesAreClasses == old(instancesAreClasses)
    {
      classFormatStable := classFormatStable + 1;
      format := newFormat;
    }

    method SetSuperclass(newSuperclass: ClassObject?)
      modifies this
      ensures State() == old(State()).(superclass := newSuperclass)
      ensures classHierarchyStable == old(classHierarchyStable) + 1
      ensures methodDictStable == old(methodDictStable) && classFormatStable == old(classFormatStable)
      ensures instancesAreClasses == old(instancesAreClasses)
    {
      classHierarchyStable := classHierarchyStable + 1;
      superclass := newSuperclass;
    }

    method SetMethodDict(newMethodDict: Option<nat>)
      modifies this
      ensures State() == old(State()).(methodDict := newMethodDict)
      ensures methodDictStable == old(methodDictStable) + 1
      ensures classHierarchyStable == old(classHierarchyStable) && classFormatStable == old(classFormatStable)
      ensures instancesAreClasses == old(instancesAreClasses)
    {
      methodDictStable := methodDictStable + 1;
      methodDict := newMethodDict;
    }

    method InvalidateMethodDictStableAssumption()
      modifies this
      ensures State() == old(State())
      ensures methodDictStable == old(methodDictStable) + 1
      ensures classHierarchyStable == old(classHierarchyStable) && classFormatStable == old(classFormatStable)
      ensures instancesAreClasses == old(instancesAreClasses)
    {
      methodDictStable := methodDictStable + 1;
    }

    /** Setters without a stability token. */
    method SetInstanceVariables(newInstanceVariables: Option<nat>)
      modifies this
      ensures State() == old(State()).(instanceVariables := newInstanceVariables)
      ensures classHierarchyStable == old(classHierarchyStable) && methodDictStable == old(methodDictStable)
      ensures classFormatStable == old(classFormatStable) && instancesAreClasses == old(instancesAreClasses)
    {
      instanceVariables := newInstanceVariables;
    }

    method SetOrganization(newOrganization: Option<nat>)
      modifies this
      ensures State() == old(State()).(organization := newOrganization)
      ensures classHierarchyStable == old(classHierarchyStable) && methodDictStable == old(methodDictStable)
      ensures classFormatStable == old(classFormatStable) && instancesAreClasses == old(instancesAreClasses)
    {
      organization := newOrganization;
    }

    method SetOtherPointers(newPointers: seq<Value>)
      modifies this
      ensures State() == old(State()).(pointers := newPointers)
      ensures classHierarchyStable == old(classHierarchyStable) && methodDictStable == old(methodDictStable)
      ensures classFormatStable == old(classFormatStable) && instancesAreClasses == old(instancesAreClasses)
    {
      pointers := newPointers;
    }

    /**
     * `Atput0`: routes the write by index and by the kind of value. A write
     * no specialisation accepts, or past the end of the other pointers,
     * fails and changes nothing; a successful write reads back.
     */
    method Atput0(index: int, value: Value) returns (r: Result<(), AccessError>)
      modifies this
      ensures r.Success? <==> old(Storable(index, value))
      ensures r.Failure? ==> State() == old(State()) && r.error == (if IsOtherIndex(index) then IndexOutOfBounds else NoSpecialization)
      ensures r.Success? ==> At0(index) == Success(value)
      ensures r.Success? && index != SUPERCLASS ==> superclass == old(superclass)
      ensures r.Success? && index != FORMAT ==> format == old(format)
      ensures r.Success? && index != METHOD_DICT ==> methodDict == old(methodDict)
      ensures r.Success? && index != INSTANCE_VARIABLES ==> instanceVariables == old(instanceVariables)
      ensures r.Success? && index != ORGANIZATION ==> organization == old(organization)
      ensures forall j :: 0 <= j < |old(pointers)| && j + SIZE != index ==> j < |pointers| && pointers[j] == old(pointers[j])
      ensures classHierarchyStable == old(classHierarchyStable) + (if r.Success? && index == SUPERCLASS then 1 else 0)
      ensures methodDictStable == old(methodDictStable) + (if r.Success? && index == METHOD_DICT then 1 else 0)
      ensures classFormatStable == old(classFormatStable) + (if r.Success? && index == FORMAT then 1 else 0)
      ensures |pointers| == |old(pointers)| && instancesAreClasses == old(instancesAreClasses)
    {
      if IsSuperclassIndex(index) {
        match value {
          case Class(c) => SetSuperclass(c); return Success(());
          case Nil => SetSuperclass(null); return Success(());
          case _ => return Failure(NoSpecialization);
        }
      } else if IsMethodDictIndex(index) {
        if value.Pointers? {
          SetMethodDict(Some(value.id));
          return Success(());
        }
        return Failure(NoSpecialization);
      } else if IsFormatIndex(index) {
        if value.Long? {
          SetFormat(value.n);
          return Success(());
        }
        return Failure(NoSpecialization);
      } else if IsInstanceVariablesIndex(index) {
        match value {
          case Array(id) => SetInstanceVariables(Some(id)); return Success(());
          case Nil => SetInstanceVariables(None); return Success(());
          case _ => return Failure(NoSpecialization);
        }
      } else if IsOrganizationIndex(index) {
        match value {
          case Pointers(id) => SetOrganization(Some(id)); return Success(());
          case Nil => SetOrganization(None); return Success(());
          case _ => return Failure(NoSpecialization);
        }
      } else if IsOtherIndex(index) {
        if index - SIZE < |pointers| {
          pointers := pointers[index - SIZE := value];
          return Success(());
        }
        return Failure(IndexOutOfBounds);
      }
      return Failure(NoSpecialization);
    }

    /**
     * `become`: exchanges every class-description field with `other`
     * through the setters, so each token of both classes is invalidated.
     * `otherClassIsMeta` is `other.getSqueakClass().isMetaClass()`.
     */
    method Become(other: ClassObject, otherClassIsMeta: bool)
      modifies this, other
      ensures other != this ==> State() == old(other.State()) && other.State() == old(State())
      ensures other == this ==> State() == old(State())
      ensures instancesAreClasses == otherClassIsMeta
      ensures other != this ==> other.instancesAreClasses == old(other.instancesAreClasses)
      ensures other != this ==>
        classHierarchyStable == old(classHierarchyStable) + 1 && methodDictStable == old(methodDictStable) + 1 &&
        classFormatStable == old(classFormatStable) + 1 &&
        other.classHierarchyStable == old(other.classHierarchyStable) + 1 &&
        other.methodDictStable == old(other.methodDictStable) + 1 &&
        other.classFormatStable == old(other.classFormatStable) + 1
      ensures other == this ==>
        classHierarchyStable == old(classHierarchyStable) + 2 && methodDictStable == old(methodDictStable) + 2 &&
        classFormatStable == old(classFormatStable) + 2
    {
      if instancesAreClasses != otherClassIsMeta {
        instancesAreClasses := otherClassIsMeta;
      }
      var otherSuperclass := other.superclass;
      var otherMethodDict := other.methodDict;
      var otherFormat := other.format;
      var otherInstanceVariables := other.instanceVariables;
      var otherOrganization := other.organization;
      var otherPointers := other.pointers;

      other.SetSuperclass(superclass);
      other.SetMethodDict(methodDict);
      other.SetFormat(format);
      other.SetInstanceVariables(instanceVariables);
      other.SetOrganization(organization);
      other.SetOtherPointers(pointers);

      SetSuperclass(otherSuperclass);
      SetMethodDict(otherMethodDict);
      SetFormat(otherFormat);
      SetInstanceVariables(otherInstanceVariables);
      SetOrganization(otherOrganization);
      SetOtherPointers(otherPointers);
    }

    /**
     * `listMethods`: the non-nil selectors of this class's method
     * dictionary from slot `NAMES` on, then those of each superclass in turn.
     * `dicts` holds the slots of every method-dictionary object; `chain`
     * is the superclass chain, on which the Java loop ends.
     */
    method ListMethods(dicts: map<nat, seq<Value>>, ghost chain: seq<ClassObject>) returns (r: Result<seq<Value>, AccessError>)
      requires IsSuperclassChain(chain) && chain[0] == this
      requires DictsPresent(chain, dicts)
      ensures r == MethodsOfChain(chain, dicts, 0)
    {
      var methodNames: seq<Value> := [];
      var lookupClass: ClassObject? := this;
      ghost var k := 0;
      PrependNothing(MethodsOfChain(chain, dicts, 0));
      while lookupClass != null
        invariant 0 <= k <= |chain|
        invariant k < |chain| ==> lookupClass == chain[k]
        invariant k == |chain| <==> lookupClass == null
        invariant MethodsOfChain(chain, dicts, 0) == Prepend(methodNames, MethodsOfChain(chain, dicts, k))
        decreases |chain| - k
      {
        if lookupClass.methodDict.None? {
          return Failure(NullPointer);
        }
        var methodDictObject := dicts[lookupClass.methodDict.value];
        ghost var before := methodNames;
        var i := NAMES;
        while i < |methodDictObject|
          invariant NAMES <= i && (i <= |methodDictObject| || i == NAMES)
          invariant methodNames == before + Selectors(methodDictObject, i)
        {
          var methodSelector := methodDictObject[i];
          if methodSelector != Nil {
            methodNames := methodNames + [methodSelector];
          }
          i := i + 1;
        }
        assert Selectors(methodDictObject, i) == Selectors(methodDictObject, |methodDictObject|);
        PrependTwice(before, Selectors(methodDictObject, i), MethodsOfChain(chain, dicts, k + 1));
        lookupClass := lookupClass.superclass;
        k := k + 1;
      }
      assert methodNames + [] == methodNames;
      return Success(methodNames);
    }
  }

  // ---------------------------------------------------------------------
  // The superclass chain and the method listing as values

  /** `chain` follows `superclass` links from `chain[0]` up to a class whose superclass is null. */
  ghost predicate IsSuperclassChain(chain: seq<ClassObject>)
    reads set i | 0 <= i < |chain| :: chain[i]
  {
    |chain| > 0 && chain[|chain| - 1].superclass == null &&
    forall i :: 0 <= i < |chain| - 1 ==> chain[i].superclass == chain[i + 1]
  }

  /** Every method dictionary on the chain has its slots in `dicts`. */
  ghost predicate DictsPresent(chain: seq<ClassObject>, dicts: map<nat, seq<Value>>)
    reads set i | 0 <= i < |chain| :: chain[i]
  {
    forall i :: 0 <= i < |chain| && chain[i].methodDict.Some? ==> chain[i].methodDict.value in dicts
  }

  /** The non-nil entries of `slots[NAMES..hi]`, in order. */
  function Selectors(slots: seq<Value>, hi: int): (r: seq<Value>)
    requires hi <= |slots| || hi <= NAMES
    ensures Nil !in r
    decreases hi
  {
    if hi <= NAMES then [] else Selectors(slots, hi - 1) + (if slots[hi - 1] != Nil then [slots[hi - 1]] else [])
  }

  function Prepend(p: seq<Value>, r: Result<seq<Value>, AccessError>): Result<seq<Value>, AccessError> {
    if r.Success? then Success(p + r.value) else r
  }

  lemma PrependNothing(r: Result<seq<Value>, AccessError>)
    ensures Prepend([], r) == r
  {
    if r.Success? {
      assert [] + r.value == r.value;
    }
  }

  lemma PrependTwice(a: seq<Value>, b: seq<Value>, r: Result<seq<Value>, AccessError>)
    ensures Prepend(a, Prepend(b, r)) == Prepend(a + b, r)
  {
    if r.Success? {
      assert a + (b + r.value) == (a + b) + r.value;
    }
  }

  /** What `listMethods` yields when it starts at `chain[k]`. */
  ghost function MethodsOfChain(chain: seq<ClassObject>, dicts: map<nat, seq<Value>>, k: nat): Result<seq<Value>, AccessError>
    requires k <= |chain| && DictsPresent(chain, dicts)
    reads set i | 0 <= i < |chain| :: chain[i]
    decreases |chain| - k
  {
    if k == |chain| then Success([])
    else if chain[k].methodDict.None? then Failure(NullPointer)
    else
      var slots := dicts[chain[k].methodDict.value];
      Prepend(Selectors(slots, |slots|), MethodsOfChain(chain, dicts, k + 1))
  }

  /** `x` is a non-nil entry in slots `NAMES..` of `slots`. */
  predicate ListedIn(slots: seq<Value>, x: Value) {
    x != Nil && exists j :: NAMES <= j < |slots| && slots[j] == x
  }

  lemma SelectorsMembers(slots: seq<Value>, hi: int, x: Value)
    requires hi <= |slots| || hi <= NAMES
    ensures x in Selectors(slots, hi) <==> x != Nil && exists j :: NAMES <= j < hi && slots[j] == x
    decreases hi
  {
    if hi > NAMES {
      SelectorsMembers(slots, hi - 1, x);
    }
  }

  /**
   * The listing fails exactly when some class on the chain has no method
   * dictionary; otherwise it holds exactly the non-nil selectors of every
   * dictionary on the chain.
   */
  lemma {:induction false} MethodsOfChainMembers(chain: seq<ClassObject>, dicts: map<nat, seq<Value>>, k: nat, x: Value)
    requires k <= |chain| && DictsPresent(chain, dicts)
    ensures MethodsOfChain(chain, dicts, k).Failure? <==> exists i :: k <= i < |chain| && chain[i].methodDict.None?
    ensures MethodsOfChain(chain, dicts, k).Success? ==>
      (x in MethodsOfChain(chain, dicts, k).value <==>
       exists i :: k <= i < |chain| && ListedIn(dicts[chain[i].methodDict.value], x))
    decreases |chain| - k
  {
    if k < |chain| && chain[k].methodDict.Some? {
      MethodsOfChainMembers(chain, dicts, k + 1, x);
      var slots := dicts[chain[k].methodDict.value];
      SelectorsMembers(slots, |slots|, x);
      var rest := MethodsOfChain(chain, dicts, k + 1);
      if rest.Success? {
        if x in Selectors(slots, |slots|) {
          assert ListedIn(slots, x);
        }
        if exists i :: k <= i < |chain| && ListedIn(dicts[chain[i].methodDict.value], x) {
          var i :| k <= i < |chain| && ListedIn(dicts[chain[i].methodDict.value], x);
          if i == k {
            assert x in Selectors(slots, |slots|);
          } else {
            assert x in rest.value;
          }
        }
      }
    }
  }

  /** The listing begins with this class's own selectors. */
  lemma ListingStartsWithOwnClass(chain: seq<ClassObject>, dicts: map<nat, seq<Value>>)
    requires |chain| > 0 && DictsPresent(chain, dicts) && chain[0].methodDict.Some?
    requires MethodsOfChain(chain, dicts, 0).Success?
    ensures var slots := dicts[chain[0].methodDict.value];
      MethodsOfChain(chain, dicts, 0).value[..|Selectors(slots, |slots|)|] == Selectors(slots, |slots|)
  {
  }

  // ---------------------------------------------------------------------
  // Format classification

  lemma FormatClassification(c: ClassObject)
    ensures c.IsVariable() <==> c.InstanceSpecification() in {2, 3, 4} || c.InstanceSpecification() >= 9
    ensures c.IsFixed() <==> !c.IsVariable()
    ensures c.IsPointers() <==> c.InstanceSpecification() < 7
    ensures c.IsCompiledMethodClassType() ==> c.IsBytes()
    ensures c.IsBytes() ==> c.IsBits()
  {
  }

  /** Two `become`s in a row restore both classes. */
  method BecomeTwice(a: ClassObject, b: ClassObject, aClassIsMeta: bool, bClassIsMeta: bool)
    modifies a, b
    ensures a.State() == old(a.State()) && b.State() == old(b.State())
  {
    a.Become(b, bClassIsMeta);
    a.Become(b, aClassIsMeta);
  }
}
