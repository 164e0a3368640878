/**
 * `PointersObject`: an object with named fields only, accessed through its
 * layout, and the linked-list operations the scheduler uses on process
 * queues (a `LinkedList` holds its first and last link; each `Process`
 * holds its next link).
 */
module PointersObjects {
  import opened Wrappers
  import opened PointersObjectNodes

  const FIRST_LINK: int := 0
  const LAST_LINK: int := 1
  const NEXT_LINK: int := 0

  datatype ListError = ClassCast

  /** `at0`: delegates to the read node, which refreshes an invalid layout and reads the field through its location. */
  method At0(obj: AbstractPointersObject, i: int) returns (v: Value)
    requires obj.Valid() && 0 <= i < obj.InstSize()
    modifies obj
    ensures obj.Valid() && obj.LayoutIsValid()
    ensures v == obj.values[i] && obj.values == old(obj.values)
    ensures old(obj.LayoutIsValid()) ==> obj.layout == old(obj.layout)
  {
    v := Read(obj, i);
  }

  /**
   * `atput0`: if the field's location (in the object's layout, valid or not)
   * cannot store the value, the layout evolves first; the write then succeeds.
   */
  method Atput0(obj: AbstractPointersObject, i: int, value: Value)
    requires obj.Valid() && 0 <= i < obj.InstSize()
    modifies obj, obj.squeakClass
    ensures obj.InstSize() == old(obj.InstSize())
    ensures obj.Valid() && CanStore(obj.layout[i], value)
    ensures obj.values == old(obj.values)[i := value]
    ensures old(CanStore(obj.layout[i], value)) ==>
      obj.layout == old(obj.layout) && obj.squeakClass.layout == old(obj.squeakClass.layout)
    ensures !old(CanStore(obj.layout[i], value)) ==>
      obj.LayoutIsValid() &&
      obj.squeakClass.layout == old(obj.squeakClass.layout)[i := Evolve(old(obj.squeakClass.layout)[i], value)]
  {
    if !CanStore(obj.layout[i], value) {
      obj.UpdateLayoutFor(i, value);
    }
    obj.WriteLocation(i, value);
  }

  /** `size()` is `instsize()`. */
  function Size(obj: AbstractPointersObject): (r: nat)
    reads obj
    ensures r == obj.InstSize()
  {
    obj.InstSize()
  }

  /** `create`: a new instance of `squeakClass` whose field `i` holds `pointers[i]`. */
  method Create(squeakClass: ClassLayout, pointers: seq<Value>) returns (obj: AbstractPointersObject)
    requires |pointers| <= |squeakClass.layout|
    modifies squeakClass
    ensures fresh(obj) && obj.squeakClass == squeakClass && obj.Valid()
    ensures obj.values == pointers + seq(old(|squeakClass.layout|) - |pointers|, _ => Nil)
  {
    obj := new AbstractPointersObject(squeakClass);
    ghost var n := |squeakClass.layout|;
    var i := 0;
    while i < |pointers|
      invariant 0 <= i <= |pointers| && obj.Valid() && obj.squeakClass == squeakClass
      invariant |obj.values| == |squeakClass.layout| == n
      invariant obj.values == pointers[..i] + seq(n - i, _ => Nil)
      modifies obj, squeakClass
    {
      Write(obj, i, pointers[i]);
      assert pointers[..i + 1] == pointers[..i] + [pointers[i]];
      i := i + 1;
    }
    assert pointers[..i] == pointers;
  }

  /** `isEmptyList`: the first link is nil. */
  method IsEmptyList(list: AbstractPointersObject) returns (r: bool)
    requires list.Valid() && list.InstSize() > LAST_LINK
    modifies list
    ensures list.Valid() && list.values == old(list.values)
    ensures r <==> list.values[FIRST_LINK] == Nil
  {
    var first := At0(list, FIRST_LINK);
    r := first == Nil;
  }

  /** The first link of `list`, when it is a pointers object that can hold a next link. */
  ghost predicate FirstLinkWellFormed(list: AbstractPointersObject)
    reads list, set v | v == list.values[FIRST_LINK] && v.Ref? :: v.obj
    reads set v | v == list.values[FIRST_LINK] && v.Ref? :: v.obj.squeakClass
    requires |list.values| > FIRST_LINK
  {
    var first := list.values[FIRST_LINK];
    first.Ref? ==> first.obj != list && first.obj.Valid() && first.obj.InstSize() > NEXT_LINK
  }

  /**
   * `removeFirstLinkOfList`: unlinks and returns the first link. A list of
   * one link becomes empty; otherwise the first link becomes the old first
   * link's successor and the last link is kept. The removed link's next
   * link becomes nil. A first link that is not a pointers object (an empty
   * list's nil) fails the cast.
   */
  method RemoveFirstLinkOfList(list: AbstractPointersObject) returns (r: Result<AbstractPointersObject, ListError>)
    requires list.Valid() && list.InstSize() > LAST_LINK && FirstLinkWellFormed(list)
    modifies list, list.squeakClass
    modifies if list.values[FIRST_LINK].Ref? then {list.values[FIRST_LINK].obj, list.values[FIRST_LINK].obj.squeakClass} else {}
    ensures list.Valid()
    ensures r.Failure? <==> !old(list.values[FIRST_LINK]).Ref?
    ensures r.Failure? ==> list.values == old(list.values)
    ensures r.Success? ==> Ref(r.value) == old(list.values[FIRST_LINK])
    ensures r.Success? ==> r.value.Valid() && r.value.values == old(r.value.values)[NEXT_LINK := Nil]
    ensures r.Success? && old(list.values[FIRST_LINK] == list.values[LAST_LINK]) ==>
      list.values == old(list.values)[FIRST_LINK := Nil][LAST_LINK := Nil]
    ensures r.Success? && old(list.values[FIRST_LINK] != list.values[LAST_LINK]) ==>
      list.values == old(list.values)[FIRST_LINK := old(r.value.values[NEXT_LINK])]
  {
    var firstValue := At0(list, FIRST_LINK);
    if !firstValue.Ref? {
      return Failure(ClassCast);
    }
    var first := firstValue.obj;
    var last := At0(list, LAST_LINK);
    if firstValue == last {
      SetLink(list, first, FIRST_LINK, Nil);
      SetLink(list, first, LAST_LINK, Nil);
    } else {
      var next := At0(first, NEXT_LINK);
      SetLink(list, first, FIRST_LINK, next);
    }
    ClearNextLink(list, first);
    return Success(first);
  }

  /** `atput0(list, i, value)`, which keeps `first` (another object, maybe of the same class) valid. */
  method SetLink(list: AbstractPointersObject, first: AbstractPointersObject, i: int, value: Value)
    requires list.Valid() && first.Valid() && first != list && 0 <= i < list.InstSize()
    modifies list, list.squeakClass
    ensures list.Valid() && list.InstSize() == old(list.InstSize()) && list.values == old(list.values)[i := value]
    ensures first.Valid() && first.values == old(first.values)
  {
    ghost var before := list.squeakClass.layout;
    ghost var firstLayout := first.layout;
    Atput0(list, i, value);
    if first.squeakClass == list.squeakClass {
      LayoutGeneralisesTransitive(first.squeakClass.layout, before, firstLayout);
    }
  }

  /** `atput0(first, NEXT_LINK, nil)`, which keeps `list` (another object, maybe of the same class) valid. */
  method ClearNextLink(list: AbstractPointersObject, first: AbstractPointersObject)
    requires list.Valid() && first.Valid() && first != list && first.InstSize() > NEXT_LINK
    modifies first, first.squeakClass
    ensures list.Valid() && list.values == old(list.values)
    ensures first.Valid() && first.values == old(first.values)[NEXT_LINK := Nil]
  {
    ghost var beforeLast := first.squeakClass.layout;
    ghost var listLayout := list.layout;
    Atput0(first, NEXT_LINK, Nil);
    if first.squeakClass == list.squeakClass {
      LayoutGeneralisesTransitive(list.squeakClass.layout, beforeLast, listLayout);
    }
  }
}
