/**
 * `WeakPointersObject`: named fields stored through a layout, followed by a
 * variable part of weak references. A weak reference is `Some(referent)`
 * while its referent is alive and `None` once the garbage collector has
 * cleared it; a cleared slot reads as nil. The collector itself is not
 * modelled: `ClearReferent` is the environment clearing one slot.
 */
module WeakPointersObjects {
  import opened Wrappers
  import opened PointersObjectNodes

  /** `NilObject.nullToNil(ref.get())`: a cleared reference reads as nil. */
  function Referent(slot: Option<Value>): Value {
    if slot.None? then Nil else slot.value
  }

  class WeakPointersObject {
    /** The named part (`AbstractPointersObject`'s fields and layout). */
    const named: AbstractPointersObject
    var variablePart: array<Option<Value>>

    /** A new instance with `variableSize` slots, each a reference to nil. */
    constructor(squeakClass: ClassLayout, variableSize: nat)
      ensures fresh(named) && fresh(variablePart)
      ensures named.squeakClass == squeakClass && named.Valid()
      ensures named.values == seq(|squeakClass.layout|, _ => Nil)
      ensures Size() == |squeakClass.layout| + variableSize
      ensures forall j :: 0 <= j < variableSize ==> variablePart[j] == Some(Nil)
      ensures forall j :: 0 <= j < variableSize ==> GetFromVariablePart(j) == Nil
    {
      named := new AbstractPointersObject(squeakClass);
      variablePart := new Option<Value>[variableSize](_ => Some(Nil));
    }

    /** The private copy constructor: a copy of the named part and a clone of the variable part. */
    constructor CopyOf(original: WeakPointersObject)
      requires original.named.Valid()
      ensures fresh(named) && fresh(variablePart)
      ensures named.squeakClass == original.named.squeakClass && named.Valid()
      ensures named.layout == original.named.layout && named.values == original.named.values
      ensures variablePart[..] == original.variablePart[..]
    {
      named := new AbstractPointersObject.CopyOf(original.named);
      var source := original.variablePart;
      variablePart := new Option<Value>[source.Length](k reads source => if 0 <= k < source.Length then source[k] else None);
    }

    /** `size()`: the named fields followed by the variable slots. */
    function Size(): nat
      reads this, named
    {
      named.InstSize() + variablePart.Length
    }

    /** `getFromVariablePart(index)`. */
    function GetFromVariablePart(index: int): (v: Value)
      requires 0 <= index < variablePart.Length
      reads this, variablePart
      ensures variablePart[index].None? ==> v == Nil
      ensures variablePart[index].Some? ==> v == variablePart[index].value
    {
      Referent(variablePart[index])
    }

    /** `putIntoVariablePart(index, value)`: the slot gets a new weak reference to `value`. */
    method PutIntoVariablePart(index: int, value: Value)
      requires 0 <= index < variablePart.Length
      modifies variablePart
      ensures variablePart[..] == old(variablePart[..])[index := Some(value)]
      ensures GetFromVariablePart(index) == value
    {
      variablePart[index] := Some(value);
    }

    /** The collector clearing the referent of one slot. */
    method ClearReferent(index: int)
      requires 0 <= index < variablePart.Length
      modifies variablePart
      ensures variablePart[..] == old(variablePart[..])[index := None]
      ensures GetFromVariablePart(index) == Nil
    {
      variablePart[index] := None;
    }

    /**
     * `become(other)` as written: `otherVariablePart` is the same array as
     * `other.variablePart`, so once this object's slots have been copied
     * into it, copying it back copies this object's own slots. Both objects
     * end with this object's old slots and `other`'s slots are lost. The
     * named part (`becomeLayout`) is not part of this model.
     */
    method BecomeAsWritten(other: WeakPointersObject)
      requires variablePart.Length == other.variablePart.Length
      modifies variablePart, other.variablePart
      ensures variablePart[..] == old(variablePart[..])
      ensures other.variablePart[..] == old(variablePart[..])
    {
      var otherVariablePart := other.variablePart;
      ArrayCopy(variablePart, other.variablePart);
      ArrayCopy(otherVariablePart, variablePart);
    }

    /**
     * `become(other)` as intended: the slots are exchanged in place, both
     * objects keeping their arrays. `other`'s slots are saved before they
     * are overwritten.
     */
    method Become(other: WeakPointersObject)
      requires variablePart.Length == other.variablePart.Length
      modifies variablePart, other.variablePart
      ensures variablePart[..] == old(other.variablePart[..])
      ensures other.variablePart[..] == old(variablePart[..])
    {
      var source := other.variablePart;
      var saved := new Option<Value>[source.Length](k reads source => if 0 <= k < source.Length then source[k] else None);
      ArrayCopy(variablePart, other.variablePart);
      ArrayCopy(saved, variablePart);
    }

    /**
     * The variable-part half of `pointersBecomeOneWay`: for each `i` in
     * order, every slot whose referent is `from[i]` (a cleared slot reads
     * as nil) gets a reference to `to[i]`.
     */
    method PointersBecomeOneWay(from: seq<Value>, to: seq<Value>)
      requires |from| <= |to|
      modifies variablePart
      ensures variablePart[..] == BecomeOneWayOf(old(variablePart[..]), from, to, |from|)
    {
      var variableSize := variablePart.Length;
      if variableSize > 0 {
        var i := 0;
        while i < |from|
          invariant 0 <= i <= |from|
          invariant variablePart[..] == BecomeOneWayOf(old(variablePart[..]), from, to, i)
        {
          var fromPointer := from[i];
          ghost var before := variablePart[..];
          var j := 0;
          while j < variableSize
            invariant 0 <= j <= variableSize
            invariant forall k :: 0 <= k < j ==> variablePart[k] == ReplacePass(before, fromPointer, to[i])[k]
            invariant forall k :: j <= k < variableSize ==> variablePart[k] == before[k]
          {
            var referent := GetFromVariablePart(j);
            if referent == fromPointer {
              PutIntoVariablePart(j, to[i]);
            }
            j := j + 1;
          }
          assert variablePart[..] == ReplacePass(before, fromPointer, to[i]);
          i := i + 1;
        }
      } else {
        BecomeOneWayLength(variablePart[..], from, to, |from|);
      }
    }

    /**
     * `pointsTo(thang)`: some named field holds `thang`, or some live weak
     * reference refers to it (a cleared reference refers to nothing, not
     * even nil).
     */
    method PointsTo(thang: Value) returns (r: bool)
      ensures r <==> (exists i :: 0 <= i < |named.values| && named.values[i] == thang) ||
                     (exists j :: 0 <= j < variablePart.Length && variablePart[j] == Some(thang))
    {
      var i := 0;
      while i < |named.values|
        invariant 0 <= i <= |named.values|
        invariant forall k :: 0 <= k < i ==> named.values[k] != thang
      {
        if named.values[i] == thang {
          return true;
        }
        i := i + 1;
      }
      r := VariablePartPointsTo(thang);
    }

    /** `variablePartPointsTo(thang)`. */
    method VariablePartPointsTo(thang: Value) returns (r: bool)
      ensures r <==> exists j :: 0 <= j < variablePart.Length && variablePart[j] == Some(thang)
    {
      var j := 0;
      while j < variablePart.Length
        invariant 0 <= j <= variablePart.Length
        invariant forall k :: 0 <= k < j ==> variablePart[k] != Some(thang)
      {
        if variablePart[j] == Some(thang) {
          return true;
        }
        j := j + 1;
      }
      return false;
    }

    /** `shallowCopy()`. */
    method ShallowCopy() returns (c: WeakPointersObject)
      requires named.Valid()
      ensures fresh(c) && fresh(c.named) && fresh(c.variablePart)
      ensures c.named.squeakClass == named.squeakClass && c.named.values == named.values
      ensures c.variablePart[..] == variablePart[..]
    {
      c := new WeakPointersObject.CopyOf(this);
    }

    /**
     * `fillin(chunk)`: the first `instSize` pointers of the image chunk are
     * written into the named fields; the rest become a new variable part
     * of weak references to them.
     */
    method Fillin(chunk: seq<Value>)
      requires named.Valid() && named.InstSize() <= |chunk|
      modifies this, named, named.squeakClass
      ensures named.Valid() && named.InstSize() == old(named.InstSize())
      ensures named.values == chunk[..named.InstSize()]
      ensures fresh(variablePart) && Size() == |chunk|
      ensures forall k :: 0 <= k < variablePart.Length ==> variablePart[k] == Some(chunk[named.InstSize() + k])
    {
      var instSize := named.InstSize();
      var i := 0;
      while i < instSize
        invariant 0 <= i <= instSize && named.Valid() && named.InstSize() == instSize
        invariant |named.values| == instSize
        invariant forall k :: 0 <= k < i ==> named.values[k] == chunk[k]
        modifies named, named.squeakClass
      {
        Write(named, i, chunk[i]);
        i := i + 1;
      }
      assert named.values == chunk[..instSize];
      var part := new Option<Value>[|chunk| - instSize];
      i := instSize;
      while i < |chunk|
        invariant instSize <= i <= |chunk|
        invariant forall k :: 0 <= k < i - instSize ==> part[k] == Some(chunk[instSize + k])
        modifies part
      {
        part[i - instSize] := Some(chunk[i]);
        i := i + 1;
      }
      variablePart := part;
    }
  }

  /**
   * The weak read node: indices below `instsize` read a named field through
   * the read node; the rest read the weak variable part, a cleared slot
   * reading as nil.
   */
  method WeakRead(obj: WeakPointersObject, index: int) returns (v: Value)
    requires obj.named.Valid() && 0 <= index < obj.Size()
    modifies obj.named
    ensures obj.named.Valid() && obj.named.values == old(obj.named.values)
    ensures index < old(obj.named.InstSize()) ==> v == obj.named.values[index]
    ensures index >= old(obj.named.InstSize()) ==>
      v == Referent(obj.variablePart[index - old(obj.named.InstSize())])
  {
    if index < obj.named.InstSize() {
      v := Read(obj.named, index);
    } else {
      v := obj.GetFromVariablePart(index - obj.named.InstSize());
    }
  }

  /**
   * The weak write node: indices below `instsize` write a named field
   * through the write node; the rest store a new weak reference.
   */
  method WeakWrite(obj: WeakPointersObject, index: int, value: Value)
    requires obj.named.Valid() && 0 <= index < obj.Size()
    modifies obj.named, obj.named.squeakClass, obj.variablePart
    ensures obj.named.Valid()
    ensures index < old(obj.named.InstSize()) ==>
      obj.named.values == old(obj.named.values)[index := value] &&
      obj.variablePart[..] == old(obj.variablePart[..])
    ensures index >= old(obj.named.InstSize()) ==>
      obj.variablePart[..] == old(obj.variablePart[..])[index - old(obj.named.InstSize()) := Some(value)] &&
      obj.named.values == old(obj.named.values) && obj.named.layout == old(obj.named.layout)
  {
    if index < obj.named.InstSize() {
      Write(obj.named, index, value);
    } else {
      obj.PutIntoVariablePart(index - obj.named.InstSize(), value);
    }
  }

  /**
   * `System.arraycopy(src, 0, dst, 0, src.Length)`: the first slots of
   * `dst` get `src`'s old slots, even when the two are the same array.
   */
  method ArrayCopy(src: array<Option<Value>>, dst: array<Option<Value>>)
    requires src.Length <= dst.Length
    modifies dst
    ensures dst[..src.Length] == old(src[..])
    ensures dst[src.Length..] == old(dst[src.Length..])
  {
    var i := 0;
    while i < src.Length
      invariant 0 <= i <= src.Length
      invariant forall k :: 0 <= k < i ==> dst[k] == old(src[k])
      invariant forall k :: i <= k < src.Length ==> src[k] == old(src[k])
      invariant forall k :: src.Length <= k < dst.Length ==> dst[k] == old(dst[k])
    {
      dst[i] := src[i];
      i := i + 1;
    }
  }

  /** Two weak objects whose single slots refer to nil and to another object. */
  method BecomeAsWrittenLosesSlots() returns (thisAfter: seq<Option<Value>>, otherAfter: seq<Option<Value>>)
    ensures thisAfter == [Some(Nil)] && otherAfter == [Some(Nil)]
  {
    var squeakClass := new ClassLayout(0);
    var a := new WeakPointersObject(squeakClass, 1);
    var b := new WeakPointersObject(squeakClass, 1);
    b.PutIntoVariablePart(0, Other(1));
    a.BecomeAsWritten(b);
    thisAfter, otherAfter := a.variablePart[..], b.variablePart[..];
  }

  /** The intended `become` on the same two objects exchanges their slots. */
  method BecomeSwapsSlots() returns (thisAfter: seq<Option<Value>>, otherAfter: seq<Option<Value>>)
    ensures thisAfter == [Some(Other(1))] && otherAfter == [Some(Nil)]
  {
    var squeakClass := new ClassLayout(0);
    var a := new WeakPointersObject(squeakClass, 1);
    var b := new WeakPointersObject(squeakClass, 1);
    b.PutIntoVariablePart(0, Other(1));
    a.Become(b);
    thisAfter, otherAfter := a.variablePart[..], b.variablePart[..];
  }

  /** A copy does not share its slots: writing into the copy leaves the original as it was. */
  method ShallowCopyIsIndependent(obj: WeakPointersObject, j: int, value: Value) returns (c: WeakPointersObject)
    requires obj.named.Valid() && 0 <= j < obj.variablePart.Length
    ensures c.variablePart.Length == obj.variablePart.Length && c.GetFromVariablePart(j) == value
    ensures obj.variablePart[..] == old(obj.variablePart[..])
  {
    c := obj.ShallowCopy();
    c.PutIntoVariablePart(j, value);
  }

  // ---------------------------------------------------------------------
  // The variable part after `pointersBecomeOneWay`

  /** One pass of the outer loop: every slot whose referent is `f` now refers to `t`. */
  function ReplacePass(slots: seq<Option<Value>>, f: Value, t: Value): (r: seq<Option<Value>>)
    ensures |r| == |slots|
  {
    seq(|slots|, j requires 0 <= j < |slots| => if Referent(slots[j]) == f then Some(t) else slots[j])
  }

  /** The slots after the first `n` passes. */
  function BecomeOneWayOf(slots: seq<Option<Value>>, from: seq<Value>, to: seq<Value>, n: nat): seq<Option<Value>>
    requires n <= |from| <= |to|
  {
    if n == 0 then slots else ReplacePass(BecomeOneWayOf(slots, from, to, n - 1), from[n - 1], to[n - 1])
  }

  lemma {:induction false} BecomeOneWayLength(slots: seq<Option<Value>>, from: seq<Value>, to: seq<Value>, n: nat)
    requires n <= |from| <= |to|
    ensures |BecomeOneWayOf(slots, from, to, n)| == |slots|
  {
    if n > 0 {
      BecomeOneWayLength(slots, from, to, n - 1);
    }
  }

  /** A slot whose referent is none of `from[..n]` is left as it was. */
  lemma {:induction false} BecomeOneWayKeepsUnmatched(slots: seq<Option<Value>>, from: seq<Value>, to: seq<Value>, n: nat, j: int)
    requires n <= |from| <= |to| && 0 <= j < |slots|
    requires forall i :: 0 <= i < n ==> Referent(slots[j]) != from[i]
    ensures |BecomeOneWayOf(slots, from, to, n)| == |slots|
    ensures BecomeOneWayOf(slots, from, to, n)[j] == slots[j]
  {
    BecomeOneWayLength(slots, from, to, n);
    if n > 0 {
      BecomeOneWayKeepsUnmatched(slots, from, to, n - 1, j);
    }
  }

  /** A slot whose referent is some `from[i]` refers to some `to[k]` afterwards. */
  lemma {:induction false} BecomeOneWayRedirectsMatched(slots: seq<Option<Value>>, from: seq<Value>, to: seq<Value>, n: nat, j: int, i: int)
    requires n <= |from| <= |to| && 0 <= j < |slots| && 0 <= i < n
    requires Referent(slots[j]) == from[i]
    ensures |BecomeOneWayOf(slots, from, to, n)| == |slots|
    ensures exists k :: 0 <= k < n && BecomeOneWayOf(slots, from, to, n)[j] == Some(to[k])
  {
    BecomeOneWayLength(slots, from, to, n);
    var prev := BecomeOneWayOf(slots, from, to, n - 1);
    BecomeOneWayLength(slots, from, to, n - 1);
    if Referent(prev[j]) == from[n - 1] {
      assert BecomeOneWayOf(slots, from, to, n)[j] == Some(to[n - 1]);
    } else if i < n - 1 {
      BecomeOneWayRedirectsMatched(slots, from, to, n - 1, j, i);
      var k :| 0 <= k < n - 1 && prev[j] == Some(to[k]);
      assert BecomeOneWayOf(slots, from, to, n)[j] == Some(to[k]);
    } else {
      BecomeOneWayKeepsUnmatchedOrRedirected(slots, from, to, n - 1, j);
      var k :| 0 <= k < n - 1 && prev[j] == Some(to[k]);
      assert BecomeOneWayOf(slots, from, to, n)[j] == Some(to[k]);
    }
  }

  /**
   * After `n` passes a slot is either unchanged with a referent outside
   * `from[..n]`, or refers to some `to[k]`.
   */
  lemma {:induction false} BecomeOneWayKeepsUnmatchedOrRedirected(slots: seq<Option<Value>>, from: seq<Value>, to: seq<Value>, n: nat, j: int)
    requires n <= |from| <= |to| && 0 <= j < |slots|
    ensures |BecomeOneWayOf(slots, from, to, n)| == |slots|
    ensures BecomeOneWayOf(slots, from, to, n)[j] == slots[j] ||
            exists k :: 0 <= k < n && BecomeOneWayOf(slots, from, to, n)[j] == Some(to[k])
  {
    BecomeOneWayLength(slots, from, to, n);
    if n > 0 {
      BecomeOneWayKeepsUnmatchedOrRedirected(slots, from, to, n - 1, j);
      BecomeOneWayLength(slots, from, to, n - 1);
      var prev := BecomeOneWayOf(slots, from, to, n - 1);
      if Referent(prev[j]) == from[n - 1] {
        assert BecomeOneWayOf(slots, from, to, n)[j] == Some(to[n - 1]);
      } else if prev[j] != slots[j] {
        var k :| 0 <= k < n - 1 && prev[j] == Some(to[k]);
        assert BecomeOneWayOf(slots, from, to, n)[j] == Some(to[k]);
      }
    }
  }

  /**
   * For a one-to-one become (the `from` objects distinct, and no `to`
   * object among them), a slot whose referent is `from[i]` ends referring
   * to `to[i]`.
   */
  lemma {:induction false} BecomeOneWayOneToOne(slots: seq<Option<Value>>, from: seq<Value>, to: seq<Value>, n: nat, j: int, i: int)
    requires n <= |from| <= |to| && 0 <= j < |slots| && 0 <= i < n
    requires forall a, b :: 0 <= a < b < |from| ==> from[a] != from[b]
    requires forall a, b :: 0 <= a < |to| && 0 <= b < |from| ==> to[a] != from[b]
    requires Referent(slots[j]) == from[i]
    ensures |BecomeOneWayOf(slots, from, to, n)| == |slots|
    ensures BecomeOneWayOf(slots, from, to, n)[j] == Some(to[i])
  {
    BecomeOneWayLength(slots, from, to, n);
    BecomeOneWayLength(slots, from, to, n - 1);
    var prev := BecomeOneWayOf(slots, from, to, n - 1);
    if i == n - 1 {
      BecomeOneWayKeepsUnmatched(slots, from, to, n - 1, j);
      assert BecomeOneWayOf(slots, from, to, n)[j] == Some(to[i]);
    } else {
      BecomeOneWayOneToOne(slots, from, to, n - 1, j, i);
      assert Referent(prev[j]) == to[i] != from[n - 1];
    }
  }
}
