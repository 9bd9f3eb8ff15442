/**
 * The collection field modifier: a closed set of policies (add one element,
 * possibly at an index; add all elements of a collection) that change the
 * collection a field currently holds, in place, instead of replacing the
 * field's value. When the field does not hold a collection, the policy does
 * nothing and reports false.
 *
 * The source applies the policies through three method descriptors
 * (Collection.add, List.add(int, Object), Collection.addAll) that it looks up
 * once; here their JDK behaviour is applied directly, as if the lookups had
 * found them. AddDescriptorsAbsent shows what the lookups give instead.
 */
module CollectionModifiers {
  import opened Jvm
  import ReflectUtil
  import WrappedFields
  import WrappedClasses

  datatype CollectionModifier = Add(index: int, toAdd: Value) | AddAll(values: seq<Value>)

  // ---------------------------------------------------------------------
  // Factories
  // ---------------------------------------------------------------------

  /** add(index, obj). */
  function AddAt(index: int, obj: Value): (m: CollectionModifier)
    ensures m.Add? && m.index == index && m.toAdd == obj
  {
    Add(index, obj)
  }

  /** add(obj): index -1, so the element is always appended. */
  function AddValue(obj: Value): (m: CollectionModifier)
    ensures m.Add? && m.index < 0 && m.toAdd == obj
  {
    AddAt(-1, obj)
  }

  /** The value a wrapper holds; an absent wrapper holds null. */
  function Unwrap(w: Option<Value>): Value {
    if w.Some? then w.value else Null
  }

  /** add(index, wrapper): adds the wrapped value (null if absent). */
  function AddWrapperAt(index: int, w: Option<Value>): (m: CollectionModifier)
    ensures m == Add(index, if w.Some? then w.value else Null)
  {
    Add(index, Unwrap(w))
  }

  /** add(wrapper): index -1. */
  function AddWrapper(w: Option<Value>): (m: CollectionModifier)
    ensures m == Add(-1, if w.Some? then w.value else Null)
    ensures m == AddWrapperAt(-1, w)
  {
    AddWrapperAt(-1, w)
  }

  /** addAll(collection): the collection's elements in iteration order. */
  function AddAllOf(collection: seq<Value>): (m: CollectionModifier)
    ensures m.AddAll? && m.values == collection
  {
    AddAll(collection)
  }

  /** The stream of addWrappers: present wrappers only, unwrapped, in order. */
  function Unwrapped(ws: seq<Option<Value>>): (vs: seq<Value>)
    ensures |vs| <= |ws|
    ensures forall i :: 0 <= i < |vs| ==> Some(vs[i]) in ws
    ensures forall i :: 0 <= i < |ws| && ws[i].Some? ==> ws[i].value in vs
  {
    if ws == [] then []
    else
      var rest := Unwrapped(ws[1..]);
      assert forall i :: 0 < i < |ws| ==> ws[i] == ws[1..][i - 1];
      if ws[0].Some? then [ws[0].value] + rest else rest
  }

  /** Filtering distributes over concatenation, so the original order is kept. */
  lemma {:induction false} UnwrappedAppend(a: seq<Option<Value>>, b: seq<Option<Value>>)
    ensures Unwrapped(a + b) == Unwrapped(a) + Unwrapped(b)
  {
    if a == [] {
      assert a + b == b;
    } else {
      assert (a + b)[1..] == a[1..] + b;
      UnwrappedAppend(a[1..], b);
    }
  }

  /** When every wrapper is present, nothing is dropped and each keeps its place. */
  lemma {:induction false} UnwrappedAllPresent(ws: seq<Option<Value>>)
    requires forall i :: 0 <= i < |ws| ==> ws[i].Some?
    ensures |Unwrapped(ws)| == |ws|
    ensures forall i :: 0 <= i < |ws| ==> Unwrapped(ws)[i] == ws[i].value
  {
    if ws != [] {
      UnwrappedAllPresent(ws[1..]);
    }
  }

  /** addWrappers(collection): addAll of the present wrappers' values. */
  function AddWrappers(ws: seq<Option<Value>>): (m: CollectionModifier)
    ensures m.AddAll? && m.values == Unwrapped(ws)
    ensures forall i :: 0 <= i < |m.values| ==> Some(m.values[i]) in ws
    ensures forall i :: 0 <= i < |ws| && ws[i].Some? ==> ws[i].value in m.values
  {
    AddAll(Unwrapped(ws))
  }

  // ---------------------------------------------------------------------
  // What the JDK calls do to a collection's elements
  // ---------------------------------------------------------------------

  /** The boolean a call returned and the collection's elements afterwards. */
  datatype Applied = Applied(result: Result<bool>, elements: seq<Value>)

  /**
   * Collection.add(x): a list appends and reports true; a set appends only an
   * element it does not hold yet and reports whether it did.
   */
  function CollectionAdd(shape: Shape, elements: seq<Value>, x: Value): (a: Applied)
    requires !shape.NotCollection?
    ensures a.result.Ok?
    ensures a.result.value <==> !(shape.SetCollection? && x in elements)
    ensures a.result.value ==> a.elements == elements + [x]
    ensures !a.result.value ==> a.elements == elements && shape.SetCollection? && x in elements
  {
    if shape.SetCollection? && x in elements then Applied(Ok(false), elements)
    else Applied(Ok(true), elements + [x])
  }

  /** List.add(index, x): inserts at index; beyond the end the call throws. */
  function ListInsert(elements: seq<Value>, index: nat, x: Value): (a: Applied)
    ensures index <= |elements| ==> a.result == Ok(true) && |a.elements| == |elements| + 1
    ensures index <= |elements| ==> a.elements[index] == x
                                    && a.elements[..index] == elements[..index]
                                    && a.elements[index + 1..] == elements[index..]
    ensures index > |elements| ==> a.result == Err(InvocationTarget) && a.elements == elements
  {
    if index <= |elements| then Applied(Ok(true), elements[..index] + [x] + elements[index..])
    else Applied(Err(InvocationTarget), elements)
  }

  /** Collection.addAll(values): Collection.add of each value in turn; true if any changed. */
  function CollectionAddAll(shape: Shape, elements: seq<Value>, values: seq<Value>): (a: Applied)
    requires !shape.NotCollection?
    ensures a.result.Ok?
    ensures |elements| <= |a.elements| && a.elements[..|elements|] == elements
    decreases |values|
  {
    if values == [] then Applied(Ok(false), elements)
    else
      var first := CollectionAdd(shape, elements, values[0]);
      var rest := CollectionAddAll(shape, first.elements, values[1..]);
      assert first.elements[..|elements|] == elements;
      Applied(Ok(first.result.value || rest.result.value), rest.elements)
  }

  /** On a list, addAll appends every value in iteration order; true iff there was one. */
  lemma {:induction false} ListAddAllAppends(elements: seq<Value>, values: seq<Value>)
    ensures CollectionAddAll(ListCollection, elements, values) == Applied(Ok(|values| > 0), elements + values)
    decreases |values|
  {
    if values != [] {
      ListAddAllAppends(elements + [values[0]], values[1..]);
      assert elements + [values[0]] + values[1..] == elements + values;
    }
  }

  /**
   * On a set, addAll leaves every value in the collection, adds nothing
   * else, and reports true exactly when some value was missing.
   */
  lemma {:induction false} SetAddAllContains(elements: seq<Value>, values: seq<Value>)
    ensures var a := CollectionAddAll(SetCollection, elements, values);
            && (forall v :: v in values ==> v in a.elements)
            && (forall v :: v in a.elements ==> v in elements || v in values)
            && (a.result.value <==> exists v :: v in values && v !in elements)
    decreases |values|
  {
    if values != [] {
      var first := CollectionAdd(SetCollection, elements, values[0]);
      SetAddAllContains(first.elements, values[1..]);
      var a := CollectionAddAll(SetCollection, elements, values);
      assert forall v :: v in values ==> v == values[0] || v in values[1..];
      assert values[0] in first.elements;
      if a.result.value {
        if !first.result.value {
          var v :| v in values[1..] && v !in first.elements;
          assert v in values && v !in elements;
        }
      }
    }
  }

  /**
   * The policy applied to a collection's current elements: Add inserts at a
   * non-negative index of a list, and otherwise (negative index, or a
   * collection that is not a list) calls Collection.add; AddAll calls
   * Collection.addAll.
   */
  function Apply(m: CollectionModifier, shape: Shape, elements: seq<Value>): (a: Applied)
    requires !shape.NotCollection?
    ensures a.result.Err? ==> m.Add? && m.index > |elements| && shape.ListCollection?
                              && a.elements == elements
    ensures forall i :: 0 <= i < |elements| ==> elements[i] in a.elements
    ensures m.Add? && a.result.Ok? ==> m.toAdd in a.elements
    ensures m.Add? ==> |a.elements| <= |elements| + 1
    ensures m.Add? && m.index > -1 && shape.ListCollection? ==> a == ListInsert(elements, m.index, m.toAdd)
    ensures m.Add? && (m.index <= -1 || shape.SetCollection?) ==> a == CollectionAdd(shape, elements, m.toAdd)
    ensures m.AddAll? ==> a == CollectionAddAll(shape, elements, m.values)
  {
    assert forall i :: 0 <= i < |elements| ==> elements[i] == elements[..|elements|][i];
    match m
    case Add(index, x) =>
      if index > -1 && shape.ListCollection? then ListInsert(elements, index, x)
      else CollectionAdd(shape, elements, x)
    case AddAll(values) => CollectionAddAll(shape, elements, values)
  }

  /** Add(1, x) on [a, b, c] gives [a, x, b, c]; Add(-1, x) gives [a, b, c, x]. */
  lemma AddExamples(a: Value, b: Value, c: Value, x: Value)
    ensures Apply(Add(1, x), ListCollection, [a, b, c]) == Applied(Ok(true), [a, x, b, c])
    ensures Apply(Add(-1, x), ListCollection, [a, b, c]) == Applied(Ok(true), [a, b, c, x])
  {
    assert [a, b, c][..1] == [a] && [a, b, c][1..] == [b, c];
  }

  /** Add with a negative index appends, list or not, as add(obj) does. */
  lemma NegativeIndexAppends(shape: Shape, elements: seq<Value>, x: Value, index: int)
    requires !shape.NotCollection? && index < 0
    ensures Apply(Add(index, x), shape, elements) == CollectionAdd(shape, elements, x)
    ensures shape.ListCollection? ==> Apply(AddValue(x), shape, elements) == Applied(Ok(true), elements + [x])
  {
  }

  /** AddAll of [1, 2, 3] on an empty list leaves the list holding [1, 2, 3]. */
  lemma AddAllExample()
    ensures var vs := [Boxed(Int, 1), Boxed(Int, 2), Boxed(Int, 3)];
            Apply(AddAll(vs), ListCollection, []) == Applied(Ok(true), vs)
  {
    var vs := [Boxed(Int, 1), Boxed(Int, 2), Boxed(Int, 3)];
    ListAddAllAppends([], vs);
  }

  // ---------------------------------------------------------------------
  // Applying a policy to a field
  // ---------------------------------------------------------------------

  /** The collection object the field currently holds in obj, if it holds one. */
  function Held(w: WrappedFields.WrappedField, obj: JObject): Option<JObject>
    reads obj
  {
    match WrappedFields.Provide(w, obj)
    case Ok(Ref(o)) => if o.shape.NotCollection? then None else Some(o)
    case _ => None
  }

  /** The objects a policy applied to that field may change. */
  function Footprint(w: WrappedFields.WrappedField, obj: JObject): set<object>
    reads obj
  {
    var h := Held(w, obj);
    if h.Some? then {h.value} else {}
  }

  /** Add.modify: the add-at-index or add call on the collection itself. */
  method AddModify(index: int, toAdd: Value, collection: JObject) returns (r: Result<bool>)
    requires !collection.shape.NotCollection?
    modifies collection
    ensures Applied(r, collection.elements) == Apply(Add(index, toAdd), collection.shape, old(collection.elements))
    ensures collection.fields == old(collection.fields)
  {
    if index > -1 && collection.shape.ListCollection? {
      if index <= |collection.elements| {
        collection.elements := collection.elements[..index] + [toAdd] + collection.elements[index..];
        r := Ok(true);
      } else {
        r := Err(InvocationTarget);
      }
    } else {
      var a := CollectionAdd(collection.shape, collection.elements, toAdd);
      collection.elements := a.elements;
      r := a.result;
    }
  }

  /** AddAll.modify: the addAll call on the collection itself. */
  method AddAllModify(values: seq<Value>, collection: JObject) returns (r: Result<bool>)
    requires !collection.shape.NotCollection?
    modifies collection
    ensures Applied(r, collection.elements) == Apply(AddAll(values), collection.shape, old(collection.elements))
    ensures collection.fields == old(collection.fields)
  {
    var a := CollectionAddAll(collection.shape, collection.elements, values);
    collection.elements := a.elements;
    r := a.result;
  }

  /**
   * modify(field, reference): reads the field; if it holds a collection, the
   * policy changes that collection's elements in place and its result is
   * returned; otherwise (null, an absent field, any other value) false and
   * nothing changes. A failing read is passed on. The field itself is never
   * written.
   */
  method Modify(m: CollectionModifier, w: WrappedFields.WrappedField, obj: JObject) returns (r: Result<bool>)
    modifies Footprint(w, obj)
    ensures obj.fields == old(obj.fields)
    ensures old(WrappedFields.Provide(w, obj)).Err? ==> r == Err(old(WrappedFields.Provide(w, obj)).error)
    ensures old(WrappedFields.Provide(w, obj)).Ok? && old(Held(w, obj)).None? ==> r == Ok(false)
    ensures var h := old(Held(w, obj));
            h.Some? ==> Applied(r, h.value.elements) == Apply(m, h.value.shape, old(h.value.elements))
    ensures var h := old(Held(w, obj));
            h.Some? ==> h.value.fields == old(h.value.fields)
  {
    var raw := WrappedFields.Provide(w, obj);
    if raw.Err? {
      r := Err(raw.error);
    } else if raw.value.Ref? && !raw.value.obj.shape.NotCollection? {
      var collection := raw.value.obj;
      match m
      case Add(index, toAdd) =>
        r := AddModify(index, toAdd, collection);
      case AddAll(values) =>
        r := AddAllModify(values, collection);
    } else {
      r := Ok(false);
    }
  }

  /**
   * WrappedField.set(object, modifier): false without consulting the policy
   * when the field is absent; otherwise exactly what the policy's modify
   * does and returns.
   */
  method SetWithModifier(w: WrappedFields.WrappedField, obj: JObject, m: CollectionModifier) returns (r: Result<bool>)
    modifies Footprint(w, obj)
    ensures w.handle.None? ==> r == Ok(false) && Footprint(w, obj) == {}
    ensures obj.fields == old(obj.fields)
    ensures w.handle.Some? && old(WrappedFields.Provide(w, obj)).Err? ==> r == Err(old(WrappedFields.Provide(w, obj)).error)
    ensures w.handle.Some? && old(WrappedFields.Provide(w, obj)).Ok? && old(Held(w, obj)).None? ==> r == Ok(false)
    ensures var h := old(Held(w, obj));
            h.Some? ==> Applied(r, h.value.elements) == Apply(m, h.value.shape, old(h.value.elements))
    ensures var h := old(Held(w, obj));
            h.Some? ==> h.value.fields == old(h.value.fields)
  {
    r := Ok(false);
    if w.handle.Some? {
      r := Modify(m, w, obj);
    }
  }

  // ---------------------------------------------------------------------
  // The descriptors the source looks up
  // ---------------------------------------------------------------------

  /**
   * The source resolves ADD as getMethod(boolean, "add", Object) on
   * Collection, ADD_INDEX as getMethod("add", int, Object) on List, and
   * ADD_ALL as getMethod(boolean, "addAll", Collection) on Collection. Given
   * the JDK's signatures (Collection declares add(Object) and
   * addAll(Collection); List adds add(int, Object)), each lookup requests
   * a declared parameter list exactly, and the parameter rule as written
   * rejects it at the first position: all three descriptors are absent.
   * Only reflexivity of assignability is assumed, which Class.isAssignableFrom
   * has.
   */
  lemma AddDescriptorsAbsent(af: Assignability, collection: ClassInfo, list: ClassInfo)
    requires Reflexive(af)
    requires forall i :: 0 <= i < |collection.methods| && collection.methods[i].name == "add" ==>
               collection.methods[i].paramTypes == [ObjectType]
    requires forall i :: 0 <= i < |collection.methods| && collection.methods[i].name == "addAll" ==>
               collection.methods[i].paramTypes == [CollectionType]
    requires forall i :: 0 <= i < |list.methods| && list.methods[i].name == "add" ==>
               list.methods[i].paramTypes == [ObjectType] || list.methods[i].paramTypes == [Primitive(Int), ObjectType]
    ensures WrappedClasses.FirstMethod(af, collection.methods, Some(Primitive(Boolean)), "add", Some([ObjectType])).None?
    ensures WrappedClasses.FirstMethod(af, list.methods, None, "add", Some([Primitive(Int), ObjectType])).None?
    ensures WrappedClasses.FirstMethod(af, collection.methods, Some(Primitive(Boolean)), "addAll", Some([CollectionType])).None?
  {
    var ms, ls := collection.methods, list.methods;
    WrappedClasses.ExactSignatureNeverFound(af, ms, Some(Primitive(Boolean)), "add", [ObjectType]);
    WrappedClasses.ExactSignatureNeverFound(af, ms, Some(Primitive(Boolean)), "addAll", [CollectionType]);
    var request := [Primitive(Int), ObjectType];
    forall i | 0 <= i < |ls|
      ensures !WrappedClasses.CompareMethods(af, None, "add", ls[i], Some(request))
    {
      if ls[i].name == "add" && ls[i].paramTypes == request {
        assert af(Primitive(Int), Primitive(Int));
      }
    }
    WrappedClasses.AnyMethodIffIndex(af, ls, None, "add", Some(request));
  }
}
